/**
 * The upload page (UploadSection.tsx): adding one comment to a chosen list,
 * and the bulk request behind the access-key dialog. Unlike the user page,
 * the bulk check here has no upper bound against the remaining count.
 * `parseInt(bulkCount)` and `Date.now()` are inputs, as are the backend's answers.
 */
module UploadSection {
  import opened Backend
  import opened JsText
  import UserView

  const SelectListMessage: string := "Please select a comment list"
  const EmptyCommentMessage: string := "Please enter a comment"
  const InvalidCountMessage: string := "Please enter a valid number (minimum 1)"

  /** The guard chain of this page's `handleBulkGenerateClick`: a selection and a count of at least one. */
  function BulkCountError(selectedList: Option<CommentListId>, parsedCount: Option<int>): (error: Option<string>)
    ensures error == None <==> IsSelected(selectedList) && parsedCount.Some? && parsedCount.value >= 1
    ensures !IsSelected(selectedList) ==> error == Some(SelectListMessage)
    ensures IsSelected(selectedList) && error != None ==> error == Some(InvalidCountMessage)
  {
    if !IsSelected(selectedList) then Some(SelectListMessage)
    else if parsedCount.None? || parsedCount.value < 1 then Some(InvalidCountMessage)
    else None
  }

  /**
   * This page lets through every request the user page lets through, and
   * also those asking for more than remains, which the user page refuses.
   */
  lemma LooserThanUserPage(selectedList: Option<CommentListId>, parsedCount: Option<int>, remaining: nat)
    ensures UserView.BulkGenerateError(selectedList, parsedCount, remaining) == None ==> BulkCountError(selectedList, parsedCount) == None
    ensures IsSelected(selectedList) && parsedCount.Some? && parsedCount.value > remaining && parsedCount.value >= 1 ==>
              BulkCountError(selectedList, parsedCount) == None
              && UserView.BulkGenerateError(selectedList, parsedCount, remaining) == Some(UserView.NotEnoughMessage(remaining))
  {
  }

  class Page {
    var selectedList: Option<CommentListId>
    var commentText: string
    var bulkComments: seq<Comment>
    var showAccessKeyDialog: bool

    constructor ()
      ensures selectedList == None && commentText == "" && bulkComments == [] && !showAccessKeyDialog
    {
      selectedList := None;
      commentText := "";
      bulkComments := [];
      showAccessKeyDialog := false;
    }

    /**
     * `handleAddComment`: without a selection, or with blank text, an error
     * is shown and nothing is sent. Otherwise the trimmed text goes out under
     * the id `${Date.now()}`, and a success clears both the text and the selection.
     */
    method HandleAddComment(now: nat, succeeds: bool) returns (sent: Option<NewComment>, toast: Option<string>)
      modifies this`commentText, this`selectedList
      ensures !IsSelected(old(selectedList)) ==> sent == None && toast == Some(SelectListMessage)
      ensures IsSelected(old(selectedList)) && IsBlank(old(commentText)) ==> sent == None && toast == Some(EmptyCommentMessage)
      ensures IsSelected(old(selectedList)) && !IsBlank(old(commentText)) ==>
                toast == None && sent == Some(NewComment(old(selectedList).value, NatToString(now), Trim(old(commentText))))
      ensures sent.Some? ==> sent.value.content != "" && sent.value.content == Trim(sent.value.content)
      ensures sent.Some? && succeeds ==> commentText == "" && selectedList == None
      ensures !(sent.Some? && succeeds) ==> commentText == old(commentText) && selectedList == old(selectedList)
    {
      if !IsSelected(selectedList) {
        return None, Some(SelectListMessage);
      }
      if Trim(commentText) == "" {
        return None, Some(EmptyCommentMessage);
      }
      TrimIdempotent(commentText);
      sent := Some(NewComment(selectedList.value, NatToString(now), Trim(commentText)));
      toast := None;
      if succeeds {
        commentText := "";
        selectedList := None;
      }
    }

    /** `handleBulkGenerateClick`: show the guard's error, or open the access-key dialog. */
    method HandleBulkGenerateClick(parsedCount: Option<int>) returns (toast: Option<string>)
      modifies this`showAccessKeyDialog
      ensures toast == BulkCountError(selectedList, parsedCount)
      ensures toast == None ==> showAccessKeyDialog
      ensures toast != None ==> showAccessKeyDialog == old(showAccessKeyDialog)
    {
      if !IsSelected(selectedList) {
        return Some(SelectListMessage);
      }
      if parsedCount.None? || parsedCount.value < 1 {
        return Some(InvalidCountMessage);
      }
      showAccessKeyDialog := true;
      toast := None;
    }

    /**
     * `handleAccessKeySubmit`: without a selection nothing is sent. A count
     * that `parseInt` read as NaN makes the mutation's `BigInt(count)` throw,
     * so nothing is sent and the call fails. Otherwise the bulk request goes
     * out with the key. Any success closes the dialog
     * and a non-empty result replaces the displayed results; an error leaves
     * everything, the dialog included, as it was.
     */
    method HandleAccessKeySubmit(accessKey: string, parsedCount: Option<int>, reply: Reply<seq<Comment>>)
      returns (request: Option<BulkRequest>)
      modifies this`bulkComments, this`showAccessKeyDialog
      ensures !IsSelected(selectedList) || parsedCount.None? ==> request == None
      ensures IsSelected(selectedList) && parsedCount.Some? ==>
                request == Some(BulkRequest(selectedList.value, parsedCount.value, accessKey))
      ensures request.Some? && reply.Ok? ==> !showAccessKeyDialog
      ensures request.Some? && reply.Ok? && reply.value != [] ==> bulkComments == reply.value
      ensures !(request.Some? && reply.Ok? && reply.value != []) ==> bulkComments == old(bulkComments)
      ensures !(request.Some? && reply.Ok?) ==> showAccessKeyDialog == old(showAccessKeyDialog)
    {
      if !IsSelected(selectedList) {
        return None;
      }
      if parsedCount.None? {
        // `BigInt(NaN)` throws inside the mutation: the mutation fails and
        // nothing reaches the backend.
        return None;
      }
      request := Some(BulkRequest(selectedList.value, parsedCount.value, accessKey));
      match reply
      case Ok(comments) =>
        if |comments| > 0 {
          bulkComments := comments;
        }
        showAccessKeyDialog := false;
      case Err(_) =>
    }
  }
}
