/**
 * The user page (UserView.tsx): choosing a list, drawing one comment through
 * the device-scoped draw, checking a bulk request before the access-key
 * dialog opens, submitting that dialog, and reading whether this device has
 * drawn from a list. `parseInt(bulkCount)` is an input (`None` for NaN), as
 * are the backend's answers and the remaining count.
 */
module UserView {
  import opened Backend
  import opened JsText
  import opened Entries
  import opened BrowserStorage
  import opened DeviceHistoryStorage
  import GenerateComment

  const SelectListMessage: string := "Please select a comment list"
  const InvalidCountMessage: string := "Please enter a valid number (minimum 1)"
  const GeneratedMessage: string := "Comment generated!"
  const EmptyListMessage: string := "No comments available in this list"

  /** The message for a bulk count above what is left: "Only `remaining` comments available". */
  function NotEnoughMessage(remaining: nat): string {
    "Only " + NatToString(remaining) + " comments available"
  }

  /**
   * The guard chain of `handleBulkGenerateClick`: the error it shows, or
   * `None` when the access-key dialog may open.
   */
  function BulkGenerateError(selectedList: Option<CommentListId>, parsedCount: Option<int>, remaining: nat): (error: Option<string>)
    ensures error == None <==> IsSelected(selectedList) && parsedCount.Some? && 1 <= parsedCount.value <= remaining
    ensures !IsSelected(selectedList) ==> error == Some(SelectListMessage)
    ensures IsSelected(selectedList) && (parsedCount.None? || parsedCount.value < 1) ==> error == Some(InvalidCountMessage)
    ensures IsSelected(selectedList) && parsedCount.Some? && parsedCount.value >= 1 && parsedCount.value > remaining ==>
              error == Some(NotEnoughMessage(remaining))
  {
    if !IsSelected(selectedList) then Some(SelectListMessage)
    else if parsedCount.None? || parsedCount.value < 1 then Some(InvalidCountMessage)
    else if parsedCount.value > remaining then Some(NotEnoughMessage(remaining))
    else None
  }

  /**
   * The message shown names the check that failed: each of the three
   * messages appears exactly when its own check is the first to fail.
   */
  lemma BulkErrorNamesFailedCheck(selectedList: Option<CommentListId>, parsedCount: Option<int>, remaining: nat)
    ensures var error := BulkGenerateError(selectedList, parsedCount, remaining);
            && (error == Some(SelectListMessage) <==> !IsSelected(selectedList))
            && (error == Some(InvalidCountMessage) <==> IsSelected(selectedList) && (parsedCount.None? || parsedCount.value < 1))
            && (error == Some(NotEnoughMessage(remaining)) <==>
                  IsSelected(selectedList) && parsedCount.Some? && 1 <= parsedCount.value && parsedCount.value > remaining)
  {
    // The two "Please ..." messages part at their eighth character; the third starts with "Only".
    assert SelectListMessage[7] == 's' && InvalidCountMessage[7] == 'e';
    assert NotEnoughMessage(remaining)[0] == 'O' && SelectListMessage[0] == 'P' && InvalidCountMessage[0] == 'P';
  }

  /** `historyMap.get(listId) || false`: whether this device has drawn from the list. */
  function HasGenerated(userHistory: seq<(CommentListId, bool)>, listId: CommentListId): (generated: bool)
    ensures (forall i :: 0 <= i < |userHistory| ==> userHistory[i].0 != listId) ==> !generated
  {
    GetOr(FromEntries(userHistory), listId, false)
  }

  /** A list present in the history reads the flag of its last pair. */
  lemma HasGeneratedReadsLastFlag(userHistory: seq<(CommentListId, bool)>, i: nat)
    requires i < |userHistory|
    requires forall j :: i < j < |userHistory| ==> userHistory[j].0 != userHistory[i].0
    ensures HasGenerated(userHistory, userHistory[i].0) == userHistory[i].1
  {
    LastWins(userHistory, i);
  }

  /**
   * Before the first fetch the history is the mirror's entries, so the page
   * reads the mirror: a list is marked drawn exactly when the mirror says so.
   */
  lemma HasGeneratedFromMirror(entries: seq<(CommentListId, bool)>, mirror: DeviceHistory, listId: CommentListId)
    requires FromEntries(entries) == mirror
    ensures HasGenerated(entries, listId) <==> listId in mirror && mirror[listId]
  {
  }

  class Page {
    var selectedList: Option<CommentListId>
    var generatedComment: Option<Comment>
    var bulkComments: seq<Comment>
    var copied: bool
    var showAccessKeyDialog: bool

    constructor ()
      ensures selectedList == None && generatedComment == None && bulkComments == [] && !copied && !showAccessKeyDialog
    {
      selectedList := None;
      generatedComment := None;
      bulkComments := [];
      copied := false;
      showAccessKeyDialog := false;
    }

    /** `handleListChange`: select the list and clear every displayed result. */
    method HandleListChange(newListId: CommentListId)
      modifies this`selectedList, this`generatedComment, this`bulkComments, this`copied
      ensures selectedList == Some(newListId)
      ensures generatedComment == None && bulkComments == [] && !copied
    {
      selectedList := Some(newListId);
      generatedComment := None;
      bulkComments := [];
      copied := false;
    }

    /**
     * `handleGenerate`: without a selection nothing happens; otherwise one
     * draw goes through the device-scoped hook (whose own effects come
     * first), and a drawn comment replaces the displayed one and clears the
     * bulk results, while no comment or an error leaves the page as it was.
     */
    method HandleGenerate(store: LocalStorage, deviceId: string, hasActor: bool, reply: Reply<Option<Comment>>)
      returns (outcome: Option<Reply<Option<Comment>>>, toast: Option<string>)
      modifies this`generatedComment, this`bulkComments, store`historyItems
      ensures !IsSelected(selectedList) ==>
                outcome == None && toast == None
                && generatedComment == old(generatedComment) && bulkComments == old(bulkComments)
                && store.historyItems == old(store.historyItems)
      ensures IsSelected(selectedList) ==> outcome == Some(if hasActor then reply else Err(GenerateComment.ActorUnavailable))
      ensures IsSelected(selectedList) && outcome.value.Ok? && outcome.value.value.Some? ==>
                generatedComment == outcome.value.value && bulkComments == [] && toast == Some(GeneratedMessage)
                && store.historyItems == UpdateInto(old(store.historyItems), store.available, deviceId, selectedList.value, true)
      ensures IsSelected(selectedList) && outcome.value.Ok? && outcome.value.value.None? ==>
                generatedComment == old(generatedComment) && bulkComments == old(bulkComments) && toast == Some(EmptyListMessage)
                && store.historyItems == old(store.historyItems)
      ensures IsSelected(selectedList) && outcome.value.Err? ==>
                generatedComment == old(generatedComment) && bulkComments == old(bulkComments)
                && toast == Some(GenerateComment.ErrorToast(outcome.value.message))
                && store.historyItems == old(store.historyItems)
    {
      if !IsSelected(selectedList) {
        return None, None;
      }
      var settled, hookToast := GenerateComment.Generate(store, deviceId, selectedList.value, hasActor, reply);
      outcome := Some(settled);
      match settled
      case Ok(comment) =>
        if comment.Some? {
          generatedComment := comment;
          bulkComments := [];
          toast := Some(GeneratedMessage);
        } else {
          toast := Some(EmptyListMessage);
        }
      case Err(_) =>
        toast := hookToast;
    }

    /** `handleBulkGenerateClick`: show the guard's error, or open the access-key dialog. */
    method HandleBulkGenerateClick(parsedCount: Option<int>, remaining: nat) returns (toast: Option<string>)
      modifies this`showAccessKeyDialog
      ensures toast == BulkGenerateError(selectedList, parsedCount, remaining)
      ensures toast == None ==> showAccessKeyDialog
      ensures toast != None ==> showAccessKeyDialog == old(showAccessKeyDialog)
    {
      if !IsSelected(selectedList) {
        return Some(SelectListMessage);
      }
      if parsedCount.None? || parsedCount.value < 1 {
        return Some(InvalidCountMessage);
      }
      if parsedCount.value > remaining {
        return Some(NotEnoughMessage(remaining));
      }
      showAccessKeyDialog := true;
      toast := None;
    }

    /**
     * `handleAccessKeySubmit`: without a selection nothing is sent. A count
     * that `parseInt` read as NaN makes the mutation's `BigInt(count)` throw,
     * so nothing is sent and the call fails. Otherwise the bulk request goes
     * out with the key. Any success closes the dialog
     * and a non-empty result replaces the bulk results and clears the single
     * comment; an error leaves everything, the dialog included, as it was.
     */
    method HandleAccessKeySubmit(accessKey: string, parsedCount: Option<int>, reply: Reply<seq<Comment>>)
      returns (request: Option<BulkRequest>)
      modifies this`bulkComments, this`generatedComment, this`showAccessKeyDialog
      ensures !IsSelected(selectedList) || parsedCount.None? ==> request == None
      ensures IsSelected(selectedList) && parsedCount.Some? ==>
                request == Some(BulkRequest(selectedList.value, parsedCount.value, accessKey))
      ensures request.Some? && reply.Ok? ==> !showAccessKeyDialog
      ensures request.Some? && reply.Ok? && reply.value != [] ==> bulkComments == reply.value && generatedComment == None
      ensures !(request.Some? && reply.Ok? && reply.value != []) ==>
                bulkComments == old(bulkComments) && generatedComment == old(generatedComment)
      ensures !(request.Some? && reply.Ok?) ==> showAccessKeyDialog == old(showAccessKeyDialog)
    {
      if !IsSelected(selectedList) {
        return None;
      }
      if parsedCount.None? {
        // `BigInt(NaN)` throws inside the mutation: the mutation fails and
        // nothing reaches the backend.
        return None;
      }
      request := Some(BulkRequest(selectedList.value, parsedCount.value, accessKey));
      match reply
      case Ok(comments) =>
        if |comments| > 0 {
          bulkComments := comments;
          generatedComment := None;
        }
        showAccessKeyDialog := false;
      case Err(_) =>
    }
  }
}
