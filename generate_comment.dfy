/**
 * The device-scoped single draw (useDeviceScopedGenerateComment.ts). Without
 * an actor the mutation fails before any backend call; a drawn comment marks
 * the list as generated in this device's mirror; an error is shown verbatim
 * when it is the one-comment-per-list restriction and with a generic prefix
 * otherwise. Whether an actor exists and what the backend answers are inputs.
 */
module GenerateComment {
  import opened Backend
  import opened JsText
  import opened BrowserStorage
  import opened DeviceHistoryStorage

  const ActorUnavailable: string := "Actor not available"
  const OneCommentPerList: string := "only generate one comment per list"
  const FailurePrefix: string := "Failed to generate comment: "

  /** The error toast of `onError`: restriction errors as they are, any other error after a generic prefix. */
  function ErrorToast(message: string): (shown: string)
    ensures |shown| >= |message| && shown[|shown| - |message|..] == message
    ensures shown == message <==> Contains(message, OneCommentPerList)
    ensures !Contains(message, OneCommentPerList) ==> shown == FailurePrefix + message
  {
    if Contains(message, OneCommentPerList) then message else FailurePrefix + message
  }

  /**
   * One `mutate(listId)`: `mutationFn`, then `onSuccess` or `onError`.
   * `outcome` is how the mutation settles and `toast` the error shown, if any.
   */
  method Generate(store: LocalStorage, deviceId: string, listId: CommentListId, hasActor: bool, reply: Reply<Option<Comment>>)
    returns (outcome: Reply<Option<Comment>>, toast: Option<string>)
    modifies store`historyItems
    ensures !hasActor ==> outcome == Err(ActorUnavailable)
    ensures hasActor ==> outcome == reply
    ensures outcome.Ok? && outcome.value.Some? ==>
              store.historyItems == UpdateInto(old(store.historyItems), store.available, deviceId, listId, true)
    ensures !(outcome.Ok? && outcome.value.Some?) ==> store.historyItems == old(store.historyItems)
    ensures outcome.Err? ==> toast == Some(ErrorToast(outcome.message))
    ensures outcome.Ok? ==> toast == None
  {
    if !hasActor {
      outcome := Err(ActorUnavailable);
    } else {
      outcome := reply;
    }
    match outcome
    case Ok(comment) =>
      toast := None;
      if comment.Some? {
        UpdateDeviceHistoryEntry(store, deviceId, listId, true);
      }
    case Err(message) =>
      toast := Some(ErrorToast(message));
  }

  /** A missing actor shows as a generic failure. */
  lemma ActorUnavailableIsGeneric()
    ensures ErrorToast(ActorUnavailable) == FailurePrefix + ActorUnavailable
  {
    ShortTextContainsNoLongerText(ActorUnavailable, OneCommentPerList);
  }

  /** A text shorter than another cannot contain it. */
  lemma {:induction false} ShortTextContainsNoLongerText(s: string, sub: string)
    requires |s| < |sub|
    ensures !Contains(s, sub)
  {
    if s != [] {
      ShortTextContainsNoLongerText(s[1..], sub);
    }
  }

  /**
   * The draw hook never writes `false`: every entry that is false in any
   * device's mirror after a successful draw was already false before it.
   */
  lemma NeverWritesFalse(items: map<string, HistoryItem>, available: bool, deviceId: string, listId: CommentListId, anyDevice: string, k: CommentListId)
    requires var after := LoadFrom(UpdateInto(items, available, deviceId, listId, true), available, anyDevice);
             k in after && !after[k]
    ensures var before := LoadFrom(items, available, anyDevice);
            k in before && !before[k]
  {
    if anyDevice != deviceId {
      OtherDevicesUntouched(items, available, deviceId, anyDevice, map[], listId, true);
    }
  }
}
