/**
 * The device-scoped history query (useDeviceScopedUserCommentHistory.ts).
 * A fetch asks the backend for the device's (list id, has generated) pairs,
 * rebuilds the local mirror from them alone (the backend is the source of
 * truth) and returns them unchanged; before the first fetch, the mirror's
 * entries serve as initial data. Whether an actor exists and what the
 * backend answers are inputs.
 */
module UserCommentHistory {
  import opened Backend
  import opened BrowserStorage
  import opened Entries
  import opened DeviceHistoryStorage

  /** The `forEach` of `queryFn`: each backend pair assigned, in order, into an empty object. */
  method BuildHistoryMap(backendHistory: seq<(CommentListId, bool)>) returns (historyMap: DeviceHistory)
    ensures historyMap == FromEntries(backendHistory)
  {
    historyMap := map[];
    var i := 0;
    while i < |backendHistory|
      invariant 0 <= i <= |backendHistory|
      invariant historyMap == FromEntries(backendHistory[..i])
    {
      var (listId, hasGenerated) := backendHistory[i];
      FromEntriesSnoc(backendHistory[..i], backendHistory[i]);
      assert backendHistory[..i + 1] == backendHistory[..i] + [backendHistory[i]];
      historyMap := historyMap[listId := hasGenerated];
      i := i + 1;
    }
    assert backendHistory[..i] == backendHistory;
  }

  /**
   * `queryFn`. Without an actor: the empty list, and the mirror is not touched.
   * A rejected backend call rejects the query and leaves the mirror as it was.
   * Otherwise the device's mirror is overwritten with the map built from the
   * backend's list, and that list is returned as it came.
   */
  method QueryFn(store: LocalStorage, deviceId: string, hasActor: bool, backendReply: Reply<seq<(CommentListId, bool)>>)
    returns (result: Reply<seq<(CommentListId, bool)>>)
    modifies store`historyItems
    ensures !hasActor ==> result == Ok([]) && store.historyItems == old(store.historyItems)
    ensures hasActor ==> result == backendReply
    ensures hasActor && backendReply.Ok? ==>
              store.historyItems == SaveInto(old(store.historyItems), store.available, deviceId, FromEntries(backendReply.value))
    ensures hasActor && backendReply.Err? ==> store.historyItems == old(store.historyItems)
  {
    if !hasActor {
      return Ok([]);
    }
    match backendReply
    case Err(_) =>
      result := backendReply;
    case Ok(backendHistory) =>
      var historyMap := BuildHistoryMap(backendHistory);
      SaveDeviceHistory(store, deviceId, historyMap);
      result := Ok(backendHistory);
  }

  /** `initialData`: the entries of the device's mirrored history, each list once. */
  method InitialData(store: LocalStorage, deviceId: string) returns (entries: seq<(CommentListId, bool)>)
    ensures var mirror := LoadFrom(store.historyItems, store.available, deviceId);
            && (forall i :: 0 <= i < |entries| ==> entries[i].0 in mirror && mirror[entries[i].0] == entries[i].1)
            && (forall listId :: listId in mirror ==> exists i :: 0 <= i < |entries| && entries[i].0 == listId)
            && FromEntries(entries) == mirror
    ensures forall i, j :: 0 <= i < j < |entries| ==> entries[i].0 != entries[j].0
  {
    var localHistory := LoadDeviceHistory(store, deviceId);
    entries := ObjectEntries(localHistory);
    assert forall listId :: listId in localHistory ==> listId in FromEntries(entries);
  }

  /**
   * After a fetch on working storage, the device's mirror holds exactly the
   * backend's list ids (local-only entries are gone), and each one carries
   * the flag of its last occurrence in the backend's list.
   */
  lemma {:induction false} MirrorFollowsBackend(items: map<string, HistoryItem>, deviceId: string, backendHistory: seq<(CommentListId, bool)>)
    ensures var mirror := LoadFrom(SaveInto(items, true, deviceId, FromEntries(backendHistory)), true, deviceId);
            && (forall listId :: listId in mirror <==> exists i :: 0 <= i < |backendHistory| && backendHistory[i].0 == listId)
            && forall i :: 0 <= i < |backendHistory| && (forall j :: i < j < |backendHistory| ==> backendHistory[j].0 != backendHistory[i].0) ==>
                 mirror[backendHistory[i].0] == backendHistory[i].1
  {
    var mirror := LoadFrom(SaveInto(items, true, deviceId, FromEntries(backendHistory)), true, deviceId);
    assert mirror == FromEntries(backendHistory);
    forall i | 0 <= i < |backendHistory| && (forall j :: i < j < |backendHistory| ==> backendHistory[j].0 != backendHistory[i].0)
      ensures mirror[backendHistory[i].0] == backendHistory[i].1
    {
      LastWins(backendHistory, i);
    }
  }

  /** A fetch writes only the calling device's mirror. */
  lemma FetchWritesOnlyThisDevice(items: map<string, HistoryItem>, available: bool, deviceId: string, other: string,
                                  backendHistory: seq<(CommentListId, bool)>)
    requires other != deviceId
    ensures LoadFrom(SaveInto(items, available, deviceId, FromEntries(backendHistory)), available, other) == LoadFrom(items, available, other)
  {
    OtherDevicesUntouched(items, available, deviceId, other, FromEntries(backendHistory), "", false);
  }
}
