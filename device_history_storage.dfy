/**
 * The local mirror of each device's comment history (deviceHistoryStorage.ts):
 * one storage entry per device id, holding that device's list-id-to-flag map.
 * Every operation swallows storage failures: a load that fails yields the
 * empty history and a save or clear that fails does nothing.
 *
 * The functions `LoadFrom`, `SaveInto`, `UpdateInto` and `RemoveFrom` say
 * what each operation does to the stored entries; the methods perform it on a
 * `LocalStorage`, and the lemmas state the mirror's properties.
 */
module DeviceHistoryStorage {
  import opened Backend
  import opened BrowserStorage

  const HistoryKeyPrefix: string := "caffeine_device_history_"

  /** The storage key of a device's history: the fixed prefix followed by the device id. */
  function HistoryKey(deviceId: string): (key: string)
    ensures HistoryKeyPrefix <= key && key[|HistoryKeyPrefix|..] == deviceId
  {
    HistoryKeyPrefix + deviceId
  }

  /** Distinct device ids never share a storage key. */
  lemma HistoryKeyInjective(a: string, b: string)
    requires a != b
    ensures HistoryKey(a) != HistoryKey(b)
  {
  }

  /** The history `loadDeviceHistory` returns from the given storage entries. */
  function LoadFrom(items: map<string, HistoryItem>, available: bool, deviceId: string): DeviceHistory {
    var key := HistoryKey(deviceId);
    if available && key in items && items[key].Json? then items[key].history else map[]
  }

  /** The storage entries after `saveDeviceHistory(deviceId, history)`. */
  function SaveInto(items: map<string, HistoryItem>, available: bool, deviceId: string, history: DeviceHistory): map<string, HistoryItem> {
    if available then items[HistoryKey(deviceId) := Json(history)] else items
  }

  /** The storage entries after `updateDeviceHistoryEntry(deviceId, listId, hasGenerated)`: load, set one entry, save. */
  function UpdateInto(items: map<string, HistoryItem>, available: bool, deviceId: string, listId: CommentListId, hasGenerated: bool): map<string, HistoryItem> {
    SaveInto(items, available, deviceId, LoadFrom(items, available, deviceId)[listId := hasGenerated])
  }

  /** The storage entries after `clearDeviceHistory(deviceId)`. */
  function RemoveFrom(items: map<string, HistoryItem>, available: bool, deviceId: string): map<string, HistoryItem> {
    if available then items - {HistoryKey(deviceId)} else items
  }

  method LoadDeviceHistory(store: LocalStorage, deviceId: string) returns (history: DeviceHistory)
    ensures history == LoadFrom(store.historyItems, store.available, deviceId)
    ensures !store.available ==> history == map[]
  {
    if !store.available {
      // getItem throws; the catch returns {}
      return map[];
    }
    var key := HistoryKey(deviceId);
    if key !in store.historyItems {
      return map[];
    }
    match store.historyItems[key]
    case Unparsable(_) =>
      // the empty string is falsy; any other such text makes JSON.parse throw
      history := map[];
    case Json(h) =>
      history := h;
  }

  method SaveDeviceHistory(store: LocalStorage, deviceId: string, history: DeviceHistory)
    modifies store`historyItems
    ensures store.historyItems == SaveInto(old(store.historyItems), store.available, deviceId, history)
  {
    if store.available {
      store.historyItems := store.historyItems[HistoryKey(deviceId) := Json(history)];
    }
  }

  method UpdateDeviceHistoryEntry(store: LocalStorage, deviceId: string, listId: CommentListId, hasGenerated: bool)
    modifies store`historyItems
    ensures store.historyItems == UpdateInto(old(store.historyItems), store.available, deviceId, listId, hasGenerated)
  {
    var history := LoadDeviceHistory(store, deviceId);
    history := history[listId := hasGenerated];
    SaveDeviceHistory(store, deviceId, history);
  }

  method ClearDeviceHistory(store: LocalStorage, deviceId: string)
    modifies store`historyItems
    ensures store.historyItems == RemoveFrom(old(store.historyItems), store.available, deviceId)
  {
    if store.available {
      store.historyItems := store.historyItems - {HistoryKey(deviceId)};
    }
  }

  /** A device with nothing stored, or with text that is not a history, loads as the empty history. */
  lemma LoadWithoutHistory(items: map<string, HistoryItem>, available: bool, deviceId: string)
    requires HistoryKey(deviceId) !in items || items[HistoryKey(deviceId)].Unparsable?
    ensures LoadFrom(items, available, deviceId) == map[]
  {
  }

  /** Saving a history and loading it back gives the same history. */
  lemma SaveThenLoad(items: map<string, HistoryItem>, deviceId: string, history: DeviceHistory)
    ensures LoadFrom(SaveInto(items, true, deviceId, history), true, deviceId) == history
  {
  }

  /** Saving, updating or clearing one device's history leaves every other device's history as it was. */
  lemma OtherDevicesUntouched(items: map<string, HistoryItem>, available: bool, deviceId: string, other: string,
                              history: DeviceHistory, listId: CommentListId, hasGenerated: bool)
    requires other != deviceId
    ensures LoadFrom(SaveInto(items, available, deviceId, history), available, other) == LoadFrom(items, available, other)
    ensures LoadFrom(UpdateInto(items, available, deviceId, listId, hasGenerated), available, other) == LoadFrom(items, available, other)
    ensures LoadFrom(RemoveFrom(items, available, deviceId), available, other) == LoadFrom(items, available, other)
  {
    HistoryKeyInjective(deviceId, other);
  }

  /** An update sets the one entry it names and leaves the device's other entries as they were. */
  lemma UpdateSetsOneEntry(items: map<string, HistoryItem>, deviceId: string, listId: CommentListId, hasGenerated: bool)
    ensures var after := LoadFrom(UpdateInto(items, true, deviceId, listId, hasGenerated), true, deviceId);
            var before := LoadFrom(items, true, deviceId);
            && listId in after && after[listId] == hasGenerated
            && after.Keys == before.Keys + {listId}
            && forall k :: k in before && k != listId ==> after[k] == before[k]
  {
  }

  /** Applying the same update twice stores the same as applying it once. */
  lemma UpdateIdempotent(items: map<string, HistoryItem>, available: bool, deviceId: string, listId: CommentListId, hasGenerated: bool)
    ensures var once := UpdateInto(items, available, deviceId, listId, hasGenerated);
            UpdateInto(once, available, deviceId, listId, hasGenerated) == once
  {
    var once := UpdateInto(items, available, deviceId, listId, hasGenerated);
    if available {
      var h := LoadFrom(items, available, deviceId)[listId := hasGenerated];
      assert LoadFrom(once, available, deviceId) == h;
      assert h[listId := hasGenerated] == h;
    }
  }

  /** After a clear, the device loads as the empty history. */
  lemma ClearThenLoad(items: map<string, HistoryItem>, available: bool, deviceId: string)
    ensures LoadFrom(RemoveFrom(items, available, deviceId), available, deviceId) == map[]
  {
  }

  /** When storage fails, load yields the empty history and save, update and clear change nothing. */
  lemma FailuresAreSilent(items: map<string, HistoryItem>, deviceId: string, history: DeviceHistory, listId: CommentListId, hasGenerated: bool)
    ensures LoadFrom(items, false, deviceId) == map[]
    ensures SaveInto(items, false, deviceId, history) == items
    ensures UpdateInto(items, false, deviceId, listId, hasGenerated) == items
    ensures RemoveFrom(items, false, deviceId) == items
  {
  }
}
