/**
 * The browser's `localStorage`, as far as the frontend uses it.
 *
 * Two families of keys are in use and never overlap: the per-device history
 * keys (prefix "caffeine_device_history_"), whose values are JSON-encoded
 * histories, and the plain-text keys "caffeine_device_id" and
 * "lastMidnightClearDate" (see `DeviceId.TextKeysAreNotHistoryKeys`). The
 * model keeps the two families apart and keeps a history decoded rather than
 * as JSON text.
 */
module BrowserStorage {

  /** A device's mirrored history: list id to "has generated" flag (`DeviceHistory`). */
  type DeviceHistory = map<string, bool>

  /** What a history key can hold: JSON written by `JSON.stringify(history)`, or other text that does not parse as a history. */
  datatype HistoryItem = Json(history: DeviceHistory) | Unparsable(text: string)

  class LocalStorage {
    /** The values stored under history keys. */
    var historyItems: map<string, HistoryItem>
    /** The values stored under the plain-text keys. */
    var textItems: map<string, string>
    /** False when every `getItem`, `setItem` and `removeItem` throws (storage disabled or refused). */
    var available: bool

    constructor (available: bool)
      ensures historyItems == map[] && textItems == map[] && this.available == available
    {
      historyItems := map[];
      textItems := map[];
      this.available := available;
    }
  }
}
