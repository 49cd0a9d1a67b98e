/**
 * The per-device identifier (deviceId.ts): read from storage if present,
 * otherwise generated, stored and returned. Randomness is an input: the
 * value `crypto.randomUUID()` would give (`None` when the browser lacks it)
 * and the sixteen bytes `crypto.getRandomValues` would fill in.
 */
module DeviceId {
  import opened Backend
  import opened JsText
  import opened BrowserStorage
  import DeviceHistoryStorage
  import MidnightClear

  const DeviceIdKey: string := "caffeine_device_id"

  type byte = x: int | 0 <= x < 256

  /** `byte.toString(16).padStart(2, '0')`: always two lower-case hex digits, high nibble first. */
  function ByteToHex(b: byte): (hex: string)
    ensures hex == [DigitChar(b / 16), DigitChar(b % 16)]
  {
    ByteDigits(b);
    PadStart(ToStringRadix(b, 16), 2, '0')
  }

  /** A byte has one hex digit below 16 and two from 16 on. */
  lemma ByteDigits(b: byte)
    ensures ToStringRadix(b, 16) == if b < 16 then [DigitChar(b)] else [DigitChar(b / 16), DigitChar(b % 16)]
  {
    if b >= 16 {
      assert ToStringRadix(b / 16, 16) == [DigitChar(b / 16)];
    }
  }

  /** `Array.from(bytes, byteToHex).join('')`. */
  function HexEncode(bytes: seq<byte>): (hex: string)
    ensures |hex| == 2 * |bytes|
    ensures forall i :: 0 <= i < |hex| ==> IsRadixDigit(hex[i], 16)
  {
    if bytes == [] then [] else ByteToHex(bytes[0]) + HexEncode(bytes[1..])
  }

  /** Reads a string of hex digit pairs back into bytes (a trailing odd digit is dropped). */
  function HexDecode(hex: string): seq<byte> {
    if |hex| < 2 then [] else [DigitValue(hex[0]) * 16 + DigitValue(hex[1])] + HexDecode(hex[2..])
  }

  /** The zero padding makes the encoding decodable: splitting it into pairs recovers the bytes. */
  lemma {:induction false} HexRoundTrip(bytes: seq<byte>)
    ensures HexDecode(HexEncode(bytes)) == bytes
  {
    if bytes != [] {
      var tail := HexEncode(bytes[1..]);
      assert HexEncode(bytes) == ByteToHex(bytes[0]) + tail;
      HexRoundTrip(bytes[1..]);
      DecodeFirstPair(bytes[0], tail);
      assert [bytes[0]] + bytes[1..] == bytes;
    }
  }

  /** Decoding reads a byte's two digits back as that byte, then goes on with the rest. */
  lemma DecodeFirstPair(b: byte, tail: string)
    ensures HexDecode(ByteToHex(b) + tail) == [b] + HexDecode(tail)
  {
    var hex := ByteToHex(b) + tail;
    assert hex[0] == DigitChar(b / 16) && hex[1] == DigitChar(b % 16);
    assert hex[2..] == tail;
    NibblesMakeByte(b);
  }

  lemma NibblesMakeByte(b: byte)
    ensures DigitValue(DigitChar(b / 16)) * 16 + DigitValue(DigitChar(b % 16)) == b
  {
  }

  /** `generateDeviceId()`: the random UUID when the browser has one, else the hex of sixteen random bytes. */
  function GenerateDeviceId(randomUuid: Option<string>, randomBytes: seq<byte>): (id: string)
    requires |randomBytes| == 16
    ensures randomUuid.Some? ==> id == randomUuid.value
    ensures randomUuid.None? ==> |id| == 32
  {
    if randomUuid.Some? then randomUuid.value else HexEncode(randomBytes)
  }

  /** The fallback id is 32 lower-case hex digits from which the random bytes can be read back. */
  lemma FallbackIdIsHexOfBytes(randomBytes: seq<byte>)
    requires |randomBytes| == 16
    ensures var id := GenerateDeviceId(None, randomBytes);
            && |id| == 32 && (forall i :: 0 <= i < |id| ==> IsRadixDigit(id[i], 16))
            && HexDecode(id) == randomBytes
  {
    HexRoundTrip(randomBytes);
  }

  /** The id a `getDeviceId` call would read from the given text entries, if there is a non-empty one. */
  function StoredId(textItems: map<string, string>): Option<string> {
    if DeviceIdKey in textItems && textItems[DeviceIdKey] != "" then Some(textItems[DeviceIdKey]) else None
  }

  /**
   * `getDeviceId()`. A stored non-empty id is returned and nothing is written;
   * otherwise a fresh id is generated, stored and returned; when storage is
   * unavailable a fresh id is returned and nothing is persisted.
   */
  method GetDeviceId(store: LocalStorage, randomUuid: Option<string>, randomBytes: seq<byte>) returns (id: string)
    requires |randomBytes| == 16
    requires randomUuid.Some? ==> randomUuid.value != ""
    modifies store`textItems
    ensures !store.available ==> id == GenerateDeviceId(randomUuid, randomBytes) && store.textItems == old(store.textItems)
    ensures store.available && StoredId(old(store.textItems)).Some? ==>
              id == StoredId(old(store.textItems)).value && store.textItems == old(store.textItems)
    ensures store.available && StoredId(old(store.textItems)).None? ==>
              id == GenerateDeviceId(randomUuid, randomBytes) && store.textItems == old(store.textItems)[DeviceIdKey := id]
    ensures store.available ==> StoredId(store.textItems) == Some(id)
  {
    if !store.available {
      // localStorage throws: a session-only id
      id := GenerateDeviceId(randomUuid, randomBytes);
      return;
    }
    if DeviceIdKey in store.textItems && store.textItems[DeviceIdKey] != "" {
      id := store.textItems[DeviceIdKey];
      return;
    }
    id := GenerateDeviceId(randomUuid, randomBytes);
    assert id != "";
    store.textItems := store.textItems[DeviceIdKey := id];
    assert store.textItems[DeviceIdKey] == id;
  }

  /** `clearDeviceId()`: removes the stored id; a storage failure is swallowed. */
  method ClearDeviceId(store: LocalStorage)
    modifies store`textItems
    ensures store.available ==> store.textItems == old(store.textItems) - {DeviceIdKey} && StoredId(store.textItems) == None
    ensures !store.available ==> store.textItems == old(store.textItems)
  {
    if store.available {
      store.textItems := store.textItems - {DeviceIdKey};
    }
  }

  /** Once an id is obtained on working storage, the next call returns the same id and writes nothing. */
  method GetDeviceIdTwice(store: LocalStorage, uuid1: Option<string>, bytes1: seq<byte>, uuid2: Option<string>, bytes2: seq<byte>)
    returns (first: string, second: string)
    requires |bytes1| == 16 && |bytes2| == 16
    requires uuid1.Some? ==> uuid1.value != ""
    requires uuid2.Some? ==> uuid2.value != ""
    requires store.available
    modifies store`textItems
    ensures first == second
  {
    first := GetDeviceId(store, uuid1, bytes1);
    var written := store.textItems;
    second := GetDeviceId(store, uuid2, bytes2);
    assert store.textItems == written;
  }

  /** After `clearDeviceId`, the next `getDeviceId` on working storage takes the generate-and-store path. */
  method ClearThenGet(store: LocalStorage, randomUuid: Option<string>, randomBytes: seq<byte>) returns (id: string)
    requires |randomBytes| == 16
    requires randomUuid.Some? ==> randomUuid.value != ""
    requires store.available
    modifies store`textItems
    ensures id == GenerateDeviceId(randomUuid, randomBytes)
    ensures StoredId(store.textItems) == Some(id)
  {
    ClearDeviceId(store);
    id := GetDeviceId(store, randomUuid, randomBytes);
  }

  /** The plain-text keys are not of the form prefix-plus-device-id, so the history entries and the text entries never collide. */
  lemma TextKeysAreNotHistoryKeys(deviceId: string)
    ensures DeviceHistoryStorage.HistoryKey(deviceId) != DeviceIdKey
    ensures DeviceHistoryStorage.HistoryKey(deviceId) != MidnightClear.LastClearDateKey
  {
    var key := DeviceHistoryStorage.HistoryKey(deviceId);
    assert key[16] == 'h' && DeviceIdKey[16] == 'i';
    assert key[0] == 'c' && MidnightClear.LastClearDateKey[0] == 'l';
  }
}
