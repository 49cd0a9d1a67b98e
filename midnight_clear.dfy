/**
 * The once-a-day clear of all comment lists (useMidnightCommentListClear.ts).
 * While enabled, a check runs on mount and then every minute; it asks the
 * backend to clear all lists when the date recorded for the last clear is
 * not today and the local hour is 0, and records today's date only when the
 * clear succeeds. The clock is an input: `today` stands for
 * `now.toDateString()` and `hour` for `now.getHours()`; each call is one check.
 */
module MidnightClear {
  import opened Backend
  import opened BrowserStorage

  const LastClearDateKey: string := "lastMidnightClearDate"

  /** `localStorage.getItem(LastClearDateKey)`: the recorded date, or `None` for null. */
  function LastClearDate(textItems: map<string, string>): Option<string> {
    if LastClearDateKey in textItems then Some(textItems[LastClearDateKey]) else None
  }

  /** Whether a check at (`today`, `hour`) asks for a clear, given the recorded date. */
  predicate ClearDue(lastClearDate: Option<string>, today: string, hour: nat) {
    lastClearDate != Some(today) && hour == 0
  }

  /**
   * One `checkAndClearAtMidnight` run, or nothing when the hook is disabled.
   * `clearSucceeds` is the outcome of the clear mutation, if one is requested.
   * A storage failure aborts the check before any clear is requested.
   */
  method CheckAndClearAtMidnight(store: LocalStorage, isEnabled: bool, today: string, hour: nat, clearSucceeds: bool)
    returns (clearRequested: bool)
    requires hour < 24
    modifies store`textItems
    ensures !isEnabled || !store.available ==> !clearRequested && store.textItems == old(store.textItems)
    ensures clearRequested <==> isEnabled && store.available && ClearDue(LastClearDate(old(store.textItems)), today, hour)
    ensures clearRequested && clearSucceeds ==> store.textItems == old(store.textItems)[LastClearDateKey := today]
    ensures !(clearRequested && clearSucceeds) ==> store.textItems == old(store.textItems)
  {
    clearRequested := false;
    if !isEnabled {
      return;
    }
    if !store.available {
      // getItem throws; the catch only logs
      return;
    }
    var lastClearDate := if LastClearDateKey in store.textItems then Some(store.textItems[LastClearDateKey]) else None;
    if lastClearDate != Some(today) {
      if hour == 0 {
        clearRequested := true;
        if clearSucceeds {
          store.textItems := store.textItems[LastClearDateKey := today];
        }
      }
    }
  }

  /**
   * Two checks on the same day: after a successful clear the second asks for
   * nothing; after a failed one, a second check still within hour 0 asks again.
   */
  method CheckTwiceSameDay(store: LocalStorage, today: string, firstHour: nat, firstSucceeds: bool, secondHour: nat, secondSucceeds: bool)
    returns (first: bool, second: bool)
    requires firstHour < 24 && secondHour < 24
    modifies store`textItems
    ensures first ==> firstHour == 0
    ensures first && firstSucceeds ==> !second
    ensures first && !firstSucceeds && secondHour == 0 ==> second
  {
    first := CheckAndClearAtMidnight(store, true, today, firstHour, firstSucceeds);
    second := CheckAndClearAtMidnight(store, true, today, secondHour, secondSucceeds);
  }
}
