/**
 * The four-digit PIN dialog in front of the admin panel (AdminPinDialog.tsx).
 * Input is reduced to at most four digits; a submit with fewer digits is
 * refused, and a four-digit PIN is compared with the admin access code. The
 * code itself lives outside this model and is a parameter, and the short
 * validation delay is taken as already elapsed. The calls the dialog makes
 * to its parent (`onSuccess`, `onCancel`, `onOpenChange`) are recorded in order.
 */
module AdminPinDialog {
  import opened JsText

  const LengthError: string := "Please enter a 4-digit code"
  const WrongCodeError: string := "Incorrect access code. Please try again."

  /** A call the dialog makes to its parent. */
  datatype ParentCall = SuccessCalled | CancelCalled | OpenChangeCalled(open: bool)

  /** `value.replace(/\D/g, '').slice(0, 4)`: the first four digits of the input. */
  function SanitizePin(value: string): (pin: string)
    ensures |pin| <= 4
    ensures forall i :: 0 <= i < |pin| ==> IsDigit(pin[i])
    ensures pin <= DigitsOnly(value)
    ensures |pin| == if |DigitsOnly(value)| < 4 then |DigitsOnly(value)| else 4
  {
    var digits := DigitsOnly(value);
    if |digits| <= 4 then digits else digits[..4]
  }

  /** Sanitising a sanitised PIN changes nothing. */
  lemma SanitizeIdempotent(value: string)
    ensures SanitizePin(SanitizePin(value)) == SanitizePin(value)
  {
    DigitsOnlyOfDigits(SanitizePin(value));
  }

  /** Typing more after four digits changes nothing. */
  lemma {:induction false} FullPinIgnoresMore(value: string, more: string)
    requires |SanitizePin(value)| == 4
    ensures SanitizePin(value + more) == SanitizePin(value)
  {
    DigitsOnlyAppend(value, more);
    assert (DigitsOnly(value) + DigitsOnly(more))[..4] == DigitsOnly(value)[..4];
  }

  /** How a submit ends. */
  datatype SubmitOutcome = TooShort | Accepted | Rejected

  /** The decision of `handleSubmit`: refuse a PIN that is not four long, then compare it with the code. */
  function Decide(pin: string, adminCode: string): (outcome: SubmitOutcome)
    ensures outcome == TooShort <==> |pin| != 4
    ensures outcome == Accepted <==> |pin| == 4 && pin == adminCode
    ensures outcome == Rejected <==> |pin| == 4 && pin != adminCode
  {
    if |pin| != 4 then TooShort else if pin == adminCode then Accepted else Rejected
  }

  /**
   * Whatever is typed, the dialog accepts only a code of exactly four
   * digits: any other admin access code can never be entered.
   */
  lemma AcceptedCodeIsFourDigits(typed: string, adminCode: string)
    requires Decide(SanitizePin(typed), adminCode) == Accepted
    ensures |adminCode| == 4 && forall i :: 0 <= i < 4 ==> IsDigit(adminCode[i])
  {
  }

  /** A four-digit code is accepted when exactly its digits are typed, whatever else is typed around them. */
  lemma CodeDigitsAreAccepted(typed: string, adminCode: string)
    requires DigitsOnly(typed) == adminCode && |adminCode| == 4
    ensures Decide(SanitizePin(typed), adminCode) == Accepted
  {
  }

  class PinDialog {
    var pin: string
    var error: string
    var isValidating: bool
    var parentCalls: seq<ParentCall>

    constructor ()
      ensures pin == "" && error == "" && !isValidating && parentCalls == []
    {
      pin := "";
      error := "";
      isValidating := false;
      parentCalls := [];
    }

    /** The state every handler keeps: the PIN is at most four digits. */
    predicate Valid()
      reads this
    {
      |pin| <= 4 && forall i :: 0 <= i < |pin| ==> IsDigit(pin[i])
    }

    /** `handlePinChange`: the PIN becomes the sanitised input and the error is cleared. */
    method HandlePinChange(value: string)
      modifies this`pin, this`error
      ensures pin == SanitizePin(value) && error == ""
      ensures Valid()
    {
      pin := SanitizePin(value);
      error := "";
    }

    /**
     * `handleSubmit`, with the delayed check run to completion. A PIN that is
     * not four long sets the length error; a matching one clears PIN and
     * error and calls `onSuccess`; a wrong one keeps the PIN and sets the
     * wrong-code error. Validation is over after either comparison.
     */
    method HandleSubmit(adminCode: string) returns (outcome: SubmitOutcome)
      requires Valid()
      modifies this`pin, this`error, this`isValidating, this`parentCalls
      ensures Valid()
      ensures outcome == Decide(old(pin), adminCode)
      ensures outcome == TooShort ==>
                error == LengthError && pin == old(pin) && isValidating == old(isValidating) && parentCalls == old(parentCalls)
      ensures outcome == Accepted ==>
                pin == "" && error == "" && !isValidating && parentCalls == old(parentCalls) + [SuccessCalled]
      ensures outcome == Rejected ==>
                pin == old(pin) && error == WrongCodeError && !isValidating && parentCalls == old(parentCalls)
    {
      if |pin| != 4 {
        error := LengthError;
        return TooShort;
      }
      isValidating := true;
      if pin == adminCode {
        pin := "";
        error := "";
        isValidating := false;
        parentCalls := parentCalls + [SuccessCalled];
        outcome := Accepted;
      } else {
        error := WrongCodeError;
        isValidating := false;
        outcome := Rejected;
      }
    }

    /** `handleCancel`: everything is reset and `onCancel` is called. */
    method HandleCancel()
      modifies this`pin, this`error, this`isValidating, this`parentCalls
      ensures pin == "" && error == "" && !isValidating && parentCalls == old(parentCalls) + [CancelCalled]
      ensures Valid()
    {
      pin := "";
      error := "";
      isValidating := false;
      parentCalls := parentCalls + [CancelCalled];
    }

    /** `handleOpenChange(newOpen)`: closing cancels first; the parent hears of the change either way. */
    method HandleOpenChange(newOpen: bool)
      requires Valid()
      modifies this`pin, this`error, this`isValidating, this`parentCalls
      ensures Valid()
      ensures !newOpen ==> pin == "" && error == "" && !isValidating
                           && parentCalls == old(parentCalls) + [CancelCalled, OpenChangeCalled(false)]
      ensures newOpen ==> pin == old(pin) && error == old(error) && isValidating == old(isValidating)
                          && parentCalls == old(parentCalls) + [OpenChangeCalled(true)]
    {
      if !newOpen {
        HandleCancel();
      }
      parentCalls := parentCalls + [OpenChangeCalled(newOpen)];
    }
  }
}
