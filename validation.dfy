/** The request fields of a transfer and the validation rules applied to them
    before anything is read from the ledger
    (`amount: required|integer|min:10000`, `pin: required|digits:6`,
    `send_to: required`). */
module Validation {
  import opened Records

  /** The three fields taken from the request. `amount` is `None` when the field is
      absent or does not hold an integer; `pin` and `sendTo` are `None` when absent. */
  datatype TransferRequest = TransferRequest(amount: Option<int>, pin: Option<string>, sendTo: Option<string>)

  /** The smallest amount a transfer may move. */
  const MinAmount: int := 10000

  /** The number of digits a PIN has. */
  const PinLength: nat := 6

  /** The characters PHP's `trim` strips: space, tab, LF, CR, NUL and vertical tab. */
  predicate IsTrimmed(c: char)
  {
    c == ' ' || c == '\t' || c == '\n' || c == '\r' || c == '\0' || c == 11 as char
  }

  /** True when nothing is left of `s` once trimmed. */
  predicate IsBlank(s: string)
  {
    forall i :: 0 <= i < |s| ==> IsTrimmed(s[i])
  }

  /** The `required` rule on a string field: present and not blank. */
  predicate Required(v: Option<string>)
  {
    v.Some? && !IsBlank(v.value)
  }

  /** The `digits:n` rule: exactly `n` characters, each a decimal digit. */
  predicate Digits(s: string, n: nat)
  {
    |s| == n && forall i :: 0 <= i < |s| ==> '0' <= s[i] <= '9'
  }

  /** The `required|integer|min:10000` rule on the amount. */
  predicate AmountValid(amount: Option<int>)
  {
    amount.Some? && amount.value >= MinAmount
  }

  /** The `required|digits:6` rule on the PIN. */
  predicate PinValid(pin: Option<string>)
  {
    Required(pin) && Digits(pin.value, PinLength)
  }

  /** The validator passes exactly when every field passes its rules. */
  predicate Passes(req: TransferRequest)
  {
    AmountValid(req.amount) && PinValid(req.pin) && Required(req.sendTo)
  }

  /** A PIN of six digits is never blank, so `required` adds nothing to `digits:6`. */
  lemma PinValidIsDigits(pin: Option<string>)
    ensures PinValid(pin) <==> pin.Some? && Digits(pin.value, PinLength)
  {
    if pin.Some? && Digits(pin.value, PinLength) {
      assert !IsTrimmed(pin.value[0]);
    }
  }
}
