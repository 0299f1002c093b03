/** The "Add Payment Source" form of pages/payment_sources.py: its validator
    and the row it inserts. */
module PaymentSources {

  /** The type selectbox's two values. */
  datatype SourceType = CreditCard | BankAccount

  /** The value stored in the `type` column. */
  function TypeValue(t: SourceType): string {
    match t
    case CreditCard => "credit_card"
    case BankAccount => "bank_account"
  }

  /** The selectbox's `format_func`: "Credit Card" for 'credit_card',
      "Bank Account" for anything else. */
  function TypeLabel(value: string): (shown: string)
    ensures shown == "Credit Card" <==> value == "credit_card"
    ensures shown == "Bank Account" <==> value != "credit_card"
  {
    if value == "credit_card" then "Credit Card" else "Bank Account"
  }

  /** Each type is shown under its own label. */
  lemma LabelsMatchTypes()
    ensures TypeLabel(TypeValue(CreditCard)) == "Credit Card"
    ensures TypeLabel(TypeValue(BankAccount)) == "Bank Account"
    ensures TypeValue(CreditCard) != TypeValue(BankAccount)
  {
  }

  datatype PaymentSource = PaymentSource(name: string, sourceType: SourceType, lastFour: string, bankName: string, isActive: bool)

  /** The two error messages, in the order the checks run. */
  datatype Rejection = Incomplete | NotDigits

  datatype Validation = Accepted | Rejected(reason: Rejection)

  predicate IsDigit(c: char) {
    '0' <= c <= '9'
  }

  predicate AllDigits(s: string) {
    forall i :: 0 <= i < |s| ==> IsDigit(s[i])
  }

  /** `str.isdigit`, on ASCII: true for a non-empty string of digits. */
  function IsDigitString(s: string): (r: bool)
    ensures r <==> |s| > 0 && AllDigits(s)
  {
    if |s| == 0 then false
    else if !IsDigit(s[0]) then false
    else if |s| == 1 then true
    else
      var rest := IsDigitString(s[1..]);
      assert AllDigits(s) <==> AllDigits(s[1..]) by {
        if AllDigits(s[1..]) {
          forall i | 0 <= i < |s| ensures IsDigit(s[i]) {
            if i > 0 {
              assert s[i] == s[1..][i - 1];
            }
          }
        }
      }
      rest
  }

  /** The validator: a missing field or a last-four of the wrong length
      comes first, then a last-four that is not all digits. */
  function Validate(name: string, bankName: string, lastFour: string): (v: Validation)
    ensures v == Accepted <==> name != "" && bankName != "" && |lastFour| == 4 && AllDigits(lastFour)
    ensures v == Rejected(Incomplete) <==> name == "" || bankName == "" || |lastFour| != 4
  {
    if name == "" || bankName == "" || lastFour == "" || |lastFour| != 4 then Rejected(Incomplete)
    else if !IsDigitString(lastFour) then Rejected(NotDigits)
    else Accepted
  }

  /** The submit handler on the payment_sources table: an accepted
      submission appends one active row (unless the INSERT raises, shown by
      `fault`); a rejected one inserts nothing. */
  function AddSource(sources: seq<PaymentSource>, name: string, t: SourceType, bankName: string,
                     lastFour: string, fault: bool): (r: (Validation, seq<PaymentSource>))
    ensures r.0 == Validate(name, bankName, lastFour)
    ensures r.0.Rejected? || fault ==> r.1 == sources
    ensures r.0 == Accepted && !fault ==> r.1 == sources + [PaymentSource(name, t, lastFour, bankName, true)]
  {
    var v := Validate(name, bankName, lastFour);
    if v.Accepted? && !fault then (v, sources + [PaymentSource(name, t, lastFour, bankName, true)])
    else (v, sources)
  }

  /** Every stored last-four is exactly four digits, and every stored source
      is active, when only this form has written the table. */
  lemma AddSourceKeepsInvariant(sources: seq<PaymentSource>, name: string, t: SourceType, bankName: string,
                                lastFour: string, fault: bool)
    requires forall s :: s in sources ==> |s.lastFour| == 4 && AllDigits(s.lastFour) && s.isActive && s.name != ""
    ensures forall s :: s in AddSource(sources, name, t, bankName, lastFour, fault).1 ==>
      |s.lastFour| == 4 && AllDigits(s.lastFour) && s.isActive && s.name != ""
  {
  }

  /** Both checks fail on "12a": the length message wins. */
  lemma IncompleteTakesPrecedence()
    ensures Validate("Card", "Bank", "12a") == Rejected(Incomplete)
    ensures Validate("Card", "Bank", "12a4") == Rejected(NotDigits)
    ensures Validate("Card", "Bank", "1234") == Accepted
  {
    assert !IsDigit("12a4"[2]);
  }
}
