/** The normalisation and length check that the `/num` and `/aadhar`
    endpoints apply to their query parameter (app.py, `lookup_num` and
    `lookup_aadhar`): keep only the digit characters, then demand an exact
    count of them.
 */
module QueryValidation {

  import opened Wrappers

  /** Which endpoint the query was sent to. */
  datatype Kind = Phone | Aadhaar

  /** A phone number has 10 digits, an Aadhaar number 12. */
  function RequiredDigits(kind: Kind): nat {
    match kind
    case Phone => 10
    case Aadhaar => 12
  }

  /** ASCII decimal digits. */
  predicate IsDigit(ch: char) {
    '0' <= ch <= '9'
  }

  predicate AllDigits(s: string) {
    forall i :: 0 <= i < |s| ==> IsDigit(s[i])
  }

  /** The digit characters of `s`, in their order. */
  function Digits(s: string): (r: string)
    ensures |r| <= |s|
    ensures AllDigits(r)
    ensures forall ch :: ch in r <==> ch in s && IsDigit(ch)
  {
    if s == [] then []
    else if IsDigit(s[0]) then [s[0]] + Digits(s[1..])
    else Digits(s[1..])
  }

  /** Keeping the digits is a filter: it distributes over concatenation. */
  lemma {:induction false} DigitsConcat(a: string, b: string)
    ensures Digits(a + b) == Digits(a) + Digits(b)
  {
    if a == [] {
      assert a + b == b;
    } else {
      assert (a + b)[1..] == a[1..] + b;
      DigitsConcat(a[1..], b);
    }
  }

  /** A string of digits only is its own normal form. */
  lemma {:induction false} DigitsOfDigitString(s: string)
    requires AllDigits(s)
    ensures Digits(s) == s
  {
    if s != [] {
      DigitsOfDigitString(s[1..]);
    }
  }

  /** Normalising twice is normalising once. */
  lemma DigitsIdempotent(s: string)
    ensures Digits(Digits(s)) == Digits(s)
  {
    DigitsOfDigitString(Digits(s));
  }

  /** A separator, a sign or a letter anywhere in the input changes nothing. */
  lemma DigitsSkipNonDigit(a: string, ch: char, b: string)
    requires !IsDigit(ch)
    ensures Digits(a + [ch] + b) == Digits(a + b)
  {
    var x := a + [ch];
    assert [ch][1..] == [];
    var da, db := Digits(a), Digits(b);
    DigitsConcat(a, [ch]);
    assert da + [] == da;
    DigitsConcat(x, b);
    DigitsConcat(a, b);
    calc {
      Digits(x + b);
      Digits(x) + db;
      (da + Digits([ch])) + db;
      da + db;
      Digits(a + b);
    }
  }

  /** Why a query was answered with 400. */
  datatype Rejection = MissingParameter | WrongLength

  datatype Verdict = Accepted(digits: string) | Rejected(reason: Rejection)

  /** The parameter check of one endpoint: an absent or empty parameter is
      missing; otherwise its digits are kept and must number exactly
      `RequiredDigits(kind)`. */
  function Validate(kind: Kind, param: Option<string>): (v: Verdict)
    ensures v == Rejected(MissingParameter) <==> param == None || param == Some("")
    ensures v.Accepted? <==> param.Some? && |Digits(param.value)| == RequiredDigits(kind)
    ensures v.Accepted? ==> v.digits == Digits(param.value)
    ensures v.Accepted? ==> AllDigits(v.digits) && |v.digits| == RequiredDigits(kind)
  {
    match param
    case None => Rejected(MissingParameter)
    case Some(s) =>
      if s == "" then Rejected(MissingParameter)
      else
        var number := Digits(s);
        if |number| != RequiredDigits(kind) then Rejected(WrongLength)
        else Accepted(number)
  }

  /** A parameter made of digits only is accepted exactly when it has the
      required length, and then unchanged. */
  lemma ValidateDigitString(kind: Kind, s: string)
    requires AllDigits(s)
    ensures Validate(kind, Some(s)).Accepted? <==> |s| == RequiredDigits(kind)
    ensures Validate(kind, Some(s)).Accepted? ==> Validate(kind, Some(s)).digits == s
  {
    DigitsOfDigitString(s);
  }

  /** Formatting characters in a non-empty parameter do not change the
      verdict. */
  lemma ValidateSkipsNonDigit(kind: Kind, a: string, ch: char, b: string)
    requires !IsDigit(ch) && a + b != ""
    ensures Validate(kind, Some(a + [ch] + b)) == Validate(kind, Some(a + b))
  {
    DigitsSkipNonDigit(a, ch, b);
  }
}
