/** The slice of JavaScript value semantics the platform's rules depend on:
    which values are falsy, what `String(v)` prints and what `a || b`
    returns for optional string fields. */
module Js {
  import opened Wrappers

  /** A JSON-shaped JavaScript value. Numbers are integers: no rule of the
      platform depends on fractions, NaN or infinities. */
  datatype JsValue = Undefined | Null | Bool(b: bool) | Num(n: int) | Str(s: string)

  /** JavaScript truthiness: `undefined`, `null`, `false`, `0` and `""` are falsy. */
  predicate Truthy(v: JsValue) {
    match v
    case Undefined => false
    case Null => false
    case Bool(b) => b
    case Num(n) => n != 0
    case Str(s) => s != []
  }

  /** `field || fallback` for an optional string field: an absent or empty
      string falls back. */
  function StrOr(field: Option<string>, fallback: string): (r: string)
    ensures field.Some? && field.value != [] ==> r == field.value
    ensures field.None? || field.value == [] ==> r == fallback
  {
    if field.Some? && field.value != [] then field.value else fallback
  }

  /** The decimal digit for `d`. */
  function Digit(d: nat): (c: char)
    requires d < 10
    ensures '0' <= c <= '9'
  {
    "0123456789"[d]
  }

  /** Decimal digits of a natural number, most significant first, no leading zeros. */
  function NatToDecimal(n: nat): (r: string)
    ensures |r| >= 1
    ensures forall i :: 0 <= i < |r| ==> '0' <= r[i] <= '9'
    ensures n > 0 ==> r[0] != '0'
    decreases n
  {
    if n < 10 then [Digit(n)] else NatToDecimal(n / 10) + [Digit(n % 10)]
  }

  /** The number a string of decimal digits denotes, most significant first:
      the reference reading of `NatToDecimal`'s output. */
  function DecimalValue(s: string): (v: nat)
    requires forall i :: 0 <= i < |s| ==> '0' <= s[i] <= '9'
    ensures s == [] ==> v == 0
    decreases |s|
  {
    if s == [] then 0 else DecimalValue(s[..|s| - 1]) * 10 + (s[|s| - 1] as int - '0' as int)
  }

  /** Canonical decimal notation: at least one digit and no leading zero
      unless the number is zero itself. */
  predicate Canonical(s: string) {
    && |s| >= 1
    && (forall i :: 0 <= i < |s| ==> '0' <= s[i] <= '9')
    && (|s| > 1 ==> s[0] != '0')
  }

  /** `s` is the canonical decimal numeral of `n`. */
  predicate Denotes(s: string, n: nat) {
    Canonical(s) && DecimalValue(s) == n
  }

  /** The digits printed for `n` denote `n`. */
  lemma {:induction false} DecimalRoundTrip(n: nat)
    ensures DecimalValue(NatToDecimal(n)) == n
    decreases n
  {
    var r := NatToDecimal(n);
    if n < 10 {
      DigitValue(n);
    } else {
      DecimalRoundTrip(n / 10);
      DigitValue(n % 10);
      assert r[..|r| - 1] == NatToDecimal(n / 10);
      assert DecimalValue(r) == n / 10 * 10 + n % 10;
    }
  }

  /** The printed digits are canonical and denote `n`. */
  lemma PrintedIsCanonical(n: nat)
    ensures Denotes(NatToDecimal(n), n)
  {
    DecimalRoundTrip(n);
  }

  /** A minus sign in front leaves the digits intact after it. */
  lemma SignedDigits(digits: string)
    ensures ("-" + digits)[0] == '-' && ("-" + digits)[1..] == digits
  {
  }

  /** Reading a digit character and printing the digit gives the character back. */
  lemma DigitOfChar(c: char)
    requires '0' <= c <= '9'
    ensures Digit(c as int - '0' as int) == c
  {
  }

  /** `Digit` is inverse to reading a digit character. */
  lemma DigitValue(d: nat)
    requires d < 10
    ensures Digit(d) as int - '0' as int == d
  {
  }

  /** A digit string with a non-zero first digit denotes a positive number. */
  lemma {:induction false} LeadingDigitPositive(s: string)
    requires |s| >= 1 && forall i :: 0 <= i < |s| ==> '0' <= s[i] <= '9'
    requires s[0] != '0'
    ensures DecimalValue(s) >= 1
    decreases |s|
  {
    if |s| > 1 {
      LeadingDigitPositive(s[..|s| - 1]);
    }
  }

  /** Reading canonical digits and printing the number gives the same
      digits back: `NatToDecimal` is the only canonical spelling of `n`. */
  lemma {:induction false} CanonicalRoundTrip(s: string)
    requires Canonical(s)
    ensures NatToDecimal(DecimalValue(s)) == s
    decreases |s|
  {
    var d := s[|s| - 1] as int - '0' as int;
    DigitOfChar(s[|s| - 1]);
    if |s| > 1 {
      var p := s[..|s| - 1];
      assert p[0] == s[0];
      CanonicalRoundTrip(p);
      LeadingDigitPositive(p);
      var v := DecimalValue(s);
      assert v == DecimalValue(p) * 10 + d;
      assert v / 10 == DecimalValue(p) && v % 10 == d;
      assert s == p + [s[|s| - 1]];
    }
  }

  /** `Number.MAX_SAFE_INTEGER`: up to here every integer is a JavaScript
      number and `String` prints its exact decimal digits. */
  const MaxSafeInteger: int := 0x1F_FFFF_FFFF_FFFF

  /** `String(v)` for the values the model carries. For a number it is exact
      within the safe-integer range; beyond it JavaScript rounds to a
      double and, from 1e21 on, prints an exponent. */
  function ToJsString(v: JsValue): (r: string)
    ensures v.Str? ==> r == v.s
    ensures v.Num? && v.n >= 0 ==> r == NatToDecimal(v.n)
    ensures v.Num? && v.n < 0 ==> r == "-" + NatToDecimal(-v.n)
  {
    match v
    case Undefined => "undefined"
    case Null => "null"
    case Bool(b) => if b then "true" else "false"
    case Num(n) =>
      if n >= 0 then NatToDecimal(n) else "-" + NatToDecimal(-n)
    case Str(s) => s
  }

  /** `String(n)` for an integer is a canonical numeral denoting `n`'s
      absolute value, after a minus sign exactly when `n` is negative. */
  lemma ToJsStringDenotes(n: int)
    ensures n >= 0 ==> Denotes(ToJsString(Num(n)), n)
    ensures n < 0 ==> var r := ToJsString(Num(n)); |r| >= 2 && r[0] == '-' && Denotes(r[1..], -n)
  {
    if n >= 0 {
      PrintedIsCanonical(n);
    } else {
      PrintedIsCanonical(-n);
      SignedDigits(NatToDecimal(-n));
    }
  }
}
