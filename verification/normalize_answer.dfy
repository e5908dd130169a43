/** The server's `normalizeAnswer` (server/utils/normalizeAnswer.js). It is
    a different normalisation from the client's: no trim step, no caret
    rewriting, but three glyph replacements, and lower-casing comes last. */
module NormalizeAnswer {
  import opened Text
  import opened Js

  const MiddleDot: char := '\U{00B7}'
  const MinusSign: char := '\U{2212}'

  /** The three glyphs the normaliser replaces. */
  predicate IsAltGlyph(c: char) {
    c == MiddleDot || c == MinusSign || c == ','
  }

  /** The replacement for one character: middle dot to `*`, minus sign to
      `-`, decimal comma to `.`. */
  function MapGlyph(c: char): (d: char)
    ensures !IsAltGlyph(d)
    ensures !IsAltGlyph(c) ==> d == c
    ensures IsSpace(d) == IsSpace(c) && IsUpper(d) == IsUpper(c)
  {
    if c == MiddleDot then '*'
    else if c == MinusSign then '-'
    else if c == ',' then '.'
    else c
  }

  /** The three `replace(..., /g)` calls, applied to every character. */
  function MapGlyphs(s: string): (r: string)
    ensures |r| == |s|
    ensures forall i :: 0 <= i < |s| ==> r[i] == MapGlyph(s[i])
  {
    seq(|s|, i requires 0 <= i < |s| => MapGlyph(s[i]))
  }

  /** No character of `s` is one of the replaced glyphs. */
  predicate NoAltGlyph(s: string) {
    forall i :: 0 <= i < |s| ==> !IsAltGlyph(s[i])
  }

  /** `normalizeAnswer(str)`. */
  function Normalize(v: JsValue): (r: string)
    ensures !Truthy(v) ==> r == []
    ensures NoSpace(r) && NoAltGlyph(r) && NoUpper(r)
  {
    if !Truthy(v) then []
    else LowerStr(MapGlyphs(RemoveSpaces(ToJsString(v))))
  }

  /** A falsy answer (absent, null, false, 0 or "") normalises to "". */
  lemma FalsyIsEmpty()
    ensures Normalize(Undefined) == [] && Normalize(Null) == []
    ensures Normalize(Num(0)) == [] && Normalize(Str("")) == [] && Normalize(Bool(false)) == []
  {
  }

  /** Lowering and the glyph replacement commute character by character,
      so the string normal form is "delete spaces, lower, replace glyphs". */
  lemma {:induction false} NormalizeStrCanonical(s: string)
    ensures Normalize(Str(s)) == MapGlyphs(RemoveSpaces(LowerStr(s)))
  {
    RemoveSpacesLowerCommute(s);
    var t := RemoveSpaces(s);
    forall i | 0 <= i < |t|
      ensures LowerStr(MapGlyphs(t))[i] == MapGlyphs(LowerStr(t))[i]
    {
      var c := t[i];
      if IsUpper(c) {
        assert !IsAltGlyph(c) && !IsAltGlyph(Lower(c));
      }
    }
  }

  /** On strings the normaliser is idempotent. */
  lemma NormalizeIdempotent(s: string)
    ensures Normalize(Str(Normalize(Str(s)))) == Normalize(Str(s))
  {
    var n := Normalize(Str(s));
    if n != [] {
      RemoveSpacesFixesSpaceless(n);
      assert MapGlyphs(n) == n;
      LowerStrFixesLowered(n);
    }
  }

  /** A decimal comma becomes a dot: "0,5" normalises to "0.5". */
  lemma DecimalComma()
    ensures Normalize(Str("0,5")) == "0.5"
  {
    assert RemoveSpaces("0,5") == "0,5";
    assert MapGlyphs("0,5") == "0.5";
    assert LowerStr("0.5") == "0.5";
  }

  /** Strings that agree once lowered and stripped of white space normalise
      to the same output. */
  lemma SpaceAndCaseInsensitive(a: string, b: string)
    requires RemoveSpaces(LowerStr(a)) == RemoveSpaces(LowerStr(b))
    ensures Normalize(Str(a)) == Normalize(Str(b))
  {
    NormalizeStrCanonical(a);
    NormalizeStrCanonical(b);
  }

  /** A positive safe integer is printed in decimal and passes through unchanged. */
  lemma {:induction false} NumberPrintsDecimal(n: int)
    requires 0 < n <= MaxSafeInteger
    ensures Normalize(Num(n)) == NatToDecimal(n)
    ensures Denotes(Normalize(Num(n)), n)
  {
    DigitsAreNormal(NatToDecimal(n));
    DecimalRoundTrip(n);
  }

  /** A string of decimal digits is its own server normal form. */
  lemma DigitsAreNormal(d: string)
    requires forall i :: 0 <= i < |d| ==> '0' <= d[i] <= '9'
    ensures LowerStr(MapGlyphs(RemoveSpaces(d))) == d
  {
    forall i | 0 <= i < |d|
      ensures !IsSpace(d[i]) && !IsUpper(d[i]) && !IsAltGlyph(d[i])
    {
      var c := d[i];
      assert '0' <= c <= '9';
    }
    RemoveSpacesFixesSpaceless(d);
    assert MapGlyphs(d) == d;
    LowerStrFixesLowered(d);
  }
}
