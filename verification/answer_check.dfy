/** The client-side answer comparison `isAnswerCorrect` with its inner
    `normalize` (src/utils/api.ts). The numeric branch, which evaluates
    both sides as JavaScript, is the oracle `numEq`. */
module AnswerCheck {
  import opened Text

  /** `replace(/\^/g, "**")`: every caret becomes a double star. */
  function ExpandCaret(s: string): (r: string)
    ensures '^' !in r
    ensures |r| >= |s|
  {
    if s == [] then []
    else (if s[0] == '^' then "**" else [s[0]]) + ExpandCaret(s[1..])
  }

  /** The expansion only adds stars, so it adds no upper-case letter and no space. */
  lemma {:induction false} ExpandCaretKeeps(s: string)
    requires NoUpper(s) && NoSpace(s)
    ensures NoUpper(ExpandCaret(s)) && NoSpace(ExpandCaret(s))
  {
    if s != [] {
      ExpandCaretKeeps(s[1..]);
    }
  }

  lemma {:induction false} ExpandCaretFixesCaretless(s: string)
    requires '^' !in s
    ensures ExpandCaret(s) == s
  {
    if s != [] {
      ExpandCaretFixesCaretless(s[1..]);
    }
  }

  /** The normalised form: lower-cased, trimmed, stripped of every white
      space character, carets rewritten to `**`. */
  function Normalize(s: string): (r: string)
    ensures NoSpace(r) && NoUpper(r)
    ensures '^' !in r
  {
    var lowered := LowerStr(s);
    TrimKeepsNoUpper(lowered);
    RemoveSpacesKeepsNoUpper(Trim(lowered));
    ExpandCaretKeeps(RemoveSpaces(Trim(lowered)));
    ExpandCaret(RemoveSpaces(Trim(lowered)))
  }

  /** Normalising only lowers and deletes spaces, then expands carets; the
      trim step is subsumed by the space deletion. */
  lemma NormalizeIgnoresTrim(s: string)
    ensures Normalize(s) == ExpandCaret(RemoveSpaces(LowerStr(s)))
  {
    RemoveSpacesIgnoresTrim(LowerStr(s));
  }

  /** A string already lower-case, space-free and caret-free is its own
      normal form. */
  lemma NormalizeFixesNormalForm(n: string)
    requires NoSpace(n) && NoUpper(n) && '^' !in n
    ensures Normalize(n) == n
  {
    LowerStrFixesLowered(n);
    TrimFixesSpaceless(n);
    RemoveSpacesFixesSpaceless(n);
    ExpandCaretFixesCaretless(n);
  }

  /** Normalising a normalised string changes nothing. */
  lemma NormalizeIdempotent(s: string)
    ensures Normalize(Normalize(s)) == Normalize(s)
  {
    NormalizeFixesNormalForm(Normalize(s));
  }

  // A character of the regex class [\d+\-*/().**] used by the numeric branch.
  predicate IsArithChar(c: char) {
    ('0' <= c <= '9') || c == '+' || c == '-' || c == '*' || c == '/'
    || c == '(' || c == ')' || c == '.'
  }

  /** The regex test at the numeric branch: at least ONE character of the
      class is present; the other characters are not constrained. */
  predicate HasArithChar(s: string) {
    exists i | 0 <= i < |s| :: IsArithChar(s[i])
  }

  /** `isAnswerCorrect(userAnswer, expectedAnswer)`. `numEq(a, b)` stands
      for evaluating both normalised strings as JavaScript and comparing
      them within 0.0001; it is false whenever evaluation throws. */
  function IsAnswerCorrect(userAnswer: string, expectedAnswer: string,
                           numEq: (string, string) -> bool): (r: bool)
    ensures r <==> || Normalize(userAnswer) == Normalize(expectedAnswer)
                   || Includes(Normalize(userAnswer), Normalize(expectedAnswer))
                   || Includes(Normalize(expectedAnswer), Normalize(userAnswer))
                   || (&& HasArithChar(Normalize(userAnswer))
                       && HasArithChar(Normalize(expectedAnswer))
                       && numEq(Normalize(userAnswer), Normalize(expectedAnswer)))
  {
    var n := Normalize(userAnswer);
    var e := Normalize(expectedAnswer);
    if n == e then true
    else if Includes(n, e) || Includes(e, n) then true
    else if HasArithChar(n) && HasArithChar(e) then numEq(n, e)
    else false
  }

  /** The numeric oracle does not depend on the order of its arguments. */
  ghost predicate SymmetricOracle(numEq: (string, string) -> bool) {
    forall a, b :: numEq(a, b) == numEq(b, a)
  }

  /** Every answer is judged equal to itself. */
  lemma Reflexive(s: string, numEq: (string, string) -> bool)
    ensures IsAnswerCorrect(s, s, numEq)
  {
  }

  /** With a symmetric oracle, the order of the two answers does not matter. */
  lemma Symmetric(a: string, b: string, numEq: (string, string) -> bool)
    requires SymmetricOracle(numEq)
    ensures IsAnswerCorrect(a, b, numEq) == IsAnswerCorrect(b, a, numEq)
  {
  }

  /** Answers that agree once lowered and stripped of white space are
      judged correct by the exact-match test. */
  lemma {:induction false} SpaceAndCaseInsensitive(a: string, b: string,
                                                  numEq: (string, string) -> bool)
    requires RemoveSpaces(LowerStr(a)) == RemoveSpaces(LowerStr(b))
    ensures Normalize(a) == Normalize(b)
    ensures IsAnswerCorrect(a, b, numEq)
  {
    NormalizeIgnoresTrim(a);
    NormalizeIgnoresTrim(b);
  }

  /** Expanding carets works piece by piece. */
  lemma {:induction false} ExpandCaretConcat(x: string, y: string)
    ensures ExpandCaret(x + y) == ExpandCaret(x) + ExpandCaret(y)
  {
    if x == [] {
      assert x + y == y;
    } else {
      assert (x + y)[0] == x[0];
      assert (x + y)[1..] == x[1..] + y;
      ExpandCaretConcat(x[1..], y);
    }
  }

  /** Joining strings without spaces or capitals around a middle piece that
      has none either gives a string with none. */
  lemma JoinKeepsNormalForm(a: string, m: string, b: string)
    requires NoSpace(a) && NoUpper(a) && NoSpace(m) && NoUpper(m) && NoSpace(b) && NoUpper(b)
    ensures NoSpace(a + m + b) && NoUpper(a + m + b)
  {
    var s := a + m + b;
    forall i | 0 <= i < |s|
      ensures !IsSpace(s[i]) && !IsUpper(s[i])
    {
      if i < |a| {
        assert s[i] == a[i];
      } else if i < |a| + |m| {
        assert s[i] == m[i - |a|];
      } else {
        assert s[i] == b[i - |a| - |m|];
      }
    }
  }

  /** A caret and a double star are interchangeable: in an answer otherwise
      in normal form, `a^b` and `a**b` both normalise to `a**b` and are
      judged correct by exact match, e.g. `x^2` against `x**2`. */
  lemma CaretMatchesDoubleStar(a: string, b: string, numEq: (string, string) -> bool)
    requires NoSpace(a) && NoUpper(a) && '^' !in a
    requires NoSpace(b) && NoUpper(b) && '^' !in b
    ensures Normalize(a + "^" + b) == Normalize(a + "**" + b) == a + "**" + b
    ensures IsAnswerCorrect(a + "^" + b, a + "**" + b, numEq)
  {
    var caret := a + "^" + b;
    JoinKeepsNormalForm(a, "^", b);
    JoinKeepsNormalForm(a, "**", b);
    NormalizeIgnoresTrim(caret);
    LowerStrFixesLowered(caret);
    RemoveSpacesFixesSpaceless(caret);
    ExpandOneCaret(a, b);
    NormalizeFixesNormalForm(a + "**" + b);
  }

  /** Between caret-free pieces, the one caret becomes a double star. */
  lemma ExpandOneCaret(a: string, b: string)
    requires '^' !in a && '^' !in b
    ensures ExpandCaret(a + "^" + b) == a + "**" + b
  {
    ExpandCaretConcat(a + "^", b);
    ExpandCaretConcat(a, "^");
    ExpandCaretFixesCaretless(a);
    ExpandCaretFixesCaretless(b);
    assert ExpandCaret("^") == "**";
  }

  /** Containment in either direction of the normalised forms is accepted. */
  lemma ContainmentAccepts(a: string, b: string, numEq: (string, string) -> bool)
    requires Includes(Normalize(a), Normalize(b)) || Includes(Normalize(b), Normalize(a))
    ensures IsAnswerCorrect(a, b, numEq)
  {
  }

  /** A side that normalises to the empty string is contained in the other,
      so the answer is accepted whatever the other side says. */
  lemma EmptySideAccepts(a: string, b: string, numEq: (string, string) -> bool)
    requires Normalize(a) == [] || Normalize(b) == []
    ensures IsAnswerCorrect(a, b, numEq)
  {
    IncludesEmpty(Normalize(a));
    IncludesEmpty(Normalize(b));
  }

  /** The concrete case: an empty user answer against "212" is accepted. */
  lemma EmptyAnswerAgainst212(numEq: (string, string) -> bool)
    ensures IsAnswerCorrect("", "212", numEq)
  {
    assert LowerStr("") == [];
    EmptySideAccepts("", "212", numEq);
  }

  /** The containment test accepts any answer, already in normal form, that
      merely carries the expected answer inside it: "12" for an expected
      "2", "x+1" for an expected "1". */
  lemma ContainmentFalsePositive(prefix: string, expected: string, numEq: (string, string) -> bool)
    requires NoSpace(prefix + expected) && NoUpper(prefix + expected) && '^' !in prefix + expected
    ensures IsAnswerCorrect(prefix + expected, expected, numEq)
  {
    SuffixKeepsNormalForm(prefix, expected);
    NormalizeFixesNormalForm(prefix + expected);
    NormalizeFixesNormalForm(expected);
    IncludesSuffix(prefix, expected);
  }

  /** When the string tests fail and one side has no arithmetic character,
      the numeric branch is skipped and the answer is rejected. */
  lemma NoArithRejects(a: string, b: string, numEq: (string, string) -> bool)
    ensures (&& Normalize(a) != Normalize(b)
             && !Includes(Normalize(a), Normalize(b)) && !Includes(Normalize(b), Normalize(a))
             && (!HasArithChar(Normalize(a)) || !HasArithChar(Normalize(b))))
            ==> !IsAnswerCorrect(a, b, numEq)
  {
  }

  /** The three tests are the only ways to be accepted: a true verdict
      comes from equality, containment, or the oracle on two strings that
      both carry an arithmetic character. */
  lemma AcceptedOnlyByRules(a: string, b: string, numEq: (string, string) -> bool)
    requires IsAnswerCorrect(a, b, numEq)
    ensures || Normalize(a) == Normalize(b)
            || Includes(Normalize(a), Normalize(b))
            || Includes(Normalize(b), Normalize(a))
            || (HasArithChar(Normalize(a)) && HasArithChar(Normalize(b))
                && numEq(Normalize(a), Normalize(b)))
  {
  }
}
