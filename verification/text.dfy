/** String primitives shared by the client and the server: JavaScript's
    white-space class, `trim`, a per-character `toLowerCase`, substring
    search (`includes`) and `split(sep)[0]`. */
module Text {

  /** The characters matched by JavaScript's `\s` and removed by
      `String.prototype.trim`. */
  predicate IsSpace(c: char) {
    || c == ' ' || c == '\t' || c == '\n' || c == '\r'
    || c == '\U{000B}' || c == '\U{000C}' || c == '\U{00A0}' || c == '\U{1680}'
    || ('\U{2000}' <= c <= '\U{200A}')
    || c == '\U{2028}' || c == '\U{2029}' || c == '\U{202F}' || c == '\U{205F}'
    || c == '\U{3000}' || c == '\U{FEFF}'
  }

  /** Upper-case letters the model lowers: ASCII and the basic Cyrillic block. */
  predicate IsUpper(c: char) {
    ('A' <= c <= 'Z') || ('\U{0400}' <= c <= '\U{042F}')
  }

  /** The lower-case letters those map to. */
  predicate IsLowerLetter(c: char) {
    ('a' <= c <= 'z') || ('\U{0430}' <= c <= '\U{045F}')
  }

  /** `toLowerCase` on one character. Every character that is not an
      upper-case letter, in particular every digit, operator and space, is
      left alone. */
  function Lower(c: char): (d: char)
    ensures IsUpper(c) ==> IsLowerLetter(d)
    ensures !IsUpper(c) ==> d == c
    ensures !IsUpper(d)
  {
    if 'A' <= c <= 'Z' then (c as int + 32) as char
    else if '\U{0410}' <= c <= '\U{042F}' then (c as int + 32) as char
    else if '\U{0400}' <= c <= '\U{040F}' then (c as int + 80) as char
    else c
  }

  /** `toUpperCase` on one character: the inverse of `Lower` on the letters
      the model knows, the identity elsewhere. */
  function Upper(c: char): (d: char)
    ensures IsLowerLetter(c) ==> IsUpper(d) && Lower(d) == c
    ensures !IsLowerLetter(c) ==> d == c
    ensures !IsLowerLetter(d)
  {
    if 'a' <= c <= 'z' then (c as int - 32) as char
    else if '\U{0430}' <= c <= '\U{044F}' then (c as int - 32) as char
    else if '\U{0450}' <= c <= '\U{045F}' then (c as int - 80) as char
    else c
  }

  /** Upper-casing then lowering a letter gives it back, and so does
      lowering then upper-casing. */
  lemma CaseRoundTrip(c: char)
    ensures IsLowerLetter(c) ==> Lower(Upper(c)) == c
    ensures IsUpper(c) ==> Upper(Lower(c)) == c
  {
  }

  /** `toLowerCase` on a string, character by character. */
  function LowerStr(s: string): (r: string)
    ensures |r| == |s|
    ensures forall i :: 0 <= i < |s| ==> r[i] == Lower(s[i])
  {
    seq(|s|, i requires 0 <= i < |s| => Lower(s[i]))
  }

  /** True when no character of `s` is an upper-case letter. */
  predicate NoUpper(s: string) {
    forall i :: 0 <= i < |s| ==> !IsUpper(s[i])
  }

  /** True when no character of `s` is white space. */
  predicate NoSpace(s: string) {
    forall i :: 0 <= i < |s| ==> !IsSpace(s[i])
  }

  lemma LowerStrFixesLowered(s: string)
    requires NoUpper(s)
    ensures LowerStr(s) == s
  {
  }

  lemma LowerStrIdempotent(s: string)
    ensures LowerStr(LowerStr(s)) == LowerStr(s)
  {
  }

  lemma LowerStrConcat(a: string, b: string)
    ensures LowerStr(a + b) == LowerStr(a) + LowerStr(b)
  {
  }

  /** `replace(/\s+/g, "")`: every white-space character deleted, every other
      character kept in order. */
  function RemoveSpaces(s: string): (r: string)
    ensures |r| <= |s|
    ensures NoSpace(r)
  {
    if s == [] then []
    else (if IsSpace(s[0]) then [] else [s[0]]) + RemoveSpaces(s[1..])
  }

  lemma {:induction false} RemoveSpacesKeepsNoUpper(s: string)
    requires NoUpper(s)
    ensures NoUpper(RemoveSpaces(s))
  {
    if s != [] {
      RemoveSpacesKeepsNoUpper(s[1..]);
    }
  }

  lemma {:induction false} RemoveSpacesConcat(a: string, b: string)
    ensures RemoveSpaces(a + b) == RemoveSpaces(a) + RemoveSpaces(b)
  {
    if a == [] {
      assert a + b == b;
    } else {
      assert (a + b)[0] == a[0];
      assert (a + b)[1..] == a[1..] + b;
      RemoveSpacesConcat(a[1..], b);
    }
  }

  lemma {:induction false} RemoveSpacesFixesSpaceless(s: string)
    requires NoSpace(s)
    ensures RemoveSpaces(s) == s
  {
    if s != [] {
      RemoveSpacesFixesSpaceless(s[1..]);
    }
  }

  /** Lowering never creates or removes white space, so the two steps commute. */
  lemma {:induction false} RemoveSpacesLowerCommute(s: string)
    ensures RemoveSpaces(LowerStr(s)) == LowerStr(RemoveSpaces(s))
  {
    if s != [] {
      assert LowerStr(s)[1..] == LowerStr(s[1..]);
      RemoveSpacesLowerCommute(s[1..]);
      LowerStrConcat(if IsSpace(s[0]) then [] else [s[0]], RemoveSpaces(s[1..]));
    }
  }

  /** `trimStart`: leading white space removed. */
  function TrimStart(s: string): (r: string)
    ensures |r| <= |s| && r == s[|s| - |r|..]
    ensures r == [] || !IsSpace(r[0])
    ensures forall i :: 0 <= i < |s| - |r| ==> IsSpace(s[i])
  {
    if s != [] && IsSpace(s[0]) then TrimStart(s[1..]) else s
  }

  /** `trimEnd`: trailing white space removed. */
  function TrimEnd(s: string): (r: string)
    ensures |r| <= |s| && r == s[..|r|]
    ensures r == [] || !IsSpace(r[|r| - 1])
    ensures forall i :: |r| <= i < |s| ==> IsSpace(s[i])
  {
    if s != [] && IsSpace(s[|s| - 1]) then TrimEnd(s[..|s| - 1]) else s
  }

  /** `String.prototype.trim`. */
  function Trim(s: string): (r: string)
    ensures r == [] || (!IsSpace(r[0]) && !IsSpace(r[|r| - 1]))
    ensures r == [] <==> forall i :: 0 <= i < |s| ==> IsSpace(s[i])
    ensures |r| <= |s|
  {
    var t := TrimStart(s);
    var r := TrimEnd(t);
    assert r == [] ==> t == [];
    r
  }

  /** Trimming keeps a string free of upper-case letters: it only drops characters. */
  lemma TrimKeepsNoUpper(s: string)
    requires NoUpper(s)
    ensures NoUpper(Trim(s))
  {
    var t := TrimStart(s);
    assert NoUpper(t) by {
      forall i | 0 <= i < |t| ensures !IsUpper(t[i]) {
        assert t[i] == s[|s| - |t| + i];
      }
    }
  }

  lemma {:induction false} RemoveSpacesOfAllSpace(s: string)
    requires forall i :: 0 <= i < |s| ==> IsSpace(s[i])
    ensures RemoveSpaces(s) == []
  {
    if s != [] {
      RemoveSpacesOfAllSpace(s[1..]);
    }
  }

  lemma {:induction false} RemoveSpacesIgnoresTrimStart(s: string)
    ensures RemoveSpaces(TrimStart(s)) == RemoveSpaces(s)
  {
    if s != [] && IsSpace(s[0]) {
      RemoveSpacesIgnoresTrimStart(s[1..]);
      assert RemoveSpaces(s) == [] + RemoveSpaces(s[1..]);
    }
  }

  lemma RemoveSpacesIgnoresTrimEnd(s: string)
    ensures RemoveSpaces(TrimEnd(s)) == RemoveSpaces(s)
  {
    var r := TrimEnd(s);
    assert s == r + s[|r|..];
    RemoveSpacesConcat(r, s[|r|..]);
    RemoveSpacesOfAllSpace(s[|r|..]);
  }

  /** Trimming before deleting all white space changes nothing. */
  lemma RemoveSpacesIgnoresTrim(s: string)
    ensures RemoveSpaces(Trim(s)) == RemoveSpaces(s)
  {
    RemoveSpacesIgnoresTrimStart(s);
    RemoveSpacesIgnoresTrimEnd(TrimStart(s));
  }

  /** A string with no white space at all is its own trim. */
  lemma TrimFixesSpaceless(s: string)
    requires NoSpace(s)
    ensures Trim(s) == s
  {
  }

  /** `s` starts with `p`. */
  predicate StartsWith(s: string, p: string) {
    |p| <= |s| && s[..|p|] == p
  }

  /** `s.includes(sub)`, by scanning start positions left to right. */
  function Includes(s: string, sub: string): bool
  {
    StartsWith(s, sub) || (s != [] && Includes(s[1..], sub))
  }

  /** `sub` occurs in `s` at position `i`. */
  ghost predicate OccursAt(s: string, sub: string, i: int) {
    0 <= i && i + |sub| <= |s| && s[i..i + |sub|] == sub
  }

  lemma {:induction false} IncludesWitness(s: string, sub: string) returns (i: int)
    requires Includes(s, sub)
    ensures OccursAt(s, sub, i)
  {
    if StartsWith(s, sub) {
      i := 0;
    } else {
      var j := IncludesWitness(s[1..], sub);
      assert s[j + 1..j + 1 + |sub|] == s[1..][j..j + |sub|];
      i := j + 1;
    }
  }

  lemma {:induction false} OccursIncludes(s: string, sub: string, i: int)
    requires OccursAt(s, sub, i)
    ensures Includes(s, sub)
    decreases i
  {
    if i > 0 {
      assert s[1..][i - 1..i - 1 + |sub|] == s[i..i + |sub|];
      OccursIncludes(s[1..], sub, i - 1);
    }
  }

  /** `Includes` is exactly "occurs at some position". */
  lemma IncludesIffOccurs(s: string, sub: string)
    ensures Includes(s, sub) <==> exists i :: OccursAt(s, sub, i)
  {
    if Includes(s, sub) {
      var i := IncludesWitness(s, sub);
    }
    forall i | OccursAt(s, sub, i) ensures Includes(s, sub) {
      OccursIncludes(s, sub, i);
    }
  }

  /** The empty string is contained in every string. */
  lemma IncludesEmpty(s: string)
    ensures Includes(s, [])
  {
    assert StartsWith(s, []);
  }

  /** Every string contains itself. */
  lemma IncludesSelf(s: string)
    ensures Includes(s, s)
  {
    assert StartsWith(s, s);
  }

  /** A string occurs inside anything that ends with it. */
  lemma IncludesSuffix(prefix: string, sub: string)
    ensures Includes(prefix + sub, sub)
  {
    assert (prefix + sub)[|prefix|..|prefix| + |sub|] == sub;
    OccursIncludes(prefix + sub, sub, |prefix|);
  }

  /** The tail of a string without spaces, capitals or carets has none either. */
  lemma SuffixKeepsNormalForm(prefix: string, sub: string)
    requires NoSpace(prefix + sub) && NoUpper(prefix + sub) && '^' !in prefix + sub
    ensures NoSpace(sub) && NoUpper(sub) && '^' !in sub
  {
    assert forall i :: 0 <= i < |sub| ==> sub[i] == (prefix + sub)[|prefix| + i];
  }

  /** The UTF-16 code units JavaScript stores for `c`: the code point itself
      inside the Basic Multilingual Plane, a surrogate pair outside it. */
  function Utf16Units(c: char): (u: seq<int>)
    ensures 1 <= |u| <= 2
    ensures (c as int < 0x1_0000) <==> |u| == 1
    ensures |u| == 1 ==> u[0] == c as int
    ensures |u| == 2 ==> 0xD800 <= u[0] < 0xDC00 && 0xDC00 <= u[1] < 0xE000
    ensures |u| == 2 ==> (u[0] - 0xD800) * 0x400 + (u[1] - 0xDC00) + 0x1_0000 == c as int
  {
    var n := c as int;
    if n < 0x1_0000 then [n]
    else [0xD800 + (n - 0x1_0000) / 0x400, 0xDC00 + (n - 0x1_0000) % 0x400]
  }

  /** The UTF-16 encoding of `s`: the units JavaScript's `length`,
      indexing and `charAt` count. */
  function Utf16(s: string): (u: seq<int>)
    ensures |s| <= |u| <= 2 * |s|
    ensures forall k :: 0 <= k < |u| ==> 0 <= u[k] < 0x1_0000
  {
    if s == [] then [] else Utf16Units(s[0]) + Utf16(s[1..])
  }

  /** Inside the Basic Multilingual Plane, JavaScript's `length` is the
      number of characters. */
  predicate InBmp(s: string) {
    forall i :: 0 <= i < |s| ==> s[i] as int < 0x1_0000
  }

  lemma {:induction false} Utf16OfBmp(s: string)
    requires InBmp(s)
    ensures |Utf16(s)| == |s|
    ensures forall i :: 0 <= i < |s| ==> Utf16(s)[i] == s[i] as int
  {
    if s != [] {
      Utf16OfBmp(s[1..]);
    }
  }

  /** Outside the Basic Multilingual Plane every character is two units. */
  lemma {:induction false} Utf16OfAstral(s: string)
    requires forall i :: 0 <= i < |s| ==> s[i] as int >= 0x1_0000
    ensures |Utf16(s)| == 2 * |s|
  {
    if s != [] {
      Utf16OfAstral(s[1..]);
    }
  }

  /** No white-space character lies outside the Basic Multilingual Plane. */
  lemma AstralIsSpaceless(s: string)
    requires forall i :: 0 <= i < |s| ==> s[i] as int >= 0x1_0000
    ensures NoSpace(s)
  {
    forall i | 0 <= i < |s| ensures !IsSpace(s[i]) {
      var c := s[i];
      assert c as int >= 0x1_0000;
    }
  }

  /** Trimming leaves a string of such characters alone, so its trimmed
      length is two units per character. */
  lemma Utf16OfTrimmedAstral(s: string)
    requires forall i :: 0 <= i < |s| ==> s[i] as int >= 0x1_0000
    ensures |Utf16(Trim(s))| == 2 * |s|
  {
    AstralIsSpaceless(s);
    TrimFixesSpaceless(s);
    Utf16OfAstral(s);
  }

  /** The encoding of a concatenation is the concatenation of the encodings. */
  lemma {:induction false} Utf16Concat(a: string, b: string)
    ensures Utf16(a + b) == Utf16(a) + Utf16(b)
  {
    if a == [] {
      assert a + b == b;
    } else {
      assert (a + b)[0] == a[0];
      assert (a + b)[1..] == a[1..] + b;
      Utf16Concat(a[1..], b);
    }
  }

  /** `s.split(sep)[0]`: the part of `s` before the first `sep`, or all of
      `s` when `sep` does not occur. */
  function BeforeFirst(s: string, sep: char): (r: string)
    ensures |r| <= |s| && r == s[..|r|]
    ensures sep !in r
    ensures sep in s ==> s[|r|] == sep
    ensures sep !in s ==> r == s
  {
    if s == [] then []
    else if s[0] == sep then []
    else [s[0]] + BeforeFirst(s[1..], sep)
  }

  /** A string that starts with `p` is `p` followed by the rest. */
  lemma PrefixSplit(s: string, p: string)
    requires StartsWith(s, p)
    ensures s == p + s[|p|..]
  {
    assert s == s[..|p|] + s[|p|..];
  }

  /** Cutting `a + [sep] + b` at its first `sep` gives back `a` when `a`
      holds no `sep`. */
  lemma BeforeFirstOfJoin(a: string, sep: char, b: string)
    requires sep !in a
    ensures BeforeFirst(a + [sep] + b, sep) == a
  {
    var s := a + [sep] + b;
    var r := BeforeFirst(s, sep);
    assert s[|a|] == sep;
    assert s[..|a|] == a;
  }
}
