/** The header's display name (src/components/Header/Header.tsx). */
module Header {
  import opened Wrappers
  import opened Text

  /** `firstName || username?.split("@")[0] || "User"`. */
  function DisplayName(firstName: Option<string>, username: Option<string>): (r: string)
    ensures r != []
    ensures firstName.Some? && firstName.value != [] ==> r == firstName.value
    ensures ((firstName.None? || firstName.value == []) && username.Some?
             && BeforeFirst(username.value, '@') != []) ==> r == BeforeFirst(username.value, '@')
    ensures ((firstName.None? || firstName.value == [])
             && (username.None? || BeforeFirst(username.value, '@') == [])) ==> r == "User"
  {
    if firstName.Some? && firstName.value != [] then firstName.value
    else if username.Some? && BeforeFirst(username.value, '@') != [] then BeforeFirst(username.value, '@')
    else "User"
  }

  /** `toUpperCase` on one UTF-16 code unit: a surrogate is left alone,
      any other unit is the character it encodes. */
  function UpperUnit(u: int): (v: int)
    requires 0 <= u < 0x1_0000
    ensures 0 <= v < 0x1_0000
  {
    if 0xD800 <= u < 0xE000 then u else Upper(u as char) as int
  }

  /** The avatar shows `displayName.charAt(0).toUpperCase()`: the first
      UTF-16 code unit of the display name, which always exists, upper-cased.
      For a character outside the Basic Multilingual Plane `charAt(0)` is
      only the high surrogate of that character, which upper-casing keeps. */
  function AvatarInitial(firstName: Option<string>, username: Option<string>): (u: int)
    ensures 0 <= u < 0x1_0000
    ensures var c := DisplayName(firstName, username)[0];
            && (c as int < 0x1_0000 ==> u == Upper(c) as int)
            && (c as int >= 0x1_0000 ==> u == Utf16Units(c)[0] && 0xD800 <= u < 0xDC00)
  {
    var s := DisplayName(firstName, username);
    assert Utf16(s)[0] == Utf16Units(s[0])[0];
    UpperUnit(Utf16(s)[0])
  }

  /** The avatar letter is never a lower-case letter, and it is the display
      name's first character up to case: lowering both gives the same. */
  lemma AvatarInitialIsFirstLetter(firstName: Option<string>, username: Option<string>)
    requires DisplayName(firstName, username)[0] as int < 0x1_0000
    ensures var c := DisplayName(firstName, username)[0];
            var a := AvatarInitial(firstName, username) as char;
            !IsLowerLetter(a) && Lower(a) == Lower(c)
  {
  }

  /** With a first name the avatar shows its first letter, upper-cased:
      "anna" and "Anna" both give "A". */
  lemma AvatarFromFirstName(name: string, username: Option<string>)
    requires name != [] && name[0] as int < 0x1_0000
    ensures AvatarInitial(Some(name), username) == Upper(name[0]) as int
    ensures IsUpper(name[0]) ==> AvatarInitial(Some(name), username) == name[0] as int
    ensures IsLowerLetter(name[0]) ==> AvatarInitial(Some(name), username) == Upper(name[0]) as int
                                       && Lower(Upper(name[0])) == name[0]
  {
  }

  /** Without a first name, an email-like username shows its local part and
      a username with no `@` shows whole. */
  lemma UsernameFallback(u: string)
    requires u != []
    ensures '@' !in u ==> DisplayName(None, Some(u)) == u
    ensures u[0] == '@' ==> DisplayName(None, Some(u)) == "User"
  {
  }

  lemma EmailExample()
    ensures DisplayName(None, Some("ann@x")) == "ann"
    ensures DisplayName(Some(""), Some("ann@x")) == "ann"
  {
    assert BeforeFirst("@x", '@') == [];
    assert BeforeFirst("n@x", '@') == "n";
    assert BeforeFirst("nn@x", '@') == "nn";
    assert BeforeFirst("ann@x", '@') == "ann";
  }
}
