/** The validated texts of the users domain: Email, DisplayName and the reserved-name policy.
    Whitespace is Unicode's; lower-casing leaves letters outside ASCII alone. */
module ValueObjects {
  import opened Common

  const EMAIL_MAX_LENGTH := 254
  const NAME_MAX_LENGTH := 120
  const RESERVED_NAMES := {"admin", "root", "system", "support", "moderator"}

  // What strip() removes and \s matches.
  predicate IsSpace(c: char) {
    || '\U{9}' <= c <= '\U{D}' || '\U{1C}' <= c <= '\U{20}' || '\U{2000}' <= c <= '\U{200A}'
    || c in {'\U{85}', '\U{A0}', '\U{1680}', '\U{2028}', '\U{2029}', '\U{202F}', '\U{205F}', '\U{3000}'}
  }

  function LowerChar(c: char): char {
    if 'A' <= c <= 'Z' then (c as int + 32) as char else c
  }

  function Lower(s: string): (r: string)
    ensures |r| == |s|
    ensures forall k | 0 <= k < |s| :: r[k] == LowerChar(s[k])
  {
    seq(|s|, k requires 0 <= k < |s| => LowerChar(s[k]))
  }

  function StripLeft(s: string): string {
    if s != [] && IsSpace(s[0]) then StripLeft(s[1..]) else s
  }

  function StripRight(s: string): string {
    if s != [] && IsSpace(s[|s| - 1]) then StripRight(s[..|s| - 1]) else s
  }

  function Strip(s: string): string {
    StripRight(StripLeft(s))
  }

  // No space at either end: what stripping leaves alone.
  predicate Trimmed(s: string) {
    s == [] || (!IsSpace(s[0]) && !IsSpace(s[|s| - 1]))
  }

  // One '@' with text before it, and after it a '.' with text on both sides; no whitespace anywhere.
  predicate MatchesEmailPattern(s: string) {
    exists at, dot | 0 <= at < |s| && 0 <= dot < |s| ::
      && 1 <= at && at + 1 < dot < |s| - 1
      && s[at] == '@' && s[dot] == '.'
      && forall k | 0 <= k < |s| :: !IsSpace(s[k]) && (s[k] == '@' ==> k == at)
  }

  predicate ValidEmail(s: string) {
    && s != []
    && |s| <= EMAIL_MAX_LENGTH
    && MatchesEmailPattern(s)
  }

  function NormalizeEmail(raw: string): string {
    Lower(Strip(raw))
  }

  // Constructing an Email normalises first and validates the normal form.
  function MakeEmail(raw: string): Option<string> {
    var value := NormalizeEmail(raw);
    if ValidEmail(value) then Some(value) else None
  }

  function MakeDisplayName(raw: string): Option<string> {
    var value := Strip(raw);
    if value != [] && |value| <= NAME_MAX_LENGTH then Some(value) else None
  }

  // Lower-casing a letter outside ASCII never makes one of the reserved words.
  predicate NameAllowed(name: string) {
    Lower(Strip(name)) !in RESERVED_NAMES
  }

  // The texts an Email or a DisplayName can hold: the fixed points of construction.
  predicate IsEmail(s: string) {
    MakeEmail(s) == Some(s)
  }

  predicate IsDisplayName(s: string) {
    MakeDisplayName(s) == Some(s)
  }

  lemma {:induction false} StripLeftStops(s: string)
    ensures var r := StripLeft(s);
            && (r == [] || !IsSpace(r[0]))
            && |r| <= |s| && r == s[|s| - |r|..]
  {
    if s != [] && IsSpace(s[0]) {
      StripLeftStops(s[1..]);
    }
  }

  lemma {:induction false} StripRightStops(s: string)
    ensures var r := StripRight(s); r == [] || !IsSpace(r[|r| - 1])
    ensures StripRight(s) <= s
  {
    if s != [] && IsSpace(s[|s| - 1]) {
      StripRightStops(s[..|s| - 1]);
    }
  }

  lemma StripTrims(s: string)
    ensures Trimmed(Strip(s))
    ensures Trimmed(s) ==> Strip(s) == s
  {
    StripLeftStops(s);
    StripRightStops(StripLeft(s));
  }

  /** Construction is idempotent: a stored email or name read back builds the same value object. */
  lemma ConstructionIsIdempotent(raw: string)
    ensures MakeEmail(raw).Some? ==> IsEmail(MakeEmail(raw).value)
    ensures MakeDisplayName(raw).Some? ==> IsDisplayName(MakeDisplayName(raw).value)
  {
    StripTrims(raw);
    var e := NormalizeEmail(raw);
    assert Trimmed(e);
    StripTrims(e);
    assert Lower(e) == e;
    StripTrims(Strip(raw));
  }

  /** Two raw texts name the same account exactly when they agree after trimming and lower-casing;
      in particular surrounding space and letter case never make a second account. */
  lemma SameAccount(raw: string, other: string)
    requires MakeEmail(raw).Some?
    ensures MakeEmail(other) == MakeEmail(raw) <==> Lower(Strip(other)) == Lower(Strip(raw))
    ensures MakeEmail(Lower(raw)) == MakeEmail(raw)
  {
    LowerStrip(raw);
  }

  lemma LowerStrip(s: string)
    ensures Lower(Strip(Lower(s))) == Lower(Strip(s))
  {
    LowerStripLeft(s);
    LowerStripRight(StripLeft(s));
    assert Lower(Lower(Strip(s))) == Lower(Strip(s));
  }

  lemma {:induction false} LowerStripLeft(s: string)
    ensures StripLeft(Lower(s)) == Lower(StripLeft(s))
  {
    if s != [] && IsSpace(s[0]) {
      LowerStripLeft(s[1..]);
      assert Lower(s)[1..] == Lower(s[1..]);
    }
  }

  lemma {:induction false} LowerStripRight(s: string)
    ensures StripRight(Lower(s)) == Lower(StripRight(s))
  {
    if s != [] && IsSpace(s[|s| - 1]) {
      LowerStripRight(s[..|s| - 1]);
      assert Lower(s)[..|s| - 1] == Lower(s[..|s| - 1]);
    }
  }

  // ---------------------------------------------------------------- the same, position by position

  predicate Blank(text: string) {
    forall k | 0 <= k < |text| :: IsSpace(text[k])
  }

  /** The space characters, by code point. */
  lemma SpacesAre(c: char)
    ensures IsSpace(c) <==>
              || 9 <= c as int <= 13 || 28 <= c as int <= 32 || 0x2000 <= c as int <= 0x200A
              || c as int in {0x85, 0xA0, 0x1680, 0x2028, 0x2029, 0x202F, 0x205F, 0x3000}
  {
  }

  lemma {:induction false} StripLeftRemoves(a: string, s: string)
    requires Blank(a) && (s == [] || !IsSpace(s[0]))
    ensures StripLeft(a + s) == s
  {
    if a == [] {
      assert a + s == s;
    } else {
      StripLeftRemoves(a[1..], s);
      assert (a + s)[1..] == a[1..] + s;
    }
  }

  lemma {:induction false} StripRightRemoves(s: string, b: string)
    requires Blank(b) && (s == [] || !IsSpace(s[|s| - 1]))
    ensures StripRight(s + b) == s
  {
    if b == [] {
      assert s + b == s;
    } else {
      StripRightRemoves(s, b[..|b| - 1]);
      assert (s + b)[..|s + b| - 1] == s + b[..|b| - 1];
    }
  }

  /** Stripping removes the spaces around a text and nothing else. */
  lemma StripRemoves(a: string, s: string, b: string)
    requires Blank(a) && Blank(b) && Trimmed(s)
    ensures Strip(a + s + b) == s
  {
    if s == [] {
      assert a + s + b == (a + b) + [];
      StripLeftRemoves(a + b, []);
    } else {
      assert a + s + b == a + (s + b);
      StripLeftRemoves(a, s + b);
      StripRightRemoves(s, b);
    }
  }

  /** A display name is the text without the spaces around it, 1 to 120 characters long. */
  lemma DisplayNameIs(a: string, s: string, b: string)
    requires Blank(a) && Blank(b) && Trimmed(s)
    ensures MakeDisplayName(a + s + b) == if 1 <= |s| <= 120 then Some(s) else None
  {
    StripRemoves(a, s, b);
  }

  predicate IsLetter(c: char) {
    'a' <= c <= 'z' || 'A' <= c <= 'Z'
  }

  // Equal but for the case of letters.
  predicate SameLetters(a: string, b: string) {
    |a| == |b| &&
    forall k | 0 <= k < |a| ::
      a[k] == b[k] || (IsLetter(a[k]) && IsLetter(b[k]) && (a[k] as int - b[k] as int) in {-32, 32})
  }

  lemma LowerTells(a: string, b: string)
    ensures Lower(a) == Lower(b) <==> SameLetters(a, b)
  {
    if SameLetters(a, b) {
      assert forall k | 0 <= k < |a| :: LowerChar(a[k]) == LowerChar(b[k]);
    } else if Lower(a) == Lower(b) {
      forall k | 0 <= k < |a|
        ensures a[k] == b[k] || (IsLetter(a[k]) && IsLetter(b[k]) && (a[k] as int - b[k] as int) in {-32, 32})
      {
        assert Lower(a)[k] == Lower(b)[k];
      }
    }
  }

  /** Two texts name the same account exactly when, without the spaces around them, they are equal but for case. */
  lemma SameAccountLetters(raw: string, other: string)
    requires MakeEmail(raw).Some?
    ensures MakeEmail(other) == MakeEmail(raw) <==> SameLetters(Strip(other), Strip(raw))
  {
    SameAccount(raw, other);
    LowerTells(Strip(other), Strip(raw));
  }

  // A part of an address: not empty, no space, no at sign.
  predicate Word(t: string) {
    t != [] && forall k | 0 <= k < |t| :: !IsSpace(t[k]) && t[k] != '@'
  }

  lemma PatternHasWords(s: string) returns (a: string, b: string, c: string)
    requires MatchesEmailPattern(s)
    ensures Word(a) && Word(b) && Word(c) && s == Address(a, b, c)
  {
    var at, dot :| 0 <= at < |s| && 0 <= dot < |s| && 1 <= at && at + 1 < dot < |s| - 1 && s[at] == '@' && s[dot] == '.'
      && forall k | 0 <= k < |s| :: !IsSpace(s[k]) && (s[k] == '@' ==> k == at);
    hide IsSpace;
    SliceIsWord(s, 0, at);
    SliceIsWord(s, at + 1, dot);
    SliceIsWord(s, dot + 1, |s|);
    a, b, c := s[0..at], s[at + 1..dot], s[dot + 1..|s|];
    hide Word;
    assert s == Address(a, b, c);
  }

  lemma SliceIsWord(s: string, i: nat, j: nat)
    requires i < j <= |s| && forall k | i <= k < j :: !IsSpace(s[k]) && s[k] != '@'
    ensures Word(s[i..j])
  {
    hide IsSpace;
  }

  lemma WordsMatch(a: string, b: string, c: string)
    requires Word(a) && Word(b) && Word(c)
    ensures MatchesEmailPattern(Address(a, b, c))
  {
    hide IsSpace;
    var s, at, dot := Address(a, b, c), |a|, |a| + 1 + |b|;
    assert s[at] == '@' && s[dot] == '.';
    SpacesAre('@');
    SpacesAre('.');
    forall k | 0 <= k < |s| ensures !IsSpace(s[k]) && (s[k] == '@' ==> k == at) {
      assert k < at ==> s[k] == a[k];
      assert at < k < dot ==> s[k] == b[k - at - 1];
      assert dot < k ==> s[k] == c[k - dot - 1];
    }
  }

  /** The address pattern, as the words it is made of. */
  lemma PatternIs(s: string)
    ensures MatchesEmailPattern(s) <==>
              exists a, b, c :: Word(a) && Word(b) && Word(c) && s == Address(a, b, c)
  {
    if MatchesEmailPattern(s) {
      hide MatchesEmailPattern, IsSpace;
      var a, b, c := PatternHasWords(s);
      assert Word(a) && Word(b) && Word(c) && s == Address(a, b, c);
    }
    hide MatchesEmailPattern, IsSpace, Word, Address;
    if a, b, c :| Word(a) && Word(b) && Word(c) && s == Address(a, b, c) {
      WordsMatch(a, b, c);
    }
  }

  function Address(a: string, b: string, c: string): string {
    a + "@" + b + "." + c
  }

  /** An email is the text without the spaces around it and in lower case, an address of at most 254 characters. */
  lemma EmailIs(raw: string)
    ensures var v := Lower(Strip(raw));
            && (MakeEmail(raw).Some? ==> MakeEmail(raw).value == v)
            && (MakeEmail(raw).Some? <==>
                  |v| <= 254 && exists a, b, c :: Word(a) && Word(b) && Word(c) && v == Address(a, b, c))
  {
    PatternIs(Lower(Strip(raw)));
    hide MatchesEmailPattern;
  }

  // One of the five words, in any mixture of cases, with or without spaces around it.
  predicate Reserved(name: string) {
    var s := Strip(name);
    || SameLetters(s, "admin") || SameLetters(s, "root") || SameLetters(s, "system")
    || SameLetters(s, "support") || SameLetters(s, "moderator")
  }

  /** The policy refuses exactly those names. */
  lemma PolicyIs(name: string)
    ensures NameAllowed(name) <==> !Reserved(name)
  {
    var s := Strip(name);
    LowerTells(s, "admin");
    LowerTells(s, "root");
    LowerTells(s, "system");
    LowerTells(s, "support");
    LowerTells(s, "moderator");
    assert Lower("admin") == "admin" && Lower("root") == "root" && Lower("system") == "system";
    assert Lower("support") == "support" && Lower("moderator") == "moderator";
    hide SameLetters, Lower;
  }
}
