/**
 The regular expressions the personal profile section validates with. Each is
 anchored at both ends (`^...$`) and is a sequence of character classes, each
 repeated between a minimum and an optional maximum number of times, with an
 optional `i` flag. `Test` is `RegExp.prototype.test` for such a pattern: the
 input splits into consecutive runs, one per atom.
 */
module Pattern {
  import opened Wrappers
  import opened Ascii

  /** A character class as inclusive ranges, e.g. `[A-Z0-9]`. */
  type Class = seq<(char, char)>

  /** `[...]{min,max}`; `max == None` is an open bound (`+` is `{1,}`). */
  datatype Atom = Atom(cls: Class, min: nat, max: Option<nat>)

  datatype Regex = Regex(atoms: seq<Atom>, ignoreCase: bool)

  predicate InClass(c: char, cls: Class)
    decreases |cls|
  {
    cls != [] && (cls[0].0 <= c <= cls[0].1 || InClass(c, cls[1..]))
  }

  /**
   One character against a class. Under the `i` flag a character also matches
   when its other-case ASCII letter is in the class; outside ASCII the flag
   changes nothing for these patterns.
   */
  predicate CharMatches(c: char, cls: Class, ignoreCase: bool)
  {
    InClass(c, cls) || (ignoreCase && (InClass(AsciiUpper(c), cls) || InClass(AsciiLower(c), cls)))
  }

  predicate AllMatch(s: string, cls: Class, ignoreCase: bool)
  {
    forall i :: 0 <= i < |s| ==> CharMatches(s[i], cls, ignoreCase)
  }

  predicate CountOk(n: nat, a: Atom)
  {
    a.min <= n && (a.max.None? || n <= a.max.value)
  }

  /** The atoms match the whole of `s`, each a run of allowed length. */
  predicate MatchesFrom(atoms: seq<Atom>, s: string, ignoreCase: bool)
    decreases |atoms|
  {
    if atoms == [] then s == []
    else exists k :: 0 <= k <= |s| && CountOk(k, atoms[0]) && AllMatch(s[..k], atoms[0].cls, ignoreCase)
                                    && MatchesFrom(atoms[1..], s[k..], ignoreCase)
  }

  predicate Test(r: Regex, s: string)
  {
    MatchesFrom(r.atoms, s, r.ignoreCase)
  }

  /** A single atom matches exactly the runs of its class of allowed length. */
  lemma MatchOne(a: Atom, s: string, ignoreCase: bool)
    ensures MatchesFrom([a], s, ignoreCase) <==> CountOk(|s|, a) && AllMatch(s, a.cls, ignoreCase)
  {
    assert [a][1..] == [];
    if MatchesFrom([a], s, ignoreCase) {
      var k :| 0 <= k <= |s| && CountOk(k, a) && AllMatch(s[..k], a.cls, ignoreCase) && MatchesFrom([], s[k..], ignoreCase);
      assert k == |s| && s[..k] == s;
    }
    if CountOk(|s|, a) && AllMatch(s, a.cls, ignoreCase) {
      assert s[..|s|] == s && s[|s|..] == [];
      assert MatchesFrom([a][1..], s[|s|..], ignoreCase);
    }
  }

  /** An atom of fixed length `n` takes exactly the first `n` characters. */
  lemma MatchFixed(a: Atom, rest: seq<Atom>, s: string, ignoreCase: bool)
    requires a.max == Some(a.min)
    ensures MatchesFrom([a] + rest, s, ignoreCase)
        <==> |s| >= a.min && AllMatch(s[..a.min], a.cls, ignoreCase) && MatchesFrom(rest, s[a.min..], ignoreCase)
  {
    assert ([a] + rest)[0] == a && ([a] + rest)[1..] == rest;
  }

  /** An atom followed by more atoms: some run of it, then the rest. */
  lemma MatchSplit(a: Atom, rest: seq<Atom>, s: string, ignoreCase: bool)
    ensures MatchesFrom([a] + rest, s, ignoreCase)
        <==> exists k :: 0 <= k <= |s| && CountOk(k, a) && AllMatch(s[..k], a.cls, ignoreCase)
                                     && MatchesFrom(rest, s[k..], ignoreCase)
  {
    assert ([a] + rest)[0] == a && ([a] + rest)[1..] == rest;
  }

  // ---------------------------------------------------------------------
  // The four patterns of the personal profile section

  predicate IsDigit(c: char) { '0' <= c <= '9' }

  predicate IsLetter(c: char) { 'A' <= c <= 'Z' || 'a' <= c <= 'z' }

  const Digits: Class := [('0', '9')]
  const Letters: Class := [('A', 'Z'), ('a', 'z')]

  const TenDigits := Atom(Digits, 10, Some(10))
  const SixDigits := Atom(Digits, 6, Some(6))
  const FiveLetters := Atom(Letters, 5, Some(5))
  const FourDigits := Atom(Digits, 4, Some(4))
  const OneLetter := Atom(Letters, 1, Some(1))

  /** `/^[0-9]{10}$/` */
  const MobilePattern := Regex([TenDigits], false)
  /** `/^[0-9]{6}$/` */
  const PinPattern := Regex([SixDigits], false)
  /** `/^[A-Za-z]{5}[0-9]{4}[A-Za-z]{1}$/` */
  const PanPattern := Regex([FiveLetters, FourDigits, OneLetter], false)

  /** `[A-Z0-9._%+-]` */
  const LocalClass: Class := [('A', 'Z'), ('0', '9'), ('.', '.'), ('_', '_'), ('%', '%'), ('+', '+'), ('-', '-')]
  /** `[A-Z0-9.-]` */
  const DomainClass: Class := [('A', 'Z'), ('0', '9'), ('.', '.'), ('-', '-')]

  const LocalPart := Atom(LocalClass, 1, None)
  const AtSign := Atom([('@', '@')], 1, Some(1))
  const DomainPart := Atom(DomainClass, 1, None)
  const Dot := Atom([('.', '.')], 1, Some(1))
  const TopLevel := Atom([('A', 'Z')], 2, None)

  /** `/^[A-Z0-9._%+-]+@[A-Z0-9.-]+\.[A-Z]{2,}$/i` */
  const EmailPattern := Regex([LocalPart, AtSign, DomainPart, Dot, TopLevel], true)

  predicate ValidMobile(s: string)
  {
    |s| == 10 && forall i :: 0 <= i < |s| ==> IsDigit(s[i])
  }

  predicate ValidPin(s: string)
  {
    |s| == 6 && forall i :: 0 <= i < |s| ==> IsDigit(s[i])
  }

  predicate ValidPan(s: string)
  {
    && |s| == 10
    && (forall i :: 0 <= i < 5 ==> IsLetter(s[i]))
    && (forall i :: 5 <= i < 9 ==> IsDigit(s[i]))
    && IsLetter(s[9])
  }

  predicate LocalChar(c: char)
  {
    IsLetter(c) || IsDigit(c) || c == '.' || c == '_' || c == '%' || c == '+' || c == '-'
  }

  predicate DomainChar(c: char)
  {
    IsLetter(c) || IsDigit(c) || c == '.' || c == '-'
  }

  /** The dot at `d` is followed only by letters, at least two, with something before it. */
  predicate TopLevelSplit(t: string, d: int)
  {
    0 < d && d + 2 < |t| && t[d] == '.' && forall i :: d < i < |t| ==> IsLetter(t[i])
  }

  /** A domain: domain characters only, whose last dot starts a top-level part. */
  predicate DomainShape(t: string)
  {
    (forall i :: 0 <= i < |t| ==> DomainChar(t[i])) && exists d :: 0 < d < |t| && TopLevelSplit(t, d)
  }

  /** The single `@` at `a` has a non-empty local part before it and a domain after it. */
  predicate EmailSplit(s: string, a: int)
  {
    && 0 < a < |s|
    && s[a] == '@'
    && (forall i :: 0 <= i < |s| && i != a ==> s[i] != '@')
    && (forall i :: 0 <= i < a ==> LocalChar(s[i]))
    && DomainShape(s[a + 1..])
  }

  predicate ValidEmail(s: string)
  {
    exists a :: 0 < a < |s| && EmailSplit(s, a)
  }

  lemma DigitClass()
    ensures forall c :: CharMatches(c, Digits, false) <==> IsDigit(c)
  {
  }

  lemma LetterClass()
    ensures forall c :: CharMatches(c, Letters, false) <==> IsLetter(c)
  {
  }

  lemma LocalClassIff()
    ensures forall c :: CharMatches(c, LocalClass, true) <==> LocalChar(c)
  {
    forall c ensures CharMatches(c, LocalClass, true) <==> LocalChar(c) {
      LocalRanges(c);
      LocalRanges(AsciiUpper(c));
      LocalRanges(AsciiLower(c));
    }
  }

  /** The ranges of `LocalClass`, one by one. */
  lemma LocalRanges(c: char)
    ensures InClass(c, LocalClass) <==>
      'A' <= c <= 'Z' || IsDigit(c) || c == '.' || c == '_' || c == '%' || c == '+' || c == '-'
  {
    assert LocalClass[1..] == [('0', '9'), ('.', '.'), ('_', '_'), ('%', '%'), ('+', '+'), ('-', '-')];
  }

  lemma DomainClassIff()
    ensures forall c :: CharMatches(c, DomainClass, true) <==> DomainChar(c)
  {
  }

  lemma AtClassIff()
    ensures forall c :: CharMatches(c, [('@', '@')], true) <==> c == '@'
  {
  }

  lemma DotClassIff()
    ensures forall c :: CharMatches(c, [('.', '.')], true) <==> c == '.'
  {
  }

  lemma UpperClassIff()
    ensures forall c :: CharMatches(c, [('A', 'Z')], true) <==> IsLetter(c)
  {
  }

  /** The mobile-number pattern accepts exactly ten ASCII digits. */
  lemma MobileIff(s: string)
    ensures Test(MobilePattern, s) <==> ValidMobile(s)
  {
    MatchOne(TenDigits, s, false);
    DigitClass();
  }

  /** The PIN-code pattern accepts exactly six ASCII digits. */
  lemma PinIff(s: string)
    ensures Test(PinPattern, s) <==> ValidPin(s)
  {
    MatchOne(SixDigits, s, false);
    DigitClass();
  }

  /** The PAN pattern accepts exactly five letters, four digits and a letter. */
  lemma PanIff(s: string)
    ensures Test(PanPattern, s) <==> ValidPan(s)
  {
    DigitClass();
    LetterClass();
    assert PanPattern.atoms == [FiveLetters] + [FourDigits, OneLetter];
    assert [FourDigits, OneLetter] == [FourDigits] + [OneLetter];
    MatchFixed(FiveLetters, [FourDigits, OneLetter], s, false);
    if |s| >= 5 {
      var u := s[5..];
      MatchFixed(FourDigits, [OneLetter], u, false);
      if |u| >= 4 {
        MatchOne(OneLetter, u[4..], false);
        if ValidPan(s) {
          assert forall i :: 0 <= i < 4 ==> u[..4][i] == s[i + 5];
        }
        if Test(PanPattern, s) {
          assert forall i :: 5 <= i < 9 ==> s[i] == u[..4][i - 5];
          assert s[9] == u[4..][0];
        }
      }
    }
  }

  /** `.[A-Z]{2,}` with the `i` flag: a dot, then at least two letters. */
  lemma TopLevelIff(u: string)
    ensures MatchesFrom([Dot, TopLevel], u, true)
        <==> |u| >= 3 && u[0] == '.' && forall i :: 1 <= i < |u| ==> IsLetter(u[i])
  {
    DotClassIff();
    UpperClassIff();
    assert [Dot, TopLevel] == [Dot] + [TopLevel];
    MatchFixed(Dot, [TopLevel], u, true);
    if |u| >= 1 {
      MatchOne(TopLevel, u[1..], true);
      assert forall i :: 1 <= i < |u| ==> u[i] == u[1..][i - 1];
    }
  }

  lemma DomainMatchShape(t: string)
    requires MatchesFrom([DomainPart, Dot, TopLevel], t, true)
    ensures DomainShape(t)
  {
    DomainClassIff();
    assert [DomainPart, Dot, TopLevel] == [DomainPart] + [Dot, TopLevel];
    MatchSplit(DomainPart, [Dot, TopLevel], t, true);
    var k :| 0 <= k <= |t| && CountOk(k, DomainPart) && AllMatch(t[..k], DomainClass, true)
                           && MatchesFrom([Dot, TopLevel], t[k..], true);
    TopLevelIff(t[k..]);
    assert t[k] == t[k..][0];
    forall i | k < i < |t| ensures IsLetter(t[i]) {
      assert t[i] == t[k..][i - k];
    }
    assert TopLevelSplit(t, k);
    forall i | 0 <= i < |t| ensures DomainChar(t[i]) {
      if i < k {
        assert t[i] == t[..k][i];
        assert CharMatches(t[..k][i], DomainClass, true);
      }
    }
  }

  lemma DomainShapeMatch(t: string)
    requires DomainShape(t)
    ensures MatchesFrom([DomainPart, Dot, TopLevel], t, true)
  {
    DomainClassIff();
    var d :| 0 < d < |t| && TopLevelSplit(t, d);
    assert t[d..][0] == '.';
    forall i | 1 <= i < |t[d..]| ensures IsLetter(t[d..][i]) {
      assert t[d..][i] == t[d + i];
    }
    TopLevelIff(t[d..]);
    assert AllMatch(t[..d], DomainClass, true) by {
      forall i | 0 <= i < d ensures CharMatches(t[..d][i], DomainClass, true) {
        assert t[..d][i] == t[i];
        assert DomainChar(t[i]);
      }
    }
    assert CountOk(d, DomainPart);
    assert [DomainPart, Dot, TopLevel] == [DomainPart] + [Dot, TopLevel];
    MatchSplit(DomainPart, [Dot, TopLevel], t, true);
  }

  /** `@` then a domain. */
  lemma AtDomainIff(u: string)
    ensures MatchesFrom([AtSign, DomainPart, Dot, TopLevel], u, true)
        <==> |u| >= 1 && u[0] == '@' && DomainShape(u[1..])
  {
    var rest := [DomainPart, Dot, TopLevel];
    assert [AtSign, DomainPart, Dot, TopLevel] == [AtSign] + rest;
    MatchFixed(AtSign, rest, u, true);
    if |u| >= 1 {
      assert AllMatch(u[..1], [('@', '@')], true) <==> u[0] == '@' by {
        AtClassIff();
        assert u[..1][0] == u[0];
      }
      if DomainShape(u[1..]) {
        DomainShapeMatch(u[1..]);
      }
      if MatchesFrom(rest, u[1..], true) {
        DomainMatchShape(u[1..]);
      }
    }
  }

  /** Local characters before the `@` and a domain after it leave no room for a second `@`. */
  lemma SingleAt(s: string, a: nat)
    requires a < |s| && s[a] == '@'
    requires forall i :: 0 <= i < a ==> LocalChar(s[i])
    requires DomainShape(s[a + 1..])
    ensures forall i :: 0 <= i < |s| && i != a ==> s[i] != '@'
  {
    forall i | a < i < |s| ensures s[i] != '@' {
      assert s[i] == s[a + 1..][i - a - 1];
    }
  }

  lemma EmailMatchValid(s: string)
    requires Test(EmailPattern, s)
    ensures ValidEmail(s)
  {
    assert EmailPattern.atoms == [LocalPart] + [AtSign, DomainPart, Dot, TopLevel];
    MatchSplit(LocalPart, [AtSign, DomainPart, Dot, TopLevel], s, true);
    var k :| 0 <= k <= |s| && CountOk(k, LocalPart) && AllMatch(s[..k], LocalClass, true)
                           && MatchesFrom([AtSign, DomainPart, Dot, TopLevel], s[k..], true);
    AtDomainIff(s[k..]);
    assert s[k] == s[k..][0];
    assert s[k + 1..] == s[k..][1..];
    forall i | 0 <= i < k ensures LocalChar(s[i]) {
      LocalClassIff();
      assert s[i] == s[..k][i];
      assert CharMatches(s[..k][i], LocalClass, true);
    }
    SingleAt(s, k);
    assert EmailSplit(s, k);
  }

  lemma EmailValidMatch(s: string)
    requires ValidEmail(s)
    ensures Test(EmailPattern, s)
  {
    LocalClassIff();
    var a :| 0 < a < |s| && EmailSplit(s, a);
    assert s[a..][0] == '@' && s[a..][1..] == s[a + 1..];
    AtDomainIff(s[a..]);
    assert AllMatch(s[..a], LocalClass, true) by {
      forall i | 0 <= i < a ensures CharMatches(s[..a][i], LocalClass, true) {
        assert s[..a][i] == s[i];
        assert LocalChar(s[i]);
      }
    }
    assert CountOk(a, LocalPart);
    assert EmailPattern.atoms == [LocalPart] + [AtSign, DomainPart, Dot, TopLevel];
    MatchSplit(LocalPart, [AtSign, DomainPart, Dot, TopLevel], s, true);
  }

  /**
   The e-mail pattern accepts exactly: a non-empty local part of
   `[A-Za-z0-9._%+-]`, a single `@`, and a domain of `[A-Za-z0-9.-]` whose last
   dot has something before it and at least two letters after it.
   */
  lemma EmailIff(s: string)
    ensures Test(EmailPattern, s) <==> ValidEmail(s)
  {
    if Test(EmailPattern, s) {
      EmailMatchValid(s);
    }
    if ValidEmail(s) {
      EmailValidMatch(s);
    }
  }
}
