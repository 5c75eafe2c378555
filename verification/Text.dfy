/**
 ASCII text as Python's `strip`, `upper` and `<` and SQL's `trim` treat it.

 `Canon` is the symbol, source and stream normalization used everywhere in the repository.
 */
module Text {
  /** The ASCII characters `str.strip()` removes. */
  const WHITESPACE: set<char> := {' ', '\t', '\n', '\r', '\U{0B}', '\U{0C}', '\U{1C}', '\U{1D}', '\U{1E}', '\U{1F}'}

  /** What SQL's one-argument `trim` removes. */
  const SPACES: set<char> := {' '}

  function TrimLeft(s: string, cs: set<char>): string {
    if s != [] && s[0] in cs then TrimLeft(s[1..], cs) else s
  }

  function TrimRight(s: string, cs: set<char>): string {
    if s != [] && s[|s| - 1] in cs then TrimRight(s[..|s| - 1], cs) else s
  }

  function Trim(s: string, cs: set<char>): string {
    TrimRight(TrimLeft(s, cs), cs)
  }

  function Strip(s: string): string {
    Trim(s, WHITESPACE)
  }

  function SqlTrim(s: string): string {
    Trim(s, SPACES)
  }

  function UpperChar(c: char): char {
    if 'a' <= c <= 'z' then (c as int - 32) as char else c
  }

  function Upper(s: string): (u: string)
    ensures |u| == |s|
  {
    seq(|s|, i requires 0 <= i < |s| => UpperChar(s[i]))
  }

  /** `value.strip().upper()`. */
  function Canon(s: string): string {
    Upper(Strip(s))
  }

  // ------------------------------------------------------------ trimming

  /** Cutting `s` down to `s[i..j]` removes only characters of `cs` and leaves none at the ends. */
  ghost predicate TrimmedAt(s: string, cs: set<char>, i: nat, j: nat) {
    && i <= j <= |s|
    && (forall k :: 0 <= k < i ==> s[k] in cs)
    && (forall k :: j <= k < |s| ==> s[k] in cs)
    && (i < j ==> s[i] !in cs && s[j - 1] !in cs)
  }

  lemma {:induction false} TrimLeftBound(s: string, cs: set<char>) returns (i: nat)
    ensures i <= |s| && TrimLeft(s, cs) == s[i..]
    ensures forall k :: 0 <= k < i ==> s[k] in cs
    ensures i < |s| ==> s[i] !in cs
  {
    if s != [] && s[0] in cs {
      i := TrimLeftBound(s[1..], cs);
      assert forall k :: 1 <= k < i + 1 ==> s[k] == s[1..][k - 1];
      i := i + 1;
    } else {
      i := 0;
    }
  }

  lemma {:induction false} TrimRightBound(s: string, cs: set<char>) returns (j: nat)
    ensures j <= |s| && TrimRight(s, cs) == s[..j]
    ensures forall k :: j <= k < |s| ==> s[k] in cs
    ensures j > 0 ==> s[j - 1] !in cs
  {
    if s != [] && s[|s| - 1] in cs {
      j := TrimRightBound(s[..|s| - 1], cs);
    } else {
      j := |s|;
    }
  }

  lemma TrimBounds(s: string, cs: set<char>) returns (i: nat, j: nat)
    ensures TrimmedAt(s, cs, i, j) && Trim(s, cs) == s[i..j]
  {
    i := TrimLeftBound(s, cs);
    var t := s[i..];
    var n := TrimRightBound(t, cs);
    j := i + n;
    assert forall k :: i <= k < |s| ==> s[k] == t[k - i];
  }

  /** There is only one way to trim. */
  lemma TrimIs(s: string, cs: set<char>, i: nat, j: nat)
    requires TrimmedAt(s, cs, i, j)
    ensures Trim(s, cs) == s[i..j]
  {
    var i', j' := TrimBounds(s, cs);
    if i < j {
      assert i' == i && j' == j;
    }
  }

  lemma TrimInTwoSteps(s: string, inner: set<char>, cs: set<char>)
    requires inner <= cs
    ensures Trim(Trim(s, inner), cs) == Trim(s, cs)
  {
    var i, j := TrimBounds(s, inner);
    var t := s[i..j];
    var m, n := TrimBounds(t, cs);
    assert forall k :: i <= k < j ==> s[k] == t[k - i];
    TrimIs(s, cs, i + m, i + n);
  }

  lemma UpperKeepsTrim(s: string)
    ensures Strip(Upper(s)) == Upper(Strip(s))
  {
    var i, j := TrimBounds(s, WHITESPACE);
    TrimIs(Upper(s), WHITESPACE, i, j);
  }

  lemma CanonIdempotent(s: string)
    ensures Canon(Canon(s)) == Canon(s)
  {
    UpperKeepsTrim(Strip(s));
    TrimInTwoSteps(s, WHITESPACE, WHITESPACE);
  }

  /** Canonical text has nothing left to trim. */
  lemma CanonIsTrimmed(s: string)
    ensures SqlTrim(Canon(s)) == Canon(s)
  {
    var i, j := TrimBounds(Canon(s), WHITESPACE);
    CanonIdempotent(s);
    UpperKeepsTrim(Strip(s));
    TrimInTwoSteps(s, WHITESPACE, WHITESPACE);
    assert Strip(Canon(s)) == Canon(s);
    TrimIs(Canon(s), SPACES, 0, |Canon(s)|);
  }

  lemma CanonAfterSqlTrim(s: string)
    ensures Canon(SqlTrim(s)) == Canon(s)
  {
    TrimInTwoSteps(s, SPACES, WHITESPACE);
  }

  // ------------------------------------------------------------ what canonical text is

  /** White space by code: space, the controls 9 to 13 and the separators 28 to 31. */
  predicate White(c: char) {
    c as int == 32 || 9 <= c as int <= 13 || 28 <= c as int <= 31
  }

  /** `s[i..j]` is `s` without the white space around it. */
  ghost predicate Cut(s: string, i: nat, j: nat) {
    && i <= j <= |s|
    && (forall k :: 0 <= k < i || j <= k < |s| ==> White(s[k]))
    && (i < j ==> !White(s[i]) && !White(s[j - 1]))
  }

  /** The same character, or the two cases of one letter, whose codes are 32 apart. */
  predicate SameLetter(c: char, d: char) {
    || c == d
    || (65 <= c as int <= 90 && d as int == c as int + 32)
    || (65 <= d as int <= 90 && c as int == d as int + 32)
  }

  predicate SameLetters(s: string, t: string) {
    |s| == |t| && forall i :: 0 <= i < |s| ==> SameLetter(s[i], t[i])
  }

  predicate NoLowerCase(s: string) {
    forall i :: 0 <= i < |s| ==> !(97 <= s[i] as int <= 122)
  }

  /** The two spellings differ in case and in white space around them only. */
  ghost predicate SameSpelling(s: string, t: string) {
    exists i: nat, j: nat, k: nat, m: nat :: Cut(s, i, j) && Cut(t, k, m) && SameLetters(s[i..j], t[k..m])
  }

  lemma CutIsTrimmed(s: string, i: nat, j: nat)
    ensures Cut(s, i, j) <==> TrimmedAt(s, WHITESPACE, i, j)
  {
    assert forall c: char :: c in WHITESPACE <==> White(c);
  }

  /** `u` is `s` in upper case. */
  predicate IsUpper(u: string, s: string) {
    SameLetters(u, s) && NoLowerCase(u)
  }

  /** `u` is what stands between the white space around `s`, in upper case. */
  ghost predicate Spells(u: string, s: string) {
    exists i: nat, j: nat :: Cut(s, i, j) && IsUpper(u, s[i..j])
  }

  lemma UpperIff(u: string, s: string)
    ensures u == Upper(s) <==> IsUpper(u, s)
  {
    if IsUpper(u, s) {
      forall i | 0 <= i < |s| ensures u[i] == Upper(s)[i] {
        assert SameLetter(u[i], s[i]);
      }
    }
  }

  lemma UpperAgreesIff(s: string, t: string)
    ensures Upper(s) == Upper(t) <==> SameLetters(s, t)
  {
    if Upper(s) == Upper(t) {
      assert |s| == |t|;
      forall i | 0 <= i < |s| ensures SameLetter(s[i], t[i]) {
        assert Upper(s)[i] == Upper(t)[i];
      }
    }
  }

  /** The canonical form is the text between the white space, in upper case. */
  lemma CanonIff(u: string, s: string)
    ensures u == Canon(s) <==> Spells(u, s)
  {
    var i, j := TrimBounds(s, WHITESPACE);
    CutIsTrimmed(s, i, j);
    UpperIff(u, s[i..j]);
    if k: nat, m: nat :| Cut(s, k, m) && IsUpper(u, s[k..m]) {
      CutIsTrimmed(s, k, m);
      TrimIs(s, WHITESPACE, k, m);
      UpperIff(u, s[k..m]);
    }
  }

  /** Two texts are canonically equal exactly when they differ in case and surrounding white space only. */
  lemma CanonAgreesIff(s: string, t: string)
    ensures Canon(s) == Canon(t) <==> SameSpelling(s, t)
  {
    if Canon(s) == Canon(t) {
      var i, j := TrimBounds(s, WHITESPACE);
      var k, m := TrimBounds(t, WHITESPACE);
      CutIsTrimmed(s, i, j);
      CutIsTrimmed(t, k, m);
      UpperAgreesIff(s[i..j], t[k..m]);
    }
    if i: nat, j: nat, k: nat, m: nat :| Cut(s, i, j) && Cut(t, k, m) && SameLetters(s[i..j], t[k..m]) {
      CutIsTrimmed(s, i, j);
      CutIsTrimmed(t, k, m);
      TrimIs(s, WHITESPACE, i, j);
      TrimIs(t, WHITESPACE, k, m);
      UpperAgreesIff(s[i..j], t[k..m]);
    }
  }

  lemma BlankIff(s: string)
    ensures Strip(s) == [] <==> forall i :: 0 <= i < |s| ==> White(s[i])
  {
    var i, j := TrimBounds(s, WHITESPACE);
    CutIsTrimmed(s, i, j);
  }

  /** `s[i..j]` is `s` without the spaces, code 32, around it. */
  ghost predicate CutSpaces(s: string, i: nat, j: nat) {
    && i <= j <= |s|
    && (forall k :: 0 <= k < i || j <= k < |s| ==> s[k] as int == 32)
    && (i < j ==> s[i] as int != 32 && s[j - 1] as int != 32)
  }

  ghost predicate WithoutSpaces(u: string, s: string) {
    exists i: nat, j: nat :: CutSpaces(s, i, j) && u == s[i..j]
  }

  /** SQL's `trim` takes away the spaces at both ends and nothing else. */
  lemma SqlTrimIff(u: string, s: string)
    ensures u == SqlTrim(s) <==> WithoutSpaces(u, s)
  {
    var i, j := TrimBounds(s, SPACES);
    assert CutSpaces(s, i, j);
    if k: nat, m: nat :| CutSpaces(s, k, m) && u == s[k..m] {
      TrimIs(s, SPACES, k, m);
    }
  }

  // ------------------------------------------------------------ order

  /** Python's `<=` on strings. */
  predicate AtMost(s: string, t: string) {
    s == [] || (t != [] && (s[0] < t[0] || (s[0] == t[0] && AtMost(s[1..], t[1..]))))
  }

  /** A prefix comes first, and otherwise the text with the smaller code where they first differ. */
  ghost predicate Precedes(s: string, t: string, i: nat) {
    i <= |s| && i <= |t| && s[..i] == t[..i] && (i == |s| || (i < |t| && s[i] as int < t[i] as int))
  }

  lemma {:induction false} AtMostIff(s: string, t: string)
    ensures AtMost(s, t) <==> exists i: nat :: Precedes(s, t, i)
  {
    if s == [] {
      assert Precedes(s, t, 0);
    } else if t == [] {
    } else if s[0] == t[0] {
      AtMostIff(s[1..], t[1..]);
      if i: nat :| Precedes(s[1..], t[1..], i) {
        assert s[..i + 1] == [s[0]] + s[1..][..i] && t[..i + 1] == [t[0]] + t[1..][..i];
        assert Precedes(s, t, i + 1);
      }
      if i: nat :| Precedes(s, t, i) {
        assert i > 0 && s[1..][..i - 1] == s[..i][1..] && t[1..][..i - 1] == t[..i][1..];
        assert Precedes(s[1..], t[1..], i - 1);
      }
    } else {
      assert s[0] < t[0] ==> Precedes(s, t, 0);
      if i: nat :| Precedes(s, t, i) {
        assert i > 0 ==> s[..i][0] == t[..i][0];
      }
    }
  }

  lemma {:induction false} AtMostTotal(s: string, t: string)
    ensures AtMost(s, t) || AtMost(t, s)
  {
    if s != [] && t != [] {
      AtMostTotal(s[1..], t[1..]);
    }
  }

  lemma {:induction false} AtMostAntisymmetric(s: string, t: string)
    requires AtMost(s, t) && AtMost(t, s)
    ensures s == t
  {
    if s != [] {
      AtMostAntisymmetric(s[1..], t[1..]);
      assert s == [s[0]] + s[1..] && t == [t[0]] + t[1..];
    }
  }

  lemma {:induction false} AtMostTransitive(s: string, t: string, u: string)
    requires AtMost(s, t) && AtMost(t, u)
    ensures AtMost(s, u)
  {
    if s != [] && s[0] == t[0] == u[0] {
      AtMostTransitive(s[1..], t[1..], u[1..]);
    }
  }
}
