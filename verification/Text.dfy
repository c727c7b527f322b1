/** Strings as the services use them: trimming, ASCII lower-casing, joining, decimal rendering
    and the byte-lexicographic order of Go's `<` on strings. */
module Text {

  /** The code points of `unicode.IsSpace`. */
  const SPACES := "\t\n\U{B}\U{C}\r \U{85}\U{A0}\U{1680}\U{2000}\U{2001}\U{2002}\U{2003}\U{2004}\U{2005}\U{2006}"
                  + "\U{2007}\U{2008}\U{2009}\U{200A}\U{2028}\U{2029}\U{202F}\U{205F}\U{3000}"

  predicate OneOf(c: char, table: string) {
    table != "" && (c == table[0] || OneOf(c, table[1..]))
  }

  predicate IsSpace(c: char) { OneOf(c, SPACES) }

  predicate IsLetter(c: char) { 'a' <= c <= 'z' || 'A' <= c <= 'Z' }

  lemma {:induction false} OneOfMember(c: char, table: string)
    ensures OneOf(c, table) <==> c in table
  {
    if table != "" { OneOfMember(c, table[1..]); }
  }

  lemma LettersAreNoSpaces(c: char)
    requires IsLetter(c)
    ensures !IsSpace(c)
  {
    OneOfMember(c, SPACES);
  }

  predicate Trimmed(s: string) {
    s == "" || (!IsSpace(s[0]) && !IsSpace(s[|s| - 1]))
  }

  function TrimLeft(s: string): (r: string)
    ensures r == "" || !IsSpace(r[0])
    ensures r != "" ==> s != "" && r[|r| - 1] == s[|s| - 1]
    ensures s != "" && !IsSpace(s[0]) ==> r == s
    ensures |r| <= |s|
  {
    if s != "" && IsSpace(s[0]) then TrimLeft(s[1..]) else s
  }

  function TrimRight(s: string): (r: string)
    ensures r == "" || !IsSpace(r[|r| - 1])
    ensures r != "" ==> s != "" && r[0] == s[0]
    ensures s != "" && !IsSpace(s[|s| - 1]) ==> r == s
    ensures |r| <= |s|
  {
    if s != "" && IsSpace(s[|s| - 1]) then TrimRight(s[..|s| - 1]) else s
  }

  /** `strings.TrimSpace`: the result is trimmed, and trimming a trimmed string changes nothing. */
  function Trim(s: string): (r: string)
    ensures Trimmed(r)
    ensures Trimmed(s) ==> r == s
  {
    TrimRight(TrimLeft(s))
  }

  lemma TrimOfSolid(s: string)
    requires s != "" && !IsSpace(s[0])
    ensures Trim(s) != ""
  {
    assert TrimLeft(s) == s;
    SolidStays(s);
  }

  lemma {:induction false} SolidStays(s: string)
    requires s != "" && !IsSpace(s[0])
    ensures TrimRight(s) != ""
  {
    hide IsSpace;
    if IsSpace(s[|s| - 1]) { SolidStays(s[..|s| - 1]); }
  }

  /** Trimming cuts off spaces, all those at either end, and nothing else. */
  lemma TrimCuts(s: string) returns (i: nat, j: nat)
    ensures i <= j <= |s| && Trim(s) == s[i..j]
    ensures forall k | 0 <= k < i || j <= k < |s| :: IsSpace(s[k])
  {
    hide IsSpace;
    i := LeftCut(s);
    var n := RightCut(s[i..]);
    j := i + n;
    assert s[i..][..n] == s[i..j];
    forall k | j <= k < |s| ensures IsSpace(s[k]) { assert s[k] == s[i..][k - i]; }
  }

  lemma {:induction false} LeftCut(s: string) returns (i: nat)
    ensures i <= |s| && TrimLeft(s) == s[i..] && forall k | 0 <= k < i :: IsSpace(s[k])
  {
    hide IsSpace;
    i := 0;
    if s != "" && IsSpace(s[0]) {
      var n := LeftCut(s[1..]);
      i := n + 1;
      assert s[1..][n..] == s[i..];
      forall k | 0 <= k < i ensures IsSpace(s[k]) { if k > 0 { assert s[k] == s[1..][k - 1]; } }
    }
  }

  lemma {:induction false} RightCut(s: string) returns (j: nat)
    ensures j <= |s| && TrimRight(s) == s[..j] && forall k | j <= k < |s| :: IsSpace(s[k])
  {
    hide IsSpace;
    j := |s|;
    if s != "" && IsSpace(s[|s| - 1]) {
      j := RightCut(s[..|s| - 1]);
      assert s[..|s| - 1][..j] == s[..j];
      forall k | j <= k < |s| ensures IsSpace(s[k]) { if k < |s| - 1 { assert s[k] == s[..|s| - 1][k]; } }
    }
  }

  lemma BlankIffSpaces(s: string)
    ensures Trim(s) == "" <==> forall c | c in s :: IsSpace(c)
  {
    hide IsSpace;
    var i, j := TrimCuts(s);
    if Trim(s) == "" {
      forall c | c in s ensures IsSpace(c) { var k :| 0 <= k < |s| && s[k] == c; }
    } else {
      assert s[i] == Trim(s)[0] && s[i] in s;
    }
  }

  function LowerChar(c: char): char {
    if 'A' <= c <= 'Z' then ((c as int) + 32) as char else c
  }

  /** `strings.ToLower` on ASCII letters. */
  function ToLower(s: string): (r: string)
    ensures |r| == |s|
  {
    seq(|s|, i requires 0 <= i < |s| => LowerChar(s[i]))
  }

  const UPPER := "ABCDEFGHIJKLMNOPQRSTUVWXYZ"
  const LOWER := "abcdefghijklmnopqrstuvwxyz"

  /** Capitals become the letters at the same place of the alphabet; everything else stays. */
  lemma ToLowerReads(s: string, i: nat)
    requires i < |s|
    ensures forall k | 0 <= k < 26 && s[i] == UPPER[k] :: ToLower(s)[i] == LOWER[k]
    ensures s[i] !in UPPER ==> ToLower(s)[i] == s[i]
  {
    forall k | 0 <= k < 26 ensures LowerChar(UPPER[k]) == LOWER[k] && UPPER[k] as int == 'A' as int + k { LetterAt(k); }
    if 'A' <= s[i] <= 'Z' { assert s[i] == UPPER[s[i] as int - 'A' as int]; }
  }

  lemma LetterAt(k: nat)
    requires k < 26
    ensures UPPER[k] as int == 'A' as int + k && LOWER[k] as int == 'a' as int + k
  {}

  lemma LowerCharKeepsSpaces(c: char)
    ensures IsSpace(LowerChar(c)) <==> IsSpace(c)
  {
    if IsLetter(c) {
      LettersAreNoSpaces(c);
      LettersAreNoSpaces(LowerChar(c));
    }
  }

  lemma ToLowerTrimmed(s: string)
    requires Trimmed(s)
    ensures Trimmed(ToLower(s))
  {
    if s != "" {
      LowerCharKeepsSpaces(s[0]);
      LowerCharKeepsSpaces(s[|s| - 1]);
    }
  }

  lemma ToLowerIdempotent(s: string)
    ensures ToLower(ToLower(s)) == ToLower(s)
  {
    assert forall i | 0 <= i < |s| :: LowerChar(LowerChar(s[i])) == LowerChar(s[i]);
  }

  // ---------------------------------------------------------------------------------------
  // Joining

  /** `strings.Join` with a one-character separator. */
  function Join(parts: seq<string>, sep: char): string {
    if parts == [] then ""
    else if |parts| == 1 then parts[0]
    else parts[0] + [sep] + Join(parts[1..], sep)
  }

  lemma JoinFour(a: string, b: string, c: string, d: string, sep: char)
    ensures Join([a, b, c, d], sep) == a + [sep] + b + [sep] + c + [sep] + d
  {
    JoinFirst(a, [b, c, d], sep);
    JoinFirst(b, [c, d], sep);
    JoinFirst(c, [d], sep);
    assert [a] + [b, c, d] == [a, b, c, d] && [b] + [c, d] == [b, c, d] && [c] + [d] == [c, d] && Join([d], sep) == d;
    hide Join;
    assert a + [sep] + (b + [sep] + (c + [sep] + d)) == a + [sep] + b + [sep] + c + [sep] + d;
  }

  lemma JoinFirst(first: string, rest: seq<string>, sep: char)
    requires rest != []
    ensures Join([first] + rest, sep) == first + [sep] + Join(rest, sep)
  {
    assert ([first] + rest)[1..] == rest;
  }

  ghost predicate FreeOf(s: string, c: char) {
    c !in s
  }

  ghost predicate AllFreeOf(parts: seq<string>, c: char) {
    forall i | 0 <= i < |parts| :: FreeOf(parts[i], c)
  }

  /** Splitting at the first separator is unique. */
  lemma FirstSeparator(a: string, a': string, b: string, b': string, sep: char)
    requires FreeOf(a, sep) && FreeOf(b, sep)
    requires a + [sep] + a' == b + [sep] + b'
    ensures a == b && a' == b'
  {
    var x, y := a + [sep] + a', b + [sep] + b';
    assert x[|a|] == sep && y[|b|] == sep;
    assert forall i | 0 <= i < |a| :: x[i] == a[i] != sep;
    assert forall i | 0 <= i < |b| :: y[i] == b[i] != sep;
    assert x[..|a|] == a && y[..|b|] == b;
    assert x[|a| + 1..] == a' && y[|b| + 1..] == b';
  }

  /** Joining separator-free parts loses nothing: equal strings have equal parts. */
  lemma {:induction false} JoinInjective(xs: seq<string>, ys: seq<string>, sep: char)
    requires xs != [] && ys != []
    requires AllFreeOf(xs, sep) && AllFreeOf(ys, sep)
    requires Join(xs, sep) == Join(ys, sep)
    ensures xs == ys
  {
    assert FreeOf(xs[0], sep) && FreeOf(ys[0], sep);
    assert |xs| > 1 ==> Join(xs, sep)[|xs[0]|] == sep;
    assert |ys| > 1 ==> Join(ys, sep)[|ys[0]|] == sep;
    if |xs| > 1 && |ys| > 1 {
      FirstSeparator(xs[0], Join(xs[1..], sep), ys[0], Join(ys[1..], sep), sep);
      assert AllFreeOf(xs[1..], sep) && AllFreeOf(ys[1..], sep);
      JoinInjective(xs[1..], ys[1..], sep);
      assert xs == [xs[0]] + xs[1..] && ys == [ys[0]] + ys[1..];
    }
  }

  /** A character other than the separator that no part holds is not in the joined string. */
  lemma {:induction false} JoinFreeOf(parts: seq<string>, sep: char, c: char)
    requires c != sep && AllFreeOf(parts, c)
    ensures FreeOf(Join(parts, sep), c)
  {
    if |parts| > 1 {
      assert AllFreeOf(parts[1..], c);
      JoinFreeOf(parts[1..], sep, c);
      assert FreeOf(parts[0], c);
    } else if |parts| == 1 {
      assert FreeOf(parts[0], c);
    }
  }

  /** A join starts like its first part and ends like its last, when those are not empty. */
  lemma {:induction false} JoinEnds(parts: seq<string>, sep: char)
    requires parts != []
    ensures var j, n := Join(parts, sep), |parts| - 1;
            && (parts[0] != "" ==> j != "" && j[0] == parts[0][0])
            && (parts[n] != "" ==> j != "" && j[|j| - 1] == parts[n][|parts[n]| - 1])
            && (parts[n] == "" && n > 0 ==> j != "" && j[|j| - 1] == sep)
            && (parts[n] == "" && n == 0 ==> j == "")
  {
    if |parts| > 1 { JoinEnds(parts[1..], sep); }
  }

  // ---------------------------------------------------------------------------------------
  // Decimal rendering

  predicate IsDigit(c: char) { '0' <= c <= '9' }

  function Digit(n: nat): (c: char)
    requires n < 10
    ensures IsDigit(c)
  {
    ('0' as int + n) as char
  }

  function NatToString(n: nat): (r: string)
    ensures r != ""
    ensures forall i | 0 <= i < |r| :: IsDigit(r[i])
  {
    if n < 10 then [Digit(n)] else NatToString(n / 10) + [Digit(n % 10)]
  }

  /** The number a string of decimal digits denotes. */
  function Denoted(s: string): int {
    if s == "" then 0 else 10 * Denoted(s[..|s| - 1]) + (s[|s| - 1] as int - '0' as int)
  }

  /** The rendering denotes the number and has no leading zero. */
  lemma {:induction false} NatToStringDenotes(n: nat)
    ensures Denoted(NatToString(n)) == n
    ensures NatToString(n)[0] == '0' <==> n == 0
  {
    var r := NatToString(n);
    if n >= 10 {
      NatToStringDenotes(n / 10);
      assert r[..|r| - 1] == NatToString(n / 10);
    } else {
      assert r[..|r| - 1] == "";
    }
  }

  /** `strconv.Itoa`. */
  function Itoa(n: int): string {
    if n < 0 then "-" + NatToString(-n) else NatToString(n)
  }

  lemma {:induction false} NatToStringInjective(m: nat, n: nat)
    requires NatToString(m) == NatToString(n)
    ensures m == n
    decreases m
  {
    var x, y := NatToString(m), NatToString(n);
    assert m >= 10 ==> |x| == |NatToString(m / 10)| + 1;
    assert n >= 10 ==> |y| == |NatToString(n / 10)| + 1;
    if m >= 10 && n >= 10 {
      assert x[..|x| - 1] == NatToString(m / 10) && y[..|y| - 1] == NatToString(n / 10);
      NatToStringInjective(m / 10, n / 10);
      assert x[|x| - 1] == Digit(m % 10) && y[|y| - 1] == Digit(n % 10);
    } else if m < 10 && n < 10 {
      assert x[0] == Digit(m) && y[0] == Digit(n);
    }
  }

  lemma ItoaInjective(m: int, n: int)
    requires Itoa(m) == Itoa(n)
    ensures m == n
  {
    assert m < 0 ==> Itoa(m)[0] == '-';
    assert n < 0 ==> Itoa(n)[0] == '-';
    if m < 0 && n < 0 {
      assert Itoa(m)[1..] == NatToString(-m) && Itoa(n)[1..] == NatToString(-n);
      NatToStringInjective(-m, -n);
    } else if m >= 0 && n >= 0 {
      NatToStringInjective(m, n);
    }
  }

  lemma ItoaFreeOf(n: int, c: char)
    requires !IsDigit(c) && c != '-'
    ensures FreeOf(Itoa(n), c)
  {}

  // ---------------------------------------------------------------------------------------
  // Order

  /** Go's `<=` on strings, which compares them lexicographically. */
  predicate Leq(a: string, b: string) {
    if a == "" then true
    else if b == "" then false
    else a[0] < b[0] || (a[0] == b[0] && Leq(a[1..], b[1..]))
  }

  predicate Less(a: string, b: string) {
    a != b && Leq(a, b)
  }

  lemma {:induction false} LeqTotal(a: string, b: string)
    ensures Leq(a, b) || Leq(b, a)
  {
    if a != "" && b != "" && a[0] == b[0] { LeqTotal(a[1..], b[1..]); }
  }

  lemma {:induction false} LeqAntisymmetric(a: string, b: string)
    requires Leq(a, b) && Leq(b, a)
    ensures a == b
  {
    if a != "" && b != "" {
      LeqAntisymmetric(a[1..], b[1..]);
      assert a == [a[0]] + a[1..] && b == [b[0]] + b[1..];
    }
  }

  lemma {:induction false} LeqTransitive(a: string, b: string, c: string)
    requires Leq(a, b) && Leq(b, c)
    ensures Leq(a, c)
  {
    if a != "" && a[0] == b[0] == c[0] { LeqTransitive(a[1..], b[1..], c[1..]); }
  }

  /** The strings agree before position i, where a has the smaller character. */
  ghost predicate SmallerAt(a: string, b: string, i: nat) {
    i < |a| && i < |b| && a[..i] == b[..i] && a[i] < b[i]
  }

  lemma SmallerLater(a: string, b: string, i: nat)
    requires a != "" && b != "" && a[0] == b[0]
    ensures SmallerAt(a, b, i + 1) <==> SmallerAt(a[1..], b[1..], i)
    ensures !SmallerAt(a, b, 0)
  {
    if i < |a| - 1 && i < |b| - 1 {
      assert a[..i + 1] == [a[0]] + a[1..][..i] && b[..i + 1] == [b[0]] + b[1..][..i];
      assert a[1..][..i] == a[..i + 1][1..] && b[1..][..i] == b[..i + 1][1..];
    }
  }

  lemma SmallerAtOnce(a: string, b: string)
    requires a != "" && b != "" && a[0] != b[0]
    ensures a[0] < b[0] <==> exists i: nat :: SmallerAt(a, b, i)
  {
    assert a[..0] == b[..0];
    assert a[0] < b[0] ==> SmallerAt(a, b, 0);
    assert forall i: nat | 0 < i <= |a| && i <= |b| :: a[..i][0] == a[0] && b[..i][0] == b[0];
  }

  /** Smaller or equal means to be a prefix or to have the smaller character at the first difference. */
  lemma {:induction false} LeqMeans(a: string, b: string)
    ensures Leq(a, b) <==> a <= b || exists i: nat :: SmallerAt(a, b, i)
  {
    if a != "" && b != "" {
      if a[0] == b[0] {
        LeqMeans(a[1..], b[1..]);
        assert a <= b <==> a[1..] <= b[1..];
        forall i: nat ensures SmallerAt(a, b, i + 1) <==> SmallerAt(a[1..], b[1..], i) { SmallerLater(a, b, i); }
        if i: nat :| SmallerAt(a[1..], b[1..], i) { assert SmallerAt(a, b, i + 1); }
        if i: nat :| SmallerAt(a, b, i) {
          SmallerLater(a, b, 0);
          assert SmallerAt(a[1..], b[1..], i - 1);
        }
      } else {
        SmallerAtOnce(a, b);
      }
    }
  }

  /** The lexicographic order on tuples of strings. */
  predicate TupleLeq(a: seq<string>, b: seq<string>) {
    if a == [] then true
    else if b == [] then false
    else Less(a[0], b[0]) || (a[0] == b[0] && TupleLeq(a[1..], b[1..]))
  }

  lemma {:induction false} TupleLeqTotal(a: seq<string>, b: seq<string>)
    ensures TupleLeq(a, b) || TupleLeq(b, a)
  {
    if a != [] && b != [] {
      LeqTotal(a[0], b[0]);
      if a[0] == b[0] { TupleLeqTotal(a[1..], b[1..]); }
    }
  }

  lemma {:induction false} TupleLeqAntisymmetric(a: seq<string>, b: seq<string>)
    requires TupleLeq(a, b) && TupleLeq(b, a)
    ensures a == b
  {
    if a != [] && b != [] {
      if a[0] != b[0] { LeqAntisymmetric(a[0], b[0]); }
      TupleLeqAntisymmetric(a[1..], b[1..]);
      assert a == [a[0]] + a[1..] && b == [b[0]] + b[1..];
    }
  }

  lemma {:induction false} TupleLeqTransitive(a: seq<string>, b: seq<string>, c: seq<string>)
    requires TupleLeq(a, b) && TupleLeq(b, c)
    ensures TupleLeq(a, c)
  {
    if a != [] {
      if a[0] == b[0] == c[0] {
        TupleLeqTransitive(a[1..], b[1..], c[1..]);
      } else {
        if a[0] != b[0] && b[0] != c[0] {
          LeqTransitive(a[0], b[0], c[0]);
          if a[0] == c[0] { LeqAntisymmetric(a[0], b[0]); }
        }
      }
    }
  }
}
