/** Stable sorting of sequences: a functional model of `sort.Strings`, `sort.Slice` and
    `sort.SliceStable`, with the two facts callers rely on: the result is an ordered
    permutation, and an ordered permutation is unique when the order is strict on the elements. */
module Ordering {
  import Text

  ghost predicate TotalPreorder<T(!new)>(leq: (T, T) -> bool) {
    && (forall x, y :: leq(x, y) || leq(y, x))
    && (forall x, y, z :: leq(x, y) && leq(y, z) ==> leq(x, z))
  }

  ghost predicate Ordered<T>(s: seq<T>, leq: (T, T) -> bool) {
    forall i, j | 0 <= i < j < |s| :: leq(s[i], s[j])
  }

  /** No two distinct elements of s are order-equivalent. */
  ghost predicate StrictOn<T(!new)>(s: seq<T>, leq: (T, T) -> bool) {
    forall x, y | x in s && y in s && leq(x, y) && leq(y, x) :: x == y
  }

  function Insert<T>(x: T, s: seq<T>, leq: (T, T) -> bool): seq<T> {
    if s == [] then [x]
    else if leq(x, s[0]) then [x] + s
    else [s[0]] + Insert(x, s[1..], leq)
  }

  /** The stable sort of s. */
  function SortBy<T>(s: seq<T>, leq: (T, T) -> bool): seq<T> {
    if s == [] then [] else Insert(s[0], SortBy(s[1..], leq), leq)
  }

  lemma {:induction false} InsertPermutes<T>(x: T, s: seq<T>, leq: (T, T) -> bool)
    ensures multiset(Insert(x, s, leq)) == multiset{x} + multiset(s)
  {
    if s != [] {
      assert s == [s[0]] + s[1..];
      InsertPermutes(x, s[1..], leq);
    }
  }

  lemma {:induction false} InsertOrdered<T(!new)>(x: T, s: seq<T>, leq: (T, T) -> bool)
    requires TotalPreorder(leq) && Ordered(s, leq)
    ensures Ordered(Insert(x, s, leq), leq)
  {
    if s != [] && !leq(x, s[0]) {
      var t := Insert(x, s[1..], leq);
      InsertOrdered(x, s[1..], leq);
      InsertPermutes(x, s[1..], leq);
      forall j | 0 <= j < |t| ensures leq(s[0], t[j]) {
        assert t[j] in multiset(t);
        assert t[j] == x || t[j] in s[1..];
      }
    }
  }

  lemma {:induction false} SortByPermutes<T>(s: seq<T>, leq: (T, T) -> bool)
    ensures multiset(SortBy(s, leq)) == multiset(s)
    ensures |SortBy(s, leq)| == |s|
    ensures forall x :: x in SortBy(s, leq) <==> x in s
  {
    if s != [] {
      assert s == [s[0]] + s[1..];
      SortByPermutes(s[1..], leq);
      InsertPermutes(s[0], SortBy(s[1..], leq), leq);
    }
    SameElements(SortBy(s, leq), s);
  }

  lemma SameElements<T>(a: seq<T>, b: seq<T>)
    requires multiset(a) == multiset(b)
    ensures |a| == |b|
    ensures forall x :: x in a <==> x in b
  {
    assert |multiset(a)| == |a| && |multiset(b)| == |b|;
    assert forall x :: x in a <==> x in multiset(a);
    assert forall x :: x in b <==> x in multiset(b);
  }

  lemma {:induction false} SortByOrdered<T(!new)>(s: seq<T>, leq: (T, T) -> bool)
    requires TotalPreorder(leq)
    ensures Ordered(SortBy(s, leq), leq)
  {
    if s != [] {
      SortByOrdered(s[1..], leq);
      InsertOrdered(s[0], SortBy(s[1..], leq), leq);
    }
  }

  lemma HeadIsLeast<T(!new)>(s: seq<T>, x: T, leq: (T, T) -> bool)
    requires TotalPreorder(leq) && Ordered(s, leq) && x in s
    ensures leq(s[0], x)
  {
    var i :| 0 <= i < |s| && s[i] == x;
    assert leq(s[0], s[0]);
  }

  lemma TailsPermute<T>(a: seq<T>, b: seq<T>)
    requires a != [] && b != [] && a[0] == b[0]
    requires multiset(a) == multiset(b)
    ensures multiset(a[1..]) == multiset(b[1..])
  {
    assert a == [a[0]] + a[1..] && b == [b[0]] + b[1..];
    assert multiset(a[1..]) == multiset(a) - multiset{a[0]};
    assert multiset(b[1..]) == multiset(b) - multiset{b[0]};
  }

  lemma MovedToFront<T>(s: seq<T>, i: nat)
    requires i < |s|
    ensures multiset([s[i]] + (s[..i] + s[i + 1..])) == multiset(s)
  {
    assert s == s[..i] + ([s[i]] + s[i + 1..]);
  }

  /** Two ordered permutations of each other are equal when the order is strict on them. */
  lemma {:induction false} OrderedUnique<T(!new)>(a: seq<T>, b: seq<T>, leq: (T, T) -> bool)
    requires TotalPreorder(leq) && StrictOn(a, leq)
    requires Ordered(a, leq) && Ordered(b, leq)
    requires multiset(a) == multiset(b)
    ensures a == b
  {
    SameElements(a, b);
    if a != [] {
      HeadIsLeast(a, b[0], leq);
      HeadIsLeast(b, a[0], leq);
      assert a[0] in a && b[0] in a;
      TailsPermute(a, b);
      OrderedUnique(a[1..], b[1..], leq);
      assert a == [a[0]] + a[1..] && b == [b[0]] + b[1..];
    }
  }

  /** Sorting is a function of the multiset when the order is strict on the elements. */
  lemma SortByOfPermutation<T(!new)>(a: seq<T>, b: seq<T>, leq: (T, T) -> bool)
    requires TotalPreorder(leq) && StrictOn(a, leq)
    requires multiset(a) == multiset(b)
    ensures SortBy(a, leq) == SortBy(b, leq)
  {
    SortByPermutes(a, leq);
    SortByPermutes(b, leq);
    SortByOrdered(a, leq);
    SortByOrdered(b, leq);
    OrderedUnique(SortBy(a, leq), SortBy(b, leq), leq);
  }

  ghost predicate Distinct<T>(s: seq<T>) {
    forall i, j | 0 <= i < j < |s| :: s[i] != s[j]
  }

  lemma DistinctAppend<T>(s: seq<T>, x: T)
    ensures Distinct(s + [x]) <==> Distinct(s) && x !in s
  {
    assert forall i | 0 <= i < |s| :: (s + [x])[i] == s[i];
    assert (s + [x])[|s|] == x;
  }

  lemma DistinctCounts<T>(s: seq<T>)
    ensures Distinct(s) <==> forall x | x in s :: multiset(s)[x] == 1
  {
    if s != [] {
      var t := s[1..];
      assert s == [s[0]] + t;
      DistinctCounts(t);
      assert forall x | x in t :: x in s;
      assert s[0] in t <==> multiset(t)[s[0]] > 0;
      if forall x | x in s :: multiset(s)[x] == 1 {
        assert s[0] !in t;
        assert forall x | x in t :: multiset(t)[x] == 1;
      }
      if Distinct(s) {
        assert s[0] !in t;
        forall x | x in s ensures multiset(s)[x] == 1 {
          if x != s[0] { assert x in t; }
        }
      }
    }
  }

  lemma SortByDistinct<T(!new)>(s: seq<T>, leq: (T, T) -> bool)
    requires Distinct(s)
    ensures Distinct(SortBy(s, leq))
  {
    SortByPermutes(s, leq);
    DistinctCounts(s);
    DistinctCounts(SortBy(s, leq));
  }

  // ---------------------------------------------------------------------------------------
  // Mapping

  function Map<T, U>(f: T -> U, s: seq<T>): seq<U> {
    if s == [] then [] else [f(s[0])] + Map(f, s[1..])
  }

  lemma {:induction false} MapAt<T, U>(f: T -> U, s: seq<T>)
    ensures |Map(f, s)| == |s| && forall i | 0 <= i < |s| :: Map(f, s)[i] == f(s[i])
  {
    if s != [] { MapAt(f, s[1..]); }
  }

  lemma {:induction false} MapAppend<T, U>(f: T -> U, s: seq<T>, x: T)
    ensures Map(f, s + [x]) == Map(f, s) + [f(x)]
  {
    if s == [] {
      assert s + [x] == [x] && [x][1..] == [];
    } else {
      assert (s + [x])[1..] == s[1..] + [x];
      MapAppend(f, s[1..], x);
    }
  }

  lemma {:induction false} MapRemove<T, U>(f: T -> U, s: seq<T>, i: nat)
    requires i < |s|
    ensures multiset(Map(f, s)) == multiset(Map(f, s[..i] + s[i + 1..])) + multiset{f(s[i])}
  {
    var rest := s[..i] + s[i + 1..];
    if i == 0 {
      assert rest == s[1..];
    } else {
      var tail := s[1..][..i - 1] + s[1..][i..];
      assert rest == [s[0]] + tail;
      MapRemove(f, s[1..], i - 1);
      MapPrepend(f, s[0], s[1..]);
      MapPrepend(f, s[0], tail);
      assert s == [s[0]] + s[1..];
      hide Map;
    }
  }

  lemma MapPrepend<T, U>(f: T -> U, x: T, s: seq<T>)
    ensures Map(f, [x] + s) == [f(x)] + Map(f, s) && multiset(Map(f, [x] + s)) == multiset{f(x)} + multiset(Map(f, s))
  {
    assert ([x] + s)[1..] == s;
  }

  lemma {:induction false} MapOfPermutation<T, U>(f: T -> U, a: seq<T>, b: seq<T>)
    requires multiset(a) == multiset(b)
    ensures multiset(Map(f, a)) == multiset(Map(f, b))
    decreases |a|
  {
    SameElements(a, b);
    if a != [] {
      assert a[0] in b;
      var i :| 0 <= i < |b| && b[i] == a[0];
      var rest := b[..i] + b[i + 1..];
      MovedToFront(b, i);
      TailsPermute(a, [b[i]] + rest);
      assert ([b[i]] + rest)[1..] == rest;
      MapOfPermutation(f, a[1..], rest);
      MapRemove(f, b, i);
    }
  }

  /** An injective map loses nothing. */
  lemma {:induction false} MapInjective<T(!new), U>(f: T -> U, a: seq<T>, b: seq<T>)
    requires forall x, y | x in a && y in b && f(x) == f(y) :: x == y
    requires multiset(Map(f, a)) == multiset(Map(f, b))
    ensures multiset(a) == multiset(b)
    decreases |a|
  {
    var fa, fb := Map(f, a), Map(f, b);
    MapAt(f, a);
    MapAt(f, b);
    if a != [] {
      var i := FindSame(fa, fb);
      assert a[0] in a && b[i] in b && f(b[i]) == f(a[0]);
      var rest := b[..i] + b[i + 1..];
      MappedTail(f, a, b, i);
      assert forall y | y in rest :: y in b;
      assert forall x | x in a[1..] :: x in a;
      MapInjective(f, a[1..], rest);
      Reinserted(a, b, i);
    }
  }

  /** When f tells more than g does, equal multisets under f are equal under g. */
  lemma {:induction false} MapFactors<T(!new), U, V>(f: T -> U, g: T -> V, a: seq<T>, b: seq<T>)
    requires forall x, y | x in a && y in b && f(x) == f(y) :: g(x) == g(y)
    requires multiset(Map(f, a)) == multiset(Map(f, b))
    ensures multiset(Map(g, a)) == multiset(Map(g, b))
    decreases |a|
  {
    MapAt(f, a);
    MapAt(f, b);
    SameElements(Map(f, a), Map(f, b));
    if a != [] {
      var i := FindSame(Map(f, a), Map(f, b));
      assert a[0] in a && b[i] in b && f(b[i]) == f(a[0]);
      MappedTail(f, a, b, i);
      hide Map;
      assert forall y | y in b[..i] + b[i + 1..] :: y in b;
      assert forall x | x in a[1..] :: x in a;
      MapFactors(f, g, a[1..], b[..i] + b[i + 1..]);
      MapReinserted(g, a, b, i);
    }
  }

  lemma MapReinserted<T, U>(g: T -> U, a: seq<T>, b: seq<T>, i: nat)
    requires a != [] && i < |b| && g(a[0]) == g(b[i])
    requires multiset(Map(g, a[1..])) == multiset(Map(g, b[..i] + b[i + 1..]))
    ensures multiset(Map(g, a)) == multiset(Map(g, b))
  {
    MapRemove(g, b, i);
    assert Map(g, a) == [g(a[0])] + Map(g, a[1..]);
  }

  lemma Reinserted<T>(a: seq<T>, b: seq<T>, i: nat)
    requires a != [] && i < |b| && a[0] == b[i] && multiset(a[1..]) == multiset(b[..i] + b[i + 1..])
    ensures multiset(a) == multiset(b)
  {
    MovedToFront(b, i);
    assert a == [a[0]] + a[1..];
  }

  lemma FindSame<T>(a: seq<T>, b: seq<T>) returns (i: nat)
    requires a != [] && multiset(a) == multiset(b)
    ensures i < |b| && b[i] == a[0]
  {
    SameElements(a, b);
    assert a[0] in a;
    assert a[0] in b;
    i :| i < |b| && b[i] == a[0];
  }

  lemma MappedTail<T, U>(f: T -> U, a: seq<T>, b: seq<T>, i: nat)
    requires a != [] && i < |b| && f(b[i]) == f(a[0]) && multiset(Map(f, a)) == multiset(Map(f, b))
    ensures multiset(Map(f, a[1..])) == multiset(Map(f, b[..i] + b[i + 1..]))
  {
    var fa, fr := Map(f, a), Map(f, b[..i] + b[i + 1..]);
    MapRemove(f, b, i);
    assert multiset([fa[0]] + fr) == multiset{fa[0]} + multiset(fr);
    TailsPermute(fa, [fa[0]] + fr);
    assert fa[1..] == Map(f, a[1..]) && ([fa[0]] + fr)[1..] == fr;
  }

  /** No two positions map to the same value; this only depends on the multiset of elements. */
  lemma DistinctOfPermutation<T, U>(f: T -> U, a: seq<T>, b: seq<T>)
    requires multiset(a) == multiset(b)
    ensures Distinct(Map(f, a)) <==> Distinct(Map(f, b))
  {
    MapOfPermutation(f, a, b);
    SameElements(Map(f, a), Map(f, b));
    DistinctCounts(Map(f, a));
    DistinctCounts(Map(f, b));
  }

  // ---------------------------------------------------------------------------------------
  // Stability

  function Filter<T>(s: seq<T>, p: T -> bool): seq<T> {
    if s == [] then [] else (if p(s[0]) then [s[0]] else []) + Filter(s[1..], p)
  }

  lemma {:induction false} FilterMembers<T>(s: seq<T>, p: T -> bool)
    ensures forall x :: x in Filter(s, p) <==> x in s && p(x)
  {
    if s != [] { FilterMembers(s[1..], p); }
  }

  lemma {:induction false} FilterNone<T>(s: seq<T>, p: T -> bool)
    requires forall x | x in s :: !p(x)
    ensures Filter(s, p) == []
  {
    if s != [] {
      assert s[0] in s;
      FilterNone(s[1..], p);
    }
  }

  lemma {:induction false} FilterSame<T(!new)>(s: seq<T>, p: T -> bool, q: T -> bool)
    requires forall x :: p(x) == q(x)
    ensures Filter(s, p) == Filter(s, q)
  {
    if s != [] { FilterSame(s[1..], p, q); }
  }

  lemma {:induction false} FilterAppend<T>(a: seq<T>, b: seq<T>, p: T -> bool)
    ensures Filter(a + b, p) == Filter(a, p) + Filter(b, p)
  {
    if a == [] {
      assert a + b == b;
    } else {
      assert (a + b)[1..] == a[1..] + b;
      FilterAppend(a[1..], b, p);
      var h, x, y := if p(a[0]) then [a[0]] else [], Filter(a[1..], p), Filter(b, p);
      assert h + (x + y) == (h + x) + y;
    }
  }

  lemma {:induction false} InsertStable<T(!new)>(x: T, s: seq<T>, leq: (T, T) -> bool, p: T -> bool)
    requires forall a, b | p(a) && p(b) :: leq(a, b)
    ensures Filter(Insert(x, s, leq), p) == (if p(x) then [x] else []) + Filter(s, p)
  {
    if s != [] && !leq(x, s[0]) {
      InsertStable(x, s[1..], leq, p);
      assert Insert(x, s, leq)[1..] == Insert(x, s[1..], leq);
      assert !(p(x) && p(s[0]));
    } else if s != [] {
      assert ([x] + s)[1..] == s;
    }
  }

  /** Sorting keeps the relative order of elements that are order-equivalent to each other. */
  lemma {:induction false} SortByStable<T(!new)>(s: seq<T>, leq: (T, T) -> bool, p: T -> bool)
    requires forall a, b | p(a) && p(b) :: leq(a, b)
    ensures Filter(SortBy(s, leq), p) == Filter(s, p)
  {
    if s != [] {
      SortByStable(s[1..], leq, p);
      InsertStable(s[0], SortBy(s[1..], leq), leq, p);
    }
  }

  /** Two selected elements are selected in the same order. */
  lemma {:induction false} FilterForth<T>(s: seq<T>, p: T -> bool, i: nat, j: nat) returns (a: nat, b: nat)
    requires i < j < |s| && p(s[i]) && p(s[j])
    ensures a < b < |Filter(s, p)| && Filter(s, p)[a] == s[i] && Filter(s, p)[b] == s[j]
  {
    var n := if p(s[0]) then 1 else 0;
    if i > 0 {
      a, b := FilterForth(s[1..], p, i - 1, j - 1);
      a, b := a + n, b + n;
    } else {
      b := FilterPosition(s[1..], p, j - 1);
      a, b := 0, b + 1;
    }
  }

  lemma {:induction false} FilterPosition<T>(s: seq<T>, p: T -> bool, i: nat) returns (a: nat)
    requires i < |s| && p(s[i])
    ensures a < |Filter(s, p)| && Filter(s, p)[a] == s[i]
  {
    a := 0;
    if i > 0 {
      a := FilterPosition(s[1..], p, i - 1);
      if p(s[0]) { a := a + 1; }
    }
  }

  /** And they come from positions in that order. */
  lemma {:induction false} FilterBack<T>(s: seq<T>, p: T -> bool, a: nat, b: nat) returns (i: nat, j: nat)
    requires a < b < |Filter(s, p)|
    ensures i < j < |s| && s[i] == Filter(s, p)[a] && s[j] == Filter(s, p)[b]
  {
    if !p(s[0]) {
      i, j := FilterBack(s[1..], p, a, b);
      i, j := i + 1, j + 1;
    } else if a > 0 {
      i, j := FilterBack(s[1..], p, a - 1, b - 1);
      i, j := i + 1, j + 1;
    } else {
      i := 0;
      j := FilterSource(s[1..], p, b - 1);
      j := j + 1;
    }
  }

  lemma {:induction false} FilterSource<T>(s: seq<T>, p: T -> bool, a: nat) returns (i: nat)
    requires a < |Filter(s, p)|
    ensures i < |s| && s[i] == Filter(s, p)[a]
  {
    i := 0;
    if !p(s[0]) {
      i := FilterSource(s[1..], p, a);
      i := i + 1;
    } else if a > 0 {
      i := FilterSource(s[1..], p, a - 1);
      i := i + 1;
    }
  }

  /** Elements that count as equal come out of the sort in the order in which they went in. */
  lemma SortByKeepsOrder<T(!new)>(s: seq<T>, leq: (T, T) -> bool, i: nat, j: nat) returns (a: nat, b: nat)
    requires TotalPreorder(leq) && i < j < |SortBy(s, leq)| && leq(SortBy(s, leq)[j], SortBy(s, leq)[i])
    ensures a < b < |s| && s[a] == SortBy(s, leq)[i] && s[b] == SortBy(s, leq)[j]
  {
    var sorted := SortBy(s, leq);
    var x := sorted[i];
    var p := (y: T) => leq(x, y) && leq(y, x);
    SortByOrdered(s, leq);
    SortByStable(s, leq, p);
    var k, l := FilterForth(sorted, p, i, j);
    a, b := FilterBack(s, p, k, l);
  }

  // ---------------------------------------------------------------------------------------
  // Orders on strings

  lemma StringOrder(s: seq<string>)
    ensures TotalPreorder(Text.Leq) && StrictOn(s, Text.Leq)
  {
    forall x, y ensures Text.Leq(x, y) || Text.Leq(y, x) { Text.LeqTotal(x, y); }
    forall x, y, z | Text.Leq(x, y) && Text.Leq(y, z) ensures Text.Leq(x, z) { Text.LeqTransitive(x, y, z); }
    forall x, y | Text.Leq(x, y) && Text.Leq(y, x) ensures x == y { Text.LeqAntisymmetric(x, y); }
  }

  /** The order of records by a tuple of strings. */
  function ByKey<T>(key: T -> seq<string>): (T, T) -> bool {
    (x: T, y: T) => Text.TupleLeq(key(x), key(y))
  }

  lemma KeyOrder<T(!new)>(key: T -> seq<string>)
    ensures TotalPreorder(ByKey(key))
    ensures forall x, y {:trigger key(x), key(y)} :: ByKey(key)(x, y) && ByKey(key)(y, x) ==> key(x) == key(y)
  {
    var leq := ByKey(key);
    forall x, y ensures leq(x, y) || leq(y, x) { Text.TupleLeqTotal(key(x), key(y)); }
    forall x, y, z | leq(x, y) && leq(y, z) ensures leq(x, z) { Text.TupleLeqTransitive(key(x), key(y), key(z)); }
    forall x, y | leq(x, y) && leq(y, x) ensures key(x) == key(y) { Text.TupleLeqAntisymmetric(key(x), key(y)); }
  }

  // ---------------------------------------------------------------------------------------
  // Sorted sets of strings

  /** Strictly increasing, hence free of repetitions. */
  ghost predicate Increasing(s: seq<string>) {
    forall i, j | 0 <= i < j < |s| :: Text.Less(s[i], s[j])
  }

  function DropRepeats(s: seq<string>): seq<string> {
    if |s| <= 1 then s
    else if s[0] == s[1] then DropRepeats(s[1..])
    else [s[0]] + DropRepeats(s[1..])
  }

  /** The elements of s, sorted, each once. */
  function SortedDistinct(s: seq<string>): seq<string> {
    DropRepeats(SortBy(s, Text.Leq))
  }

  lemma {:induction false} DropRepeatsIncreasing(s: seq<string>)
    requires Ordered(s, Text.Leq)
    ensures Increasing(DropRepeats(s))
    ensures forall x :: x in DropRepeats(s) <==> x in s
  {
    if |s| > 1 {
      var t := DropRepeats(s[1..]);
      DropRepeatsIncreasing(s[1..]);
      if s[0] != s[1] {
        forall j | 0 <= j < |t| ensures Text.Less(s[0], t[j]) {
          assert t[j] in s[1..];
          assert Text.Leq(s[0], t[j]) && Text.Leq(s[0], s[1]);
          if t[j] == s[0] {
            var k :| 1 <= k < |s| && s[k] == s[0];
            assert k > 1;
            assert Text.Leq(s[1], s[k]);
            Text.LeqAntisymmetric(s[0], s[1]);
          }
        }
      }
    }
  }

  lemma SortedDistinctSpec(s: seq<string>)
    ensures Increasing(SortedDistinct(s))
    ensures forall x :: x in SortedDistinct(s) <==> x in s
  {
    StringOrder(s);
    SortByPermutes(s, Text.Leq);
    SortByOrdered(s, Text.Leq);
    DropRepeatsIncreasing(SortBy(s, Text.Leq));
  }

  lemma LessIsStrict(a: string, b: string)
    ensures !(Text.Less(a, b) && Text.Less(b, a)) && !Text.Less(a, a)
  {
    if Text.Leq(a, b) && Text.Leq(b, a) { Text.LeqAntisymmetric(a, b); }
  }

  lemma IncreasingHead(a: seq<string>, b: seq<string>)
    requires Increasing(a) && Increasing(b) && a != [] && b != []
    requires forall x :: x in a <==> x in b
    ensures a[0] == b[0]
  {
    assert a[0] in b && b[0] in a;
    var i :| 0 <= i < |b| && b[i] == a[0];
    var j :| 0 <= j < |a| && a[j] == b[0];
    LessIsStrict(a[0], b[0]);
  }

  /** An increasing sequence is determined by its set of elements. */
  lemma {:induction false} IncreasingUnique(a: seq<string>, b: seq<string>)
    requires Increasing(a) && Increasing(b)
    requires forall x :: x in a <==> x in b
    ensures a == b
  {
    assert a != [] ==> a[0] in b;
    assert b != [] ==> b[0] in a;
    if a != [] {
      IncreasingHead(a, b);
      forall x ensures x in a[1..] <==> x in b[1..] {
        LessIsStrict(a[0], a[0]);
        assert x in a[1..] <==> x in a && x != a[0];
        assert x in b[1..] <==> x in b && x != b[0];
      }
      IncreasingUnique(a[1..], b[1..]);
      assert a == [a[0]] + a[1..] && b == [b[0]] + b[1..];
    }
  }

  /** Sorting what is already increasing changes nothing. */
  lemma SortedDistinctIdempotent(s: seq<string>)
    requires Increasing(s)
    ensures SortedDistinct(s) == s
  {
    SortedDistinctSpec(s);
    IncreasingUnique(SortedDistinct(s), s);
  }
}
