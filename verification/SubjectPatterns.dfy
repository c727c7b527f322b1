/** Matching dotted subjects against patterns with `*` for one token and `>` for one or more at the end. */
module SubjectPatterns {
  import opened Text

  const DOT := '.'
  const ONE := "*"
  const REST := ">"

  /** `str::split('.')`: never empty. */
  function Split(s: string): (parts: seq<string>)
    ensures parts != []
    ensures AllFreeOf(parts, DOT)
    ensures Join(parts, DOT) == s
  {
    if s == "" then [""]
    else if s[0] == DOT then [""] + Split(s[1..])
    else
      var rest := Split(s[1..]);
      var parts := [[s[0]] + rest[0]] + rest[1..];
      assert Join(parts, DOT) == s by {
        if |rest| > 1 { assert Join(rest, DOT) == rest[0] + [DOT] + Join(rest[1..], DOT); }
      }
      parts
  }

  lemma SplitJoin(parts: seq<string>)
    requires parts != [] && AllFreeOf(parts, DOT)
    ensures Split(Join(parts, DOT)) == parts
  {
    JoinInjective(Split(Join(parts, DOT)), parts, DOT);
  }

  /** Token by token: `*` takes any token, `>` takes everything that is left, at least one token. */
  predicate Matches(subject: seq<string>, pattern: seq<string>) {
    if pattern == [] || subject == [] then pattern == [] && subject == []
    else if pattern[0] == REST then true
    else (pattern[0] == ONE || pattern[0] == subject[0]) && Matches(subject[1..], pattern[1..])
  }

  /** The subject agrees with the first k tokens of the pattern, none of which is the rest token. */
  ghost predicate Agrees(subject: seq<string>, pattern: seq<string>, k: nat) {
    k <= |subject| && k <= |pattern| && forall i | 0 <= i < k :: pattern[i] != ">" && (pattern[i] == "*" || pattern[i] == subject[i])
  }

  lemma AgreesTail(subject: seq<string>, pattern: seq<string>, k: nat)
    requires subject != [] && pattern != []
    ensures Agrees(subject, pattern, k + 1) <==>
              pattern[0] != ">" && (pattern[0] == "*" || pattern[0] == subject[0]) && Agrees(subject[1..], pattern[1..], k)
  {
    if Agrees(subject, pattern, k + 1) {
      forall i | 0 <= i < k ensures pattern[1..][i] != ">" && (pattern[1..][i] == "*" || pattern[1..][i] == subject[1..][i]) {
        assert pattern[i + 1] != ">";
      }
    }
    if pattern[0] != ">" && (pattern[0] == "*" || pattern[0] == subject[0]) && Agrees(subject[1..], pattern[1..], k) {
      forall i | 0 <= i < k + 1 ensures pattern[i] != ">" && (pattern[i] == "*" || pattern[i] == subject[i]) {
        if i > 0 { assert pattern[1..][i - 1] == pattern[i] && subject[1..][i - 1] == subject[i]; }
      }
    }
  }

  /** Either all tokens agree and both end together, or they agree up to a rest token and the subject goes on. */
  lemma {:induction false} MatchesIff(subject: seq<string>, pattern: seq<string>)
    ensures Matches(subject, pattern) <==>
              || (|subject| == |pattern| && Agrees(subject, pattern, |pattern|))
              || exists k :: 0 <= k < |pattern| && k < |subject| && pattern[k] == ">" && Agrees(subject, pattern, k)
  {
    if subject != [] && pattern != [] {
      assert Agrees(subject, pattern, 0);
      if pattern[0] != REST {
        MatchesIff(subject[1..], pattern[1..]);
        AgreesTail(subject, pattern, |pattern| - 1);
        forall k: nat ensures Agrees(subject, pattern, k + 1) <==>
          (pattern[0] == "*" || pattern[0] == subject[0]) && Agrees(subject[1..], pattern[1..], k) { AgreesTail(subject, pattern, k); }
        hide Agrees;
        if k :| 0 <= k < |pattern| - 1 && k < |subject| - 1 && pattern[1..][k] == ">" && Agrees(subject[1..], pattern[1..], k)
                && (pattern[0] == "*" || pattern[0] == subject[0]) {
          assert pattern[k + 1] == ">" && Agrees(subject, pattern, k + 1);
        }
        if k :| 0 <= k < |pattern| && k < |subject| && pattern[k] == ">" && Agrees(subject, pattern, k) {
          assert pattern[1..][k - 1] == ">" && Agrees(subject, pattern, (k - 1) + 1);
        }
      }
    }
  }

  lemma {:induction false} EverythingMatchesItself(s: seq<string>)
    ensures Matches(s, s)
  {
    if s != [] { EverythingMatchesItself(s[1..]); }
  }

  method SubjectMatchesPattern(subject: string, pattern: string) returns (b: bool)
    ensures b == Matches(Split(subject), Split(pattern))
  {
    if subject == pattern {
      EverythingMatchesItself(Split(subject));
      return true;
    }
    var ss, ps := Split(subject), Split(pattern);
    var si, pi := 0, 0;
    while pi < |ps| && si < |ss|
      invariant 0 <= si <= |ss| && 0 <= pi <= |ps|
      invariant Matches(ss, ps) == Matches(ss[si..], ps[pi..])
    {
      assert ss[si..][1..] == ss[si + 1..] && ps[pi..][1..] == ps[pi + 1..];
      if ps[pi] == REST {
        return true;
      } else if ps[pi] == ONE {
        si, pi := si + 1, pi + 1;
      } else {
        if ps[pi] != ss[si] { return false; }
        si, pi := si + 1, pi + 1;
      }
    }
    b := si == |ss| && pi == |ps|;
  }

  /** The pattern f is at most as wide as the pattern p. */
  predicate Within(f: seq<string>, p: seq<string>) {
    if f == [] || p == [] then f == [] && p == []
    else if p[0] == REST then true
    else if f[0] == REST then false
    else (p[0] == ONE || p[0] == f[0]) && Within(f[1..], p[1..])
  }

  lemma {:induction false} WithinTransfers(s: seq<string>, f: seq<string>, p: seq<string>)
    requires Within(f, p) && Matches(s, f)
    ensures Matches(s, p)
  {
    if f != [] && p[0] != REST { WithinTransfers(s[1..], f[1..], p[1..]); }
  }

  /** Some subject that a pattern matches. */
  function Instance(f: seq<string>): (s: seq<string>)
    ensures Matches(s, f) && |s| <= |f|
    ensures f != [] ==> s != []
    ensures AllFreeOf(f, DOT) ==> AllFreeOf(s, DOT)
  {
    if f == [] then []
    else if f[0] == REST then ["x"]
    else
      assert AllFreeOf(f, DOT) ==> FreeOf(f[0], DOT) && AllFreeOf(f[1..], DOT);
      [if f[0] == ONE then "x" else f[0]] + Instance(f[1..])
  }

  /** A subject that f matches and p does not. */
  function Escapee(f: seq<string>, p: seq<string>): (s: seq<string>)
    requires !Within(f, p)
    ensures Matches(s, f) && !Matches(s, p)
    ensures f != [] ==> s != []
    ensures AllFreeOf(f, DOT) ==> AllFreeOf(s, DOT)
  {
    assert f != [] && AllFreeOf(f, DOT) ==> FreeOf(f[0], DOT) && AllFreeOf(f[1..], DOT);
    if f == [] || p == [] then Instance(f)
    else if f[0] == REST then (if |p| == 1 then ["x", "x"] else ["x"])
    else
      var head := if f[0] == ONE then (if p[0] == "x" then "y" else "x") else f[0];
      [head] + if p[0] == ONE || p[0] == f[0] then Escapee(f[1..], p[1..]) else Instance(f[1..])
  }

  /** What a filter admits is admitted by a pattern, for all subjects, exactly when the filter is within the pattern. */
  lemma WithinIffTransfers(filter_: string, pattern: string)
    ensures Within(Split(filter_), Split(pattern))
            <==> forall s :: Matches(Split(s), Split(filter_)) ==> Matches(Split(s), Split(pattern))
  {
    var f, p := Split(filter_), Split(pattern);
    if Within(f, p) {
      forall s | Matches(Split(s), f) ensures Matches(Split(s), p) { WithinTransfers(Split(s), f, p); }
    } else {
      var w := Escapee(f, p);
      SplitJoin(w);
      assert Matches(Split(Join(w, DOT)), f) && !Matches(Split(Join(w, DOT)), p);
    }
  }

  lemma {:induction false} MatchingFilterIsWithin(f: seq<string>, p: seq<string>)
    requires Matches(f, p) && forall t | t in f :: t != REST
    ensures Within(f, p)
  {
    if f != [] && p[0] != REST {
      assert f[0] in f && forall t | t in f[1..] :: t in f;
      MatchingFilterIsWithin(f[1..], p[1..]);
    }
  }

  /** Matching composes through any filter without `>`. */
  lemma MatchingComposes(subject: string, filter_: string, pattern: string)
    requires Matches(Split(subject), Split(filter_)) && Matches(Split(filter_), Split(pattern))
    requires forall t | t in Split(filter_) :: t != REST
    ensures Matches(Split(subject), Split(pattern))
  {
    MatchingFilterIsWithin(Split(filter_), Split(pattern));
    WithinTransfers(Split(subject), Split(filter_), Split(pattern));
  }

  /** Through a filter with `>` it does not: `a.>` is itself matched by `a.*`, which rejects `a.b.c`. */
  lemma RestDoesNotCompose()
    ensures Matches(Split("a.b.c"), Split("a.>")) && Matches(Split("a.>"), Split("a.*"))
    ensures !Matches(Split("a.b.c"), Split("a.*"))
  {
    hide Join, Split;
    SplitPair("a", ">");
    SplitPair("a", "*");
    SplitTriple("a", "b", "c");
    assert "a" + "." + ("b" + "." + "c") == "a.b.c" && "a" + "." + ">" == "a.>" && "a" + "." + "*" == "a.*";
  }

  lemma SplitPair(x: string, y: string)
    requires FreeOf(x, DOT) && FreeOf(y, DOT)
    ensures Split(x + "." + y) == [x, y]
  {
    assert [x, y][1..] == [y];
    SplitJoin([x, y]);
  }

  lemma SplitTriple(x: string, y: string, z: string)
    requires FreeOf(x, DOT) && FreeOf(y, DOT) && FreeOf(z, DOT)
    ensures Split(x + "." + (y + "." + z)) == [x, y, z]
  {
    hide Split;
    assert [x, y, z][1..] == [y, z] && [y, z][1..] == [z];
    assert Join([y, z], DOT) == y + "." + z;
    SplitJoin([x, y, z]);
  }
}
