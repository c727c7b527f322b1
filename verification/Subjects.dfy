/** The data plane's registry: from an active binding to the subject it is published on. */
module Subjects {
  import opened Text
  import opened Domain
  import opened Records
  import opened SubjectPatterns

  const DASH := '-'
  const UNKNOWN := "unknown"

  predicate IsTokenChar(c: char) { 'a' <= c <= 'z' || '0' <= c <= '9' }

  const DIGITS := "0123456789"

  /** Token characters are the small letters and the digits. */
  lemma TokenCharsAre(c: char)
    ensures IsTokenChar(c) <==> c in LOWER || c in DIGITS
  {
    if 'a' <= c <= 'z' {
      LetterAt(c as int - 'a' as int);
      assert c == LOWER[c as int - 'a' as int];
    }
    if '0' <= c <= '9' { assert c == DIGITS[c as int - '0' as int]; }
    if k :| 0 <= k < |LOWER| && LOWER[k] == c { LetterAt(k); }
  }

  // ---------------------------------------------------------------------------------------
  // Tokens

  /** Every maximal run of other characters becomes one dash. */
  function Dashed(s: string, lastDash: bool): string {
    if s == "" then ""
    else if IsTokenChar(s[0]) then [s[0]] + Dashed(s[1..], false)
    else if lastDash then Dashed(s[1..], true)
    else [DASH] + Dashed(s[1..], true)
  }

  ghost predicate SingleDashes(r: string) {
    && (forall i | 0 <= i < |r| :: IsTokenChar(r[i]) || r[i] == DASH)
    && (forall i | 0 <= i < |r| - 1 :: !(r[i] == DASH && r[i + 1] == DASH))
  }

  lemma {:induction false} DashedSpec(s: string, lastDash: bool)
    ensures SingleDashes(Dashed(s, lastDash))
    ensures lastDash && Dashed(s, lastDash) != "" ==> Dashed(s, lastDash)[0] != DASH
  {
    if s != "" {
      DashedSpec(s[1..], !IsTokenChar(s[0]));
      var t := Dashed(s[1..], !IsTokenChar(s[0]));
      if IsTokenChar(s[0]) { PrependedDashes(s[0], t); } else if !lastDash { PrependedDashes(DASH, t); }
    }
  }

  lemma PrependedDashes(c: char, t: string)
    requires SingleDashes(t) && (IsTokenChar(c) || (c == DASH && (t != "" ==> t[0] != DASH)))
    ensures SingleDashes([c] + t)
  {
    var r := [c] + t;
    assert forall i | 1 <= i < |r| :: r[i] == t[i - 1];
    forall i | 0 <= i < |r| - 1 ensures !(r[i] == DASH && r[i + 1] == DASH) {
      if i > 0 { assert r[i] == t[i - 1] && r[i + 1] == t[i - 1 + 1]; }
    }
  }

  /** `strings.Trim(s, "-")`. */
  function TrimDashes(s: string): (r: string)
    ensures r != "" ==> r[0] != DASH && r[|r| - 1] != DASH
  {
    if s != "" && s[0] == DASH then TrimDashes(s[1..])
    else if s != "" && s[|s| - 1] == DASH then TrimDashes(s[..|s| - 1])
    else s
  }

  lemma {:induction false} TrimDashesKeeps(s: string)
    requires SingleDashes(s)
    ensures SingleDashes(TrimDashes(s))
  {
    if s != "" && s[0] == DASH {
      SlicedDashes(s, 1, |s|);
      TrimDashesKeeps(s[1..]);
    } else if s != "" && s[|s| - 1] == DASH {
      SlicedDashes(s, 0, |s| - 1);
      TrimDashesKeeps(s[..|s| - 1]);
    }
  }

  /** Lower-case letters, digits and single inner dashes. */
  ghost predicate WellFormedToken(t: string) {
    t != "" && t[0] != DASH && t[|t| - 1] != DASH && SingleDashes(t)
  }

  function Sanitized(raw: string): string {
    var lowered := ToLower(Trim(raw));
    if lowered == "" then UNKNOWN
    else
      var token := TrimDashes(Dashed(lowered, false));
      if token == "" then UNKNOWN else token
  }

  /** The maximal runs of token characters. */
  function Words(s: string): (ws: seq<string>)
    ensures s != "" && IsTokenChar(s[0]) ==> ws != []
  {
    if s == "" then []
    else if !IsTokenChar(s[0]) then Words(s[1..])
    else if |s| > 1 && IsTokenChar(s[1]) then [[s[0]] + Words(s[1..])[0]] + Words(s[1..])[1..]
    else [[s[0]]] + Words(s[1..])
  }

  lemma {:induction false} WordsSpec(s: string)
    ensures forall w | w in Words(s) :: w != "" && forall c | c in w :: IsTokenChar(c)
    ensures s != "" && IsTokenChar(s[0]) ==> Words(s)[0] != "" && Words(s)[0][0] == s[0]
    ensures Words(s) == [] ==> forall c | c in s :: !IsTokenChar(c)
  {
    if s != "" {
      var us := Words(s[1..]);
      WordsSpec(s[1..]);
      forall w | w in Words(s) ensures w != "" && forall c | c in w :: IsTokenChar(c) {
        if w !in us && w != [s[0]] { assert w == [s[0]] + us[0] && us[0] in us; }
      }
    }
  }

  /** The words joined by dashes, with one more dash wherever the text goes on around them. */
  function Around(s: string, lastDash: bool): string {
    var ws := Words(s);
    if ws == [] then (if s == "" || lastDash then "" else [DASH])
    else (if IsTokenChar(s[0]) || lastDash then "" else [DASH]) + (Join(ws, DASH) + (if IsTokenChar(s[|s| - 1]) then "" else [DASH]))
  }

  lemma {:induction false} DashedWords(s: string, lastDash: bool)
    ensures Dashed(s, lastDash) == Around(s, lastDash)
  {
    hide Around, IsTokenChar;
    if s == "" {
      AroundNothing(lastDash);
    } else if IsTokenChar(s[0]) {
      DashedWords(s[1..], false);
      AroundToken(s, lastDash);
    } else {
      DashedWords(s[1..], true);
      AroundOther(s, lastDash);
    }
  }

  lemma AroundNothing(lastDash: bool)
    ensures Around("", lastDash) == ""
  {}

  lemma AroundOther(s: string, lastDash: bool)
    requires s != "" && !IsTokenChar(s[0])
    ensures Around(s, lastDash) == (if lastDash then "" else [DASH]) + Around(s[1..], true)
  {
    hide Join, IsTokenChar;
    var t := s[1..];
    if t != "" { assert t[|t| - 1] == s[|s| - 1]; }
    assert "" + Around(t, true) == Around(t, true);
  }

  function Trail(s: string): string
    requires s != ""
  {
    if IsTokenChar(s[|s| - 1]) then "" else [DASH]
  }

  lemma AroundToken(s: string, lastDash: bool)
    requires s != "" && IsTokenChar(s[0])
    ensures Around(s, lastDash) == [s[0]] + Around(s[1..], false)
  {
    var c, t, ws := s[0], s[1..], Words(s);
    var j := WordsOfToken(s);
    hide Join, Words, IsTokenChar;
    var here, there := Join(ws, DASH), Around(t, false);
    assert Around(s, lastDash) == "" + (here + Trail(s));
    if t == "" {
      AroundNothing(false);
    } else {
      assert t[|t| - 1] == s[|s| - 1];
      assert there == j + Trail(s) by { hide Around; }
    }
    Reassociate("", c, j);
    assert ([c] + j) + Trail(s) == [c] + (j + Trail(s));
  }

  /** What follows the first character, when that belongs to a word. */
  lemma WordsOfToken(s: string) returns (j: string)
    requires s != "" && IsTokenChar(s[0])
    ensures Join(Words(s), DASH) == [s[0]] + j && Words(s) != []
    ensures s[1..] != "" ==> Around(s[1..], false) == j + Trail(s[1..])
    ensures s[1..] == "" ==> j == ""
  {
    hide Join;
    var c, t, us := s[0], s[1..], Words(s[1..]);
    assert [c] + "" == [c];
    if t == "" {
      j := "";
      JoinHead(c, "", []);
      assert Words(s) == [[c] + ""] + [];
    } else if IsTokenChar(t[0]) {
      j := Join(us, DASH);
      JoinHead(c, us[0], us[1..]);
      assert us == [us[0]] + us[1..];
      assert "" + (j + Trail(t)) == j + Trail(t);
    } else {
      JoinHead(c, "", us);
      assert Words(s) == [[c] + ""] + us;
      WordsSpec(t);
      assert t[|t| - 1] in t;
      j := if us == [] then "" else [DASH] + Join(us, DASH);
      assert us != [] ==> [DASH] + (Join(us, DASH) + Trail(t)) == j + Trail(t);
    }
  }

  lemma JoinHead(c: char, w: string, ws: seq<string>)
    ensures Join([[c] + w] + ws, DASH) == [c] + Join([w] + ws, DASH)
    ensures ws != [] ==> Join([w] + ws, DASH) == w + [DASH] + Join(ws, DASH)
    ensures ws == [] ==> Join([w] + ws, DASH) == w
  {
    assert ([[c] + w] + ws)[1..] == ws && ([w] + ws)[1..] == ws;
  }

  lemma TrimmedDashes(lead: string, w: string, trail: string)
    requires lead in {"", [DASH]} && trail in {"", [DASH]} && w != "" && w[0] != DASH && w[|w| - 1] != DASH
    ensures TrimDashes(lead + w + trail) == w
  {
    TrimmedTrail(w, trail);
    assert lead + w + trail == lead + (w + trail);
    TrimmedLead(lead, w + trail);
  }

  lemma TrimmedTrail(w: string, trail: string)
    requires trail in {"", [DASH]} && w != "" && w[0] != DASH && w[|w| - 1] != DASH
    ensures TrimDashes(w + trail) == w
  {
    assert TrimDashes(w) == w;
    if trail == "" { assert w + trail == w; } else { assert (w + trail)[..|w|] == w; }
  }

  lemma TrimmedLead(lead: string, t: string)
    requires lead in {"", [DASH]}
    ensures TrimDashes(lead + t) == TrimDashes(t)
  {
    if lead == "" { assert lead + t == t; } else { assert (lead + t)[1..] == t; }
  }

  /** A token is the words of the text, in lower case and joined by dashes, or "unknown" when there are none. */
  lemma SanitizedIs(raw: string)
    ensures var ws := Words(ToLower(Trim(raw)));
            Sanitized(raw) == if ws == [] then "unknown" else Join(ws, '-')
  {
    hide Trim, ToLower, Dashed, Join;
    var s := ToLower(Trim(raw));
    var ws := Words(s);
    DashedWords(s, false);
    if ws == [] {
      assert TrimDashes("") == "" && TrimDashes([DASH]) == "" by { assert [DASH][1..] == ""; }
    } else {
      WordsSpec(s);
      assert ws[0] in ws && ws[|ws| - 1] in ws;
      var w := Join(ws, DASH);
      JoinEnds(ws, DASH);
      assert ws[0][0] in ws[0] && ws[|ws| - 1][|ws[|ws| - 1]| - 1] in ws[|ws| - 1];
      var lead, trail := if IsTokenChar(s[0]) then "" else [DASH], if IsTokenChar(s[|s| - 1]) then "" else [DASH];
      assert lead + (w + trail) == lead + w + trail;
      TrimmedDashes(if IsTokenChar(s[0]) then "" else [DASH], w, if IsTokenChar(s[|s| - 1]) then "" else [DASH]);
    }
  }

  method SanitizeToken(raw: string) returns (token: string)
    ensures token == Sanitized(raw)
  {
    hide Trim, ToLower, TrimDashes;
    var lowered := ToLower(Trim(raw));
    if lowered == "" { return UNKNOWN; }
    var builder := "";
    var lastDash := false;
    for i := 0 to |lowered|
      invariant Dashed(lowered, false) == builder + Dashed(lowered[i..], lastDash)
    {
      var c := lowered[i];
      assert lowered[i..][0] == c && lowered[i..][1..] == lowered[i + 1..];
      if IsTokenChar(c) {
        Reassociate(builder, c, Dashed(lowered[i + 1..], false));
        builder := builder + [c];
        lastDash := false;
        continue;
      }
      if lastDash { continue; }
      Reassociate(builder, DASH, Dashed(lowered[i + 1..], true));
      builder := builder + [DASH];
      lastDash := true;
    }
    assert builder + Dashed("", lastDash) == builder by { DashedNothing(lastDash); }
    assert lowered[|lowered|..] == "";
    token := TrimDashes(builder);
    if token == "" { token := UNKNOWN; }
  }

  lemma Reassociate(builder: string, c: char, rest: string)
    ensures builder + ([c] + rest) == (builder + [c]) + rest
  {}

  lemma DashedNothing(lastDash: bool)
    ensures Dashed("", lastDash) == ""
  {}

  /** Whatever it is given, sanitizing yields a well-formed token. */
  lemma SanitizedIsWellFormed(raw: string)
    ensures WellFormedToken(Sanitized(raw))
  {
    hide Trim, ToLower;
    var d := Dashed(ToLower(Trim(raw)), false);
    var t := TrimDashes(d);
    DashedSpec(ToLower(Trim(raw)), false);
    TrimDashesKeeps(d);
  }

  lemma SlicedDashes(d: string, i: nat, j: nat)
    requires SingleDashes(d) && i <= j <= |d|
    ensures SingleDashes(d[i..j])
  {
    var t := d[i..j];
    forall k | 0 <= k < |t| - 1 ensures !(t[k] == DASH && t[k + 1] == DASH) { assert t[k] == d[i + k] && t[k + 1] == d[i + k + 1]; }
  }

  lemma TokenCharsAreNoSpaces(c: char)
    requires IsTokenChar(c)
    ensures !IsSpace(c) && LowerChar(c) == c
  {
    OneOfMember(c, SPACES);
  }

  lemma {:induction false} DashedKeeps(t: string, lastDash: bool)
    requires SingleDashes(t)
    requires lastDash && t != "" ==> t[0] != DASH
    ensures Dashed(t, lastDash) == t
  {
    if t != "" {
      assert forall i | 0 <= i < |t| - 1 :: t[1..][i] == t[i + 1];
      DashedKeeps(t[1..], t[0] == DASH);
      assert t == [t[0]] + t[1..];
    }
  }

  /** A token sanitizes to itself, so sanitizing twice is sanitizing once. */
  lemma SanitizedIdempotent(raw: string)
    ensures Sanitized(Sanitized(raw)) == Sanitized(raw)
  {
    var t := Sanitized(raw);
    SanitizedIsWellFormed(raw);
    hide Sanitized;
    TokenCharsAreNoSpaces(t[0]);
    TokenCharsAreNoSpaces(t[|t| - 1]);
    assert Trim(t) == t;
    forall i | 0 <= i < |t| ensures LowerChar(t[i]) == t[i] {
      if t[i] != DASH { TokenCharsAreNoSpaces(t[i]); }
    }
    assert ToLower(t) == t;
    DashedKeeps(t, false);
    assert Sanitized(t) == t by { TokenIsFixed(t); }
  }

  lemma TokenIsFixed(t: string)
    requires WellFormedToken(t) && Trim(t) == t && ToLower(t) == t && Dashed(t, false) == t
    ensures Sanitized(t) == t
  {}

  // ---------------------------------------------------------------------------------------
  // Routes

  datatype Registry = Registry(stream: string, subjectPrefix: string, subjectPattern: string)

  const DEFAULT_PREFIX := "dataplane.ingestion.received"
  const DEFAULT_REGISTRY := Registry("DATA_PLANE_INGESTION", DEFAULT_PREFIX, DEFAULT_PREFIX + ".>")

  datatype BindingRoute = BindingRoute(kafkaTopic: string, jetStreamSubject: string)

  function SubjectForBinding(r: Registry, b: ActiveBinding): Result<string> {
    var prefix := Trim(r.subjectPrefix);
    if prefix == "" then Fail(Problem(InvalidArgument, "jetstream subject prefix is required"))
    else
      var name, kind, key := Trim(b.binding.name), Trim(b.runtime.scope.kind), Trim(b.runtime.scope.key);
      if name == "" || kind == "" || key == "" then
        Fail(Problem(InvalidArgument, "binding route identifiers are incomplete"))
      else
        Ok(Join([prefix, Sanitized(kind), Sanitized(key), Sanitized(name)], DOT))
  }

  function RouteForBinding(r: Registry, b: ActiveBinding): Result<BindingRoute> {
    var topic := Trim(b.binding.topic);
    if topic == "" then Fail(Problem(InvalidArgument, "binding topic is required"))
    else
      match SubjectForBinding(r, b)
      case Fail(problem) => Fail(problem)
      case Ok(subject) => Ok(BindingRoute(topic, subject))
  }

  lemma {:induction false} JoinAppend(xs: seq<string>, ys: seq<string>, sep: char)
    requires xs != [] && ys != []
    ensures Join(xs + ys, sep) == Join(xs, sep) + [sep] + Join(ys, sep)
  {
    if |xs| == 1 {
      assert (xs + ys)[1..] == ys;
    } else {
      assert (xs + ys)[1..] == xs[1..] + ys;
      JoinAppend(xs[1..], ys, sep);
    }
  }

  /** A subject's tokens are the prefix's tokens and three well-formed ones. */
  lemma SubjectTokens(r: Registry, b: ActiveBinding)
    requires SubjectForBinding(r, b).Ok?
    ensures Split(SubjectForBinding(r, b).value)
            == Split(Trim(r.subjectPrefix)) + [Sanitized(Trim(b.runtime.scope.kind)), Sanitized(Trim(b.runtime.scope.key)), Sanitized(Trim(b.binding.name))]
  {
    hide Trim, Sanitized;
    var prefix := Trim(r.subjectPrefix);
    var tail := [Sanitized(Trim(b.runtime.scope.kind)), Sanitized(Trim(b.runtime.scope.key)), Sanitized(Trim(b.binding.name))];
    var head := Split(prefix);
    forall i | 0 <= i < 3 ensures FreeOf(tail[i], DOT) {
      SanitizedIsWellFormed(Trim(b.runtime.scope.kind));
      SanitizedIsWellFormed(Trim(b.runtime.scope.key));
      SanitizedIsWellFormed(Trim(b.binding.name));
    }
    JoinAppend(head, tail, DOT);
    JoinAppend([prefix], tail, DOT);
    assert [prefix] + tail == [prefix, tail[0], tail[1], tail[2]];
    hide Join;
    SplitJoin(head + tail);
  }

  lemma {:induction false} PrefixThenRest(prefix: seq<string>, tail: seq<string>)
    requires tail != []
    ensures Matches(prefix + tail, prefix + [REST])
  {
    if prefix != [] {
      assert (prefix + tail)[1..] == prefix[1..] + tail && (prefix + [REST])[1..] == prefix[1..] + [REST];
      PrefixThenRest(prefix[1..], tail);
    } else {
      assert prefix + tail == tail && prefix + [REST] == [REST];
    }
  }

  /** Every subject a registry hands out is covered by the stream pattern built from the same prefix. */
  lemma SubjectMatchesStream(r: Registry, b: ActiveBinding)
    requires SubjectForBinding(r, b).Ok? && r.subjectPattern == Trim(r.subjectPrefix) + ".>"
    ensures Matches(Split(SubjectForBinding(r, b).value), Split(r.subjectPattern))
  {
    hide Trim, Sanitized;
    SubjectTokens(r, b);
    hide SubjectForBinding;
    var head := Split(Trim(r.subjectPrefix));
    JoinAppend(head, [REST], DOT);
    assert r.subjectPattern == Join(head + [REST], DOT);
    SplitJoin(head + [REST]);
    PrefixThenRest(head, [Sanitized(Trim(b.runtime.scope.kind)), Sanitized(Trim(b.runtime.scope.key)), Sanitized(Trim(b.binding.name))]);
  }

  /** In particular for the default registry, for which routing fails only on incomplete bindings. */
  lemma DefaultSubjects(b: ActiveBinding)
    ensures RouteForBinding(DEFAULT_REGISTRY, b).Ok? <==>
              Trim(b.binding.topic) != "" && Trim(b.binding.name) != "" && Trim(b.runtime.scope.kind) != "" && Trim(b.runtime.scope.key) != ""
    ensures RouteForBinding(DEFAULT_REGISTRY, b).Ok? ==>
              Matches(Split(RouteForBinding(DEFAULT_REGISTRY, b).value.jetStreamSubject), Split(DEFAULT_REGISTRY.subjectPattern))
  {
    LettersAreNoSpaces('d');
    assert Trim(DEFAULT_PREFIX) == DEFAULT_PREFIX && DEFAULT_PREFIX != "" by {
      assert DEFAULT_PREFIX[0] == 'd' && DEFAULT_PREFIX[|DEFAULT_PREFIX| - 1] == 'd';
    }
    hide Trim, Sanitized, Join;
    if SubjectForBinding(DEFAULT_REGISTRY, b).Ok? { SubjectMatchesStream(DEFAULT_REGISTRY, b); }
  }
}
