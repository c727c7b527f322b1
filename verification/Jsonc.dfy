/** Stripping comments from JSON with comments, byte by byte. */
module Jsonc {

  newtype byte = x: int | 0 <= x < 256

  const NEWLINE: byte := 10
  const QUOTE: byte := 34
  const STAR: byte := 42
  const SLASH: byte := 47
  const BACKSLASH: byte := 92

  type Bytes = seq<byte>

  // ---------------------------------------------------------------------------------------
  // What the text consists of

  /** A string literal as in section 7 of RFC 8259, a comment, or one byte of anything else. */
  datatype Token =
    | Code(b: byte)
    | Literal(text: Bytes)
    | LineComment(text: Bytes)
    | BlockComment(text: Bytes)
  {
    function Text(): Bytes {
      match this
      case Code(b) => [b]
      case Literal(text) => text
      case LineComment(text) => text
      case BlockComment(text) => text
    }

    predicate IsComment() { LineComment? || BlockComment? }
  }

  /** How far a literal reaches: through its closing quote, or to the end. */
  function LiteralLength(s: Bytes, escaped: bool): (n: nat)
    ensures n <= |s|
  {
    if s == [] then 0
    else if escaped then 1 + LiteralLength(s[1..], false)
    else if s[0] == QUOTE then 1
    else 1 + LiteralLength(s[1..], s[0] == BACKSLASH)
  }

  predicate LiteralClosed(s: Bytes, escaped: bool) {
    s != []
    && if escaped then LiteralClosed(s[1..], false)
       else s[0] == QUOTE || LiteralClosed(s[1..], s[0] == BACKSLASH)
  }

  /** The number of bytes before the next newline. */
  function LineLength(s: Bytes): (n: nat)
    ensures n <= |s|
    ensures forall i | 0 <= i < n :: s[i] != NEWLINE
    ensures n < |s| ==> s[n] == NEWLINE
  {
    if s == [] || s[0] == NEWLINE then 0 else 1 + LineLength(s[1..])
  }

  /** How far a block comment reaches: through the next star and slash, or to the end. */
  function BlockLength(s: Bytes): (n: nat)
    ensures n <= |s|
  {
    if s == [] then 0
    else if s[0] == STAR && |s| > 1 && s[1] == SLASH then 2
    else 1 + BlockLength(s[1..])
  }

  function FirstToken(s: Bytes): (t: Token)
    requires s != []
    ensures t.Text() != [] && t.Text() <= s
  {
    if s[0] == QUOTE then Literal(s[..1 + LiteralLength(s[1..], false)])
    else if s[0] == SLASH && |s| > 1 && s[1] == SLASH then LineComment(s[..2 + LineLength(s[2..])])
    else if s[0] == SLASH && |s| > 1 && s[1] == STAR then BlockComment(s[..2 + BlockLength(s[2..])])
    else Code(s[0])
  }

  // Where tokens end, in terms of the characters at their positions.

  /** The character at position i. */
  ghost predicate Has(s: Bytes, i: nat, c: char) { i < |s| && s[i] as int == c as int }

  /** How many backslashes come right before position i. */
  function Backslashes(s: Bytes, i: nat): nat
    requires i <= |s|
  {
    if i > 0 && s[i - 1] as int == '\\' as int then 1 + Backslashes(s, i - 1) else 0
  }

  /** A quote that an even number of backslashes precedes. */
  ghost predicate Closes(s: Bytes, i: nat) {
    Has(s, i, '\"') && Backslashes(s, i) % 2 == 0
  }

  /** A literal's body ends with its first closing quote, or with the text. */
  lemma LiteralEnds(s: Bytes)
    ensures var n := LiteralLength(s, false);
            && (forall i | 0 <= i < n - 1 :: !Closes(s, i))
            && (n < |s| ==> n > 0 && Closes(s, n - 1))
  {
    assert s[0..] == s;
    LiteralEndsFrom(s, 0, false);
  }

  lemma {:induction false} LiteralEndsFrom(s: Bytes, from: nat, escaped: bool)
    requires from <= |s| && (escaped <==> Backslashes(s, from) % 2 == 1)
    ensures var n := from + LiteralLength(s[from..], escaped);
            && (forall i | from <= i < n - 1 :: !Closes(s, i))
            && (n < |s| ==> n > from && Closes(s, n - 1))
    decreases |s| - from
  {
    if from < |s| {
      assert s[from..][0] == s[from] && s[from..][1..] == s[from + 1..];
      if escaped || s[from] != QUOTE { LiteralEndsFrom(s, from + 1, !escaped && s[from] == BACKSLASH); }
    }
  }

  ghost predicate StarSlash(s: Bytes, i: nat) { Has(s, i, '*') && Has(s, i + 1, '/') }

  /** A block comment's body ends with the first star that a slash follows, or with the text. */
  lemma {:induction false} BlockEnds(s: Bytes)
    ensures var n := BlockLength(s);
            && (forall i | 0 <= i < n - 2 :: !StarSlash(s, i))
            && (n < |s| ==> n > 1 && StarSlash(s, n - 2))
  {
    if s != [] && !(s[0] == STAR && |s| > 1 && s[1] == SLASH) {
      BlockEnds(s[1..]);
      forall i | 0 <= i < BlockLength(s) - 2 ensures !StarSlash(s, i) {
        if i > 0 { assert StarSlash(s, i) <==> StarSlash(s[1..], i - 1); }
      }
    }
  }

  /** Which token comes first, and how far it reaches. */
  lemma FirstTokenSpec(s: Bytes)
    requires s != []
    ensures var t := FirstToken(s);
            var n := |t.Text()|;
            && t.Text() == s[..n]
            && (t.Literal? <==> Has(s, 0, '\"'))
            && (t.LineComment? <==> Has(s, 0, '/') && Has(s, 1, '/'))
            && (t.BlockComment? <==> Has(s, 0, '/') && Has(s, 1, '*'))
            && (t.Code? ==> n == 1)
            && (t.Literal? ==> (forall i | 0 <= i < n - 2 :: !Closes(s[1..], i)) && (n < |s| ==> n > 1 && Closes(s[1..], n - 2)))
            && (t.LineComment? ==> n >= 2 && (forall i | 2 <= i < n :: !Has(s, i, '\n')) && (n < |s| ==> Has(s, n, '\n')))
            && (t.BlockComment? ==> n >= 2 && (forall i | 2 <= i < n - 2 :: !StarSlash(s, i)) && (n < |s| ==> n >= 4 && StarSlash(s, n - 2)))
  {
    LiteralEnds(s[1..]);
    if FirstToken(s).BlockComment? {
      BlockEnds(s[2..]);
      forall i: nat | 2 <= i < |s| ensures StarSlash(s, i) <==> StarSlash(s[2..], i - 2) {}
    }
  }

  function Lex(s: Bytes): seq<Token>
    decreases |s|
  {
    if s == [] then [] else [FirstToken(s)] + Lex(s[|FirstToken(s).Text()|..])
  }

  function Concat(ts: seq<Token>): Bytes {
    if ts == [] then [] else ts[0].Text() + Concat(ts[1..])
  }

  /** The tokens are the text, nothing added and nothing lost. */
  lemma {:induction false} LexIsLossless(s: Bytes)
    ensures Concat(Lex(s)) == s
    decreases |s|
  {
    hide FirstToken;
    if s != [] {
      var t := FirstToken(s);
      var rest := s[|t.Text()|..];
      LexIsLossless(rest);
      assert ([t] + Lex(rest))[1..] == Lex(rest);
      hide Lex;
      assert s == t.Text() + rest;
    }
  }

  // ---------------------------------------------------------------------------------------
  // What stripping means

  function Newlines(s: Bytes): Bytes {
    if s == [] then []
    else if s[0] == NEWLINE then [NEWLINE] + Newlines(s[1..])
    else Newlines(s[1..])
  }

  /** What is left of a token: comments only keep their newlines. */
  function Rest(t: Token): Bytes { if t.IsComment() then Newlines(t.Text()) else t.Text() }

  function Render(ts: seq<Token>): Bytes {
    if ts == [] then [] else Rest(ts[0]) + Render(ts[1..])
  }

  function Stripped(s: Bytes): Bytes { Render(Lex(s)) }

  ghost predicate CommentFree(s: Bytes) {
    forall t | t in Lex(s) :: !t.IsComment()
  }

  // ---------------------------------------------------------------------------------------
  // The loop

  datatype Mode = InCode | InLine | InBlock | InString | InEscape

  /** What the loop still has to emit, by its state. */
  function Pending(s: Bytes, mode: Mode): Bytes {
    match mode
    case InCode => Stripped(s)
    case InLine => Stripped(s[LineLength(s)..])
    case InBlock => var n := BlockLength(s); Newlines(s[..n]) + Stripped(s[n..])
    case InString => var n := LiteralLength(s, false); s[..n] + Stripped(s[n..])
    case InEscape => var n := LiteralLength(s, true); s[..n] + Stripped(s[n..])
  }

  lemma StrippedFirst(s: Bytes)
    requires s != []
    ensures var t := FirstToken(s); Stripped(s) == Rest(t) + Stripped(s[|t.Text()|..])
  {
    assert Lex(s)[1..] == Lex(s[|FirstToken(s).Text()|..]);
  }

  lemma {:induction false} NewlinesAppend(a: Bytes, b: Bytes)
    ensures Newlines(a + b) == Newlines(a) + Newlines(b)
  {
    if a == [] {
      assert a + b == b;
    } else {
      assert (a + b)[1..] == a[1..] + b;
      NewlinesAppend(a[1..], b);
      var x, y := Newlines(a[1..]), Newlines(b);
      assert [NEWLINE] + (x + y) == ([NEWLINE] + x) + y;
    }
  }

  lemma {:induction false} NoNewlines(s: Bytes)
    requires forall i | 0 <= i < |s| :: s[i] != NEWLINE
    ensures Newlines(s) == []
  {
    if s != [] { NoNewlines(s[1..]); }
  }

  lemma CodeStep(s: Bytes)
    requires s != []
    ensures Pending(s, InCode) ==
              if s[0] == QUOTE then [QUOTE] + Pending(s[1..], InString)
              else if s[0] == SLASH && |s| > 1 && s[1] == SLASH then Pending(s[2..], InLine)
              else if s[0] == SLASH && |s| > 1 && s[1] == STAR then Pending(s[2..], InBlock)
              else [s[0]] + Pending(s[1..], InCode)
  {
    hide Stripped, LiteralLength, LineLength, BlockLength;
    StrippedFirst(s);
    if s[0] == QUOTE { OpenString(s); }
    else if FirstToken(s).LineComment? { OpenLine(s); }
    else if FirstToken(s).BlockComment? { OpenBlock(s); }
  }

  lemma OpenString(s: Bytes)
    requires s != [] && s[0] == QUOTE
    ensures var n := LiteralLength(s[1..], false);
            s[..1 + n] + Stripped(s[1 + n..]) == [QUOTE] + Pending(s[1..], InString)
  {
    hide Stripped, LiteralLength;
    var n := LiteralLength(s[1..], false);
    assert s[..1 + n] == [QUOTE] + s[1..][..n];
    assert s[1..][n..] == s[1 + n..];
  }

  lemma OpenLine(s: Bytes)
    requires |s| > 1 && s[0] == SLASH && s[1] == SLASH
    ensures var n := LineLength(s[2..]);
            Newlines(s[..2 + n]) == [] && Stripped(s[2 + n..]) == Pending(s[2..], InLine)
  {
    hide Stripped;
    var n := LineLength(s[2..]);
    assert s[..2 + n] == [SLASH, SLASH] + s[2..][..n];
    NoNewlines(s[..2 + n]);
    assert s[2..][n..] == s[2 + n..];
  }

  lemma OpenBlock(s: Bytes)
    requires |s| > 1 && s[0] == SLASH && s[1] == STAR
    ensures var n := BlockLength(s[2..]);
            Newlines(s[..2 + n]) + Stripped(s[2 + n..]) == Pending(s[2..], InBlock)
  {
    hide Stripped, BlockLength;
    var n := BlockLength(s[2..]);
    assert s[..2 + n] == [SLASH, STAR] + s[2..][..n];
    NoNewlines([SLASH, STAR]);
    NewlinesAppend([SLASH, STAR], s[2..][..n]);
    assert s[2..][n..] == s[2 + n..];
  }

  lemma LineStep(s: Bytes)
    requires s != []
    ensures Pending(s, InLine) == if s[0] == NEWLINE then [NEWLINE] + Pending(s[1..], InCode) else Pending(s[1..], InLine)
  {
    hide Stripped;
    if s[0] == NEWLINE {
      assert s[0..] == s;
      StrippedFirst(s);
      assert s[|FirstToken(s).Text()|..] == s[1..];
    } else {
      assert s[1..][LineLength(s[1..])..] == s[LineLength(s)..];
    }
  }

  lemma BlockStep(s: Bytes)
    requires s != []
    ensures Pending(s, InBlock) ==
              if s[0] == STAR && |s| > 1 && s[1] == SLASH then Pending(s[2..], InCode)
              else (if s[0] == NEWLINE then [NEWLINE] else []) + Pending(s[1..], InBlock)
  {
    hide Stripped;
    var n := BlockLength(s);
    if s[0] == STAR && |s| > 1 && s[1] == SLASH {
      NoNewlines(s[..2]);
    } else {
      var m := BlockLength(s[1..]);
      assert s[..n] == [s[0]] + s[1..][..m];
      NewlinesAppend([s[0]], s[1..][..m]);
      assert [s[0]][1..] == [];
      assert Newlines([s[0]]) == if s[0] == NEWLINE then [NEWLINE] else [];
      assert s[1..][m..] == s[n..];
      var h, x, y := Newlines([s[0]]), Newlines(s[1..][..m]), Stripped(s[n..]);
      assert (h + x) + y == h + (x + y);
    }
  }

  lemma StringStep(s: Bytes, escaped: bool)
    requires s != []
    ensures Pending(s, if escaped then InEscape else InString) ==
              [s[0]] + Pending(s[1..], if escaped then InString else if s[0] == QUOTE then InCode else if s[0] == BACKSLASH then InEscape else InString)
  {
    hide Stripped;
    var n := LiteralLength(s, escaped);
    if !escaped && s[0] == QUOTE {
      assert s[..1] == [s[0]];
    } else {
      var m := LiteralLength(s[1..], !escaped && s[0] == BACKSLASH);
      assert s[..n] == [s[0]] + s[1..][..m];
      assert s[1..][m..] == s[n..];
      assert ([s[0]] + s[1..][..m]) + Stripped(s[n..]) == [s[0]] + (s[1..][..m] + Stripped(s[n..]));
    }
  }

  lemma PendingNothing(mode: Mode)
    ensures Pending([], mode) == []
  {}

  /** One turn of the loop: what it emits, how many bytes it consumes, and the next state. */
  datatype Turn = Turn(emitted: Bytes, consumed: nat, next: Mode)

  function TurnOf(s: Bytes, mode: Mode): (t: Turn)
    requires s != []
    ensures 1 <= t.consumed <= |s|
  {
    var ch := s[0];
    var next := if |s| > 1 then s[1] else 0;
    match mode
    case InLine => if ch == NEWLINE then Turn([ch], 1, InCode) else Turn([], 1, InLine)
    case InBlock =>
      if ch == NEWLINE then Turn([ch], 1, InBlock)
      else if ch == STAR && next == SLASH then Turn([], 2, InCode)
      else Turn([], 1, InBlock)
    case InEscape => Turn([ch], 1, InString)
    case InString => Turn([ch], 1, if ch == BACKSLASH then InEscape else if ch == QUOTE then InCode else InString)
    case InCode =>
      if ch == QUOTE then Turn([ch], 1, InString)
      else if ch == SLASH && next == SLASH then Turn([], 2, InLine)
      else if ch == SLASH && next == STAR then Turn([], 2, InBlock)
      else Turn([ch], 1, InCode)
  }

  lemma TurnIsRight(out: Bytes, s: Bytes, mode: Mode)
    requires s != []
    ensures var t := TurnOf(s, mode);
            out + Pending(s, mode) == (out + t.emitted) + Pending(s[t.consumed..], t.next)
  {
    hide Pending;
    match mode {
      case InLine => LineStep(s);
      case InBlock => BlockStep(s);
      case InEscape => StringStep(s, true);
      case InString => StringStep(s, false);
      case InCode => CodeStep(s);
    }
    var t := TurnOf(s, mode);
    var rest := Pending(s[t.consumed..], t.next);
    assert [] + rest == rest;
    assert Pending(s, mode) == t.emitted + rest;
    assert out + (t.emitted + rest) == (out + t.emitted) + rest;
  }

  function ModeOf(inString: bool, escaped: bool, lineComment: bool, blockComment: bool): Mode {
    if lineComment then InLine else if blockComment then InBlock else if inString then (if escaped then InEscape else InString) else InCode
  }

  method StripJSONComments(input: Bytes) returns (out: Bytes)
    ensures out == Stripped(input)
  {
    out := [];
    var inString, escaped, lineComment, blockComment := false, false, false, false;
    var i := 0;
    assert input[0..] == input;
    assert Pending(input, InCode) == Stripped(input);
    hide Pending, Stripped;
    while i < |input|
      invariant 0 <= i <= |input|
      invariant out + Pending(input[i..], ModeOf(inString, escaped, lineComment, blockComment)) == Stripped(input)
      invariant !(lineComment && blockComment) && (lineComment || blockComment ==> !inString) && (escaped ==> inString)
    {
      var ch := input[i];
      ghost var s := input[i..];
      TurnIsRight(out, s, ModeOf(inString, escaped, lineComment, blockComment));
      assert s[1..] == input[i + 1..] && (i + 1 < |input| ==> s[1] == input[i + 1] && s[2..] == input[i + 2..]);
      assert out + [] == out;
      i := i + 1;
      if lineComment {
        if ch == NEWLINE {
          lineComment := false;
          out := out + [ch];
        }
        continue;
      }
      if blockComment {
        if ch == NEWLINE {
          out := out + [ch];
          continue;
        }
        if ch == STAR && i < |input| && input[i] == SLASH {
          blockComment := false;
          i := i + 1;
        }
        continue;
      }
      if inString {
        out := out + [ch];
        if escaped {
          escaped := false;
          continue;
        }
        if ch == BACKSLASH {
          escaped := true;
          continue;
        }
        if ch == QUOTE { inString := false; }
        continue;
      }
      if ch == QUOTE {
        inString := true;
        out := out + [ch];
        continue;
      }
      if ch == SLASH && i < |input| {
        var next := input[i];
        if next == SLASH {
          lineComment := true;
          i := i + 1;
          continue;
        }
        if next == STAR {
          blockComment := true;
          i := i + 1;
          continue;
        }
      }
      out := out + [ch];
    }
    PendingNothing(ModeOf(inString, escaped, lineComment, blockComment));
  }

  // ---------------------------------------------------------------------------------------
  // What stripping keeps

  /** Every newline survives, so line numbers stay right. */
  lemma {:induction false} StrippingKeepsNewlines(s: Bytes)
    ensures Newlines(Stripped(s)) == Newlines(s)
    decreases |s|
  {
    hide Stripped;
    if s == [] {
      assert Stripped(s) == [] by { NothingStripped(); }
    } else {
      var t := FirstToken(s);
      var n := |t.Text()|;
      StrippedFirst(s);
      StrippingKeepsNewlines(s[n..]);
      NewlinesAppend(Rest(t), Stripped(s[n..]));
      NewlinesAppend(s[..n], s[n..]);
      assert s == s[..n] + s[n..];
      NewlinesTwice(t.Text());
    }
  }

  lemma NothingStripped()
    ensures Stripped([]) == []
  {}

  lemma {:induction false} NewlinesTwice(s: Bytes)
    ensures Newlines(Newlines(s)) == Newlines(s)
  {
    if s != [] {
      NewlinesTwice(s[1..]);
      var tail := Newlines(s[1..]);
      assert s[0] == NEWLINE ==> ([NEWLINE] + tail)[1..] == tail;
    }
  }

  /** xs can be had by deleting bytes of ys. */
  predicate Subsequence(xs: Bytes, ys: Bytes) {
    if xs == [] then true
    else if ys == [] then false
    else (xs[0] == ys[0] && Subsequence(xs[1..], ys[1..])) || Subsequence(xs, ys[1..])
  }

  lemma {:induction false} SubsequenceAppend(a: Bytes, b: Bytes, xs: Bytes, ys: Bytes)
    requires Subsequence(a, b) && Subsequence(xs, ys)
    ensures Subsequence(a + xs, b + ys)
    decreases |b|
  {
    if b == [] {
      assert a + xs == xs && b + ys == ys;
    } else {
      assert (b + ys)[1..] == b[1..] + ys;
      if a != [] && a[0] == b[0] && Subsequence(a[1..], b[1..]) {
        assert (a + xs)[1..] == a[1..] + xs;
        SubsequenceAppend(a[1..], b[1..], xs, ys);
      } else {
        SubsequenceAppend(a, b[1..], xs, ys);
      }
    }
  }

  lemma {:induction false} NewlinesSubsequence(s: Bytes)
    ensures Subsequence(Newlines(s), s)
  {
    if s != [] {
      NewlinesSubsequence(s[1..]);
      var tail := Newlines(s[1..]);
      assert s[0] == NEWLINE ==> ([NEWLINE] + tail)[1..] == tail;
    }
  }

  lemma {:induction false} WholeSubsequence(s: Bytes)
    ensures Subsequence(s, s)
  {
    if s != [] { WholeSubsequence(s[1..]); }
  }

  /** Stripping only deletes. */
  lemma {:induction false} StrippingOnlyDeletes(s: Bytes)
    ensures Subsequence(Stripped(s), s)
    decreases |s|
  {
    hide Stripped, Subsequence;
    if s == [] {
      assert Stripped(s) == [] by { NothingStripped(); }
      WholeSubsequence([]);
    } else {
      var t := FirstToken(s);
      var n := |t.Text()|;
      StrippedFirst(s);
      StrippingOnlyDeletes(s[n..]);
      NewlinesSubsequence(t.Text());
      WholeSubsequence(t.Text());
      SubsequenceAppend(Rest(t), t.Text(), Stripped(s[n..]), s[n..]);
      assert s == t.Text() + s[n..];
    }
  }

  // ---------------------------------------------------------------------------------------
  // The tokens of the result

  function Codes(s: Bytes): seq<Token> {
    if s == [] then [] else [Code(s[0])] + Codes(s[1..])
  }

  /** The tokens that survive: comments become the newlines they contained. */
  function Kept(ts: seq<Token>): seq<Token> {
    if ts == [] then [] else (if ts[0].IsComment() then Codes(Newlines(ts[0].Text())) else [ts[0]]) + Kept(ts[1..])
  }

  lemma {:induction false} LiteralExtends(s: Bytes, escaped: bool, tail: Bytes)
    ensures var n := LiteralLength(s, escaped);
            if LiteralClosed(s, escaped) then LiteralLength(s[..n] + tail, escaped) == n else n == |s|
  {
    var n := LiteralLength(s, escaped);
    if s != [] && !(s[0] == QUOTE && !escaped) {
      var escaped' := !escaped && s[0] == BACKSLASH;
      LiteralExtends(s[1..], escaped', tail);
      assert (s[..n] + tail)[1..] == s[1..][..n - 1] + tail;
    }
  }

  /** The stripped rest begins like the rest, unless a comment may begin there. */
  lemma StrippedBegins(s: Bytes)
    requires s != [] && s[0] != SLASH
    ensures Stripped(s) != [] && Stripped(s)[0] == s[0]
  {
    hide Stripped;
    StrippedFirst(s);
  }

  lemma {:induction false} LexNewlines(s: Bytes, tail: Bytes)
    requires forall i | 0 <= i < |s| :: s[i] == NEWLINE
    ensures Lex(s + tail) == Codes(s) + Lex(tail)
  {
    if s == [] {
      assert s + tail == tail && Codes(s) + Lex(tail) == Lex(tail);
    } else {
      assert s + tail == [NEWLINE] + (s[1..] + tail);
      LexNewlines(s[1..], tail);
      assert FirstToken(s + tail) == Code(NEWLINE);
      hide FirstToken;
      LexOne(s + tail, Code(NEWLINE), s[1..] + tail);
      assert [Code(NEWLINE)] + (Codes(s[1..]) + Lex(tail)) == ([Code(NEWLINE)] + Codes(s[1..])) + Lex(tail);
    }
  }

  lemma {:induction false} OnlyNewlines(s: Bytes)
    ensures forall i | 0 <= i < |Newlines(s)| :: Newlines(s)[i] == NEWLINE
  {
    if s != [] { OnlyNewlines(s[1..]); }
  }

  lemma LexOne(s: Bytes, t: Token, tail: Bytes)
    requires s == t.Text() + tail && s != [] && FirstToken(s) == t
    ensures Lex(s) == [t] + Lex(tail)
  {
    assert s[|t.Text()|..] == tail;
  }

  lemma FirstTokenStays(s: Bytes)
    requires s != [] && !FirstToken(s).IsComment()
    ensures var t := FirstToken(s);
            var r := t.Text() + Stripped(s[|t.Text()|..]);
            r != [] && FirstToken(r) == t
  {
    hide Stripped;
    var t := FirstToken(s);
    var tail := s[|t.Text()|..];
    var r := t.Text() + Stripped(tail);
    if t.Literal? {
      var n := LiteralLength(s[1..], false);
      LiteralExtends(s[1..], false, Stripped(tail));
      assert t.text == [QUOTE] + s[1..][..n];
      assert r[1..] == s[1..][..n] + Stripped(tail);
      if !LiteralClosed(s[1..], false) {
        assert tail == [];
        NothingStripped();
        assert r[1..] == s[1..];
      }
      assert r[..1 + n] == t.text;
    } else if s[0] == SLASH && tail != [] {
      if tail[0] != SLASH { StrippedBegins(tail); }
    } else if tail == [] {
      NothingStripped();
    }
  }

  /** The result lexes into the surviving tokens: literals verbatim and in place, other bytes likewise,
      newlines where comments were, and no comment. */
  lemma {:induction false} StrippedTokens(s: Bytes)
    ensures Lex(Stripped(s)) == Kept(Lex(s))
    decreases |s|
  {
    hide Stripped;
    if s == [] {
      NothingStripped();
    } else {
      var t := FirstToken(s);
      var tail := s[|t.Text()|..];
      StrippedFirst(s);
      StrippedTokens(tail);
      assert Lex(s) == [t] + Lex(tail) && Lex(s)[1..] == Lex(tail);
      if t.IsComment() {
        OnlyNewlines(t.Text());
        LexNewlines(Newlines(t.Text()), Stripped(tail));
      } else {
        FirstTokenStays(s);
        LexOne(t.Text() + Stripped(tail), t, Stripped(tail));
      }
    }
  }

  lemma {:induction false} KeptIsCommentFree(ts: seq<Token>)
    ensures forall t | t in Kept(ts) :: !t.IsComment()
    ensures (forall t | t in ts :: !t.IsComment()) ==> Kept(ts) == ts && Render(ts) == Concat(ts)
  {
    if ts != [] {
      KeptIsCommentFree(ts[1..]);
      assert ts == [ts[0]] + ts[1..];
      CodesAreCode(Newlines(ts[0].Text()));
    }
  }

  lemma {:induction false} CodesAreCode(s: Bytes)
    ensures forall t | t in Codes(s) :: t.Code?
  {
    if s != [] { CodesAreCode(s[1..]); }
  }

  /** No comment opener is left outside the string literals. */
  lemma StrippedIsCommentFree(s: Bytes)
    ensures CommentFree(Stripped(s))
  {
    hide Stripped;
    StrippedTokens(s);
    KeptIsCommentFree(Lex(s));
  }

  lemma {:induction false} RenderShrinks(ts: seq<Token>)
    requires forall t | t in ts && t.IsComment() :: |t.Text()| >= 2 && t.Text()[0] == SLASH
    ensures |Render(ts)| <= |Concat(ts)|
    ensures (exists t :: t in ts && t.IsComment()) ==> |Render(ts)| < |Concat(ts)|
  {
    if ts != [] {
      assert ts == [ts[0]] + ts[1..];
      RenderShrinks(ts[1..]);
      NewlinesShrink(ts[0].Text());
    }
  }

  lemma {:induction false} NewlinesShrink(s: Bytes)
    ensures |Newlines(s)| <= |s|
    ensures s != [] && s[0] != NEWLINE ==> |Newlines(s)| < |s|
  {
    if s != [] { NewlinesShrink(s[1..]); }
  }

  lemma {:induction false} CommentsOpen(s: Bytes)
    ensures forall t | t in Lex(s) && t.IsComment() :: |t.Text()| >= 2 && t.Text()[0] == SLASH
    decreases |s|
  {
    if s != [] { CommentsOpen(s[|FirstToken(s).Text()|..]); }
  }

  /** Stripping leaves a text alone exactly when it has no comment. */
  lemma StrippingIsIdentityIff(s: Bytes)
    ensures Stripped(s) == s <==> CommentFree(s)
  {
    LexIsLossless(s);
    KeptIsCommentFree(Lex(s));
    CommentsOpen(s);
    RenderShrinks(Lex(s));
  }

  lemma StrippingIsIdempotent(s: Bytes)
    ensures Stripped(Stripped(s)) == Stripped(s)
  {
    hide Stripped;
    StrippedIsCommentFree(s);
    StrippingIsIdentityIff(Stripped(s));
  }
}
