/**
 The small JavaScript scanner of the route extractor: blanking comments out of a source
 text without moving anything else.
 */
module JsScanner {
  import opened Basics

  predicate IsQuote(c: char) { c == '"' || c == '\'' || c == '`' }

  // ---------------------------------------------------------------- string literals

  /** How far a literal reaches beyond its opening quote; past the end when it never closes. */
  function SkipLen(s: string, quote: char): (n: nat)
    ensures n > 0
    decreases |s|
  {
    if s == [] || s[0] == quote then 1
    else if s[0] == '\\' then 2 + SkipLen(s[Min(2, |s|)..], quote)
    else 1 + SkipLen(s[1..], quote)
  }

  /** Index just past the string literal starting at `i`. */
  method SkipString(src: string, i: nat) returns (end: nat)
    requires i < |src|
    ensures end == i + 1 + SkipLen(src[i + 1..], src[i])
  {
    var quote := src[i];
    var j := i + 1;
    while j < |src| && src[j] != quote
      invariant i < j
      invariant i + 1 + SkipLen(src[i + 1..], quote) == j + SkipLen(src[Min(j, |src|)..], quote)
      decreases |src| - j
    {
      var rest := src[j..];
      if src[j] == '\\' {
        assert rest[Min(2, |rest|)..] == src[Min(j + 2, |src|)..];
        j := j + 1;
      } else {
        assert rest[1..] == src[j + 1..];
      }
      j := j + 1;
    }
    end := j + 1;
  }

  /** The inside of a closed literal: escapes come in pairs and nothing else is a quote. */
  predicate LiteralBody(t: string, quote: char)
    decreases |t|
  {
    if t == [] then true
    else if t[0] == '\\' then |t| >= 2 && LiteralBody(t[2..], quote)
    else t[0] != quote && LiteralBody(t[1..], quote)
  }

  /** A literal ends at the first quote that no backslash protects, and nowhere else. */
  lemma {:induction false} ClosedLiteral(t: string, quote: char, rest: string)
    requires LiteralBody(t, quote) && quote != '\\'
    ensures SkipLen(t + [quote] + rest, quote) == |t| + 1
    decreases |t|
  {
    var s := t + [quote] + rest;
    if t != [] {
      var k := if t[0] == '\\' then 2 else 1;
      assert s[k..] == t[k..] + [quote] + rest;
      ClosedLiteral(t[k..], quote, rest);
    }
  }

  /** Conversely, whatever the scan skips and does not run off the end of is a closed literal. */
  lemma {:induction false} SkippedIsLiteral(s: string, quote: char)
    requires SkipLen(s, quote) <= |s|
    ensures LiteralBody(s[..SkipLen(s, quote) - 1], quote) && s[SkipLen(s, quote) - 1] == quote
    decreases |s|
  {
    if s != [] && s[0] != quote {
      var k := if s[0] == '\\' then Min(2, |s|) else 1;
      SkippedIsLiteral(s[k..], quote);
      var n := SkipLen(s, quote);
      assert s[..n - 1][k..] == s[k..][..n - k - 1];
    }
  }

  // ---------------------------------------------------------------- segments

  datatype Segment =
    | Code(text: string)
    | Literal(text: string)
    | LineComment(text: string)
    | BlockComment(text: string, closed: bool)

  predicate StartsWith(s: string, c: char, d: char) { |s| >= 2 && s[0] == c && s[1] == d }

  function LineLen(s: string): (n: nat)
    ensures n <= |s|
  {
    if s == [] || s[0] == '\n' then 0 else 1 + LineLen(s[1..])
  }

  /** Characters before the first closing mark, or all of them. */
  function BlockLen(s: string): (n: nat)
    ensures n <= |s|
  {
    if s == [] || StartsWith(s, '*', '/') then 0 else 1 + BlockLen(s[1..])
  }

  lemma {:induction false} LineLenStops(s: string)
    ensures forall k :: 0 <= k < LineLen(s) ==> s[k] != '\n'
    ensures LineLen(s) < |s| ==> s[LineLen(s)] == '\n'
  {
    if s != [] && s[0] != '\n' { LineLenStops(s[1..]); }
  }

  /** A block comment ends at the first closing mark. */
  lemma {:induction false} BlockLenStops(s: string)
    ensures BlockLen(s) < |s| ==> BlockLen(s) + 1 < |s| && s[BlockLen(s)] == '*' && s[BlockLen(s) + 1] == '/'
    ensures forall k :: 0 <= k < BlockLen(s) && k + 1 < |s| ==> !(s[k] == '*' && s[k + 1] == '/')
  {
    if s != [] && !StartsWith(s, '*', '/') { BlockLenStops(s[1..]); }
  }

  function NextSegment(s: string): (g: Segment)
    requires s != []
    ensures 0 < |g.text| && g.text <= s
  {
    if StartsWith(s, '/', '/') then LineComment(s[..LineLen(s)])
    else if StartsWith(s, '/', '*') then
      var n := BlockLen(s);
      if n + 2 <= |s| then BlockComment(s[..n + 2], true) else BlockComment(s, false)
    else if IsQuote(s[0]) then Literal(s[..Min(1 + SkipLen(s[1..], s[0]), |s|)])
    else Code(s[..1])
  }

  /** The text, cut into its lexical segments. */
  function Lex(s: string): seq<Segment>
    decreases |s|
  {
    if s == [] then []
    else var g := NextSegment(s); [g] + Lex(s[|g.text|..])
  }

  function Blanks(t: string): (r: string)
    ensures |r| == |t|
    ensures forall k :: 0 <= k < |t| ==> r[k] == if t[k] == '\n' then '\n' else ' '
  {
    seq(|t|, k requires 0 <= k < |t| => if t[k] == '\n' then '\n' else ' ')
  }

  /** What a segment becomes. An unclosed block comment is blanked and gains two spaces. */
  function Blanked(g: Segment): string
  {
    match g
    case Code(t) => t
    case Literal(t) => t
    case LineComment(t) => Blanks(t)
    case BlockComment(t, closed) => if closed then Blanks(t) else Blanks(t) + "  "
  }

  function Strip(s: string): string
    decreases |s|
  {
    if s == [] then []
    else var g := NextSegment(s); Blanked(g) + Strip(s[|g.text|..])
  }

  // ---------------------------------------------------------------- the loop

  lemma LineSegment(src: string, i: nat)
    requires i < |src| && StartsWith(src[i..], '/', '/')
    ensures var g, n := NextSegment(src[i..]), LineLen(src[i..]);
            Blanked(g) == Blanks(src[i..i + n]) && |g.text| == n
  {
    assert src[i..][..LineLen(src[i..])] == src[i..i + LineLen(src[i..])];
  }

  /** A closed block comment is blanked up to its closing mark, and that mark becomes two spaces. */
  lemma BlockSegment(src: string, i: nat)
    requires i < |src| && StartsWith(src[i..], '/', '*')
    ensures var g, n := NextSegment(src[i..]), BlockLen(src[i..]);
            Blanked(g) == Blanks(src[i..i + n]) + "  " && |g.text| == Min(n + 2, |src| - i)
  {
    var s := src[i..];
    var n := BlockLen(s);
    BlockLenStops(s);
    assert s[..n] == src[i..i + n];
    if n < |s| {
      assert Blanks(s[..n + 2]) == Blanks(s[..n]) + "  ";
    } else {
      assert s[..n] == s;
    }
  }

  lemma LiteralSegment(src: string, i: nat)
    requires i < |src| && IsQuote(src[i])
    ensures var g, end := NextSegment(src[i..]), i + 1 + SkipLen(src[i + 1..], src[i]);
            Blanked(g) == src[i..Min(end, |src|)] && |g.text| == Min(end, |src|) - i
  {
    assert src[i..][1..] == src[i + 1..];
  }

  lemma CodeSegment(src: string, i: nat)
    requires i < |src| && !IsQuote(src[i]) && !StartsWith(src[i..], '/', '/') && !StartsWith(src[i..], '/', '*')
    ensures var g := NextSegment(src[i..]); Blanked(g) == [src[i]] && |g.text| == 1
  {
  }

  /** What one turn of the main loop leaves behind: the segment at `start` is consumed and what
      becomes of it is appended. */
  ghost predicate Consumed(src: string, start: nat, prefix: string, out: string, i: nat)
    requires start < |src|
  {
    var g := NextSegment(src[start..]);
    start < i && Min(i, |src|) == start + |g.text| && out == prefix + Blanked(g)
  }

  /** The inner loop over a line comment: up to, not including, the newline. */
  method BlankLineComment(src: string, start: nat, prefix: string) returns (out: string, i: nat)
    requires start < |src| && StartsWith(src[start..], '/', '/')
    ensures Consumed(src, start, prefix, out, i)
  {
    out, i := prefix, start;
    while i < |src| && src[i] != '\n'
      invariant start <= i <= |src|
      invariant i - start + LineLen(src[i..]) == LineLen(src[start..])
      invariant out == prefix + Blanks(src[start..i])
    {
      assert src[i..][1..] == src[i + 1..];
      assert Blanks(src[start..i + 1]) == Blanks(src[start..i]) + " ";
      out := out + " ";
      i := i + 1;
    }
    LineSegment(src, start);
  }

  /** The inner loop over a block comment: up to, not including, the closing mark. */
  method BlankToMark(src: string, start: nat, prefix: string) returns (out: string, i: nat)
    requires start < |src|
    ensures i == start + BlockLen(src[start..]) && out == prefix + Blanks(src[start..i])
  {
    out, i := prefix, start;
    while i < |src| && !(src[i] == '*' && i + 1 < |src| && src[i + 1] == '/')
      invariant start <= i <= |src|
      invariant i - start + BlockLen(src[i..]) == BlockLen(src[start..])
      invariant out == prefix + Blanks(src[start..i])
    {
      assert src[i..][1..] == src[i + 1..];
      assert Blanks(src[start..i + 1]) == Blanks(src[start..i]) + [if src[i] == '\n' then '\n' else ' '];
      out := out + [if src[i] == '\n' then '\n' else ' '];
      i := i + 1;
    }
  }

  /** A block comment: its inside, then two spaces for the closing mark. */
  method BlankBlockComment(src: string, start: nat, prefix: string) returns (out: string, i: nat)
    requires start < |src| && StartsWith(src[start..], '/', '*')
    ensures Consumed(src, start, prefix, out, i)
  {
    BlockSegment(src, start);
    out, i := BlankToMark(src, start, prefix);
    out := out + "  ";
    i := i + 2;
  }

  method CopyLiteral(src: string, start: nat, prefix: string) returns (out: string, i: nat)
    requires start < |src| && IsQuote(src[start])
    ensures Consumed(src, start, prefix, out, i)
  {
    LiteralSegment(src, start);
    i := SkipString(src, start);
    out := prefix + src[start..Min(i, |src|)];
  }

  lemma Assoc(a: string, b: string, c: string)
    ensures a + (b + c) == (a + b) + c
  {
  }

  /** One more segment is done. */
  lemma {:induction false} StripAdvances(s: string, rest: string, out: string, out': string, whole: string)
    requires s != [] && whole == out + Strip(s)
    requires var g := NextSegment(s); rest == s[|g.text|..] && out' == out + Blanked(g)
    ensures whole == out' + Strip(rest)
  {
    Assoc(out, Blanked(NextSegment(s)), Strip(rest));
  }

  method StripComments(src: string) returns (out: string)
    ensures out == Strip(src)
  {
    ghost var whole := Strip(src);
    out := "";
    var i := 0;
    assert src[0..] == src;
    while i < |src|
      invariant out + Strip(src[Min(i, |src|)..]) == whole
      decreases |src| - i
    {
      var c := src[i];
      ghost var out0, i0 := out, i;
      if c == '/' && i + 1 < |src| && src[i + 1] == '/' {
        out, i := BlankLineComment(src, i, out);
      } else if c == '/' && i + 1 < |src| && src[i + 1] == '*' {
        out, i := BlankBlockComment(src, i, out);
      } else if IsQuote(c) {
        out, i := CopyLiteral(src, i, out);
      } else {
        CodeSegment(src, i);
        out := out + [c];
        i := i + 1;
      }
      assert Consumed(src, i0, out0, out, i);
      StripAdvances(src[i0..], src[Min(i, |src|)..], out0, out, whole);
    }
    assert src[Min(i, |src|)..] == [];
  }

  // ---------------------------------------------------------------- what is kept

  function TextOf(gs: seq<Segment>): string
  {
    if gs == [] then [] else gs[0].text + TextOf(gs[1..])
  }

  /** Cutting loses nothing. */
  lemma {:induction false} LexIsLossless(s: string)
    ensures TextOf(Lex(s)) == s
    decreases |s|
  {
    if s != [] {
      var g := NextSegment(s);
      LexIsLossless(s[|g.text|..]);
      assert Lex(s)[1..] == Lex(s[|g.text|..]);
      assert g.text + s[|g.text|..] == s;
    }
  }

  /** The segment that covers position `k`. */
  function SegmentAt(s: string, k: nat): Segment
    requires k < |s|
    decreases |s|
  {
    var g := NextSegment(s);
    if k < |g.text| then g else SegmentAt(s[|g.text|..], k - |g.text|)
  }

  predicate IsComment(g: Segment) { g.LineComment? || g.BlockComment? }

  /** The text ends inside a block comment that never closes. */
  predicate Unterminated(s: string)
  {
    var gs := Lex(s); gs != [] && gs[|gs| - 1] == BlockComment(gs[|gs| - 1].text, false)
  }

  lemma {:induction false} UnterminatedRest(s: string)
    requires s != []
    ensures var g := NextSegment(s);
            var rest := s[|g.text|..];
            && (rest != [] ==> (Unterminated(s) <==> Unterminated(rest)) && g != BlockComment(g.text, false))
            && (rest == [] ==> (Unterminated(s) <==> g == BlockComment(g.text, false)))
  {
    var g := NextSegment(s);
    var rest := s[|g.text|..];
    assert Lex(s) == [g] + Lex(rest);
    if rest != [] { assert Lex(rest) != []; }
  }

  predicate Unclosed(g: Segment) { g.BlockComment? && !g.closed }

  lemma BlankedPointwise(g: Segment, k: nat)
    ensures |Blanked(g)| == |g.text| + (if Unclosed(g) then 2 else 0)
    ensures k < |g.text| ==> Blanked(g)[k] == (if IsComment(g) && g.text[k] != '\n' then ' ' else g.text[k])
    ensures |g.text| <= k < |Blanked(g)| ==> Blanked(g)[k] == ' '
  {
  }

  /** Every position keeps its character unless a comment covers it; there, newlines stay and
      everything else becomes a space. The length is kept too, but for two spaces after a block
      comment that never closes. */
  lemma {:induction false} StripPointwise(s: string, k: nat)
    ensures |Strip(s)| == |s| + (if Unterminated(s) then 2 else 0)
    ensures k < |s| ==> Strip(s)[k] == (if IsComment(SegmentAt(s, k)) && s[k] != '\n' then ' ' else s[k])
    ensures |s| <= k < |Strip(s)| ==> Strip(s)[k] == ' '
    decreases |s|
  {
    if s != [] {
      var g := NextSegment(s);
      var n, head := |g.text|, Blanked(g);
      var rest := s[n..];
      StripPointwise(rest, if k >= n then k - n else 0);
      UnterminatedRest(s);
      BlankedPointwise(g, k);
      assert Strip(s) == head + Strip(rest);
      if rest == [] { assert Strip(s) == head; }
    }
  }

  /** Line numbers computed on the output are those of the input. */
  function LineOf(s: string, index: nat): nat
    requires index <= |s|
  {
    if index == 0 then 1 else LineOf(s, index - 1) + (if s[index - 1] == '\n' then 1 else 0)
  }

  lemma {:induction false} SameNewlinesSameLines(s: string, r: string, index: nat)
    requires index <= |s| && index <= |r|
    requires forall k :: 0 <= k < index ==> (s[k] == '\n' <==> r[k] == '\n')
    ensures LineOf(s, index) == LineOf(r, index)
  {
    if index > 0 { SameNewlinesSameLines(s, r, index - 1); }
  }

  lemma {:induction false} LinesKept(s: string, index: nat)
    requires index <= |s|
    ensures index <= |Strip(s)| && LineOf(Strip(s), index) == LineOf(s, index)
  {
    var r := Strip(s);
    StripPointwise(s, 0);
    forall k | 0 <= k < index ensures s[k] == '\n' <==> r[k] == '\n' { StripPointwise(s, k); }
    SameNewlinesSameLines(s, r, index);
  }

  // ---------------------------------------------------------------- idempotence

  predicate IsBlank(w: string) { forall k :: 0 <= k < |w| ==> w[k] == ' ' || w[k] == '\n' }

  lemma {:induction false} StripSplits(t: string, x: string, g: Segment)
    requires t != [] && NextSegment(t + x) == g && |g.text| == |t|
    ensures Strip(t + x) == Blanked(g) + Strip(x)
  {
    assert (t + x)[|t|..] == x;
  }

  lemma {:induction false} BlankPassesThrough(w: string, x: string)
    requires IsBlank(w)
    ensures Strip(w + x) == w + Strip(x)
    decreases |w|
  {
    if w == [] {
      assert w + x == x;
    } else {
      BlankPassesThrough(w[1..], x);
      var c, rest := [w[0]], w[1..];
      assert w == c + rest;
      Assoc(c, rest, x);
      StripSplits(c, rest + x, Code(c));
      Assoc(c, rest, Strip(x));
    }
  }

  lemma {:induction false} ClosedLiteralAgain(q: char, body: string, x: string)
    requires IsQuote(q) && LiteralBody(body, q)
    ensures var t := [q] + body + [q]; NextSegment(t + x) == Literal(t)
  {
    var t := [q] + body + [q];
    assert (t + x)[1..] == body + [q] + x;
    ClosedLiteral(body, q, x);
    assert (t + x)[..|t|] == t;
  }

  /** A literal is recognised again whatever follows it, if it is closed or nothing follows. */
  lemma {:induction false} LiteralPassesThrough(s: string, x: string)
    requires s != [] && IsQuote(s[0])
    requires 1 + SkipLen(s[1..], s[0]) <= |s| || x == []
    ensures var t := s[..Min(1 + SkipLen(s[1..], s[0]), |s|)]; Strip(t + x) == t + Strip(x)
  {
    var q, m := s[0], SkipLen(s[1..], s[0]);
    var t := s[..Min(1 + m, |s|)];
    if 1 + m <= |s| {
      SkippedIsLiteral(s[1..], q);
      var body := s[1..][..m - 1];
      assert t == [q] + body + [q];
      ClosedLiteralAgain(q, body, x);
    } else {
      assert t == s && t + x == s;
    }
    StripSplits(t, x, Literal(t));
  }

  /** A code character is recognised again: a slash is never joined to the next one. */
  lemma {:induction false} CodePassesThrough(s: string, x: string)
    requires s != [] && NextSegment(s).Code?
    requires x != [] ==> |s| > 1 && (x[0] == s[1] || x[0] == ' ')
    ensures Strip([s[0]] + x) == [s[0]] + Strip(x)
  {
    StripSplits([s[0]], x, Code([s[0]]));
  }

  /** Stripping twice is stripping once. */
  lemma {:induction false} StripIdempotent(s: string)
    ensures Strip(Strip(s)) == Strip(s)
    decreases |s|
  {
    if s != [] {
      var g := NextSegment(s);
      var rest := s[|g.text|..];
      var x := Strip(rest);
      StripIdempotent(rest);
      match g
      case Code(t) =>
        StripPointwise(rest, 0);
        CodePassesThrough(s, x);
        assert t == [s[0]];
      case Literal(t) => LiteralPassesThrough(s, x);
      case LineComment(t) => BlankPassesThrough(Blanks(t), x);
      case BlockComment(t, closed) => BlankPassesThrough(Blanked(g), x);
    }
  }

  // ---------------------------------------------------------------- which characters matter

  /** What begins where: comments by their two characters, literals by one of the three quotes, and
      anything else is a character of code. */
  lemma SegmentKinds(s: string)
    requires s != []
    ensures var g := NextSegment(s);
            && (g.LineComment? <==> |s| >= 2 && s[0] as int == 47 && s[1] as int == 47)
            && (g.BlockComment? <==> |s| >= 2 && s[0] as int == 47 && s[1] as int == 42)
            && (g.Literal? <==> (s[0] as int) in {34, 39, 96})
            && (g.Code? ==> g.text == [s[0]])
            && (g.LineComment? ==> g.text == s[..LineLen(s)])
  {
  }

  /** Newlines up to an index, by position; line numbers start at one. */
  lemma {:induction false} LineOfCounts(s: string, index: nat)
    requires index <= |s|
    ensures LineOf(s, index) == 1 + |set k | 0 <= k < index && s[k] == '\n'|
  {
    if index > 0 {
      LineOfCounts(s, index - 1);
      var was := set k | 0 <= k < index - 1 && s[k] == '\n';
      var now := set k | 0 <= k < index && s[k] == '\n';
      assert now == was + if s[index - 1] == '\n' then {index - 1} else {};
    }
  }

  /** How a literal is left: by its own quote, never by one behind a backslash. */
  lemma SkipStepExactly(s: string, quote: char)
    requires s != [] && quote as int != 92
    ensures s[0] == quote ==> SkipLen(s, quote) == 1
    ensures s[0] as int == 92 && |s| >= 2 ==> SkipLen(s, quote) == 2 + SkipLen(s[2..], quote)
    ensures s[0] as int != 92 && s[0] != quote ==> SkipLen(s, quote) == 1 + SkipLen(s[1..], quote)
  {
  }
}
