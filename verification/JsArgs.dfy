/**
 Call arguments in the route extractor: finding the bracket that closes a call, and
 splitting what is inside on top-level commas.
 */
module JsArgs {
  import opened Basics
  import opened JsScanner

  predicate IsOpen(c: char) { c == '(' || c == '[' || c == '{' }
  predicate IsClose(c: char) { c == ')' || c == ']' || c == '}' }

  function Closer(c: char): char
    requires IsOpen(c)
  {
    if c == '(' then ')' else if c == '[' then ']' else '}'
  }

  /** The six brackets: what opens, what closes it, and nothing else counts. */
  lemma BracketsExactly(c: char, depth: int)
    ensures IsOpen(c) <==> (c as int) in {40, 91, 123}
    ensures IsClose(c) <==> (c as int) in {41, 93, 125}
    ensures IsOpen(c) ==> (Closer(c) as int) == if c as int == 40 then 41 else c as int + 2
    ensures DepthAfter(c, depth) == depth + (if (c as int) in {40, 91, 123} then 1 else 0)
                                          - (if (c as int) in {41, 93, 125} then 1 else 0)
  {
  }

  /** Length of the literal at the head of `s`, unclamped. */
  function LiteralLen(s: string): (n: nat)
    requires s != [] && IsQuote(s[0])
    ensures n > 1
  {
    1 + SkipLen(s[1..], s[0])
  }

  /** Where the literal at `i` ends, within the text. */
  function LiteralEnd(text: string, i: nat): (j: nat)
    requires i < |text| && IsQuote(text[i])
    ensures i < j <= |text|
  {
    Min(i + 1 + SkipLen(text[i + 1..], text[i]), |text|)
  }

  lemma TailSlices(text: string, i: nat, j: nat)
    requires i <= j <= |text|
    ensures text[i..][..j - i] == text[i..j]
    ensures text[i..][j - i..] == text[j..]
  {
  }

  lemma {:induction false} LiteralEndIsLength(text: string, i: nat)
    requires i < |text| && IsQuote(text[i])
    ensures Min(LiteralLen(text[i..]), |text| - i) == LiteralEnd(text, i) - i
  {
    TailSlices(text, i, i + 1);
  }

  // ---------------------------------------------------------------- matching brackets

  function Pop(stack: string): string
    requires stack != []
  {
    stack[..|stack| - 1]
  }

  /** How many characters the scan consumes until its stack of awaited closers is empty. */
  function MatchLen(s: string, stack: string): nat
    decreases |s|
  {
    if stack == [] || s == [] then 0
    else if IsQuote(s[0]) then LiteralLen(s) + MatchLen(s[Min(LiteralLen(s), |s|)..], stack)
    else if IsOpen(s[0]) then 1 + MatchLen(s[1..], stack + [Closer(s[0])])
    else if s[0] == stack[|stack| - 1] then 1 + MatchLen(s[1..], Pop(stack))
    else 1 + MatchLen(s[1..], stack)
  }

  /** One step of the scan at `i`. */
  lemma {:induction false} MatchStep(src: string, i: nat, stack: string)
    requires i < |src| && stack != []
    ensures IsQuote(src[i]) ==>
              MatchLen(src[i..], stack) ==
                1 + SkipLen(src[i + 1..], src[i]) + MatchLen(src[LiteralEnd(src, i)..], stack)
    ensures !IsQuote(src[i]) ==>
              MatchLen(src[i..], stack) ==
                1 + MatchLen(src[i + 1..], if IsOpen(src[i]) then stack + [Closer(src[i])]
                                           else if src[i] == stack[|stack| - 1] then Pop(stack) else stack)
  {
    TailSlices(src, i, i + 1);
    if IsQuote(src[i]) {
      LiteralEndIsLength(src, i);
      TailSlices(src, i, LiteralEnd(src, i));
    }
  }

  /** What each character does to the brackets awaited, innermost last: an opening one is awaited to
      close, the innermost awaited one is found, and any other closing bracket is passed over. */
  lemma MatchStepExactly(s: string, stack: string)
    requires s != [] && stack != [] && (s[0] as int) !in {34, 39, 96}
    ensures s[0] == '(' ==> MatchLen(s, stack) == 1 + MatchLen(s[1..], stack + ")")
    ensures s[0] == '[' ==> MatchLen(s, stack) == 1 + MatchLen(s[1..], stack + "]")
    ensures s[0] == '{' ==> MatchLen(s, stack) == 1 + MatchLen(s[1..], stack + "}")
    ensures (s[0] as int) !in {40, 91, 123} && s[0] != stack[|stack| - 1] ==>
              MatchLen(s, stack) == 1 + MatchLen(s[1..], stack)
    ensures (s[0] as int) !in {40, 91, 123} && s[0] == stack[|stack| - 1] ==>
              MatchLen(s, stack) == 1 + MatchLen(s[1..], stack[..|stack| - 1])
  {
  }

  /** The scan stands at `i`, possibly past the end, and will end at `total`. */
  ghost predicate Scanning(src: string, i: nat, stack: string, total: nat)
  {
    i + MatchLen(src[Min(i, |src|)..], stack) == total
  }

  lemma {:induction false} ScanLiteral(src: string, i: nat, stack: string, total: nat, end: nat)
    requires Scanning(src, i, stack, total) && i < |src| && stack != [] && IsQuote(src[i])
    requires end == i + 1 + SkipLen(src[i + 1..], src[i])
    ensures Scanning(src, end, stack, total)
  {
    MatchStep(src, i, stack);
  }

  lemma {:induction false} ScanChar(src: string, i: nat, stack: string, total: nat, stack': string)
    requires Scanning(src, i, stack, total) && i < |src| && stack != [] && !IsQuote(src[i])
    requires stack' == if IsOpen(src[i]) then stack + [Closer(src[i])]
                       else if src[i] == stack[|stack| - 1] then Pop(stack) else stack
    ensures Scanning(src, i + 1, stack', total)
  {
    MatchStep(src, i, stack);
  }

  lemma {:induction false} ScanEnds(src: string, i: nat, stack: string, total: nat)
    requires Scanning(src, i, stack, total) && (i >= |src| || stack == [])
    ensures i == total
  {
  }

  /** Given the index of an opening bracket, returns the index of its match. */
  method MatchClose(src: string, open: nat) returns (close: nat)
    requires open < |src| && IsOpen(src[open])
    ensures close == open + MatchLen(src[open + 1..], [Closer(src[open])])
  {
    ghost var total := open + 1 + MatchLen(src[open + 1..], [Closer(src[open])]);
    var stack := [Closer(src[open])];
    var i := open + 1;
    while i < |src| && |stack| > 0
      invariant open < i && Scanning(src, i, stack, total)
      decreases |src| - i
    {
      var c := src[i];
      if IsQuote(c) {
        var end := SkipString(src, i);
        ScanLiteral(src, i, stack, total, end);
        i := end;
      } else {
        ghost var before := stack;
        if IsOpen(c) {
          stack := stack + [Closer(c)];
        } else if c == stack[|stack| - 1] {
          stack := stack[..|stack| - 1];
        }
        ScanChar(src, i, before, total, stack);
        i := i + 1;
      }
    }
    ScanEnds(src, i, stack, total);
    close := i - 1;
  }

  // ---------------------------------------------------------------- splitting on commas

  function Grow(t: string, pieces: seq<string>): seq<string>
    requires pieces != []
  {
    [t + pieces[0]] + pieces[1..]
  }

  function DepthAfter(c: char, depth: int): int
  {
    if IsOpen(c) then depth + 1 else if IsClose(c) then depth - 1 else depth
  }

  /** The untrimmed pieces between top-level commas, starting at a given depth. */
  function Pieces(s: string, depth: int): (r: seq<string>)
    ensures r != []
    decreases |s|
  {
    if s == [] then [[]]
    else if IsQuote(s[0]) then
      var n := Min(LiteralLen(s), |s|);
      Grow(s[..n], Pieces(s[n..], depth))
    else if s[0] == ',' && depth == 0 then [[]] + Pieces(s[1..], depth)
    else Grow([s[0]], Pieces(s[1..], DepthAfter(s[0], depth)))
  }

  function TrimLeft(s: string): string
  {
    if s != [] && IsSpace(s[0]) then TrimLeft(s[1..]) else s
  }

  function TrimRight(s: string): string
  {
    if s != [] && IsSpace(s[|s| - 1]) then TrimRight(s[..|s| - 1]) else s
  }

  function Trim(s: string): string { TrimRight(TrimLeft(s)) }

  function TrimAll(pieces: seq<string>): (r: seq<string>)
    ensures |r| == |pieces|
    ensures forall i :: 0 <= i < |pieces| ==> r[i] == Trim(pieces[i])
  {
    if pieces == [] then [] else [Trim(pieces[0])] + TrimAll(pieces[1..])
  }

  /** Every piece before a comma counts, even an empty one; the last only when it is not empty. */
  function DropEmptyLast(ps: seq<string>): seq<string>
    requires ps != []
  {
    if ps[|ps| - 1] == [] then ps[..|ps| - 1] else ps
  }

  function Args(text: string): seq<string> { DropEmptyLast(TrimAll(Pieces(text, 0))) }

  lemma GrowNothing(pieces: seq<string>)
    requires pieces != []
    ensures Grow([], pieces) == pieces
  {
    assert [] + pieces[0] == pieces[0];
  }

  lemma GrowTwice(t: string, u: string, pieces: seq<string>)
    requires pieces != []
    ensures Grow(t, Grow(u, pieces)) == Grow(t + u, pieces)
  {
    assert t + (u + pieces[0]) == (t + u) + pieces[0];
  }

  lemma {:induction false} CharPiece(text: string, i: nat, depth: int)
    requires i < |text| && !IsQuote(text[i]) && !(text[i] == ',' && depth == 0)
    ensures Pieces(text[i..], depth) == Grow(text[i..i + 1], Pieces(text[i + 1..], DepthAfter(text[i], depth)))
  {
    assert text[i..][1..] == text[i + 1..] && [text[i]] == text[i..i + 1];
  }

  lemma {:induction false} LiteralPiece(text: string, i: nat, depth: int, j: nat)
    requires i < |text| && IsQuote(text[i]) && j == LiteralEnd(text, i)
    ensures Pieces(text[i..], depth) == Grow(text[i..j], Pieces(text[j..], depth))
  {
    LiteralEndIsLength(text, i);
    TailSlices(text, i, j);
  }

  /** Where pieces are cut: at a comma outside all brackets, and only there. */
  lemma PiecesStepExactly(s: string, depth: int)
    requires s != [] && (s[0] as int) !in {34, 39, 96}
    ensures s[0] == ',' && depth == 0 ==> Pieces(s, depth) == [""] + Pieces(s[1..], 0)
    ensures s[0] != ',' || depth != 0 ==>
              |Pieces(s, depth)| == |Pieces(s[1..], DepthAfter(s[0], depth))|
              && Pieces(s, depth)[0] == [s[0]] + Pieces(s[1..], DepthAfter(s[0], depth))[0]
  {
  }

  // ---------------------------------------------------------------- the splitting loop

  /** What the loop still returns from index `i`, depth `depth`, with an argument begun at `start`. */
  function SplitFrom(text: string, i: nat, start: nat, depth: int): seq<string>
    requires start <= i && start <= |text|
    decreases |text| - i
  {
    if i >= |text| then
      var last := Trim(text[start..]);
      if last == [] then [] else [last]
    else if IsQuote(text[i]) then SplitFrom(text, i + 1 + SkipLen(text[i + 1..], text[i]), start, depth)
    else if text[i] == ',' && depth == 0 then [Trim(text[start..i])] + SplitFrom(text, i + 1, i + 1, 0)
    else SplitFrom(text, i + 1, start, DepthAfter(text[i], depth))
  }

  /** Splits an argument list on top-level commas. */
  method SplitArgs(text: string) returns (args: seq<string>)
    ensures args == Args(text)
  {
    args := [];
    var depth, start, i := 0, 0, 0;
    while i < |text|
      invariant start <= i && start <= |text|
      invariant args + SplitFrom(text, i, start, depth) == SplitFrom(text, 0, 0, 0)
      decreases |text| - i
    {
      var c := text[i];
      if IsQuote(c) {
        i := SkipString(text, i);
      } else if c == ',' && depth == 0 {
        args := args + [Trim(text[start..i])];
        i := i + 1;
        start := i;
      } else {
        depth := DepthAfter(c, depth);
        i := i + 1;
      }
    }
    var last := Trim(text[start..]);
    if last != [] {
      args := args + [last];
    }
    SplitFromStart(text);
  }

  /** The arguments in `pieces`, the first of which continues `t`. */
  function Kept(t: string, pieces: seq<string>): seq<string>
    requires pieces != []
  {
    DropEmptyLast(TrimAll(Grow(t, pieces)))
  }

  lemma KeptGrow(t: string, u: string, pieces: seq<string>)
    requires pieces != []
    ensures Kept(t, Grow(u, pieces)) == Kept(t + u, pieces)
  {
    GrowTwice(t, u, pieces);
  }

  lemma TrimAllCons(p: string, rest: seq<string>)
    ensures TrimAll([p] + rest) == [Trim(p)] + TrimAll(rest)
  {
    assert ([p] + rest)[1..] == rest;
  }

  lemma KeptCut(t: string, pieces: seq<string>)
    requires pieces != []
    ensures Kept(t, [[]] + pieces) == [Trim(t)] + Kept([], pieces)
  {
    assert t + [] == t;
    assert Grow(t, [[]] + pieces) == [t] + pieces;
    GrowNothing(pieces);
    TrimAllCons(t, pieces);
    DropCons(Trim(t), TrimAll(pieces));
  }

  lemma DropCons(p: string, ps: seq<string>)
    requires ps != []
    ensures DropEmptyLast([p] + ps) == [p] + DropEmptyLast(ps)
  {
    assert ([p] + ps)[..|ps|] == [p] + ps[..|ps| - 1];
  }

  lemma KeptLast(t: string)
    ensures Kept(t, [[]]) == if Trim(t) == [] then [] else [Trim(t)]
  {
    assert t + [] == t;
    assert Grow(t, [[]]) == [t];
    assert TrimAll([t]) == [Trim(t)];
  }

  lemma {:induction false} SplitEnd(text: string, i: nat, start: nat, depth: int)
    requires start <= |text| <= i
    ensures SplitFrom(text, i, start, depth) == Kept(text[start..|text|], Pieces([], depth))
  {
    assert text[start..|text|] == text[start..];
    KeptLast(text[start..]);
  }

  lemma JoinSlices(text: string, start: nat, i: nat, j: nat)
    requires start <= i <= j <= |text|
    ensures text[start..i] + text[i..j] == text[start..j]
  {
  }

  lemma {:induction false} SplitCollect(text: string, start: nat, i: nat, j: nat, rest: seq<string>)
    requires start <= i <= j <= |text| && rest != []
    ensures Kept(text[start..i], Grow(text[i..j], rest)) == Kept(text[start..j], rest)
  {
    JoinSlices(text, start, i, j);
    KeptGrow(text[start..i], text[i..j], rest);
  }

  lemma {:induction false} SplitCut(text: string, start: nat, i: nat)
    requires start <= i < |text| && text[i] == ','
    ensures Kept(text[start..i], Pieces(text[i..], 0)) ==
              [Trim(text[start..i])] + Kept(text[i + 1..i + 1], Pieces(text[i + 1..], 0))
  {
    TailSlices(text, i, i + 1);
    assert Pieces(text[i..], 0) == [[]] + Pieces(text[i + 1..], 0);
    assert text[i + 1..i + 1] == [];
    KeptCut(text[start..i], Pieces(text[i + 1..], 0));
  }

  /** From any point on, the loop returns the trimmed pieces of what is left. */
  lemma {:induction false} SplitFromIsKept(text: string, i: nat, start: nat, depth: int)
    requires start <= i <= |text|
    ensures SplitFrom(text, i, start, depth) == Kept(text[start..i], Pieces(text[i..], depth))
    decreases |text| - i, 1
  {
    if i == |text| {
      assert text[i..] == [];
      SplitEnd(text, i, start, depth);
    } else if IsQuote(text[i]) {
      SplitLiteral(text, i, start, depth, LiteralEnd(text, i));
    } else if text[i] == ',' && depth == 0 {
      SplitFromIsKept(text, i + 1, i + 1, 0);
      SplitCut(text, start, i);
    } else {
      var depth' := DepthAfter(text[i], depth);
      SplitFromIsKept(text, i + 1, start, depth');
      CharPiece(text, i, depth);
      SplitCollect(text, start, i, i + 1, Pieces(text[i + 1..], depth'));
    }
  }

  lemma {:induction false} SplitLiteral(text: string, i: nat, start: nat, depth: int, j: nat)
    requires start <= i < |text| && IsQuote(text[i]) && j == LiteralEnd(text, i)
    ensures SplitFrom(text, i, start, depth) == Kept(text[start..i], Pieces(text[i..], depth))
    decreases |text| - i, 0
  {
    LiteralPiece(text, i, depth, j);
    SplitCollect(text, start, i, j, Pieces(text[j..], depth));
    SplitFromIsKept(text, j, start, depth);
    if j == |text| {
      SplitEnd(text, i + 1 + SkipLen(text[i + 1..], text[i]), start, depth);
      SplitEnd(text, j, start, depth);
    }
  }

  lemma {:induction false} SplitFromStart(text: string)
    ensures SplitFrom(text, 0, 0, 0) == Args(text)
  {
    SplitFromIsKept(text, 0, 0, 0);
    assert text[0..] == text && text[0..0] == [];
    GrowNothing(Pieces(text, 0));
  }

  function Joined(pieces: seq<string>): string
    requires pieces != []
  {
    if |pieces| == 1 then pieces[0] else pieces[0] + "," + Joined(pieces[1..])
  }

  /** Whatever the text, splitting before trimming loses nothing. */
  lemma {:induction false} SplittingIsLossless(s: string, depth: int)
    ensures Joined(Pieces(s, depth)) == s
    decreases |s|
  {
    if s != [] {
      if IsQuote(s[0]) {
        var n := Min(LiteralLen(s), |s|);
        SplittingIsLossless(s[n..], depth);
        JoinedGrow(s[..n], Pieces(s[n..], depth));
        assert s[..n] + s[n..] == s;
      } else if s[0] == ',' && depth == 0 {
        SplittingIsLossless(s[1..], depth);
        assert ([[]] + Pieces(s[1..], depth))[1..] == Pieces(s[1..], depth);
        assert [] + "," + s[1..] == s;
      } else {
        SplittingIsLossless(s[1..], DepthAfter(s[0], depth));
        JoinedGrow([s[0]], Pieces(s[1..], DepthAfter(s[0], depth)));
        assert [s[0]] + s[1..] == s;
      }
    }
  }

  lemma {:induction false} JoinedGrow(t: string, pieces: seq<string>)
    requires pieces != []
    ensures Joined(Grow(t, pieces)) == t + Joined(pieces)
  {
    if |pieces| > 1 {
      var rest := Joined(pieces[1..]);
      assert Grow(t, pieces)[1..] == pieces[1..];
      assert (t + pieces[0]) + "," + rest == t + (pieces[0] + "," + rest);
    }
  }

  // ---------------------------------------------------------------- trimming

  predicate AllSpace(w: string) { forall k :: 0 <= k < |w| ==> IsSpace(w[k]) }

  lemma {:induction false} TrimLeftExact(s: string) returns (w: string)
    ensures s == w + TrimLeft(s) && AllSpace(w) && (TrimLeft(s) != [] ==> !IsSpace(TrimLeft(s)[0]))
  {
    if s != [] && IsSpace(s[0]) {
      w := TrimLeftExact(s[1..]);
      w := [s[0]] + w;
    } else {
      w := [];
    }
  }

  lemma {:induction false} TrimRightExact(s: string) returns (w: string)
    ensures s == TrimRight(s) + w && AllSpace(w)
    ensures TrimRight(s) != [] ==> !IsSpace(TrimRight(s)[|TrimRight(s)| - 1]) && TrimRight(s)[0] == s[0]
  {
    if s != [] && IsSpace(s[|s| - 1]) {
      w := TrimRightExact(s[..|s| - 1]);
      w := w + [s[|s| - 1]];
    } else {
      w := [];
    }
  }

  /** Trimming takes white space off both ends and nothing else, and leaves none there. */
  lemma {:induction false} TrimExact(s: string) returns (before: string, after: string)
    ensures s == before + Trim(s) + after && AllSpace(before) && AllSpace(after)
    ensures Trim(s) != [] ==> !IsSpace(Trim(s)[0]) && !IsSpace(Trim(s)[|Trim(s)| - 1])
  {
    before := TrimLeftExact(s);
    after := TrimRightExact(TrimLeft(s));
  }
}
