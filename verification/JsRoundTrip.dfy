/**
 Printing a list of arguments inside parentheses and reading it back: the bracket matcher
 finds the closing parenthesis and the splitter returns exactly the list.
 */
module JsRoundTrip {
  import opened Basics
  import opened JsScanner
  import opened JsArgs

  // ---------------------------------------------------------------- well-bracketed text

  /** A plain character, a closed string literal, or a bracketed group. */
  datatype Item = Plain(c: char) | Quoted(quote: char, body: string) | Group(open: char, inner: seq<Item>)

  predicate Wf(x: Item)
    decreases x, 1
  {
    match x
    case Plain(c) => !IsQuote(c) && !IsOpen(c) && !IsClose(c)
    case Quoted(q, body) => IsQuote(q) && LiteralBody(body, q)
    case Group(open, inner) => IsOpen(open) && WfAll(inner)
  }

  predicate WfAll(xs: seq<Item>)
    decreases xs, 0
  {
    xs == [] || (Wf(xs[0]) && WfAll(xs[1..]))
  }

  function Print(x: Item): string
    requires Wf(x)
    decreases x, 1
  {
    match x
    case Plain(c) => [c]
    case Quoted(q, body) => [q] + body + [q]
    case Group(open, inner) => [open] + PrintAll(inner) + [Closer(open)]
  }

  function PrintAll(xs: seq<Item>): string
    requires WfAll(xs)
    decreases xs, 0
  {
    if xs == [] then [] else Print(xs[0]) + PrintAll(xs[1..])
  }

  /** Commas may only occur inside groups and literals. */
  predicate NoTopComma(xs: seq<Item>)
  {
    forall i :: 0 <= i < |xs| ==> xs[i] != Plain(',')
  }

  lemma {:induction false} QuotedLen(q: char, body: string, rest: string)
    requires IsQuote(q) && LiteralBody(body, q)
    ensures var s := [q] + body + [q] + rest;
            LiteralLen(s) == |body| + 2 && s[..|body| + 2] == [q] + body + [q] && s[|body| + 2..] == rest
  {
    var s := [q] + body + [q] + rest;
    assert s[1..] == body + [q] + rest;
    ClosedLiteral(body, q, rest);
  }

  // ---------------------------------------------------------------- the matcher passes over it

  predicate Awaited(stack: string) { stack != [] && forall k :: 0 <= k < |stack| ==> IsClose(stack[k]) }

  lemma {:induction false} MatchItem(x: Item, rest: string, stack: string)
    requires Wf(x) && Awaited(stack)
    ensures MatchLen(Print(x) + rest, stack) == |Print(x)| + MatchLen(rest, stack)
    decreases x, 1
  {
    var s := Print(x) + rest;
    match x
    case Plain(c) => assert s[1..] == rest;
    case Quoted(q, body) => QuotedLen(q, body, rest);
    case Group(open, inner) =>
      var tail := [Closer(open)] + rest;
      assert s[1..] == PrintAll(inner) + tail;
      MatchItems(inner, tail, stack + [Closer(open)]);
      assert tail[1..] == rest && Pop(stack + [Closer(open)]) == stack;
  }

  lemma {:induction false} MatchItems(xs: seq<Item>, rest: string, stack: string)
    requires WfAll(xs) && Awaited(stack)
    ensures MatchLen(PrintAll(xs) + rest, stack) == |PrintAll(xs)| + MatchLen(rest, stack)
    decreases xs, 0
  {
    if xs == [] {
      assert PrintAll(xs) + rest == rest;
    } else {
      Assoc(Print(xs[0]), PrintAll(xs[1..]), rest);
      MatchItem(xs[0], PrintAll(xs[1..]) + rest, stack);
      MatchItems(xs[1..], rest, stack);
    }
  }

  // ---------------------------------------------------------------- the splitter passes over it

  lemma {:induction false} PiecesCloser(open: char, rest: string, depth: nat)
    requires IsOpen(open)
    ensures Pieces([Closer(open)] + rest, depth + 1) == Grow([Closer(open)], Pieces(rest, depth))
  {
    assert ([Closer(open)] + rest)[1..] == rest;
  }

  lemma {:induction false} PiecesOpener(open: char, rest: string, depth: nat)
    requires IsOpen(open)
    ensures Pieces([open] + rest, depth) == Grow([open], Pieces(rest, depth + 1))
  {
    assert ([open] + rest)[1..] == rest;
  }

  lemma {:induction false} PiecesGroup(open: char, mid: string, rest: string, depth: nat)
    requires IsOpen(open)
    requires var tail := [Closer(open)] + rest; Pieces(mid + tail, depth + 1) == Grow(mid, Pieces(tail, depth + 1))
    ensures var t := [open] + mid + [Closer(open)]; Pieces(t + rest, depth) == Grow(t, Pieces(rest, depth))
  {
    var closer, ps := [Closer(open)], Pieces(rest, depth);
    assert [open] + mid + closer + rest == [open] + (mid + (closer + rest));
    PiecesOpener(open, mid + (closer + rest), depth);
    PiecesCloser(open, rest, depth);
    GrowTwice(mid, closer, ps);
    GrowTwice([open], mid + closer, ps);
    Assoc([open], mid, closer);
  }

  lemma {:induction false} PiecesItem(x: Item, rest: string, depth: nat)
    requires Wf(x) && (depth > 0 || x != Plain(','))
    ensures Pieces(Print(x) + rest, depth) == Grow(Print(x), Pieces(rest, depth))
    decreases x, 1
  {
    match x
    case Plain(c) => assert ([c] + rest)[1..] == rest;
    case Quoted(q, body) => QuotedLen(q, body, rest);
    case Group(open, inner) =>
      PiecesItems(inner, [Closer(open)] + rest, depth + 1);
      PiecesGroup(open, PrintAll(inner), rest, depth);
  }

  lemma {:induction false} PiecesItems(xs: seq<Item>, rest: string, depth: nat)
    requires WfAll(xs) && (depth > 0 || NoTopComma(xs))
    ensures Pieces(PrintAll(xs) + rest, depth) == Grow(PrintAll(xs), Pieces(rest, depth))
    decreases xs, 0
  {
    if xs == [] {
      assert PrintAll(xs) + rest == rest;
      GrowNothing(Pieces(rest, depth));
    } else {
      var more := PrintAll(xs[1..]);
      Assoc(Print(xs[0]), more, rest);
      PiecesItem(xs[0], more + rest, depth);
      PiecesItems(xs[1..], rest, depth);
      GrowTwice(Print(xs[0]), more, Pieces(rest, depth));
    }
  }

  // ---------------------------------------------------------------- stack and counter agree

  /** Both scans in lockstep over the same text: at every step the height of the matcher's stack,
      less one for the bracket it was started on, is the splitter's depth. */
  ghost predicate Agree(s: string, stack: string, depth: int)
    decreases |s|
  {
    && |stack| == depth + 1
    && (s == [] ||
        if IsQuote(s[0]) then Agree(s[Min(LiteralLen(s), |s|)..], stack, depth)
        else
          var stack' := if IsOpen(s[0]) then stack + [Closer(s[0])]
                        else if stack != [] && s[0] == stack[|stack| - 1] then Pop(stack)
                        else stack;
          Agree(s[1..], stack', DepthAfter(s[0], depth)))
  }

  lemma {:induction false} AgreeGroupEnds(open: char, rest: string, stack: string, depth: int)
    requires IsOpen(open) && Agree(rest, stack, depth)
    ensures Agree([Closer(open)] + rest, stack + [Closer(open)], depth + 1)
  {
    assert ([Closer(open)] + rest)[1..] == rest && Pop(stack + [Closer(open)]) == stack;
  }

  lemma {:induction false} AgreeGroup(open: char, mid: string, rest: string, stack: string, depth: int)
    requires IsOpen(open) && |stack| == depth + 1
    requires Agree(mid + ([Closer(open)] + rest), stack + [Closer(open)], depth + 1)
    ensures Agree([open] + mid + [Closer(open)] + rest, stack, depth)
  {
    var s := [open] + mid + [Closer(open)] + rest;
    assert s[0] == open;
    assert s[1..] == mid + ([Closer(open)] + rest);
  }

  lemma {:induction false} AgreeItem(x: Item, rest: string, stack: string, depth: int)
    requires Wf(x) && Awaited(stack) && Agree(rest, stack, depth)
    ensures Agree(Print(x) + rest, stack, depth)
    decreases x, 1
  {
    var s := Print(x) + rest;
    match x
    case Plain(c) => assert s[1..] == rest;
    case Quoted(q, body) => QuotedLen(q, body, rest);
    case Group(open, inner) =>
      var tail := [Closer(open)] + rest;
      var inside := stack + [Closer(open)];
      AgreeGroupEnds(open, rest, stack, depth);
      AgreeItems(inner, tail, inside, depth + 1);
      AgreeGroup(open, PrintAll(inner), rest, stack, depth);
  }

  /** On well-bracketed text the bracket stack and the depth counter never disagree. */
  lemma {:induction false} AgreeItems(xs: seq<Item>, rest: string, stack: string, depth: int)
    requires WfAll(xs) && Awaited(stack) && Agree(rest, stack, depth)
    ensures Agree(PrintAll(xs) + rest, stack, depth)
    decreases xs, 0
  {
    if xs == [] {
      assert PrintAll(xs) + rest == rest;
    } else {
      AgreeItems(xs[1..], rest, stack, depth);
      AgreeItem(xs[0], PrintAll(xs[1..]) + rest, stack, depth);
      Assoc(Print(xs[0]), PrintAll(xs[1..]), rest);
    }
  }

  // ---------------------------------------------------------------- arguments

  /** An argument with the white space printed around it. */
  datatype Arg = Arg(before: string, items: seq<Item>, after: string)

  /** Trimmed, well bracketed, without a comma of its own; possibly empty. */
  predicate WfArg(a: Arg)
  {
    && AllSpace(a.before) && AllSpace(a.after) && WfAll(a.items) && NoTopComma(a.items)
    && var v := PrintAll(a.items); v != [] ==> !IsSpace(v[0]) && !IsSpace(v[|v| - 1])
  }

  predicate WfArgs(args: seq<Arg>) { forall i :: 0 <= i < |args| ==> WfArg(args[i]) }

  function ArgText(a: Arg): string
    requires WfArg(a)
  {
    a.before + PrintAll(a.items) + a.after
  }

  function ArgsText(args: seq<Arg>): string
    requires WfArgs(args)
  {
    if args == [] then [] else if |args| == 1 then ArgText(args[0])
    else ArgText(args[0]) + "," + ArgsText(args[1..])
  }

  /** The arguments themselves. */
  function Values(args: seq<Arg>): seq<string>
    requires WfArgs(args)
  {
    seq(|args|, i requires 0 <= i < |args| => PrintAll(args[i].items))
  }

  /** What reading returns: the arguments, empty ones included, but for an empty one at the end. In
      particular a list of non-empty arguments comes back exactly. */
  function Returned(args: seq<Arg>): seq<string>
    requires WfArgs(args)
  {
    var vs := Values(args);
    if vs != [] && vs[|vs| - 1] == [] then vs[..|vs| - 1] else vs
  }

  // ---------------------------------------------------------------- argument text as items

  function Spaces(w: string): (xs: seq<Item>)
    ensures |xs| == |w| && forall i :: 0 <= i < |w| ==> xs[i] == Plain(w[i])
  {
    seq(|w|, i requires 0 <= i < |w| => Plain(w[i]))
  }

  lemma {:induction false} SpacesPrint(w: string)
    requires AllSpace(w)
    ensures WfAll(Spaces(w)) && PrintAll(Spaces(w)) == w && NoTopComma(Spaces(w))
  {
    if w != [] {
      SpacesPrint(w[1..]);
      assert Spaces(w)[1..] == Spaces(w[1..]);
      assert [w[0]] + w[1..] == w;
    }
  }

  lemma {:induction false} PrintConcat(xs: seq<Item>, ys: seq<Item>)
    requires WfAll(xs) && WfAll(ys)
    ensures WfAll(xs + ys) && PrintAll(xs + ys) == PrintAll(xs) + PrintAll(ys)
  {
    if xs == [] {
      assert xs + ys == ys;
    } else {
      PrintConcat(xs[1..], ys);
      assert (xs + ys)[1..] == xs[1..] + ys;
      Assoc(Print(xs[0]), PrintAll(xs[1..]), PrintAll(ys));
    }
  }

  function ArgItems(a: Arg): seq<Item> { Spaces(a.before) + a.items + Spaces(a.after) }

  lemma {:induction false} ArgItemsPrint(a: Arg)
    requires WfArg(a)
    ensures WfAll(ArgItems(a)) && NoTopComma(ArgItems(a)) && PrintAll(ArgItems(a)) == ArgText(a)
  {
    SpacesPrint(a.before);
    SpacesPrint(a.after);
    PrintConcat(Spaces(a.before), a.items);
    PrintConcat(Spaces(a.before) + a.items, Spaces(a.after));
  }

  /** The whole list as one well-bracketed text; here the separating commas are items too. */
  function ListItems(args: seq<Arg>): seq<Item>
  {
    if args == [] then [] else if |args| == 1 then ArgItems(args[0])
    else ArgItems(args[0]) + [Plain(',')] + ListItems(args[1..])
  }

  lemma {:induction false} ListItemsPrint(args: seq<Arg>)
    requires WfArgs(args)
    ensures WfAll(ListItems(args)) && PrintAll(ListItems(args)) == ArgsText(args)
  {
    if args != [] {
      ArgItemsPrint(args[0]);
      if |args| > 1 {
        var comma := [Plain(',')];
        ListItemsPrint(args[1..]);
        assert PrintAll(comma) == "," by { assert comma[1..] == []; }
        PrintConcat(ArgItems(args[0]), comma);
        PrintConcat(ArgItems(args[0]) + comma, ListItems(args[1..]));
      }
    }
  }

  // ---------------------------------------------------------------- trimming

  lemma {:induction false} TrimLeftSpaces(w: string, v: string)
    requires AllSpace(w) && v != [] && !IsSpace(v[0])
    ensures TrimLeft(w + v) == v
  {
    if w == [] { assert w + v == v; }
    else {
      TrimLeftSpaces(w[1..], v);
      assert (w + v)[1..] == w[1..] + v;
    }
  }

  lemma {:induction false} TrimRightSpaces(v: string, w: string)
    requires AllSpace(w) && v != [] && !IsSpace(v[|v| - 1])
    ensures TrimRight(v + w) == v
  {
    if w == [] { assert v + w == v; }
    else {
      TrimRightSpaces(v, w[..|w| - 1]);
      assert (v + w)[..|v + w| - 1] == v + w[..|w| - 1];
    }
  }

  lemma {:induction false} TrimArg(a: Arg)
    requires WfArg(a)
    ensures Trim(ArgText(a)) == PrintAll(a.items)
  {
    var v := PrintAll(a.items);
    if v == [] {
      assert a.before + v + a.after == a.before + a.after;
      TrimNothing(a.before + a.after);
    } else {
      Assoc(a.before, v, a.after);
      TrimLeftSpaces(a.before, v + a.after);
      TrimRightSpaces(v, a.after);
    }
  }

  lemma {:induction false} TrimNothing(w: string)
    requires AllSpace(w)
    ensures Trim(w) == []
  {
    if w != [] {
      TrimNothing(w[1..]);
    }
  }

  // ---------------------------------------------------------------- the round trip

  function ArgTexts(args: seq<Arg>): seq<string>
    requires WfArgs(args)
  {
    seq(|args|, i requires 0 <= i < |args| => ArgText(args[i]))
  }

  lemma {:induction false} PiecesAfterComma(t: string, more: string)
    ensures Grow(t, Pieces("," + more, 0)) == [t] + Pieces(more, 0)
  {
    assert ("," + more)[0] == ',' && ("," + more)[1..] == more;
    assert Pieces("," + more, 0) == [[]] + Pieces(more, 0);
    assert t + [] == t;
  }

  lemma {:induction false} PiecesOfList(args: seq<Arg>)
    requires WfArgs(args) && args != []
    ensures Pieces(ArgsText(args), 0) == ArgTexts(args)
  {
    var t := ArgText(args[0]);
    ArgItemsPrint(args[0]);
    if |args| == 1 {
      PiecesItems(ArgItems(args[0]), [], 0);
      assert t + [] == t;
      assert ArgTexts(args) == [t];
    } else {
      var more := ArgsText(args[1..]);
      PiecesOfList(args[1..]);
      PiecesItems(ArgItems(args[0]), "," + more, 0);
      Assoc(t, ",", more);
      PiecesAfterComma(t, more);
      assert ArgTexts(args) == [t] + ArgTexts(args[1..]);
    }
  }

  lemma {:induction false} SplitReturnsValues(args: seq<Arg>)
    requires WfArgs(args)
    ensures Args(ArgsText(args)) == Returned(args)
  {
    if args == [] {
      assert Pieces([], 0) == [[]] && TrimAll([[]]) == [[]];
    } else {
      PiecesOfList(args);
      var ps := TrimAll(ArgTexts(args));
      forall i | 0 <= i < |args| ensures ps[i] == Values(args)[i] { TrimArg(args[i]); }
      assert ps == Values(args);
      assert WfArg(args[|args| - 1]);
    }
  }

  /** From `open` on, the text is the list in parentheses, then anything. */
  ghost predicate CallText(src: string, open: nat, args: seq<Arg>)
  {
    WfArgs(args) && open < |src| && src[open] == '(' && ArgsText(args) + ")" <= src[open + 1..]
  }

  lemma {:induction false} MatcherFindsTheClose(args: seq<Arg>, post: string)
    requires WfArgs(args)
    ensures MatchLen(ArgsText(args) + (")" + post), ")") == |ArgsText(args)| + 1
  {
    ListItemsPrint(args);
    var rest := ")" + post;
    MatchItems(ListItems(args), rest, ")");
    assert rest[1..] == post && Pop(")") == [];
  }

  /** The inside of a call, as the source cuts it out. */
  function Inside(src: string, open: nat, close: nat): string
    requires open < |src|
  {
    src[open + 1..Max(Min(close, |src|), open + 1)]
  }

  /** Every list of trimmed, well-bracketed arguments without top-level commas, printed comma-separated in
      parentheses anywhere in a text, is found and read back; unchanged if its last one is not empty. */
  lemma {:induction false} RoundTrip(src: string, open: nat, args: seq<Arg>)
    requires CallText(src, open, args)
    ensures var close := open + MatchLen(src[open + 1..], [Closer(src[open])]);
            && close == open + 1 + |ArgsText(args)| && close < |src| && src[close] == ')'
            && Args(Inside(src, open, close)) == Returned(args)
  {
    var text := ArgsText(args);
    var rest := src[open + 1..];
    var post := rest[|text| + 1..];
    assert rest == text + (")" + post);
    MatcherFindsTheClose(args, post);
    SplitReturnsValues(args);
    assert src[open + 1..open + 1 + |text|] == rest[..|text|] == text;
    assert src[open + 1 + |text|] == rest[|text|];
  }

  /** The bracket found and the arguments read are those of the printed list. */
  ghost predicate Reads(open: nat, close: nat, args: seq<string>, printed: seq<Arg>)
    requires WfArgs(printed)
  {
    && close == open + 1 + |ArgsText(printed)| && args == Returned(printed)
    && ((forall i :: 0 <= i < |printed| ==> PrintAll(printed[i].items) != []) ==> args == Values(printed))
  }

  /** The way a call is read: match the bracket, cut out the inside, split it. */
  method ReadCall(src: string, open: nat) returns (close: nat, args: seq<string>)
    requires open < |src| && IsOpen(src[open])
    ensures args == Args(Inside(src, open, close))
    ensures forall printed :: CallText(src, open, printed) ==> Reads(open, close, args, printed)
  {
    close := MatchClose(src, open);
    args := SplitArgs(Inside(src, open, close));
    forall printed | CallText(src, open, printed) ensures Reads(open, close, args, printed)
    {
      RoundTrip(src, open, printed);
    }
  }
}
