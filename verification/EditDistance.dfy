/**
 The edit distance behind the near-duplicate directory check. The table filled by the
 source takes the diagonal unconditionally on equal characters; everything below shows
 that its last cell is nevertheless the true minimum over all edit scripts, and a metric.
 */
module EditDistance {
  import opened Basics

  // ---------------------------------------------------------------- edit scripts

  /** One edit of a string, at any position. */
  datatype Edit = Ins(at: nat, c: char) | Del(at: nat) | Sub(at: nat, c: char)

  predicate Fits(e: Edit, a: string)
  {
    if e.Ins? then e.at <= |a| else e.at < |a|
  }

  function Edited(e: Edit, a: string): string
    requires Fits(e, a)
  {
    match e
    case Ins(i, c) => a[..i] + [c] + a[i..]
    case Del(i) => a[..i] + a[i + 1..]
    case Sub(i, c) => a[..i] + [c] + a[i + 1..]
  }

  /** The script, applied edit by edit, turns `a` into `b`. */
  ghost predicate Turns(script: seq<Edit>, a: string, b: string)
  {
    if script == [] then a == b
    else Fits(script[0], a) && Turns(script[1..], Edited(script[0], a), b)
  }

  // ---------------------------------------------------------------- the recurrence

  function Front(s: string): string requires s != [] { s[..|s| - 1] }
  function Last(s: string): char requires s != [] { s[|s| - 1] }

  function Min3(x: int, y: int, z: int): int { Min(x, Min(y, z)) }

  /** The cell of the table for two whole strings. */
  function Dist(a: string, b: string): (d: nat)
    decreases |a| + |b|
  {
    if a == [] then |b|
    else if b == [] then |a|
    else if Last(a) == Last(b) then Dist(Front(a), Front(b))
    else 1 + Min3(Dist(Front(a), Front(b)), Dist(Front(a), b), Dist(a, Front(b)))
  }

  function Neq(x: char, y: char): nat { if x == y then 0 else 1 }

  // ---------------------------------------------------------------- symmetry and bounds

  lemma {:induction false} Symmetric(a: string, b: string)
    ensures Dist(a, b) == Dist(b, a)
    decreases |a| + |b|
  {
    if a != [] && b != [] {
      Symmetric(Front(a), Front(b));
      Symmetric(Front(a), b);
      Symmetric(a, Front(b));
    }
  }

  lemma {:induction false} LengthBounds(a: string, b: string)
    ensures |a| - |b| <= Dist(a, b) && |b| - |a| <= Dist(a, b)
    ensures Dist(a, b) <= Max(|a|, |b|)
    decreases |a| + |b|
  {
    if a != [] && b != [] {
      LengthBounds(Front(a), Front(b));
      LengthBounds(Front(a), b);
      LengthBounds(a, Front(b));
    }
  }

  lemma {:induction false} ZeroIffEqual(a: string, b: string)
    ensures Dist(a, b) == 0 <==> a == b
    decreases |a| + |b|
  {
    if a != [] && b != [] {
      assert a == Front(a) + [Last(a)] && b == Front(b) + [Last(b)];
      ZeroIffEqual(Front(a), Front(b));
    }
  }

  // ---------------------------------------------------------------- the diagonal loses nothing

  /** Dropping the last character of the first string moves the distance by at most one. */
  lemma {:induction false} FrontCloseLeft(a: string, b: string)
    requires a != []
    ensures Dist(a, b) <= Dist(Front(a), b) + 1
    ensures Dist(Front(a), b) <= Dist(a, b) + 1
    decreases |a| + |b|
  {
    if b != [] {
      FrontCloseRight(Front(a), b);
      if Last(a) != Last(b) { FrontCloseLeft(a, Front(b)); }
    }
  }

  lemma {:induction false} FrontCloseRight(a: string, b: string)
    requires b != []
    ensures Dist(a, b) <= Dist(a, Front(b)) + 1
    ensures Dist(a, Front(b)) <= Dist(a, b) + 1
    decreases |a| + |b|
  {
    if a != [] {
      FrontCloseLeft(a, Front(b));
      if Last(a) != Last(b) { FrontCloseRight(Front(a), b); }
    }
  }

  /** Taking the diagonal on equal characters without comparing it with its neighbours gives
      exactly the textbook three-way minimum. */
  lemma {:induction false} DiagonalIsMinimal(a: string, b: string)
    requires a != [] && b != []
    ensures Dist(a, b) == Min3(Dist(Front(a), Front(b)) + Neq(Last(a), Last(b)),
                               Dist(Front(a), b) + 1, Dist(a, Front(b)) + 1)
  {
    FrontCloseLeft(a, Front(b));
    FrontCloseRight(Front(a), b);
  }

  // ---------------------------------------------------------------- triangle inequality

  lemma PrefixFront(a: string, i: nat)
    requires 0 < i <= |a|
    ensures Front(a[..i]) == a[..i - 1] && Last(a[..i]) == a[i - 1]
  {
  }

  /** Any table of numbers over prefix lengths, with the cost of pairing two characters. */
  type Grid = (nat, nat) -> int

  predicate MinAt(f: Grid, cost: Grid, i: nat, j: nat)
  {
    if i == 0 || j == 0 then f(i, j) == i + j
    else cost(i, j) >= 0 && f(i, j) == Min3(f(i - 1, j - 1) + cost(i, j), f(i - 1, j) + 1, f(i, j - 1) + 1)
  }

  predicate InBounds(f: Grid, i: nat, j: nat)
  {
    i - j <= f(i, j) && j - i <= f(i, j) && f(i, j) <= i + j
  }

  ghost predicate MinGrid(f: Grid, cost: Grid, m: nat, n: nat)
  {
    && (forall i: nat, j: nat :: i <= m && j <= n ==> MinAt(f, cost, i, j))
    && (forall i: nat, j: nat :: i <= m && j <= n ==> InBounds(f, i, j))
  }

  /** Three grids that follow the three-way minimum obey the triangle inequality: split on
      the last step of each of the two legs. */
  lemma {:induction false} GridTriangle(f: Grid, g: Grid, h: Grid, xy: Grid, yz: Grid, xz: Grid,
                                        l: nat, m: nat, n: nat, i: nat, j: nat, k: nat)
    requires MinGrid(f, xy, l, m) && MinGrid(g, yz, m, n) && MinGrid(h, xz, l, n)
    requires forall i: nat, j: nat, k: nat :: 0 < i <= l && 0 < j <= m && 0 < k <= n ==> xz(i, k) <= xy(i, j) + yz(j, k)
    requires i <= l && j <= m && k <= n
    ensures h(i, k) <= f(i, j) + g(j, k)
    decreases i + j + k
  {
    assert MinAt(f, xy, i, j) && MinAt(g, yz, j, k) && MinAt(h, xz, i, k);
    if i == 0 || j == 0 || k == 0 {
      assert InBounds(f, i, j) && InBounds(g, j, k) && InBounds(h, i, k);
    } else if f(i, j) == f(i - 1, j) + 1 {
      GridTriangle(f, g, h, xy, yz, xz, l, m, n, i - 1, j, k);
    } else if g(j, k) == g(j, k - 1) + 1 {
      GridTriangle(f, g, h, xy, yz, xz, l, m, n, i, j, k - 1);
    } else if f(i, j) == f(i, j - 1) + 1 {
      if g(j, k) == g(j - 1, k) + 1 { GridTriangle(f, g, h, xy, yz, xz, l, m, n, i, j - 1, k); }
      else { GridTriangle(f, g, h, xy, yz, xz, l, m, n, i, j - 1, k - 1); }
    } else {
      if g(j, k) == g(j - 1, k) + 1 { GridTriangle(f, g, h, xy, yz, xz, l, m, n, i - 1, j - 1, k); }
      else { GridTriangle(f, g, h, xy, yz, xz, l, m, n, i - 1, j - 1, k - 1); }
    }
  }

  function GridOf(a: string, b: string): Grid
  {
    (i: nat, j: nat) => if i <= |a| && j <= |b| then Dist(a[..i], b[..j]) else 0
  }

  function CostOf(a: string, b: string): Grid
  {
    (i: nat, j: nat) => if 0 < i <= |a| && 0 < j <= |b| then Neq(a[i - 1], b[j - 1]) else 0
  }

  lemma {:induction false} GridIsMinAt(a: string, b: string, i: nat, j: nat)
    requires i <= |a| && j <= |b|
    ensures MinAt(GridOf(a, b), CostOf(a, b), i, j)
  {
    var x, y := a[..i], b[..j];
    if 0 < i && 0 < j {
      PrefixFront(a, i);
      PrefixFront(b, j);
      DiagonalIsMinimal(x, y);
    }
  }

  lemma {:induction false} GridIsMin(a: string, b: string)
    ensures MinGrid(GridOf(a, b), CostOf(a, b), |a|, |b|)
  {
    forall i: nat, j: nat | i <= |a| && j <= |b|
      ensures MinAt(GridOf(a, b), CostOf(a, b), i, j)
    {
      GridIsMinAt(a, b, i, j);
    }
    forall i: nat, j: nat | i <= |a| && j <= |b|
      ensures InBounds(GridOf(a, b), i, j)
    {
      LengthBounds(a[..i], b[..j]);
    }
  }

  lemma {:induction false} Triangle(a: string, b: string, c: string)
    ensures Dist(a, c) <= Dist(a, b) + Dist(b, c)
  {
    GridIsMin(a, b);
    GridIsMin(b, c);
    GridIsMin(a, c);
    GridTriangle(GridOf(a, b), GridOf(b, c), GridOf(a, c), CostOf(a, b), CostOf(b, c), CostOf(a, c),
                 |a|, |b|, |c|, |a|, |b|, |c|);
    assert a[..|a|] == a && b[..|b|] == b && c[..|c|] == c;
  }

  // ---------------------------------------------------------------- no script is shorter

  /** A common tail does not matter. */
  lemma {:induction false} CommonTail(a: string, b: string, tail: string)
    ensures Dist(a + tail, b + tail) == Dist(a, b)
    decreases |tail|
  {
    if tail == [] {
      assert a + tail == a && b + tail == b;
    } else {
      assert Front(a + tail) == a + Front(tail) && Front(b + tail) == b + Front(tail);
      CommonTail(a, b, Front(tail));
    }
  }

  lemma {:induction false} OneEditCostsOne(e: Edit, a: string)
    requires Fits(e, a)
    ensures Dist(a, Edited(e, a)) <= 1
  {
    var p := a[..e.at];
    ZeroIffEqual(p, p);
    match e
    case Ins(i, c) =>
      assert a == p + a[i..] && Front(p + [c]) == p;
      CommonTail(p, p + [c], a[i..]);
      FrontCloseRight(p, p + [c]);
    case Del(i) =>
      assert a == p + [a[i]] + a[i + 1..] && Front(p + [a[i]]) == p;
      CommonTail(p + [a[i]], p, a[i + 1..]);
      FrontCloseLeft(p + [a[i]], p);
    case Sub(i, c) =>
      assert a == p + [a[i]] + a[i + 1..] && Front(p + [a[i]]) == p && Front(p + [c]) == p;
      CommonTail(p + [a[i]], p + [c], a[i + 1..]);
      DiagonalIsMinimal(p + [a[i]], p + [c]);
  }

  lemma {:induction false} NoShorterScript(script: seq<Edit>, a: string, b: string)
    requires Turns(script, a, b)
    ensures Dist(a, b) <= |script|
    decreases |script|
  {
    if script == [] {
      ZeroIffEqual(a, b);
    } else {
      var a' := Edited(script[0], a);
      NoShorterScript(script[1..], a', b);
      OneEditCostsOne(script[0], a);
      Triangle(a, a', b);
    }
  }

  // ---------------------------------------------------------------- a script of that length exists

  /** A script that fits the front of a string leaves the last character alone. */
  lemma {:induction false} TurnsUnderTail(script: seq<Edit>, a: string, b: string, c: char)
    requires Turns(script, a, b)
    ensures Turns(script, a + [c], b + [c])
    decreases |script|
  {
    if script != [] {
      var e := script[0];
      assert Edited(e, a + [c]) == Edited(e, a) + [c];
      TurnsUnderTail(script[1..], Edited(e, a), b, c);
    }
  }

  lemma {:induction false} TurnsThen(script: seq<Edit>, a: string, b: string, e: Edit)
    requires Turns(script, a, b) && Fits(e, b)
    ensures Turns(script + [e], a, Edited(e, b))
    decreases |script|
  {
    if script == [] {
      assert (script + [e])[1..] == [];
    } else {
      assert (script + [e])[1..] == script[1..] + [e];
      TurnsThen(script[1..], Edited(script[0], a), b, e);
    }
  }

  lemma {:induction false} DeleteFirst(rest: seq<Edit>, a: string, b: string)
    requires a != [] && Turns(rest, Front(a), b)
    ensures Turns([Del(|a| - 1)] + rest, a, b)
  {
    assert Edited(Del(|a| - 1), a) == Front(a);
    EditFirst(Del(|a| - 1), rest, a, b);
  }

  lemma {:induction false} InsertLast(rest: seq<Edit>, a: string, b: string)
    requires b != [] && Turns(rest, a, Front(b))
    ensures Turns(rest + [Ins(|b| - 1, Last(b))], a, b)
  {
    assert Edited(Ins(|b| - 1, Last(b)), Front(b)) == b;
    TurnsThen(rest, a, Front(b), Ins(|b| - 1, Last(b)));
  }

  lemma FrontLast(s: string)
    requires s != []
    ensures Front(s) + [Last(s)] == s
  {
  }

  lemma {:induction false} UnderLast(rest: seq<Edit>, a: string, b: string)
    requires a != [] && b != [] && Turns(rest, Front(a), Front(b))
    ensures Turns(rest, Front(a) + [Last(b)], b)
    ensures Last(a) == Last(b) ==> Turns(rest, a, b)
  {
    TurnsUnderTail(rest, Front(a), Front(b), Last(b));
    FrontLast(a);
    FrontLast(b);
  }

  lemma {:induction false} EditFirst(e: Edit, rest: seq<Edit>, a: string, b: string)
    requires Fits(e, a) && Turns(rest, Edited(e, a), b)
    ensures Turns([e] + rest, a, b)
  {
    assert ([e] + rest)[0] == e && ([e] + rest)[1..] == rest;
  }

  lemma {:induction false} SubstituteFirst(rest: seq<Edit>, a: string, b: string)
    requires a != [] && b != [] && Turns(rest, Front(a), Front(b))
    ensures Turns([Sub(|a| - 1, Last(b))] + rest, a, b)
    ensures Last(a) == Last(b) ==> Turns(rest, a, b)
  {
    var e := Sub(|a| - 1, Last(b));
    UnderLast(rest, a, b);
    assert Edited(e, a) == Front(a) + [Last(b)];
    EditFirst(e, rest, a, b);
  }

  /** Read off the table, back to front. */
  lemma {:induction false} ShortestScript(a: string, b: string) returns (script: seq<Edit>)
    ensures Turns(script, a, b) && |script| == Dist(a, b)
    decreases |a| + |b|
  {
    if a == [] && b == [] {
      script := [];
    } else if b == [] || (a != [] && Last(a) != Last(b) && Dist(a, b) == Dist(Front(a), b) + 1) {
      var rest := ShortestScript(Front(a), b);
      DeleteFirst(rest, a, b);
      script := [Del(|a| - 1)] + rest;
    } else if a == [] || (Last(a) != Last(b) && Dist(a, b) == Dist(a, Front(b)) + 1) {
      var rest := ShortestScript(a, Front(b));
      InsertLast(rest, a, b);
      script := rest + [Ins(|b| - 1, Last(b))];
    } else {
      var rest := ShortestScript(Front(a), Front(b));
      SubstituteFirst(rest, a, b);
      script := if Last(a) == Last(b) then rest else [Sub(|a| - 1, Last(b))] + rest;
    }
  }

  /** The computed number is the length of a shortest edit script. */
  lemma {:induction false} DistIsMinimal(a: string, b: string)
    ensures exists script :: Turns(script, a, b) && |script| == Dist(a, b)
    ensures forall script :: Turns(script, a, b) ==> Dist(a, b) <= |script|
  {
    var script := ShortestScript(a, b);
    forall s | Turns(s, a, b) ensures Dist(a, b) <= |s| { NoShorterScript(s, a, b); }
  }

  // ---------------------------------------------------------------- the table

  /** One cell from its three neighbours. */
  lemma {:induction false} DistStep(a: string, b: string, i: nat, j: nat)
    requires 0 < i <= |a| && 0 < j <= |b|
    ensures Dist(a[..i], b[..j]) ==
              if a[i - 1] == b[j - 1] then Dist(a[..i - 1], b[..j - 1])
              else 1 + Min3(Dist(a[..i - 1], b[..j - 1]), Dist(a[..i - 1], b[..j]), Dist(a[..i], b[..j - 1]))
  {
    PrefixFront(a, i);
    PrefixFront(b, j);
  }

  /** Rows below `i` hold distances; the first column is set up. */
  ghost predicate Filled(dp: array2<nat>, a: string, b: string, i: nat)
    requires dp.Length0 == |a| + 1 && dp.Length1 == |b| + 1 && i <= |a| + 1
    reads dp
  {
    && (forall i', j' :: 0 <= i' < i && 0 <= j' <= |b| ==> dp[i', j'] == Dist(a[..i'], b[..j']))
    && (forall i' :: i <= i' <= |a| ==> dp[i', 0] == i')
  }

  method FillRow(dp: array2<nat>, a: string, b: string, i: nat)
    requires dp.Length0 == |a| + 1 && dp.Length1 == |b| + 1 && 1 <= i <= |a|
    requires Filled(dp, a, b, i)
    modifies dp
    ensures Filled(dp, a, b, i + 1)
  {
    for j := 1 to |b| + 1
      invariant Filled(dp, a, b, i)
      invariant forall j' :: 0 <= j' < j ==> dp[i, j'] == Dist(a[..i], b[..j'])
    {
      DistStep(a, b, i, j);
      dp[i, j] := if a[i - 1] == b[j - 1] then dp[i - 1, j - 1]
                  else 1 + Min3(dp[i - 1, j - 1], dp[i - 1, j], dp[i, j - 1]);
    }
  }

  /** Fills the table row by row and returns its last cell. */
  method Levenshtein(a: string, b: string) returns (d: nat)
    ensures d == Dist(a, b)
  {
    var dp := new nat[|a| + 1, |b| + 1]((i, _) => i);
    for j := 0 to |b| + 1
      invariant forall j' :: 0 <= j' < j ==> dp[0, j'] == j'
      invariant forall i :: 1 <= i <= |a| ==> dp[i, 0] == i
    {
      dp[0, j] := j;
    }
    for i := 1 to |a| + 1
      invariant Filled(dp, a, b, i)
    {
      FillRow(dp, a, b, i);
    }
    assert a[..|a|] == a && b[..|b|] == b;
    d := dp[|a|, |b|];
  }

  // ---------------------------------------------------------------- its use

  /** Two sibling names one edit apart, neither shorter than four characters. */
  predicate CloseTypo(a: string, b: string)
  {
    Dist(a, b) == 1 && Min(|a|, |b|) >= 4
  }

  lemma {:induction false} OneEditExactly(a: string, b: string)
    ensures Dist(a, b) == 1 <==> a != b && exists e :: Fits(e, a) && Edited(e, a) == b
  {
    ZeroIffEqual(a, b);
    if Dist(a, b) == 1 {
      var script := ShortestScript(a, b);
      assert Turns(script[1..], Edited(script[0], a), b) && script[1..] == [];
    }
    forall e | Fits(e, a) && Edited(e, a) == b ensures Dist(a, b) <= 1 { OneEditCostsOne(e, a); }
  }

  /** The test flags a pair from both sides, and exactly when one edit turns one name into a
      different other. */
  lemma {:induction false} CloseTypoMeansOneEdit(a: string, b: string)
    ensures CloseTypo(a, b) == CloseTypo(b, a)
    ensures CloseTypo(a, b) <==>
              |a| >= 4 && |b| >= 4 && a != b && exists e :: Fits(e, a) && Edited(e, a) == b
  {
    Symmetric(a, b);
    OneEditExactly(a, b);
  }

  /** A copy suffix was stripped and what is left is at most one edit away from a sibling. */
  predicate SuffixedCopy(strip: string -> string, a: string, b: string)
  {
    strip(a) != a && Dist(strip(a), b) <= 1
  }

  predicate Flagged(strip: string -> string, names: seq<string>, i: int, j: int)
    requires 0 <= i < |names| && 0 <= j < |names|
  {
    i != j && (SuffixedCopy(strip, names[i], names[j]) || CloseTypo(names[i], names[j]))
  }

  /** A pair is flagged when the second name is at most one edit away from the first without its copy
      suffix, or the two are one edit apart and neither is short. */
  lemma {:induction false} FlaggedMeansOneEdit(strip: string -> string, names: seq<string>, i: nat, j: nat)
    requires i < |names| && j < |names|
    ensures Flagged(strip, names, i, j) <==>
              && i != j
              && var a, b := names[i], names[j];
                 || (strip(a) != a &&
                     (strip(a) == b || exists e :: Fits(e, strip(a)) && Edited(e, strip(a)) == b))
                 || (|a| >= 4 && |b| >= 4 && a != b && exists e :: Fits(e, a) && Edited(e, a) == b)
  {
    CloseTypoMeansOneEdit(names[i], names[j]);
    OneEditExactly(strip(names[i]), names[j]);
    ZeroIffEqual(strip(names[i]), names[j]);
  }

  /** Compares every ordered pair of siblings; `strip` removes a copy suffix. */
  method NearMisses(strip: string -> string, names: seq<string>) returns (issues: seq<(int, int)>)
    ensures forall p :: p in issues ==>
              0 <= p.0 < |names| && 0 <= p.1 < |names| && Flagged(strip, names, p.0, p.1)
    ensures forall i, j :: 0 <= i < |names| && 0 <= j < |names| && Flagged(strip, names, i, j) ==> (i, j) in issues
    ensures forall i, j :: 0 <= i < |names| && 0 <= j < |names| && i != j && CloseTypo(names[i], names[j]) ==>
              (i, j) in issues && (j, i) in issues
  {
    issues := [];
    for i := 0 to |names|
      invariant forall p :: p in issues ==>
                  0 <= p.0 < |names| && 0 <= p.1 < |names| && Flagged(strip, names, p.0, p.1)
      invariant forall i', j' :: 0 <= i' < i && 0 <= j' < |names| && Flagged(strip, names, i', j') ==>
                  (i', j') in issues
    {
      for j := 0 to |names|
        invariant forall p :: p in issues ==>
                    0 <= p.0 < |names| && 0 <= p.1 < |names| && Flagged(strip, names, p.0, p.1)
        invariant forall i', j' :: 0 <= i' < i && 0 <= j' < |names| && Flagged(strip, names, i', j') ==>
                    (i', j') in issues
        invariant forall j' :: 0 <= j' < j && Flagged(strip, names, i, j') ==> (i, j') in issues
      {
        if i != j {
          var stripped := strip(names[i]);
          var d := Levenshtein(stripped, names[j]);
          var whole := Levenshtein(names[i], names[j]);
          if (stripped != names[i] && d <= 1) || (whole == 1 && Min(|names[i]|, |names[j]|) >= 4) {
            issues := issues + [(i, j)];
          }
        }
      }
    }
    forall i, j | 0 <= i < |names| && 0 <= j < |names| && i != j && CloseTypo(names[i], names[j])
      ensures (i, j) in issues && (j, i) in issues
    {
      CloseTypoMeansOneEdit(names[i], names[j]);
      assert Flagged(strip, names, i, j) && Flagged(strip, names, j, i);
    }
  }
}
