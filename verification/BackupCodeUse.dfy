/**
 Consuming backup codes as a protocol: a request reads the code list and matches its code,
 and only later marks the matched position as used, if that position is still unused.
 Requests interleave freely, and the list may be replaced in between.
 */
module BackupCodeUse {
  import opened Basics
  import opened BackupCodes

  datatype Request =
    | Waiting(code: string)
    | Matched(code: string, index: nat, generation: nat)
    | Accepted
    | Refused

  /** A position of one generation of the list, holding the symbols `held`, accepted for a code read
      in generation `seen`. */
  datatype Use = Use(generation: nat, index: nat, seen: nat, code: string, held: string)

  datatype State = State(
    slots: seq<Slot>, generation: nat, requests: seq<Request>,
    uses: seq<Use>, issued: nat)

  datatype Event =
    | Arrive(code: string)
    | Read(p: nat, allowed: bool)
    | Mark(p: nat)
    | Regenerate(codes: seq<string>)

  function Unused(slots: seq<Slot>): nat
  {
    if slots == [] then 0 else (if slots[0].used then 0 else 1) + Unused(slots[1..])
  }

  function Fresh(codes: seq<string>): (r: seq<Slot>)
    ensures |r| == |codes|
  {
    seq(|codes|, i requires 0 <= i < |codes| => Slot(codes[i], false, false))
  }

  function StepRead(s: State, p: nat, allowed: bool): State
    requires p < |s.requests| && s.requests[p].Waiting?
  {
    var i := Lookup(s.slots, s.requests[p].code);
    s.(requests := s.requests[p := if allowed && i < |s.slots|
                                   then Matched(s.requests[p].code, i, s.generation) else Refused])
  }

  /** The conditional update looks at the position only, not at the code stored there. */
  function StepMark(s: State, p: nat): State
    requires p < |s.requests| && s.requests[p].Matched?
  {
    var r := s.requests[p];
    if r.index < |s.slots| && !s.slots[r.index].used then
      s.(slots := s.slots[r.index := s.slots[r.index].(used := true)],
         requests := s.requests[p := Accepted],
         uses := s.uses + [Use(s.generation, r.index, r.generation, r.code, s.slots[r.index].symbols)])
    else s.(requests := s.requests[p := Refused])
  }

  function Step(s: State, e: Event): State
  {
    match e
    case Arrive(code) => s.(requests := s.requests + [Waiting(code)])
    case Read(p, allowed) => if p < |s.requests| && s.requests[p].Waiting? then StepRead(s, p, allowed) else s
    case Mark(p) => if p < |s.requests| && s.requests[p].Matched? then StepMark(s, p) else s
    case Regenerate(codes) =>
      s.(slots := Fresh(codes), generation := s.generation + 1, issued := s.issued + |codes|)
  }

  function Run(s: State, es: seq<Event>): State
  {
    if es == [] then s else Step(Run(s, es[..|es| - 1]), es[|es| - 1])
  }

  // ---------------------------------------------------------------- invariant

  ghost predicate Distinct(us: seq<Use>)
  {
    forall i, j :: 0 <= i < j < |us| ==> us[i].generation != us[j].generation || us[i].index != us[j].index
  }

  /** Whatever was accepted in the current generation is marked, and everything accepted so far plus
      everything still unused was issued at some time. */
  ghost predicate Inv(s: State)
  {
    && Distinct(s.uses)
    && (forall i :: 0 <= i < |s.uses| ==>
          s.uses[i].generation <= s.generation &&
          (s.uses[i].generation == s.generation ==> s.uses[i].index < |s.slots| && s.slots[s.uses[i].index].used))
    && |s.uses| + Unused(s.slots) <= s.issued
  }

  /** Matched requests point at the code they presented, as long as the list is the one they read. */
  ghost predicate Pointers(s: State)
  {
    && (forall p :: 0 <= p < |s.requests| && s.requests[p].Matched? ==>
          s.requests[p].generation <= s.generation &&
          (s.requests[p].generation == s.generation ==>
             s.requests[p].index < |s.slots| && s.slots[s.requests[p].index].symbols == Normalize(s.requests[p].code)))
    && (forall i :: 0 <= i < |s.uses| ==>
          s.uses[i].seen <= s.uses[i].generation <= s.generation &&
          (s.uses[i].seen == s.uses[i].generation ==> s.uses[i].held == Normalize(s.uses[i].code)) &&
          (s.uses[i].generation == s.generation ==>
             s.uses[i].index < |s.slots| && s.slots[s.uses[i].index].symbols == s.uses[i].held))
  }

  ghost predicate Init(s: State)
  {
    s.requests == [] && s.uses == [] && s.issued == Unused(s.slots)
  }

  lemma {:induction false} MarkOne(slots: seq<Slot>, i: nat)
    requires i < |slots| && !slots[i].used
    ensures Unused(slots[i := slots[i].(used := true)]) == Unused(slots) - 1
  {
    var slots' := slots[i := slots[i].(used := true)];
    if i == 0 {
      assert slots'[1..] == slots[1..];
    } else {
      MarkOne(slots[1..], i - 1);
      assert slots'[1..] == slots[1..][i - 1 := slots[i].(used := true)];
    }
  }

  lemma {:induction false} FreshUnused(codes: seq<string>)
    ensures Unused(Fresh(codes)) == |codes|
  {
    if codes != [] {
      FreshUnused(codes[1..]);
      assert Fresh(codes)[1..] == Fresh(codes[1..]);
    }
  }

  lemma {:induction false} MarkKeepsInv(s: State, p: nat)
    requires Inv(s) && p < |s.requests| && s.requests[p].Matched?
    ensures Inv(StepMark(s, p))
  {
    var r := s.requests[p];
    if r.index < |s.slots| && !s.slots[r.index].used { MarkOne(s.slots, r.index); }
  }

  lemma {:induction false} StepKeepsInv(s: State, e: Event)
    requires Inv(s)
    ensures Inv(Step(s, e))
  {
    match e
    case Mark(p) => if p < |s.requests| && s.requests[p].Matched? { MarkKeepsInv(s, p); }
    case Regenerate(codes) => FreshUnused(codes);
    case _ =>
  }

  lemma {:induction false} RunKeepsInv(s: State, es: seq<Event>)
    requires Init(s)
    ensures Inv(Run(s, es))
  {
    if es != [] {
      RunKeepsInv(s, es[..|es| - 1]);
      StepKeepsInv(Run(s, es[..|es| - 1]), es[|es| - 1]);
    }
  }

  lemma {:induction false} StepKeepsPointers(s: State, e: Event)
    requires Pointers(s)
    ensures Pointers(Step(s, e))
  {
  }

  lemma {:induction false} RunKeepsPointers(s: State, es: seq<Event>)
    requires Init(s)
    ensures Pointers(Run(s, es))
  {
    if es != [] {
      RunKeepsPointers(s, es[..|es| - 1]);
      StepKeepsPointers(Run(s, es[..|es| - 1]), es[|es| - 1]);
    }
  }

  // ---------------------------------------------------------------- what a run guarantees

  /** However requests interleave, no position of any generation of the list is accepted twice, and
      acceptances plus unused codes never exceed the codes ever issued. */
  lemma {:induction false} CodesAreSingleUse(s: State, es: seq<Event>)
    requires Init(s)
    ensures var r := Run(s, es); Distinct(r.uses) && |r.uses| + Unused(r.slots) <= r.issued
  {
    RunKeepsInv(s, es);
  }

  /** Every acceptance ever made for a code read from the list as it then stood used up a slot holding
      exactly that code, and in the current list that slot is marked. */
  lemma {:induction false} AcceptedCodeWasIssued(s: State, es: seq<Event>, i: nat)
    requires Init(s)
    requires var r := Run(s, es); i < |r.uses| && r.uses[i].seen == r.uses[i].generation
    ensures var r := Run(s, es);
            && r.uses[i].held == Normalize(r.uses[i].code)
            && (r.uses[i].generation == r.generation ==>
                  && r.uses[i].index < |r.slots| && r.slots[r.uses[i].index].used
                  && r.slots[r.uses[i].index].symbols == r.uses[i].held)
  {
    RunKeepsInv(s, es);
    RunKeepsPointers(s, es);
  }

  // ---------------------------------------------------------------- when the accepted slot is the right one

  /** Nothing is done for request `p`. */
  predicate Leaves(es: seq<Event>, p: nat)
  {
    forall k :: 0 <= k < |es| && es[k].Mark? ==> es[k].p != p
  }

  function Regenerations(es: seq<Event>): nat
  {
    if es == [] then 0 else Regenerations(es[..|es| - 1]) + if es[|es| - 1].Regenerate? then 1 else 0
  }

  /** If request `p` is marked after `es` and accepted, then for a slot that holds its code. */
  ghost predicate RightWhenAccepted(s: State, es: seq<Event>, p: nat)
    requires p < |s.requests| && s.requests[p].Matched?
  {
    var r := Step(Run(s, es), Mark(p));
    p < |r.requests| &&
    (r.requests[p].Accepted? ==> r.uses != [] && r.uses[|r.uses| - 1].held == Normalize(s.requests[p].code))
  }

  /** A matched request stays as it is until it is marked, and the generation counts regenerations. */
  lemma {:induction false} RunLeaves(s: State, es: seq<Event>, p: nat)
    requires Pointers(s) && p < |s.requests| && s.requests[p].Matched? && Leaves(es, p)
    ensures var r := Run(s, es);
            && Pointers(r) && p < |r.requests| && r.requests[p] == s.requests[p]
            && r.generation == s.generation + Regenerations(es)
  {
    if es != [] {
      var front := es[..|es| - 1];
      assert forall k :: 0 <= k < |front| ==> front[k] == es[k];
      RunLeaves(s, front, p);
      StepKeepsPointers(Run(s, front), es[|es| - 1]);
    }
  }

  lemma {:induction false} RightWithoutRegeneration(s: State, es: seq<Event>, p: nat)
    requires Pointers(s) && p < |s.requests| && s.requests[p].Matched? && s.requests[p].generation == s.generation
    requires Leaves(es, p) && Regenerations(es) == 0
    ensures RightWhenAccepted(s, es, p)
  {
    RunLeaves(s, es, p);
  }

  /** Another code of the same length. */
  function Other(normalized: string): (other: string)
    ensures other != normalized
    ensures normalized != [] ==> |other| == |normalized|
    ensures Raw(normalized) ==> Raw(other)
  {
    if normalized == [] then "0" else [if normalized[0] == '0' then '1' else '0'] + normalized[1..]
  }

  /** Ten codes, or more if that is what it takes to reach `index`, none of them the given one. */
  function OtherCodes(code: string, index: nat): seq<string>
  {
    seq(Max(index + 1, CODE_COUNT), _ => Other(Normalize(code)))
  }

  function Replaced(code: string, index: nat, n: nat): seq<Event>
  {
    seq(n, _ => Regenerate(OtherCodes(code, index)))
  }

  lemma {:induction false} ReplacedCount(code: string, index: nat, n: nat)
    ensures Regenerations(Replaced(code, index, n)) == n
  {
    if n > 0 {
      assert Replaced(code, index, n)[..n - 1] == Replaced(code, index, n - 1);
      ReplacedCount(code, index, n - 1);
    }
  }

  lemma {:induction false} WrongAfterReplacing(s: State, p: nat, n: nat)
    requires Pointers(s) && p < |s.requests| && s.requests[p].Matched? && n > 0
    ensures var es := Replaced(s.requests[p].code, s.requests[p].index, n);
            Leaves(es, p) && Regenerations(es) == n && !RightWhenAccepted(s, es, p)
  {
    var code, index := s.requests[p].code, s.requests[p].index;
    var es := Replaced(code, index, n);
    ReplacedCount(code, index, n);
    RunLeaves(s, es, p);
    assert es[n - 1] == Regenerate(OtherCodes(code, index));
    var r := Run(s, es);
    assert index < |r.slots| && r.slots[index] == Slot(Other(Normalize(code)), false, false);
  }

  /** For every request that has matched: whatever else happens before it is marked, an acceptance is
      for a slot that holds its code, exactly when the list is not regenerated in between. */
  lemma {:induction false} RightWhenAcceptedExactly(s: State, p: nat, n: nat)
    requires Pointers(s) && p < |s.requests| && s.requests[p].Matched? && s.requests[p].generation == s.generation
    ensures (forall es :: Leaves(es, p) && Regenerations(es) == n ==> RightWhenAccepted(s, es, p)) <==> n == 0
  {
    if n == 0 {
      forall es | Leaves(es, p) && Regenerations(es) == n ensures RightWhenAccepted(s, es, p)
      {
        RightWithoutRegeneration(s, es, p);
      }
    } else {
      WrongAfterReplacing(s, p, n);
    }
  }

  /** After a regeneration that can fail, for any two codes: one is matched, the list is replaced, and
      the request then uses up the slot of the other. */
  lemma {:induction false} OldCodeCanUseUpNewSlot(a: string, b: string)
    requires Raw(a) && a != []
    ensures var s := State([Slot(a, false, false)], 0, [], [], 1);
            var r := Run(s, [Arrive(a), Read(0, true), Regenerate([b]), Mark(0)]);
            Init(s) && r.requests == [Accepted] && r.slots == [Slot(b, false, true)]
  {
    var slots := [Slot(a, false, false)];
    var s := State(slots, 0, [], [], 1);
    var es := [Arrive(a), Read(0, true), Regenerate([b]), Mark(0)];
    RawSpellsItself(a);
    NormalizeExactlySpellings(a, a);
    assert slots[1..] == [];
    var s1 := State(slots, 0, [Waiting(a)], [], 1);
    var s2 := State(slots, 0, [Matched(a, 0, 0)], [], 1);
    var s3 := State([Slot(b, false, false)], 1, [Matched(a, 0, 0)], [], 2);
    assert Step(s, es[0]) == s1;
    assert Step(s1, es[1]) == s2;
    assert Step(s2, es[2]) == s3 by { assert Fresh([b]) == [Slot(b, false, false)]; }
    RunFour(s, es[0], es[1], es[2], es[3]);
  }

  lemma {:induction false} RunFour(s: State, a: Event, b: Event, c: Event, d: Event)
    ensures Run(s, [a, b, c, d]) == Step(Step(Step(Step(s, a), b), c), d)
  {
    RunSnoc(s, [], a);
    RunSnoc(s, [a], b);
    RunSnoc(s, [a, b], c);
    RunSnoc(s, [a, b, c], d);
    assert [] + [a] == [a] && [a] + [b] == [a, b] && [a, b] + [c] == [a, b, c] && [a, b, c] + [d] == [a, b, c, d];
  }

  lemma {:induction false} RunSnoc(s: State, es: seq<Event>, e: Event)
    ensures Run(s, es + [e]) == Step(Run(s, es), e)
  {
    assert (es + [e])[..|es|] == es;
  }

  /** A request that is not disturbed is accepted exactly when its code spells an unused slot. */
  lemma {:induction false} LoneRequest(s: State, p: nat)
    requires p < |s.requests| && s.requests[p].Waiting?
    ensures var code := s.requests[p].code;
            var r := Step(Step(s, Read(p, true)), Mark(p));
            p < |r.requests| &&
            (r.requests[p].Accepted? <==>
               Normalize(code) != [] &&
               exists i :: 0 <= i < |s.slots| &&
                 !s.slots[i].used && !s.slots[i].legacy && s.slots[i].symbols == Normalize(code))
    ensures var r := Step(s, Read(p, false)); p < |r.requests| && r.requests[p].Refused? && r.slots == s.slots
  {
    var code := s.requests[p].code;
    var i := Lookup(s.slots, code);
    if i < |s.slots| { assert Fits(s.slots[i], Normalize(code)); }
    assert forall k :: 0 <= k < |s.slots| ==>
      (Fits(s.slots[k], Normalize(code)) <==>
         !s.slots[k].used && !s.slots[k].legacy && s.slots[k].symbols == Normalize(code));
  }
}
