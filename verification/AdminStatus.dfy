/**
 The admin status endpoints: one transition, validated and audited, and the bulk update
 that applies it to a list of transaction hashes.
 */
module AdminStatus {
  import opened PaymentStatus
  import Basics

  const BULK_LIMIT := 100

  datatype Key = Key(school: string, hash: string)

  datatype Audit = Audit(key: Key, from: Status, to: Status, reason: string)

  datatype Outcome = Updated(from: Status) | NotFound | InvalidTransition

  datatype Result = Result(hash: string, outcome: Outcome)

  type Payments = map<Key, Status>

  // ---------------------------------------------------------------- one transition

  function OutcomeOf(ps: Payments, key: Key, to: Status): Outcome
  {
    if key !in ps then NotFound
    else if TransitionAllowed(ps[key], to, true) then Updated(ps[key])
    else InvalidTransition
  }

  function Applied(ps: Payments, key: Key, to: Status): Payments
  {
    if OutcomeOf(ps, key, to).Updated? then ps[key := to] else ps
  }

  // ---------------------------------------------------------------- a list of them

  function ApplyAll(ps: Payments, school: string, hashes: seq<string>, to: Status): Payments
  {
    if hashes == [] then ps
    else ApplyAll(Applied(ps, Key(school, hashes[0]), to), school, hashes[1..], to)
  }

  function Results(ps: Payments, school: string, hashes: seq<string>, to: Status): (r: seq<Result>)
    ensures |r| == |hashes|
  {
    if hashes == [] then []
    else
      var key := Key(school, hashes[0]);
      [Result(hashes[0], OutcomeOf(ps, key, to))] + Results(Applied(ps, key, to), school, hashes[1..], to)
  }

  function AuditOf(r: Result, school: string, to: Status, reason: string): seq<Audit>
  {
    if r.outcome.Updated? then [Audit(Key(school, r.hash), r.outcome.from, to, reason)] else []
  }

  /** One entry per success, in order. */
  function AuditTrail(rs: seq<Result>, school: string, to: Status, reason: string): seq<Audit>
  {
    if rs == [] then []
    else AuditTrail(rs[..|rs| - 1], school, to, reason) + AuditOf(rs[|rs| - 1], school, to, reason)
  }

  function CountUpdated(rs: seq<Result>): nat
  {
    if rs == [] then 0 else CountUpdated(rs[..|rs| - 1]) + if rs[|rs| - 1].outcome.Updated? then 1 else 0
  }

  predicate Distinct(hashes: seq<string>)
  {
    forall i, j :: 0 <= i < j < |hashes| ==> hashes[i] != hashes[j]
  }

  /** Nothing is left of it after trimming. */
  predicate Blank(h: string) { forall i :: 0 <= i < |h| ==> Basics.IsSpace(h[i]) }

  predicate ValidBatch(hashes: seq<string>)
  {
    0 < |hashes| <= BULK_LIMIT && Distinct(hashes) && forall i :: 0 <= i < |hashes| ==> !Blank(hashes[i])
  }

  /** A transition back to pending, or one without a reason, is refused before anything is read. */
  predicate ValidChange(to: Status, reason: string) { reason != "" && to != Pending }

  datatype BulkReply = BadRequest | Done(requested: nat, updated: nat, failed: nat, results: seq<Result>)

  // ---------------------------------------------------------------- the endpoints

  /** What is done plus what is still to do is the whole. */
  ghost predicate Halfway(ps: Payments, school: string, rest: seq<string>, to: Status,
                          results: seq<Result>, final: Payments, all: seq<Result>)
  {
    ApplyAll(ps, school, rest, to) == final && results + Results(ps, school, rest, to) == all
  }

  lemma {:induction false} HalfwayStep(ps: Payments, school: string, hashes: seq<string>, i: nat, to: Status,
                                       results: seq<Result>, final: Payments, all: seq<Result>)
    requires i < |hashes| && Halfway(ps, school, hashes[i..], to, results, final, all)
    ensures var key := Key(school, hashes[i]);
            Halfway(Applied(ps, key, to), school, hashes[i + 1..], to,
                    results + [Result(hashes[i], OutcomeOf(ps, key, to))], final, all)
  {
    var key := Key(school, hashes[i]);
    var x := Result(hashes[i], OutcomeOf(ps, key, to));
    var more := Results(Applied(ps, key, to), school, hashes[i + 1..], to);
    assert hashes[i..][0] == hashes[i] && hashes[i..][1..] == hashes[i + 1..];
    assert results + ([x] + more) == (results + [x]) + more;
  }

  lemma {:induction false} ResultsAppend(rs: seq<Result>, r: Result, school: string, to: Status, reason: string)
    ensures AuditTrail(rs + [r], school, to, reason) ==
              AuditTrail(rs, school, to, reason) + AuditOf(r, school, to, reason)
    ensures CountUpdated(rs + [r]) == CountUpdated(rs) + if r.outcome.Updated? then 1 else 0
  {
    assert (rs + [r])[..|rs|] == rs;
  }

  /** The counter and the audit log say what the results so far say. */
  ghost predicate Tallied(rs: seq<Result>, updated: nat, audit: seq<Audit>, before: seq<Audit>,
                          school: string, to: Status, reason: string)
  {
    updated == CountUpdated(rs) <= |rs| && audit == before + AuditTrail(rs, school, to, reason)
  }

  lemma {:induction false} TallyStep(rs: seq<Result>, updated: nat, audit: seq<Audit>, before: seq<Audit>, r: Result,
                                     school: string, to: Status, reason: string)
    requires Tallied(rs, updated, audit, before, school, to, reason)
    ensures Tallied(rs + [r], updated + if r.outcome.Updated? then 1 else 0,
                    audit + AuditOf(r, school, to, reason), before, school, to, reason)
  {
    ResultsAppend(rs, r, school, to, reason);
    assert before + AuditTrail(rs, school, to, reason) + AuditOf(r, school, to, reason) ==
           before + (AuditTrail(rs, school, to, reason) + AuditOf(r, school, to, reason));
  }

  class Admin {
    var payments: Payments
    var audit: seq<Audit>

    constructor (payments: Payments)
      ensures this.payments == payments && audit == []
    {
      this.payments := payments;
      audit := [];
    }

    method ApplyStatusTransition(school: string, hash: string, to: Status, reason: string) returns (outcome: Outcome)
      modifies this
      ensures outcome == OutcomeOf(old(payments), Key(school, hash), to)
      ensures payments == Applied(old(payments), Key(school, hash), to)
      ensures audit == old(audit) + AuditOf(Result(hash, outcome), school, to, reason)
    {
      var key := Key(school, hash);
      if key !in payments { return NotFound; }
      var previous := payments[key];
      if to !in AdminTransitions(previous) { return InvalidTransition; }
      payments := payments[key := to];
      audit := audit + [Audit(key, previous, to, reason)];
      return Updated(previous);
    }

    /** Applies one transition to many payments, each on its own. */
    method BulkUpdate(school: string, hashes: seq<string>, to: Status, reason: string) returns (reply: BulkReply)
      modifies this
      ensures reply.BadRequest? <==> !ValidBatch(hashes) || !ValidChange(to, reason)
      ensures reply.BadRequest? ==> payments == old(payments) && audit == old(audit)
      ensures reply.Done? ==>
                && payments == ApplyAll(old(payments), school, hashes, to)
                && reply.results == Results(old(payments), school, hashes, to)
                && audit == old(audit) + AuditTrail(reply.results, school, to, reason)
                && reply.requested == |hashes| == reply.updated + reply.failed
                && reply.updated == CountUpdated(reply.results)
    {
      if !ValidBatch(hashes) || !ValidChange(to, reason) { return BadRequest; }
      ghost var final, all := ApplyAll(payments, school, hashes, to), Results(payments, school, hashes, to);
      var results := [];
      var updated := 0;
      assert hashes[0..] == hashes;
      for i := 0 to |hashes|
        invariant |results| == i && Halfway(payments, school, hashes[i..], to, results, final, all)
        invariant Tallied(results, updated, audit, old(audit), school, to, reason)
      {
        HalfwayStep(payments, school, hashes, i, to, results, final, all);
        TallyStep(results, updated, audit, old(audit),
                  Result(hashes[i], OutcomeOf(payments, Key(school, hashes[i]), to)),
                  school, to, reason);
        var outcome := ApplyStatusTransition(school, hashes[i], to, reason);
        results := results + [Result(hashes[i], outcome)];
        updated := updated + if outcome.Updated? then 1 else 0;
      }
      return Done(|hashes|, updated, |hashes| - updated, results);
    }
  }

  // ---------------------------------------------------------------- what one transition does

  /** Not found, invalid or updated, each exactly on its condition; only the last one changes the payment,
      and leaves one audit entry. */
  lemma TransitionExactly(ps: Payments, school: string, hash: string, to: Status, reason: string)
    ensures var key := Key(school, hash);
            var outcome := OutcomeOf(ps, key, to);
            var audit := AuditOf(Result(hash, outcome), school, to, reason);
            if key !in ps then outcome.NotFound? && Applied(ps, key, to) == ps && audit == []
            else if to in AdminTransitions(ps[key])
            then
              && outcome == Updated(ps[key]) && Applied(ps, key, to) == ps[key := to]
              && audit == [Audit(key, ps[key], to, reason)]
            else outcome.InvalidTransition? && Applied(ps, key, to) == ps && audit == []
  {
  }

  // ---------------------------------------------------------------- what a bulk update does

  /** What a batch is refused for: no hash or more than a hundred, one that trims to nothing, one that
      comes twice, no reason, or a way back to pending. */
  lemma {:induction false} RefusedExactly(hashes: seq<string>, to: Status, reason: string)
    ensures !ValidBatch(hashes) || !ValidChange(to, reason) <==>
              || |hashes| == 0 || |hashes| > 100 || reason == "" || to == Pending
              || (exists i, j :: 0 <= i < j < |hashes| && hashes[i] == hashes[j])
              || (exists i :: 0 <= i < |hashes| && FrontTrimmed(hashes[i]) == "")
  {
    assert Distinct(hashes) <==> !exists i, j :: 0 <= i < j < |hashes| && hashes[i] == hashes[j];
    forall i | 0 <= i < |hashes| ensures Blank(hashes[i]) <==> FrontTrimmed(hashes[i]) == ""
    {
      TrimsToNothing(hashes[i]);
    }
  }

  /** What the source tests: the hash without the white space in front is empty. */
  function FrontTrimmed(h: string): string
  {
    if h != [] && Basics.IsSpace(h[0]) then FrontTrimmed(h[1..]) else h
  }

  lemma {:induction false} TrimsToNothing(h: string)
    ensures Blank(h) <==> FrontTrimmed(h) == ""
  {
    if h != [] {
      TrimsToNothing(h[1..]);
      if Blank(h) { assert Basics.IsSpace(h[0]); }
      if Blank(h[1..]) && Basics.IsSpace(h[0]) {
        forall i | 0 <= i < |h| ensures Basics.IsSpace(h[i]) { if i > 0 { assert h[i] == h[1..][i - 1]; } }
      }
    }
  }

  /** Payment by payment: exactly those requested, present and with an edge to the new status move
      there, and nothing else changes, whatever the order of the hashes. */
  lemma {:induction false} BulkPointwise(ps: Payments, school: string, hashes: seq<string>, to: Status, key: Key)
    ensures ApplyAll(ps, school, hashes, to).Keys == ps.Keys
    ensures key in ps ==>
              ApplyAll(ps, school, hashes, to)[key] ==
                if key.school == school && key.hash in hashes && TransitionAllowed(ps[key], to, true)
                then to else ps[key]
    decreases |hashes|
  {
    if hashes != [] {
      var k := Key(school, hashes[0]);
      var ps' := Applied(ps, k, to);
      assert ps'.Keys == ps.Keys;
      BulkPointwise(ps', school, hashes[1..], to, key);
      assert key.hash in hashes <==> key.hash == hashes[0] || key.hash in hashes[1..];
      assert key.school == school && key.hash == hashes[0] ==> key == k;
    }
  }

  /** The final payments do not depend on the order of the hashes. */
  lemma {:induction false} OrderDoesNotMatter(ps: Payments, school: string, hashes: seq<string>, other: seq<string>,
                                              to: Status)
    requires forall h :: h in hashes <==> h in other
    ensures ApplyAll(ps, school, hashes, to) == ApplyAll(ps, school, other, to)
  {
    var a, b := ApplyAll(ps, school, hashes, to), ApplyAll(ps, school, other, to);
    BulkPointwise(ps, school, hashes, to, Key(school, ""));
    BulkPointwise(ps, school, other, to, Key(school, ""));
    forall key | key in ps ensures a[key] == b[key]
    {
      BulkPointwise(ps, school, hashes, to, key);
      BulkPointwise(ps, school, other, to, key);
    }
  }

  /** With distinct hashes, every result is the one a single update of the original payment gives. */
  lemma {:induction false} ResultsAreIndependent(ps: Payments, school: string, hashes: seq<string>, to: Status, i: nat)
    requires Distinct(hashes) && i < |hashes|
    ensures Results(ps, school, hashes, to)[i] == Result(hashes[i], OutcomeOf(ps, Key(school, hashes[i]), to))
    decreases |hashes|
  {
    if i > 0 {
      ResultsAreIndependent(Applied(ps, Key(school, hashes[0]), to), school, hashes[1..], to, i - 1);
    }
  }

  lemma {:induction false} AuditLength(rs: seq<Result>, school: string, to: Status, reason: string)
    ensures |AuditTrail(rs, school, to, reason)| == CountUpdated(rs)
  {
    if rs != [] { AuditLength(rs[..|rs| - 1], school, to, reason); }
  }

  lemma {:induction false} AuditKnowsEverySuccess(rs: seq<Result>, school: string, to: Status, reason: string, i: nat)
    requires i < |rs| && rs[i].outcome.Updated?
    ensures Audit(Key(school, rs[i].hash), rs[i].outcome.from, to, reason) in AuditTrail(rs, school, to, reason)
  {
    if i < |rs| - 1 { AuditKnowsEverySuccess(rs[..|rs| - 1], school, to, reason, i); }
  }

  lemma {:induction false} AuditKnowsNothingElse(rs: seq<Result>, school: string, to: Status, reason: string, a: Audit)
    returns (i: nat)
    requires a in AuditTrail(rs, school, to, reason)
    ensures i < |rs| && rs[i].outcome.Updated? && a == Audit(Key(school, rs[i].hash), rs[i].outcome.from, to, reason)
  {
    var n := |rs| - 1;
    if a in AuditTrail(rs[..n], school, to, reason) {
      i := AuditKnowsNothingElse(rs[..n], school, to, reason, a);
    } else {
      i := n;
    }
  }

  /** The audit of a bulk update has one entry per payment that changed, and it tells the truth: the
      status before and the status after. */
  lemma {:induction false} AuditIsTrue(ps: Payments, school: string, hashes: seq<string>, to: Status, reason: string,
                                       a: Audit)
    requires Distinct(hashes)
    ensures var trail := AuditTrail(Results(ps, school, hashes, to), school, to, reason);
            var after := ApplyAll(ps, school, hashes, to);
            && |trail| == CountUpdated(Results(ps, school, hashes, to))
            && (a in trail <==>
                  && a.reason == reason && a.to == to && a.key.school == school && a.key.hash in hashes
                  && a.key in ps && a.key in after
                  && ps[a.key] == a.from && after[a.key] == a.to && a.from != a.to)
  {
    var rs := Results(ps, school, hashes, to);
    AuditLength(rs, school, to, reason);
    BulkPointwise(ps, school, hashes, to, a.key);
    if a in AuditTrail(rs, school, to, reason) {
      var i := AuditKnowsNothingElse(rs, school, to, reason, a);
      ResultsAreIndependent(ps, school, hashes, to, i);
    }
    if a.reason == reason && a.to == to && a.key.school == school && a.key.hash in hashes && a.key in ps
       && ps[a.key] == a.from && ApplyAll(ps, school, hashes, to)[a.key] == a.to && a.from != a.to {
      var i :| 0 <= i < |hashes| && hashes[i] == a.key.hash;
      ResultsAreIndependent(ps, school, hashes, to, i);
      assert a.key == Key(school, hashes[i]);
      AuditKnowsEverySuccess(rs, school, to, reason, i);
    }
  }
}
