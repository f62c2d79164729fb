/**
 The lease an admin takes on one payment before editing it: granted for a while, ended
 early by its own holder.
 */
module LeaseLock {
  import opened Basics

  type LockId = nat

  /** The two fields on the payment. */
  datatype Fields = Fields(until: Option<int>, holder: Option<LockId>)

  predicate Free(f: Fields, now: int) { f.until.None? || f.until.value <= now }

  /** The fields after a lock request checked at `now`, with a deadline computed from an earlier reading. */
  function Locked(f: Fields, id: LockId, computed: int, now: int, duration: int): Fields
  {
    if Free(f, now) then Fields(Some(computed + duration), Some(id)) else f
  }

  function Unlocked(f: Fields, id: LockId): Fields
  {
    if f.holder == Some(id) then Fields(None, None) else f
  }

  class PaymentLease {
    var lockedUntil: Option<int>
    var lockHolder: Option<LockId>

    constructor ()
      ensures View() == Fields(None, None)
    {
      lockedUntil, lockHolder := None, None;
    }

    ghost function View(): Fields
      reads this
    {
      Fields(lockedUntil, lockHolder)
    }

    /** The deadline is computed from the clock first and the lease checked against it afterwards. */
    method LockForUpdate(id: LockId, computed: int, now: int, duration: int) returns (granted: bool)
      modifies this
      ensures granted == Free(old(View()), now)
      ensures View() == Locked(old(View()), id, computed, now, duration)
    {
      granted := lockedUntil.None? || lockedUntil.value <= now;
      if granted {
        lockedUntil, lockHolder := Some(computed + duration), Some(id);
      }
    }

    method Unlock(id: LockId) returns (unlocked: bool)
      modifies this
      ensures unlocked == (old(View()).holder == Some(id))
      ensures View() == Unlocked(old(View()), id)
    {
      unlocked := lockHolder == Some(id);
      if unlocked {
        lockedUntil, lockHolder := None, None;
      }
    }
  }

  // ---------------------------------------------------------------- runs

  /** `now` is when the lease is checked or given back; `computed` when its deadline was computed. */
  datatype Event =
    | Lock(id: LockId, computed: int, now: int, duration: int)
    | Release(id: LockId, now: int)

  /** A granted lease: the half-open time during which its holder has the payment. */
  datatype Lease = Lease(id: LockId, start: int, end: int)

  datatype State = State(fields: Fields, leases: seq<Lease>, now: int)

  function Cut(l: Lease, id: LockId, now: int): Lease
  {
    if l.id == id && now < l.end then l.(end := now) else l
  }

  function CutAll(ls: seq<Lease>, id: LockId, now: int): (r: seq<Lease>)
    ensures |r| == |ls| && forall i :: 0 <= i < |ls| ==> r[i] == Cut(ls[i], id, now)
  {
    seq(|ls|, i requires 0 <= i < |ls| => Cut(ls[i], id, now))
  }

  /** A holder's own unlock request ends its lease there and then, whether or not it still holds the
      fields. */
  function Step(s: State, e: Event): State
  {
    match e
    case Lock(id, computed, now, duration) =>
      State(Locked(s.fields, id, computed, now, duration),
            if Free(s.fields, now) then s.leases + [Lease(id, now, computed + duration)] else s.leases, now)
    case Release(id, now) => State(Unlocked(s.fields, id), CutAll(s.leases, id, now), now)
  }

  function Run(es: seq<Event>): State
  {
    if es == [] then State(Fields(None, None), [], 0) else Step(Run(es[..|es| - 1]), es[|es| - 1])
  }

  /** Positive durations, a clock that never goes back, and no lock id handed out twice. */
  ghost predicate Fair(es: seq<Event>)
  {
    && (forall i :: 0 <= i < |es| ==> 0 <= es[i].now)
    && (forall i :: 0 <= i < |es| && es[i].Lock? ==> es[i].duration > 0 && es[i].computed <= es[i].now)
    && (forall i, j :: 0 <= i < j < |es| ==> es[i].now <= es[j].now)
    && (forall i, j :: 0 <= i < j < |es| && es[i].Lock? && es[j].Lock? ==> es[i].id != es[j].id)
  }

  ghost predicate Disjoint(ls: seq<Lease>)
  {
    forall i, j :: 0 <= i < j < |ls| ==> ls[i].end <= ls[j].start
  }

  function LockIds(es: seq<Event>): set<LockId>
  {
    if es == [] then {}
    else LockIds(es[..|es| - 1]) + if es[|es| - 1].Lock? then {es[|es| - 1].id} else {}
  }

  lemma {:induction false} LockIdOrigin(es: seq<Event>, id: LockId) returns (k: nat)
    requires id in LockIds(es)
    ensures k < |es| && es[k].Lock? && es[k].id == id
  {
    var n := |es| - 1;
    if id in LockIds(es[..n]) { k := LockIdOrigin(es[..n], id); } else { k := n; }
  }

  /** Leases before the last one are over; the last one is what the fields say, or over. */
  ghost predicate Inv(s: State)
  {
    && Disjoint(s.leases)
    && (forall i :: 0 <= i < |s.leases| ==> s.leases[i].start <= s.now)
    && (forall i, j :: 0 <= i < j < |s.leases| ==> s.leases[i].id != s.leases[j].id)
    && (s.fields.holder.Some? <==> s.fields.until.Some?)
    && (s.fields.holder.Some? ==>
          |s.leases| > 0 && s.leases[|s.leases| - 1].id == s.fields.holder.value
          && s.leases[|s.leases| - 1].end == s.fields.until.value)
    && (forall i :: 0 <= i < |s.leases| && (s.fields.holder.None? || i < |s.leases| - 1) ==> s.leases[i].end <= s.now)
  }

  lemma {:induction false} LockKeepsInv(s: State, e: Event)
    requires Inv(s) && e.Lock? && s.now <= e.now
    requires forall i :: 0 <= i < |s.leases| ==> s.leases[i].id != e.id
    ensures Inv(Step(s, e))
  {
  }

  lemma {:induction false} ReleaseKeepsInv(s: State, e: Event)
    requires Inv(s) && e.Release? && s.now <= e.now
    ensures Inv(Step(s, e))
  {
  }

  ghost predicate IdsFrom(ls: seq<Lease>, ids: set<LockId>)
  {
    forall i :: 0 <= i < |ls| ==> ls[i].id in ids
  }

  lemma {:induction false} StepKeepsInv(s: State, e: Event, ids: set<LockId>)
    requires Inv(s) && s.now <= e.now && IdsFrom(s.leases, ids) && (e.Lock? ==> e.id !in ids)
    ensures Inv(Step(s, e)) && IdsFrom(Step(s, e).leases, ids + if e.Lock? then {e.id} else {})
  {
    if e.Lock? { LockKeepsInv(s, e); } else { ReleaseKeepsInv(s, e); }
  }

  lemma {:induction false} RunKeepsInv(es: seq<Event>)
    requires Fair(es)
    ensures Inv(Run(es)) && IdsFrom(Run(es).leases, LockIds(es))
    ensures Run(es).now == if es == [] then 0 else es[|es| - 1].now
  {
    if es != [] {
      var n := |es| - 1;
      RunKeepsInv(es[..n]);
      assert n > 0 ==> es[n - 1].now <= es[n].now;
      if es[n].Lock? && es[n].id in LockIds(es[..n]) {
        var k := LockIdOrigin(es[..n], es[n].id);
        assert false;
      }
      StepKeepsInv(Run(es[..n]), es[n], LockIds(es[..n]));
    }
  }

  /** Over every fair run, the leases granted on one payment never overlap. */
  lemma {:induction false} LeasesAreDisjoint(es: seq<Event>)
    requires Fair(es)
    ensures Disjoint(Run(es).leases)
  {
    RunKeepsInv(es);
  }

  /** Whoever unlocks ends its own lease and no other: a stale holder cannot cut a later one short, nor
      open the payment while somebody else holds it. */
  lemma {:induction false} UnlockEndsOnlyItsOwnLease(es: seq<Event>, id: LockId, now: int, i: nat)
    requires Fair(es) && Run(es).now <= now && i < |Run(es).leases| && Run(es).leases[i].id != id
    ensures var s, s' := Run(es), Step(Run(es), Release(id, now));
            && s'.leases[i] == s.leases[i]
            && (s.fields.holder == Some(s.leases[i].id) ==> s'.fields == s.fields)
  {
    RunKeepsInv(es);
  }

  /** While a lease is running, the payment cannot be locked by anybody; once it is over, anybody can. */
  lemma {:induction false} LockGrantedExactlyWhenNoLeaseRuns(es: seq<Event>, now: int)
    requires Fair(es) && Run(es).now <= now
    ensures Free(Run(es).fields, now) <==> forall i :: 0 <= i < |Run(es).leases| ==> Run(es).leases[i].end <= now
  {
    RunKeepsInv(es);
    var ls := Run(es).leases;
    if ls != [] { assert ls[|ls| - 1].end <= now || ls[|ls| - 1].end > now; }
  }
}
