/**
 Disputes over payments: the dispute state machine, the payment status each dispute status
 stands for, and the synchronisation between the two.

 Saving a payment goes through the model's save hook, which derives two fields and refuses
 nothing. The controllers and their tests describe another hook, one that refuses any move
 outside the admin table. `guarded` is false for the code as it stands and true for the
 code with the hook it describes.
 */
module Disputes {
  import opened PaymentStatus
  import opened AdminStatus

  datatype DisputeStatus = Open | UnderReview | Resolved | Turned

  datatype Dispute = Dispute(key: Key, student: string, status: DisputeStatus)

  predicate ValidTransition(from: DisputeStatus, to: DisputeStatus)
  {
    match from
    case Open => to in {UnderReview, Resolved, Turned}
    case UnderReview => to in {Resolved, Turned, Open}
    case Resolved => to == Open
    case Turned => to == Open
  }

  /** The payment status a dispute status stands for; `Turned` is a rejected dispute. */
  function Image(d: DisputeStatus): Status
  {
    match d
    case Resolved => Refunded
    case Turned => Success
    case Open => Disputed
    case UnderReview => Disputed
  }

  /** The status a request asks for; anything unknown means resolved. */
  function Verdict(requested: string): DisputeStatus
  {
    if requested == "rejected" then Turned
    else if requested == "under_review" then UnderReview
    else if requested == "open" then Open
    else Resolved
  }

  predicate Active(d: Dispute) { d.status.Open? || d.status.UnderReview? }

  // ---------------------------------------------------------------- the steps, as functions

  datatype Desk = Desk(payments: Payments, owners: map<Key, string>, disputes: seq<Dispute>)

  datatype SyncReply = NoPayment | AlreadyThere | Synced | SaveRefused

  function SyncReplyOf(ps: Payments, key: Key, d: DisputeStatus, guarded: bool): SyncReply
  {
    if key !in ps then NoPayment
    else if ps[key] == Image(d) then AlreadyThere
    else if guarded && !TransitionAllowed(ps[key], Image(d), true) then SaveRefused
    else Synced
  }

  function SyncedPayments(ps: Payments, key: Key, d: DisputeStatus, guarded: bool): Payments
  {
    if SyncReplyOf(ps, key, d, guarded).Synced? then ps[key := Image(d)] else ps
  }

  datatype Reply = Missing | Conflict | NotAllowed | Error | Ok

  predicate HasActive(ds: seq<Dispute>, key: Key)
  {
    exists i :: 0 <= i < |ds| && ds[i].key == key && Active(ds[i])
  }

  /** The dispute is recorded before the payment is synchronised, so it stays when the save is refused. */
  function Flag(s: Desk, key: Key, student: string, guarded: bool): (Desk, Reply)
  {
    if key !in s.payments || key !in s.owners || s.owners[key] != student then (s, Missing)
    else if HasActive(s.disputes, key) then (s, Conflict)
    else
      (s.(disputes := s.disputes + [Dispute(key, student, Open)],
          payments := SyncedPayments(s.payments, key, Open, guarded)),
       if SyncReplyOf(s.payments, key, Open, guarded).SaveRefused? then Error else Ok)
  }

  function Resolve(s: Desk, school: string, id: nat, to: DisputeStatus, guarded: bool): (Desk, Reply)
  {
    if id >= |s.disputes| || s.disputes[id].key.school != school then (s, Missing)
    else if !ValidTransition(s.disputes[id].status, to) then (s, NotAllowed)
    else
      var key := s.disputes[id].key;
      (s.(disputes := s.disputes[id := s.disputes[id].(status := to)],
          payments := SyncedPayments(s.payments, key, to, guarded)),
       if SyncReplyOf(s.payments, key, to, guarded).SaveRefused? then Error else Ok)
  }

  // ---------------------------------------------------------------- the handlers, as they run

  class Controller {
    const guarded: bool
    const owners: map<Key, string>
    var payments: Payments
    var disputes: seq<Dispute>

    constructor (payments: Payments, owners: map<Key, string>, guarded: bool)
      ensures this.guarded == guarded && View() == Desk(payments, owners, [])
    {
      this.guarded, this.owners, this.payments, disputes := guarded, owners, payments, [];
    }

    ghost function View(): Desk
      reads this
    {
      Desk(payments, owners, disputes)
    }

    method SyncPaymentStatus(key: Key, d: DisputeStatus) returns (reply: SyncReply)
      modifies this`payments
      ensures reply == SyncReplyOf(old(payments), key, d, guarded)
      ensures payments == SyncedPayments(old(payments), key, d, guarded)
    {
      var target := Image(d);
      if key !in payments { return NoPayment; }
      if payments[key] == target { return AlreadyThere; }
      if guarded && target !in AdminTransitions(payments[key]) { return SaveRefused; }
      payments := payments[key := target];
      return Synced;
    }

    method FlagDispute(key: Key, student: string) returns (reply: Reply)
      modifies this
      ensures (View(), reply) == Flag(old(View()), key, student, guarded)
    {
      if key !in payments { return Missing; }
      if key !in owners || owners[key] != student { return Missing; }
      if HasActive(disputes, key) { return Conflict; }
      disputes := disputes + [Dispute(key, student, Open)];
      var synced := SyncPaymentStatus(key, Open);
      return if synced.SaveRefused? then Error else Ok;
    }

    method ResolveDispute(school: string, id: nat, requested: string) returns (reply: Reply)
      modifies this
      ensures (View(), reply) == Resolve(old(View()), school, id, Verdict(requested), guarded)
      ensures reply.Ok? && disputes[id].key in payments ==>
                payments[disputes[id].key] ==
                  if requested == "rejected" then Success
                  else if requested == "open" || requested == "under_review" then Disputed else Refunded
    {
      var to := Verdict(requested);
      if id >= |disputes| || disputes[id].key.school != school { return Missing; }
      if !ValidTransition(disputes[id].status, to) { return NotAllowed; }
      disputes := disputes[id := disputes[id].(status := to)];
      var synced := SyncPaymentStatus(disputes[id].key, to);
      return if synced.SaveRefused? then Error else Ok;
    }
  }

  // ---------------------------------------------------------------- one call

  /** A call that returns normally leaves its payment at the image of the new dispute status; with a
      guarded save it fails exactly when that image is a different status without a table edge. */
  lemma SyncMeetsImage(ps: Payments, key: Key, d: DisputeStatus, guarded: bool)
    requires key in ps
    ensures var after := SyncedPayments(ps, key, d, guarded);
            && after.Keys == ps.Keys && (forall k :: k in ps && k != key ==> after[k] == ps[k])
            && (SyncReplyOf(ps, key, d, guarded).SaveRefused? <==>
                  guarded && ps[key] != Image(d) && !TransitionAllowed(ps[key], Image(d), true))
            && (SyncReplyOf(ps, key, d, guarded).SaveRefused? ==> after == ps)
            && (!SyncReplyOf(ps, key, d, guarded).SaveRefused? ==> after[key] == Image(d))
            && (Moves(ps[key], after[key]) <==> guarded || Moves(ps[key], Image(d)))
  {
  }

  lemma NormalReturnMeansImage(s: Desk, key: Key, student: string, school: string, id: nat, to: DisputeStatus,
                               guarded: bool)
    ensures var (r, reply) := Flag(s, key, student, guarded);
            && (reply.Ok? ==> key in r.payments && r.payments[key] == Disputed)
            && (reply.Ok? || reply.Error? ==> r.disputes == s.disputes + [Dispute(key, student, Open)])
            && (reply.Missing? <==> key !in s.payments || key !in s.owners || s.owners[key] != student)
            && (reply.Conflict? <==>
                  && key in s.payments && key in s.owners && s.owners[key] == student
                  && exists i :: 0 <= i < |s.disputes| && s.disputes[i].key == key
                                 && s.disputes[i].status in {Open, UnderReview})
            && (reply.Missing? || reply.Conflict? ==> r == s) && !reply.NotAllowed?
            && (reply.Error? <==>
                  && guarded && key in s.payments && key in s.owners && s.owners[key] == student
                  && !HasActive(s.disputes, key) && !Moves(s.payments[key], Disputed))
    ensures var (r, reply) := Resolve(s, school, id, to, guarded);
            && (reply.Ok? ==> id < |r.disputes| && r.disputes[id].status == to
                              && (r.disputes[id].key in r.payments ==> r.payments[r.disputes[id].key] == Image(to)))
            && (reply.Missing? <==> id >= |s.disputes| || s.disputes[id].key.school != school)
            && (reply.NotAllowed? <==>
                  && id < |s.disputes| && s.disputes[id].key.school == school
                  && (s.disputes[id].status == to || (s.disputes[id].status in {Resolved, Turned} && to != Open)))
            && (reply.Missing? || reply.NotAllowed? ==> r == s) && !reply.Conflict?
            && (reply.Error? <==>
                  && guarded && id < |s.disputes| && s.disputes[id].key.school == school
                  && ValidTransition(s.disputes[id].status, to)
                  && s.disputes[id].key in s.payments && !Moves(s.payments[s.disputes[id].key], Image(to)))
  {
  }

  /** The admin table has no way back from a dispute to success. As the code stands, turning down an
      active dispute over a disputed payment puts the payment to success all the same, off the table.
      With the guard the call would fail instead, the payment would stay disputed, and the dispute
      would be recorded as turned down. */
  lemma TurningDownIsOffTheTable(s: Desk, id: nat, guarded: bool)
    requires id < |s.disputes| && Active(s.disputes[id])
    requires s.disputes[id].key in s.payments && s.payments[s.disputes[id].key] == Disputed
    ensures var key := s.disputes[id].key;
            var (r, reply) := Resolve(s, key.school, id, Turned, guarded);
            && !Moves(Disputed, Image(Turned)) && r.disputes[id].status == Turned
            && (if guarded then reply.Error? && r.payments == s.payments
                else reply.Ok? && r.payments == s.payments[key := Success])
  {
  }

  // ---------------------------------------------------------------- runs

  datatype Event =
    | Single(school: string, hash: string, to: Status)
    | Bulk(school: string, hashes: seq<string>, to: Status)
    | Raise(key: Key, student: string)
    | Decide(school: string, id: nat, verdict: DisputeStatus)

  function Step(s: Desk, guarded: bool, e: Event): Desk
  {
    match e
    case Single(school, hash, to) => s.(payments := Applied(s.payments, Key(school, hash), to))
    case Bulk(school, hashes, to) => s.(payments := ApplyAll(s.payments, school, hashes, to))
    case Raise(key, student) => Flag(s, key, student, guarded).0
    case Decide(school, id, to) => Resolve(s, school, id, to, guarded).0
  }

  function Run(s: Desk, guarded: bool, es: seq<Event>): Desk
  {
    if es == [] then s else Step(Run(s, guarded, es[..|es| - 1]), guarded, es[|es| - 1])
  }

  /** The dispute call that an event synchronises, if it gets that far. */
  predicate Syncs(s: Desk, e: Event, key: Key, d: DisputeStatus)
  {
    match e
    case Raise(k, student) =>
      k == key && d == Open && k in s.payments && k in s.owners && s.owners[k] == student && !HasActive(s.disputes, k)
    case Decide(school, id, to) =>
      id < |s.disputes| && s.disputes[id].key == key && key.school == school && d == to
      && ValidTransition(s.disputes[id].status, to) && key in s.payments
    case _ => false
  }

  /** The payment statuses from which a dispute may go to `d` without leaving the admin table. */
  function SafeFrom(d: DisputeStatus): set<Status>
  {
    match d
    case Resolved => {Success, RefundPending, Disputed, Refunded}
    case Turned => {Pending, RefundPending, Failed, Success}
    case Open => {Success, Failed, Disputed}
    case UnderReview => {Success, Failed, Disputed}
  }

  lemma SafeFromIsTheTable(from: Status, d: DisputeStatus)
    ensures from in SafeFrom(d) <==> Moves(from, Image(d))
  {
  }

  /** What the step is asked to do to this payment is on the table from where the payment is. */
  ghost predicate Asked(s: Desk, e: Event, key: Key)
    requires key in s.payments
  {
    forall d :: Syncs(s, e, key, d) ==> s.payments[key] in SafeFrom(d)
  }

  /** Where a step leaves a payment: admin steps only take table edges, and a dispute step takes its
      image, unless a guard refuses. */
  lemma {:induction false} StepLands(s: Desk, guarded: bool, e: Event, key: Key)
    requires key in s.payments
    ensures key in Step(s, guarded, e).payments
    ensures (forall d :: !Syncs(s, e, key, d)) ==>
              && Moves(s.payments[key], Step(s, guarded, e).payments[key])
              && (e.Raise? || e.Decide? ==> Step(s, guarded, e).payments[key] == s.payments[key])
    ensures forall d :: Syncs(s, e, key, d) ==>
              Step(s, guarded, e).payments[key] ==
                if guarded && s.payments[key] !in SafeFrom(d) then s.payments[key] else Image(d)
  {
    match e
    case Single(school, hash, to) =>
    case Bulk(school, hashes, to) => BulkPointwise(s.payments, school, hashes, to, key);
    case Raise(k, student) =>
      assert Syncs(s, e, key, Open) || Step(s, guarded, e).payments[key] == s.payments[key];
    case Decide(school, id, to) =>
      assert Syncs(s, e, key, to) || Step(s, guarded, e).payments[key] == s.payments[key];
  }

  /** An admin step moves exactly the payments it names, by school and hash, and only along an edge. */
  lemma {:induction false} AdminStepLands(s: Desk, guarded: bool, e: Event, key: Key)
    requires key in s.payments && (e.Single? || e.Bulk?)
    ensures var named := if e.Single? then key.hash == e.hash else key.hash in e.hashes;
            key in Step(s, guarded, e).payments &&
            Step(s, guarded, e).payments[key] ==
              if key.school == e.school && named && e.to in AdminTransitions(s.payments[key])
              then e.to else s.payments[key]
    ensures Step(s, guarded, e).disputes == s.disputes
  {
    if e.Bulk? { BulkPointwise(s.payments, e.school, e.hashes, e.to, key); }
  }

  /** A step keeps a payment on the admin table exactly when the save is guarded or the payment is in
      a status its dispute call may start from. */
  lemma {:induction false} StepMovesExactly(s: Desk, guarded: bool, e: Event, key: Key)
    requires key in s.payments
    ensures key in Step(s, guarded, e).payments
    ensures Moves(s.payments[key], Step(s, guarded, e).payments[key]) <==> guarded || Asked(s, e, key)
  {
    StepLands(s, guarded, e, key);
    forall d | Syncs(s, e, key, d)
      ensures Moves(s.payments[key], Step(s, guarded, e).payments[key]) <==> guarded || s.payments[key] in SafeFrom(d)
    {
      SafeFromIsTheTable(s.payments[key], d);
    }
    OneSync(s, e, key);
  }

  /** An event synchronises a payment for at most one dispute status. */
  lemma OneSync(s: Desk, e: Event, key: Key)
    ensures forall d, d' :: Syncs(s, e, key, d) && Syncs(s, e, key, d') ==> d == d'
  {
  }

  /** The statuses a payment goes through, step by step. */
  function Path(s: Desk, guarded: bool, es: seq<Event>, key: Key): (path: seq<Status>)
    requires key in s.payments
    ensures |path| == |es| + 1
  {
    if es == [] then [s.payments[key]]
    else
      var r := Run(s, guarded, es);
      Path(s, guarded, es[..|es| - 1], key) + [if key in r.payments then r.payments[key] else Invalid]
  }

  lemma {:induction false} PathEnds(s: Desk, guarded: bool, es: seq<Event>, key: Key)
    requires key in s.payments
    ensures key in Run(s, guarded, es).payments && Path(s, guarded, es, key)[|es|] == Run(s, guarded, es).payments[key]
  {
    if es != [] {
      PathEnds(s, guarded, es[..|es| - 1], key);
      StepMovesExactly(Run(s, guarded, es[..|es| - 1]), guarded, es[|es| - 1], key);
    }
  }

  /** The payment's status before event `i`, and at the end for `i == |es|`. */
  lemma {:induction false} PathAt(s: Desk, guarded: bool, es: seq<Event>, key: Key, i: nat)
    requires key in s.payments && i <= |es|
    ensures key in Run(s, guarded, es[..i]).payments
    ensures Path(s, guarded, es, key)[i] == Run(s, guarded, es[..i]).payments[key]
    decreases |es|
  {
    if i == |es| {
      assert es[..i] == es;
      PathEnds(s, guarded, es, key);
    } else {
      var front := es[..|es| - 1];
      PathAt(s, guarded, front, key, i);
      assert front[..i] == es[..i];
    }
  }

  /** Event `i` of the run asks for a move that is on the table. */
  ghost predicate AskedAt(s: Desk, guarded: bool, es: seq<Event>, key: Key, i: nat)
    requires key in s.payments && i < |es|
  {
    var r := Run(s, guarded, es[..i]); key in r.payments && Asked(r, es[i], key)
  }

  lemma {:induction false} PathMoves(s: Desk, guarded: bool, es: seq<Event>, key: Key, i: nat)
    requires key in s.payments && i < |es|
    ensures var path := Path(s, guarded, es, key);
            Moves(path[i], path[i + 1]) <==> guarded || AskedAt(s, guarded, es, key, i)
  {
    PathAt(s, guarded, es, key, i);
    PathAt(s, guarded, es, key, i + 1);
    assert es[..i + 1][..i] == es[..i];
    StepMovesExactly(Run(s, guarded, es[..i]), guarded, es[i], key);
  }

  /** Over every run of admin, bulk and dispute steps, of the code as it stands or with the guard: a
      payment moves along the admin table exactly when every dispute call finds it in a status it may
      start from, or the guard is there. */
  lemma {:induction false} RunWalksExactly(s: Desk, guarded: bool, es: seq<Event>, key: Key)
    requires key in s.payments
    ensures Walk(Path(s, guarded, es, key)) <==>
              guarded || forall i :: 0 <= i < |es| ==> AskedAt(s, guarded, es, key, i)
  {
    var path := Path(s, guarded, es, key);
    if Walk(path) {
      forall i | 0 <= i < |es| ensures guarded || AskedAt(s, guarded, es, key, i)
      {
        PathMoves(s, guarded, es, key, i);
        assert Moves(path[i + 1 - 1], path[i + 1]);
      }
    } else {
      var j :| 0 < j < |path| && !Moves(path[j - 1], path[j]);
      PathMoves(s, guarded, es, key, j - 1);
    }
  }

  /** On such a run what was refunded stays refunded and is never counted as paid again. */
  lemma {:induction false} SafeRuns(s: Desk, guarded: bool, es: seq<Event>, key: Key, i: nat, j: nat)
    requires key in s.payments && i <= j <= |es|
    requires guarded || forall k :: 0 <= k < |es| ==> AskedAt(s, guarded, es, key, k)
    ensures var path := Path(s, guarded, es, key);
            path[i] == Refunded ==> path[j] == Refunded && !CountedAsPaid(path[j])
  {
    RunWalksExactly(s, guarded, es, key);
    WalksAreSafe(Path(s, guarded, es, key), i, j);
  }

  /** No admin edge leads to an initial status, and neither is the image of a dispute status. */
  lemma {:induction false} StepNotInitial(s: Desk, guarded: bool, e: Event, key: Key)
    requires key in s.payments
    ensures key in Step(s, guarded, e).payments
    ensures Step(s, guarded, e).payments[key] in {Pending, Submitted} ==>
              Step(s, guarded, e).payments[key] == s.payments[key]
  {
    StepLands(s, guarded, e, key);
  }

  /** In every run whatsoever, guarded or not, no payment enters an initial status. */
  lemma {:induction false} InitialNeverEntered(s: Desk, guarded: bool, es: seq<Event>, key: Key, i: nat, j: nat)
    requires key in s.payments && i <= j <= |es|
    ensures var path := Path(s, guarded, es, key);
            path[j] in {Pending, Submitted} ==> path[i] == path[j]
    decreases j - i
  {
    if i < j {
      InitialNeverEntered(s, guarded, es, key, i, j - 1);
      PathAt(s, guarded, es, key, j - 1);
      PathAt(s, guarded, es, key, j);
      assert es[..j][..j - 1] == es[..j - 1];
      StepNotInitial(Run(s, guarded, es[..j - 1]), guarded, es[j - 1], key);
    }
  }

  // ---------------------------------------------------------------- refunds, as the code stands

  /** A dispute call that takes the payment to anything but resolved. */
  ghost predicate Reopens(s: Desk, e: Event, key: Key)
  {
    exists d :: Syncs(s, e, key, d) && d != Resolved
  }

  /** A refunded payment is left by exactly those. */
  lemma {:induction false} RefundLeftExactly(s: Desk, e: Event, key: Key)
    requires key in s.payments && s.payments[key] == Refunded
    ensures key in Step(s, false, e).payments
    ensures Step(s, false, e).payments[key] != Refunded <==> Reopens(s, e, key)
  {
    StepLands(s, false, e, key);
    OneSync(s, e, key);
    assert Image(Resolved) == Refunded;
  }

  /** Event `k` of the run is such a call. */
  ghost predicate ReopensAt(s: Desk, es: seq<Event>, key: Key, k: nat)
    requires k < |es|
  {
    Reopens(Run(s, false, es[..k]), es[k], key)
  }

  ghost predicate NeverReopened(s: Desk, es: seq<Event>, key: Key)
  {
    forall k :: 0 <= k < |es| ==> !ReopensAt(s, es, key, k)
  }

  predicate AllRefunded(path: seq<Status>)
  {
    forall i :: 0 <= i < |path| ==> path[i] == Refunded
  }

  lemma {:induction false} RefundStep(s: Desk, es: seq<Event>, key: Key, i: nat)
    requires key in s.payments && i < |es| && Path(s, false, es, key)[i] == Refunded
    ensures Path(s, false, es, key)[i + 1] == Refunded <==> !ReopensAt(s, es, key, i)
  {
    PathAt(s, false, es, key, i);
    PathAt(s, false, es, key, i + 1);
    assert es[..i + 1][..i] == es[..i];
    RefundLeftExactly(Run(s, false, es[..i]), es[i], key);
  }

  lemma {:induction false} RefundedUntil(s: Desk, es: seq<Event>, key: Key, i: nat)
    requires key in s.payments && s.payments[key] == Refunded && i <= |es| && NeverReopened(s, es, key)
    ensures Path(s, false, es, key)[i] == Refunded
  {
    if i == 0 {
      PathAt(s, false, es, key, 0);
    } else {
      RefundedUntil(s, es, key, i - 1);
      RefundStep(s, es, key, i - 1);
    }
  }

  /** So a refund is final over a whole run exactly when no such call is made. */
  lemma {:induction false} RefundFinalExactly(s: Desk, es: seq<Event>, key: Key)
    requires key in s.payments && s.payments[key] == Refunded
    ensures AllRefunded(Path(s, false, es, key)) <==> NeverReopened(s, es, key)
  {
    var path := Path(s, false, es, key);
    if AllRefunded(path) {
      forall k | 0 <= k < |es| ensures !ReopensAt(s, es, key, k) { RefundStep(s, es, key, k); }
    }
    if NeverReopened(s, es, key) {
      forall i | 0 <= i < |path| ensures path[i] == Refunded { RefundedUntil(s, es, key, i); }
    }
  }

  /** The money of any refunded payment can be counted as paid again: raise a dispute over it and turn
      the dispute down. */
  lemma {:induction false} RefundCountsAgainWithoutGuard(key: Key, student: string)
    ensures var s := Desk(map[key := Refunded], map[key := student], []);
            var r := Run(s, false, [Raise(key, student), Decide(key.school, 0, Turned)]);
            key in r.payments && CountedAsPaid(r.payments[key])
  {
    var s := Desk(map[key := Refunded], map[key := student], []);
    var es := [Raise(key, student), Decide(key.school, 0, Turned)];
    var s1 := Desk(map[key := Disputed], map[key := student], [Dispute(key, student, Open)]);
    assert Step(s, false, es[0]) == s1;
    assert es[..1][..0] == [] && es[..1] == [es[0]];
    assert Run(s, false, es[..1]) == s1;
  }

  // ---------------------------------------------------------------- one active dispute per payment

  ghost predicate OneActive(ds: seq<Dispute>)
  {
    forall i, j :: 0 <= i < j < |ds| && ds[i].key == ds[j].key ==> !(Active(ds[i]) && Active(ds[j]))
  }

  /** A decision that re-opens a closed dispute while another one over the same payment is active. */
  predicate ReopensBesideActive(s: Desk, e: Event)
  {
    e.Decide? && e.id < |s.disputes| && s.disputes[e.id].key.school == e.school
    && !Active(s.disputes[e.id]) && e.verdict == Open && HasActive(s.disputes, s.disputes[e.id].key)
  }

  /** A payment has at most one active dispute, and keeps it so through every step but that one. */
  lemma {:induction false} OneActiveKeptExactly(s: Desk, guarded: bool, e: Event)
    requires OneActive(s.disputes)
    ensures OneActive(Step(s, guarded, e).disputes) <==> !ReopensBesideActive(s, e)
  {
    var ds, ds' := s.disputes, Step(s, guarded, e).disputes;
    if ReopensBesideActive(s, e) {
      var i :| 0 <= i < |ds| && ds[i].key == ds[e.id].key && Active(ds[i]);
      var lo, hi := if i < e.id then i else e.id, if i < e.id then e.id else i;
      assert ds'[lo].key == ds'[hi].key && Active(ds'[lo]) && Active(ds'[hi]);
    }
  }

  /** The disputes as they are before event `k` of the run, and at its end for `k == |es|`. */
  function DisputesAt(s: Desk, guarded: bool, es: seq<Event>, k: nat): seq<Dispute>
    requires k <= |es|
  {
    Run(s, guarded, es[..k]).disputes
  }

  /** Event `k` of the run re-opens a dispute beside an active one. */
  ghost predicate ReopensBesideActiveAt(s: Desk, guarded: bool, es: seq<Event>, k: nat)
    requires k < |es|
  {
    ReopensBesideActive(Run(s, guarded, es[..k]), es[k])
  }

  lemma {:induction false} OneActiveStep(s: Desk, guarded: bool, es: seq<Event>, k: nat)
    requires k < |es| && OneActive(DisputesAt(s, guarded, es, k))
    ensures OneActive(DisputesAt(s, guarded, es, k + 1)) <==> !ReopensBesideActiveAt(s, guarded, es, k)
  {
    assert es[..k + 1][..k] == es[..k];
    OneActiveKeptExactly(Run(s, guarded, es[..k]), guarded, es[k]);
  }

  ghost predicate AlwaysOneActive(s: Desk, guarded: bool, es: seq<Event>)
  {
    forall k :: 0 <= k <= |es| ==> OneActive(DisputesAt(s, guarded, es, k))
  }

  ghost predicate NeverReopensBesideActive(s: Desk, guarded: bool, es: seq<Event>)
  {
    forall k :: 0 <= k < |es| ==> !ReopensBesideActiveAt(s, guarded, es, k)
  }

  lemma {:induction false} OneActiveUntil(s: Desk, guarded: bool, es: seq<Event>, k: nat)
    requires OneActive(s.disputes) && k <= |es| && NeverReopensBesideActive(s, guarded, es)
    ensures OneActive(DisputesAt(s, guarded, es, k))
  {
    if k > 0 {
      OneActiveUntil(s, guarded, es, k - 1);
      OneActiveStep(s, guarded, es, k - 1);
    }
  }

  /** Over a whole run, every payment has at most one active dispute all along exactly when no decision
      re-opens one beside another. */
  lemma {:induction false} OneActiveAlwaysExactly(s: Desk, guarded: bool, es: seq<Event>)
    requires OneActive(s.disputes)
    ensures AlwaysOneActive(s, guarded, es) <==> NeverReopensBesideActive(s, guarded, es)
  {
    if AlwaysOneActive(s, guarded, es) {
      forall k | 0 <= k < |es| ensures !ReopensBesideActiveAt(s, guarded, es, k) { OneActiveStep(s, guarded, es, k); }
    }
    if NeverReopensBesideActive(s, guarded, es) {
      forall k | 0 <= k <= |es| ensures OneActive(DisputesAt(s, guarded, es, k)) { OneActiveUntil(s, guarded, es, k); }
    }
  }

  /** Raise, turn down, raise again, re-open the first one: any payment can get two active disputes. */
  lemma {:induction false} TwoActiveDisputes(key: Key, student: string)
    ensures var s := Desk(map[key := Success], map[key := student], []);
            var raise := Raise(key, student);
            var r := Run(s, false, [raise, Decide(key.school, 0, Turned), raise, Decide(key.school, 0, Open)]);
            OneActive(s.disputes) && !OneActive(r.disputes)
  {
    var s := Desk(map[key := Success], map[key := student], []);
    var raise, down, again := Raise(key, student), Decide(key.school, 0, Turned), Decide(key.school, 0, Open);
    var open, closed := Dispute(key, student, Open), Dispute(key, student, Turned);
    var s1 := Desk(map[key := Disputed], map[key := student], [open]);
    var s2 := Desk(map[key := Success], map[key := student], [closed]);
    var s3 := Desk(map[key := Disputed], map[key := student], [closed, open]);
    var s4 := Desk(map[key := Disputed], map[key := student], [open, open]);
    assert Step(s, false, raise) == s1 && Step(s1, false, down) == s2;
    assert !HasActive(s2.disputes, key);
    assert Step(s2, false, raise) == s3 && Step(s3, false, again) == s4;
    RunFour(s, raise, down, raise, again);
    assert Active(s4.disputes[0]) && Active(s4.disputes[1]);
  }

  lemma RunSnoc(s: Desk, es: seq<Event>, e: Event)
    ensures Run(s, false, es + [e]) == Step(Run(s, false, es), false, e)
  {
    assert (es + [e])[..|es|] == es;
  }

  lemma RunFour(s: Desk, a: Event, b: Event, c: Event, d: Event)
    ensures Run(s, false, [a, b, c, d]) == Step(Step(Step(Step(s, false, a), false, b), false, c), false, d)
  {
    RunSnoc(s, [], a);
    RunSnoc(s, [a], b);
    RunSnoc(s, [a, b], c);
    RunSnoc(s, [a, b, c], d);
    assert [a, b, c] + [d] == [a, b, c, d] && [a, b] + [c] == [a, b, c] && [a] + [b] == [a, b] && [] + [a] == [a];
  }

  // ---------------------------------------------------------------- what a request asks for

  /** In the words of the request: a decision that goes through leaves the payment where the word says,
      and the dispute too; a word not known means resolved. */
  lemma {:induction false} RequestMeansStatus(s: Desk, school: string, id: nat, requested: string, guarded: bool)
    requires id < |s.disputes| && s.disputes[id].key in s.payments
    requires Resolve(s, school, id, Verdict(requested), guarded).1.Ok?
    ensures var r, key := Resolve(s, school, id, Verdict(requested), guarded).0, s.disputes[id].key;
            && id < |r.disputes| && key in r.payments
            && (requested == "rejected" ==> r.payments[key] == Success && r.disputes[id].status == Turned)
            && (requested == "open" ==> r.payments[key] == Disputed && r.disputes[id].status == Open)
            && (requested == "under_review" ==> r.payments[key] == Disputed && r.disputes[id].status == UnderReview)
            && (requested != "rejected" && requested != "open" && requested != "under_review" ==>
                  r.payments[key] == Refunded && r.disputes[id].status == Resolved)
  {
  }
}
