/**
 Where the money in the payment rows comes from, and what the callers are told about it.
 */
module VerifyPaymentCredit {
  import opened VerifyPayment
  import opened VerifyPaymentSafety

  // ---------------------------------------------------------------- every row was paid on chain

  /** Event `k` of the run is the chain step of a call for `tx`, and the chain replied that `who`
      was paid `amount`. */
  ghost predicate ChainSaid(s: State, es: seq<Event>, k: nat, tx: TxKey, who: StudentKey, amount: nat)
    requires k < |es|
  {
    var r := Run(s, es[..k]);
    && es[k].Advance? && es[k].p < |r.calls|
    && r.calls[es[k].p].tx == tx && r.calls[es[k].p].pc.ReadChain?
    && es[k].env.reply == Pays(who.student, amount)
  }

  ghost predicate PaidOnChain(s: State, es: seq<Event>, tx: TxKey, who: StudentKey, amount: nat)
  {
    who.school == tx.school && exists k :: 0 <= k < |es| && ChainSaid(s, es, k, tx, who, amount)
  }

  predicate PastChain(c: Call)
  {
    c.pc.FindStudent? || c.pc.AcquireStudent? || c.pc.Aggregate? || c.pc.Record?
  }

  ghost predicate CallBacked(s: State, es: seq<Event>, c: Call)
  {
    PastChain(c) ==> PaidOnChain(s, es, c.tx, c.who, c.amount)
  }

  ghost predicate RowBacked(s: State, es: seq<Event>, row: Payment)
  {
    PaidOnChain(s, es, row.key, row.who, row.amount)
  }

  /** In the state `r` that the run leads to, calls and new rows go back to chain replies. */
  ghost predicate Backed(s: State, es: seq<Event>, r: State)
  {
    && (forall p :: 0 <= p < |r.calls| ==> CallBacked(s, es, r.calls[p]))
    && (forall i :: r.base <= i < |r.payments| ==> RowBacked(s, es, r.payments[i]))
  }

  lemma EvidenceKept(s: State, es: seq<Event>, e: Event, tx: TxKey, who: StudentKey, amount: nat)
    requires PaidOnChain(s, es, tx, who, amount)
    ensures PaidOnChain(s, es + [e], tx, who, amount)
  {
    var k :| 0 <= k < |es| && ChainSaid(s, es, k, tx, who, amount);
    assert (es + [e])[k] == es[k] && (es + [e])[..k] == es[..k];
    assert ChainSaid(s, es + [e], k, tx, who, amount);
  }

  lemma EvidenceFound(s: State, es: seq<Event>, e: Event, r: State, who: StudentKey, amount: nat)
    requires r == Run(s, es) && e.Advance? && e.p < |r.calls| && r.calls[e.p].pc.ReadChain?
    requires e.env.reply == Pays(who.student, amount) && who.school == r.calls[e.p].tx.school
    ensures PaidOnChain(s, es + [e], r.calls[e.p].tx, who, amount)
  {
    assert (es + [e])[|es|] == e && (es + [e])[..|es|] == es;
    assert ChainSaid(s, es + [e], |es|, r.calls[e.p].tx, who, amount);
  }

  lemma MoveKeepsTx(s: State, c: Call, env: Env)
    ensures CallMove(s, c, env).call.tx == c.tx
  {
  }

  /** Only the chain step brings in a student and an amount; later steps carry them along. */
  lemma MoveCarries(s: State, c: Call, env: Env)
    ensures var c' := CallMove(s, c, env).call;
            PastChain(c') ==>
              if c.pc.ReadChain? then env.reply == Pays(c'.who.student, c'.amount) && c'.who.school == c.tx.school
              else PastChain(c) && c'.who == c.who && c'.amount == c.amount
    ensures CallMove(s, c, env).effect.Insert? ==> c.pc.Record?
  {
  }

  lemma OwnCallBacked(s: State, es: seq<Event>, r: State, p: nat, env: Env)
    requires r == Run(s, es) && p < |r.calls| && CallBacked(s, es, r.calls[p])
    ensures CallBacked(s, es + [Advance(p, env)], CallMove(r, r.calls[p], env).call)
  {
    var c, c' := r.calls[p], CallMove(r, r.calls[p], env).call;
    MoveCarries(r, c, env);
    MoveKeepsTx(r, c, env);
    if PastChain(c') {
      if c.pc.ReadChain? { EvidenceFound(s, es, Advance(p, env), r, c'.who, c'.amount); }
      else { EvidenceKept(s, es, Advance(p, env), c.tx, c.who, c.amount); }
    }
  }

  /** A step that adds a row is the insert of one call. */
  lemma NewRowIsInserted(s: State, e: Event, i: nat)
    requires |s.payments| <= i < |Step(s, e).payments|
    ensures e.Advance? && e.p < |s.calls| && s.calls[e.p].pc.Record? && Step(s, e).payments[i] == NewRow(s.calls[e.p])
  {
    if e.Advance? && e.p < |s.calls| { MoveCarries(s, s.calls[e.p], e.env); }
  }

  lemma RowStaysBacked(s: State, es: seq<Event>, r: State, e: Event, i: nat)
    requires Backed(s, es, r) && r.base <= i < |Step(r, e).payments| && r.base <= |r.payments|
    ensures RowBacked(s, es + [e], Step(r, e).payments[i])
  {
    RowsOnlyAppended(r, e);
    if i < |r.payments| {
      var row := r.payments[i];
      assert RowBacked(s, es, row);
      EvidenceKept(s, es, e, row.key, row.who, row.amount);
    } else {
      NewRowIsInserted(r, e, i);
      var c := r.calls[e.p];
      assert CallBacked(s, es, c);
      EvidenceKept(s, es, e, c.tx, c.who, c.amount);
    }
  }

  lemma CallStaysBacked(s: State, es: seq<Event>, r: State, e: Event, q: nat)
    requires r == Run(s, es) && Backed(s, es, r) && q < |Step(r, e).calls|
    ensures CallBacked(s, es + [e], Step(r, e).calls[q])
  {
    if e.Advance? && q == e.p {
      OwnCallBacked(s, es, r, q, e.env);
    } else if q < |r.calls| {
      var c := r.calls[q];
      assert Step(r, e).calls[q] == c && CallBacked(s, es, c);
      if PastChain(c) { EvidenceKept(s, es, e, c.tx, c.who, c.amount); }
    }
  }

  /** No money out of thin air: every row a run adds repeats the reply that the chain gave to a call
      for exactly that transaction at its chain step, student and amount included. */
  lemma {:induction false} EveryRowWasPaid(s: State, es: seq<Event>)
    requires Init(s)
    ensures Backed(s, es, Run(s, es))
  {
    if es != [] {
      var n := |es| - 1;
      var r, e := Run(s, es[..n]), es[n];
      EveryRowWasPaid(s, es[..n]);
      HistoryGrows(s, es[..n]);
      assert es[..n] + [e] == es;
      forall q | 0 <= q < |Step(r, e).calls| ensures CallBacked(s, es, Step(r, e).calls[q])
      {
        CallStaysBacked(s, es[..n], r, e, q);
      }
      forall i | r.base <= i < |Step(r, e).payments| ensures RowBacked(s, es, Step(r, e).payments[i])
      {
        RowStaysBacked(s, es[..n], r, e, i);
      }
      RowsOnlyAppended(r, e);
    }
  }

  // ---------------------------------------------------------------- every answer has its reason

  ghost predicate AnswersRow(ps: seq<Payment>, tx: TxKey, a: Answer)
  {
    exists i :: 0 <= i < |ps| && ps[i].key == tx && Visible(ps[i]) && AnswerOf(ps[i]) == a
  }

  /** Why a step may settle on an outcome. In particular a call answers from a row only if that row
      is visible, refuses or queues only on the chain's word, and reports a lock as held only when it
      is (or could not be asked for). */
  ghost predicate Reason(s: State, c: Call, env: Env, o: Outcome)
  {
    match o
    case Pending => false
    case Verified(cached, a) =>
      if cached then AnswersRow(s.payments, c.tx, a)
      else c.pc.Record? && !HasKey(s.payments, c.tx) && a == AnswerOf(NewRow(c))
    case InProgress =>
      || (c.pc.AcquireVerify? && (env.fails || c.tx in s.verifyLocks))
      || (c.pc.AcquireStudent? && (env.fails || c.who in s.studentLocks))
    case Refused => c.pc.ReadChain? && env.reply.PermanentFailure?
    case Queued => c.pc.ReadChain? && env.reply.Unavailable?
    case NotFound => (c.pc.ReadChain? && env.reply.NoPayment?) || (c.pc.FindStudent? && c.who !in s.students)
    case Failed => env.fails || (c.pc.DupLookup? && FindVisible(s.payments, c.tx) == |s.payments|)
  }

  lemma EveryOutcomeHasItsReason(s: State, c: Call, env: Env)
    ensures var o := CallMove(s, c, env).call.outcome; o == c.outcome || Reason(s, c, env, o)
  {
    var i := FindVisible(s.payments, c.tx);
    if i < |s.payments| { assert AnswersRow(s.payments, c.tx, AnswerOf(s.payments[i])); }
  }

  // ---------------------------------------------------------------- hidden rows

  /** The transaction has a row, and it is one that no answer may come from. */
  ghost predicate HiddenRow(ps: seq<Payment>, tx: TxKey, i: nat)
  {
    i < |ps| && ps[i].key == tx && !Visible(ps[i]) && UniqueKeys(ps)
  }

  ghost predicate NotVerified(calls: seq<Call>, tx: TxKey)
  {
    forall p :: 0 <= p < |calls| && calls[p].tx == tx ==> !calls[p].outcome.Verified?
  }

  lemma SameKeySameRow(ps: seq<Payment>, i: nat, j: nat)
    requires UniqueKeys(ps) && i < |ps| && j < |ps|
    ensures ps[i].key == ps[j].key ==> i == j
  {
    assert i < j || j < i || i == j;
  }

  /** Then no step verifies: there is nothing to answer from, and the index refuses a second row. */
  lemma HiddenRowStopsStep(s: State, c: Call, env: Env, i: nat)
    requires HiddenRow(s.payments, c.tx, i) && !c.outcome.Verified?
    ensures !CallMove(s, c, env).call.outcome.Verified?
  {
    EveryOutcomeHasItsReason(s, c, env);
    assert HasKey(s.payments, c.tx);
    forall j | 0 <= j < |s.payments| && s.payments[j].key == c.tx ensures !Visible(s.payments[j])
    {
      SameKeySameRow(s.payments, i, j);
    }
  }

  /** No step adds a row for a transaction that has one. */
  lemma UniqueKept(s: State, e: Event)
    requires UniqueKeys(s.payments)
    ensures UniqueKeys(Step(s, e).payments)
  {
    RowsOnlyAppended(s, e);
    if e.Advance? && e.p < |s.calls| { MovesAreLegal(s, s.calls[e.p], e.env); }
  }

  lemma HiddenStays(s: State, e: Event, tx: TxKey, i: nat)
    requires HiddenRow(s.payments, tx, i)
    ensures HiddenRow(Step(s, e).payments, tx, i)
  {
    RowsOnlyAppended(s, e);
    UniqueKept(s, e);
  }

  lemma NotVerifiedStays(s: State, e: Event, tx: TxKey, i: nat)
    requires HiddenRow(s.payments, tx, i) && NotVerified(s.calls, tx)
    ensures NotVerified(Step(s, e).calls, tx)
  {
    if e.Advance? && e.p < |s.calls| {
      var c := s.calls[e.p];
      MoveKeepsTx(s, c, e.env);
      assert Step(s, e).calls == s.calls[e.p := CallMove(s, c, e.env).call];
      if c.tx == tx { HiddenRowStopsStep(s, c, e.env, i); }
    }
  }

  /** A rejected or deleted row keeps its transaction from ever being verified: in every run, whatever
      the chain says, no call for it is told that it is credited. */
  lemma {:induction false} HiddenRowBlocksForever(s: State, es: seq<Event>, tx: TxKey, i: nat)
    requires HiddenRow(s.payments, tx, i) && NotVerified(s.calls, tx)
    ensures HiddenRow(Run(s, es).payments, tx, i) && NotVerified(Run(s, es).calls, tx)
  {
    if es != [] {
      var n := |es| - 1;
      HiddenRowBlocksForever(s, es[..n], tx, i);
      HiddenStays(Run(s, es[..n]), es[n], tx, i);
      NotVerifiedStays(Run(s, es[..n]), es[n], tx, i);
    }
  }

  // ---------------------------------------------------------------- one fresh answer per transaction

  predicate Fresh(c: Call) { c.outcome.Verified? && !c.outcome.cached }

  ghost predicate FreshUnique(calls: seq<Call>)
  {
    forall p, q :: 0 <= p < |calls| && 0 <= q < |calls| && p != q && Fresh(calls[p]) && Fresh(calls[q]) ==>
      calls[p].tx != calls[q].tx
  }

  /** A call is told "just credited" only by inserting, and only where there was no row. */
  lemma FreshOnlyByInsert(s: State, c: Call, env: Env)
    ensures var c' := CallMove(s, c, env).call; c'.tx == c.tx && (Fresh(c') ==> Fresh(c) || !HasKey(s.payments, c.tx))
  {
  }

  lemma FreshHasRow(s: State, p: nat)
    requires Locals(s) && p < |s.calls| && Fresh(s.calls[p])
    ensures HasKey(s.payments, s.calls[p].tx)
  {
    assert LocalsOk(s, s.calls[p]);
    var i :| 0 <= i < |s.payments| && AnswerOf(s.payments[i]) == s.calls[p].outcome.answer;
  }

  lemma StepKeepsFreshUnique(s: State, e: Event)
    requires Inv(s) && FreshUnique(s.calls)
    ensures FreshUnique(Step(s, e).calls)
  {
    if e.Advance? && e.p < |s.calls| {
      var c' := CallMove(s, s.calls[e.p], e.env).call;
      FreshOnlyByInsert(s, s.calls[e.p], e.env);
      assert Step(s, e).calls == s.calls[e.p := c'];
      forall q | 0 <= q < |s.calls| && q != e.p && Fresh(s.calls[q]) && Fresh(c') ensures s.calls[q].tx != c'.tx
      {
        FreshHasRow(s, q);
      }
    }
  }

  /** However many calls verify a transaction, at most one of them is told that it has just been
      credited; every other verified answer is marked as cached. */
  lemma {:induction false} OneFreshAnswerPerTransaction(s: State, es: seq<Event>)
    requires Init(s)
    ensures FreshUnique(Run(s, es).calls)
  {
    if es != [] {
      var n := |es| - 1;
      OneFreshAnswerPerTransaction(s, es[..n]);
      RunKeepsInv(s, es[..n]);
      StepKeepsFreshUnique(Run(s, es[..n]), es[n]);
    }
  }

  // ---------------------------------------------------------------- what the callers are told

  /** Row `i` is the transaction's own, may be answered from, and the answer repeats its fields. */
  ghost predicate Tells(a: Answer, ps: seq<Payment>, tx: TxKey, i: int)
  {
    && 0 <= i < |ps| && ps[i].key == tx && ps[i].status != Rejected && !ps[i].deleted
    && a.tx == tx && a.who == ps[i].who && a.amount == ps[i].amount
    && a.feeStatus == ps[i].feeStatus && a.excess == ps[i].excess
  }

  ghost predicate Told(c: Call, ps: seq<Payment>, base: nat)
  {
    c.outcome.Verified? ==>
      exists i :: Tells(c.outcome.answer, ps, c.tx, i) && (!c.outcome.cached ==> i >= base)
  }

  lemma ToldStays(c: Call, ps: seq<Payment>, ps': seq<Payment>, base: nat)
    requires Told(c, ps, base) && ps <= ps'
    ensures Told(c, ps', base)
  {
    if c.outcome.Verified? {
      var i :| Tells(c.outcome.answer, ps, c.tx, i) && (!c.outcome.cached ==> i >= base);
      assert Tells(c.outcome.answer, ps', c.tx, i);
    }
  }

  lemma MoveTells(s: State, c: Call, env: Env)
    requires Told(c, s.payments, s.base) && s.base <= |s.payments|
    ensures var m := CallMove(s, c, env); Told(m.call, Perform(s, c, m.effect).payments, s.base)
  {
    var m := CallMove(s, c, env);
    MoveKeepsTx(s, c, env);
    EveryOutcomeHasItsReason(s, c, env);
    var o := m.call.outcome;
    if o.Verified? && o != c.outcome {
      if o.cached {
        var i :| 0 <= i < |s.payments| && s.payments[i].key == c.tx && Visible(s.payments[i])
                 && AnswerOf(s.payments[i]) == o.answer;
        assert Tells(o.answer, s.payments, c.tx, i);
        assert m.effect.Quiet?;
      } else {
        assert m.effect.Insert?;
        assert Tells(o.answer, s.payments + [NewRow(c)], c.tx, |s.payments|);
      }
    } else if o.Verified? {
      assert s.payments <= Perform(s, c, m.effect).payments;
      ToldStays(c, s.payments, Perform(s, c, m.effect).payments, s.base);
    }
  }

  lemma {:induction false} EveryoneIsTold(s: State, es: seq<Event>, p: nat)
    requires Init(s) && p < |Run(s, es).calls|
    ensures Told(Run(s, es).calls[p], Run(s, es).payments, |s.payments|)
  {
    if es != [] {
      var n := |es| - 1;
      var r, e := Run(s, es[..n]), es[n];
      HistoryGrows(s, es[..n]);
      if p < |r.calls| {
        EveryoneIsTold(s, es[..n], p);
        if e.Advance? && e.p == p {
          MoveTells(r, r.calls[p], e.env);
        } else {
          RowsOnlyAppended(r, e);
          ToldStays(r.calls[p], r.payments, Step(r, e).payments, |s.payments|);
        }
      }
    }
  }

  /** Every verified answer of every run tells the student, amount, status and excess of the one row its
      transaction has, a row that is neither rejected nor deleted; if this run wrote the row, the chain
      said so; and an answer that is not cached is about a row this run wrote. */
  lemma {:induction false} AnswersTellTheTruth(s: State, es: seq<Event>, p: nat)
    requires Init(s) && p < |Run(s, es).calls| && Run(s, es).calls[p].outcome.Verified?
    ensures var r := Run(s, es);
            var c := r.calls[p];
            exists i :: Tells(c.outcome.answer, r.payments, c.tx, i)
                        && (!c.outcome.cached ==> i >= |s.payments|)
                        && (i >= |s.payments| ==>
                              PaidOnChain(s, es, c.tx, c.outcome.answer.who, c.outcome.answer.amount))
  {
    var r := Run(s, es);
    var c := r.calls[p];
    EveryoneIsTold(s, es, p);
    EveryRowWasPaid(s, es);
    HistoryGrows(s, es);
    var i :| Tells(c.outcome.answer, r.payments, c.tx, i) && (!c.outcome.cached ==> i >= |s.payments|);
    if i >= |s.payments| { assert RowBacked(s, es, r.payments[i]); }
  }

  /** A transaction whose row may be answered from is answered at once, without asking anybody. */
  lemma KnownTransactionIsAnswered(s: State, p: nat, reply: ChainReply, i: nat)
    requires p < |s.calls| && s.calls[p].pc.Lookup? && i < |s.payments| && UniqueKeys(s.payments)
    requires s.payments[i].key == s.calls[p].tx && s.payments[i].status != Rejected && !s.payments[i].deleted
    ensures var r, row := Step(s, Advance(p, Env(false, reply))), s.payments[i];
            r == s.(calls := s.calls[p := s.calls[p].(pc := Done,
              outcome := Verified(true, Answer(row.key, row.who, row.amount, row.feeStatus, row.excess)))])
  {
    var j := FindVisible(s.payments, s.calls[p].tx);
    if j < |s.payments| { SameKeySameRow(s.payments, i, j); }
  }

  /** And so is a call that finds the row only when it tries to insert its own. */
  lemma DuplicateIsAnswered(s: State, p: nat, reply: ChainReply, i: nat)
    requires p < |s.calls| && s.calls[p].pc.Record? && i < |s.payments| && UniqueKeys(s.payments)
    requires s.payments[i].key == s.calls[p].tx && s.payments[i].status != Rejected && !s.payments[i].deleted
    ensures var ok, row := Advance(p, Env(false, reply)), s.payments[i];
            Step(Step(s, ok), ok) == s.(calls := s.calls[p := s.calls[p].(pc := ReleaseStudent,
              outcome := Verified(true, Answer(row.key, row.who, row.amount, row.feeStatus, row.excess)))])
  {
    var env := Env(false, reply);
    assert HasKey(s.payments, s.calls[p].tx);
    var s1 := Step(s, Advance(p, env));
    assert s1 == s.(calls := s.calls[p := s.calls[p].(pc := DupLookup)]);
    var j := FindVisible(s.payments, s.calls[p].tx);
    if j < |s.payments| { SameKeySameRow(s.payments, i, j); }
    assert CallMove(s1, s1.calls[p], env) == MoveDupLookup(s1, s1.calls[p], env);
  }

  // ---------------------------------------------------------------- a finished call has its answer

  predicate Decided(c: Call)
  {
    c.outcome.Pending? ==>
      !c.pc.Outbox? && !c.pc.ReadBalance? && !c.pc.WriteBalance? && !c.pc.ReleaseStudent? && !c.pc.ReleaseVerify?
      && !c.pc.Done?
  }

  lemma MoveDecides(s: State, c: Call, env: Env)
    requires Decided(c)
    ensures Decided(CallMove(s, c, env).call)
  {
  }

  lemma {:induction false} FinishedCallsHaveAnswers(s: State, es: seq<Event>, p: nat)
    requires Init(s) && p < |Run(s, es).calls|
    ensures Decided(Run(s, es).calls[p])
    ensures Run(s, es).calls[p].pc.Done? ==> !Run(s, es).calls[p].outcome.Pending?
  {
    if es != [] {
      var n := |es| - 1;
      var r, e := Run(s, es[..n]), es[n];
      if p < |r.calls| {
        FinishedCallsHaveAnswers(s, es[..n], p);
        if e.Advance? && e.p == p { MoveDecides(r, r.calls[p], e.env); }
      }
    }
  }

  // ---------------------------------------------------------------- failing steps

  /** A store or lock call that fails takes no lock, writes no row and no balance, and verifies nothing;
      a lock that could not be asked for counts as held, a release that failed as lost, and any other
      failure ends the call as failed. */
  lemma FailingStepIsHarmless(s: State, c: Call, reply: ChainReply)
    requires !c.pc.ReadChain? && !c.pc.Done?
    ensures var m := CallMove(s, c, Env(true, reply));
            var s' := Perform(s, c, m.effect);
            && s'.payments == s.payments && s'.students == s.students
            && s'.verifyLocks == s.verifyLocks && s'.studentLocks == s.studentLocks
            && (c.pc.AcquireVerify? || c.pc.AcquireStudent? ==> m.call.outcome == InProgress)
            && (c.pc.ReleaseStudent? ==> m.call.outcome == c.outcome && c.studentToken in s'.lostStudent)
            && (c.pc.ReleaseVerify? ==> m.call.outcome == c.outcome && c.verifyToken in s'.lostVerify)
            && (!c.pc.AcquireVerify? && !c.pc.AcquireStudent? && !c.pc.ReleaseStudent? && !c.pc.ReleaseVerify? ==>
                  m.call.outcome == Failed)
  {
  }
}
