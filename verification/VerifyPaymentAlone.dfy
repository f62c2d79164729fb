/**
 A verification call left alone: what it credits, step by step, and what becomes of the
 balance when one of its store calls fails, when its lock expires, and afterwards.
 */
module VerifyPaymentAlone {
  import opened Basics
  import opened Money
  import LockTable
  import opened VerifyPayment
  import opened VerifyPaymentSafety
  import opened VerifyPaymentCredit

  // ---------------------------------------------------------------- step by step

  /** A call about to start, for a known student, with both locks free. */
  ghost predicate Startable(s: State, p: nat, who: StudentKey)
  {
    && p < |s.calls| && s.calls[p].pc.Lookup? && s.calls[p].outcome.Pending?
    && who.school == s.calls[p].tx.school && who in s.students
    && s.calls[p].tx !in s.verifyLocks && who !in s.studentLocks
  }

  /** And its transaction has no row yet. */
  ghost predicate Ready(s: State, p: nat, who: StudentKey)
  {
    Startable(s, p, who) && !HasKey(s.payments, s.calls[p].tx)
  }

  /** The row such a call is to write. */
  function DueRow(s0: State, tx: TxKey, who: StudentKey, amount: nat): Payment
    requires who in s0.students
  {
    var k := Classify(SumCounted(s0.payments, who) + amount, s0.students[who].fee);
    Payment(tx, who, amount, k.status, k.excess, Success, false, false)
  }

  predicate BeforeInsert(c: Call)
  {
    c.pc.Lookup? || c.pc.AcquireVerify? || c.pc.ReadChain? || PastChain(c)
  }

  ghost predicate OwnLocks(s0: State, s: State, c: Call, who: StudentKey)
  {
    && s.verifyLocks == (if HoldsVerify(c) then s0.verifyLocks[c.tx := c.verifyToken] else s0.verifyLocks)
    && s.studentLocks == (if InSection(c) then s0.studentLocks[who := c.studentToken] else s0.studentLocks)
  }

  /** How far call `c` has come since `s0` with writing `row` and then the total `due`. */
  ghost predicate Progress(s0: State, s: State, c: Call, who: StudentKey, row: Payment, due: nat)
    requires who in s0.students
  {
    && !c.pc.DupLookup?
    && (PastChain(c) || Dirty(c) || c.pc.ReleaseStudent? ==> c.who == who && c.amount == row.amount)
    && (c.pc.AcquireStudent? || InSection(c) ==> c.fee == s0.students[who].fee)
    && (c.pc.Record? ==> c.prev == SumCounted(s0.payments, who))
    && (c.pc.WriteBalance? ==> c.total == due)
    && (if BeforeInsert(c) then s.payments == s0.payments
        else s.payments == s0.payments + [row] && c.outcome == Verified(false, AnswerOf(row)))
    && (if BeforeInsert(c) || Dirty(c) then s.students == s0.students
        else s.students == s0.students[who := Rebalanced(s0.students[who], due)])
  }

  function DueTotal(s0: State, who: StudentKey, row: Payment): nat
    requires who in s0.students
  {
    SumCounted(s0.payments + [row], who) + s0.students[who].credit
  }

  ghost predicate OwnData(s0: State, s: State, c: Call, who: StudentKey, amount: nat)
    requires who in s0.students
  {
    var row := DueRow(s0, c.tx, who, amount);
    Progress(s0, s, c, who, row, DueTotal(s0, who, row))
  }

  /** Where call `p`, running alone since `s0`, can be. */
  ghost predicate Alone(s0: State, s: State, p: nat, who: StudentKey, amount: nat)
  {
    && Ready(s0, p, who) && |s.calls| == |s0.calls| && s.calls[p].tx == s0.calls[p].tx
    && OwnLocks(s0, s, s.calls[p], who) && OwnData(s0, s, s.calls[p], who, amount)
  }

  lemma EarlyData(s0: State, s: State, c: Call, who: StudentKey, amount: nat)
    requires who in s0.students && who.school == c.tx.school && OwnData(s0, s, c, who, amount)
    requires c.tx !in s.verifyLocks || c.pc != AcquireVerify
    requires who !in s.studentLocks || c.pc != AcquireStudent
    requires !HasKey(s0.payments, c.tx) && BeforeInsert(c) && c.pc != Record
    ensures var m := CallMove(s, c, Env(false, Pays(who.student, amount)));
            OwnData(s0, Perform(s, c, m.effect), m.call, who, amount)
  {
    var m := CallMove(s, c, Env(false, Pays(who.student, amount)));
    assert FindVisible(s.payments, c.tx) == |s.payments|;
    var s' := Perform(s, c, m.effect);
    assert BeforeInsert(m.call) && s'.payments == s.payments && s'.students == s.students;
  }

  lemma InsertData(s0: State, s: State, c: Call, env: Env, who: StudentKey, amount: nat)
    requires who in s0.students && OwnData(s0, s, c, who, amount) && !HasKey(s0.payments, c.tx)
    requires c.pc.Record? && !env.fails
    ensures var m := CallMove(s, c, env); OwnData(s0, Perform(s, c, m.effect), m.call, who, amount)
  {
    assert NewRow(c) == DueRow(s0, c.tx, who, amount);
    assert CallMove(s, c, env) == MoveRecord(s, c, env);
  }

  /** The three moves between insert and release, when nothing fails. */
  lemma LateMoves(s: State, c: Call, env: Env)
    requires Dirty(c) && c.who in s.students && !env.fails
    ensures CallMove(s, c, env) ==
              if c.pc.Outbox? then Move(c.(pc := ReadBalance), Quiet)
              else if c.pc.ReadBalance?
              then
                var total := SumCounted(s.payments, c.who) + s.students[c.who].credit;
                Move(c.(pc := WriteBalance, total := total), Quiet)
              else Move(c.(pc := ReleaseStudent), Rebalance)
  {
  }

  lemma DirtyProgress(s0: State, s: State, c: Call, who: StudentKey, row: Payment, due: nat)
    requires who in s0.students && Progress(s0, s, c, who, row, due) && Dirty(c)
    ensures c.who == who && who in s.students && s.payments == s0.payments + [row] && s.students == s0.students
    ensures c.pc.Outbox? ==> Progress(s0, s, c.(pc := ReadBalance), who, row, due)
    ensures c.pc.ReadBalance? ==> Progress(s0, s, c.(pc := WriteBalance, total := due), who, row, due)
    ensures c.pc.WriteBalance? ==> Progress(s0, Perform(s, c, Rebalance), c.(pc := ReleaseStudent), who, row, due)
  {
  }

  /** The moves after the balance write, when nothing fails. */
  lemma LastMoves(s: State, c: Call, env: Env)
    requires !env.fails
    ensures c.pc.ReleaseStudent? ==> CallMove(s, c, env) == Move(c.(pc := ReleaseVerify), FreeStudent)
    ensures c.pc.ReleaseVerify? ==> CallMove(s, c, env) == Move(c.(pc := Done), FreeVerify)
    ensures c.pc.Done? ==> CallMove(s, c, env) == Move(c, Quiet)
  {
  }

  lemma ReleaseProgress(s0: State, s: State, c: Call, who: StudentKey, row: Payment, due: nat)
    requires who in s0.students && Progress(s0, s, c, who, row, due)
    ensures c.pc.ReleaseStudent? ==> Progress(s0, Perform(s, c, FreeStudent), c.(pc := ReleaseVerify), who, row, due)
    ensures c.pc.ReleaseVerify? ==> Progress(s0, Perform(s, c, FreeVerify), c.(pc := Done), who, row, due)
  {
  }

  lemma ReleaseData(s0: State, s: State, c: Call, env: Env, who: StudentKey, amount: nat)
    requires who in s0.students && OwnData(s0, s, c, who, amount)
    requires (c.pc.ReleaseStudent? || c.pc.ReleaseVerify? || c.pc.Done?) && !env.fails
    ensures var m := CallMove(s, c, env); OwnData(s0, Perform(s, c, m.effect), m.call, who, amount)
  {
    var row := DueRow(s0, c.tx, who, amount);
    ReleaseProgress(s0, s, c, who, row, DueTotal(s0, who, row));
    LastMoves(s, c, env);
  }

  lemma LateData(s0: State, s: State, c: Call, env: Env, who: StudentKey, amount: nat)
    requires who in s0.students && OwnData(s0, s, c, who, amount)
    requires !BeforeInsert(c) && !env.fails
    ensures var m := CallMove(s, c, env); OwnData(s0, Perform(s, c, m.effect), m.call, who, amount)
  {
    if Dirty(c) {
      var row := DueRow(s0, c.tx, who, amount);
      DirtyProgress(s0, s, c, who, row, DueTotal(s0, who, row));
      LateMoves(s, c, env);
    } else {
      ReleaseData(s0, s, c, env, who, amount);
    }
  }

  lemma AloneKeepsData(s0: State, s: State, p: nat, who: StudentKey, amount: nat)
    requires Alone(s0, s, p, who, amount)
    ensures var c := s.calls[p]; var m := CallMove(s, c, Env(false, Pays(who.student, amount)));
            m.call.tx == c.tx && OwnData(s0, Perform(s, c, m.effect), m.call, who, amount)
  {
    var c, env := s.calls[p], Env(false, Pays(who.student, amount));
    MoveKeepsTx(s, c, env);
    if c.pc.Record? { InsertData(s0, s, c, env, who, amount); }
    else if BeforeInsert(c) { EarlyData(s0, s, c, who, amount); }
    else { LateData(s0, s, c, env, who, amount); }
  }

  lemma LocksStep(s0: State, s: State, c: Call, m: Move, who: StudentKey)
    requires OwnLocks(s0, s, c, who) && LegalMove(s, c, m) && m.call.tx == c.tx
    requires c.tx !in s0.verifyLocks && who !in s0.studentLocks
    requires InSection(c) || InSection(m.call) ==> c.who == who && m.call.who == who
    requires !m.effect.LoseStudent? && !m.effect.LoseVerify?
    ensures OwnLocks(s0, Perform(s, c, m.effect), m.call, who)
  {
    match m.effect
    case FreeStudent => assert s0.studentLocks[who := c.studentToken] - {who} == s0.studentLocks;
    case FreeVerify => assert s0.verifyLocks[c.tx := c.verifyToken] - {c.tx} == s0.verifyLocks;
    case _ =>
  }

  lemma AloneKeepsLocks(s0: State, s: State, p: nat, who: StudentKey, amount: nat)
    requires Alone(s0, s, p, who, amount)
    ensures var c := s.calls[p]; var m := CallMove(s, c, Env(false, Pays(who.student, amount)));
            OwnLocks(s0, Perform(s, c, m.effect), m.call, who)
  {
    var c, env := s.calls[p], Env(false, Pays(who.student, amount));
    var m := CallMove(s, c, env);
    MovesAreLegal(s, c, env);
    AloneKeepsData(s0, s, p, who, amount);
    LocksStep(s0, s, c, m, who);
  }

  function Advances(p: nat, env: Env, n: nat): seq<Event>
  {
    seq(n, _ => Advance(p, env))
  }

  lemma AloneStart(s0: State, p: nat, who: StudentKey, amount: nat)
    requires Ready(s0, p, who)
    ensures Alone(s0, s0, p, who, amount)
  {
  }

  lemma AloneApply(s0: State, s: State, p: nat, m: Move, who: StudentKey, amount: nat)
    requires Alone(s0, s, p, who, amount) && m.call.tx == s.calls[p].tx
    requires OwnLocks(s0, Perform(s, s.calls[p], m.effect), m.call, who)
    requires OwnData(s0, Perform(s, s.calls[p], m.effect), m.call, who, amount)
    ensures Alone(s0, Apply(s, p, m), p, who, amount)
  {
    var s' := Apply(s, p, m);
    assert s'.calls[p] == m.call && |s'.calls| == |s.calls|;
  }

  lemma AloneStep(s0: State, s: State, p: nat, who: StudentKey, amount: nat)
    requires Alone(s0, s, p, who, amount)
    ensures Alone(s0, Step(s, Advance(p, Env(false, Pays(who.student, amount)))), p, who, amount)
  {
    var env := Env(false, Pays(who.student, amount));
    AloneKeepsData(s0, s, p, who, amount);
    AloneKeepsLocks(s0, s, p, who, amount);
    AloneApply(s0, s, p, CallMove(s, s.calls[p], env), who, amount);
  }

  /** After `n` of the twelve steps a lone call takes. */
  predicate OnTime(s: State, p: nat, n: nat)
  {
    p < |s.calls| && Rank(s.calls[p].pc) == Max(0, 12 - n)
  }

  /** Nothing in the store turns the next step of `c` away. */
  ghost predicate Unhindered(s: State, c: Call)
  {
    && !c.pc.DupLookup?
    && (c.pc.Lookup? ==> FindVisible(s.payments, c.tx) == |s.payments|)
    && (c.pc.AcquireVerify? ==> c.tx !in s.verifyLocks)
    && (c.pc.AcquireStudent? ==> c.who !in s.studentLocks)
    && (c.pc.FindStudent? ==> c.who in s.students)
    && (c.pc.Record? ==> !HasKey(s.payments, c.tx))
  }

  lemma UnhinderedAdvances(s: State, c: Call, env: Env)
    requires Unhindered(s, c) && !env.fails && env.reply.Pays?
    ensures Rank(CallMove(s, c, env).call.pc) == Max(0, Rank(c.pc) - 1) || Dirty(c)
    ensures Dirty(c) && c.who in s.students ==> Rank(CallMove(s, c, env).call.pc) == Rank(c.pc) - 1
  {
  }

  lemma AloneIsUnhindered(s0: State, s: State, p: nat, who: StudentKey, amount: nat)
    requires Alone(s0, s, p, who, amount)
    ensures Unhindered(s, s.calls[p]) && (Dirty(s.calls[p]) ==> s.calls[p].who in s.students)
  {
    var c := s.calls[p];
    if BeforeInsert(c) {
      assert s.payments == s0.payments && s.students == s0.students;
      assert FindVisible(s.payments, c.tx) == |s.payments|;
    }
  }

  lemma OnTimeStep(s0: State, s: State, p: nat, who: StudentKey, amount: nat, n: nat)
    requires Alone(s0, s, p, who, amount) && OnTime(s, p, n)
    ensures OnTime(Step(s, Advance(p, Env(false, Pays(who.student, amount)))), p, n + 1)
  {
    AloneIsUnhindered(s0, s, p, who, amount);
    UnhinderedAdvances(s, s.calls[p], Env(false, Pays(who.student, amount)));
  }

  lemma {:induction false} AloneRun(s0: State, p: nat, who: StudentKey, amount: nat, n: nat, r: State)
    requires Ready(s0, p, who) && r == Run(s0, Advances(p, Env(false, Pays(who.student, amount)), n))
    ensures Alone(s0, r, p, who, amount) && OnTime(r, p, n)
  {
    if n == 0 {
      AloneStart(s0, p, who, amount);
    } else {
      var env := Env(false, Pays(who.student, amount));
      var es := Advances(p, env, n - 1);
      assert Advances(p, env, n)[..n - 1] == es;
      AloneRun(s0, p, who, amount, n - 1, Run(s0, es));
      AloneStep(s0, Run(s0, es), p, who, amount);
      OnTimeStep(s0, Run(s0, es), p, who, amount, n - 1);
    }
  }

  lemma CreditedStudent(ps: seq<Payment>, st: Student, row: Payment, who: StudentKey)
    requires Counted(row) && row.who == who
    ensures var st' := Rebalanced(st, SumCounted(ps + [row], who) + st.credit);
            && Balanced(ps + [row], st', who)
            && (Balanced(ps, st, who) ==> st'.totalPaid == st.totalPaid + row.amount)
            && (Balanced(ps, st, who) && row.amount > 0 ==> !Balanced(ps + [row], st, who))
  {
    RebalancedIsBalanced(ps + [row], st, who);
    SumAppend(ps, row, who);
  }

  lemma DoneData(s0: State, r: State, p: nat, who: StudentKey, amount: nat)
    requires Alone(s0, r, p, who, amount) && r.calls[p].pc.Done?
    ensures var row := DueRow(s0, s0.calls[p].tx, who, amount);
            && r.payments == s0.payments + [row]
            && who in r.students && Balanced(r.payments, r.students[who], who)
            && (Balanced(s0.payments, s0.students[who], who) ==>
                  r.students[who].totalPaid == s0.students[who].totalPaid + amount)
            && r.verifyLocks == s0.verifyLocks && r.studentLocks == s0.studentLocks
            && r.calls[p].outcome == Verified(false, AnswerOf(row))
  {
    CreditedStudent(s0.payments, s0.students[who], DueRow(s0, s0.calls[p].tx, who, amount), who);
  }

  /** Left alone, with the chain confirming the payment and no store failure, a call credits
      exactly that amount in twelve steps: one new row, a verified answer, both lock tables as it
      found them, and the stored balance right afterwards even if it was wrong before. */
  lemma CallLeftAloneCredits(s: State, p: nat, who: StudentKey, amount: nat)
    requires Ready(s, p, who)
    ensures var r := Run(s, Advances(p, Env(false, Pays(who.student, amount)), 12));
            var row := DueRow(s, s.calls[p].tx, who, amount);
            && r.payments == s.payments + [row]
            && who in r.students && Balanced(r.payments, r.students[who], who)
            && (Balanced(s.payments, s.students[who], who) ==>
                  r.students[who].totalPaid == s.students[who].totalPaid + amount)
            && r.verifyLocks == s.verifyLocks && r.studentLocks == s.studentLocks
            && p < |r.calls| && r.calls[p].pc.Done?
            && r.calls[p].outcome == Verified(false, Answer(s.calls[p].tx, who, amount, row.feeStatus, row.excess))
  {
    var r := Run(s, Advances(p, Env(false, Pays(who.student, amount)), 12));
    AloneRun(s, p, who, amount, 12, r);
    DoneData(s, r, p, who, amount);
  }

  /** A row of any kind keeps a call from adding another, however far the call gets. */
  lemma {:induction false} KeyedCallAddsNothing(s: State, p: nat, env: Env, n: nat)
    requires p < |s.calls| && HasKey(s.payments, s.calls[p].tx)
    ensures var r := Run(s, Advances(p, env, n));
            r.payments == s.payments && p < |r.calls| && r.calls[p].tx == s.calls[p].tx
  {
    if n > 0 {
      KeyedCallAddsNothing(s, p, env, n - 1);
      assert Advances(p, env, n)[..n - 1] == Advances(p, env, n - 1);
      KeyedStepAddsNothing(Run(s, Advances(p, env, n - 1)), p, env);
    }
  }

  lemma KeyedStepAddsNothing(s: State, p: nat, env: Env)
    requires p < |s.calls| && HasKey(s.payments, s.calls[p].tx)
    ensures var r := Step(s, Advance(p, env));
            r.payments == s.payments && p < |r.calls| && r.calls[p].tx == s.calls[p].tx
  {
    MovesAreLegal(s, s.calls[p], env);
    MoveKeepsTx(s, s.calls[p], env);
  }

  /** So a call left alone credits the payment the chain confirms exactly when the transaction has no
      row at all, whatever the status of that row; and where the row is rejected or deleted, the call
      is not even answered from it. */
  lemma LoneCallCreditsExactly(s: State, p: nat, who: StudentKey, amount: nat)
    requires Startable(s, p, who) && UniqueKeys(s.payments)
    ensures var r := Run(s, Advances(p, Env(false, Pays(who.student, amount)), 12));
            var tx := s.calls[p].tx;
            && (r.payments == s.payments + [DueRow(s, tx, who, amount)] <==> !HasKey(s.payments, tx))
            && (HasKey(s.payments, tx) ==> r.payments == s.payments)
            && (NotVerified(s.calls, tx) && (exists i :: HiddenRow(s.payments, tx, i)) ==> NotVerified(r.calls, tx))
  {
    var env, tx := Env(false, Pays(who.student, amount)), s.calls[p].tx;
    if HasKey(s.payments, tx) { KeyedCallAddsNothing(s, p, env, 12); }
    else { CallLeftAloneCredits(s, p, who, amount); }
    if i :| NotVerified(s.calls, tx) && HiddenRow(s.payments, tx, i) {
      HiddenRowBlocksForever(s, Advances(p, env, 12), tx, i);
    }
  }

  // ---------------------------------------------------------------- when a store call fails in between

  lemma {:induction false} RunConcat(s: State, a: seq<Event>, b: seq<Event>)
    ensures Run(s, a + b) == Run(Run(s, a), b)
    decreases |b|
  {
    if b == [] {
      assert a + b == a;
    } else {
      var front := b[..|b| - 1];
      RunConcat(s, a, front);
      assert (a + b)[..|a + b| - 1] == a + front;
    }
  }

  lemma RunOne(s: State, e: Event)
    ensures Run(s, [e]) == Step(s, e)
  {
    assert [e][..0] == [];
  }

  lemma RunThree(s: State, a: Event, b: Event, c: Event)
    ensures Run(s, [a, b, c]) == Step(Step(Step(s, a), b), c)
  {
    RunOne(s, a);
    RunOne(Step(s, a), b);
    RunOne(Step(Step(s, a), b), c);
    RunConcat(s, [a], [b]);
    RunConcat(s, [a, b], [c]);
    assert [a] + [b] == [a, b] && [a, b] + [c] == [a, b, c];
  }

  lemma FailedMove(s: State, c: Call, reply: ChainReply)
    requires Dirty(c)
    ensures CallMove(s, c, Env(true, reply)) == Move(c.(pc := ReleaseStudent, outcome := Failed), Abandon)
  {
  }

  /** The last two steps of a call only give back its locks. */
  lemma Releases(s: State, p: nat, reply: ChainReply)
    requires p < |s.calls| && s.calls[p].pc.ReleaseStudent?
    ensures var ok := Advance(p, Env(false, reply));
            var r := Step(Step(s, ok), ok);
            && r.payments == s.payments && r.students == s.students && r.unsafe == s.unsafe
            && r.studentLocks == LockTable.Released(s.studentLocks, s.calls[p].who, s.calls[p].studentToken)
            && r.calls == s.calls[p := s.calls[p].(pc := Done)]
  {
    var env := Env(false, reply);
    LastMoves(s, s.calls[p], env);
    var s1 := Step(s, Advance(p, env));
    assert s1.calls == s.calls[p := s.calls[p].(pc := ReleaseVerify)];
    LastMoves(s1, s1.calls[p], env);
  }

  /** A store call that fails between insert and release takes the call to its end in two more steps;
      only locks change. */
  lemma DirtyFailure(s: State, p: nat, who: StudentKey, reply: ChainReply)
    requires p < |s.calls| && Dirty(s.calls[p]) && s.calls[p].who == who
    requires who in s.studentLocks && s.studentLocks[who] == s.calls[p].studentToken
    ensures var ok := Advance(p, Env(false, reply));
            var r := Run(s, [Advance(p, Env(true, reply)), ok, ok]);
            && r.payments == s.payments && r.students == s.students && who in r.unsafe && who !in r.studentLocks
            && p < |r.calls| && r.calls[p].pc.Done? && r.calls[p].outcome == Failed
  {
    var fail, ok := Advance(p, Env(true, reply)), Advance(p, Env(false, reply));
    FailedMove(s, s.calls[p], reply);
    var s1 := Step(s, fail);
    assert s1.calls == s.calls[p := s.calls[p].(pc := ReleaseStudent, outcome := Failed)];
    Releases(s1, p, reply);
    RunThree(s, fail, ok, ok);
  }

  lemma DirtyState(s: State, r: State, p: nat, who: StudentKey, amount: nat, k: nat)
    requires Alone(s, r, p, who, amount) && OnTime(r, p, 7 + k) && k < 3
    ensures Dirty(r.calls[p]) && r.calls[p].who == who
    ensures r.payments == s.payments + [DueRow(s, s.calls[p].tx, who, amount)] && r.students == s.students
    ensures who in r.studentLocks && r.studentLocks[who] == r.calls[p].studentToken
  {
  }

  /** A lone call of which `k` of the three steps between insert and release succeed: the outbox write,
      the balance read and the balance write. */
  function LoneEvents(p: nat, reply: ChainReply, k: nat): seq<Event>
  {
    var ok := Advance(p, Env(false, reply));
    if k < 3 then Advances(p, Env(false, reply), 7 + k) + [Advance(p, Env(true, reply)), ok, ok]
    else Advances(p, Env(false, reply), 12)
  }

  /** Whichever of them fails, the row is stored and the locks are free again; the student is balanced
      at the end of the call exactly when none failed. */
  lemma LoneCallBalancesExactly(s: State, p: nat, who: StudentKey, amount: nat, k: nat)
    requires Ready(s, p, who) && Balanced(s.payments, s.students[who], who) && amount > 0 && k <= 3
    ensures var r := Run(s, LoneEvents(p, Pays(who.student, amount), k));
            && r.payments == s.payments + [DueRow(s, s.calls[p].tx, who, amount)]
            && who in r.students && (Balanced(r.payments, r.students[who], who) <==> k == 3)
            && who !in r.studentLocks && p < |r.calls| && r.calls[p].pc.Done?
            && (k < 3 ==> who in r.unsafe && r.calls[p].outcome == Failed)
  {
    var reply := Pays(who.student, amount);
    if k == 3 {
      CallLeftAloneCredits(s, p, who, amount);
    } else {
      var ok := Advance(p, Env(false, reply));
      var start := Advances(p, Env(false, reply), 7 + k);
      var r := Run(s, start);
      AloneRun(s, p, who, amount, 7 + k, r);
      DirtyState(s, r, p, who, amount, k);
      DirtyFailure(r, p, who, reply);
      RunConcat(s, start, [Advance(p, Env(true, reply)), ok, ok]);
      CreditedStudent(s.payments, s.students[who], DueRow(s, s.calls[p].tx, who, amount), who);
    }
  }

  // ---------------------------------------------------------------- a balance write repairs

  /** Fees and credits stay as they are; only balances are rewritten. */
  ghost predicate SameTerms(s: State, r: State)
  {
    forall who :: who in s.students ==>
      && who in r.students && r.students[who].fee == s.students[who].fee
      && r.students[who].credit == s.students[who].credit
  }

  lemma StepSameTerms(s: State, e: Event)
    ensures SameTerms(s, Step(s, e))
  {
    if e.Advance? && e.p < |s.calls| {
      var m := CallMove(s, s.calls[e.p], e.env);
      assert SameTerms(s, Perform(s, s.calls[e.p], m.effect));
    }
  }

  predicate Leaves(es: seq<Event>, p: nat)
  {
    forall k :: 0 <= k < |es| && es[k].Advance? ==> es[k].p != p
  }

  /** Whatever the others do, a call that does not advance stays where it is. */
  lemma {:induction false} RunLeaves(s: State, es: seq<Event>, p: nat)
    requires p < |s.calls| && Leaves(es, p)
    ensures p < |Run(s, es).calls| && Run(s, es).calls[p] == s.calls[p] && SameTerms(s, Run(s, es))
  {
    if es != [] {
      var front, e := es[..|es| - 1], es[|es| - 1];
      assert forall k :: 0 <= k < |front| ==> front[k] == es[k];
      RunLeaves(s, front, p);
      StepSameTerms(Run(s, front), e);
    }
  }

  lemma WriteIsBalancedExactly(s: State, p: nat, read: nat)
    requires p < |s.calls| && s.calls[p].pc.WriteBalance? && s.calls[p].who in s.students
    requires s.calls[p].total == read + s.students[s.calls[p].who].credit
    ensures var who := s.calls[p].who;
            var r := Step(s, Advance(p, Env(false, NoPayment)));
            who in r.students && (Balanced(r.payments, r.students[who], who) <==> SumCounted(r.payments, who) == read)
            && r.payments == s.payments
  {
    var c := s.calls[p];
    assert CallMove(s, c, Env(false, NoPayment)) == Move(c.(pc := ReleaseStudent), Rebalance);
  }

  /** From any state at all, with any locks expired and any sections cut short before: a balance read
      and the write that follows it leave the student balanced exactly when the student's counted
      sum did not move in between. So the first undisturbed section after a mishap repairs it. */
  lemma BalanceWriteRepairsExactly(s: State, p: nat, es: seq<Event>)
    requires p < |s.calls| && s.calls[p].pc.ReadBalance? && s.calls[p].who in s.students && Leaves(es, p)
    ensures var who, ok := s.calls[p].who, Advance(p, Env(false, NoPayment));
            var between := Run(Step(s, ok), es);
            var r := Step(between, ok);
            who in r.students &&
            (Balanced(r.payments, r.students[who], who) <==>
              SumCounted(between.payments, who) == SumCounted(s.payments, who))
  {
    var c, env := s.calls[p], Env(false, NoPayment);
    LateMoves(s, c, env);
    var s1 := Step(s, Advance(p, env));
    assert s1.calls[p].pc.WriteBalance? && s1.calls[p].who == c.who && s1.students == s.students;
    RunLeaves(s1, es, p);
    WriteIsBalancedExactly(Run(s1, es), p, SumCounted(s.payments, c.who));
  }

  // ---------------------------------------------------------------- when a lock expires

  /** Call `p` gets as far as its balance write when its student lock expires; call `q` then runs from
      start to end; and `p` finishes. */
  function Overtaking(p: nat, q: nat, who: StudentKey, a: nat, b: nat): seq<Event>
  {
    var ok := Advance(p, Env(false, NoPayment));
    Advances(p, Env(false, Pays(who.student, a)), 9) + [ExpireStudent(who)]
    + Advances(q, Env(false, Pays(who.student, b)), 12) + [ok, ok, ok]
  }

  lemma WriteState(s: State, r: State, p: nat, who: StudentKey, amount: nat)
    requires Alone(s, r, p, who, amount) && OnTime(r, p, 9)
    ensures r.calls[p].pc.WriteBalance? && r.calls[p].who == who && r.calls[p].tx == s.calls[p].tx
    ensures var row := DueRow(s, s.calls[p].tx, who, amount);
            && r.payments == s.payments + [row] && r.students == s.students
            && r.calls[p].total == DueTotal(s, who, row) && r.calls[p].outcome == Verified(false, AnswerOf(row))
    ensures r.verifyLocks.Keys == s.verifyLocks.Keys + {s.calls[p].tx}
  {
  }

  lemma AdvancesLeave(p: nat, q: nat, env: Env, n: nat)
    requires p != q
    ensures Leaves(Advances(p, env, n), q)
  {
  }

  /** The other call is ready once the lock has expired. */
  lemma OvertakerReady(s: State, r: State, p: nat, q: nat, who: StudentKey, a: nat)
    requires Ready(s, p, who) && Ready(s, q, who) && s.calls[p].tx != s.calls[q].tx
    requires r == Run(s, Advances(p, Env(false, Pays(who.student, a)), 9))
    ensures Ready(Step(r, ExpireStudent(who)), q, who)
  {
    AloneRun(s, p, who, a, 9, r);
    WriteState(s, r, p, who, a);
    AdvancesLeave(p, q, Env(false, Pays(who.student, a)), 9);
    RunLeaves(s, Advances(p, Env(false, Pays(who.student, a)), 9), q);
  }

  /** The last three steps of the overtaken call: it writes what it read, and releases nothing. */
  lemma StaleFinish(s: State, p: nat, who: StudentKey, read: nat)
    requires p < |s.calls| && s.calls[p].pc.WriteBalance? && s.calls[p].who == who && who in s.students
    requires s.calls[p].total == read + s.students[who].credit && who !in s.studentLocks
    ensures var ok := Advance(p, Env(false, NoPayment));
            var r := Run(s, [ok, ok, ok]);
            && who in r.students
            && (Balanced(r.payments, r.students[who], who) <==> SumCounted(s.payments, who) == read)
            && who !in r.studentLocks && p < |r.calls| && r.calls[p].pc.Done?
            && r.calls[p].outcome == s.calls[p].outcome && r.payments == s.payments
            && (forall q :: 0 <= q < |s.calls| && q != p ==> q < |r.calls| && r.calls[q] == s.calls[q])
  {
    var env := Env(false, NoPayment);
    var ok := Advance(p, env);
    WriteIsBalancedExactly(s, p, read);
    LateMoves(s, s.calls[p], env);
    var s1 := Step(s, ok);
    assert s1.calls == s.calls[p := s.calls[p].(pc := ReleaseStudent)] && s1.studentLocks == s.studentLocks;
    Releases(s1, p, NoPayment);
    RunThree(s, ok, ok, ok);
  }

  /** For any two calls ready to credit one student: no store call fails, only a lock expires under its
      holder; both calls are told that they credited, both rows are there and the lock is free, and the
      stored balance misses the second payment. */
  lemma ExpiredLockLeavesStaleBalance(s: State, p: nat, q: nat, who: StudentKey, a: nat, b: nat)
    requires Ready(s, p, who) && Ready(s, q, who) && p != q && s.calls[p].tx != s.calls[q].tx && b > 0
    ensures var r := Run(s, Overtaking(p, q, who, a, b));
            && who in r.students && !Balanced(r.payments, r.students[who], who) && who !in r.studentLocks
            && |r.payments| == |s.payments| + 2 && p < |r.calls| && q < |r.calls|
            && r.calls[p].pc.Done? && r.calls[q].pc.Done? && Fresh(r.calls[p]) && Fresh(r.calls[q])
  {
    var first := Advances(p, Env(false, Pays(who.student, a)), 9);
    var second := Advances(q, Env(false, Pays(who.student, b)), 12);
    var ok := Advance(p, Env(false, NoPayment));
    var r0 := Run(s, first);
    var r1 := Step(r0, ExpireStudent(who));
    var r2 := Run(r1, second);
    AloneRun(s, p, who, a, 9, r0);
    WriteState(s, r0, p, who, a);
    OvertakerReady(s, r0, p, q, who, a);
    CallLeftAloneCredits(r1, q, who, b);
    AdvancesLeave(q, p, Env(false, Pays(who.student, b)), 12);
    RunLeaves(r1, second, p);
    SumAppend(r1.payments, DueRow(r1, r1.calls[q].tx, who, b), who);
    StaleFinish(r2, p, who, SumCounted(r1.payments, who));
    OvertakingRun(s, p, q, who, a, b);
  }

  lemma OvertakingRun(s: State, p: nat, q: nat, who: StudentKey, a: nat, b: nat)
    ensures var ok := Advance(p, Env(false, NoPayment));
            var r1 := Step(Run(s, Advances(p, Env(false, Pays(who.student, a)), 9)), ExpireStudent(who));
            Run(s, Overtaking(p, q, who, a, b)) ==
              Run(Run(r1, Advances(q, Env(false, Pays(who.student, b)), 12)), [ok, ok, ok])
  {
    var ok := Advance(p, Env(false, NoPayment));
    var first := Advances(p, Env(false, Pays(who.student, a)), 9);
    var second := Advances(q, Env(false, Pays(who.student, b)), 12);
    RunConcat(s, first, [ExpireStudent(who)]);
    assert [ExpireStudent(who)][..0] == [];
    RunConcat(s, first + [ExpireStudent(who)], second);
    RunConcat(s, first + [ExpireStudent(who)] + second, [ok, ok, ok]);
  }
}
