/**
 Safety of the verification protocol over every run: no double crediting even when
 locks expire, exact balances and fee statuses wherever the student lock did its job,
 agreement of all answers, and no lock left behind.
 */
module VerifyPaymentSafety {
  import opened Basics
  import opened Money
  import opened LockTable
  import opened VerifyPayment

  // ---------------------------------------------------------------- locks as tables

  predicate InSection(c: Call)
  {
    || c.pc.Aggregate? || c.pc.Record? || c.pc.Outbox? || c.pc.DupLookup?
    || c.pc.ReadBalance? || c.pc.WriteBalance? || c.pc.ReleaseStudent?
  }

  predicate HoldsVerify(c: Call)
  {
    InSection(c) || c.pc.ReadChain? || c.pc.FindStudent? || c.pc.AcquireStudent? || c.pc.ReleaseVerify?
  }

  /** Between the insert and the balance write. */
  predicate Dirty(c: Call) { c.pc.Outbox? || c.pc.ReadBalance? || c.pc.WriteBalance? }

  function StudentHold(c: Call): Hold<StudentKey>
  {
    if InSection(c) then Held(c.who, c.studentToken) else Free
  }

  function VerifyHold(c: Call): Hold<TxKey>
  {
    if HoldsVerify(c) then Held(c.tx, c.verifyToken) else Free
  }

  function StudentTable(s: State): Table<StudentKey>
  {
    Table(s.studentLocks, seq(|s.calls|, i requires 0 <= i < |s.calls| => StudentHold(s.calls[i])), s.lostStudent)
  }

  function VerifyTable(s: State): Table<TxKey>
  {
    Table(s.verifyLocks, seq(|s.calls|, i requires 0 <= i < |s.calls| => VerifyHold(s.calls[i])), s.lostVerify)
  }

  ghost predicate Locks(s: State)
  {
    && Ok(StudentTable(s), s.nextToken) && Guarded(StudentTable(s), s.unsafe)
    && Ok(VerifyTable(s), s.nextToken)
  }

  // ---------------------------------------------------------------- data invariants

  ghost predicate UniqueKeys(ps: seq<Payment>)
  {
    forall i, j :: 0 <= i < j < |ps| ==> ps[i].key != ps[j].key
  }

  /** Row `i` carries the classification of the student's counted total up to and including it. */
  ghost predicate RowClassified(ps: seq<Payment>, students: map<StudentKey, Student>, i: nat)
    requires i < |ps|
  {
    var r := ps[i];
    r.who in students && Counted(r) &&
    var k := Classify(SumCounted(ps[..i + 1], r.who), students[r.who].fee);
    r.feeStatus == k.status && r.excess == k.excess
  }

  ghost predicate Rows(s: State)
  {
    && UniqueKeys(s.payments)
    && s.base <= |s.payments|
    && forall i :: s.base <= i < |s.payments| && s.payments[i].who !in s.unsafe ==>
         RowClassified(s.payments, s.students, i)
  }

  /** The stored balance is the one recomputed from all counted payments. */
  ghost predicate Balanced(ps: seq<Payment>, st: Student, who: StudentKey)
  {
    var total := SumCounted(ps, who) + st.credit;
    st.totalPaid == total && st.remaining == Max(0, st.fee - total) && (st.feePaid <==> total >= st.fee)
  }

  ghost predicate Settled(calls: seq<Call>, who: StudentKey)
  {
    forall p :: 0 <= p < |calls| && Dirty(calls[p]) ==> calls[p].who != who
  }

  ghost predicate Balances(s: State)
  {
    forall who :: who in s.students && who !in s.unsafe && Settled(s.calls, who) ==>
      Balanced(s.payments, s.students[who], who)
  }

  ghost predicate KnowsStudent(students: map<StudentKey, Student>, c: Call)
  {
    InSection(c) || c.pc.AcquireStudent? ==> c.who in students && c.fee == students[c.who].fee
  }

  /** What a call read under the student lock is still true. */
  ghost predicate ReadsFresh(s: State, c: Call)
  {
    && (c.pc.Record? && c.who !in s.unsafe ==> c.prev == SumCounted(s.payments, c.who))
    && (c.pc.WriteBalance? && c.who in s.students && c.who !in s.unsafe ==>
          c.total == SumCounted(s.payments, c.who) + s.students[c.who].credit)
  }

  ghost predicate AnswerStored(ps: seq<Payment>, c: Call)
  {
    c.outcome.Verified? ==> c.outcome.answer.tx == c.tx && Stored(ps, c.outcome.answer)
  }

  ghost predicate LocalsOk(s: State, c: Call)
  {
    KnowsStudent(s.students, c) && ReadsFresh(s, c) && AnswerStored(s.payments, c)
  }

  ghost predicate Locals(s: State)
  {
    forall p :: 0 <= p < |s.calls| ==> LocalsOk(s, s.calls[p])
  }

  ghost predicate Inv(s: State)
  {
    Locks(s) && Locals(s) && Balances(s) && Rows(s)
  }

  /** A quiet system whose balances are right and whose rows obey the index; 0 is no token. */
  ghost predicate Init(s: State)
  {
    && s.calls == [] && s.nextToken > 0 && s.verifyLocks == map[] && s.studentLocks == map[]
    && s.lostVerify == {} && s.lostStudent == {} && s.unsafe == {}
    && s.base == |s.payments| && UniqueKeys(s.payments)
    && forall who :: who in s.students ==> Balanced(s.payments, s.students[who], who)
  }

  // ---------------------------------------------------------------- what one move may do

  /** How a move may change its own call, by effect. */
  ghost predicate LegalMove(s: State, c: Call, m: Move)
  {
    var c' := m.call;
    && (!m.effect.TakeVerify? && !m.effect.FreeVerify? && !m.effect.LoseVerify? ==> VerifyHold(c') == VerifyHold(c))
    && (!m.effect.TakeStudent? && !m.effect.FreeStudent? && !m.effect.LoseStudent? ==>
         StudentHold(c') == StudentHold(c))
    && match m.effect
       case Quiet => Dirty(c) == Dirty(c') && (Dirty(c) ==> c'.who == c.who)
       case TakeVerify =>
         && c.tx !in s.verifyLocks && VerifyHold(c).Free? && VerifyHold(c') == Held(c.tx, s.nextToken)
         && !Dirty(c) && !Dirty(c')
       case TakeStudent =>
         && c.who !in s.studentLocks && StudentHold(c).Free? && StudentHold(c') == Held(c.who, s.nextToken)
         && !Dirty(c) && !Dirty(c')
       case Insert => c.pc.Record? && Dirty(c') && c'.who == c.who && !HasKey(s.payments, c.tx)
       case Rebalance => c.pc.WriteBalance? && !Dirty(c') && c.who in s.students
       case Abandon => Dirty(c) && !Dirty(c')
       case FreeStudent => c.pc.ReleaseStudent? && StudentHold(c').Free? && !Dirty(c')
       case LoseStudent => c.pc.ReleaseStudent? && StudentHold(c').Free? && !Dirty(c')
       case FreeVerify => c.pc.ReleaseVerify? && VerifyHold(c').Free? && !Dirty(c')
       case LoseVerify => c.pc.ReleaseVerify? && VerifyHold(c').Free? && !Dirty(c')
  }

  lemma MovesAreLegal(s: State, c: Call, env: Env)
    ensures LegalMove(s, c, CallMove(s, c, env))
  {
  }

  // ---------------------------------------------------------------- locks are kept

  lemma HoldsUpdated(s: State, p: nat, m: Move)
    requires p < |s.calls|
    ensures StudentTable(Apply(s, p, m)).holds == StudentTable(s).holds[p := StudentHold(m.call)]
    ensures VerifyTable(Apply(s, p, m)).holds == VerifyTable(s).holds[p := VerifyHold(m.call)]
  {
  }

  lemma KeepsStudentTable(s: State, p: nat, m: Move)
    requires p < |s.calls| && LegalMove(s, s.calls[p], m)
    requires Ok(StudentTable(s), s.nextToken) && Guarded(StudentTable(s), s.unsafe)
    ensures var s' := Apply(s, p, m); Ok(StudentTable(s'), s'.nextToken) && Guarded(StudentTable(s'), s'.unsafe)
  {
    var t, t' := StudentTable(s), StudentTable(Apply(s, p, m));
    HoldsUpdated(s, p, m);
    match m.effect
    case TakeStudent =>
      TakeOk(t, s.nextToken, s.unsafe, p, s.calls[p].who);
      assert t' == Taken(t, p, s.calls[p].who, s.nextToken);
    case FreeStudent =>
      FreeOk(t, s.nextToken, s.unsafe, p);
      assert t' == Freed(t, p);
    case LoseStudent =>
      LoseOk(t, s.nextToken, s.unsafe, p);
      assert t' == LostRelease(t, p);
    case _ => assert t' == t;
  }

  lemma KeepsVerifyTable(s: State, p: nat, m: Move)
    requires p < |s.calls| && LegalMove(s, s.calls[p], m)
    requires Ok(VerifyTable(s), s.nextToken)
    ensures var s' := Apply(s, p, m); Ok(VerifyTable(s'), s'.nextToken)
  {
    var t, t' := VerifyTable(s), VerifyTable(Apply(s, p, m));
    HoldsUpdated(s, p, m);
    match m.effect
    case TakeVerify =>
      TakeOk(t, s.nextToken, {}, p, s.calls[p].tx);
      assert t' == Taken(t, p, s.calls[p].tx, s.nextToken);
    case FreeVerify =>
      FreeOk(t, s.nextToken, {}, p);
      assert t' == Freed(t, p);
    case LoseVerify =>
      LoseOk(t, s.nextToken, {}, p);
      assert t' == LostRelease(t, p);
    case _ => assert t' == t;
  }

  /** Two calls are never inside the balance section of the same student. */
  lemma Exclusion(s: State, p: nat, q: nat)
    requires Locks(s)
    requires p < |s.calls| && q < |s.calls| && p != q
    requires InSection(s.calls[p]) && InSection(s.calls[q])
    requires s.calls[p].who !in s.unsafe
    ensures s.calls[p].who != s.calls[q].who
  {
    var t := StudentTable(s);
    assert t.holds[p] == StudentHold(s.calls[p]) && t.holds[q] == StudentHold(s.calls[q]);
    Exclusive(t, s.nextToken, s.unsafe, p, q);
  }

  // ---------------------------------------------------------------- data is kept

  lemma SumAppend(ps: seq<Payment>, r: Payment, who: StudentKey)
    ensures SumCounted(ps + [r], who) == SumCounted(ps, who) + Contribution(r, who)
  {
    assert (ps + [r])[..|ps|] == ps;
  }

  lemma StoredAppend(ps: seq<Payment>, r: Payment, a: Answer)
    requires Stored(ps, a)
    ensures Stored(ps + [r], a)
  {
    var i :| 0 <= i < |ps| && AnswerOf(ps[i]) == a;
    assert AnswerOf((ps + [r])[i]) == a;
  }

  lemma OthersLocalsKept(s: State, p: nat, m: Move, q: nat)
    requires p < |s.calls| && Locks(s) && Locals(s) && LegalMove(s, s.calls[p], m)
    requires q < |s.calls| && p != q
    ensures LocalsOk(Apply(s, p, m), s.calls[q])
  {
    var c, d := s.calls[p], s.calls[q];
    assert LocalsOk(s, d);
    if m.effect.Insert? {
      SumAppend(s.payments, NewRow(c), d.who);
      if d.outcome.Verified? { StoredAppend(s.payments, NewRow(c), d.outcome.answer); }
      if InSection(d) && d.who !in s.unsafe { Exclusion(s, q, p); }
    }
  }

  lemma OwnStudentKept(s: State, c: Call, env: Env)
    requires KnowsStudent(s.students, c)
    ensures KnowsStudent(Perform(s, c, CallMove(s, c, env).effect).students, CallMove(s, c, env).call)
  {
    var m := CallMove(s, c, env);
    match c.pc
    case FindStudent => assert m.effect.Quiet?;
    case WriteBalance =>
    case _ => assert Perform(s, c, m.effect).students == s.students;
  }

  lemma OwnReadsFresh(s: State, c: Call, env: Env)
    ensures ReadsFresh(Perform(s, c, CallMove(s, c, env).effect), CallMove(s, c, env).call)
  {
    var m := CallMove(s, c, env);
    match c.pc
    case Aggregate => assert m.effect.Quiet?;
    case ReadBalance => assert m.call.pc.WriteBalance? ==> m.effect.Quiet?;
    case _ => assert !m.call.pc.Record? && !m.call.pc.WriteBalance?;
  }

  lemma OwnAnswerStored(s: State, c: Call, env: Env)
    requires AnswerStored(s.payments, c)
    ensures var m := CallMove(s, c, env); AnswerStored(Perform(s, c, m.effect).payments, m.call)
  {
    var i := FindVisible(s.payments, c.tx);
    assert i < |s.payments| ==> Stored(s.payments, AnswerOf(s.payments[i]));
    var m := CallMove(s, c, env);
    if m.effect.Insert? {
      assert AnswerOf((s.payments + [NewRow(c)])[|s.payments|]) == m.call.outcome.answer;
    } else {
      assert Perform(s, c, m.effect).payments == s.payments;
      match c.pc
      case Lookup =>
      case DupLookup =>
      case _ => assert m.call.outcome == c.outcome || !m.call.outcome.Verified?;
    }
  }

  lemma KeepsLocals(s: State, p: nat, env: Env)
    requires p < |s.calls| && Locks(s) && Locals(s)
    ensures Locals(Apply(s, p, CallMove(s, s.calls[p], env)))
  {
    var m := CallMove(s, s.calls[p], env);
    var s' := Apply(s, p, m);
    MovesAreLegal(s, s.calls[p], env);
    assert LocalsOk(s', m.call) by {
      assert LocalsOk(s, s.calls[p]);
      OwnStudentKept(s, s.calls[p], env);
      OwnReadsFresh(s, s.calls[p], env);
      OwnAnswerStored(s, s.calls[p], env);
    }
    forall q | 0 <= q < |s'.calls| ensures LocalsOk(s', s'.calls[q])
    {
      if q != p { OthersLocalsKept(s, p, m, q); }
    }
  }

  /** A student who is settled after a move was settled before it, unless the move wrote the balance. */
  lemma SettledBefore(s: State, p: nat, m: Move, who: StudentKey)
    requires p < |s.calls| && LegalMove(s, s.calls[p], m)
    requires Settled(s.calls[p := m.call], who) && who !in Apply(s, p, m).unsafe
    requires m.effect.Rebalance? ==> s.calls[p].who != who
    ensures Settled(s.calls, who)
    ensures m.effect.Insert? ==> s.calls[p].who != who
  {
    var calls' := s.calls[p := m.call];
    assert calls'[p] == m.call;
    forall q | 0 <= q < |s.calls| && Dirty(s.calls[q]) ensures s.calls[q].who != who
    {
      assert q != p ==> calls'[q] == s.calls[q];
    }
  }

  lemma RebalancedIsBalanced(ps: seq<Payment>, st: Student, who: StudentKey)
    ensures Balanced(ps, Rebalanced(st, SumCounted(ps, who) + st.credit), who)
  {
  }

  /** An effect that neither rebalances `who` nor inserts for `who` leaves sum and student alone. */
  lemma UntouchedByMove(s: State, c: Call, effect: Effect, who: StudentKey)
    requires who in s.students && (effect.Rebalance? || effect.Insert? ==> c.who != who)
    ensures var s' := Perform(s, c, effect);
            && who in s'.students && s'.students[who] == s.students[who]
            && SumCounted(s'.payments, who) == SumCounted(s.payments, who)
  {
    if effect.Insert? { SumAppend(s.payments, NewRow(c), who); }
  }

  lemma BalancedElsewhere(s: State, c: Call, effect: Effect, who: StudentKey)
    requires who in s.students && (effect.Rebalance? || effect.Insert? ==> c.who != who)
    requires Balanced(s.payments, s.students[who], who)
    ensures var s' := Perform(s, c, effect); who in s'.students && Balanced(s'.payments, s'.students[who], who)
  {
    UntouchedByMove(s, c, effect, who);
  }

  lemma BalancedByWrite(s: State, c: Call)
    requires c.who in s.students && c.total == SumCounted(s.payments, c.who) + s.students[c.who].credit
    ensures var s' := Perform(s, c, Rebalance); c.who in s'.students && Balanced(s'.payments, s'.students[c.who], c.who)
  {
    RebalancedIsBalanced(s.payments, s.students[c.who], c.who);
  }

  lemma BalanceKept(s: State, p: nat, m: Move, who: StudentKey)
    requires p < |s.calls| && LocalsOk(s, s.calls[p]) && Balances(s) && LegalMove(s, s.calls[p], m)
    requires var s' := Apply(s, p, m); who in s'.students && who !in s'.unsafe && Settled(s'.calls, who)
    ensures var s' := Apply(s, p, m); Balanced(s'.payments, s'.students[who], who)
  {
    var c := s.calls[p];
    assert who in s.students && who !in s.unsafe;
    if m.effect.Rebalance? && c.who == who {
      assert c.total == SumCounted(s.payments, who) + s.students[who].credit;
      BalancedByWrite(s, c);
    } else {
      SettledBefore(s, p, m, who);
      BalancedElsewhere(s, c, m.effect, who);
    }
  }

  lemma KeepsBalances(s: State, p: nat, m: Move)
    requires p < |s.calls| && Locals(s) && Balances(s) && LegalMove(s, s.calls[p], m)
    ensures Balances(Apply(s, p, m))
  {
    var s' := Apply(s, p, m);
    assert LocalsOk(s, s.calls[p]);
    forall who | who in s'.students && who !in s'.unsafe && Settled(s'.calls, who)
      ensures Balanced(s'.payments, s'.students[who], who)
    {
      BalanceKept(s, p, m, who);
    }
  }

  lemma RowsAfterInsert(s: State, c: Call)
    requires Rows(s) && LocalsOk(s, c) && c.pc.Record? && !HasKey(s.payments, c.tx)
    ensures Rows(Perform(s, c, Insert))
  {
    var ps' := s.payments + [NewRow(c)];
    forall i | s.base <= i < |ps'| && ps'[i].who !in s.unsafe ensures RowClassified(ps', s.students, i)
    {
      if i < |s.payments| {
        assert RowClassified(s.payments, s.students, i);
        assert ps'[..i + 1] == s.payments[..i + 1];
      } else {
        assert ps'[..i + 1] == ps';
        SumAppend(s.payments, NewRow(c), c.who);
      }
    }
  }

  lemma RowsAfterRebalance(s: State, c: Call)
    requires Rows(s) && c.who in s.students
    ensures Rows(Perform(s, c, Rebalance))
  {
    var students' := Perform(s, c, Rebalance).students;
    forall i | s.base <= i < |s.payments| && s.payments[i].who !in s.unsafe
      ensures RowClassified(s.payments, students', i)
    {
      assert RowClassified(s.payments, s.students, i);
    }
  }

  lemma KeepsRows(s: State, p: nat, m: Move)
    requires p < |s.calls| && Locals(s) && Rows(s) && LegalMove(s, s.calls[p], m)
    ensures Rows(Apply(s, p, m))
  {
    assert LocalsOk(s, s.calls[p]);
    match m.effect
    case Insert => RowsAfterInsert(s, s.calls[p]);
    case Rebalance => RowsAfterRebalance(s, s.calls[p]);
    case _ =>
  }

  // ---------------------------------------------------------------- every event

  lemma AdvanceKeepsInv(s: State, p: nat, env: Env)
    requires Inv(s) && p < |s.calls|
    ensures Inv(Step(s, Advance(p, env)))
  {
    var m := CallMove(s, s.calls[p], env);
    MovesAreLegal(s, s.calls[p], env);
    KeepsStudentTable(s, p, m);
    KeepsVerifyTable(s, p, m);
    KeepsLocals(s, p, env);
    KeepsBalances(s, p, m);
    KeepsRows(s, p, m);
  }

  lemma InvokeKeepsInv(s: State, tx: TxKey)
    requires Inv(s)
    ensures Inv(Step(s, Invoke(tx)))
  {
    var s' := Step(s, Invoke(tx));
    assert Locks(s') by {
      JoinOk(StudentTable(s), s.nextToken, s.unsafe);
      assert StudentTable(s') == StudentTable(s).(holds := StudentTable(s).holds + [Free]);
      JoinOk(VerifyTable(s), s.nextToken, {});
      assert VerifyTable(s') == VerifyTable(s).(holds := VerifyTable(s).holds + [Free]);
    }
    forall p | 0 <= p < |s'.calls| ensures LocalsOk(s', s'.calls[p])
    {
      if p < |s.calls| { assert LocalsOk(s, s.calls[p]); }
    }
    forall w | w in s.students && w !in s.unsafe && Settled(s'.calls, w) ensures Settled(s.calls, w)
    {
      forall p | 0 <= p < |s.calls| && Dirty(s.calls[p]) ensures s.calls[p].who != w
      {
        assert s'.calls[p] == s.calls[p];
      }
    }
  }

  /** Losing a lock to its time limit only ever widens the set of unsafe students. */
  lemma ExpiryKeepsInv(s: State, e: Event)
    requires Inv(s) && (e.ExpireStudent? || e.ExpireVerify?)
    ensures Inv(Step(s, e))
  {
    var s' := Step(s, e);
    assert Locks(s') by {
      match e {
        case ExpireStudent(who) =>
          ExpireOk(StudentTable(s), s.nextToken, s.unsafe, who);
          if who in s.studentLocks {
            assert StudentTable(s') == Expired(StudentTable(s), who);
          }
          assert VerifyTable(s') == VerifyTable(s);
        case ExpireVerify(tx) =>
          ExpireOk(VerifyTable(s), s.nextToken, {}, tx);
          assert VerifyTable(s') == Expired(VerifyTable(s), tx);
          assert StudentTable(s') == StudentTable(s);
      }
    }
    forall p | 0 <= p < |s.calls| ensures LocalsOk(s', s'.calls[p]) { assert LocalsOk(s, s.calls[p]); }
  }

  lemma StepKeepsInv(s: State, e: Event)
    requires Inv(s)
    ensures Inv(Step(s, e))
  {
    match e
    case Invoke(tx) => InvokeKeepsInv(s, tx);
    case Advance(p, env) => if p < |s.calls| { AdvanceKeepsInv(s, p, env); }
    case ExpireStudent(_) => ExpiryKeepsInv(s, e);
    case ExpireVerify(_) => ExpiryKeepsInv(s, e);
  }

  lemma {:induction false} RunKeepsInv(s: State, es: seq<Event>)
    requires Init(s)
    ensures Inv(Run(s, es))
  {
    if es == [] {
      assert Locks(s) by {
        assert StudentTable(s) == Table(map[], [], {});
        assert VerifyTable(s) == Table(map[], [], {});
      }
    } else {
      RunKeepsInv(s, es[..|es| - 1]);
      StepKeepsInv(Run(s, es[..|es| - 1]), es[|es| - 1]);
    }
  }

  // ---------------------------------------------------------------- what a caller may rely on

  /** Whatever locks expire, calls fail or releases get lost: no transaction of a school is
      recorded twice, and rows once written never change. */
  lemma NoDoubleCredit(s: State, es: seq<Event>)
    requires Init(s)
    ensures UniqueKeys(Run(s, es).payments)
    ensures s.payments <= Run(s, es).payments
  {
    RunKeepsInv(s, es);
    HistoryGrows(s, es);
  }

  lemma {:induction false} HistoryGrows(s: State, es: seq<Event>)
    ensures s.payments <= Run(s, es).payments && Run(s, es).base == s.base
  {
    if es != [] {
      HistoryGrows(s, es[..|es| - 1]);
      RowsOnlyAppended(Run(s, es[..|es| - 1]), es[|es| - 1]);
    }
  }

  lemma RowsOnlyAppended(s: State, e: Event)
    ensures s.payments <= Step(s, e).payments && Step(s, e).base == s.base
  {
    if e.Advance? && e.p < |s.calls| {
      var m := CallMove(s, s.calls[e.p], e.env);
      assert s.payments <= Perform(s, s.calls[e.p], m.effect).payments;
    }
  }

  /** What a student has paid, straight from the rows: those that succeeded and are neither suspicious
      nor deleted. */
  function PaidTotal(ps: seq<Payment>, who: StudentKey): nat
  {
    if ps == [] then 0
    else
      (if ps[0].who == who && ps[0].status == Success && !ps[0].suspicious && !ps[0].deleted then ps[0].amount else 0)
      + PaidTotal(ps[1..], who)
  }

  lemma {:induction false} PaidTotalAppend(ps: seq<Payment>, r: Payment, who: StudentKey)
    ensures PaidTotal(ps + [r], who) == PaidTotal(ps, who) + PaidTotal([r], who)
  {
    if ps == [] {
      assert ps + [r] == [r];
    } else {
      PaidTotalAppend(ps[1..], r, who);
      assert (ps + [r])[1..] == ps[1..] + [r];
    }
  }

  lemma {:induction false} SumIsPaidTotal(ps: seq<Payment>, who: StudentKey)
    ensures SumCounted(ps, who) == PaidTotal(ps, who)
  {
    if ps != [] {
      var n := |ps| - 1;
      SumIsPaidTotal(ps[..n], who);
      assert ps[..n] + [ps[n]] == ps && [ps[n]][1..] == [];
      PaidTotalAppend(ps[..n], ps[n], who);
    }
  }

  /** Whenever a student's lock is free, the stored total, remaining balance and paid flag are
      those recomputed from all counted payments, unless that student's section was cut short. */
  lemma FreeLockMeansBalanced(s: State, es: seq<Event>, who: StudentKey)
    requires Init(s)
    requires var r := Run(s, es); who in r.students && who !in r.studentLocks && who !in r.unsafe
    ensures var r := Run(s, es); Balanced(r.payments, r.students[who], who)
    ensures var r := Run(s, es);
            var st, total := r.students[who], PaidTotal(r.payments, who) + r.students[who].credit;
            && st.totalPaid == total && (st.feePaid <==> total >= st.fee)
            && st.remaining == if total >= st.fee then 0 else st.fee - total
  {
    RunKeepsInv(s, es);
    var r := Run(s, es);
    SumIsPaidTotal(r.payments, who);
    forall p | 0 <= p < |r.calls| && Dirty(r.calls[p]) ensures r.calls[p].who != who
    {
      assert StudentTable(r).holds[p] == StudentHold(r.calls[p]);
    }
  }

  /** Every row a run adds carries the classification of the student's counted total up to
      and including it, in insertion order. */
  lemma StatusFollowsCumulativeTotal(s: State, es: seq<Event>, i: nat)
    requires Init(s)
    requires var r := Run(s, es); |s.payments| <= i < |r.payments| && r.payments[i].who !in r.unsafe
    ensures var r := Run(s, es); RowClassified(r.payments, r.students, i)
    ensures var r := Run(s, es);
            var row := r.payments[i];
            && row.who in r.students && row.status == Success && !row.suspicious && !row.deleted
            && var total, fee := PaidTotal(r.payments[..i + 1], row.who), r.students[row.who].fee;
               && (row.feeStatus == Partial <==> total < fee) && (row.feeStatus == Overpaid <==> total > fee)
               && row.excess == if total > fee then total - fee else 0
  {
    RunKeepsInv(s, es);
    HistoryGrows(s, es);
    SumIsPaidTotal(Run(s, es).payments[..i + 1], Run(s, es).payments[i].who);
  }

  /** All verified answers about one transaction agree, cached or not. */
  lemma AnswersAgree(s: State, es: seq<Event>, p: nat, q: nat)
    requires Init(s)
    requires var r := Run(s, es);
             && p < |r.calls| && q < |r.calls| && r.calls[p].tx == r.calls[q].tx
             && r.calls[p].outcome.Verified? && r.calls[q].outcome.Verified?
    ensures var r := Run(s, es); r.calls[p].outcome.answer == r.calls[q].outcome.answer
  {
    RunKeepsInv(s, es);
    var r := Run(s, es);
    assert LocalsOk(r, r.calls[p]) && LocalsOk(r, r.calls[q]);
    var i :| 0 <= i < |r.payments| && AnswerOf(r.payments[i]) == r.calls[p].outcome.answer;
    var j :| 0 <= j < |r.payments| && AnswerOf(r.payments[j]) == r.calls[q].outcome.answer;
    var lo, hi := if i < j then i else j, if i < j then j else i;
    assert lo < hi ==> r.payments[lo].key != r.payments[hi].key;
  }

  /** Steps a call still has to take at most. */
  function Rank(pc: Pc): nat
  {
    match pc
    case Lookup => 12 case AcquireVerify => 11 case ReadChain => 10 case FindStudent => 9
    case AcquireStudent => 8 case Aggregate => 7 case Record => 6 case DupLookup => 5
    case Outbox => 5 case ReadBalance => 4 case WriteBalance => 3 case ReleaseStudent => 2
    case ReleaseVerify => 1 case Done => 0
  }

  /** No call ever waits for another: each of its steps is possible in every state and brings
      it strictly closer to its end. */
  lemma CallsNeverBlock(s: State, p: nat, env: Env)
    requires p < |s.calls| && !s.calls[p].pc.Done?
    ensures var s' := Step(s, Advance(p, env));
            |s'.calls| == |s.calls| && Rank(s'.calls[p].pc) < Rank(s.calls[p].pc)
  {
  }
}
