/**
 Lock tokens over whole runs: no token is handed out twice, so no finished call can still
 own a lock.
 */
module VerifyPaymentTokens {
  import opened LockTable
  import opened VerifyPayment
  import opened VerifyPaymentSafety

  ghost predicate TokenUsed(c: Call, next: nat)
  {
    && c.verifyToken < next && c.studentToken < next
    && (HoldsVerify(c) ==> c.verifyToken > 0) && (InSection(c) ==> c.studentToken > 0)
  }

  ghost predicate Apart(c: Call, d: Call)
  {
    && (c.verifyToken > 0 ==> c.verifyToken != d.verifyToken)
    && (c.studentToken > 0 ==> c.studentToken != d.studentToken)
  }

  /** Every token belongs to one call for good, whether that call is still running or not. */
  ghost predicate TokensFresh(s: State)
  {
    && s.nextToken > 0
    && (forall p :: 0 <= p < |s.calls| ==> TokenUsed(s.calls[p], s.nextToken))
    && (forall p, q :: 0 <= p < |s.calls| && 0 <= q < |s.calls| && p != q ==> Apart(s.calls[p], s.calls[q]))
  }

  /** A call gets a token only by taking a lock, and then the next one. */
  lemma MoveTokens(s: State, c: Call, env: Env)
    ensures var m := CallMove(s, c, env);
            && m.call.verifyToken == (if m.effect.TakeVerify? then s.nextToken else c.verifyToken)
            && m.call.studentToken == (if m.effect.TakeStudent? then s.nextToken else c.studentToken)
            && (HoldsVerify(m.call) ==> HoldsVerify(c) || m.effect.TakeVerify?)
            && (InSection(m.call) ==> InSection(c) || m.effect.TakeStudent?)
  {
  }

  lemma NextTokenGrows(s: State, c: Call, effect: Effect)
    ensures Perform(s, c, effect).nextToken == s.nextToken + if effect.TakeVerify? || effect.TakeStudent? then 1 else 0
  {
  }

  lemma AdvanceKeepsTokens(s: State, p: nat, env: Env)
    requires TokensFresh(s) && p < |s.calls|
    ensures TokensFresh(Step(s, Advance(p, env)))
  {
    var c, m := s.calls[p], CallMove(s, s.calls[p], env);
    MoveTokens(s, c, env);
    NextTokenGrows(s, c, m.effect);
    var s' := Apply(s, p, m);
    assert s'.calls == s.calls[p := m.call];
    assert TokenUsed(c, s.nextToken);
    forall q | 0 <= q < |s'.calls| ensures TokenUsed(s'.calls[q], s'.nextToken)
    {
      if q != p { assert TokenUsed(s.calls[q], s.nextToken); }
    }
    forall i, j | 0 <= i < |s'.calls| && 0 <= j < |s'.calls| && i != j ensures Apart(s'.calls[i], s'.calls[j])
    {
      assert Apart(s.calls[i], s.calls[j]);
      assert TokenUsed(s.calls[i], s.nextToken) && TokenUsed(s.calls[j], s.nextToken);
    }
  }

  lemma InvokeKeepsTokens(s: State, tx: TxKey)
    requires TokensFresh(s)
    ensures TokensFresh(Step(s, Invoke(tx)))
  {
    var s' := Step(s, Invoke(tx));
    forall q | 0 <= q < |s'.calls| ensures TokenUsed(s'.calls[q], s'.nextToken)
    {
      if q < |s.calls| { assert TokenUsed(s.calls[q], s.nextToken); }
    }
    forall i, j | 0 <= i < |s'.calls| && 0 <= j < |s'.calls| && i != j ensures Apart(s'.calls[i], s'.calls[j])
    {
      if i < |s.calls| && j < |s.calls| { assert Apart(s.calls[i], s.calls[j]); }
    }
  }

  lemma {:induction false} RunKeepsTokens(s: State, es: seq<Event>)
    requires Init(s)
    ensures TokensFresh(Run(s, es))
  {
    if es != [] {
      var r, e := Run(s, es[..|es| - 1]), es[|es| - 1];
      RunKeepsTokens(s, es[..|es| - 1]);
      match e
      case Invoke(tx) => InvokeKeepsTokens(r, tx);
      case Advance(p, env) => if p < |r.calls| { AdvanceKeepsTokens(r, p, env); }
      case _ => assert Step(r, e).calls == r.calls;
    }
  }

  // ---------------------------------------------------------------- who holds a lock

  ghost predicate HeldBySomeCall(s: State, who: StudentKey)
    requires who in s.studentLocks
  {
    exists p :: 0 <= p < |s.calls| && InSection(s.calls[p])
                && s.calls[p].who == who && s.calls[p].studentToken == s.studentLocks[who]
  }

  ghost predicate VerifiedBySomeCall(s: State, tx: TxKey)
    requires tx in s.verifyLocks
  {
    exists p :: 0 <= p < |s.calls| && HoldsVerify(s.calls[p])
                && s.calls[p].tx == tx && s.calls[p].verifyToken == s.verifyLocks[tx]
  }

  /** No lock carries a token of this call, unless the release of that token was lost. */
  ghost predicate TokensBack(s: State, c: Call)
  {
    && (forall who :: who in s.studentLocks && s.studentLocks[who] == c.studentToken ==>
         c.studentToken in s.lostStudent)
    && (forall tx :: tx in s.verifyLocks && s.verifyLocks[tx] == c.verifyToken ==> c.verifyToken in s.lostVerify)
  }

  lemma OthersHoldOtherTokens(s: State, p: nat)
    requires TokensFresh(s) && p < |s.calls| && s.calls[p].pc.Done?
    ensures forall q :: 0 <= q < |s.calls| && InSection(s.calls[q]) ==>
              s.calls[q].studentToken != s.calls[p].studentToken
    ensures forall q :: 0 <= q < |s.calls| && HoldsVerify(s.calls[q]) ==>
              s.calls[q].verifyToken != s.calls[p].verifyToken
  {
    forall q | 0 <= q < |s.calls| && q != p
      ensures TokenUsed(s.calls[q], s.nextToken) && Apart(s.calls[q], s.calls[p])
    {
    }
  }

  lemma FinishedGaveBack(s: State, p: nat)
    requires TokensFresh(s) && p < |s.calls| && s.calls[p].pc.Done?
    requires forall who :: who in s.studentLocks ==> s.studentLocks[who] in s.lostStudent || HeldBySomeCall(s, who)
    requires forall tx :: tx in s.verifyLocks ==> s.verifyLocks[tx] in s.lostVerify || VerifiedBySomeCall(s, tx)
    ensures TokensBack(s, s.calls[p])
  {
    OthersHoldOtherTokens(s, p);
  }

  /** A finished call holds no lock: at any moment, a lock is there because some call is in the
      section it guards, on that very key and token, or because its release never reached the
      store. */
  lemma FinishedCallsHoldNoLock(s: State, es: seq<Event>)
    requires Init(s)
    ensures var r := Run(s, es);
            forall who :: who in r.studentLocks ==> r.studentLocks[who] in r.lostStudent || HeldBySomeCall(r, who)
    ensures var r := Run(s, es);
            forall tx :: tx in r.verifyLocks ==> r.verifyLocks[tx] in r.lostVerify || VerifiedBySomeCall(r, tx)
    ensures var r := Run(s, es);
            forall p :: 0 <= p < |r.calls| && r.calls[p].pc.Done? ==> TokensBack(r, r.calls[p])
  {
    RunKeepsInv(s, es);
    var r := Run(s, es);
    var st, vt := StudentTable(r), VerifyTable(r);
    forall who | who in r.studentLocks && r.studentLocks[who] !in r.lostStudent ensures HeldBySomeCall(r, who)
    {
      assert Owned(st, who) && st.locks == r.studentLocks;
      var p :| 0 <= p < |st.holds| && st.holds[p] == Held(who, r.studentLocks[who]);
      assert InSection(r.calls[p]);
    }
    forall tx | tx in r.verifyLocks && r.verifyLocks[tx] !in r.lostVerify ensures VerifiedBySomeCall(r, tx)
    {
      assert Owned(vt, tx) && vt.locks == r.verifyLocks;
      var p :| 0 <= p < |vt.holds| && vt.holds[p] == Held(tx, r.verifyLocks[tx]);
      assert HoldsVerify(r.calls[p]);
    }
    RunKeepsTokens(s, es);
    forall p | 0 <= p < |r.calls| && r.calls[p].pc.Done? ensures TokensBack(r, r.calls[p]) { FinishedGaveBack(r, p); }
  }
}
