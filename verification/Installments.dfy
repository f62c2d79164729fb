/**
 Payment plans: creating a plan, settling its instalments first-in first-out from on-chain
 payments, and settling one by hand.
 */
module Installments {
  import opened Basics

  const MAX_INSTALLMENTS := 24

  datatype Installment = Installment(amount: int, paidAmount: int, paid: bool, hashes: seq<string>)

  // ---------------------------------------------------------------- allocation

  /** Puts `applied` on an instalment; an empty transaction hash is not recorded. */
  function Credit(x: Installment, applied: int, hash: string): Installment
  {
    Installment(x.amount, x.paidAmount + applied,
                x.paid || x.paidAmount + applied >= x.amount,
                if hash == "" then x.hashes else x.hashes + [hash])
  }

  /** How much of a payment an instalment takes. */
  function Applied(x: Installment, remaining: int): nat
  {
    Max(0, Min(remaining, x.amount - x.paidAmount))
  }

  function Touch(x: Installment, applied: nat, hash: string): Installment
  {
    if applied > 0 then Credit(x, applied, hash) else x
  }

  function Alloc(xs: seq<Installment>, remaining: int, hash: string): (r: seq<Installment>)
    ensures |r| == |xs|
  {
    if xs == [] then []
    else
      var applied := Applied(xs[0], remaining);
      [Touch(xs[0], applied, hash)] + Alloc(xs[1..], remaining - applied, hash)
  }

  /** Nothing left, nothing changed. */
  lemma {:induction false} AllocNothing(xs: seq<Installment>, remaining: int, hash: string)
    requires remaining <= 0
    ensures Alloc(xs, remaining, hash) == xs
  {
    if xs != [] { AllocNothing(xs[1..], remaining, hash); }
  }

  function PaidSum(xs: seq<Installment>): int
  {
    if xs == [] then 0 else xs[0].paidAmount + PaidSum(xs[1..])
  }

  function Outstanding(xs: seq<Installment>): nat
  {
    if xs == [] then 0 else Max(0, xs[0].amount - xs[0].paidAmount) + Outstanding(xs[1..])
  }

  function AmountSum(xs: seq<Installment>): int
  {
    if xs == [] then 0 else xs[0].amount + AmountSum(xs[1..])
  }

  /** Settling one instalment by hand, in full or not at all. */
  function Settle(xs: seq<Installment>, i: nat, paid: bool): seq<Installment>
    requires i < |xs|
  {
    xs[i := xs[i].(paid := paid, paidAmount := if paid then xs[i].amount else 0)]
  }

  // ---------------------------------------------------------------- the plan

  datatype Request = Request(amount: int, due: int)

  datatype CreateReply =
    | Invalid | NoStudent | Exists | DoesNotReconcile
    | Created(total: int, installments: seq<Installment>)

  datatype SettleReply = ReferenceMissing | NoPlan | BadIndex | Done

  function RequestSum(rs: seq<Request>): int
  {
    if rs == [] then 0 else RequestSum(rs[..|rs| - 1]) + rs[|rs| - 1].amount
  }

  predicate ValidRequest(rs: seq<Request>, now: int)
  {
    && 1 <= |rs| <= MAX_INSTALLMENTS
    && (forall i :: 0 <= i < |rs| ==> rs[i].amount > 0 && rs[i].due > now)
    && (forall i :: 1 <= i < |rs| ==> rs[i - 1].due < rs[i].due)
  }

  /** The amount a plan has to add up to: the remaining balance when there is one, else the fee. */
  function ExpectedTotal(remaining: Option<int>, fee: Option<int>): Option<int>
  {
    if remaining.Some? then remaining else fee
  }

  /** Adds up the requested instalments and accepts the plan only when the total reconciles. */
  method CreatePlan(rs: seq<Request>, now: int, known: bool, hasActivePlan: bool, allowPartial: bool,
                    remaining: Option<int>, fee: Option<int>) returns (reply: CreateReply)
    ensures reply.Invalid? <==> !ValidRequest(rs, now)
    ensures reply.NoStudent? <==> ValidRequest(rs, now) && !known
    ensures reply.Exists? <==> ValidRequest(rs, now) && known && hasActivePlan
    ensures reply.Created? <==>
              && ValidRequest(rs, now) && known && !hasActivePlan
              && (allowPartial || ExpectedTotal(remaining, fee).None?
                  || ExpectedTotal(remaining, fee).value == RequestSum(rs))
    ensures reply.Created? ==>
              && reply.total == RequestSum(rs) == AmountSum(reply.installments)
              && |reply.installments| == |rs|
              && forall i :: 0 <= i < |rs| ==> reply.installments[i] == Installment(rs[i].amount, 0, false, [])
  {
    if !ValidRequest(rs, now) { return Invalid; }
    if !known { return NoStudent; }
    if hasActivePlan { return Exists; }
    var total := 0;
    var installments := [];
    for i := 0 to |rs|
      invariant total == RequestSum(rs[..i]) == AmountSum(installments)
      invariant |installments| == i
      invariant forall k :: 0 <= k < i ==> installments[k] == Installment(rs[k].amount, 0, false, [])
    {
      var x := Installment(rs[i].amount, 0, false, []);
      assert rs[..i + 1][..i] == rs[..i];
      AmountSumAppend(installments, x);
      total := total + rs[i].amount;
      installments := installments + [x];
    }
    assert rs[..|rs|] == rs;
    var expected := ExpectedTotal(remaining, fee);
    if !allowPartial && expected.Some? && total != expected.value { return DoesNotReconcile; }
    return Created(total, installments);
  }

  lemma {:induction false} AmountSumAppend(xs: seq<Installment>, x: Installment)
    ensures AmountSum(xs + [x]) == AmountSum(xs) + x.amount
  {
    if xs == [] {
      assert [x][1..] == [];
    } else {
      AmountSumAppend(xs[1..], x);
      assert (xs + [x])[1..] == xs[1..] + [x];
    }
  }

  /** Where the loop stands: the first `i` instalments are final, the others untouched. */
  ghost predicate Allocating(before: seq<Installment>, xs: seq<Installment>, i: nat, remaining: int, hash: string,
                             goal: seq<Installment>)
  {
    i <= |xs| == |before| && xs[i..] == before[i..] && xs[..i] + Alloc(before[i..], remaining, hash) == goal
  }

  lemma {:induction false} AllocStep(before: seq<Installment>, xs: seq<Installment>, i: nat, remaining: int,
                                     hash: string, goal: seq<Installment>)
    requires Allocating(before, xs, i, remaining, hash, goal) && i < |xs|
    ensures var a := Applied(xs[i], remaining);
            Allocating(before, xs[i := Touch(xs[i], a, hash)], i + 1, remaining - a, hash, goal)
  {
    var a := Applied(xs[i], remaining);
    var x := Touch(xs[i], a, hash);
    var xs' := xs[i := x];
    assert xs[i] == xs[i..][0] == before[i..][0] == before[i];
    assert before[i..][1..] == before[i + 1..];
    assert xs'[i + 1..] == xs[i..][1..] == before[i + 1..];
    assert xs'[..i + 1] == xs[..i] + [x];
    var rest := Alloc(before[i + 1..], remaining - a, hash);
    assert xs[..i] + ([x] + rest) == (xs[..i] + [x]) + rest;
  }

  lemma {:induction false} AllocDone(before: seq<Installment>, xs: seq<Installment>, i: nat, remaining: int,
                                     hash: string, goal: seq<Installment>)
    requires Allocating(before, xs, i, remaining, hash, goal) && (i == |xs| || remaining <= 0)
    ensures xs == goal
  {
    if remaining <= 0 { AllocNothing(before[i..], remaining, hash); }
    assert xs == xs[..i] + xs[i..];
  }

  /** The loop over the instalments, oldest first. */
  method AllocateLoop(before: seq<Installment>, amount: int, hash: string) returns (xs: seq<Installment>)
    ensures xs == Alloc(before, amount, hash)
  {
    xs := before;
    var remaining, i := amount, 0;
    ghost var goal := Alloc(before, amount, hash);
    assert Allocating(before, xs, 0, amount, hash, goal) by { assert before[0..] == before; }
    while i < |xs| && remaining > 0
      invariant Allocating(before, xs, i, remaining, hash, goal)
    {
      AllocStep(before, xs, i, remaining, hash, goal);
      var x := xs[i];
      ghost var a, xs' := Applied(x, remaining), xs[i := Touch(x, Applied(x, remaining), hash)];
      ghost var remaining' := remaining - a;
      var open := x.amount - x.paidAmount;
      if open > 0 {
        var applied := Min(remaining, open);
        xs := xs[i := Credit(x, applied, hash)];
        remaining := remaining - applied;
      }
      assert xs == xs' && remaining == remaining';
      i := i + 1;
    }
    AllocDone(before, xs, i, remaining, hash, goal);
  }

  class Plan {
    var installments: seq<Installment>
    var active: bool
    var deleted: bool

    constructor (installments: seq<Installment>)
      ensures this.installments == installments && active && !deleted
    {
      this.installments := installments;
      active, deleted := true, false;
    }

    /** Allocates a confirmed payment to the oldest unpaid instalments and saves the plan. */
    method AllocatePayment(amount: int, hash: string) returns (found: bool)
      modifies this`installments
      ensures found == (active && !deleted)
      ensures installments == if found then Alloc(old(installments), amount, hash) else old(installments)
    {
      found := active && !deleted;
      if found {
        installments := AllocateLoop(installments, amount, hash);
      }
    }

    /** A manual settlement needs a reference and ignores any amount in the request. */
    method SettleManually(index: int, paid: bool, reference: string) returns (reply: SettleReply)
      modifies this`installments
      ensures reply.ReferenceMissing? <==> reference == ""
      ensures reply.NoPlan? <==> reference != "" && deleted
      ensures reply.Done? <==> reference != "" && !deleted && 0 <= index < |old(installments)|
      ensures installments == if reply.Done? then Settle(old(installments), index, paid) else old(installments)
      ensures reply.Done? ==>
                && |installments| == |old(installments)|
                && installments[index].paid == paid
                && installments[index].amount == old(installments)[index].amount
                && installments[index].paidAmount == (if paid then installments[index].amount else 0)
                && installments[index].hashes == old(installments)[index].hashes
                && forall j :: 0 <= j < |installments| && j != index ==> installments[j] == old(installments)[j]
    {
      if reference == "" { return ReferenceMissing; }
      if deleted { return NoPlan; }
      if index < 0 || index >= |installments| { return BadIndex; }
      var x := installments[index];
      installments := installments[index := x.(paid := paid, paidAmount := if paid then x.amount else 0)];
      return Done;
    }

    method Cancel() returns (found: bool)
      modifies this`active, this`deleted
      ensures found == !old(deleted)
      ensures deleted && active == (old(active) && !found)
    {
      found := !deleted;
      if found { active, deleted := false, true; }
    }
  }

  // ---------------------------------------------------------------- conservation

  /** Each allocation raises the paid sum by exactly the smaller of payment and outstanding amount,
      and lowers what is outstanding by the same. */
  lemma {:induction false} AllocConserves(xs: seq<Installment>, remaining: int, hash: string)
    ensures var used := Min(Max(0, remaining), Outstanding(xs));
            && PaidSum(Alloc(xs, remaining, hash)) == PaidSum(xs) + used
            && Outstanding(Alloc(xs, remaining, hash)) == Outstanding(xs) - used
            && AmountSum(Alloc(xs, remaining, hash)) == AmountSum(xs)
  {
    if xs != [] {
      AllocConserves(xs[1..], remaining - Applied(xs[0], remaining), hash);
    }
  }

  // ---------------------------------------------------------------- additivity

  /** Amounts and flags, without the recorded hashes. */
  function Forget(xs: seq<Installment>): (r: seq<Installment>)
    ensures |r| == |xs|
  {
    if xs == [] then [] else [xs[0].(hashes := [])] + Forget(xs[1..])
  }

  lemma {:induction false} ForgetAt(xs: seq<Installment>, i: nat)
    requires i < |xs|
    ensures Forget(xs)[i] == xs[i].(hashes := [])
  {
    if i > 0 { ForgetAt(xs[1..], i - 1); }
  }

  lemma {:induction false} TouchForgets(x: Installment, remaining: int, hash: string)
    ensures var a := Applied(x, remaining);
            a == Applied(x.(hashes := []), remaining) &&
            Touch(x, a, hash).(hashes := []) == Touch(x.(hashes := []), a, "")
  {
  }

  lemma {:induction false} HashesDoNotMatter(xs: seq<Installment>, remaining: int, hash: string)
    ensures Forget(Alloc(xs, remaining, hash)) == Alloc(Forget(xs), remaining, "")
  {
    if xs != [] {
      var a := Applied(xs[0], remaining);
      var head, tail := Touch(xs[0], a, hash), Alloc(xs[1..], remaining - a, hash);
      TouchForgets(xs[0], remaining, hash);
      HashesDoNotMatter(xs[1..], remaining - a, hash);
      assert ([head] + tail)[1..] == tail;
      assert Forget(xs)[1..] == Forget(xs[1..]);
    }
  }

  /** Giving an instalment two shares is giving it their sum. */
  lemma {:induction false} TouchTwice(x: Installment, r: nat, s: nat)
    ensures var a := Applied(x, r);
            var x' := Touch(x, a, "");
            var b := Applied(x', s);
            a <= r && b <= s && a + b == Applied(x, r + s) && Touch(x', b, "") == Touch(x, a + b, "")
  {
  }

  lemma {:induction false} AllocTwice(xs: seq<Installment>, r: nat, s: nat)
    ensures Alloc(Alloc(xs, r, ""), s, "") == Alloc(xs, r + s, "")
  {
    if xs != [] {
      var a := Applied(xs[0], r);
      var x', tail' := Touch(xs[0], a, ""), Alloc(xs[1..], r - a, "");
      var b := Applied(x', s);
      TouchTwice(xs[0], r, s);
      AllocTwice(xs[1..], r - a, s - b);
      assert ([x'] + tail')[1..] == tail';
    }
  }

  /** Allocating x and then y leaves the same amounts and flags as allocating x + y at once. */
  lemma {:induction false} AllocAdditive(xs: seq<Installment>, x: nat, hx: string, y: nat, hy: string, h: string)
    ensures Forget(Alloc(Alloc(xs, x, hx), y, hy)) == Forget(Alloc(xs, x + y, h))
  {
    HashesDoNotMatter(Alloc(xs, x, hx), y, hy);
    HashesDoNotMatter(xs, x, hx);
    HashesDoNotMatter(xs, x + y, h);
    AllocTwice(Forget(xs), x, y);
  }

  datatype Payment = Payment(amount: nat, hash: string)

  function AllocMany(xs: seq<Installment>, ps: seq<Payment>): (r: seq<Installment>)
    ensures |r| == |xs|
    decreases |ps|
  {
    if ps == [] then xs else AllocMany(Alloc(xs, ps[0].amount, ps[0].hash), ps[1..])
  }

  function PaymentSum(ps: seq<Payment>): nat
  {
    if ps == [] then 0 else ps[0].amount + PaymentSum(ps[1..])
  }

  lemma {:induction false} ManyIsOne(xs: seq<Installment>, ps: seq<Payment>)
    ensures Forget(AllocMany(xs, ps)) == Forget(Alloc(xs, PaymentSum(ps), ""))
    decreases |ps|
  {
    if ps == [] {
      AllocNothing(xs, 0, "");
    } else {
      var p, rest := ps[0], PaymentSum(ps[1..]);
      ManyIsOne(Alloc(xs, p.amount, p.hash), ps[1..]);
      AllocAdditive(xs, p.amount, p.hash, rest, "", "");
    }
  }

  lemma {:induction false} SumSplit(ps: seq<Payment>, i: nat)
    requires i < |ps|
    ensures PaymentSum(ps) == ps[i].amount + PaymentSum(ps[..i] + ps[i + 1..])
  {
    if i == 0 {
      assert ps[..0] + ps[1..] == ps[1..];
    } else {
      SumSplit(ps[1..], i - 1);
      var others := ps[..i] + ps[i + 1..];
      assert others[0] == ps[0] && others[1..] == ps[1..][..i - 1] + ps[1..][i..];
    }
  }

  lemma {:induction false} MultisetWithout(qs: seq<Payment>, i: nat)
    requires i < |qs|
    ensures multiset(qs) == multiset{qs[i]} + multiset(qs[..i] + qs[i + 1..])
  {
    assert qs == qs[..i] + [qs[i]] + qs[i + 1..];
  }

  lemma {:induction false} Cancel(p: Payment, m: multiset<Payment>, n: multiset<Payment>)
    requires multiset{p} + m == multiset{p} + n
    ensures m == n
  {
    assert m == (multiset{p} + m) - multiset{p};
    assert n == (multiset{p} + n) - multiset{p};
  }

  lemma {:induction false} MatchFirst(ps: seq<Payment>, qs: seq<Payment>) returns (i: nat)
    requires multiset(ps) == multiset(qs) && ps != []
    ensures i < |qs| && qs[i] == ps[0] && multiset(ps[1..]) == multiset(qs[..i] + qs[i + 1..])
  {
    assert ps[0] in multiset(ps);
    i :| 0 <= i < |qs| && qs[i] == ps[0];
    var p, rest, others := ps[0], ps[1..], qs[..i] + qs[i + 1..];
    assert multiset(qs) == multiset{p} + multiset(others) by { MultisetWithout(qs, i); }
    assert multiset(ps) == multiset{p} + multiset(rest) by { assert ps == [p] + rest; }
    Cancel(p, multiset(rest), multiset(others));
  }

  lemma {:induction false} SumIgnoresOrder(ps: seq<Payment>, qs: seq<Payment>)
    requires multiset(ps) == multiset(qs)
    ensures PaymentSum(ps) == PaymentSum(qs)
    decreases |ps|
  {
    if ps == [] {
      assert |multiset(qs)| == 0;
    } else {
      var i := MatchFirst(ps, qs);
      SumIgnoresOrder(ps[1..], qs[..i] + qs[i + 1..]);
      SumSplit(qs, i);
    }
  }

  /** Payments may arrive in any order. */
  lemma {:induction false} OrderDoesNotMatter(xs: seq<Installment>, ps: seq<Payment>, qs: seq<Payment>)
    requires multiset(ps) == multiset(qs)
    ensures Forget(AllocMany(xs, ps)) == Forget(AllocMany(xs, qs))
  {
    SumIgnoresOrder(ps, qs);
    ManyIsOne(xs, ps);
    ManyIsOne(xs, qs);
  }

  // ---------------------------------------------------------------- runs

  ghost predicate Sound(x: Installment)
  {
    x.amount > 0 && 0 <= x.paidAmount <= x.amount && (x.paid <==> x.paidAmount == x.amount)
  }

  ghost predicate AllSound(xs: seq<Installment>)
  {
    forall i :: 0 <= i < |xs| ==> Sound(xs[i])
  }

  ghost predicate Untouched(xs: seq<Installment>)
  {
    forall i :: 0 <= i < |xs| ==> xs[i].paidAmount == 0 && !xs[i].paid
  }

  datatype Event = Pay(amount: int, hash: string) | Manual(index: nat, paid: bool)

  function Step(xs: seq<Installment>, e: Event): (r: seq<Installment>)
    ensures |r| == |xs|
  {
    match e
    case Pay(amount, hash) => Alloc(xs, amount, hash)
    case Manual(i, paid) => if i < |xs| then Settle(xs, i, paid) else xs
  }

  function Run(xs: seq<Installment>, es: seq<Event>): (r: seq<Installment>)
    ensures |r| == |xs|
  {
    if es == [] then xs else Step(Run(xs, es[..|es| - 1]), es[|es| - 1])
  }

  lemma {:induction false} AllocKeepsSound(xs: seq<Installment>, remaining: int, hash: string)
    requires AllSound(xs)
    ensures AllSound(Alloc(xs, remaining, hash))
  {
    if xs != [] {
      assert Sound(xs[0]);
      AllocKeepsSound(xs[1..], remaining - Applied(xs[0], remaining), hash);
    }
  }

  /** From a new plan on, over any run of allocations and manual settlements, no instalment is
      overpaid or negative, and an instalment is flagged paid exactly when it is paid in full. */
  lemma {:induction false} RunKeepsSound(xs: seq<Installment>, es: seq<Event>)
    requires Untouched(xs) && forall i :: 0 <= i < |xs| ==> xs[i].amount > 0
    ensures AllSound(Run(xs, es))
  {
    if es != [] {
      var before, e := Run(xs, es[..|es| - 1]), es[|es| - 1];
      RunKeepsSound(xs, es[..|es| - 1]);
      match e
      case Pay(amount, hash) => AllocKeepsSound(before, amount, hash);
      case Manual(i, paid) =>
    }
  }

  /** Instalments before the first unfinished one are full, those after it untouched. */
  ghost predicate FullPrefix(xs: seq<Installment>)
  {
    exists k :: 0 <= k <= |xs| && PrefixAt(xs, k)
  }

  ghost predicate PrefixAt(xs: seq<Installment>, k: nat)
    requires k <= |xs|
  {
    && (forall i :: 0 <= i < k ==> xs[i].paidAmount == xs[i].amount)
    && (forall i :: k < i < |xs| ==> xs[i].paidAmount == 0)
  }

  lemma {:induction false} AllocKeepsPrefix(xs: seq<Installment>, remaining: int, hash: string)
    requires AllSound(xs) && FullPrefix(xs)
    ensures FullPrefix(Alloc(xs, remaining, hash))
  {
    var k :| 0 <= k <= |xs| && PrefixAt(xs, k);
    if xs == [] {
    } else if remaining <= 0 {
      AllocNothing(xs, remaining, hash);
    } else {
      var h, tail := xs[0], xs[1..];
      var rest := remaining - Applied(h, remaining);
      assert Sound(h);
      assert PrefixAt(tail, if k > 0 then k - 1 else 0);
      AllocKeepsPrefix(tail, rest, hash);
      var r := Alloc(xs, remaining, hash);
      if h.amount - h.paidAmount > remaining {
        AllocNothing(tail, rest, hash);
        assert k == 0 && r[1..] == tail;
        assert PrefixAt(r, 0);
      } else {
        var j :| 0 <= j <= |tail| && PrefixAt(Alloc(tail, rest, hash), j);
        assert PrefixAt(r, j + 1);
      }
    }
  }

  /** With allocations alone, paid instalments form a full prefix, then at most one is partly paid,
      and the rest are untouched. */
  lemma {:induction false} PaymentsFillFromTheFront(xs: seq<Installment>, ps: seq<Payment>)
    requires AllSound(xs) && FullPrefix(xs)
    ensures AllSound(AllocMany(xs, ps)) && FullPrefix(AllocMany(xs, ps))
    decreases |ps|
  {
    if ps != [] {
      AllocKeepsSound(xs, ps[0].amount, ps[0].hash);
      AllocKeepsPrefix(xs, ps[0].amount, ps[0].hash);
      PaymentsFillFromTheFront(Alloc(xs, ps[0].amount, ps[0].hash), ps[1..]);
    }
  }

  // ---------------------------------------------------------------- paying a plan off

  lemma {:induction false} UntouchedSums(xs: seq<Installment>)
    requires Untouched(xs) && forall i :: 0 <= i < |xs| ==> xs[i].amount > 0
    ensures PaidSum(xs) == 0 && Outstanding(xs) == AmountSum(xs)
  {
    if xs != [] { UntouchedSums(xs[1..]); }
  }

  lemma {:induction false} NothingOutstanding(xs: seq<Installment>)
    requires AllSound(xs) && Outstanding(xs) == 0
    ensures forall i :: 0 <= i < |xs| ==> xs[i].paid
  {
    if xs != [] {
      assert Sound(xs[0]);
      NothingOutstanding(xs[1..]);
    }
  }

  /** A new plan is paid off by exactly its total, however that is split into payments: with less,
      the paid sum is what was paid; with enough, every instalment is flagged paid. */
  lemma {:induction false} TotalPaysOffThePlan(xs: seq<Installment>, ps: seq<Payment>)
    requires Untouched(xs) && forall i :: 0 <= i < |xs| ==> xs[i].amount > 0
    ensures var r := AllocMany(xs, ps);
            && PaidSum(r) == Min(PaymentSum(ps), AmountSum(xs))
            && (PaymentSum(ps) >= AmountSum(xs) ==> forall i :: 0 <= i < |r| ==> r[i].paid)
  {
    var r, one := AllocMany(xs, ps), Alloc(xs, PaymentSum(ps), "");
    ManyIsOne(xs, ps);
    UntouchedSums(xs);
    AllocConserves(xs, PaymentSum(ps), "");
    SumsIgnoreHashes(r, one);
    AllocKeepsSound(xs, PaymentSum(ps), "");
    if PaymentSum(ps) >= AmountSum(xs) {
      NothingOutstanding(one);
      forall i | 0 <= i < |r| ensures r[i].paid { ForgetAt(r, i); ForgetAt(one, i); }
    }
  }

  lemma {:induction false} SumsIgnoreHashes(xs: seq<Installment>, ys: seq<Installment>)
    requires Forget(xs) == Forget(ys)
    ensures PaidSum(xs) == PaidSum(ys)
  {
    assert |xs| == |Forget(xs)| == |ys|;
    if xs != [] {
      assert Forget(xs)[0] == Forget(ys)[0];
      assert Forget(xs[1..]) == Forget(xs)[1..] && Forget(ys[1..]) == Forget(ys)[1..];
      SumsIgnoreHashes(xs[1..], ys[1..]);
    }
  }

  // ---------------------------------------------------------------- instalment by instalment

  /** What is asked of a new plan: one to twenty-four instalments, each of a positive amount and due
      later than now and than the one before. */
  lemma {:induction false} ValidRequestExactly(rs: seq<Request>, now: int)
    ensures !ValidRequest(rs, now) <==>
              || |rs| == 0 || |rs| > 24
              || (exists i :: 0 <= i < |rs| && (rs[i].amount <= 0 || rs[i].due <= now))
              || (exists i, j :: 0 <= i < j < |rs| && rs[j].due <= rs[i].due)
  {
    if ValidRequest(rs, now) {
      forall i, j | 0 <= i < j < |rs| ensures rs[i].due < rs[j].due { DueAscends(rs, i, j); }
    } else if 1 <= |rs| <= 24 && forall i :: 0 <= i < |rs| ==> rs[i].amount > 0 && rs[i].due > now {
      var j :| 1 <= j < |rs| && rs[j - 1].due >= rs[j].due;
      assert 0 <= j - 1 < j < |rs|;
    }
  }

  lemma {:induction false} DueAscends(rs: seq<Request>, i: nat, j: nat)
    requires i < j < |rs| && forall k :: 1 <= k < |rs| ==> rs[k - 1].due < rs[k].due
    ensures rs[i].due < rs[j].due
    decreases j
  {
    assert rs[j - 1].due < rs[j].due;
    if i < j - 1 { DueAscends(rs, i, j - 1); }
  }

  /** A plan reconciles with the student's remaining balance if that is known, else with the fee, and
      with anything if neither is. */
  lemma ReconcilesWith(remaining: Option<int>, fee: Option<int>, total: int)
    ensures ExpectedTotal(remaining, fee).None? || ExpectedTotal(remaining, fee).value == total <==>
              || (remaining.None? && fee.None?) || remaining == Some(total) || (remaining.None? && fee == Some(total))
  {
  }

  /** From `x` to `y` with `left` still to be allocated: the amount stays, it is paid more only while
      something is left and something is owed, and the transaction is noted on it exactly when it is. */
  predicate Takes(x: Installment, y: Installment, left: int, hash: string)
  {
    && y.amount == x.amount
    && y.paidAmount - x.paidAmount == Max(0, Min(left, x.amount - x.paidAmount))
    && (y.paidAmount == x.paidAmount ==> y == x)
    && (y.paidAmount > x.paidAmount ==>
          && y.paid == (x.paid || y.paidAmount >= y.amount)
          && y.hashes == x.hashes + if hash == "" then [] else [hash])
  }

  lemma TouchTakes(x: Installment, left: int, hash: string)
    ensures Takes(x, Touch(x, Applied(x, left), hash), left, hash)
  {
  }

  /** What is left for instalment `i`. */
  function LeftFor(xs: seq<Installment>, remaining: int, i: nat): int
    requires i <= |xs|
  {
    if i == 0 then remaining else LeftFor(xs[1..], remaining - Applied(xs[0], remaining), i - 1)
  }

  /** It is what the instalments before did not take. */
  lemma {:induction false} LeftIsWhatWasNotTaken(xs: seq<Installment>, remaining: int, hash: string, i: nat)
    requires i <= |xs|
    ensures LeftFor(xs, remaining, i) == remaining - (PaidSum(Alloc(xs, remaining, hash)[..i]) - PaidSum(xs[..i]))
  {
    var ys := Alloc(xs, remaining, hash);
    if i > 0 {
      var applied := Applied(xs[0], remaining);
      LeftIsWhatWasNotTaken(xs[1..], remaining - applied, hash, i - 1);
      assert ys[1..] == Alloc(xs[1..], remaining - applied, hash);
      assert ys[..i][1..] == ys[1..][..i - 1] && xs[..i][1..] == xs[1..][..i - 1];
      TouchTakes(xs[0], remaining, hash);
    }
  }

  /** What an allocation does to each instalment. */
  lemma {:induction false} AllocAt(xs: seq<Installment>, remaining: int, hash: string, i: nat)
    requires i < |xs|
    ensures Takes(xs[i], Alloc(xs, remaining, hash)[i], LeftFor(xs, remaining, i), hash)
  {
    TouchTakes(xs[0], remaining, hash);
    if i > 0 { AllocAt(xs[1..], remaining - Applied(xs[0], remaining), hash, i - 1); }
  }
}
