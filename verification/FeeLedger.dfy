/**
 Two computations that must agree on what a student has paid: the cascade that rewrites a
 class when its fee changes, and the read-only checker for restored databases.
 */
module FeeLedger {
  import opened Basics

  datatype StudentId = StudentId(school: string, id: string)

  datatype Payment = Payment(who: StudentId, amount: nat, success: bool, suspicious: bool, deleted: bool)

  datatype Student = Student(
    who: StudentId, class_: string, deleted: bool, credit: int,
    fee: nat, totalPaid: int, remaining: int, feePaid: bool)

  datatype History = History(who: StudentId, class_: string, amount: nat, paid: bool, totalPaid: int, remaining: int)

  // ---------------------------------------------------------------- grouped sums

  /** Both computations count successful payments that are not deleted, suspicious or not. */
  predicate Counts(p: Payment) { p.success && !p.deleted }

  function Share(p: Payment, who: StudentId): nat { if Counts(p) && p.who == who then p.amount else 0 }

  function PaidBy(ps: seq<Payment>, who: StudentId): nat
  {
    if ps == [] then 0 else PaidBy(ps[..|ps| - 1], who) + Share(ps[|ps| - 1], who)
  }

  predicate Payer(ps: seq<Payment>, who: StudentId)
  {
    exists i :: 0 <= i < |ps| && Counts(ps[i]) && ps[i].who == who
  }

  /** A grouped total exists exactly for the students with a counted payment, and is their sum. */
  ghost predicate GroupsTo(ps: seq<Payment>, totals: map<StudentId, nat>)
  {
    && (forall who :: who in totals <==> Payer(ps, who))
    && (forall who :: who in totals ==> totals[who] == PaidBy(ps, who))
  }

  lemma {:induction false} NonPayersPaidNothing(ps: seq<Payment>, who: StudentId)
    requires !Payer(ps, who)
    ensures PaidBy(ps, who) == 0
  {
    if ps != [] {
      var front := ps[..|ps| - 1];
      assert forall i :: 0 <= i < |front| ==> front[i] == ps[i];
      NonPayersPaidNothing(front, who);
    }
  }

  lemma {:induction false} PayerAppend(ps: seq<Payment>, p: Payment, who: StudentId)
    ensures Payer(ps + [p], who) <==> Payer(ps, who) || (Counts(p) && p.who == who)
    ensures PaidBy(ps + [p], who) == PaidBy(ps, who) + Share(p, who)
  {
    var all := ps + [p];
    assert all[..|ps|] == ps;
    if Payer(ps, who) {
      var i :| 0 <= i < |ps| && Counts(ps[i]) && ps[i].who == who;
      assert all[i] == ps[i];
    }
    if Counts(p) && p.who == who { assert all[|ps|] == p; }
  }

  /** Groups the counted payments by student. */
  method GroupTotals(ps: seq<Payment>) returns (totals: map<StudentId, nat>)
    ensures GroupsTo(ps, totals)
  {
    totals := map[];
    for i := 0 to |ps|
      invariant GroupsTo(ps[..i], totals)
    {
      var p := ps[i];
      assert ps[..i + 1] == ps[..i] + [p];
      forall who ensures Payer(ps[..i + 1], who) <==> Payer(ps[..i], who) || (Counts(p) && p.who == who)
      {
        PayerAppend(ps[..i], p, who);
      }
      forall who ensures PaidBy(ps[..i + 1], who) == PaidBy(ps[..i], who) + Share(p, who)
      {
        PayerAppend(ps[..i], p, who);
      }
      if Counts(p) {
        NonPayers(ps[..i], p.who);
        totals := totals[p.who := (if p.who in totals then totals[p.who] else 0) + p.amount];
      }
    }
    assert ps[..|ps|] == ps;
  }

  lemma {:induction false} NonPayers(ps: seq<Payment>, who: StudentId)
    ensures !Payer(ps, who) ==> PaidBy(ps, who) == 0
  {
    if !Payer(ps, who) { NonPayersPaidNothing(ps, who); }
  }

  // ---------------------------------------------------------------- the cascade

  predicate InClass(s: Student, school: string, class_: string)
  {
    s.who.school == school && s.class_ == class_ && !s.deleted
  }

  function Recomputed(s: Student, fee: nat, paid: nat): Student
  {
    s.(fee := fee, totalPaid := paid, remaining := Max(0, fee - paid), feePaid := paid >= fee)
  }

  function HistoryRow(s: Student, class_: string): History
  {
    History(s.who, class_, s.fee, s.feePaid, s.totalPaid, s.remaining)
  }

  /** The cascade's own grouping: one school, the given student ids only, keyed by the id alone. */
  ghost predicate ClassGroupsTo(ps: seq<Payment>, school: string, ids: set<string>, totals: map<string, nat>)
  {
    && (forall id :: id in totals <==> id in ids && Payer(ps, StudentId(school, id)))
    && (forall id :: id in totals ==> totals[id] == PaidBy(ps, StudentId(school, id)))
  }

  lemma {:induction false} ClassGroupsAppend(ps: seq<Payment>, p: Payment, school: string, ids: set<string>,
                                             totals: map<string, nat>)
    requires ClassGroupsTo(ps, school, ids, totals)
    ensures var matches := Counts(p) && p.who.school == school && p.who.id in ids;
            var prev := if p.who.id in totals then totals[p.who.id] else 0;
            ClassGroupsTo(ps + [p], school, ids, if matches then totals[p.who.id := prev + p.amount] else totals)
  {
    NonPayers(ps, p.who);
    forall id
      ensures Payer(ps + [p], StudentId(school, id)) <==>
                Payer(ps, StudentId(school, id)) || (Counts(p) && p.who == StudentId(school, id))
      ensures PaidBy(ps + [p], StudentId(school, id)) ==
                PaidBy(ps, StudentId(school, id)) + Share(p, StudentId(school, id))
    {
      PayerAppend(ps, p, StudentId(school, id));
    }
  }

  method ClassTotals(ps: seq<Payment>, school: string, ids: set<string>) returns (totals: map<string, nat>)
    ensures ClassGroupsTo(ps, school, ids, totals)
  {
    totals := map[];
    for i := 0 to |ps|
      invariant ClassGroupsTo(ps[..i], school, ids, totals)
    {
      var p := ps[i];
      assert ps[..i + 1] == ps[..i] + [p];
      ClassGroupsAppend(ps[..i], p, school, ids, totals);
      if Counts(p) && p.who.school == school && p.who.id in ids {
        totals := totals[p.who.id := (if p.who.id in totals then totals[p.who.id] else 0) + p.amount];
      }
    }
    assert ps[..|ps|] == ps;
  }

  /** The ids the cascade looks for. */
  function ClassIds(ss: seq<Student>, school: string, class_: string): set<string>
  {
    set i | 0 <= i < |ss| && InClass(ss[i], school, class_) :: ss[i].who.id
  }

  /** Two groupings of the same payments, by different keys and filters, agree on every student of the
      class: an entry is missing from both or says the same in both. */
  lemma GroupingsAgree(ps: seq<Payment>, ss: seq<Student>, school: string, class_: string,
                       byId: map<string, nat>, byStudent: map<StudentId, nat>, i: nat)
    requires ClassGroupsTo(ps, school, ClassIds(ss, school, class_), byId) && GroupsTo(ps, byStudent)
    requires i < |ss| && InClass(ss[i], school, class_)
    ensures ss[i].who.id in byId <==> ss[i].who in byStudent
    ensures ss[i].who.id in byId ==> byId[ss[i].who.id] == byStudent[ss[i].who] == PaidBy(ps, ss[i].who)
  {
    assert ss[i].who == StudentId(school, ss[i].who.id);
    assert ss[i].who.id in ClassIds(ss, school, class_);
  }

  /** The students after a cascade: those of the class recomputed, everybody else as before. */
  ghost predicate Cascaded(ps: seq<Payment>, before: seq<Student>, after: seq<Student>, school: string,
                           class_: string, fee: nat)
  {
    && |after| == |before|
    && forall i :: 0 <= i < |after| ==> CascadedTo(ps, before[i], after[i], school, class_, fee)
  }

  predicate CascadedTo(ps: seq<Payment>, before: Student, after: Student, school: string, class_: string, fee: nat)
  {
    after == if InClass(before, school, class_) then Recomputed(before, fee, PaidBy(ps, before.who)) else before
  }

  /** Looking a student of the class up by id alone, with nothing for a missing entry, finds what the
      payments of that student add up to. */
  lemma PaidInClass(ps: seq<Payment>, ss: seq<Student>, school: string, class_: string, totals: map<string, nat>,
                    i: nat)
    requires ClassGroupsTo(ps, school, ClassIds(ss, school, class_), totals)
    requires i < |ss| && InClass(ss[i], school, class_)
    ensures (if ss[i].who.id in totals then totals[ss[i].who.id] else 0) == PaidBy(ps, ss[i].who)
  {
    assert ss[i].who == StudentId(school, ss[i].who.id);
    assert ss[i].who.id in ClassIds(ss, school, class_);
    NonPayers(ps, ss[i].who);
  }

  /** The new student records and their history rows, from the class's own totals. */
  method RewriteClass(ghost payments: seq<Payment>, before: seq<Student>, totals: map<string, nat>,
                      school: string, class_: string, fee: nat) returns (after: seq<Student>, rows: seq<History>)
    requires ClassGroupsTo(payments, school, ClassIds(before, school, class_), totals)
    ensures Cascaded(payments, before, after, school, class_, fee)
    ensures rows == ClassRows(after, school, class_)
  {
    after, rows := [], [];
    for i := 0 to |before|
      invariant |after| == i && rows == ClassRows(after, school, class_)
      invariant forall k :: 0 <= k < i ==> CascadedTo(payments, before[k], after[k], school, class_, fee)
    {
      var s := before[i];
      if InClass(s, school, class_) {
        PaidInClass(payments, before, school, class_, totals, i);
        s := Recomputed(s, fee, if s.who.id in totals then totals[s.who.id] else 0);
        rows := rows + [HistoryRow(s, class_)];
      }
      ClassRowsAppend(after, s, school, class_);
      after := after + [s];
    }
  }

  class School {
    var students: seq<Student>
    var history: seq<History>

    constructor (students: seq<Student>)
      ensures this.students == students && history == []
    {
      this.students, history := students, [];
    }

    /** Rewrites every student of a class for a new fee, from the payments, and appends one history row
        per student. Everybody else is left alone. */
    method Cascade(payments: seq<Payment>, school: string, class_: string, fee: nat) returns (updated: nat)
      modifies this
      ensures Cascaded(payments, old(students), students, school, class_, fee)
      ensures history == old(history) + ClassRows(students, school, class_)
      ensures updated == |ClassRows(students, school, class_)|
    {
      var totals := ClassTotals(payments, school, ClassIds(students, school, class_));
      var rows;
      students, rows := RewriteClass(payments, students, totals, school, class_, fee);
      history := history + rows;
      updated := |rows|;
    }
  }

  function ClassRows(ss: seq<Student>, school: string, class_: string): seq<History>
  {
    if ss == [] then []
    else
      ClassRows(ss[..|ss| - 1], school, class_) +
      if InClass(ss[|ss| - 1], school, class_) then [HistoryRow(ss[|ss| - 1], class_)] else []
  }

  lemma ClassRowsAppend(ss: seq<Student>, s: Student, school: string, class_: string)
    ensures ClassRows(ss + [s], school, class_) ==
              ClassRows(ss, school, class_) + if InClass(s, school, class_) then [HistoryRow(s, class_)] else []
  {
    assert (ss + [s])[..|ss|] == ss;
  }

  // ---------------------------------------------------------------- the checker

  /** What the checker expects of a stored student. */
  function ExpectedTotal(ps: seq<Payment>, s: Student): int { PaidBy(ps, s.who) + s.credit }

  function ExpectedRemaining(ps: seq<Payment>, s: Student): int { Max(0, s.fee - ExpectedTotal(ps, s)) }

  function Abs(x: int): nat { if x < 0 then -x else x }

  /** Its tolerance is one stroop. */
  predicate Drifts(ps: seq<Payment>, s: Student)
  {
    Abs(ExpectedTotal(ps, s) - s.totalPaid) > 1 || Abs(ExpectedRemaining(ps, s) - s.remaining) > 1
  }

  datatype Drift = Drift(who: StudentId, stored: int, computed: int)

  function DriftsOf(ps: seq<Payment>, ss: seq<Student>): seq<Drift>
  {
    if ss == [] then []
    else
      var s := ss[|ss| - 1];
      DriftsOf(ps, ss[..|ss| - 1]) +
      if !s.deleted && Drifts(ps, s) then [Drift(s.who, s.totalPaid, ExpectedTotal(ps, s))] else []
  }

  predicate Known(ss: seq<Student>, who: StudentId)
  {
    exists i :: 0 <= i < |ss| && !ss[i].deleted && ss[i].who == who
  }

  lemma {:induction false} KnownAppend(ss: seq<Student>, s: Student, who: StudentId)
    ensures Known(ss + [s], who) <==> Known(ss, who) || (!s.deleted && s.who == who)
  {
    var all := ss + [s];
    if Known(ss, who) {
      var i :| 0 <= i < |ss| && !ss[i].deleted && ss[i].who == who;
      assert all[i] == ss[i];
    }
    if !s.deleted && s.who == who { assert all[|ss|] == s; }
  }

  /** The live students, by position. */
  function LiveIndices(ss: seq<Student>): set<nat> { set i | 0 <= i < |ss| && !ss[i].deleted }

  lemma LiveAppend(ss: seq<Student>, s: Student)
    ensures |LiveIndices(ss + [s])| == |LiveIndices(ss)| + if s.deleted then 0 else 1
  {
    var more := if s.deleted then {} else {|ss|};
    assert LiveIndices(ss + [s]) == LiveIndices(ss) + more;
  }

  /** What one more student adds to the report. */
  lemma CheckedAppend(ps: seq<Payment>, ss: seq<Student>, s: Student)
    ensures DriftsOf(ps, ss + [s]) ==
              DriftsOf(ps, ss) +
              if !s.deleted && Drifts(ps, s) then [Drift(s.who, s.totalPaid, ExpectedTotal(ps, s))] else []
    ensures forall who :: Known(ss + [s], who) <==> Known(ss, who) || (!s.deleted && s.who == who)
    ensures |LiveIndices(ss + [s])| == |LiveIndices(ss)| + if s.deleted then 0 else 1
  {
    assert (ss + [s])[..|ss|] == ss;
    forall who ensures Known(ss + [s], who) <==> Known(ss, who) || (!s.deleted && s.who == who)
    {
      KnownAppend(ss, s, who);
    }
    LiveAppend(ss, s);
  }

  /** Fills a totals map, walks the students, and reports drifting balances and payers without a
      student record. */
  method CheckBalances(ps: seq<Payment>, ss: seq<Student>)
    returns (checked: nat, drift: seq<Drift>, orphans: set<StudentId>)
    ensures drift == DriftsOf(ps, ss)
    ensures forall who :: who in orphans <==> Payer(ps, who) && !Known(ss, who)
    ensures forall who :: who in orphans <==>
              && (exists j :: 0 <= j < |ps| && ps[j].success && !ps[j].deleted && ps[j].who == who)
              && forall i :: 0 <= i < |ss| && ss[i].who == who ==> ss[i].deleted
    ensures checked == |LiveIndices(ss)|
  {
    var totals := GroupTotals(ps);
    var known: set<StudentId> := {};
    drift, checked := [], 0;
    for i := 0 to |ss|
      invariant drift == DriftsOf(ps, ss[..i])
      invariant forall who :: who in known <==> Known(ss[..i], who)
      invariant checked == |LiveIndices(ss[..i])|
    {
      var s := ss[i];
      assert ss[..i + 1] == ss[..i] + [s];
      CheckedAppend(ps, ss[..i], s);
      if !s.deleted {
        checked := checked + 1;
        known := known + {s.who};
        NonPayers(ps, s.who);
        var computedTotal := (if s.who in totals then totals[s.who] else 0) + s.credit;
        var computedRemaining := Max(0, s.fee - computedTotal);
        if Abs(computedTotal - s.totalPaid) > 1 || Abs(computedRemaining - s.remaining) > 1 {
          drift := drift + [Drift(s.who, s.totalPaid, computedTotal)];
        }
      }
    }
    assert ss[..|ss|] == ss;
    orphans := set who | who in totals && who !in known;
    forall who
      ensures Payer(ps, who) <==> exists j :: 0 <= j < |ps| && ps[j].success && !ps[j].deleted && ps[j].who == who
    {
      PayerExactly(ps, who);
    }
  }

  lemma PayerExactly(ps: seq<Payment>, who: StudentId)
    ensures Payer(ps, who) <==> exists j :: 0 <= j < |ps| && ps[j].success && !ps[j].deleted && ps[j].who == who
  {
    if Payer(ps, who) {
      var i :| 0 <= i < |ps| && Counts(ps[i]) && ps[i].who == who;
      assert ps[i].success && !ps[i].deleted;
    }
    if j :| 0 <= j < |ps| && ps[j].success && !ps[j].deleted && ps[j].who == who { assert Counts(ps[j]); }
  }

  /** A row of the report is about a live student whose stored total or remainder is more than a stroop
      off, and tells the stored total and the one the payments and credits add up to. */
  lemma {:induction false} DriftReport(ps: seq<Payment>, ss: seq<Student>, d: Drift)
    ensures d in DriftsOf(ps, ss) <==> exists i :: 0 <= i < |ss| && Reports(ps, ss[i], d)
  {
    if ss != [] {
      var n := |ss| - 1;
      var front := ss[..n];
      assert forall i :: 0 <= i < n ==> front[i] == ss[i];
      DriftReport(ps, front, d);
      DriftsExactly(ps, ss[n]);
      var last := ss[n];
      assert !last.deleted && Drifts(ps, last) ==>
        (d == Drift(last.who, last.totalPaid, ExpectedTotal(ps, last)) <==> Reports(ps, last, d));
    }
  }

  predicate Reports(ps: seq<Payment>, s: Student, d: Drift)
  {
    && !s.deleted && OffBalance(ps, s)
    && d.who == s.who && d.stored == s.totalPaid && d.computed == PaidBy(ps, s.who) + s.credit
  }

  predicate OffBalance(ps: seq<Payment>, s: Student)
  {
    var total := PaidBy(ps, s.who) + s.credit;
    var owed := if s.fee > total then s.fee - total else 0;
    !(total - 1 <= s.totalPaid <= total + 1) || !(owed - 1 <= s.remaining <= owed + 1)
  }

  lemma DriftsExactly(ps: seq<Payment>, s: Student)
    ensures Drifts(ps, s) <==> OffBalance(ps, s)
  {
  }

  /** The report is empty exactly when every live student is within a stroop of its payments. */
  lemma {:induction false} NoDriftExactly(ps: seq<Payment>, ss: seq<Student>)
    ensures DriftsOf(ps, ss) == [] <==> forall i :: 0 <= i < |ss| && !ss[i].deleted ==> !Drifts(ps, ss[i])
  {
    if ss != [] {
      var front := ss[..|ss| - 1];
      assert forall i :: 0 <= i < |front| ==> front[i] == ss[i];
      NoDriftExactly(ps, front);
    }
  }

  // ---------------------------------------------------------------- the two agree

  /** After a cascade a student's three fields are right, the flag and the remaining balance say the
      same, and the checker sees no drift exactly when credits amount to no more than one stroop,
      counting only what the remaining balance and the total can show. */
  lemma RecomputedIsConsistent(ps: seq<Payment>, s: Student, fee: nat)
    ensures var r := Recomputed(s, fee, PaidBy(ps, s.who));
            && r.totalPaid == PaidBy(ps, s.who) && (r.feePaid <==> r.remaining == 0)
            && r.totalPaid + r.remaining == Max(fee, r.totalPaid)
            && HistoryRow(r, s.class_) == History(s.who, s.class_, fee, r.feePaid, r.totalPaid, r.remaining)
            && (Drifts(ps, r) <==> Abs(s.credit) > 1)
  {
  }

  /** After a cascade the checker objects to a student of the class exactly when that student has
      credits beyond its tolerance, and to anybody else exactly as before. So without credits there is
      nothing to report about the class, and nothing at all when the class is everybody. */
  lemma {:induction false} CascadeThenCheck(ps: seq<Payment>, before: seq<Student>, after: seq<Student>,
                                            school: string, class_: string, fee: nat)
    requires Cascaded(ps, before, after, school, class_, fee)
    ensures forall i :: 0 <= i < |after| ==>
              InClass(after[i], school, class_) == InClass(before[i], school, class_) &&
              (Drifts(ps, after[i]) <==>
                 if InClass(before[i], school, class_) then Abs(before[i].credit) > 1 else Drifts(ps, before[i]))
    ensures (forall i :: 0 <= i < |before| && !before[i].deleted ==>
               InClass(before[i], school, class_) && Abs(before[i].credit) <= 1) ==> DriftsOf(ps, after) == []
  {
    forall i | 0 <= i < |after|
      ensures InClass(after[i], school, class_) == InClass(before[i], school, class_)
      ensures Drifts(ps, after[i]) <==>
                if InClass(before[i], school, class_) then Abs(before[i].credit) > 1 else Drifts(ps, before[i])
    {
      assert CascadedTo(ps, before[i], after[i], school, class_, fee);
      RecomputedIsConsistent(ps, before[i], fee);
    }
    NoDriftExactly(ps, after);
  }

  // ---------------------------------------------------------------- class totals

  function TotalPaid(ss: seq<Student>, school: string, class_: string): int
  {
    if ss == [] then 0
    else
      TotalPaid(ss[..|ss| - 1], school, class_) +
      if InClass(ss[|ss| - 1], school, class_) then ss[|ss| - 1].totalPaid else 0
  }

  predicate Member(ss: seq<Student>, school: string, class_: string, who: StudentId)
  {
    exists i :: 0 <= i < |ss| && InClass(ss[i], school, class_) && ss[i].who == who
  }

  /** All counted payments made by students of the class, straight from the payments. */
  function ClassPayments(ps: seq<Payment>, ss: seq<Student>, school: string, class_: string): nat
  {
    if ps == [] then 0
    else
      ClassPayments(ps[..|ps| - 1], ss, school, class_) +
      if Counts(ps[|ps| - 1]) && Member(ss, school, class_, ps[|ps| - 1].who) then ps[|ps| - 1].amount else 0
  }

  predicate OneRecordEach(ss: seq<Student>)
  {
    forall i, j :: 0 <= i < j < |ss| ==> ss[i].who != ss[j].who
  }

  lemma {:induction false} MemberAppend(ss: seq<Student>, s: Student, school: string, class_: string, who: StudentId)
    ensures Member(ss + [s], school, class_, who) <==>
              Member(ss, school, class_, who) || (InClass(s, school, class_) && s.who == who)
  {
    var all := ss + [s];
    if Member(ss, school, class_, who) {
      var i :| 0 <= i < |ss| && InClass(ss[i], school, class_) && ss[i].who == who;
      assert all[i] == ss[i];
    }
    if InClass(s, school, class_) && s.who == who { assert all[|ss|] == s; }
  }

  lemma {:induction false} NoMembersNoPayments(ps: seq<Payment>, school: string, class_: string)
    ensures ClassPayments(ps, [], school, class_) == 0
  {
    if ps != [] { NoMembersNoPayments(ps[..|ps| - 1], school, class_); }
  }

  /** One more student adds that student's own payments. */
  lemma {:induction false} OneMoreStudent(ps: seq<Payment>, ss: seq<Student>, s: Student, school: string,
                                          class_: string)
    requires !Member(ss, school, class_, s.who)
    ensures ClassPayments(ps, ss + [s], school, class_) ==
              ClassPayments(ps, ss, school, class_) + if InClass(s, school, class_) then PaidBy(ps, s.who) else 0
  {
    if ps != [] {
      OneMoreStudent(ps[..|ps| - 1], ss, s, school, class_);
      MemberAppend(ss, s, school, class_, ps[|ps| - 1].who);
    }
  }

  /** With one record per student, what the students of a class are stored to have paid after a cascade
      is exactly what the payments of that class add up to. */
  lemma {:induction false} ClassTotalsAddUp(ps: seq<Payment>, ss: seq<Student>, school: string, class_: string)
    requires OneRecordEach(ss)
    requires forall i :: 0 <= i < |ss| && InClass(ss[i], school, class_) ==> ss[i].totalPaid == PaidBy(ps, ss[i].who)
    ensures TotalPaid(ss, school, class_) == ClassPayments(ps, ss, school, class_)
  {
    if ss == [] {
      NoMembersNoPayments(ps, school, class_);
    } else {
      var n := |ss| - 1;
      var front, s := ss[..n], ss[n];
      assert forall i :: 0 <= i < n ==> front[i] == ss[i];
      ClassTotalsAddUp(ps, front, school, class_);
      OneMoreStudent(ps, front, s, school, class_);
      assert front + [s] == ss;
    }
  }

  // ---------------------------------------------------------------- what counts

  /** What one more payment adds to each of the sums, in terms of its own fields. */
  lemma {:induction false} OnePaymentMore(ps: seq<Payment>, p: Payment, who: StudentId, credit: int)
    ensures PaidBy(ps + [p], who) ==
              PaidBy(ps, who) + if p.success && !p.deleted && p.who == who then p.amount else 0
    ensures Canonical(ps + [p], who, credit) ==
              Canonical(ps, who, credit) +
              if p.success && !p.deleted && !p.suspicious && p.who == who then p.amount else 0
    ensures PaidBy([], who) == 0 && Canonical([], who, credit) == credit
  {
    assert (ps + [p])[..|ps|] == ps;
  }

  /** Who is touched by a cascade, and how: the live students of that school and class, and nobody else. */
  lemma {:induction false} CascadeAt(ps: seq<Payment>, before: seq<Student>, after: seq<Student>, school: string,
                                     class_: string, fee: nat, i: nat)
    requires Cascaded(ps, before, after, school, class_, fee) && i < |before|
    ensures var s, paid := before[i], PaidBy(ps, before[i].who);
            i < |after| &&
            after[i] ==
              if s.who.school == school && s.class_ == class_ && !s.deleted
              then Student(s.who, s.class_, false, s.credit,
                           fee, paid, if fee > paid then fee - paid else 0, fee <= paid)
              else s
  {
    assert CascadedTo(ps, before[i], after[i], school, class_, fee);
  }

  /** The history rows are those students, in order, as they are stored. */
  lemma {:induction false} HistoryExactly(ss: seq<Student>, school: string, class_: string, h: History)
    ensures h in ClassRows(ss, school, class_) <==>
              exists i :: 0 <= i < |ss| && ss[i].who.school == school && ss[i].class_ == class_ && !ss[i].deleted
                          && h == History(ss[i].who, class_, ss[i].fee, ss[i].feePaid, ss[i].totalPaid, ss[i].remaining)
  {
    if ss != [] {
      var front := ss[..|ss| - 1];
      assert forall i :: 0 <= i < |front| ==> front[i] == ss[i];
      HistoryExactly(front, school, class_, h);
    }
  }

  // ---------------------------------------------------------------- against the canonical balance

  /** The canonical balance leaves suspicious payments out and counts credits in. */
  function Canonical(ps: seq<Payment>, who: StudentId, credit: int): int
  {
    if ps == [] then credit
    else Canonical(ps[..|ps| - 1], who, credit) + if ps[|ps| - 1].suspicious then 0 else Share(ps[|ps| - 1], who)
  }

  function UnderReview(ps: seq<Payment>, who: StudentId): nat
  {
    if ps == [] then 0
    else UnderReview(ps[..|ps| - 1], who) + if ps[|ps| - 1].suspicious then Share(ps[|ps| - 1], who) else 0
  }

  lemma {:induction false} CascadeMinusCanonical(ps: seq<Payment>, who: StudentId, credit: int)
    ensures PaidBy(ps, who) - Canonical(ps, who, credit) == UnderReview(ps, who) - credit
  {
    if ps != [] { CascadeMinusCanonical(ps[..|ps| - 1], who, credit); }
  }

  /** So a cascade stores the canonical total exactly for students whose payments under review add up
      to their credits, in particular for those with neither. */
  lemma {:induction false} CascadeIsCanonicalExactly(ps: seq<Payment>, s: Student, fee: nat)
    ensures Recomputed(s, fee, PaidBy(ps, s.who)).totalPaid == Canonical(ps, s.who, s.credit) <==>
              UnderReview(ps, s.who) == s.credit
  {
    CascadeMinusCanonical(ps, s.who, s.credit);
  }

  /** For example for no student whose only payment is under review: the cascade counts it. */
  lemma {:induction false} ReviewedPaymentIsCounted(s: Student, amount: nat, fee: nat)
    requires amount > 0 && s.credit == 0
    ensures var ps := [Payment(s.who, amount, true, true, false)];
            Recomputed(s, fee, PaidBy(ps, s.who)).totalPaid == amount && Canonical(ps, s.who, s.credit) == 0
  {
    var ps := [Payment(s.who, amount, true, true, false)];
    assert ps[..0] == [];
  }

  /** The checker counts payments under review too, so it objects to a canonical balance exactly when
      these amount to more than its tolerance. */
  lemma {:induction false} CheckerFlagsReviewExactly(ps: seq<Payment>, s: Student)
    requires s.totalPaid == Canonical(ps, s.who, s.credit) && s.remaining == Max(0, s.fee - s.totalPaid)
    ensures Drifts(ps, s) <==> UnderReview(ps, s.who) > 1
  {
    CascadeMinusCanonical(ps, s.who, s.credit);
  }
}
