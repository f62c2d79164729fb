/**
 The payment verification call as a protocol: any number of calls run at once and
 every `await` of a call is one atomic step. Locks never block (acquire answers
 "held"), may expire at any moment, and a release may get lost on the network.
 */
module VerifyPayment {
  import opened Money
  import opened LockTable

  /** Identifiers are only ever compared for equality. */
  type Id = nat

  datatype TxKey = TxKey(school: Id, hash: Id)
  datatype StudentKey = StudentKey(school: Id, student: Id)

  datatype RowStatus = Success | Rejected | Other

  datatype Payment = Payment(
    key: TxKey, who: StudentKey, amount: nat, feeStatus: FeeStatus, excess: nat,
    status: RowStatus, suspicious: bool, deleted: bool)

  datatype Student = Student(fee: nat, credit: nat, totalPaid: nat, remaining: nat, feePaid: bool)

  /** What a caller is told about a verified transaction. */
  datatype Answer = Answer(tx: TxKey, who: StudentKey, amount: nat, feeStatus: FeeStatus, excess: nat)

  datatype Outcome =
    | Pending | Verified(cached: bool, answer: Answer)
    | InProgress | Refused | Queued | NotFound | Failed

  datatype Pc =
    | Lookup | AcquireVerify | ReadChain | FindStudent | AcquireStudent
    | Aggregate | Record | Outbox | DupLookup | ReadBalance | WriteBalance
    | ReleaseStudent | ReleaseVerify | Done

  datatype Call = Call(
    tx: TxKey, pc: Pc, verifyToken: nat, studentToken: nat,
    who: StudentKey, amount: nat, fee: nat, prev: nat, total: nat, outcome: Outcome)

  /** The reply of the chain lookup, chosen by the environment. */
  datatype ChainReply = PermanentFailure | Unavailable | NoPayment | Pays(student: Id, amount: nat)

  /** `fails` makes the store or lock call of this step fail. */
  datatype Env = Env(fails: bool, reply: ChainReply)

  datatype Event =
    | Invoke(tx: TxKey)
    | Advance(p: nat, env: Env)
    | ExpireVerify(tx: TxKey)
    | ExpireStudent(who: StudentKey)

  /** The last four fields are history: how many rows existed at the start, tokens whose
      release was lost, and students whose balance section was cut short (the lock
      expired under its holder, or a store call failed between the insert and the end of
      the balance write). */
  datatype State = State(
    payments: seq<Payment>, students: map<StudentKey, Student>,
    verifyLocks: map<TxKey, nat>, studentLocks: map<StudentKey, nat>,
    nextToken: nat, calls: seq<Call>,
    base: nat, lostVerify: set<nat>, lostStudent: set<nat>, unsafe: set<StudentKey>)

  // ---------------------------------------------------------------- reads

  predicate Visible(p: Payment) { !p.status.Rejected? && !p.deleted }

  predicate Counted(p: Payment) { p.status.Success? && !p.suspicious && !p.deleted }

  function Contribution(p: Payment, who: StudentKey): nat
  {
    if Counted(p) && p.who == who then p.amount else 0
  }

  function SumCounted(ps: seq<Payment>, who: StudentKey): nat
  {
    if ps == [] then 0
    else SumCounted(ps[..|ps| - 1], who) + Contribution(ps[|ps| - 1], who)
  }

  predicate HasKey(ps: seq<Payment>, key: TxKey)
  {
    exists i :: 0 <= i < |ps| && ps[i].key == key
  }

  function AnswerOf(p: Payment): Answer { Answer(p.key, p.who, p.amount, p.feeStatus, p.excess) }

  ghost predicate Stored(ps: seq<Payment>, a: Answer)
  {
    exists i :: 0 <= i < |ps| && AnswerOf(ps[i]) == a
  }

  /** Position of the visible row for a transaction, or the length when there is none. */
  function FindVisible(ps: seq<Payment>, tx: TxKey): (i: nat)
    ensures i <= |ps|
    ensures i < |ps| ==> ps[i].key == tx && Visible(ps[i])
    ensures i == |ps| ==> forall j :: 0 <= j < |ps| && ps[j].key == tx ==> !Visible(ps[j])
  {
    if ps == [] then 0
    else
      var n := |ps| - 1;
      if ps[n].key == tx && Visible(ps[n]) then n
      else
        var i := FindVisible(ps[..n], tx);
        if i < n then i else |ps|
  }

  // ---------------------------------------------------------------- one call's step

  /** What a step does to the state shared by all calls. */
  datatype Effect =
    | Quiet
    | TakeVerify | TakeStudent
    | Insert
    | Rebalance | Abandon
    | FreeStudent | LoseStudent
    | FreeVerify | LoseVerify

  /** The call after a step, and the step's effect on the shared state. */
  datatype Move = Move(call: Call, effect: Effect)

  function MoveLookup(s: State, c: Call, env: Env): Move
  {
    var i := FindVisible(s.payments, c.tx);
    if env.fails then Move(c.(pc := Done, outcome := Failed), Quiet)
    else if i < |s.payments| then Move(c.(pc := Done, outcome := Verified(true, AnswerOf(s.payments[i]))), Quiet)
    else Move(c.(pc := AcquireVerify), Quiet)
  }

  /** A failing acquire answers "held", just like a lock that is taken. */
  function MoveAcquireVerify(s: State, c: Call, env: Env): Move
  {
    if env.fails || c.tx in s.verifyLocks then Move(c.(pc := Done, outcome := InProgress), Quiet)
    else Move(c.(pc := ReadChain, verifyToken := s.nextToken), TakeVerify)
  }

  function MoveReadChain(s: State, c: Call, env: Env): Move
  {
    match env.reply
    case PermanentFailure => Move(c.(pc := ReleaseVerify, outcome := Refused), Quiet)
    case Unavailable => Move(c.(pc := ReleaseVerify, outcome := Queued), Quiet)
    case NoPayment => Move(c.(pc := ReleaseVerify, outcome := NotFound), Quiet)
    case Pays(student, amount) =>
      Move(c.(pc := FindStudent, who := StudentKey(c.tx.school, student), amount := amount), Quiet)
  }

  function MoveFindStudent(s: State, c: Call, env: Env): Move
  {
    if env.fails then Move(c.(pc := ReleaseVerify, outcome := Failed), Quiet)
    else if c.who !in s.students then Move(c.(pc := ReleaseVerify, outcome := NotFound), Quiet)
    else Move(c.(pc := AcquireStudent, fee := s.students[c.who].fee), Quiet)
  }

  function MoveAcquireStudent(s: State, c: Call, env: Env): Move
  {
    if env.fails || c.who in s.studentLocks then Move(c.(pc := ReleaseVerify, outcome := InProgress), Quiet)
    else Move(c.(pc := Aggregate, studentToken := s.nextToken), TakeStudent)
  }

  function MoveAggregate(s: State, c: Call, env: Env): Move
  {
    if env.fails then Move(c.(pc := ReleaseStudent, outcome := Failed), Quiet)
    else Move(c.(pc := Record, prev := SumCounted(s.payments, c.who)), Quiet)
  }

  /** The row a call inserts, classified from the total it aggregated one step earlier. */
  function NewRow(c: Call): Payment
  {
    var k := Classify(c.prev + c.amount, c.fee);
    Payment(c.tx, c.who, c.amount, k.status, k.excess, Success, false, false)
  }

  /** The unique index on (school, transaction) decides: a second row for the same key
      is refused whatever the status of the first. */
  function MoveRecord(s: State, c: Call, env: Env): Move
  {
    if env.fails then Move(c.(pc := ReleaseStudent, outcome := Failed), Quiet)
    else if HasKey(s.payments, c.tx) then Move(c.(pc := DupLookup), Quiet)
    else Move(c.(pc := Outbox, outcome := Verified(false, AnswerOf(NewRow(c)))), Insert)
  }

  /** The event for other services is stored by a second call, outside any transaction; when it
      fails, the row is already there and the balance is not rewritten. */
  function MoveOutbox(s: State, c: Call, env: Env): Move
  {
    if env.fails then Move(c.(pc := ReleaseStudent, outcome := Failed), Abandon)
    else Move(c.(pc := ReadBalance), Quiet)
  }

  function MoveDupLookup(s: State, c: Call, env: Env): Move
  {
    var i := FindVisible(s.payments, c.tx);
    if env.fails || i == |s.payments| then Move(c.(pc := ReleaseStudent, outcome := Failed), Quiet)
    else Move(c.(pc := ReleaseStudent, outcome := Verified(true, AnswerOf(s.payments[i]))), Quiet)
  }

  /** Without a student there is nothing to write, and the call goes on as if there were. */
  function MoveReadBalance(s: State, c: Call, env: Env): Move
  {
    if env.fails then Move(c.(pc := ReleaseStudent, outcome := Failed), Abandon)
    else if c.who !in s.students then Move(c.(pc := ReleaseStudent), Abandon)
    else Move(c.(pc := WriteBalance, total := SumCounted(s.payments, c.who) + s.students[c.who].credit), Quiet)
  }

  function MoveWriteBalance(s: State, c: Call, env: Env): Move
  {
    if env.fails then Move(c.(pc := ReleaseStudent, outcome := Failed), Abandon)
    else if c.who !in s.students then Move(c.(pc := ReleaseStudent), Abandon)
    else Move(c.(pc := ReleaseStudent), Rebalance)
  }

  function CallMove(s: State, c: Call, env: Env): Move
  {
    match c.pc
    case Lookup => MoveLookup(s, c, env)
    case AcquireVerify => MoveAcquireVerify(s, c, env)
    case ReadChain => MoveReadChain(s, c, env)
    case FindStudent => MoveFindStudent(s, c, env)
    case AcquireStudent => MoveAcquireStudent(s, c, env)
    case Aggregate => MoveAggregate(s, c, env)
    case Record => MoveRecord(s, c, env)
    case Outbox => MoveOutbox(s, c, env)
    case DupLookup => MoveDupLookup(s, c, env)
    case ReadBalance => MoveReadBalance(s, c, env)
    case WriteBalance => MoveWriteBalance(s, c, env)
    case ReleaseStudent => Move(c.(pc := ReleaseVerify), if env.fails then LoseStudent else FreeStudent)
    case ReleaseVerify => Move(c.(pc := Done), if env.fails then LoseVerify else FreeVerify)
    case Done => Move(c, Quiet)
  }

  // ---------------------------------------------------------------- shared state

  function Rebalanced(st: Student, total: nat): Student
  {
    var k := Classify(total, st.fee);
    st.(totalPaid := k.cumulative, remaining := k.remaining, feePaid := k.feePaid)
  }

  /** Performs the effect of call `c` on everything but the calls themselves. */
  function Perform(s: State, c: Call, effect: Effect): State
  {
    match effect
    case Quiet => s
    case TakeVerify => s.(verifyLocks := s.verifyLocks[c.tx := s.nextToken], nextToken := s.nextToken + 1)
    case TakeStudent => s.(studentLocks := s.studentLocks[c.who := s.nextToken], nextToken := s.nextToken + 1)
    case Insert => s.(payments := s.payments + [NewRow(c)])
    case Rebalance =>
      if c.who in s.students then s.(students := s.students[c.who := Rebalanced(s.students[c.who], c.total)]) else s
    case Abandon => s.(unsafe := s.unsafe + {c.who})
    case FreeStudent => s.(studentLocks := Released(s.studentLocks, c.who, c.studentToken))
    case LoseStudent => s.(lostStudent := s.lostStudent + {c.studentToken})
    case FreeVerify => s.(verifyLocks := Released(s.verifyLocks, c.tx, c.verifyToken))
    case LoseVerify => s.(lostVerify := s.lostVerify + {c.verifyToken})
  }

  function Apply(s: State, p: nat, m: Move): State
    requires p < |s.calls|
  {
    Perform(s, s.calls[p], m.effect).(calls := s.calls[p := m.call])
  }

  function NewCall(tx: TxKey): Call
  {
    Call(tx, Lookup, 0, 0, StudentKey(tx.school, 0), 0, 0, 0, 0, Pending)
  }

  function Step(s: State, e: Event): State
  {
    match e
    case Invoke(tx) => s.(calls := s.calls + [NewCall(tx)])
    case Advance(p, env) => if p < |s.calls| then Apply(s, p, CallMove(s, s.calls[p], env)) else s
    case ExpireVerify(tx) => s.(verifyLocks := s.verifyLocks - {tx})
    case ExpireStudent(who) =>
      if who !in s.studentLocks then s
      else
        s.(studentLocks := s.studentLocks - {who},
           unsafe := if s.studentLocks[who] in s.lostStudent then s.unsafe else s.unsafe + {who})
  }

  function Run(s: State, es: seq<Event>): State
  {
    if es == [] then s else Step(Run(s, es[..|es| - 1]), es[|es| - 1])
  }
}
