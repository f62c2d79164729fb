/**
 The attempt limiter in front of backup-code verification: fixed windows of fifteen
 minutes, five recorded failures each, per key.
 */
module BackupCodeLimiter {
  const MAX_ATTEMPTS := 5
  const WINDOW := 15 * 60 * 1000

  datatype Entry = Entry(windowStart: int, count: nat)

  // ---------------------------------------------------------------- one key, as values

  datatype Slot = Empty | Open(entry: Entry)

  predicate Stale(s: Slot, now: int) { s.Empty? || now - s.entry.windowStart > WINDOW }

  /** The slot after a check, and whether an attempt is allowed. */
  function Checked(s: Slot, now: int): (Slot, bool)
  {
    if Stale(s, now) then (Open(Entry(now, 0)), true) else (s, s.entry.count < MAX_ATTEMPTS)
  }

  function Recorded(s: Slot, now: int): Slot
  {
    if Stale(s, now) then Open(Entry(now, 1)) else Open(Entry(s.entry.windowStart, s.entry.count + 1))
  }

  // ---------------------------------------------------------------- the shared table

  class Limiter {
    var attempts: map<string, Entry>

    constructor ()
      ensures attempts == map[]
    {
      attempts := map[];
    }

    ghost function SlotOf(key: string): Slot
      reads this
    {
      if key in attempts then Open(attempts[key]) else Empty
    }

    method Check(key: string, now: int) returns (allowed: bool, retryAfter: int)
      modifies this
      ensures (SlotOf(key), allowed) == Checked(old(SlotOf(key)), now)
      ensures forall other :: other != key ==> SlotOf(other) == old(SlotOf(other))
      ensures !allowed <==>
                && key in old(attempts) && now - old(attempts)[key].windowStart <= 900000
                && old(attempts)[key].count >= 5
      ensures !allowed ==> key in attempts && 0 <= retryAfter == attempts[key].windowStart + 900000 - now
    {
      if key !in attempts || now - attempts[key].windowStart > WINDOW {
        attempts := attempts[key := Entry(now, 0)];
        return true, 0;
      }
      if attempts[key].count >= MAX_ATTEMPTS {
        return false, WINDOW - (now - attempts[key].windowStart);
      }
      return true, 0;
    }

    method Record(key: string, now: int)
      modifies this
      ensures SlotOf(key) == Recorded(old(SlotOf(key)), now)
      ensures key in attempts
      ensures if key in old(attempts) && now - old(attempts)[key].windowStart <= 900000
              then attempts[key] == Entry(old(attempts)[key].windowStart, old(attempts)[key].count + 1)
              else attempts[key] == Entry(now, 1)
      ensures forall other :: other != key ==> SlotOf(other) == old(SlotOf(other))
    {
      if key !in attempts || now - attempts[key].windowStart > WINDOW {
        attempts := attempts[key := Entry(now, 1)];
      } else {
        attempts := attempts[key := attempts[key].(count := attempts[key].count + 1)];
      }
    }

    method Clear(key: string)
      modifies this
      ensures SlotOf(key) == Empty
      ensures forall other :: other != key ==> SlotOf(other) == old(SlotOf(other))
    {
      attempts := attempts - {key};
    }
  }

  // ---------------------------------------------------------------- sequential runs

  /** A failing request: checked at one moment, its failure recorded at a later one. */
  datatype Attempt = Attempt(check: int, record: int)

  /** A recorded failure and the start of the window that counted it. */
  datatype Failure = Failure(time: int, window: int)

  datatype State = State(slot: Slot, log: seq<Failure>)

  function Step(s: State, a: Attempt): State
  {
    var (slot, allowed) := Checked(s.slot, a.check);
    if !allowed then State(slot, s.log)
    else
      var slot' := Recorded(slot, a.record);
      State(slot', s.log + [Failure(a.record, slot'.entry.windowStart)])
  }

  function Run(ts: seq<Attempt>): State
  {
    if ts == [] then State(Empty, []) else Step(Run(ts[..|ts| - 1]), ts[|ts| - 1])
  }

  /** One request after the other, with a clock that never goes back. */
  predicate Sequential(ts: seq<Attempt>)
  {
    && (forall i :: 0 <= i < |ts| ==> ts[i].check <= ts[i].record)
    && (forall i :: 1 <= i < |ts| ==> ts[i - 1].record <= ts[i].check)
  }

  function CountWindow(log: seq<Failure>, w: int): nat
  {
    if log == [] then 0
    else CountWindow(log[..|log| - 1], w) + if log[|log| - 1].window == w then 1 else 0
  }

  function CountSpan(log: seq<Failure>, from: int): nat
  {
    if log == [] then 0
    else CountSpan(log[..|log| - 1], from) + if from <= log[|log| - 1].time <= from + WINDOW then 1 else 0
  }

  /** Failures are logged in order of time; each lies in its window, and windows do not overlap. */
  ghost predicate Ordered(log: seq<Failure>)
  {
    && (forall i :: 0 <= i < |log| ==> log[i].window <= log[i].time <= log[i].window + WINDOW)
    && (forall i, j :: 0 <= i < j < |log| ==>
          log[i].time <= log[j].time && Before(log[i], log[j].window))
  }

  /** The open window is the last one, and its counter counts the failures logged in it. */
  ghost predicate Current(slot: Slot, log: seq<Failure>, now: int)
  {
    && (slot.Empty? ==> log == [])
    && (slot.Open? ==>
          && slot.entry.windowStart <= now
          && slot.entry.count == CountWindow(log, slot.entry.windowStart)
          && forall i :: 0 <= i < |log| ==> log[i].time <= now && Before(log[i], slot.entry.windowStart))
  }

  /** A failure of window `w`, or of one that was over when `w` opened. */
  predicate Before(f: Failure, w: int)
  {
    f.window == w || (f.window + WINDOW < w && f.time <= w)
  }

  ghost predicate Inv(s: State, now: int)
  {
    && Ordered(s.log)
    && (forall w :: CountWindow(s.log, w) <= MAX_ATTEMPTS)
    && Current(s.slot, s.log, now)
  }

  lemma {:induction false} CountAbsent(log: seq<Failure>, w: int)
    requires forall i :: 0 <= i < |log| ==> log[i].window != w
    ensures CountWindow(log, w) == 0
  {
    if log != [] { CountAbsent(log[..|log| - 1], w); }
  }

  lemma {:induction false} CheckKeepsInv(s: State, before: int, now: int)
    requires Inv(s, before) && before <= now
    ensures Inv(State(Checked(s.slot, now).0, s.log), now)
  {
    if Stale(s.slot, now) { CountAbsent(s.log, now); }
  }

  lemma {:induction false} CountAppend(log: seq<Failure>, f: Failure, w: int)
    ensures CountWindow(log + [f], w) == CountWindow(log, w) + if f.window == w then 1 else 0
  {
    assert (log + [f])[..|log|] == log;
  }

  lemma {:induction false} CountsAfterRecord(log: seq<Failure>, f: Failure)
    requires (forall w :: CountWindow(log, w) <= MAX_ATTEMPTS) && CountWindow(log, f.window) < MAX_ATTEMPTS
    ensures forall w :: CountWindow(log + [f], w) <= MAX_ATTEMPTS
    ensures CountWindow(log + [f], f.window) == CountWindow(log, f.window) + 1
  {
    forall w ensures CountWindow(log + [f], w) <= MAX_ATTEMPTS { CountAppend(log, f, w); }
    CountAppend(log, f, f.window);
  }

  /** Every logged failure comes before the window a new one is recorded in. */
  lemma {:induction false} LogBefore(slot: Slot, log: seq<Failure>, before: int, now: int)
    requires Ordered(log) && Current(slot, log, before) && before <= now && slot.Open?
    ensures var w := Recorded(slot, now).entry.windowStart;
            && w <= now <= w + WINDOW
            && (forall i :: 0 <= i < |log| ==> log[i].time <= now && Before(log[i], w))
            && (Stale(slot, now) ==> forall i :: 0 <= i < |log| ==> log[i].window != w)
  {
  }

  lemma {:induction false} OrderedAppend(log: seq<Failure>, f: Failure)
    requires Ordered(log) && f.window <= f.time <= f.window + WINDOW
    requires forall i :: 0 <= i < |log| ==> log[i].time <= f.time && Before(log[i], f.window)
    ensures Ordered(log + [f])
  {
  }

  lemma {:induction false} RecordKeepsInv(s: State, before: int, now: int)
    requires Inv(s, before) && before <= now && s.slot.Open? && (s.slot.entry.count < MAX_ATTEMPTS)
    ensures var slot := Recorded(s.slot, now); Inv(State(slot, s.log + [Failure(now, slot.entry.windowStart)]), now)
  {
    var slot := Recorded(s.slot, now);
    var f := Failure(now, slot.entry.windowStart);
    LogBefore(s.slot, s.log, before, now);
    OrderedAppend(s.log, f);
    if Stale(s.slot, now) { CountAbsent(s.log, now); }
    CountsAfterRecord(s.log, f);
  }

  lemma {:induction false} StepKeepsInv(s: State, before: int, a: Attempt)
    requires Inv(s, before) && before <= a.check <= a.record
    ensures Inv(Step(s, a), a.record)
  {
    CheckKeepsInv(s, before, a.check);
    var (slot, allowed) := Checked(s.slot, a.check);
    if allowed { RecordKeepsInv(State(slot, s.log), a.check, a.record); }
  }

  lemma {:induction false} InvLater(s: State, now: int, later: int)
    requires Inv(s, now) && now <= later
    ensures Inv(s, later)
  {
  }

  lemma {:induction false} InvEmpty(now: int)
    ensures Inv(State(Empty, []), now)
  {
  }

  lemma {:induction false} RunKeepsInv(ts: seq<Attempt>, end: int)
    requires Sequential(ts) && (ts != [] ==> ts[|ts| - 1].record <= end)
    ensures Inv(Run(ts), end)
  {
    if ts == [] {
      InvEmpty(end);
    } else {
      var n := |ts| - 1;
      RunKeepsInv(ts[..n], ts[n].check);
      StepKeepsInv(Run(ts[..n]), ts[n].check, ts[n]);
      InvLater(Step(Run(ts[..n]), ts[n]), ts[n].record, end);
    }
  }

  // ---------------------------------------------------------------- at most two windows in a span

  lemma {:induction false} SpanWithinTwo(log: seq<Failure>, from: int, u: int, v: int)
    requires forall i :: 0 <= i < |log| && from <= log[i].time <= from + WINDOW ==>
               log[i].window == u || log[i].window == v
    ensures CountSpan(log, from) <= CountWindow(log, u) + CountWindow(log, v)
  {
    if log != [] {
      var front := log[..|log| - 1];
      assert forall i :: 0 <= i < |front| ==> front[i] == log[i];
      SpanWithinTwo(front, from, u, v);
    }
  }

  predicate InSpan(f: Failure, from: int) { from <= f.time <= from + WINDOW }

  /** Three different windows cannot all reach into one span of a window's length. */
  lemma {:induction false} SpanHasTwoWindows(log: seq<Failure>, from: int) returns (u: int, v: int)
    requires Ordered(log)
    ensures forall i :: 0 <= i < |log| && InSpan(log[i], from) ==> log[i].window == u || log[i].window == v
  {
    u, v := 0, 0;
    if exists i :: 0 <= i < |log| && InSpan(log[i], from) {
      var p :| 0 <= p < |log| && InSpan(log[p], from);
      u, v := log[p].window, log[p].window;
      if exists q :: 0 <= q < |log| && InSpan(log[q], from) && log[q].window != u {
        var q :| 0 <= q < |log| && InSpan(log[q], from) && log[q].window != u;
        v := log[q].window;
        forall i | 0 <= i < |log| && InSpan(log[i], from) ensures log[i].window == u || log[i].window == v
        {
          ThreeWindowsApart(log, from, p, q, i);
        }
      }
    }
  }

  lemma {:induction false} ThreeWindowsApart(log: seq<Failure>, from: int, p: nat, q: nat, i: nat)
    requires Ordered(log) && p < |log| && q < |log| && i < |log|
    requires InSpan(log[p], from) && InSpan(log[q], from) && InSpan(log[i], from)
    requires log[p].window != log[q].window
    ensures log[i].window == log[p].window || log[i].window == log[q].window
  {
    assert p < q || q < p;
    assert i == p || i < p || p < i;
    assert i == q || i < q || q < i;
  }

  /** In every sequential run of failing attempts each window records at most five failures, and no
      span of a window's length, wherever it starts, contains more than ten. */
  lemma {:induction false} FailuresAreBounded(ts: seq<Attempt>, from: int, w: int)
    requires Sequential(ts)
    ensures CountWindow(Run(ts).log, w) <= MAX_ATTEMPTS
    ensures CountSpan(Run(ts).log, from) <= 2 * MAX_ATTEMPTS
    ensures CountWindow(Run(ts).log, w) <= 5 && CountBetween(Run(ts).log, from, from + 900000) <= 10
  {
    RunKeepsInv(ts, if ts == [] then 0 else ts[|ts| - 1].record);
    var log := Run(ts).log;
    var u, v := SpanHasTwoWindows(log, from);
    assert forall i :: 0 <= i < |log| && from <= log[i].time <= from + WINDOW ==> InSpan(log[i], from);
    SpanWithinTwo(log, from, u, v);
    SpanIsBetween(log, from);
  }

  /** Failures recorded from `lo` to `hi`, by position in the log. */
  function CountBetween(log: seq<Failure>, lo: int, hi: int): nat
  {
    |set i | 0 <= i < |log| && lo <= log[i].time && log[i].time <= hi|
  }

  lemma {:induction false} SpanIsBetween(log: seq<Failure>, from: int)
    ensures CountSpan(log, from) == CountBetween(log, from, from + 900000)
  {
    if log != [] {
      var n := |log| - 1;
      SpanIsBetween(log[..n], from);
      var was := set i | 0 <= i < n && from <= log[i].time && log[i].time <= from + 900000;
      assert was == set i | 0 <= i < |log[..n]| && from <= log[..n][i].time && log[..n][i].time <= from + 900000;
      var now := set i | 0 <= i < |log| && from <= log[i].time && log[i].time <= from + 900000;
      assert now == was + (if from <= log[n].time <= from + 900000 then {n} else {});
    }
  }

  // ---------------------------------------------------------------- when the sliding promise holds

  /** The comment in the source promises a sliding window: five failures in any span of its length. */
  predicate Promised(ts: seq<Attempt>, from: int) { CountSpan(Run(ts).log, from) <= MAX_ATTEMPTS }

  /** No window but possibly `w` opens inside the span. */
  predicate OpensOnly(log: seq<Failure>, from: int, w: int)
  {
    forall i :: 0 <= i < |log| && from < log[i].window <= from + WINDOW ==> log[i].window == w
  }

  lemma {:induction false} SpanWithinOne(log: seq<Failure>, from: int, u: int)
    requires forall i :: 0 <= i < |log| && InSpan(log[i], from) ==> log[i].window == u
    ensures CountSpan(log, from) <= CountWindow(log, u)
  {
    if log != [] {
      var front := log[..|log| - 1];
      assert forall i :: 0 <= i < |front| ==> front[i] == log[i];
      SpanWithinOne(front, from, u);
      assert InSpan(log[|log| - 1], from) ==> log[|log| - 1].window == u;
    }
  }

  /** Two failures of a span in different windows: the later window opened inside the span. */
  lemma {:induction false} SecondWindowOpensInside(log: seq<Failure>, from: int, i: nat, j: nat)
    requires Ordered(log) && i < |log| && j < |log| && InSpan(log[i], from) && InSpan(log[j], from)
    requires log[i].window < log[j].window
    ensures from < log[j].window <= from + WINDOW && log[i].window < from
  {
    assert i < j || j < i;
  }

  /** A span into which no window opens keeps the promise, in every run. */
  lemma {:induction false} QuietSpanKeepsPromise(ts: seq<Attempt>, from: int, w: int)
    requires Sequential(ts) && OpensOnly(Run(ts).log, from, w) && !(from < w <= from + WINDOW)
    ensures Promised(ts, from)
  {
    RunKeepsInv(ts, if ts == [] then 0 else ts[|ts| - 1].record);
    var log := Run(ts).log;
    forall i, j ensures !Straddles(log, from, i, j)
    {
      if Straddles(log, from, i, j) { SecondWindowOpensInside(log, from, i, j); }
    }
    var u := OneWindowOnly(log, from);
  }

  // ---------------------------------------------------------------- a busy turn of the window

  /** One request opens a window just over a window's length before `w`, its failure recorded `latency`
      later; four more fail at `w - 1`, when it is about to close, and five at `w`, in the next. */
  function Busy(w: int, latency: nat, n: nat): seq<Attempt>
  {
    seq(n, i => if i == 0 then Attempt(w - WINDOW - 1, w - WINDOW - 1 + latency)
                else if i < 5 then Attempt(w - 1, w - 1) else Attempt(w, w))
  }

  function BusyLog(w: int, latency: nat, n: nat): seq<Failure>
  {
    seq(n, i => if i == 0 then Failure(w - WINDOW - 1 + latency, w - WINDOW - 1)
                else if i < 5 then Failure(w - 1, w - WINDOW - 1) else Failure(w, w))
  }

  function BusySlot(w: int, n: nat): Slot
  {
    if n == 0 then Empty else if n <= 5 then Open(Entry(w - WINDOW - 1, n)) else Open(Entry(w, n - 5))
  }

  lemma {:induction false} BusyRun(w: int, latency: nat, n: nat)
    requires n <= 10 && latency <= 1
    ensures Run(Busy(w, latency, n)) == State(BusySlot(w, n), BusyLog(w, latency, n))
  {
    if n > 0 {
      assert Busy(w, latency, n)[..n - 1] == Busy(w, latency, n - 1);
      BusyRun(w, latency, n - 1);
      BusyStep(w, latency, n);
    }
  }

  lemma {:induction false} BusyStep(w: int, latency: nat, n: nat)
    requires 1 <= n <= 10 && latency <= 1
    ensures Step(State(BusySlot(w, n - 1), BusyLog(w, latency, n - 1)), Busy(w, latency, n)[n - 1]) ==
              State(BusySlot(w, n), BusyLog(w, latency, n))
  {
    var f := BusyLog(w, latency, n)[n - 1];
    assert BusyLog(w, latency, n) == BusyLog(w, latency, n - 1) + [f];
  }

  /** Every span that starts at most a window's length before `w` holds all of these failures, except
      for the first one where that was recorded before the span. */
  lemma {:induction false} BusyCount(w: int, latency: nat, n: nat, from: int)
    requires 1 <= n <= 10 && latency <= 1 && w - WINDOW <= from < w
    ensures CountSpan(BusyLog(w, latency, n), from) == if from <= w - WINDOW - 1 + latency then n else n - 1
  {
    var log := BusyLog(w, latency, n);
    assert log[..n - 1] == BusyLog(w, latency, n - 1);
    if n > 1 {
      BusyCount(w, latency, n - 1, from);
    } else {
      assert log[..0] == [];
    }
  }

  /** The sliding promise holds for a span, over all runs that open no window inside it but at `w`,
      exactly when `w` lies outside: the condition cannot be weakened for any `w`. */
  lemma {:induction false} SlidingPromiseExactly(from: int, w: int)
    ensures (forall ts :: Sequential(ts) && OpensOnly(Run(ts).log, from, w) ==> Promised(ts, from)) <==>
              !(from < w <= from + WINDOW)
  {
    if from < w <= from + WINDOW {
      var ts := Busy(w, 0, 10);
      BusyRun(w, 0, 10);
      BusyCount(w, 0, 10, from);
      assert Sequential(ts) && OpensOnly(Run(ts).log, from, w) && !Promised(ts, from);
    } else {
      forall ts | Sequential(ts) && OpensOnly(Run(ts).log, from, w) ensures Promised(ts, from)
      {
        QuietSpanKeepsPromise(ts, from, w);
      }
    }
  }

  /** Ten failures within a window's length do get through, with a single millisecond between one
      check and its record: the windows are fixed, not sliding. */
  lemma {:induction false} TenIsReached(w: int)
    ensures Sequential(Busy(w, 1, 10)) && Prompt(Busy(w, 1, 10), 1)
    ensures CountSpan(Run(Busy(w, 1, 10)).log, w - WINDOW) == 2 * MAX_ATTEMPTS
  {
    BusyRun(w, 1, 10);
    BusyCount(w, 1, 10, w - WINDOW);
  }

  // ---------------------------------------------------------------- the bound by latency

  /** No request takes longer than `latency` from its check to its record. */
  predicate Prompt(ts: seq<Attempt>, latency: int)
  {
    forall i :: 0 <= i < |ts| ==> ts[i].record - ts[i].check <= latency
  }

  /** The failure that opened window `w`. */
  predicate OpenedIn(log: seq<Failure>, w: int)
  {
    exists j :: 0 <= j < |log| && log[j] == Failure(w, w)
  }

  ghost predicate AllOpened(s: State)
  {
    && (forall i :: 0 <= i < |s.log| ==> OpenedIn(s.log, s.log[i].window))
    && (s.slot.Open? ==> OpenedIn(s.log, s.slot.entry.windowStart))
  }

  lemma {:induction false} OpenedAppend(log: seq<Failure>, f: Failure, w: int)
    requires OpenedIn(log, w) || f == Failure(w, w)
    ensures OpenedIn(log + [f], w)
  {
    if OpenedIn(log, w) {
      var j :| 0 <= j < |log| && log[j] == Failure(w, w);
      assert (log + [f])[j] == Failure(w, w);
    } else {
      assert (log + [f])[|log|] == f;
    }
  }

  /** Without latency, the failure that opens a window lies at its very start. */
  lemma {:induction false} InstantStepOpens(s: State, a: Attempt)
    requires AllOpened(s) && a.check == a.record
    ensures AllOpened(Step(s, a))
  {
    var s' := Step(s, a);
    if Checked(s.slot, a.check).1 {
      var f := s'.log[|s.log|];
      assert s'.log == s.log + [f] && f == Failure(a.record, s'.slot.entry.windowStart);
      assert Stale(s.slot, a.check) ==> f == Failure(a.check, a.check);
      OpenedAppend(s.log, f, f.window);
      forall i | 0 <= i < |s'.log| ensures OpenedIn(s'.log, s'.log[i].window)
      {
        if i < |s.log| { OpenedAppend(s.log, f, s.log[i].window); }
      }
    }
  }

  lemma {:induction false} InstantRunOpens(ts: seq<Attempt>)
    requires Sequential(ts) && Prompt(ts, 0)
    ensures AllOpened(Run(ts))
  {
    if ts != [] {
      var n := |ts| - 1;
      assert forall i :: 0 <= i < n ==> ts[..n][i] == ts[i];
      InstantRunOpens(ts[..n]);
      InstantStepOpens(Run(ts[..n]), ts[n]);
    }
  }

  /** One failure of window `u` lies outside the span. */
  lemma {:induction false} SpanMissesOne(log: seq<Failure>, from: int, u: int, v: int, j: nat)
    requires j < |log| && log[j].window == u && !InSpan(log[j], from) && u != v
    requires forall i :: 0 <= i < |log| && InSpan(log[i], from) ==> log[i].window == u || log[i].window == v
    ensures CountSpan(log, from) < CountWindow(log, u) + CountWindow(log, v)
  {
    var front := log[..|log| - 1];
    assert forall i :: 0 <= i < |front| ==> front[i] == log[i];
    assert InSpan(log[|log| - 1], from) ==> log[|log| - 1].window == u || log[|log| - 1].window == v;
    if j < |front| {
      SpanMissesOne(front, from, u, v, j);
    } else {
      assert forall i :: 0 <= i < |front| && from <= front[i].time <= from + WINDOW ==> InSpan(front[i], from);
      SpanWithinTwo(front, from, u, v);
    }
  }

  /** Failures `i` and `j` of the span lie in two windows, in this order. */
  predicate Straddles(log: seq<Failure>, from: int, i: int, j: int)
  {
    && 0 <= i < |log| && 0 <= j < |log| && InSpan(log[i], from) && InSpan(log[j], from)
    && log[i].window < log[j].window
  }

  lemma {:induction false} StraddlingMissesOne(log: seq<Failure>, from: int, i: nat, j: nat)
    requires Ordered(log) && Straddles(log, from, i, j) && OpenedIn(log, log[i].window)
    ensures CountSpan(log, from) < CountWindow(log, log[i].window) + CountWindow(log, log[j].window)
  {
    SecondWindowOpensInside(log, from, i, j);
    var k :| 0 <= k < |log| && log[k] == Failure(log[i].window, log[i].window);
    forall q | 0 <= q < |log| && InSpan(log[q], from)
      ensures log[q].window == log[i].window || log[q].window == log[j].window
    {
      ThreeWindowsApart(log, from, i, j, q);
    }
    SpanMissesOne(log, from, log[i].window, log[j].window, k);
  }

  lemma {:induction false} OneWindowOnly(log: seq<Failure>, from: int) returns (u: int)
    requires forall i, j :: !Straddles(log, from, i, j)
    ensures CountSpan(log, from) <= CountWindow(log, u)
  {
    u := 0;
    if exists i :: 0 <= i < |log| && InSpan(log[i], from) {
      var p :| 0 <= p < |log| && InSpan(log[p], from);
      u := log[p].window;
      forall i | 0 <= i < |log| && InSpan(log[i], from) ensures log[i].window == u
      {
        assert !Straddles(log, from, i, p) && !Straddles(log, from, p, i);
      }
    }
    SpanWithinOne(log, from, u);
  }

  lemma {:induction false} NineWithoutLatency(ts: seq<Attempt>, from: int)
    requires Sequential(ts) && Prompt(ts, 0)
    ensures CountSpan(Run(ts).log, from) <= 2 * MAX_ATTEMPTS - 1
  {
    RunKeepsInv(ts, if ts == [] then 0 else ts[|ts| - 1].record);
    InstantRunOpens(ts);
    var log := Run(ts).log;
    if i, j :| Straddles(log, from, i, j) {
      StraddlingMissesOne(log, from, i, j);
    } else {
      var u := OneWindowOnly(log, from);
    }
  }

  /** The bound of ten falls to nine exactly when no time passes between a check and its record. */
  lemma {:induction false} BoundByLatency(latency: nat)
    ensures (forall ts, from :: Sequential(ts) && Prompt(ts, latency) ==>
               CountSpan(Run(ts).log, from) <= 2 * MAX_ATTEMPTS - 1) <==>
              latency == 0
  {
    if latency == 0 {
      forall ts, from | Sequential(ts) && Prompt(ts, latency)
        ensures CountSpan(Run(ts).log, from) <= 2 * MAX_ATTEMPTS - 1
      {
        NineWithoutLatency(ts, from);
      }
    } else {
      TenIsReached(0);
      assert Sequential(Busy(0, 1, 10)) && Prompt(Busy(0, 1, 10), latency);
    }
  }

  /** Nine are reached even so. */
  lemma {:induction false} NineIsReached(w: int)
    ensures Sequential(Busy(w, 0, 10)) && Prompt(Busy(w, 0, 10), 0)
    ensures CountSpan(Run(Busy(w, 0, 10)).log, w - WINDOW) == 2 * MAX_ATTEMPTS - 1
  {
    BusyRun(w, 0, 10);
    BusyCount(w, 0, 10, w - WINDOW);
  }
}
