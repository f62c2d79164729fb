/**
 The dead-letter listing: one global queue, scanned in batches, filtered to the caller's
 school, and cut to the requested page.
 */
module DeadLetters {
  import opened Basics

  const DEFAULT_PAGE := 100
  const MAX_PAGE := 500

  /** A queued job; its data may lack a school. */
  datatype Job = Job(id: string, name: string, school: Option<string>, reason: string)

  /** Cross-tenant viewers see everything, others only their own school. */
  datatype Viewer = Everything | School(id: string)

  predicate Visible(v: Viewer, job: Job) { v.Everything? || job.school == Some(v.id) }

  function Filtered(v: Viewer, queue: seq<Job>): (r: seq<Job>)
    ensures |r| <= |queue|
    ensures forall i :: 0 <= i < |r| ==> Visible(v, r[i])
  {
    if queue == [] then []
    else Filtered(v, queue[..|queue| - 1]) + if Visible(v, queue[|queue| - 1]) then [queue[|queue| - 1]] else []
  }

  /** What the code returns: from `start` on, up to `end + 1` jobs. */
  function Page(jobs: seq<Job>, start: nat, end: nat): seq<Job>
  {
    jobs[Min(start, |jobs|)..Min(start + end + 1, |jobs|)]
  }

  /** What its comment promises: the jobs at positions `start` to `end`, both included. */
  function InclusivePage(jobs: seq<Job>, start: nat, end: nat): seq<Job>
  {
    jobs[Min(start, |jobs|)..Max(Min(start, |jobs|), Min(end + 1, |jobs|))]
  }

  /** Parses the requested range; unreadable numbers arrive as `None`. */
  function ParseRange(start: Option<int>, end: Option<int>): (r: (nat, nat))
    ensures r.0 == if start.Some? && start.value >= 0 then start.value else 0
    ensures end.Some? && r.0 <= end.value ==> r.1 == if end.value < r.0 + 500 then end.value else r.0 + 499
    ensures end.None? || end.value < r.0 ==> r.1 == r.0 + 99
  {
    var s := Max(0, if start.Some? then start.value else 0);
    (s, if end.Some? && end.value >= s then Min(end.value, s + MAX_PAGE - 1) else s + DEFAULT_PAGE - 1)
  }

  lemma {:induction false} FilteredAppend(v: Viewer, queue: seq<Job>, i: nat)
    requires i < |queue|
    ensures Filtered(v, queue[..i + 1]) == Filtered(v, queue[..i]) + if Visible(v, queue[i]) then [queue[i]] else []
  {
    assert queue[..i + 1][..i] == queue[..i];
  }

  lemma {:induction false} FilteredPrefix(v: Viewer, queue: seq<Job>, i: nat)
    requires i <= |queue|
    ensures Filtered(v, queue[..i]) <= Filtered(v, queue)
    decreases |queue| - i
  {
    if i == |queue| {
      assert queue[..i] == queue;
    } else {
      FilteredAppend(v, queue, i);
      FilteredPrefix(v, queue, i + 1);
    }
  }

  /** Once a page is full, later jobs do not change it. */
  lemma PageStable(a: seq<Job>, b: seq<Job>, start: nat, end: nat)
    requires a <= b && |Page(a, start, end)| > end
    ensures Page(a, start, end) == Page(b, start, end)
  {
  }

  lemma PageAppend(a: seq<Job>, job: Job, start: nat, end: nat)
    ensures Page(a + [job], start, end) ==
              Page(a, start, end) + if |a| >= start && |Page(a, start, end)| <= end then [job] else []
  {
  }

  /** What the next job of the queue adds to the page and to the total. */
  lemma {:induction false} ScanStep(v: Viewer, queue: seq<Job>, i: nat, start: nat, end: nat)
    requires i < |queue|
    ensures var seen, job := Filtered(v, queue[..i]), queue[i];
            var page := Page(seen, start, end);
            if Visible(v, job) then
              && |Filtered(v, queue[..i + 1])| == |seen| + 1
              && Page(Filtered(v, queue[..i + 1]), start, end) ==
                 if |seen| >= start && |page| <= end then page + [job] else page
            else Filtered(v, queue[..i + 1]) == seen
  {
    FilteredAppend(v, queue, i);
    PageAppend(Filtered(v, queue[..i]), queue[i], start, end);
  }

  lemma PageVisible(v: Viewer, jobs: seq<Job>, start: nat, end: nat)
    requires forall i :: 0 <= i < |jobs| ==> Visible(v, jobs[i])
    ensures forall i :: 0 <= i < |Page(jobs, start, end)| ==> Visible(v, Page(jobs, start, end)[i])
  {
    forall i | 0 <= i < |Page(jobs, start, end)| ensures Visible(v, Page(jobs, start, end)[i])
    {
      assert Page(jobs, start, end)[i] == jobs[Min(start, |jobs|) + i];
    }
  }

  /** The scan may stop as soon as the page is full. */
  lemma {:induction false} ScanStops(v: Viewer, queue: seq<Job>, offset: nat, start: nat, end: nat)
    requires offset <= |queue|
    requires offset == |queue| || |Page(Filtered(v, queue[..offset]), start, end)| > end
    ensures Page(Filtered(v, queue[..offset]), start, end) == Page(Filtered(v, queue), start, end)
    ensures |Filtered(v, queue[..offset])| <= |Filtered(v, queue)|
    ensures offset == |queue| ==> Filtered(v, queue[..offset]) == Filtered(v, queue)
  {
    FilteredPrefix(v, queue, offset);
    if offset == |queue| {
      assert queue[..offset] == queue;
    } else {
      PageStable(Filtered(v, queue[..offset]), Filtered(v, queue), start, end);
    }
  }

  /** The inner loop over one batch. */
  method ScanBatch(v: Viewer, queue: seq<Job>, offset: nat, next: nat, start: nat, end: nat, jobs0: seq<Job>,
                   total0: nat)
    returns (jobs: seq<Job>, total: nat)
    requires offset <= next <= |queue|
    requires jobs0 == Page(Filtered(v, queue[..offset]), start, end) && total0 == |Filtered(v, queue[..offset])|
    ensures jobs == Page(Filtered(v, queue[..next]), start, end) && total == |Filtered(v, queue[..next])|
  {
    jobs, total := jobs0, total0;
    for i := offset to next
      invariant jobs == Page(Filtered(v, queue[..i]), start, end)
      invariant total == |Filtered(v, queue[..i])|
    {
      ScanStep(v, queue, i, start, end);
      if Visible(v, queue[i]) {
        if total >= start && |jobs| <= end {
          jobs := jobs + [queue[i]];
        }
        total := total + 1;
      }
    }
  }

  /** Scans the queue batch by batch until the page is full or the queue is exhausted. Whatever the
      batch size, the page is the one cut from all of the caller's jobs; the total counts the jobs
      met so far, which is all of them unless the page filled up first. */
  method GetDeadLetterJobs(v: Viewer, queue: seq<Job>, start: nat, end: nat, batch: nat)
    returns (jobs: seq<Job>, total: nat)
    requires batch > 0
    ensures jobs == Page(Filtered(v, queue), start, end)
    ensures total <= |Filtered(v, queue)| && (|jobs| <= end ==> total == |Filtered(v, queue)|)
    ensures forall i :: 0 <= i < |jobs| ==> v.Everything? || jobs[i].school == Some(v.id)
  {
    jobs, total := [], 0;
    var offset, exhausted := 0, false;
    while !exhausted && |jobs| <= end
      invariant offset <= |queue|
      invariant jobs == Page(Filtered(v, queue[..offset]), start, end) && total == |Filtered(v, queue[..offset])|
      invariant exhausted ==> offset == |queue|
      decreases |queue| - offset, !exhausted
    {
      var next := Min(offset + batch, |queue|);
      if next == offset { break; }
      jobs, total := ScanBatch(v, queue, offset, next, start, end, jobs, total);
      if next - offset < batch { exhausted := true; }
      offset := next;
    }
    ScanStops(v, queue, offset, start, end);
    PageVisible(v, Filtered(v, queue), start, end);
  }

  /** The page the code returns is the one its comment promises exactly for the first page, or when the
      caller has no jobs beyond position `end`; otherwise it is longer, by up to `start` jobs. */
  lemma PageIsInclusiveExactly(jobs: seq<Job>, start: nat, end: nat)
    requires start <= end
    ensures Page(jobs, start, end) == InclusivePage(jobs, start, end) <==> start == 0 || |jobs| <= end + 1
    ensures InclusivePage(jobs, start, end) <= Page(jobs, start, end)
    ensures |Page(jobs, start, end)| == Min(end + 1, Max(0, |jobs| - start))
  {
    var p, q := Page(jobs, start, end), InclusivePage(jobs, start, end);
    if start > 0 && |jobs| > end + 1 { assert |p| > |q|; }
  }

  lemma CountAppend(jobs: seq<Job>, last: Job, job: Job)
    ensures multiset(jobs + [last])[job] == multiset(jobs)[job] + if last == job then 1 else 0
    ensures job in jobs + [last] <==> job in jobs || last == job
  {
  }

  /** The filter drops nothing of the caller's and lets nothing else through. */
  lemma {:induction false} FilterIsExact(v: Viewer, queue: seq<Job>, job: Job)
    ensures job in Filtered(v, queue) <==> job in queue && (v.Everything? || job.school == Some(v.id))
    ensures v.Everything? || job.school == Some(v.id) ==> multiset(Filtered(v, queue))[job] == multiset(queue)[job]
    ensures v.School? && job.school != Some(v.id) ==> multiset(Filtered(v, queue))[job] == 0
  {
    if queue != [] {
      var n := |queue| - 1;
      var front, last := queue[..n], queue[n];
      FilterIsExact(v, front, job);
      assert queue == front + [last];
      CountAppend(front, last, job);
      CountAppend(Filtered(v, front), last, job);
      assert Filtered(v, queue) == if Visible(v, last) then Filtered(v, front) + [last] else Filtered(v, front);
    }
  }

  /** A cross-tenant viewer sees the whole queue as it is. */
  lemma {:induction false} EverythingIsEverything(queue: seq<Job>)
    ensures Filtered(Everything, queue) == queue
  {
    if queue != [] {
      EverythingIsEverything(queue[..|queue| - 1]);
      assert queue == queue[..|queue| - 1] + [queue[|queue| - 1]];
    }
  }
}
