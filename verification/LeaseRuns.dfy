/** The lease in every run of the job queue: as long as the refreshes of a claim
    follow an admissible schedule, maintenance does not take its job back. */
module LeaseRuns {
  import opened Common
  import opened Jobs
  import opened Leases
  import opened Queue
  import opened QueueRuns

  /** The claim's time at `now` when its refreshes follow the schedule. */
  function Renewed(start: Time, interval: int, beats: seq<Beat>, now: Time): Time {
    if beats == [] then start
    else
      var k := |beats| - 1;
      if beats[k].ok && BeatTime(start, interval, beats, k) <= now then BeatTime(start, interval, beats, k)
      else Renewed(start, interval, beats[..k], now)
  }

  lemma {:induction false} RowIsRenewed(
      row: Row, worker: WorkerId, start: Time, interval: int, beats: seq<Beat>, now: Time)
    requires Owned(row, worker) && row.claimedAt == Some(start)
    ensures var r := RowAt(row, worker, start, interval, beats, now);
            Owned(r, worker) && r.claimedAt == Some(Renewed(start, interval, beats, now))
  {
    if beats != [] {
      RowIsRenewed(row, worker, start, interval, beats[..|beats| - 1], now);
    }
  }

  /** The time of the last refresh of the claim that was executed after step c and before step m. */
  function LastRefresh(steps: seq<Step>, c: nat, m: nat, job: JobId, worker: WorkerId, start: Time): Time
    requires m <= |steps|
  {
    if m <= c + 1 then start
    else if steps[m - 1].Refresh? && steps[m - 1].job == job && steps[m - 1].worker == worker then steps[m - 1].at
    else LastRefresh(steps, c, m - 1, job, worker, start)
  }

  datatype Lease = Lease(interval: int, delay: int, age: int, failures: nat, beats: seq<Beat>)

  /** The rule of LeaseRule, on the schedule of one claim. */
  ghost predicate Admissible(l: Lease) {
    && l.interval > 0 && l.delay >= 0 && (l.failures + 1) * l.interval + l.delay <= l.age
    && Prompt(l.beats, l.delay) && NeverMoreFailures(l.beats, l.failures)
  }

  /** Whenever maintenance looks at the job it uses the lease's age, the refreshes
      executed so far are those of the schedule, and the next is not overdue. */
  predicate OnSchedule(s: State, step: Step, job: JobId, start: Time, last: Time, l: Lease) {
    step.Requeue? && step.job == job ==>
      && step.age == l.age
      && last == Renewed(start, l.interval, l.beats, s.now)
      && start <= s.now <= start + (|l.beats| + 1) * l.interval + l.delay
  }

  /** Maintenance does not look at the job when its claim is stale. */
  predicate Early(step: Step, job: JobId, last: Time) {
    step.Requeue? && step.job == job ==> step.at <= last + step.age
  }

  lemma FreshEnough(s: State, step: Step, job: JobId, worker: WorkerId, start: Time, last: Time, l: Lease)
    requires Enabled(s, step) && job in s.jobs
    requires Owned(s.jobs[job], worker) && s.jobs[job].claimedAt == Some(last)
    requires Admissible(l) && OnSchedule(s, step, job, start, last, l)
    ensures Early(step, job, last)
  {
    if step.Requeue? && step.job == job {
      var queued := s.jobs[job];
      LeaseHolds(queued, worker, start, l.interval, l.delay, l.beats, l.age, l.failures, s.now);
      RowIsRenewed(Claimed(queued, worker, start), worker, start, l.interval, l.beats, s.now);
    }
  }

  /** The claim has been renewed at `last` and not taken back, or its own worker
      has settled the job. */
  predicate Leased(s: State, job: JobId, worker: WorkerId, last: Time) {
    job in s.jobs
    && (Terminal(s.jobs[job]) || (Owned(s.jobs[job], worker) && s.jobs[job].claimedAt == Some(last)))
  }

  lemma StepLeased(s: State, step: Step, job: JobId, worker: WorkerId, last: Time)
    requires TxnsOk(s) && Enabled(s, step) && Leased(s, job, worker, last)
    requires Early(step, job, last) || Terminal(s.jobs[job])
    ensures Leased(Apply(s, step), job, worker,
                   if step.Refresh? && step.job == job && step.worker == worker then step.at else last)
  {
    if step.ClaimCommit? {
      assert TxnOk(s, s.txns[step.sid]);
    }
  }

  lemma NextLeased(
      states: seq<State>, steps: seq<Step>, m: nat, job: JobId, worker: WorkerId, last: Time)
    requires Run(states, steps) && m < |steps| && Leased(states[m], job, worker, last)
    requires Early(steps[m], job, last) || Terminal(states[m].jobs[job])
    ensures Leased(states[m + 1], job, worker,
                   if steps[m].Refresh? && steps[m].job == job && steps[m].worker == worker then steps[m].at else last)
  {
    RunInv(states, steps, m);
    assert TakenAt(states, steps, m);
    StepLeased(states[m], steps[m], job, worker, last);
  }

  lemma ClaimStarts(states: seq<State>, steps: seq<Step>, c: nat)
    requires Run(states, steps) && c < |steps| && steps[c].ClaimCommit?
    ensures steps[c].sid in states[c].txns
    ensures var t := states[c].txns[steps[c].sid]; Leased(states[c + 1], t.job, t.worker, t.start)
  {
    assert TakenAt(states, steps, c);
  }

  ghost predicate KeepsSchedule(
      states: seq<State>, steps: seq<Step>, c: nat, n: nat, job: JobId, worker: WorkerId, start: Time, l: Lease)
    requires n <= |steps| <= |states|
  {
    forall m {:trigger At(states, steps, c, m, job, worker, start, l)} | c < m < n ::
      At(states, steps, c, m, job, worker, start, l)
  }

  predicate At(
      states: seq<State>, steps: seq<Step>, c: nat, m: nat, job: JobId, worker: WorkerId, start: Time, l: Lease)
    requires m < |steps| <= |states|
  {
    OnSchedule(states[m], steps[m], job, start, LastRefresh(steps, c, m, job, worker, start), l)
  }

  /** If the lease holds at m, with the refreshes so far, it holds at m + 1. */
  predicate Carries(states: seq<State>, steps: seq<Step>, c: nat, m: nat, job: JobId, worker: WorkerId, start: Time)
    requires m < |steps| < |states|
  {
    Leased(states[m], job, worker, LastRefresh(steps, c, m, job, worker, start))
    ==> Leased(states[m + 1], job, worker, LastRefresh(steps, c, m + 1, job, worker, start))
  }

  lemma ScheduleCarries(
      states: seq<State>, steps: seq<Step>, c: nat, m: nat, job: JobId, worker: WorkerId, start: Time, l: Lease)
    requires Run(states, steps) && c < m < |steps| && Admissible(l)
    requires At(states, steps, c, m, job, worker, start, l)
    ensures Carries(states, steps, c, m, job, worker, start)
  {
    var last := LastRefresh(steps, c, m, job, worker, start);
    if Leased(states[m], job, worker, last) {
      if !Terminal(states[m].jobs[job]) {
        assert TakenAt(states, steps, m);
        FreshEnough(states[m], steps[m], job, worker, start, last, l);
      }
      NextLeased(states, steps, m, job, worker, last);
    }
  }

  lemma {:induction false} StaysLeased(
      states: seq<State>, steps: seq<Step>, c: nat, n: nat, job: JobId, worker: WorkerId, start: Time)
    requires c < n <= |steps| < |states| && Leased(states[c + 1], job, worker, start)
    requires forall m {:trigger Carries(states, steps, c, m, job, worker, start)} | c < m < n ::
               Carries(states, steps, c, m, job, worker, start)
    ensures Leased(states[n], job, worker, LastRefresh(steps, c, n, job, worker, start))
    decreases n
  {
    if n > c + 1 {
      StaysLeased(states, steps, c, n - 1, job, worker, start);
      assert Carries(states, steps, c, n - 1, job, worker, start);
    }
  }

  /** From its claim on, a job whose refreshes keep to an admissible schedule is
      never queued again: at every later moment the claim still holds, renewed by
      its last refresh, or the job is settled. */
  lemma NeverRequeued(states: seq<State>, steps: seq<Step>, c: nat, n: nat, l: Lease)
    requires Run(states, steps) && c < n <= |steps| && steps[c].ClaimCommit? && Admissible(l)
    requires steps[c].sid in states[c].txns
    requires var t := states[c].txns[steps[c].sid]; KeepsSchedule(states, steps, c, n, t.job, t.worker, t.start, l)
    ensures var t := states[c].txns[steps[c].sid];
            Leased(states[n], t.job, t.worker, LastRefresh(steps, c, n, t.job, t.worker, t.start))
  {
    var t := states[c].txns[steps[c].sid];
    ClaimStarts(states, steps, c);
    forall m {:trigger Carries(states, steps, c, m, t.job, t.worker, t.start)} | c < m < n
      ensures Carries(states, steps, c, m, t.job, t.worker, t.start)
    {
      assert At(states, steps, c, m, t.job, t.worker, t.start, l);
      ScheduleCarries(states, steps, c, m, t.job, t.worker, t.start, l);
    }
    StaysLeased(states, steps, c, n, t.job, t.worker, t.start);
  }

  // ------------------------------------------------- claims that fall silent

  /** When maintenance looked at the job before step n, its claim was never stale. */
  ghost predicate EarlyUntil(steps: seq<Step>, c: nat, n: nat, job: JobId, worker: WorkerId, start: Time)
    requires n <= |steps|
  {
    forall m {:trigger EarlyAt(steps, c, m, job, worker, start)} | c < m < n ::
      EarlyAt(steps, c, m, job, worker, start)
  }

  predicate EarlyAt(steps: seq<Step>, c: nat, m: nat, job: JobId, worker: WorkerId, start: Time)
    requires m < |steps|
  {
    Early(steps[m], job, LastRefresh(steps, c, m, job, worker, start))
  }

  lemma LeasedUntil(states: seq<State>, steps: seq<Step>, c: nat, n: nat)
    requires Run(states, steps) && c < n <= |steps| && steps[c].ClaimCommit? && steps[c].sid in states[c].txns
    requires var t := states[c].txns[steps[c].sid]; EarlyUntil(steps, c, n, t.job, t.worker, t.start)
    ensures var t := states[c].txns[steps[c].sid];
            Leased(states[n], t.job, t.worker, LastRefresh(steps, c, n, t.job, t.worker, t.start))
  {
    var t := states[c].txns[steps[c].sid];
    ClaimStarts(states, steps, c);
    forall m {:trigger Carries(states, steps, c, m, t.job, t.worker, t.start)} | c < m < n
      ensures Carries(states, steps, c, m, t.job, t.worker, t.start)
    {
      assert EarlyAt(steps, c, m, t.job, t.worker, t.start);
      var last := LastRefresh(steps, c, m, t.job, t.worker, t.start);
      if Leased(states[m], t.job, t.worker, last) {
        NextLeased(states, steps, m, t.job, t.worker, last);
      }
    }
    StaysLeased(states, steps, c, n, t.job, t.worker, t.start);
  }

  /** What the first look of maintenance at a stale claim does, and no earlier look:
      unless its worker has settled the job, the job is queued again exactly when the
      last executed refresh is more than the age ago. */
  lemma TakenBackExactly(states: seq<State>, steps: seq<Step>, c: nat, n: nat)
    requires Run(states, steps) && c < n < |steps| && steps[c].ClaimCommit? && steps[c].sid in states[c].txns
    requires var t := states[c].txns[steps[c].sid];
             EarlyUntil(steps, c, n, t.job, t.worker, t.start) && steps[n].Requeue? && steps[n].job == t.job
    ensures var t := states[c].txns[steps[c].sid];
            var last := LastRefresh(steps, c, n, t.job, t.worker, t.start);
            && t.job in states[n].jobs && t.job in states[n + 1].jobs
            && (Terminal(states[n].jobs[t.job]) ==> states[n + 1].jobs[t.job] == states[n].jobs[t.job])
            && (states[n + 1].jobs[t.job].status == Queued
                <==> !Terminal(states[n].jobs[t.job]) && steps[n].at > last + steps[n].age)
  {
    LeasedUntil(states, steps, c, n);
    assert TakenAt(states, steps, n);
  }

  /** A job whose row a completion holds has to wait for the end of that transaction,
      which may roll back at any time; then maintenance can look at it. */
  lemma HeldRowWaits(states: seq<State>, steps: seq<Step>, i: nat, sid: SessionId, at: Time, age: int)
    requires Run(states, steps) && i <= |steps| && sid in states[i].txns && at <= states[i].now
    ensures var s, job := states[i], states[i].txns[sid].job;
            && !Enabled(s, Requeue(job, at, age))
            && Enabled(s, Rollback(sid)) && Enabled(Apply(s, Rollback(sid)), Requeue(job, at, age))
  {
    var s, job := states[i], states[i].txns[sid].job;
    RunInv(states, steps, i);
    assert job in Locked(s) && TxnOk(s, s.txns[sid]);
    forall other | other in s.txns && other != sid ensures s.txns[other].job != job {
      assert Apart(s.txns[other], s.txns[sid]);
    }
  }
}
