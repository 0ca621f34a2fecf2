/** What the job queue can still do: a completion that nobody keeps from its products
    can land, and a job nobody holds can be claimed and completed. */
module QueueProgress {
  import opened Common
  import opened Jobs
  import opened Catalogs
  import opened Queue
  import opened QueueRuns

  /** The steps lead from s to t. */
  ghost predicate Leads(s: State, steps: seq<Step>, t: State)
    decreases |steps|
  {
    if steps == [] then s == t
    else Enabled(s, steps[0]) && Leads(Apply(s, steps[0]), steps[1..], t)
  }

  lemma FirstThen(s: State, step: Step, rest: seq<Step>, t: State)
    requires Enabled(s, step) && Leads(Apply(s, step), rest, t)
    ensures Leads(s, [step] + rest, t)
  {
    assert ([step] + rest)[1..] == rest;
  }

  /** No other open transaction has locked a product that this one names. */
  ghost predicate ProductsFree(s: State, sid: SessionId)
    requires CompletingIn(s, sid)
  {
    forall item | item in s.txns[sid].listings && Usable(item) :: ProductFree(s, sid, KeyOf(item))
  }

  /** The statements of one completion and of no other session. */
  ghost predicate OfSession(steps: seq<Step>, sid: SessionId) {
    forall step | step in steps ::
      (step.CompleteItem? || step.CompleteUpdate? || step.CompleteCommit?) && step.sid == sid
  }

  lemma ItemEnabled(s: State, sid: SessionId)
    requires CompletingIn(s, sid) && Attended(s, sid) && ProductsFree(s, sid)
    requires s.txns[sid].done < |s.txns[sid].listings| && !s.txns[sid].updated
    ensures Enabled(s, CompleteItem(sid))
    ensures var s' := Apply(s, CompleteItem(sid));
            CompletingIn(s', sid) && Attended(s', sid) && ProductsFree(s', sid)
            && s'.txns[sid].done == s.txns[sid].done + 1 && SameTxn(s.txns[sid], s'.txns[sid])
            && !s'.txns[sid].updated
  {
    var t := s.txns[sid];
    assert t.listings[t.done] in t.listings;
  }

  lemma UpdateThenCommit(s: State, sid: SessionId) returns (steps: seq<Step>, t: State)
    requires Inv(s) && CompletingIn(s, sid) && Attended(s, sid) && s.txns[sid].done == |s.txns[sid].listings|
    ensures Leads(s, steps, t) && OfSession(steps, sid)
    ensures var txn := s.txns[sid];
            txn.job in t.jobs && t.jobs[txn.job].status == Complete && t.jobs[txn.job].result == Some(txn.listings)
            && SlotOf(t, txn.worker).Idle?
  {
    assert TxnOk(s, s.txns[sid]);
    var updated := Apply(s, CompleteUpdate(sid));
    t := Apply(updated, CompleteCommit(sid));
    assert Leads(t, [], t);
    FirstThen(updated, CompleteCommit(sid), [], t);
    FirstThen(s, CompleteUpdate(sid), [CompleteCommit(sid)] + [], t);
    steps := [CompleteUpdate(sid)] + ([CompleteCommit(sid)] + []);
  }

  /** A completion whose client waits for it and whose products nobody else has locked
      can run to its end by its own statements alone: the job is then complete with the
      listings that were sent, and the worker is free. */
  lemma {:induction false} CompletionCanLand(s: State, sid: SessionId) returns (steps: seq<Step>, t: State)
    requires Inv(s) && CompletingIn(s, sid) && Attended(s, sid) && ProductsFree(s, sid)
    ensures Leads(s, steps, t) && OfSession(steps, sid)
    ensures var txn := s.txns[sid];
            txn.job in t.jobs && t.jobs[txn.job].status == Complete && t.jobs[txn.job].result == Some(txn.listings)
            && SlotOf(t, txn.worker).Idle?
    decreases |s.txns[sid].listings| - s.txns[sid].done
  {
    assert TxnOk(s, s.txns[sid]);
    if s.txns[sid].done == |s.txns[sid].listings| {
      steps, t := UpdateThenCommit(s, sid);
    } else {
      ItemEnabled(s, sid);
      InvKept(s, CompleteItem(sid));
      var s' := Apply(s, CompleteItem(sid));
      var rest;
      rest, t := CompletionCanLand(s', sid);
      FirstThen(s, CompleteItem(sid), rest, t);
      steps := [CompleteItem(sid)] + rest;
    }
  }

  /** From its claim on: an idle worker can take the next queued job and, with whatever
      it has found, complete it, if no other transaction is open. */
  lemma QuietQueueServes(s: State, worker: WorkerId, job: JobId, listings: seq<Listing>)
    returns (steps: seq<Step>, t: State)
    requires Inv(s) && s.txns == map[] && SlotOf(s, worker).Idle? && IsNext(s.jobs, {}, job)
    ensures Leads(s, steps, t)
    ensures job in t.jobs && t.jobs[job].status == Complete && t.jobs[job].result == Some(listings)
            && t.jobs[job].worker == Some(worker)
  {
    assert Locked(s) == {};
    var claim := ClaimSelect(worker, job, s.now);
    var claimed := ClaimAtOnce(s, worker, job, s.now);
    InvKept(s, claim);
    InvKept(Apply(s, claim), ClaimCommit(s.nextSid));
    var begin := CompleteBegin(worker, listings, s.now);
    Begins(s, worker, job, listings, claimed);
    InvKept(claimed, begin);
    var rest;
    rest, t := CompletionCanLand(Apply(claimed, begin), claimed.nextSid);
    FirstThen(claimed, begin, rest, t);
    FirstThen(Apply(s, claim), ClaimCommit(s.nextSid), [begin] + rest, t);
    FirstThen(s, claim, [ClaimCommit(s.nextSid)] + ([begin] + rest), t);
    steps := [claim] + ([ClaimCommit(s.nextSid)] + ([begin] + rest));
    KeepsWorker(Apply(claimed, begin), rest, t, job, worker);
  }

  lemma Begins(s: State, worker: WorkerId, job: JobId, listings: seq<Listing>, claimed: State)
    requires Inv(s) && Enabled(s, ClaimSelect(worker, job, s.now)) && s.txns == map[]
    requires Enabled(Apply(s, ClaimSelect(worker, job, s.now)), ClaimCommit(s.nextSid))
    requires claimed == Apply(Apply(s, ClaimSelect(worker, job, s.now)), ClaimCommit(s.nextSid))
    requires claimed.txns == map[] && claimed.now == s.now && job !in Locked(claimed)
    ensures var begin := CompleteBegin(worker, listings, s.now);
            && Enabled(claimed, begin)
            && var begun, sid := Apply(claimed, begin), claimed.nextSid;
               CompletingIn(begun, sid) && Attended(begun, sid) && ProductsFree(begun, sid)
               && begun.txns[sid].job == job && begun.txns[sid].listings == listings
               && OwnedBy(begun, job, worker)
  {
  }

  predicate OwnedBy(s: State, job: JobId, worker: WorkerId) {
    job in s.jobs && s.jobs[job].worker == Some(worker) && s.jobs[job].status != Queued
  }

  /** The statements of a completion leave a job that is taken with its worker. */
  lemma {:induction false} KeepsWorker(s: State, steps: seq<Step>, t: State, job: JobId, worker: WorkerId)
    requires Leads(s, steps, t) && OwnedBy(s, job, worker)
    requires forall step | step in steps :: OfCompletion(step)
    ensures OwnedBy(t, job, worker)
    decreases |steps|
  {
    if steps != [] {
      assert steps[0] in steps && forall step | step in steps[1..] :: step in steps;
      KeepsWorker(Apply(s, steps[0]), steps[1..], t, job, worker);
    }
  }
}
