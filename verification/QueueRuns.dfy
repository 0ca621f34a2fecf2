/** What holds over every run of the job queue. */
module QueueRuns {
  import opened Common
  import opened Jobs
  import opened Catalogs
  import opened Queue
  import opened Stores

  ghost predicate Run(states: seq<State>, steps: seq<Step>) {
    && |states| == |steps| + 1
    && states[0] == INIT
    && forall i {:trigger TakenAt(states, steps, i)} | 0 <= i < |steps| :: TakenAt(states, steps, i)
  }

  ghost predicate Taken(s: State, step: Step, s': State) {
    Enabled(s, step) && s' == Apply(s, step)
  }

  /** Step i leads from state i to the next. */
  ghost predicate TakenAt(states: seq<State>, steps: seq<Step>, i: nat)
    requires i < |steps| < |states|
  {
    Taken(states[i], steps[i], states[i + 1])
  }

  lemma {:induction false} RunInv(states: seq<State>, steps: seq<Step>, i: nat)
    requires Run(states, steps) && i <= |steps|
    ensures Inv(states[i])
  {
    if i > 0 {
      RunInv(states, steps, i - 1);
      assert TakenAt(states, steps, i - 1);
      InvKept(states[i - 1], steps[i - 1]);
    }
  }

  // ------------------------------------------------------ refinement

  function DbOf(s: State): Db {
    Db(s.jobs, s.catalog)
  }

  /** The atomic database operation a step amounts to. */
  function OpOf(s: State, step: Step): Op {
    match step
    case Create(job, request) => DoCreate(job, request, s.now)
    case ClaimCommit(sid) =>
      if sid in s.txns then DoClaim(s.txns[sid].job, s.txns[sid].worker, s.txns[sid].start) else Nothing
    case Refresh(job, worker, at) => DoRefresh(job, worker, at)
    case CompleteCommit(sid) =>
      if CompletingIn(s, sid)
      then DoComplete(s.txns[sid].job, s.txns[sid].worker, s.txns[sid].listings, s.txns[sid].start)
      else Nothing
    case DeliverFail(call, at) => DoFail(call.job, call.worker, call.text, at)
    case Requeue(job, at, age) => DoRequeue(job, at, age)
    case Prune(at, days) => DoPrune(at, days)
    case _ => Nothing
  }

  lemma CommitRefines(s: State, sid: SessionId)
    requires Inv(s) && Enabled(s, CompleteCommit(sid))
    ensures Effective(DbOf(s), OpOf(s, CompleteCommit(sid)))
    ensures var done, op := Apply(s, CompleteCommit(sid)), OpOf(s, CompleteCommit(sid));
            && done.jobs == Perform(DbOf(s), op).jobs
            && (InTime(s, s.txns[sid]) ==> DbOf(done) == Perform(DbOf(s), op))
  {
    var t := s.txns[sid];
    assert TxnOk(s, t) && t.listings[..t.done] == t.listings;
    if InTime(s, t) {
      assert ViewsOkAt(s, sid);
    }
  }

  /** No prune has reached into the day before a completion that commits now. */
  predicate CommitsInTime(s: State, step: Step) {
    step.CompleteCommit? && CompletingIn(s, step.sid) ==> InTime(s, s.txns[step.sid])
  }

  lemma ClaimRefines(s: State, sid: SessionId)
    requires Inv(s) && Enabled(s, ClaimCommit(sid))
    ensures Effective(DbOf(s), OpOf(s, ClaimCommit(sid)))
    ensures DbOf(Apply(s, ClaimCommit(sid))) == Perform(DbOf(s), OpOf(s, ClaimCommit(sid)))
  {
    assert TxnOk(s, s.txns[sid]);
  }

  lemma StatementRefines(s: State, step: Step)
    requires RowsOk(s) && Enabled(s, step) && !step.ClaimCommit? && !step.CompleteCommit?
    ensures DbOf(Apply(s, step)) == Perform(DbOf(s), OpOf(s, step))
  {
  }

  /** A step shows the other clients one whole operation or nothing; a claim or
      a completion that commits is never without effect. A completion that commits
      too late may differ from the whole operation in the observations it adds. */
  lemma StepRefines(s: State, step: Step)
    requires Inv(s) && Enabled(s, step)
    ensures Apply(s, step).jobs == Perform(DbOf(s), OpOf(s, step)).jobs
    ensures CommitsInTime(s, step) ==> DbOf(Apply(s, step)) == Perform(DbOf(s), OpOf(s, step))
    ensures step.ClaimCommit? || step.CompleteCommit? ==> Effective(DbOf(s), OpOf(s, step))
  {
    if step.CompleteCommit? {
      CommitRefines(s, step.sid);
    } else if step.ClaimCommit? {
      ClaimRefines(s, step.sid);
    } else {
      StatementRefines(s, step);
    }
  }

  ghost function OpsOf(states: seq<State>, steps: seq<Step>, n: nat): (ops: seq<Op>)
    requires n <= |steps| <= |states|
    ensures |ops| == n && forall i | 0 <= i < n :: ops[i] == OpOf(states[i], steps[i])
  {
    if n == 0 then [] else OpsOf(states, steps, n - 1) + [OpOf(states[n - 1], steps[n - 1])]
  }

  /** All completions among the first n steps commit in time. */
  ghost predicate Timely(states: seq<State>, steps: seq<Step>, n: nat)
    requires n <= |steps| <= |states|
  {
    forall i {:trigger CommitsInTime(states[i], steps[i])} | 0 <= i < n :: CommitsInTime(states[i], steps[i])
  }

  lemma JobsAlone(a: Db, b: Db, op: Op)
    requires a.jobs == b.jobs
    ensures Perform(a, op).jobs == Perform(b, op).jobs
  {
  }

  /** Every interleaving leaves the job rows as if its operations had run whole, one
      after the other, in commit order, and the products and observations too if no
      prune reaches into the day before a completion that is still to commit. */
  lemma {:induction false} RunIsSerial(states: seq<State>, steps: seq<Step>, n: nat)
    requires Run(states, steps) && n <= |steps|
    ensures states[n].jobs == PerformAll(Db(map[], map[]), OpsOf(states, steps, n)).jobs
    ensures Timely(states, steps, n) ==>
              DbOf(states[n]) == PerformAll(Db(map[], map[]), OpsOf(states, steps, n))
  {
    if n > 0 {
      RunIsSerial(states, steps, n - 1);
      RunInv(states, steps, n - 1);
      assert TakenAt(states, steps, n - 1);
      StepRefines(states[n - 1], steps[n - 1]);
      var ops := OpsOf(states, steps, n);
      assert ops[..n - 1] == OpsOf(states, steps, n - 1);
      JobsAlone(DbOf(states[n - 1]), PerformAll(Db(map[], map[]), ops[..n - 1]), ops[n - 1]);
      assert Timely(states, steps, n) ==> CommitsInTime(states[n - 1], steps[n - 1]);
    }
  }

  /** The ownership test in the final UPDATE cannot fail: the lock taken by the
      first one protects it. */
  lemma SecondCheckHolds(states: seq<State>, steps: seq<Step>, i: nat, sid: SessionId)
    requires Run(states, steps) && i <= |steps| && CompletingIn(states[i], sid)
    ensures var t := states[i].txns[sid];
            t.job in states[i].jobs && Owned(states[i].jobs[t.job], t.worker)
  {
    RunInv(states, steps, i);
    assert TxnOk(states[i], states[i].txns[sid]);
  }

  // ---------------------------------------------- what clients have sent

  /** The transaction is the one this statement began, for the claim the worker
      had in hand then. */
  predicate BegunBy(t: Txn, s: State, step: Step) {
    match step
    case ClaimSelect(worker, job, start) => t == ClaimTxn(job, worker, start)
    case CompleteBegin(worker, listings, start) =>
      && t.CompleteTxn? && SlotOf(s, worker) == Working(t.job, t.epoch)
      && t.worker == worker && t.listings == listings && t.start == start
    case _ => false
  }

  lemma NewTxn(s: State, step: Step, sid: SessionId)
    requires Enabled(s, step) && sid !in s.txns && sid in Apply(s, step).txns
    ensures sid == s.nextSid && BegunBy(Apply(s, step).txns[sid], s, step)
  {
  }

  /** Its own statements change what a transaction has written, and nothing else of it. */
  predicate SameTxn(t: Txn, t': Txn) {
    && t.job == t'.job && t.worker == t'.worker && t.start == t'.start
    && (t.ClaimTxn? <==> t'.ClaimTxn?)
    && (t.CompleteTxn? ==> t.epoch == t'.epoch && t.listings == t'.listings)
  }

  lemma TxnStays(s: State, step: Step, sid: SessionId)
    requires Enabled(s, step) && sid in s.txns && sid < s.nextSid && sid in Apply(s, step).txns
    ensures SameTxn(s.txns[sid], Apply(s, step).txns[sid])
  {
  }

  /** Every open transaction carries what its client sent when it began: the claim,
      the listings and the start time of one earlier statement. */
  lemma {:induction false} TxnWasSent(states: seq<State>, steps: seq<Step>, n: nat, sid: SessionId) returns (b: nat)
    requires Run(states, steps) && n <= |steps| && sid in states[n].txns
    ensures b < n && states[b].nextSid == sid && BegunBy(states[n].txns[sid], states[b], steps[b])
  {
    StartsEmpty(states, steps);
    assert TakenAt(states, steps, n - 1);
    if sid in states[n - 1].txns {
      b := TxnWasSent(states, steps, n - 1, sid);
      RunInv(states, steps, n - 1);
      TxnStays(states[n - 1], steps[n - 1], sid);
    } else {
      b := n - 1;
      NewTxn(states[n - 1], steps[n - 1], sid);
    }
  }

  /** The report is the one this step sent, with the client's text and about the
      claim the worker had in hand then. */
  predicate SentBy(call: FailCall, s: State, step: Step) {
    step.SendFail? && SlotOf(s, step.worker) == Working(call.job, call.epoch)
    && call.worker == step.worker && call.text == step.text
  }

  lemma NewCall(s: State, step: Step, call: FailCall)
    requires Enabled(s, step) && call !in s.failCalls && call in Apply(s, step).failCalls
    ensures SentBy(call, s, step)
  {
  }

  /** Every failure report under way is what some client has sent. */
  lemma {:induction false} ReportWasSent(states: seq<State>, steps: seq<Step>, n: nat, call: FailCall)
    returns (b: nat)
    requires Run(states, steps) && n <= |steps| && call in states[n].failCalls
    ensures b < n && SentBy(call, states[b], steps[b])
  {
    StartsEmpty(states, steps);
    assert TakenAt(states, steps, n - 1);
    if call in states[n - 1].failCalls {
      b := ReportWasSent(states, steps, n - 1, call);
    } else {
      b := n - 1;
      NewCall(states[n - 1], steps[n - 1], call);
    }
  }

  predicate InHand(s: State, worker: WorkerId, job: JobId, epoch: nat) {
    var slot := SlotOf(s, worker);
    (slot.Working? || slot.Completing?) && slot.job == job && slot.epoch == epoch
  }

  /** The claim that gave the worker this job, and the row this epoch. */
  ghost predicate GivenBy(s: State, step: Step, s': State, worker: WorkerId, job: JobId, epoch: nat) {
    && step.ClaimCommit? && step.sid in s.txns
    && s.txns[step.sid].job == job && s.txns[step.sid].worker == worker
    && job in s'.epochs && s'.epochs[job] == epoch
    && job in s'.jobs && Owned(s'.jobs[job], worker) && s'.jobs[job].claimedAt == Some(s.txns[step.sid].start)
  }

  lemma NewInHand(s: State, step: Step, worker: WorkerId, job: JobId, epoch: nat)
    requires Enabled(s, step) && InHand(Apply(s, step), worker, job, epoch) && !InHand(s, worker, job, epoch)
    ensures GivenBy(s, step, Apply(s, step), worker, job, epoch)
  {
  }

  /** What a worker has in hand is a claim that has committed for it. */
  lemma {:induction false} ClaimInHand(
      states: seq<State>, steps: seq<Step>, n: nat, worker: WorkerId, job: JobId, epoch: nat)
    returns (c: nat)
    requires Run(states, steps) && n <= |steps| && InHand(states[n], worker, job, epoch)
    ensures c < n && GivenBy(states[c], steps[c], states[c + 1], worker, job, epoch)
  {
    StartsEmpty(states, steps);
    assert TakenAt(states, steps, n - 1);
    if InHand(states[n - 1], worker, job, epoch) {
      c := ClaimInHand(states, steps, n - 1, worker, job, epoch);
    } else {
      c := n - 1;
      NewInHand(states[n - 1], steps[n - 1], worker, job, epoch);
    }
  }

  /** After an error in its completion a worker still has its claim in hand, and can
      send a report about it with any text; nothing else changes on its side or at
      the server. */
  lemma ErrorCanBeReported(s: State, worker: WorkerId, text: string)
    requires Enabled(s, CompleteError(worker))
    ensures var slot, after := SlotOf(s, worker), Apply(s, CompleteError(worker));
            && InHand(after, worker, slot.job, slot.epoch) && after == s.(slots := after.slots)
            && (forall other | other != worker :: SlotOf(after, other) == SlotOf(s, other))
            && Enabled(after, SendFail(worker, text))
            && FailCall(slot.job, worker, slot.epoch, text) in Apply(after, SendFail(worker, text)).failCalls
  {
  }

  // --------------------------------------------------------- fencing

  /** A result is committed only under the row's latest claim. */
  lemma CompletionIsFenced(states: seq<State>, steps: seq<Step>, i: nat)
    requires Run(states, steps) && i < |steps| && steps[i].CompleteCommit?
    ensures CompletingIn(states[i], steps[i].sid)
    ensures var s, t := states[i], states[i].txns[steps[i].sid];
            t.job in s.epochs && t.epoch == s.epochs[t.job] && OwnedIn(DbOf(s), t.job, t.worker)
  {
    RunInv(states, steps, i);
    assert TakenAt(states, steps, i);
    assert TxnOk(states[i], states[i].txns[steps[i].sid]);
  }

  /** The claim does not reuse a claim id that still has a failure report for
      the same row on its way to the server. */
  predicate Quiet(s: State, step: Step) {
    step.ClaimSelect? ==> forall call | call in s.failCalls :: !(call.job == step.job && call.worker == step.worker)
  }

  /** No failure report under way can hit a claim other than the one it is about. */
  ghost predicate CallsFenced(s: State) {
    forall call | call in s.failCalls && call.job in s.jobs && Owned(s.jobs[call.job], call.worker) ::
      call.job in s.epochs && call.epoch == s.epochs[call.job]
  }

  ghost predicate NoClaimBehindCall(s: State) {
    forall call, sid | call in s.failCalls && sid in s.txns && s.txns[sid].ClaimTxn? ::
      !(s.txns[sid].job == call.job && s.txns[sid].worker == call.worker)
  }

  lemma BehindKept(s: State, step: Step)
    requires TxnsOk(s) && Enabled(s, step) && Quiet(s, step) && NoClaimBehindCall(s)
    ensures NoClaimBehindCall(Apply(s, step))
  {
    if step.SendFail? {
      forall sid | sid in s.txns ensures TxnOk(s, s.txns[sid]) {}
    }
  }

  lemma FencingKept(s: State, step: Step)
    requires Inv(s) && Enabled(s, step) && CallsFenced(s) && NoClaimBehindCall(s)
    ensures CallsFenced(Apply(s, step))
  {
    if step.SendFail? {
      assert SlotOk(s, step.worker, SlotOf(s, step.worker));
    }
  }

  lemma {:induction false} RunFenced(states: seq<State>, steps: seq<Step>, i: nat)
    requires Run(states, steps) && i <= |steps|
    requires forall k | 0 <= k < i :: Quiet(states[k], steps[k])
    ensures CallsFenced(states[i]) && NoClaimBehindCall(states[i])
  {
    if i > 0 {
      RunFenced(states, steps, i - 1);
      RunInv(states, steps, i - 1);
      assert TakenAt(states, steps, i - 1);
      BehindKept(states[i - 1], steps[i - 1]);
      FencingKept(states[i - 1], steps[i - 1]);
    }
  }

  /** While all claims are quiet, a failure report takes effect only on the claim
      it is about. */
  lemma FailureIsFenced(states: seq<State>, steps: seq<Step>, i: nat)
    requires Run(states, steps) && i < |steps| && steps[i].DeliverFail?
    requires forall k | 0 <= k < i :: Quiet(states[k], steps[k])
    requires OwnedIn(DbOf(states[i]), steps[i].call.job, steps[i].call.worker)
    ensures steps[i].call.job in states[i].epochs
            && steps[i].call.epoch == states[i].epochs[steps[i].call.job]
  {
    RunFenced(states, steps, i);
    assert TakenAt(states, steps, i);
  }

  /** A claim that nothing comes between, seen as a whole. */
  lemma ClaimAtOnce(s: State, worker: WorkerId, job: JobId, start: Time) returns (after: State)
    requires RowsOk(s) && TxnsOk(s) && Enabled(s, ClaimSelect(worker, job, start))
    ensures Enabled(Apply(s, ClaimSelect(worker, job, start)), ClaimCommit(s.nextSid))
    ensures after == Apply(Apply(s, ClaimSelect(worker, job, start)), ClaimCommit(s.nextSid))
    ensures after.jobs == s.jobs[job := Claimed(s.jobs[job], worker, start)]
    ensures job in s.epochs && after.epochs == s.epochs[job := s.epochs[job] + 1]
    ensures after.txns == s.txns && after.failCalls == s.failCalls && after.now == s.now
    ensures job !in Locked(after)
  {
    after := Apply(Apply(s, ClaimSelect(worker, job, start)), ClaimCommit(s.nextSid));
    assert s.nextSid !in s.txns;
    assert after.txns == s.txns;
    assert Locked(after) == Locked(s);
  }

  /** Quietness is exactly what a claim needs: once it commits, every failure
      report under way is still fenced if and only if the claim was quiet, and a
      report that is not can be delivered at once and fails the new claim. */
  lemma QuietIsExact(s: State, worker: WorkerId, job: JobId, start: Time) returns (after: State)
    requires Inv(s) && CallsFenced(s)
    requires Enabled(s, ClaimSelect(worker, job, start))
    ensures Enabled(Apply(s, ClaimSelect(worker, job, start)), ClaimCommit(s.nextSid))
    ensures after == Apply(Apply(s, ClaimSelect(worker, job, start)), ClaimCommit(s.nextSid))
    ensures CallsFenced(after) <==> Quiet(s, ClaimSelect(worker, job, start))
    ensures forall call | call in s.failCalls && call.job == job && call.worker == worker ::
              job in after.epochs && call.epoch < after.epochs[job] && Enabled(after, DeliverFail(call, after.now))
              && Apply(after, DeliverFail(call, after.now)).jobs[job].status == Failed
  {
    after := ClaimAtOnce(s, worker, job, start);
    forall call | call in s.failCalls && call.job == job && call.worker == worker
      ensures call.epoch < after.epochs[job] && Enabled(after, DeliverFail(call, after.now))
              && Apply(after, DeliverFail(call, after.now)).jobs[job].status == Failed
    {
      assert call.epoch <= s.epochs[job];
    }
  }

  // -------------------------------------------------- terminal states

  predicate Settled(s: State, job: JobId, row: Row) {
    job in s.jobs && s.jobs[job] == row && Terminal(row)
  }

  lemma SettledStep(s: State, step: Step, s': State, job: JobId, row: Row)
    requires Inv(s) && Taken(s, step, s') && Settled(s, job, row)
    ensures Settled(s', job, row)
  {
    StepRefines(s, step);
  }

  lemma SettledNext(states: seq<State>, steps: seq<Step>, k: nat, job: JobId, row: Row)
    requires Run(states, steps) && k < |steps| && Settled(states[k], job, row)
    ensures Settled(states[k + 1], job, row)
  {
    RunInv(states, steps, k);
    assert TakenAt(states, steps, k);
    SettledStep(states[k], steps[k], states[k + 1], job, row);
  }

  /** Once complete or failed, a row never changes again. */
  lemma {:induction false} TerminalAbsorbs(states: seq<State>, steps: seq<Step>, i: nat, k: nat, job: JobId, row: Row)
    requires Run(states, steps) && i <= k <= |steps| && Settled(states[i], job, row)
    ensures Settled(states[k], job, row)
    decreases k
  {
    if i < k {
      TerminalAbsorbs(states, steps, i, k - 1, job, row);
      SettledNext(states, steps, k - 1, job, row);
    }
  }

  /** What may have settled a row: the completion or the failure report of the
      client that owned it then, which left its result or its text, and its time. */
  ghost predicate Settles(s: State, step: Step, job: JobId, row: Row) {
    match step
    case CompleteCommit(sid) =>
      && CompletingIn(s, sid) && s.txns[sid].job == job && OwnedIn(DbOf(s), job, s.txns[sid].worker)
      && row.status == Complete && row.worker == Some(s.txns[sid].worker)
      && row.result == Some(s.txns[sid].listings) && row.finishedAt == Some(s.txns[sid].start)
    case DeliverFail(call, at) =>
      && call.job == job && OwnedIn(DbOf(s), job, call.worker)
      && row.status == Failed && row.worker == Some(call.worker)
      && row.error == Some(call.text) && row.finishedAt == Some(at)
    case _ => false
  }

  lemma SettledBy(s: State, step: Step, job: JobId)
    requires Inv(s) && Enabled(s, step) && !(job in s.jobs && Terminal(s.jobs[job]))
    requires job in Apply(s, step).jobs && Terminal(Apply(s, step).jobs[job])
    ensures Settles(s, step, job, Apply(s, step).jobs[job])
  {
    StepRefines(s, step);
  }

  /** A failure report for a settled row changes nothing. */
  lemma LateReport(s: State, call: FailCall, at: Time)
    requires Enabled(s, DeliverFail(call, at)) && Terminal(s.jobs[call.job])
    ensures DbOf(Apply(s, DeliverFail(call, at))) == DbOf(s)
  {
    assert s.jobs[call.job := s.jobs[call.job]] == s.jobs;
  }

  /** A completion whose answer is lost may still land, and completes the row. */
  lemma LostAnswerMayLand(s: State, sid: SessionId) returns (done: State)
    requires Inv(s) && CompletingIn(s, sid) && Attended(s, sid) && s.txns[sid].updated
    ensures var worker := s.txns[sid].worker;
            && Enabled(s, CompleteError(worker))
            && Enabled(Apply(s, CompleteError(worker)), CompleteCommit(sid))
            && done == Apply(Apply(s, CompleteError(worker)), CompleteCommit(sid))
    ensures var job := s.txns[sid].job; job in done.jobs && done.jobs[job].status == Complete
  {
    var t := s.txns[sid];
    assert TxnOk(s, t);
    done := Apply(Apply(s, CompleteError(t.worker)), CompleteCommit(sid));
  }

  lemma StartsEmpty(states: seq<State>, steps: seq<Step>)
    requires Run(states, steps)
    ensures states[0].jobs == map[] && states[0].catalog == map[] && states[0].cut.None?
    ensures states[0].txns == map[] && states[0].failCalls == {} && states[0].slots == map[]
  {
  }

  /** Step i has settled the row, and left it like this. */
  ghost predicate Cause(states: seq<State>, steps: seq<Step>, i: nat, job: JobId, row: Row)
    requires i < |steps| < |states|
  {
    Settles(states[i], steps[i], job, row) && Settled(states[i + 1], job, row)
  }

  predicate SettledAt(s: State, job: JobId) {
    job in s.jobs && Terminal(s.jobs[job])
  }

  /** If the row is settled after step i, that step has settled it or it was
      settled before as it is now. */
  ghost predicate Link(states: seq<State>, steps: seq<Step>, i: nat, job: JobId)
    requires i < |steps| < |states|
  {
    SettledAt(states[i + 1], job) ==>
      || Settled(states[i], job, states[i + 1].jobs[job])
      || Cause(states, steps, i, job, states[i + 1].jobs[job])
  }

  lemma StepLinks(states: seq<State>, steps: seq<Step>, i: nat, job: JobId)
    requires Run(states, steps) && i < |steps|
    ensures Link(states, steps, i, job)
  {
    RunInv(states, steps, i);
    assert TakenAt(states, steps, i);
    if SettledAt(states[i], job) {
      SettledStep(states[i], steps[i], states[i + 1], job, states[i].jobs[job]);
    } else if SettledAt(states[i + 1], job) {
      SettledBy(states[i], steps[i], job);
    }
  }

  lemma {:induction false} FindCause(states: seq<State>, steps: seq<Step>, n: nat, job: JobId) returns (i: nat)
    requires n <= |steps| < |states| && states[0].jobs == map[] && SettledAt(states[n], job)
    requires forall k {:trigger Link(states, steps, k, job)} | 0 <= k < n :: Link(states, steps, k, job)
    ensures i < n && Cause(states, steps, i, job, states[n].jobs[job])
  {
    assert Link(states, steps, n - 1, job);
    if Settled(states[n - 1], job, states[n].jobs[job]) {
      i := FindCause(states, steps, n - 1, job);
    } else {
      i := n - 1;
    }
  }

  /** The row shows what one client sent in step b, and step i put into effect: the
      listings and the start time of a completion, or the text of a report. */
  ghost predicate Shown(states: seq<State>, steps: seq<Step>, b: nat, i: nat, job: JobId, row: Row)
    requires b < i < |steps| < |states|
  {
    && (steps[b].CompleteBegin? || steps[b].SendFail?)
    && row.worker == Some(steps[b].worker) && SlotOf(states[b], steps[b].worker).Working?
    && SlotOf(states[b], steps[b].worker).job == job
    && match steps[i]
       case CompleteCommit(sid) =>
         && steps[b].CompleteBegin? && sid == states[b].nextSid
         && row.status == Complete && row.result == Some(steps[b].listings) && row.finishedAt == Some(steps[b].start)
       case DeliverFail(call, at) =>
         && steps[b].SendFail?
         && row.status == Failed && row.error == Some(steps[b].text) && row.finishedAt == Some(at)
       case _ => false
  }

  /** Every complete or failed row has one step that settled it, it has been as that
      step left it ever since, and it shows what its client had sent. */
  lemma SettledHasCause(states: seq<State>, steps: seq<Step>, n: nat, job: JobId) returns (b: nat, i: nat)
    requires Run(states, steps) && n <= |steps| && SettledAt(states[n], job)
    ensures b < i < n && Settles(states[i], steps[i], job, states[n].jobs[job])
    ensures Settled(states[i + 1], job, states[n].jobs[job])
    ensures Shown(states, steps, b, i, job, states[n].jobs[job])
  {
    forall k {:trigger Link(states, steps, k, job)} | 0 <= k < n ensures Link(states, steps, k, job) {
      StepLinks(states, steps, k, job);
    }
    StartsEmpty(states, steps);
    i := FindCause(states, steps, n, job);
    b := SentForIt(states, steps, i, job, states[n].jobs[job]);
  }

  lemma SentForIt(states: seq<State>, steps: seq<Step>, i: nat, job: JobId, row: Row) returns (b: nat)
    requires Run(states, steps) && i < |steps| && Settles(states[i], steps[i], job, row)
    ensures b < i && Shown(states, steps, b, i, job, row)
  {
    assert TakenAt(states, steps, i);
    if steps[i].CompleteCommit? {
      b := TxnWasSent(states, steps, i, steps[i].sid);
    } else {
      b := ReportWasSent(states, steps, i, steps[i].call);
    }
  }

  /** At every moment the status tells which nullable columns are set. */
  lemma StatusDecidesColumns(states: seq<State>, steps: seq<Step>, i: nat, job: JobId)
    requires Run(states, steps) && i <= |steps| && job in states[i].jobs
    ensures WellShaped(states[i].jobs[job])
  {
    RunInv(states, steps, i);
  }

  /** A queued job shows the requeue message exactly if it has been claimed before; and
      whatever is not queued has been claimed. */
  ghost predicate MessageTells(s: State, job: JobId) {
    job in s.jobs && job in s.epochs ==>
      && (s.jobs[job].status == Queued ==> (s.jobs[job].error.Some? <==> s.epochs[job] > 0))
      && (s.jobs[job].status != Queued ==> s.epochs[job] > 0)
  }

  lemma MessageStep(s: State, step: Step, job: JobId)
    requires RowsOk(s) && TxnsOk(s) && Enabled(s, step) && MessageTells(s, job)
    ensures MessageTells(Apply(s, step), job)
  {
    if step.ClaimCommit? {
      assert TxnOk(s, s.txns[step.sid]);
    }
  }

  lemma {:induction false} RequeueLeavesMessage(states: seq<State>, steps: seq<Step>, n: nat, job: JobId)
    requires Run(states, steps) && n <= |steps|
    ensures MessageTells(states[n], job)
  {
    if n > 0 {
      RequeueLeavesMessage(states, steps, n - 1, job);
      RunInv(states, steps, n - 1);
      assert TakenAt(states, steps, n - 1);
      MessageStep(states[n - 1], steps[n - 1], job);
    } else {
      StartsEmpty(states, steps);
    }
  }

  /** No job is completed twice. */
  lemma CommitsOnce(states: seq<State>, steps: seq<Step>, i: nat, k: nat)
    requires Run(states, steps) && i < k < |steps|
    requires steps[i].CompleteCommit? && steps[k].CompleteCommit?
    ensures CompletingIn(states[i], steps[i].sid) && CompletingIn(states[k], steps[k].sid)
    ensures states[i].txns[steps[i].sid].job != states[k].txns[steps[k].sid].job
  {
    CompletionIsFenced(states, steps, i);
    CompletionIsFenced(states, steps, k);
    var ti, tk := states[i].txns[steps[i].sid], states[k].txns[steps[k].sid];
    assert TakenAt(states, steps, i);
    TerminalAbsorbs(states, steps, i + 1, k, ti.job, states[i + 1].jobs[ti.job]);
  }

  ghost predicate Holds(catalog: Catalog, key: Key, seen: Observation) {
    key in catalog && seen in catalog[key].log
  }

  lemma {:induction false} EnteredByCommit(
      states: seq<State>, steps: seq<Step>, n: nat, key: Key, seen: Observation)
    returns (i: nat)
    requires Run(states, steps) && n <= |steps| && Holds(states[n].catalog, key, seen)
    ensures i < n && steps[i].CompleteCommit? && steps[i].sid in states[i].txns
    ensures var t := states[i].txns[steps[i].sid];
            t.CompleteTxn? && t.job == seen.job && t.start == seen.at
            && exists item :: item in t.listings && KeyOf(item) == key && ValuesOf(item) == seen.values
    ensures !Holds(states[i].catalog, key, seen)
  {
    StartsEmpty(states, steps);
    assert n > 0;
    assert TakenAt(states, steps, n - 1);
    if Holds(states[n - 1].catalog, key, seen) {
      i := EnteredByCommit(states, steps, n - 1, key, seen);
    } else {
      i := n - 1;
      RunInv(states, steps, i);
      StoredByCommit(states[i], steps[i], key, seen);
    }
  }

  /** Every stored observation came in with the commit that completed its job: it was
      not there before, and it carries the start time and the values of one of the
      listings that the worker had sent for that job. */
  lemma ObservationHasCommit(states: seq<State>, steps: seq<Step>, n: nat, key: Key, seen: Observation)
    returns (b: nat, i: nat)
    requires Run(states, steps) && n <= |steps| && Holds(states[n].catalog, key, seen)
    ensures b < i < n && steps[i] == CompleteCommit(states[b].nextSid) && steps[b].CompleteBegin?
    ensures SlotOf(states[b], steps[b].worker).Working? && SlotOf(states[b], steps[b].worker).job == seen.job
            && steps[b].start == seen.at
            && exists item :: item in steps[b].listings && KeyOf(item) == key && ValuesOf(item) == seen.values
    ensures seen.job in states[i + 1].jobs && states[i + 1].jobs[seen.job].status == Complete
    ensures !Holds(states[i].catalog, key, seen)
  {
    i := EnteredByCommit(states, steps, n, key, seen);
    b := TxnWasSent(states, steps, i, steps[i].sid);
    CompletionIsFenced(states, steps, i);
    assert TakenAt(states, steps, i);
  }

  lemma StoredByCommit(s: State, step: Step, key: Key, seen: Observation)
    requires TxnsOk(s) && Enabled(s, step)
    requires !Holds(s.catalog, key, seen) && Holds(Apply(s, step).catalog, key, seen)
    ensures step.CompleteCommit? && step.sid in s.txns
    ensures var t := s.txns[step.sid];
            t.CompleteTxn? && t.job == seen.job && t.start == seen.at
            && exists item :: item in t.listings && KeyOf(item) == key && ValuesOf(item) == seen.values
  {
    if step.CompleteCommit? {
      var t := s.txns[step.sid];
      assert TxnOk(s, t);
      assert FromItems(t.listings, t.job, t.start, key, seen);
    } else {
      NothingAdded(s, step, key, seen);
    }
  }

  /** A completion is never timed before what was committed by the time it began,
      however long it then waited for its row; only completions that overlap can
      store observations out of time order. */
  lemma BeginsAfterStored(states: seq<State>, steps: seq<Step>, i: nat, k: nat)
    requires Run(states, steps) && i <= k < |steps|
    requires steps[k].CompleteBegin? && states[i].now <= steps[k].start
    ensures CompletingIn(states[k + 1], states[k].nextSid)
    ensures forall key, seen | Holds(states[i].catalog, key, seen) ::
              seen.at <= states[k + 1].txns[states[k].nextSid].start
  {
    RunInv(states, steps, i);
    assert TakenAt(states, steps, k);
  }

  // ------------------------------------------------------- claim order

  /** Open transactions never share a job row. */
  lemma LocksAreDistinct(states: seq<State>, steps: seq<Step>, i: nat, a: SessionId, b: SessionId)
    requires Run(states, steps) && i <= |steps| && a in states[i].txns && b in states[i].txns && a != b
    ensures states[i].txns[a].job != states[i].txns[b].job
  {
    RunInv(states, steps, i);
    assert Apart(states[i].txns[a], states[i].txns[b]);
  }

  predicate CreatedAs(s: State, job: JobId, request: SearchRequest, at: Time) {
    job in s.jobs && s.jobs[job].request == request && s.jobs[job].createdAt == at
  }

  lemma CreatedAsStep(s: State, step: Step, s': State, job: JobId, request: SearchRequest, at: Time)
    requires Taken(s, step, s') && CreatedAs(s, job, request, at)
    ensures CreatedAs(s', job, request, at)
  {
  }

  /** What was asked for and when never changes, whatever becomes of the job. */
  lemma {:induction false} CreationStays(states: seq<State>, steps: seq<Step>, a: nat, k: nat)
    requires Run(states, steps) && a < k <= |steps| && steps[a].Create?
    ensures CreatedAs(states[k], steps[a].job, steps[a].request, states[a].now)
    decreases k
  {
    if a + 1 == k {
      assert TakenAt(states, steps, a);
    } else {
      CreationStays(states, steps, a, k - 1);
      assert TakenAt(states, steps, k - 1);
      CreatedAsStep(states[k - 1], steps[k - 1], states[k], steps[a].job, steps[a].request, states[a].now);
    }
  }

  /** First come, first served: a job created at a later time is not claimed while
      an older one is queued and unlocked, however often that one was requeued. */
  lemma OldestFirst(states: seq<State>, steps: seq<Step>, a: nat, b: nat, i: nat)
    requires Run(states, steps) && a < b < i < |steps|
    requires steps[a].Create? && steps[b].Create? && states[a].now < states[b].now
    requires steps[i].ClaimSelect? && steps[i].job == steps[b].job
    ensures !Claimable(states[i].jobs, Locked(states[i]), steps[a].job)
  {
    assert TakenAt(states, steps, i);
    CreationStays(states, steps, a, i);
    CreationStays(states, steps, b, i);
    RunInv(states, steps, i);
  }
}
