/** The job queue as many workers see it: server-side transactions that hold row
    locks, worker slots that keep one job each, and single-statement calls that
    may reach the server after their caller has moved on. Each step is one SQL
    statement (atomic per row under READ COMMITTED) or one local event. */
module Queue {
  import opened Common
  import opened Jobs
  import opened Catalogs
  import opened Histories

  type SessionId = nat

  /** An open transaction; `job` is the scrape_jobs row it has locked. `writes` are
      the product rows it has written so far, each with the observations it adds. */
  datatype Txn =
    | ClaimTxn(job: JobId, worker: WorkerId, start: Time)
    | CompleteTxn(job: JobId, worker: WorkerId, start: Time, epoch: nat,
                  listings: seq<Listing>, done: nat, writes: Catalog, updated: bool)

  /** What a worker slot believes it is doing. `epoch` counts claims of the row
      and is not part of the program: it only lets theorems name a claim. */
  datatype Slot =
    | Idle
    | Claiming(sid: SessionId)
    | Working(job: JobId, epoch: nat)
    | Completing(job: JobId, epoch: nat, sid: SessionId)
    | Failing(job: JobId, epoch: nat)

  /** A FailJob statement that has been sent and not yet executed. */
  datatype FailCall = FailCall(job: JobId, worker: WorkerId, epoch: nat, text: string)

  /** `cut` is the latest time before which a prune has deleted observations; like
      `epoch` it is there only for the theorems. */
  datatype State = State(
    now: Time,
    jobs: map<JobId, Row>,
    catalog: Catalog,
    epochs: map<JobId, nat>,
    txns: map<SessionId, Txn>,
    nextSid: SessionId,
    slots: map<WorkerId, Slot>,
    failCalls: set<FailCall>,
    cut: Option<Time>)

  /** `at` and `start` are now(): the time a statement or its transaction began,
      which may lie before the moment its row lock was granted. */
  datatype Step =
    | Tick(to: Time)
    | Create(job: JobId, request: SearchRequest)
    | ClaimSelect(worker: WorkerId, job: JobId, start: Time)
    | ClaimCommit(sid: SessionId)
    | Refresh(job: JobId, worker: WorkerId, at: Time)
    | CompleteBegin(worker: WorkerId, listings: seq<Listing>, start: Time)
    | CompleteItem(sid: SessionId)
    | CompleteUpdate(sid: SessionId)
    | CompleteCommit(sid: SessionId)
    | CompleteError(worker: WorkerId)
    | Rollback(sid: SessionId)
    | SendFail(worker: WorkerId, text: string)
    | DeliverFail(call: FailCall, at: Time)
    | Requeue(job: JobId, at: Time, age: int)
    | Abandon(worker: WorkerId)
    | Prune(at: Time, days: int)

  const INIT := State(0, map[], map[], map[], map[], 0, map[], {}, None)

  function SlotOf(s: State, worker: WorkerId): Slot {
    if worker in s.slots then s.slots[worker] else Idle
  }

  function Locked(s: State): set<JobId> {
    set sid | sid in s.txns :: s.txns[sid].job
  }

  predicate Unlocked(s: State, job: JobId) {
    job in s.jobs && job !in Locked(s)
  }

  /** What a completing transaction reads: its own writes over the committed rows. */
  function View(s: State, t: Txn): Catalog
    requires t.CompleteTxn?
  {
    Merged(s.catalog, t.writes)
  }

  predicate CompletingIn(s: State, sid: SessionId) {
    sid in s.txns && s.txns[sid].CompleteTxn?
  }

  /** The session's client is still waiting for it. */
  predicate Attended(s: State, sid: SessionId)
    requires CompletingIn(s, sid)
  {
    var t := s.txns[sid];
    SlotOf(s, t.worker) == Completing(t.job, t.epoch, sid)
  }

  /** No other open transaction has written this product row. */
  predicate ProductFree(s: State, sid: SessionId, key: Key) {
    forall other | other in s.txns && other != sid && s.txns[other].CompleteTxn? :: key !in s.txns[other].writes
  }

  /** The upsert and the conditional insert for the next listing, not yet visible to others. */
  function WithNextItem(s: State, t: Txn): Txn
    requires t.CompleteTxn? && t.done < |t.listings|
  {
    t.(done := t.done + 1, writes := WithItem(s.catalog, t.writes, t.listings[t.done], t.job, t.start))
  }

  ghost predicate Enabled(s: State, step: Step) {
    match step
    case Tick(to) => s.now <= to
    case Create(job, request) => job !in s.jobs
    case ClaimSelect(worker, job, start) => SlotOf(s, worker).Idle? && IsNext(s.jobs, Locked(s), job) && start <= s.now
    case ClaimCommit(sid) =>
      sid in s.txns && s.txns[sid].ClaimTxn? && s.txns[sid].job in s.jobs && s.txns[sid].job in s.epochs
    case Refresh(job, worker, at) => Unlocked(s, job) && at <= s.now
    case CompleteBegin(worker, listings, start) =>
      SlotOf(s, worker).Working? && start <= s.now && Unlocked(s, SlotOf(s, worker).job)
      && Owned(s.jobs[SlotOf(s, worker).job], worker)
    case CompleteItem(sid) =>
      CompletingIn(s, sid) && Attended(s, sid)
      && (var t := s.txns[sid];
          t.done < |t.listings| && !t.updated
          && (Usable(t.listings[t.done]) ==> ProductFree(s, sid, KeyOf(t.listings[t.done]))))
    case CompleteUpdate(sid) =>
      CompletingIn(s, sid) && Attended(s, sid)
      && (var t := s.txns[sid];
          t.done == |t.listings| && t.job in s.jobs && Owned(s.jobs[t.job], t.worker))
    case CompleteCommit(sid) => CompletingIn(s, sid) && s.txns[sid].updated && s.txns[sid].job in s.jobs
    case CompleteError(worker) => SlotOf(s, worker).Completing?
    case Rollback(sid) => sid in s.txns
    case SendFail(worker, text) => SlotOf(s, worker).Working?
    case DeliverFail(call, at) => call in s.failCalls && Unlocked(s, call.job) && at <= s.now
    case Requeue(job, at, age) => Unlocked(s, job) && at <= s.now
    case Abandon(worker) => true
    case Prune(at, days) => at <= s.now
  }

  function Later(cut: Option<Time>, from: Time): Time {
    if cut.Some? && cut.value > from then cut.value else from
  }

  ghost function Apply(s: State, step: Step): State
    requires Enabled(s, step)
  {
    match step
    case Tick(to) => s.(now := to)
    case Create(job, request) => s.(jobs := s.jobs[job := NewRow(request, s.now)], epochs := s.epochs[job := 0])
    case ClaimSelect(worker, job, start) =>
      s.(txns := s.txns[s.nextSid := ClaimTxn(job, worker, start)],
         nextSid := s.nextSid + 1,
         slots := s.slots[worker := Claiming(s.nextSid)])
    case ClaimCommit(sid) =>
      var t := s.txns[sid];
      var epoch := s.epochs[t.job] + 1;
      s.(jobs := s.jobs[t.job := Claimed(s.jobs[t.job], t.worker, t.start)],
         epochs := s.epochs[t.job := epoch],
         txns := s.txns - {sid},
         slots := if SlotOf(s, t.worker) == Claiming(sid) then s.slots[t.worker := Working(t.job, epoch)] else s.slots)
    case Refresh(job, worker, at) => s.(jobs := s.jobs[job := Refreshed(s.jobs[job], worker, at)])
    case CompleteBegin(worker, listings, start) =>
      var slot := SlotOf(s, worker);
      s.(txns := s.txns[s.nextSid := CompleteTxn(slot.job, worker, start, slot.epoch, listings, 0, map[], false)],
         nextSid := s.nextSid + 1,
         slots := s.slots[worker := Completing(slot.job, slot.epoch, s.nextSid)])
    case CompleteItem(sid) =>
      s.(txns := s.txns[sid := WithNextItem(s, s.txns[sid])])
    case CompleteUpdate(sid) => s.(txns := s.txns[sid := s.txns[sid].(updated := true)])
    case CompleteCommit(sid) =>
      var t := s.txns[sid];
      s.(jobs := s.jobs[t.job := Completed(s.jobs[t.job], t.worker, t.listings, t.start)],
         catalog := View(s, t),
         txns := s.txns - {sid},
         slots := if Attended(s, sid) then s.slots[t.worker := Idle] else s.slots)
    case CompleteError(worker) =>
      s.(slots := s.slots[worker := Working(SlotOf(s, worker).job, SlotOf(s, worker).epoch)])
    case Rollback(sid) => s.(txns := s.txns - {sid})
    case SendFail(worker, text) =>
      var slot := SlotOf(s, worker);
      s.(slots := s.slots[worker := Failing(slot.job, slot.epoch)],
         failCalls := s.failCalls + {FailCall(slot.job, worker, slot.epoch, text)})
    case DeliverFail(call, at) =>
      s.(jobs := s.jobs[call.job := FailedRow(s.jobs[call.job], call.worker, call.text, at)],
         failCalls := s.failCalls - {call})
    case Requeue(job, at, age) => s.(jobs := s.jobs[job := Requeued(s.jobs[job], at, age)])
    case Abandon(worker) => s.(slots := s.slots[worker := Idle])
    case Prune(at, days) =>
      var from := at - days * DAY;
      s.(catalog := Pruned(s.catalog, from), cut := Some(Later(s.cut, from)))
  }

  // ---------------------------------------------------------------- invariant

  predicate Engaged(slot: Slot, job: JobId) {
    (slot.Working? || slot.Completing?) && slot.job == job
  }

  ghost predicate RowsOk(s: State) {
    && s.epochs.Keys == s.jobs.Keys
    && forall job | job in s.jobs :: WellShaped(s.jobs[job]) && s.jobs[job].priority == 0
  }

  ghost predicate TxnOk(s: State, t: Txn) {
    && t.job in s.jobs && t.job in s.epochs && t.start <= s.now
    && match t
       case ClaimTxn(job, worker, _) =>
         s.jobs[job].status == Queued && !Engaged(SlotOf(s, worker), job)
       case CompleteTxn(job, worker, start, epoch, listings, done, writes, updated) =>
         && Owned(s.jobs[job], worker)
         && epoch == s.epochs[job]
         && done <= |listings|
         && (updated ==> done == |listings|)
         && writes.Keys == Touched(listings[..done])
         && OwnWrites(listings, job, start, writes)
  }

  /** Every added observation says what one of the transaction's listings says. */
  ghost predicate OwnWrites(listings: seq<Listing>, job: JobId, start: Time, writes: Catalog) {
    forall key, seen | key in writes && seen in writes[key].log :: FromItems(listings, job, start, key, seen)
  }

  ghost predicate TxnsOk(s: State) {
    forall sid | sid in s.txns :: sid < s.nextSid && TxnOk(s, s.txns[sid])
  }

  /** No prune has reached into the day before the transaction. */
  predicate InTime(s: State, t: Txn) {
    s.cut.Some? ==> s.cut.value <= t.start - DAY + 1
  }

  /** The transaction's writes are what its listings so far make of the committed rows. */
  ghost predicate ViewOk(s: State, t: Txn)
    requires t.CompleteTxn? && t.done <= |t.listings|
  {
    View(s, t) == ApplyItems(s.catalog, t.listings[..t.done], t.job, t.start)
  }

  ghost predicate ViewsOkAt(s: State, sid: SessionId)
    requires CompletingIn(s, sid)
  {
    s.txns[sid].done <= |s.txns[sid].listings| && ViewOk(s, s.txns[sid])
  }

  ghost predicate ViewsOk(s: State) {
    forall sid | CompletingIn(s, sid) && InTime(s, s.txns[sid]) :: ViewsOkAt(s, sid)
  }

  predicate Apart(a: Txn, b: Txn) {
    a.job != b.job && (a.CompleteTxn? && b.CompleteTxn? ==> a.writes.Keys !! b.writes.Keys)
  }

  ghost predicate LocksOk(s: State) {
    forall a, b | a in s.txns && b in s.txns && a != b :: Apart(s.txns[a], s.txns[b])
  }

  ghost predicate SlotOk(s: State, worker: WorkerId, slot: Slot) {
    match slot
    case Idle => true
    case Claiming(sid) => sid < s.nextSid && (sid in s.txns ==> s.txns[sid].ClaimTxn? && s.txns[sid].worker == worker)
    case Working(job, epoch) => Current(s, worker, job, epoch)
    case Completing(job, epoch, sid) =>
      && Current(s, worker, job, epoch)
      && sid < s.nextSid
      && (sid in s.txns ==>
            var t := s.txns[sid];
            t.CompleteTxn? && t.job == job && t.worker == worker && t.epoch == epoch)
    case Failing(job, epoch) => true
  }

  /** If the row is running under this claim id, the claim is the row's latest. */
  predicate Current(s: State, worker: WorkerId, job: JobId, epoch: nat) {
    && job in s.jobs && job in s.epochs
    && epoch <= s.epochs[job]
    && (Owned(s.jobs[job], worker) ==> epoch == s.epochs[job])
  }

  ghost predicate SlotsOk(s: State) {
    forall worker | worker in s.slots :: SlotOk(s, worker, s.slots[worker])
  }

  ghost predicate CallsOk(s: State) {
    forall call | call in s.failCalls :: call.job in s.epochs && call.epoch <= s.epochs[call.job]
  }

  /** The observation was written by the one commit that completed its job. */
  ghost predicate FromCommit(jobs: map<JobId, Row>, key: Key, seen: Observation) {
    && seen.job in jobs
    && jobs[seen.job].status == Complete
    && jobs[seen.job].finishedAt == Some(seen.at)
    && jobs[seen.job].result.Some?
    && exists item :: item in jobs[seen.job].result.value && Usable(item)
                      && KeyOf(item) == key && ValuesOf(item) == seen.values
  }

  ghost predicate OriginsOk(s: State) {
    forall key, seen | key in s.catalog && seen in s.catalog[key].log ::
      FromCommit(s.jobs, key, seen) && seen.at <= s.now
  }

  ghost predicate Inv(s: State) {
    RowsOk(s) && TxnsOk(s) && LocksOk(s) && SlotsOk(s) && CallsOk(s) && OriginsOk(s) && ViewsOk(s)
  }

  /** The statements of a claiming transaction and of a completing one, up to its commit. */
  predicate OfClaim(step: Step) {
    step.ClaimSelect? || step.ClaimCommit?
  }

  predicate OfCompletion(step: Step) {
    || step.CompleteBegin? || step.CompleteItem? || step.CompleteUpdate? || step.CompleteCommit?
  }

  predicate Transactional(step: Step) {
    OfClaim(step) || OfCompletion(step)
  }

  lemma RowsKeptByClaim(s: State, step: Step)
    requires RowsOk(s) && TxnsOk(s) && CallsOk(s) && Enabled(s, step) && OfClaim(step)
    ensures RowsOk(Apply(s, step)) && CallsOk(Apply(s, step))
  {
  }

  lemma RowsKeptByCompletion(s: State, step: Step)
    requires RowsOk(s) && CallsOk(s) && Enabled(s, step) && OfCompletion(step)
    ensures RowsOk(Apply(s, step)) && CallsOk(Apply(s, step))
  {
  }

  lemma RowsKeptOutside(s: State, step: Step)
    requires RowsOk(s) && CallsOk(s) && SlotsOk(s) && Enabled(s, step) && !Transactional(step)
    ensures RowsOk(Apply(s, step)) && CallsOk(Apply(s, step))
  {
  }

  lemma RowsKept(s: State, step: Step)
    requires Inv(s) && Enabled(s, step)
    ensures RowsOk(Apply(s, step)) && CallsOk(Apply(s, step))
  {
    if OfClaim(step) {
      RowsKeptByClaim(s, step);
    } else if OfCompletion(step) {
      RowsKeptByCompletion(s, step);
    } else {
      RowsKeptOutside(s, step);
    }
  }

  lemma LockKept(s: State, step: Step, a: SessionId, b: SessionId)
    requires TxnsOk(s) && LocksOk(s) && Enabled(s, step)
    requires var txns := Apply(s, step).txns; a in txns && b in txns && a != b
    ensures Apart(Apply(s, step).txns[a], Apply(s, step).txns[b])
  {
    if a in s.txns && b in s.txns {
      assert Apart(s.txns[a], s.txns[b]);
    }
  }

  lemma LocksKept(s: State, step: Step)
    requires Inv(s) && Enabled(s, step)
    ensures LocksOk(Apply(s, step))
  {
    var s' := Apply(s, step);
    forall a, b | a in s'.txns && b in s'.txns && a != b ensures Apart(s'.txns[a], s'.txns[b]) {
      LockKept(s, step, a, b);
    }
  }

  lemma SlotKeptByClaim(s: State, step: Step, worker: WorkerId)
    requires RowsOk(s) && TxnsOk(s) && Enabled(s, step) && OfClaim(step)
    requires worker in s.slots ==> SlotOk(s, worker, s.slots[worker])
    requires worker in Apply(s, step).slots
    ensures SlotOk(Apply(s, step), worker, Apply(s, step).slots[worker])
  {
    if step.ClaimCommit? {
      assert TxnOk(s, s.txns[step.sid]);
    }
  }

  lemma SlotKeptByCompletion(s: State, step: Step, worker: WorkerId)
    requires RowsOk(s) && TxnsOk(s) && Enabled(s, step) && OfCompletion(step) && !step.CompleteCommit?
    requires worker in s.slots ==> SlotOk(s, worker, s.slots[worker])
    requires worker in Apply(s, step).slots
    ensures SlotOk(Apply(s, step), worker, Apply(s, step).slots[worker])
  {
  }

  lemma SlotKeptOutside(s: State, step: Step, worker: WorkerId)
    requires RowsOk(s) && TxnsOk(s) && Enabled(s, step) && !Transactional(step)
    requires worker in s.slots ==> SlotOk(s, worker, s.slots[worker])
    requires worker in Apply(s, step).slots
    ensures SlotOk(Apply(s, step), worker, Apply(s, step).slots[worker])
  {
  }

  lemma SlotsKept(s: State, step: Step)
    requires Inv(s) && Enabled(s, step)
    ensures SlotsOk(Apply(s, step))
  {
    var s' := Apply(s, step);
    forall worker | worker in s'.slots ensures SlotOk(s', worker, s'.slots[worker]) {
      if OfClaim(step) {
        SlotKeptByClaim(s, step, worker);
      } else if step.CompleteCommit? {
      } else if OfCompletion(step) {
        SlotKeptByCompletion(s, step, worker);
      } else {
        SlotKeptOutside(s, step, worker);
      }
    }
  }

  lemma ItemKept(s: State, t: Txn)
    requires t.CompleteTxn? && TxnOk(s, t) && t.done < |t.listings| && !t.updated
    ensures TxnOk(s, WithNextItem(s, t))
  {
    OneMoreItem(s.catalog, t.listings, t.done, t.job, t.start);
    OwnWritesKept(s, t);
  }

  lemma OwnWritesKept(s: State, t: Txn)
    requires t.CompleteTxn? && t.done < |t.listings| && OwnWrites(t.listings, t.job, t.start, t.writes)
    ensures OwnWrites(t.listings, t.job, t.start, WithNextItem(s, t).writes)
  {
    var t', item := WithNextItem(s, t), t.listings[t.done];
    forall key, seen | key in t'.writes && seen in t'.writes[key].log
      ensures FromItems(t.listings, t.job, t.start, key, seen)
    {
      if !(key in t.writes && seen in t.writes[key].log) {
        assert item in t.listings && KeyOf(item) == key && ValuesOf(item) == seen.values;
      }
    }
  }

  /** While a transaction is open, only its own statements change its row. */
  lemma LockedRowKept(s: State, step: Step, sid: SessionId)
    requires TxnsOk(s) && LocksOk(s) && Enabled(s, step) && sid in s.txns && sid in Apply(s, step).txns
    ensures var job, s' := s.txns[sid].job, Apply(s, step);
            && job in s.jobs && job in s'.jobs && s'.jobs[job] == s.jobs[job]
            && job in s.epochs && job in s'.epochs && s'.epochs[job] == s.epochs[job]
  {
    var t := s.txns[sid];
    assert TxnOk(s, t) && t.job in Locked(s);
    if step.ClaimCommit? || step.CompleteCommit? {
      assert Apart(t, s.txns[step.sid]);
    }
  }

  lemma TxnKeptByClaim(s: State, step: Step, sid: SessionId)
    requires TxnsOk(s) && LocksOk(s) && Enabled(s, step) && OfClaim(step) && sid in s.txns && sid in Apply(s, step).txns
    ensures TxnOk(Apply(s, step), Apply(s, step).txns[sid])
  {
    assert TxnOk(s, s.txns[sid]);
    LockedRowKept(s, step, sid);
  }

  lemma TxnKeptByCompletion(s: State, step: Step, sid: SessionId)
    requires TxnsOk(s) && LocksOk(s) && Enabled(s, step) && OfCompletion(step)
    requires sid in s.txns && sid in Apply(s, step).txns
    requires !(step.CompleteItem? && step.sid == sid)
    ensures TxnOk(Apply(s, step), Apply(s, step).txns[sid])
  {
    assert TxnOk(s, s.txns[sid]);
    LockedRowKept(s, step, sid);
  }

  lemma TxnKeptOutside(s: State, step: Step, sid: SessionId)
    requires TxnsOk(s) && LocksOk(s) && Enabled(s, step) && !Transactional(step)
    requires sid in s.txns && sid in Apply(s, step).txns
    ensures TxnOk(Apply(s, step), Apply(s, step).txns[sid])
  {
    assert TxnOk(s, s.txns[sid]);
    LockedRowKept(s, step, sid);
  }

  lemma TxnKept(s: State, step: Step, sid: SessionId)
    requires Inv(s) && Enabled(s, step) && sid in s.txns && sid in Apply(s, step).txns
    ensures TxnOk(Apply(s, step), Apply(s, step).txns[sid])
  {
    if step.CompleteItem? && step.sid == sid {
      ItemKept(s, s.txns[sid]);
    } else if OfClaim(step) {
      TxnKeptByClaim(s, step, sid);
    } else if OfCompletion(step) {
      TxnKeptByCompletion(s, step, sid);
    } else {
      TxnKeptOutside(s, step, sid);
    }
  }

  lemma TxnsKept(s: State, step: Step)
    requires Inv(s) && Enabled(s, step)
    ensures TxnsOk(Apply(s, step))
  {
    var s' := Apply(s, step);
    forall sid | sid in s'.txns ensures sid < s'.nextSid && TxnOk(s', s'.txns[sid]) {
      if sid in s.txns {
        TxnKept(s, step, sid);
      }
    }
  }

  // ---------------------------------------------- views under other sessions

  /** A change of other products shows through: the writes are still what the
      listings make of the committed rows. */
  lemma ViewElsewhere(before: Catalog, after: Catalog, writes: Catalog, items: seq<Listing>, job: JobId, at: Time)
    requires writes.Keys == Touched(items)
    requires forall key | key in Touched(items) :: Get(before, key) == Get(after, key)
    requires Merged(before, writes) == ApplyItems(before, items, job, at)
    ensures Merged(after, writes) == ApplyItems(after, items, job, at)
  {
    ApplyItemsFrame(before, after, items, job, at);
    ApplyItemsFrame(after, before, items, job, at);
    var merged, applied := Merged(after, writes), ApplyItems(after, items, job, at);
    forall key ensures Get(merged, key) == Get(applied, key) {
      if key in Touched(items) {
        assert Get(Merged(before, writes), key) == Get(merged, key);
      }
    }
    SameCatalog(merged, applied);
  }

  /** Another session's commit writes none of the products this one has locked,
      so this one's writes are still what its items make of the committed rows. */
  lemma CommitElsewhere(s: State, mine: Txn, other: Txn)
    requires mine.CompleteTxn? && other.CompleteTxn? && TxnOk(s, mine) && ViewOk(s, mine) && Apart(mine, other)
    ensures Merged(View(s, other), mine.writes)
            == ApplyItems(View(s, other), mine.listings[..mine.done], mine.job, mine.start)
  {
    var items := mine.listings[..mine.done];
    forall key | key in Touched(items) ensures Get(s.catalog, key) == Get(View(s, other), key) {
      assert key !in other.writes.Keys;
    }
    ViewElsewhere(s.catalog, View(s, other), mine.writes, items, mine.job, mine.start);
  }

  /** So they are after a prune that has not reached into the day before the transaction. */
  lemma PruneUnderneath(s: State, t: Txn, from: Time)
    requires t.CompleteTxn? && TxnOk(s, t) && ViewOk(s, t) && from <= t.start - DAY + 1
    ensures Merged(Pruned(s.catalog, from), t.writes)
            == ApplyItems(Pruned(s.catalog, from), t.listings[..t.done], t.job, t.start)
  {
    forall key, x | key in t.writes && x in t.writes[key].log ensures x.at >= from {
      assert FromItems(t.listings, t.job, t.start, key, x);
    }
    PruneShowsThrough(s.catalog, t.writes, from);
    PruneThenApply(s.catalog, t.listings[..t.done], t.job, t.start, from);
  }

  lemma ViewKeptByItem(s: State, sid: SessionId)
    requires Enabled(s, CompleteItem(sid)) && ViewOk(s, s.txns[sid])
    requires s.txns[sid].done <= |s.txns[sid].listings|
    ensures ViewsOkAt(Apply(s, CompleteItem(sid)), sid)
  {
    var t := s.txns[sid];
    OneMoreItem(s.catalog, t.listings, t.done, t.job, t.start);
    ItemShowsThrough(s.catalog, t.writes, t.listings[t.done], t.job, t.start);
  }

  lemma ViewKeptByCommit(s: State, done: SessionId, sid: SessionId)
    requires Enabled(s, CompleteCommit(done)) && CompletingIn(s, sid) && Apart(s.txns[sid], s.txns[done])
    requires sid != done && TxnOk(s, s.txns[sid]) && ViewOk(s, s.txns[sid])
    ensures ViewsOkAt(Apply(s, CompleteCommit(done)), sid)
  {
    CommitElsewhere(s, s.txns[sid], s.txns[done]);
  }

  lemma ViewKeptByPrune(s: State, at: Time, days: int, sid: SessionId)
    requires Enabled(s, Prune(at, days)) && CompletingIn(s, sid) && TxnOk(s, s.txns[sid]) && ViewOk(s, s.txns[sid])
    requires InTime(Apply(s, Prune(at, days)), s.txns[sid])
    ensures ViewsOkAt(Apply(s, Prune(at, days)), sid)
  {
    PruneUnderneath(s, s.txns[sid], at - days * DAY);
  }

  lemma ViewUntouched(s: State, step: Step, sid: SessionId)
    requires Enabled(s, step) && !step.CompleteCommit? && !(step.CompleteItem? && step.sid == sid) && !step.Prune?
    requires CompletingIn(s, sid) && CompletingIn(Apply(s, step), sid) && sid < s.nextSid
    requires ViewsOkAt(s, sid)
    ensures ViewsOkAt(Apply(s, step), sid)
  {
  }

  lemma ViewKept(s: State, step: Step, sid: SessionId)
    requires Enabled(s, step) && CompletingIn(s, sid) && CompletingIn(Apply(s, step), sid)
    requires step.CompleteCommit? ==> Apart(s.txns[sid], s.txns[step.sid])
    requires sid < s.nextSid && TxnOk(s, s.txns[sid]) && ViewOk(s, s.txns[sid])
    requires InTime(Apply(s, step), s.txns[sid])
    ensures ViewsOkAt(Apply(s, step), sid)
  {
    if step.CompleteCommit? {
      ViewKeptByCommit(s, step.sid, sid);
    } else if step.CompleteItem? && step.sid == sid {
      ViewKeptByItem(s, sid);
    } else if step.Prune? {
      ViewKeptByPrune(s, step.at, step.days, sid);
    } else {
      ViewUntouched(s, step, sid);
    }
  }

  /** A session keeps its start, and the cut only moves forward. */
  lemma CutMovesOn(s: State, step: Step, sid: SessionId)
    requires TxnsOk(s) && Enabled(s, step) && CompletingIn(s, sid) && CompletingIn(Apply(s, step), sid)
    ensures Apply(s, step).txns[sid].start == s.txns[sid].start
    ensures InTime(Apply(s, step), Apply(s, step).txns[sid]) ==> InTime(s, s.txns[sid])
  {
  }

  lemma ViewsKept(s: State, step: Step)
    requires Inv(s) && Enabled(s, step)
    ensures ViewsOk(Apply(s, step))
  {
    var s' := Apply(s, step);
    forall sid | CompletingIn(s', sid) && InTime(s', s'.txns[sid]) ensures ViewsOkAt(s', sid) {
      if CompletingIn(s, sid) {
        CutMovesOn(s, step, sid);
        assert step.CompleteCommit? ==> Apart(s.txns[sid], s.txns[step.sid]);
        ViewKept(s, step, sid);
      } else {
        NothingChanged(s.catalog);
        assert s'.txns[sid].listings[..0] == [];
      }
    }
  }

  lemma OriginsAfterCommit(s: State, sid: SessionId)
    requires Inv(s) && Enabled(s, CompleteCommit(sid))
    ensures OriginsOk(Apply(s, CompleteCommit(sid)))
  {
    var s', t := Apply(s, CompleteCommit(sid)), s.txns[sid];
    assert TxnOk(s, t);
    forall key, seen | key in s'.catalog && seen in s'.catalog[key].log
      ensures FromCommit(s'.jobs, key, seen) && seen.at <= s'.now
    {
      if key in s.catalog && seen in s.catalog[key].log {
        assert FromCommit(s.jobs, key, seen);
      } else {
        assert FromItems(t.listings, t.job, t.start, key, seen);
      }
    }
  }

  lemma NothingAdded(s: State, step: Step, key: Key, seen: Observation)
    requires Enabled(s, step) && !step.CompleteCommit?
    requires key in Apply(s, step).catalog && seen in Apply(s, step).catalog[key].log
    ensures key in s.catalog && seen in s.catalog[key].log
  {
    if step.Prune? {
      SinceMembers(s.catalog[key].log, step.at - step.days * DAY);
    }
  }

  lemma OriginsKept(s: State, step: Step)
    requires Inv(s) && Enabled(s, step) && !step.CompleteCommit?
    ensures OriginsOk(Apply(s, step))
  {
    var s' := Apply(s, step);
    forall key, seen | key in s'.catalog && seen in s'.catalog[key].log
      ensures FromCommit(s'.jobs, key, seen) && seen.at <= s'.now
    {
      NothingAdded(s, step, key, seen);
      assert FromCommit(s.jobs, key, seen);
    }
  }

  lemma InvKept(s: State, step: Step)
    requires Inv(s) && Enabled(s, step)
    ensures Inv(Apply(s, step))
  {
    RowsKept(s, step);
    TxnsKept(s, step);
    LocksKept(s, step);
    SlotsKept(s, step);
    ViewsKept(s, step);
    if step.CompleteCommit? { OriginsAfterCommit(s, step.sid); } else { OriginsKept(s, step); }
  }
}
