/** Concrete runs of the job queue that show which hypotheses its guarantees need. */
module QueueWitnesses {
  import opened Common
  import opened Jobs
  import opened Catalogs
  import opened Histories
  import opened Queue
  import opened QueueRuns

  ghost predicate Reachable(s: State) {
    exists states, steps :: Run(states, steps) && states[|steps|] == s
  }

  lemma Start()
    ensures Reachable(INIT)
  {
    assert Run([INIT], []);
  }

  lemma Onward(s: State, step: Step) returns (s': State)
    requires Reachable(s) && Enabled(s, step)
    ensures Reachable(s') && s' == Apply(s, step)
  {
    s' := Apply(s, step);
    var states, steps :| Run(states, steps) && states[|steps|] == s;
    var longer, more := states + [s'], steps + [step];
    forall i {:trigger TakenAt(longer, more, i)} | 0 <= i < |more| ensures TakenAt(longer, more, i) {
      assert i < |steps| ==> TakenAt(states, steps, i);
    }
    assert Run(longer, more);
  }

  const W := "worker/1"
  const AGE := 90_000_000
  const REPORT := FailCall(0, W, 1, "no listings extracted")
  const REQUEST := SearchRequest("aliexpress", "esp32", 20, "key")
  const ROW := NewRow(REQUEST, 0)

  /** Job 0 runs under the first claim of W. */
  const RUNNING := INIT.(
    jobs := map[0 := Claimed(ROW, W, 0)], epochs := map[0 := 1], nextSid := 1, slots := map[W := Working(0, 1)])

  /** W gave up waiting for its failure report and the job has gone stale. */
  const STALE := RUNNING.(
    now := AGE + 1,
    jobs := map[0 := ROW.(error := Some(REQUEUE_ERROR))], slots := map[W := Idle], failCalls := {REPORT})

  lemma ReachRunning()
    ensures Reachable(RUNNING)
  {
    Start();
    var s := Onward(INIT, Create(0, REQUEST));
    assert s == INIT.(jobs := map[0 := ROW], epochs := map[0 := 0]);
    s := Onward(s, ClaimSelect(W, 0, 0));
    s := Onward(s, ClaimCommit(0));
    assert s.txns == map[] && s.jobs == RUNNING.jobs;
  }

  lemma ReachStale()
    ensures Reachable(STALE)
  {
    ReachRunning();
    var s := Onward(RUNNING, SendFail(W, REPORT.text));
    s := Onward(s, Abandon(W));
    s := Onward(s, Tick(AGE + 1));
    s := Onward(s, Requeue(0, AGE + 1, AGE));
    assert s == STALE;
  }

  /** A worker loses the answer to its failure report, the job goes stale, the
      same claim id takes it again, and then the old report arrives. */
  lemma LateFailureHitsNewClaim() returns (s: State, call: FailCall)
    ensures Reachable(s) && Enabled(s, DeliverFail(call, s.now))
    ensures call.job in s.epochs && call.epoch < s.epochs[call.job]
    ensures Owned(s.jobs[call.job], call.worker)
    ensures Apply(s, DeliverFail(call, s.now)).jobs[call.job].status == Failed
  {
    call := REPORT;
    ReachStale();
    assert !Quiet(STALE, ClaimSelect(W, 0, STALE.now));
    s := Onward(STALE, ClaimSelect(W, 0, STALE.now));
    s := Onward(s, ClaimCommit(1));
    assert s.txns == map[] && Locked(s) == {};
  }

  // ------------------------------------------------ overlapping completions

  const W2 := "worker/2"
  const CARD := Listing("aliexpress", "1005", "ESP32", "https://www.aliexpress.com/item/1005.html", "", "",
                        Some(999), None, None, "USD", Some(true), None, None, None, None)
  const K := KeyOf(CARD)
  const FIRST := Observation(0, 0, ValuesOf(CARD))
  const SECOND := Observation(1, 1, ValuesOf(CARD))

  /** Two workers, one job each. */
  const BOTH := INIT.(
    jobs := map[0 := Claimed(ROW, W, 0), 1 := Claimed(ROW, W2, 0)], epochs := map[0 := 1, 1 := 1], nextSid := 2,
    slots := map[W := Working(0, 1), W2 := Working(1, 1)])

  const ONE := CompleteTxn(0, W, 0, 1, [CARD], 0, map[], false)
  const TWO := CompleteTxn(1, W2, 1, 1, [CARD], 0, map[], false)

  /** Both have begun to complete, W first. */
  const OVERLAP := BOTH.(
    now := 1, txns := map[2 := ONE, 3 := TWO], nextSid := 4,
    slots := map[W := Completing(0, 1, 2), W2 := Completing(1, 1, 3)])

  const TWO_WRITTEN := TWO.(done := 1, writes := map[K := Stored(None, CARD, 1, 1)])

  /** W2 has written its listing and its job row. */
  const WRITTEN := OVERLAP.(txns := map[2 := ONE, 3 := TWO_WRITTEN.(updated := true)])

  /** W2 has committed first. */
  const OVERTAKEN := OVERLAP.(
    jobs := map[0 := Claimed(ROW, W, 0), 1 := Completed(Claimed(ROW, W2, 0), W2, [CARD], 1)],
    catalog := map[K := Stored(None, CARD, 1, 1)],
    txns := map[2 := ONE],
    slots := map[W := Completing(0, 1, 2), W2 := Idle])

  lemma ReachBoth()
    ensures Reachable(BOTH)
  {
    Start();
    var s := Onward(INIT, Create(0, REQUEST));
    s := Onward(s, Create(1, REQUEST));
    assert s == INIT.(jobs := map[0 := ROW, 1 := ROW], epochs := map[0 := 0, 1 := 0]);
    s := Onward(s, ClaimSelect(W, 0, 0));
    s := Onward(s, ClaimCommit(0));
    ReachBothRest(s);
  }

  lemma ReachBothRest(s: State)
    requires Reachable(s)
    requires s == INIT.(jobs := map[0 := Claimed(ROW, W, 0), 1 := ROW], epochs := map[0 := 1, 1 := 0], nextSid := 1,
                        slots := map[W := Working(0, 1)])
    ensures Reachable(BOTH)
  {
    var s := Onward(s, ClaimSelect(W2, 1, 0));
    s := Onward(s, ClaimCommit(1));
    assert s.txns == map[] && s.jobs == BOTH.jobs && s.epochs == BOTH.epochs && s.slots == BOTH.slots;
  }

  lemma ReachOverlap()
    ensures Reachable(OVERLAP)
  {
    ReachBoth();
    var s := Onward(BOTH, CompleteBegin(W, [CARD], 0));
    s := Onward(s, Tick(1));
    s := Onward(s, CompleteBegin(W2, [CARD], 1));
    assert s == OVERLAP;
  }

  lemma ReachItem()
    ensures Reachable(OVERLAP.(txns := map[2 := ONE, 3 := TWO_WRITTEN]))
  {
    ReachOverlap();
    NothingChanged(OVERLAP.catalog);
    assert WithNextItem(OVERLAP, TWO) == TWO_WRITTEN by { assert [] + [SECOND] == [SECOND]; }
    var s := Onward(OVERLAP, CompleteItem(3));
    assert s.txns == map[2 := ONE, 3 := TWO_WRITTEN];
  }

  lemma ReachWritten()
    ensures Reachable(WRITTEN)
  {
    ReachItem();
    var s := Onward(OVERLAP.(txns := map[2 := ONE, 3 := TWO_WRITTEN]), CompleteUpdate(3));
    assert s.txns == WRITTEN.txns;
  }

  lemma ReachOvertaken()
    ensures Reachable(OVERTAKEN)
  {
    ReachWritten();
    var s := Onward(WRITTEN, CompleteCommit(3));
    assert s.catalog == OVERTAKEN.catalog && s.txns == OVERTAKEN.txns;
    assert s == OVERTAKEN;
  }

  /** W finds the entry of W2 and adds none. */
  const ONE_WRITTEN := ONE.(done := 1, writes := map[K := Stored(None, CARD, 0, 0).(log := [])])

  lemma LateWrite()
    ensures WithNextItem(OVERTAKEN, ONE) == ONE_WRITTEN
  {
    NothingChanged(OVERTAKEN.catalog);
    LatestAppend([], SECOND);
    assert Stored(None, CARD, 1, 1).log == [SECOND] by { assert [] + [SECOND] == [SECOND]; }
    assert Repeats([SECOND], FIRST) by { assert [] + [SECOND] == [SECOND]; }
  }

  lemma ReachLateItem()
    ensures Reachable(OVERTAKEN.(txns := map[2 := ONE_WRITTEN]))
  {
    ReachOvertaken();
    LateWrite();
    var s := Onward(OVERTAKEN, CompleteItem(2));
    assert s.txns == map[2 := ONE_WRITTEN];
  }

  const LATE := OVERTAKEN.(txns := map[2 := ONE_WRITTEN.(updated := true)])

  lemma ReachLate()
    ensures Reachable(LATE)
  {
    ReachLateItem();
    var s := Onward(OVERTAKEN.(txns := map[2 := ONE_WRITTEN]), CompleteUpdate(2));
    assert s.txns == LATE.txns;
  }

  lemma LogHidesFirst()
    ensures Stored(None, CARD, 1, 1).log == [SECOND] && !Covers([SECOND], FIRST)
  {
    LatestAppend([], SECOND);
    UpToAppend([], SECOND, 0);
    assert [] + [SECOND] == [SECOND];
  }

  /** Two completions that overlap can commit in the other order than they began.
      The earlier one then finds a younger entry with its values, stores nothing,
      and the history never shows what its job saw. */
  lemma OverlapHidesObservation() returns (s: State)
    ensures Reachable(s)
    ensures 0 in s.jobs && s.jobs[0].status == Complete && s.jobs[0].result == Some([CARD])
            && s.jobs[0].finishedAt == Some(FIRST.at) && Usable(CARD)
    ensures K in s.catalog && !Covers(s.catalog[K].log, FIRST)
  {
    ReachLate();
    s := Onward(LATE, CompleteCommit(2));
    LogHidesFirst();
    assert s.catalog[K].log == [SECOND] + [] == [SECOND];
  }
}
