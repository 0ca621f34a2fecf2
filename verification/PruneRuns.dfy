/** The retention in every run of the job queue: how long a completion may stay open
    for its operations to stay serial beside the prunes. */
module PruneRuns {
  import opened Common
  import opened Jobs
  import opened Catalogs
  import opened Histories
  import opened Stores
  import opened Queue
  import opened QueueRuns
  import opened QueueWitnesses

  /** Prunes have this retention, and no prune before a completion's commit is later
      than `lag` after its start. */
  predicate Punctual(s: State, step: Step, days: int, lag: int) {
    && (step.Prune? ==> step.days == days)
    && (step.CompleteCommit? && CompletingIn(s, step.sid) && s.cut.Some? ==>
          s.cut.value + days * DAY <= s.txns[step.sid].start + lag)
  }

  ghost predicate PunctualRun(states: seq<State>, steps: seq<Step>, days: int, lag: int)
    requires |steps| <= |states|
  {
    forall i {:trigger Punctual(states[i], steps[i], days, lag)} | 0 <= i < |steps| ::
      Punctual(states[i], steps[i], days, lag)
  }

  /** The tables are at every moment as if the operations had run one after the other. */
  ghost predicate Serial(states: seq<State>, steps: seq<Step>)
    requires |steps| <= |states|
  {
    forall n {:trigger SerialAt(states, steps, n)} | 0 <= n <= |steps| && n < |states| :: SerialAt(states, steps, n)
  }

  ghost predicate SerialAt(states: seq<State>, steps: seq<Step>, n: nat)
    requires n <= |steps| <= |states| && n < |states|
  {
    DbOf(states[n]) == PerformAll(Db(map[], map[]), OpsOf(states, steps, n))
  }

  ghost predicate AlwaysSerial(days: int, lag: int) {
    forall states: seq<State>, steps: seq<Step> | Run(states, steps) && PunctualRun(states, steps, days, lag) ::
      Serial(states, steps)
  }

  /** The exact rule over runs: whatever the workers do, prunes included, leaves the
      tables as if the operations had run one after the other if and only if no prune
      before a completion's commit is later than the retention, less a day, after the
      completion's start. */
  lemma SerialExactly(days: int, lag: int)
    requires lag >= 0
    ensures AlwaysSerial(days, lag) <==> lag < (days - 1) * DAY + 2
  {
    if lag < (days - 1) * DAY + 2 {
      forall states: seq<State>, steps: seq<Step> | Run(states, steps) && PunctualRun(states, steps, days, lag)
        ensures Serial(states, steps)
      {
        PunctualIsSerial(states, steps, days, lag);
      }
    } else {
      SlowIsNotSerial(days, lag);
    }
  }

  lemma PunctualIsSerial(states: seq<State>, steps: seq<Step>, days: int, lag: int)
    requires Run(states, steps) && PunctualRun(states, steps, days, lag) && lag < (days - 1) * DAY + 2
    ensures Serial(states, steps)
  {
    forall n {:trigger SerialAt(states, steps, n)} | 0 <= n <= |steps| ensures SerialAt(states, steps, n) {
      forall i {:trigger CommitsInTime(states[i], steps[i])} | 0 <= i < n ensures CommitsInTime(states[i], steps[i]) {
        assert Punctual(states[i], steps[i], days, lag);
      }
      RunIsSerial(states, steps, n);
    }
  }

  // ------------------------------------- a completion that commits too late

  /** W has completed its job at time 0. */
  const DONE := BOTH.(
    jobs := map[0 := Completed(Claimed(ROW, W, 0), W, [CARD], 0), 1 := Claimed(ROW, W2, 0)],
    catalog := map[K := Stored(None, CARD, 0, 0)], nextSid := 3,
    slots := map[W := Idle, W2 := Working(1, 1)])

  /** Almost a day later W2 sees the same product with the same values, and adds nothing. */
  const AGAIN := CompleteTxn(1, W2, DAY - 1, 1, [CARD], 0, map[], false)
  const REPEATED := AGAIN.(done := 1, writes := map[K := Stored(None, CARD, 1, DAY - 1).(log := [])])

  const ONCE := ONE.(done := 1, writes := map[K := Stored(None, CARD, 0, 0)])

  const BEGUN := BOTH.(txns := map[2 := ONE], nextSid := 3, slots := map[W := Completing(0, 1, 2), W2 := Working(1, 1)])

  function Slow(now: Time, t: Txn): State {
    DONE.(now := now, txns := map[3 := t], nextSid := 4, slots := map[W := Idle, W2 := Completing(1, 1, 3)])
  }

  lemma ReachBegun()
    ensures Reachable(BEGUN)
  {
    ReachBoth();
    var s := Onward(BOTH, CompleteBegin(W, [CARD], 0));
    assert s == BEGUN;
  }

  lemma ReachOnce()
    ensures Reachable(BEGUN.(txns := map[2 := ONCE]))
  {
    ReachBegun();
    NothingChanged(BEGUN.catalog);
    assert WithNextItem(BEGUN, ONE) == ONCE by { assert [] + [FIRST] == [FIRST]; }
    var s := Onward(BEGUN, CompleteItem(2));
    assert s.txns == map[2 := ONCE];
  }

  lemma ReachUpdated()
    ensures Reachable(BEGUN.(txns := map[2 := ONCE.(updated := true)]))
  {
    ReachOnce();
    var s := Onward(BEGUN.(txns := map[2 := ONCE]), CompleteUpdate(2));
    assert s.txns == map[2 := ONCE.(updated := true)];
  }

  lemma ReachDone()
    ensures Reachable(DONE)
  {
    ReachUpdated();
    OnceShows();
    var s := Onward(BEGUN.(txns := map[2 := ONCE.(updated := true)]), CompleteCommit(2));
    assert s.txns == map[] && s.jobs == DONE.jobs;
  }

  lemma OnceShows()
    ensures Merged(map[], ONCE.writes) == DONE.catalog
  {
  }

  lemma ReachAgain()
    ensures Reachable(Slow(DAY - 1, AGAIN))
  {
    ReachDone();
    var s := Onward(DONE, Tick(DAY - 1));
    s := Onward(s, CompleteBegin(W2, [CARD], DAY - 1));
    assert s == Slow(DAY - 1, AGAIN);
  }

  lemma ReachRepeated()
    ensures Reachable(Slow(DAY - 1, REPEATED))
  {
    ReachAgain();
    var s := Slow(DAY - 1, AGAIN);
    LogOfFirst();
    NothingChanged(s.catalog);
    LatestAppend([], FIRST);
    assert [] + [FIRST] == [FIRST];
    assert WithNextItem(s, AGAIN) == REPEATED;
    s := Onward(s, CompleteItem(3));
    assert s.txns == map[3 := REPEATED];
  }

  lemma LogOfFirst()
    ensures Stored(None, CARD, 0, 0).log == [FIRST]
  {
    assert [] + [FIRST] == [FIRST];
  }

  lemma ReachSlow(now: Time)
    requires now >= DAY - 1
    ensures Reachable(Slow(now, REPEATED.(updated := true)))
  {
    ReachRepeated();
    var s := Onward(Slow(DAY - 1, REPEATED), CompleteUpdate(3));
    assert s.txns == map[3 := REPEATED.(updated := true)];
    s := Onward(s, Tick(now));
  }

  lemma CutStays(s: State, step: Step)
    requires Enabled(s, step) && Apply(s, step).cut.None?
    ensures s.cut.None? && !step.Prune?
  {
  }

  /** As long as nothing has been pruned, a run is punctual. */
  lemma {:induction false} NoCutYet(states: seq<State>, steps: seq<Step>, i: nat)
    requires Run(states, steps) && states[|steps|].cut.None? && i <= |steps|
    ensures states[i].cut.None? && (i < |steps| ==> !steps[i].Prune?)
    decreases |steps| - i
  {
    if i < |steps| {
      NoCutYet(states, steps, i + 1);
      assert TakenAt(states, steps, i);
      CutStays(states[i], steps[i]);
    }
  }

  lemma PunctualSoFar(states: seq<State>, steps: seq<Step>, days: int, lag: int)
    requires Run(states, steps) && states[|steps|].cut.None?
    ensures PunctualRun(states, steps, days, lag)
  {
    forall i {:trigger Punctual(states[i], steps[i], days, lag)} | 0 <= i < |steps|
      ensures Punctual(states[i], steps[i], days, lag)
    {
      NoCutYet(states, steps, i);
    }
  }

  /** W2's completion beside the prune that deletes the entry it repeats. */
  function Late(now: Time, days: int): State {
    Slow(now, REPEATED.(updated := true)).(
      catalog := map[K := Stored(None, CARD, 0, 0).(log := [])], cut := Some(now - days * DAY))
  }

  lemma PrunedFirst(from: Time)
    requires from > 0
    ensures Pruned(DONE.catalog, from) == map[K := Stored(None, CARD, 0, 0).(log := [])]
  {
    LogOfFirst();
    OnlyEarlier(FIRST, from);
  }

  lemma OnlyEarlier(entry: Observation, from: Time)
    requires entry.at < from
    ensures Since([entry], from) == []
  {
  }

  lemma PruneTakesIt(now: Time, days: int)
    requires now - days * DAY > 0
    ensures var s := Slow(now, REPEATED.(updated := true));
            Enabled(s, Prune(now, days)) && Apply(s, Prune(now, days)) == Late(now, days)
  {
    PrunedFirst(now - days * DAY);
  }

  /** The observation that W2 has left out is missing now, and is stored by a whole
      operation at this moment. */
  lemma CommitIsTooLate(now: Time, days: int)
    ensures var s := Late(now, days);
            && Enabled(s, CompleteCommit(3))
            && DbOf(Apply(s, CompleteCommit(3))) != Perform(DbOf(s), OpOf(s, CompleteCommit(3)))
  {
    var s := Late(now, days);
    LateLog(s.catalog);
    assert DbOf(Apply(s, CompleteCommit(3))).catalog == Merged(s.catalog, REPEATED.writes);
    assert Perform(DbOf(s), OpOf(s, CompleteCommit(3))).catalog == ApplyItems(s.catalog, [CARD], 1, DAY - 1);
  }

  lemma LateLog(catalog: Catalog)
    requires K in catalog && catalog[K].log == []
    ensures Merged(catalog, REPEATED.writes) != ApplyItems(catalog, [CARD], 1, DAY - 1)
  {
    assert [CARD][..0] == [];
    assert LogOf(Merged(catalog, REPEATED.writes), K) == [];
    assert LogOf(ApplyItems(catalog, [CARD], 1, DAY - 1), K) == [] + [Observation(1, DAY - 1, ValuesOf(CARD))];
  }

  lemma LastIsSerial(states: seq<State>, steps: seq<Step>, n: nat)
    requires n < |steps| < |states| && Serial(states, steps)
    ensures DbOf(states[n + 1]) == Perform(DbOf(states[n]), OpOf(states[n], steps[n]))
  {
    assert SerialAt(states, steps, n) && SerialAt(states, steps, n + 1);
    assert OpsOf(states, steps, n + 1)[..n] == OpsOf(states, steps, n);
  }

  lemma OneMoreStep(states: seq<State>, steps: seq<Step>, step: Step, days: int, lag: int)
    returns (longer: seq<State>, more: seq<Step>)
    requires Run(states, steps) && PunctualRun(states, steps, days, lag)
    requires Enabled(states[|steps|], step) && Punctual(states[|steps|], step, days, lag)
    ensures longer == states + [Apply(states[|steps|], step)] && more == steps + [step]
    ensures Run(longer, more) && PunctualRun(longer, more, days, lag)
  {
    longer, more := states + [Apply(states[|steps|], step)], steps + [step];
    forall i {:trigger TakenAt(longer, more, i)} | 0 <= i < |more| ensures TakenAt(longer, more, i) {
      assert i < |steps| ==> TakenAt(states, steps, i);
    }
    forall i {:trigger Punctual(longer[i], more[i], days, lag)} | 0 <= i < |more|
      ensures Punctual(longer[i], more[i], days, lag)
    {
      assert i < |steps| ==> Punctual(states[i], steps[i], days, lag);
    }
  }

  lemma SlowIsNotSerial(days: int, lag: int)
    requires lag >= 0 && lag >= (days - 1) * DAY + 2
    ensures !AlwaysSerial(days, lag)
  {
    var now := DAY - 1 + lag;
    ReachSlow(now);
    PruneTakesIt(now, days);
    CommitIsTooLate(now, days);
    var states, steps :| Run(states, steps) && states[|steps|] == Slow(now, REPEATED.(updated := true));
    PunctualSoFar(states, steps, days, lag);
    var states1, steps1 := OneMoreStep(states, steps, Prune(now, days), days, lag);
    var states2, steps2 := OneMoreStep(states1, steps1, CompleteCommit(3), days, lag);
    if Serial(states2, steps2) {
      LastIsSerial(states2, steps2, |steps| + 1);
    }
  }
}
