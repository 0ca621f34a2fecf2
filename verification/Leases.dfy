/** How long a claim survives: the heartbeat that renews it against the
    maintenance query that takes stale claims back. */
module Leases {
  import opened Common
  import opened Jobs
  import opened Stores

  /** One tick of the heartbeat: whether the refresh got through, and how long
      after its nominal time the database executed it. */
  datatype Beat = Beat(ok: bool, late: int)

  /** The k-th refresh of a claim made at `start`. */
  function BeatTime(start: Time, interval: int, beats: seq<Beat>, k: nat): Time
    requires k < |beats|
  {
    start + (k + 1) * interval + beats[k].late
  }

  /** The row at time `now`, when only the heartbeat touches it. */
  function RowAt(row: Row, worker: WorkerId, start: Time, interval: int, beats: seq<Beat>, now: Time): Row {
    if beats == [] then row
    else
      var k := |beats| - 1;
      var earlier := RowAt(row, worker, start, interval, beats[..k], now);
      var time := BeatTime(start, interval, beats, k);
      if beats[k].ok && time <= now then Refreshed(earlier, worker, time) else earlier
  }

  /** The claim is as fresh as the last refresh that the database has executed: it shows
      the time of its execution, and not when it was due. */
  lemma {:induction false} ShowsLastExecuted(
      row: Row, worker: WorkerId, start: Time, interval: int, beats: seq<Beat>, now: Time, k: nat)
    requires Owned(row, worker) && row.claimedAt == Some(start) && k < |beats|
    requires beats[k].ok && start + (k + 1) * interval + beats[k].late <= now
    requires forall j | k < j < |beats| :: beats[j].ok ==> now < start + (j + 1) * interval + beats[j].late
    ensures var r := RowAt(row, worker, start, interval, beats, now);
            Owned(r, worker) && r.claimedAt == Some(start + (k + 1) * interval + beats[k].late)
  {
    var n := |beats| - 1;
    RowAtRuns(row, worker, start, interval, beats[..n], now);
    if k < n {
      ShowsLastExecuted(row, worker, start, interval, beats[..n], now, k);
    }
  }

  ghost predicate Prompt(beats: seq<Beat>, delay: int) {
    forall k | 0 <= k < |beats| :: 0 <= beats[k].late <= delay
  }

  /** How many refreshes in a row have failed by the end. */
  function Streak(beats: seq<Beat>): nat {
    if beats == [] || beats[|beats| - 1].ok then 0 else 1 + Streak(beats[..|beats| - 1])
  }

  ghost predicate NeverMoreFailures(beats: seq<Beat>, failures: nat) {
    forall n | 0 <= n <= |beats| :: Streak(beats[..n]) <= failures
  }

  lemma {:induction false} StreakIsTrailing(beats: seq<Beat>)
    ensures Streak(beats) <= |beats|
    ensures forall k | |beats| - Streak(beats) <= k < |beats| :: !beats[k].ok
    ensures Streak(beats) < |beats| ==> beats[|beats| - Streak(beats) - 1].ok
  {
    if beats != [] && !beats[|beats| - 1].ok {
      StreakIsTrailing(beats[..|beats| - 1]);
    }
  }

  /** Among the beats from k on, up to one more than `failures`, one gets through. */
  predicate OneGetsThrough(beats: seq<Beat>, k: nat, failures: nat) {
    k + failures < |beats| ==> exists n | k <= n <= k + failures :: beats[n].ok
  }

  /** What the schedules of the lease rule are: of any failures + 1 refreshes in a row
      one gets through. */
  lemma NeverMoreMeans(beats: seq<Beat>, failures: nat)
    ensures NeverMoreFailures(beats, failures) <==> forall k: nat :: OneGetsThrough(beats, k, failures)
  {
    if NeverMoreFailures(beats, failures) {
      forall k: nat ensures OneGetsThrough(beats, k, failures) {
        if k + failures < |beats| {
          var front := beats[..k + failures + 1];
          StreakIsTrailing(front);
          assert Streak(front) <= failures;
          assert front[|front| - Streak(front) - 1].ok;
        }
      }
    } else {
      var n :| 0 <= n <= |beats| && Streak(beats[..n]) > failures;
      StreakIsTrailing(beats[..n]);
      var k := n - failures - 1;
      forall i | k <= i <= k + failures ensures !beats[i].ok {
        assert beats[..n][i] == beats[i];
      }
      assert !OneGetsThrough(beats, k, failures);
    }
  }

  /** The lease is not taken back at `now` from a row that was claimed at `start`. */
  predicate Kept(queued: Row, worker: WorkerId, start: Time, interval: int, beats: seq<Beat>, age: int, now: Time) {
    !Stale(RowAt(Claimed(queued, worker, start), worker, start, interval, beats, now), now, age)
  }

  /** No schedule with at most that many failures in a row loses its lease while
      the next beat is not overdue. */
  ghost predicate LeaseSafe(interval: int, delay: int, age: int, failures: nat) {
    forall queued, worker, start, beats, now ::
      Prompt(beats, delay) && NeverMoreFailures(beats, failures)
      && start <= now <= start + (|beats| + 1) * interval + delay
      ==> Kept(queued, worker, start, interval, beats, age, now)
  }

  lemma {:induction false} RowAtRuns(
      row: Row, worker: WorkerId, start: Time, interval: int, beats: seq<Beat>, now: Time)
    requires Owned(row, worker) && row.claimedAt == Some(start)
    ensures var r := RowAt(row, worker, start, interval, beats, now);
            Owned(r, worker) && r.claimedAt.Some?
  {
    if beats != [] {
      RowAtRuns(row, worker, start, interval, beats[..|beats| - 1], now);
    }
  }

  /** Once all beats are due, the claim is as fresh as the last one that got through. */
  lemma {:induction false} FreshAsLastBeat(
      row: Row, worker: WorkerId, start: Time, interval: int, delay: int, beats: seq<Beat>, now: Time)
    requires Owned(row, worker) && row.claimedAt == Some(start)
    requires Prompt(beats, delay) && interval > 0 && now >= start + |beats| * interval + delay
    ensures var r := RowAt(row, worker, start, interval, beats, now);
            r.claimedAt.Some? && Streak(beats) <= |beats|
            && r.claimedAt.value >= start + (|beats| - Streak(beats)) * interval
  {
    RowAtRuns(row, worker, start, interval, beats, now);
    if beats != [] {
      var k := |beats| - 1;
      assert Prompt(beats[..k], delay);
      assert (k + 1) * interval == k * interval + interval;
      RowAtRuns(row, worker, start, interval, beats[..k], now);
      FreshAsLastBeat(row, worker, start, interval, delay, beats[..k], now);
    }
  }

  lemma Spread(a: int, b: int, c: int)
    requires a <= b && c > 0
    ensures a * c <= b * c && (a + 1) * c == a * c + c
  {
  }

  lemma {:induction false} LeaseHolds(
      queued: Row, worker: WorkerId, start: Time, interval: int, delay: int, beats: seq<Beat>, age: int, failures: nat,
      now: Time)
    requires interval > 0 && delay >= 0 && (failures + 1) * interval + delay <= age
    requires Prompt(beats, delay) && NeverMoreFailures(beats, failures)
    requires start <= now <= start + (|beats| + 1) * interval + delay
    ensures Kept(queued, worker, start, interval, beats, age, now)
  {
    var row := Claimed(queued, worker, start);
    var n := |beats|;
    assert beats[..n] == beats;
    Spread(0, failures, interval);
    Spread(n, n, interval);
    if n == 0 {
    } else if now < start + n * interval + delay {
      var front := beats[..n - 1];
      assert Prompt(front, delay);
      assert NeverMoreFailures(front, failures) by {
        forall i | 0 <= i <= n - 1 ensures Streak(front[..i]) <= failures { assert front[..i] == beats[..i]; }
      }
      LeaseHolds(queued, worker, start, interval, delay, front, age, failures, now);
      RowAtRuns(row, worker, start, interval, front, now);
      assert n - 1 + 1 == n;
      Spread(n - 1, n - 1, interval);
    } else {
      FreshAsLastBeat(row, worker, start, interval, delay, beats, now);
      var s := Streak(beats);
      Spread(s, failures, interval);
      assert (n - s) * interval == n * interval - s * interval;
    }
  }

  /** The exact rule: the lease survives every schedule with at most `failures`
      failed refreshes in a row if and only if one interval more than that, plus
      the worst delay, fits in the stale age. */
  lemma LeaseRule(interval: int, delay: int, age: int, failures: nat)
    requires interval > 0 && delay >= 0 && age >= 0
    ensures LeaseSafe(interval, delay, age, failures) <==> (failures + 1) * interval + delay <= age
  {
    if (failures + 1) * interval + delay <= age {
      forall queued, worker, start, beats, now |
        Prompt(beats, delay) && NeverMoreFailures(beats, failures)
        && start <= now <= start + (|beats| + 1) * interval + delay
        ensures Kept(queued, worker, start, interval, beats, age, now)
      {
        LeaseHolds(queued, worker, start, interval, delay, beats, age, failures, now);
      }
    } else {
      var beats := seq(failures, i => Beat(false, 0));
      var row := NewRow(SearchRequest("ebay", "esp32", 1, "key"), 0);
      Silent(row, "w", 0, interval, beats, age + 1);
      forall n | 0 <= n <= |beats| ensures Streak(beats[..n]) <= failures {
        StreakBound(beats[..n]);
      }
      assert !Kept(row, "w", 0, interval, beats, age, age + 1);
    }
  }

  lemma {:induction false} StreakBound(beats: seq<Beat>)
    ensures Streak(beats) <= |beats|
  {
    if beats != [] {
      StreakBound(beats[..|beats| - 1]);
    }
  }

  lemma {:induction false} Silent(
      queued: Row, worker: WorkerId, start: Time, interval: int, beats: seq<Beat>, now: Time)
    requires forall k | 0 <= k < |beats| :: !beats[k].ok
    ensures var row := Claimed(queued, worker, start);
            RowAt(row, worker, start, interval, beats, now) == row
  {
    if beats != [] {
      Silent(queued, worker, start, interval, beats[..|beats| - 1], now);
    }
  }

  /** What the configuration check (stale age at least three intervals) buys: one
      missed refresh is safe when refreshes are no later than an interval, two in
      a row only while the delay fits in what the age exceeds three intervals by. */
  lemma ConfiguredLease(interval: int, delay: int, age: int)
    requires interval > 0 && delay >= 0 && age >= 3 * interval
    ensures delay <= interval ==> LeaseSafe(interval, delay, age, 1)
    ensures LeaseSafe(interval, delay, age, 2) <==> delay <= age - 3 * interval
  {
    LeaseRule(interval, delay, age, 1);
    LeaseRule(interval, delay, age, 2);
  }

  /** A claim nobody refreshes any more is queued again by the first maintenance
      round after it turns stale, so within one round of that moment. */
  lemma {:induction false} SilentClaimIsRequeued(row: Row, last: Time, age: int, rounds: seq<Time>, gap: int)
    returns (i: nat)
    requires row.status == Running && row.claimedAt == Some(last)
    requires rounds != [] && rounds[0] <= last + age && rounds[|rounds| - 1] > last + age
    requires forall k | 0 < k < |rounds| :: rounds[k - 1] <= rounds[k] <= rounds[k - 1] + gap
    ensures 0 < i < |rounds|
    ensures last + age < rounds[i] <= last + age + gap && Requeued(row, rounds[i], age).status == Queued
    ensures forall k | 0 <= k < i :: Requeued(row, rounds[k], age) == row
  {
    var n := |rounds| - 1;
    if rounds[n - 1] > last + age {
      i := SilentClaimIsRequeued(row, last, age, rounds[..n], gap);
    } else {
      i := n;
      EarlierRounds(rounds, n - 1);
    }
  }

  lemma {:induction false} EarlierRounds(rounds: seq<Time>, n: nat)
    requires n < |rounds| && forall k | 0 < k < |rounds| :: rounds[k - 1] <= rounds[k]
    ensures forall k | 0 <= k <= n :: rounds[k] <= rounds[n]
  {
    if n > 0 {
      EarlierRounds(rounds, n - 1);
    }
  }

  /** What others have made of the row since the last beat; None if nothing. */
  function Upset(row: Row, rival: Option<Row>): Row {
    if rival.Some? then rival.value else row
  }

  /** The row after the first n beats, with what others did to it before each. */
  function Watched(
      row: Row, worker: WorkerId, start: Time, interval: int, beats: seq<Beat>, rivals: seq<Option<Row>>, n: nat): Row
    requires n <= |beats| == |rivals|
  {
    if n == 0 then row
    else
      var before := Upset(Watched(row, worker, start, interval, beats, rivals, n - 1), rivals[n - 1]);
      if beats[n - 1].ok then Refreshed(before, worker, BeatTime(start, interval, beats, n - 1)) else before
  }

  /** The heartbeat loop of one claim: refresh at every tick, stop as soon as the
      store says that the claim is lost. `rivals` says what maintenance or another
      worker has left in the row before each tick. */
  method MaintainJobClaim(
      store: Store, job: JobId, worker: WorkerId, start: Time, interval: int, beats: seq<Beat>,
      rivals: seq<Option<Row>>)
    returns (lost: bool, stop: nat)
    requires job in store.jobs && |rivals| == |beats|
    modifies store
    ensures store.catalog == old(store.catalog) && store.jobs.Keys == old(store.jobs).Keys
    ensures forall other | other in store.jobs && other != job :: store.jobs[other] == old(store.jobs)[other]
    ensures stop <= |beats| && (lost <==> stop < |beats|)
    ensures forall k | 0 <= k < stop && beats[k].ok ::
              Owned(Upset(Watched(old(store.jobs)[job], worker, start, interval, beats, rivals, k), rivals[k]), worker)
    ensures var row := Watched(old(store.jobs)[job], worker, start, interval, beats, rivals, stop);
            if lost then beats[stop].ok && !Owned(Upset(row, rivals[stop]), worker)
                         && store.jobs[job] == Upset(row, rivals[stop])
            else store.jobs[job] == row
  {
    ghost var row := store.jobs[job];
    stop := 0;
    while stop < |beats|
      invariant 0 <= stop <= |beats|
      invariant store.catalog == old(store.catalog) && store.jobs.Keys == old(store.jobs).Keys
      invariant forall other | other in store.jobs && other != job :: store.jobs[other] == old(store.jobs)[other]
      invariant store.jobs[job] == Watched(row, worker, start, interval, beats, rivals, stop)
      invariant forall k | 0 <= k < stop && beats[k].ok ::
                  Owned(Upset(Watched(row, worker, start, interval, beats, rivals, k), rivals[k]), worker)
    {
      if rivals[stop].Some? {
        store.jobs := store.jobs[job := rivals[stop].value];
      }
      if beats[stop].ok {
        var outcome := store.RefreshJobClaim(job, worker, BeatTime(start, interval, beats, stop));
        if outcome.ClaimLost? {
          return true, stop;
        }
      }
      stop := stop + 1;
    }
    lost := false;
  }

  /** Left alone, the row is what the lease rule is about. */
  lemma {:induction false} LeftAlone(
      row: Row, worker: WorkerId, start: Time, interval: int, beats: seq<Beat>, rivals: seq<Option<Row>>, n: nat,
      now: Time)
    requires n <= |beats| == |rivals| && forall k | 0 <= k < n :: rivals[k].None?
    requires forall k | 0 <= k < n :: BeatTime(start, interval, beats, k) <= now
    ensures Watched(row, worker, start, interval, beats, rivals, n)
            == RowAt(row, worker, start, interval, beats[..n], now)
  {
    if n > 0 {
      LeftAlone(row, worker, start, interval, beats, rivals, n - 1, now);
      assert beats[..n][..n - 1] == beats[..n - 1];
      assert BeatTime(start, interval, beats[..n], n - 1) == BeatTime(start, interval, beats, n - 1);
    }
  }
}
