/** The stored history in every run of the job queue: it is the change-only log of
    what the completions brought, in the order in which they committed. */
module QueueHistories {
  import opened Common
  import opened Jobs
  import opened Catalogs
  import opened Histories
  import opened Queue
  import opened QueueRuns

  /** What a job's listings say about one product. */
  function SeenIn(items: seq<Listing>, key: Key, job: JobId, at: Time): seq<Observation> {
    if items == [] then []
    else
      var front, last := SeenIn(items[..|items| - 1], key, job, at), items[|items| - 1];
      if Usable(last) && KeyOf(last) == key then front + [Observation(job, at, ValuesOf(last))] else front
  }

  lemma {:induction false} SeenAtStart(items: seq<Listing>, key: Key, job: JobId, at: Time)
    ensures forall x | x in SeenIn(items, key, job, at) :: x.at == at
  {
    if items != [] {
      SeenAtStart(items[..|items| - 1], key, job, at);
    }
  }

  lemma {:induction false} SeenInAll(items: seq<Listing>, key: Key, job: JobId, at: Time, x: Observation)
    requires FromItems(items, job, at, key, x)
    ensures x in SeenIn(items, key, job, at)
  {
    var item :| item in items && Usable(item) && KeyOf(item) == key && ValuesOf(item) == x.values;
    var front, last := items[..|items| - 1], items[|items| - 1];
    if item == last {
      assert x == Observation(job, at, ValuesOf(last));
    } else {
      assert item in front;
      SeenInAll(front, key, job, at, x);
    }
  }

  lemma ApplyItemRecords(catalog: Catalog, item: Listing, job: JobId, at: Time, key: Key)
    ensures LogOf(ApplyItem(catalog, item, job, at), key)
            == if Usable(item) && KeyOf(item) == key
               then Record(LogOf(catalog, key), Observation(job, at, ValuesOf(item)))
               else LogOf(catalog, key)
  {
  }

  lemma {:induction false} ApplyItemsRecords(catalog: Catalog, items: seq<Listing>, job: JobId, at: Time, key: Key)
    ensures LogOf(ApplyItems(catalog, items, job, at), key)
            == RecordAll(LogOf(catalog, key), SeenIn(items, key, job, at))
  {
    if items != [] {
      var n := |items| - 1;
      ApplyItemsRecords(catalog, items[..n], job, at, key);
      ApplyItemRecords(ApplyItems(catalog, items[..n], job, at), items[n], job, at, key);
    }
  }

  lemma {:induction false} RecordAllConcat(log: seq<Observation>, a: seq<Observation>, b: seq<Observation>)
    ensures RecordAll(log, a + b) == RecordAll(RecordAll(log, a), b)
  {
    if b == [] {
      assert a + b == a;
    } else {
      var front, last := b[..|b| - 1], b[|b| - 1];
      RecordAllConcat(log, a, front);
      assert a + b == a + front + [last];
    }
  }

  /** What the step commits about the product. */
  function Brought(s: State, step: Step, key: Key): seq<Observation> {
    if step.CompleteCommit? && CompletingIn(s, step.sid)
    then SeenIn(s.txns[step.sid].listings, key, s.txns[step.sid].job, s.txns[step.sid].start)
    else []
  }

  /** Everything committed about the product in the first n steps, in commit order. */
  function Committed(states: seq<State>, steps: seq<Step>, n: nat, key: Key): seq<Observation>
    requires n <= |steps| <= |states|
  {
    if n == 0 then [] else Committed(states, steps, n - 1, key) + Brought(states[n - 1], steps[n - 1], key)
  }

  /** What the prunes so far have left of a log. */
  function Kept(log: seq<Observation>, cut: Option<Time>): seq<Observation> {
    if cut.Some? then Since(log, cut.value) else log
  }

  lemma CommitRecords(s: State, sid: SessionId, key: Key)
    requires Inv(s) && Enabled(s, CompleteCommit(sid)) && InTime(s, s.txns[sid])
    ensures LogOf(Apply(s, CompleteCommit(sid)).catalog, key)
            == RecordAll(LogOf(s.catalog, key), Brought(s, CompleteCommit(sid), key))
  {
    var t := s.txns[sid];
    assert TxnOk(s, t) && ViewsOkAt(s, sid) && t.listings[..t.done] == t.listings;
    ApplyItemsRecords(s.catalog, t.listings, t.job, t.start, key);
  }

  /** Everything a step does to a log but add what it commits. */
  lemma StepKeeps(s: State, step: Step, key: Key)
    requires Enabled(s, step) && !step.CompleteCommit?
    ensures LogOf(Apply(s, step).catalog, key)
            == if step.Prune? then Since(LogOf(s.catalog, key), step.at - step.days * DAY) else LogOf(s.catalog, key)
    ensures Apply(s, step).cut
            == if step.Prune? then Some(Later(s.cut, step.at - step.days * DAY)) else s.cut
  {
  }

  lemma NextKept(log: seq<Observation>, cut: Option<Time>, from: Time)
    ensures Since(Kept(log, cut), from) == Kept(log, Some(Later(cut, from)))
  {
    if cut.Some? {
      SinceTwice(log, cut.value, from);
    }
  }

  lemma NextRecorded(log: seq<Observation>, cut: Option<Time>, seen: seq<Observation>)
    requires cut.Some? ==> forall x | x in seen :: cut.value <= x.at - DAY + 1
    ensures RecordAll(Kept(log, cut), seen) == Kept(RecordAll(log, seen), cut)
  {
    if cut.Some? {
      PruneCommutes(log, seen, cut.value);
    }
  }

  lemma NextRecords(states: seq<State>, steps: seq<Step>, i: nat, key: Key, log: seq<Observation>)
    requires Run(states, steps) && i < |steps| && CommitsInTime(states[i], steps[i])
    requires LogOf(states[i].catalog, key) == Kept(log, states[i].cut)
    ensures LogOf(states[i + 1].catalog, key)
            == Kept(RecordAll(log, Brought(states[i], steps[i], key)), states[i + 1].cut)
  {
    var s, step := states[i], steps[i];
    RunInv(states, steps, i);
    assert TakenAt(states, steps, i);
    if step.CompleteCommit? {
      var t := s.txns[step.sid];
      CommitRecords(s, step.sid, key);
      SeenAtStart(t.listings, key, t.job, t.start);
      NextRecorded(log, s.cut, Brought(s, step, key));
    } else {
      StepKeeps(s, step, key);
      if step.Prune? {
        NextKept(log, s.cut, step.at - step.days * DAY);
      }
    }
  }

  /** In every run whose completions commit in time a product's stored log is the
      change-only log of its committed observations, without what is older than the
      latest cut. */
  lemma {:induction false} LogIsRecorded(states: seq<State>, steps: seq<Step>, n: nat, key: Key)
    requires Run(states, steps) && n <= |steps| && Timely(states, steps, n)
    ensures LogOf(states[n].catalog, key) == Kept(RecordAll([], Committed(states, steps, n, key)), states[n].cut)
  {
    if n == 0 {
      StartsEmpty(states, steps);
    } else {
      assert CommitsInTime(states[n - 1], steps[n - 1]);
      LogIsRecorded(states, steps, n - 1, key);
      NextRecords(states, steps, n - 1, key, RecordAll([], Committed(states, steps, n - 1, key)));
      RecordAllConcat([], Committed(states, steps, n - 1, key), Brought(states[n - 1], steps[n - 1], key));
    }
  }

  function TimesOf(seen: seq<Observation>): (times: seq<Time>)
    ensures Timed(seen, times)
  {
    seq(|seen|, i requires 0 <= i < |seen| => seen[i].at)
  }

  ghost predicate IsSmall(log: seq<Observation>, seen: seq<Observation>) {
    seen != [] ==> |log| <= 1 + Changes(seen) + (seen[|seen| - 1].at - seen[0].at) / DAY
  }

  /** The observation is younger than the latest cut by a day or more, but for a microsecond. */
  predicate Recent(x: Observation, cut: Option<Time>) {
    cut.Some? ==> x.at >= cut.value + DAY - 1
  }

  ghost predicate ShowsRecent(log: seq<Observation>, seen: seq<Observation>, cut: Option<Time>) {
    forall x | x in seen && Recent(x, cut) :: Covers(log, x)
  }

  // --------------------------------------- recent observations are never lost

  lemma CommitAppends(s: State, sid: SessionId, key: Key) returns (added: seq<Observation>)
    requires Inv(s) && Enabled(s, CompleteCommit(sid))
    ensures LogOf(Apply(s, CompleteCommit(sid)).catalog, key) == LogOf(s.catalog, key) + added
    ensures forall x | x in added :: x in Brought(s, CompleteCommit(sid), key)
    ensures Apply(s, CompleteCommit(sid)).cut == s.cut
  {
    var t := s.txns[sid];
    assert TxnOk(s, t);
    added := if key in t.writes then t.writes[key].log else [];
    forall x | x in added ensures x in Brought(s, CompleteCommit(sid), key) {
      SeenInAll(t.listings, key, t.job, t.start, x);
    }
    assert LogOf(s.catalog, key) == [] ==> LogOf(s.catalog, key) + added == added;
  }

  lemma StoredByStep(s: State, step: Step, key: Key, x: Observation)
    requires Inv(s) && Enabled(s, step) && x in LogOf(Apply(s, step).catalog, key)
    ensures x in LogOf(s.catalog, key) || x in Brought(s, step, key)
  {
    if step.CompleteCommit? {
      var added := CommitAppends(s, step.sid, key);
    } else {
      NothingAdded(s, step, key, x);
    }
  }

  lemma {:induction false} StoredIsCommitted(states: seq<State>, steps: seq<Step>, n: nat, key: Key, x: Observation)
    requires Run(states, steps) && n <= |steps| && x in LogOf(states[n].catalog, key)
    ensures x in Committed(states, steps, n, key)
  {
    StartsEmpty(states, steps);
    RunInv(states, steps, n - 1);
    assert TakenAt(states, steps, n - 1);
    StoredByStep(states[n - 1], steps[n - 1], key, x);
    if x in LogOf(states[n - 1].catalog, key) {
      StoredIsCommitted(states, steps, n - 1, key, x);
    }
  }

  lemma {:induction false} UpToYounger(log: seq<Observation>, more: seq<Observation>, to: Time)
    requires forall x | x in more :: x.at > to
    ensures UpTo(log + more, to) == UpTo(log, to)
  {
    if more == [] {
      assert log + more == log;
    } else {
      var front, last := more[..|more| - 1], more[|more| - 1];
      UpToYounger(log, front, to);
      assert log + more == log + front + [last];
      UpToAppend(log + front, last, to);
    }
  }

  lemma FirstTwo(earlier: seq<Observation>, now: seq<Observation>)
    requires Increasing(earlier + now)
    ensures |now| > 1 ==> now[0].at < now[1].at && now[0] in now && now[1] in now
  {
    var all := earlier + now;
    assert |now| > 1 ==> all[|earlier|] == now[0] && all[|earlier| + 1] == now[1];
  }

  lemma IncreasingParts(earlier: seq<Observation>, now: seq<Observation>, time: Time)
    requires Increasing(earlier + now) && forall x | x in now :: x.at == time
    ensures Increasing(earlier) && |now| <= 1
    ensures now != [] ==> AllBefore(earlier, time)
  {
    var all := earlier + now;
    forall i | 0 < i < |earlier| ensures earlier[i - 1].at < earlier[i].at {
      assert all[i - 1].at < all[i].at;
    }
    FirstTwo(earlier, now);
    if now != [] && earlier != [] {
      assert all[|earlier| - 1].at < all[|earlier|].at && now[0] in now;
      forall x | x in earlier ensures x.at < time {
        IncreasingBounds(earlier, x);
      }
    }
  }

  lemma MoreShows(
      log: seq<Observation>, added: seq<Observation>, seen: seq<Observation>, now: seq<Observation>,
      cut: Option<Time>, time: Time)
    requires ShowsRecent(log, seen, cut) && forall x | x in log :: x in seen
    requires Increasing(seen + now) && (forall x | x in now :: x.at == time) && forall x | x in added :: x in now
    requires (cut.Some? ==> cut.value <= time - DAY + 1) ==> log + added == RecordAll(log, now)
    ensures ShowsRecent(log + added, seen + now, cut)
  {
    IncreasingParts(seen, now, time);
    forall x | x in seen + now && Recent(x, cut) ensures Covers(log + added, x) {
      if x in seen {
        UpToYounger(log, added, x.at);
      } else {
        assert now == [x] && now[..0] == [];
        assert RecordAll(log, now) == Record(log, x);
        CoverageGrows(log, x);
      }
    }
  }

  /** A completion shows what it has brought if it is in time, and hides nothing. */
  lemma CommitShows(s: State, sid: SessionId, key: Key, seen: seq<Observation>)
    requires Inv(s) && Enabled(s, CompleteCommit(sid))
    requires Increasing(seen + Brought(s, CompleteCommit(sid), key))
    requires ShowsRecent(LogOf(s.catalog, key), seen, s.cut)
    requires forall x | x in LogOf(s.catalog, key) :: x in seen
    ensures ShowsRecent(LogOf(Apply(s, CompleteCommit(sid)).catalog, key), seen + Brought(s, CompleteCommit(sid), key),
                        s.cut)
  {
    var t := s.txns[sid];
    var added := CommitAppends(s, sid, key);
    SeenAtStart(t.listings, key, t.job, t.start);
    if InTime(s, t) {
      CommitRecords(s, sid, key);
    }
    MoreShows(LogOf(s.catalog, key), added, seen, Brought(s, CompleteCommit(sid), key), s.cut, t.start);
  }

  lemma PruneShows(log: seq<Observation>, seen: seq<Observation>, cut: Option<Time>, from: Time)
    requires ShowsRecent(log, seen, cut)
    ensures ShowsRecent(Since(log, from), seen, Some(Later(cut, from)))
  {
    forall x | x in seen && Recent(x, Some(Later(cut, from))) ensures Covers(Since(log, from), x) {
      CoverageAfterPrune(log, x, from);
    }
  }

  lemma OtherStepShows(s: State, step: Step, key: Key, seen: seq<Observation>)
    requires Enabled(s, step) && !step.CompleteCommit? && ShowsRecent(LogOf(s.catalog, key), seen, s.cut)
    ensures ShowsRecent(LogOf(Apply(s, step).catalog, key), seen, Apply(s, step).cut)
  {
    StepKeeps(s, step, key);
    if step.Prune? {
      PruneShows(LogOf(s.catalog, key), seen, s.cut, step.at - step.days * DAY);
    }
  }

  lemma StepShows(s: State, step: Step, key: Key, seen: seq<Observation>)
    requires Inv(s) && Enabled(s, step)
    requires Increasing(seen + Brought(s, step, key))
    requires ShowsRecent(LogOf(s.catalog, key), seen, s.cut)
    requires forall x | x in LogOf(s.catalog, key) :: x in seen
    ensures ShowsRecent(LogOf(Apply(s, step).catalog, key), seen + Brought(s, step, key), Apply(s, step).cut)
  {
    if step.CompleteCommit? {
      CommitShows(s, step.sid, key, seen);
      var added := CommitAppends(s, step.sid, key);
    } else {
      assert seen + Brought(s, step, key) == seen;
      OtherStepShows(s, step, key, seen);
    }
  }

  lemma BroughtAtOnce(s: State, step: Step, key: Key) returns (time: Time)
    ensures forall x | x in Brought(s, step, key) :: x.at == time
  {
    if step.CompleteCommit? && CompletingIn(s, step.sid) {
      var t := s.txns[step.sid];
      time := t.start;
      SeenAtStart(t.listings, key, t.job, t.start);
    } else {
      time := s.now;
    }
  }

  /** Whatever retention prunes use, and whenever completions commit: an observation
      can be read as long as no prune has reached into the day before it. */
  lemma {:induction false} RecentIsShown(states: seq<State>, steps: seq<Step>, n: nat, key: Key)
    requires Run(states, steps) && n <= |steps| && Increasing(Committed(states, steps, n, key))
    ensures ShowsRecent(LogOf(states[n].catalog, key), Committed(states, steps, n, key), states[n].cut)
  {
    if n > 0 {
      var s, step, seen := states[n - 1], steps[n - 1], Committed(states, steps, n - 1, key);
      var time := BroughtAtOnce(s, step, key);
      IncreasingParts(seen, Brought(s, step, key), time);
      RecentIsShown(states, steps, n - 1, key);
      forall x | x in LogOf(s.catalog, key) ensures x in seen {
        StoredIsCommitted(states, steps, n - 1, key, x);
      }
      RunInv(states, steps, n - 1);
      assert TakenAt(states, steps, n - 1);
      StepShows(s, step, key, seen);
    }
  }

  /** And a history request shows it if it is as much younger than the window's beginning. */
  lemma RequestShowsRecent(states: seq<State>, steps: seq<Step>, n: nat, key: Key, x: Observation, at: Time, days: int)
    requires Run(states, steps) && n <= |steps| && Increasing(Committed(states, steps, n, key))
    requires x in Committed(states, steps, n, key) && Recent(x, states[n].cut)
    requires x.at >= at - Window(days) * DAY + DAY - 1
    ensures Covers(Points(LogOf(states[n].catalog, key), at, days), x)
  {
    RecentIsShown(states, steps, n, key);
    CoverageInPoints(LogOf(states[n].catalog, key), x, at, days);
  }

  // ------------------------------------------------------ faithful and small

  /** What can be read back are exactly the observations whose covering entry no prune
      has deleted. */
  ghost predicate ShowsUncut(log: seq<Observation>, seen: seq<Observation>, cut: Option<Time>) {
    forall x | x in seen ::
      Covers(RecordAll([], seen), x)
      && (Covers(log, x) <==> cut.Some? ==> EntryAt(RecordAll([], seen), x.at).value.at >= cut.value)
  }

  lemma {:induction false} SinceIsShorter(log: seq<Observation>, from: Time)
    ensures |Since(log, from)| <= |log|
  {
    if log != [] {
      SinceIsShorter(log[..|log| - 1], from);
    }
  }

  lemma KeptIsExact(seen: seq<Observation>, cut: Option<Time>)
    requires Increasing(seen)
    ensures ShowsUncut(Kept(RecordAll([], seen), cut), seen, cut) && IsSmall(Kept(RecordAll([], seen), cut), seen)
  {
    var log := RecordAll([], seen);
    HistoryIsFaithful(seen);
    if seen != [] {
      HistoryIsSmall(seen);
    }
    if cut.Some? {
      SinceIsShorter(log, cut.value);
      forall x | x in seen ensures Covers(Since(log, cut.value), x) <==> EntryAt(log, x.at).value.at >= cut.value {
        CoverageAfterPrune(log, x, cut.value);
      }
    }
  }

  /** In every run whose completions commit in time and whose committed times of the
      product strictly increase, its history is small and shows exactly what it can;
      and only such times make it faithful whatever the listings say. */
  lemma QueueHistoryIsFaithful(states: seq<State>, steps: seq<Step>, n: nat, key: Key)
    requires Run(states, steps) && n <= |steps| && Timely(states, steps, n)
    ensures var seen, log := Committed(states, steps, n, key), LogOf(states[n].catalog, key);
            && (Increasing(seen) ==> ShowsUncut(log, seen, states[n].cut) && IsSmall(log, seen))
            && (Increasing(seen) <==> AlwaysFaithful(TimesOf(seen)))
  {
    var seen := Committed(states, steps, n, key);
    LogIsRecorded(states, steps, n, key);
    FaithfulExactlyWhenIncreasing(TimesOf(seen));
    SameOrder(seen);
    if Increasing(seen) {
      KeptIsExact(seen, states[n].cut);
    }
  }

  lemma SameOrder(seen: seq<Observation>)
    ensures Increasing(seen) <==> Strict(TimesOf(seen))
  {
    var times := TimesOf(seen);
    if Strict(times) {
      TimedIncreases(seen, times);
    } else {
      var i :| 0 < i < |times| && times[i - 1] >= times[i];
      assert seen[i - 1].at >= seen[i].at;
    }
  }

  // ------------------------------------------- completions that do not overlap

  /** Step i commits something about the product. */
  predicate Brings(states: seq<State>, steps: seq<Step>, i: nat, key: Key)
    requires i < |steps| <= |states|
  {
    Brought(states[i], steps[i], key) != []
  }

  predicate NamesOnce(states: seq<State>, steps: seq<Step>, k: nat, key: Key)
    requires k < |steps| <= |states|
  {
    |Brought(states[k], steps[k], key)| <= 1
  }

  /** If both steps commit something about the product, the second completion began
      after the first had committed. */
  predicate BeginsAfter(states: seq<State>, steps: seq<Step>, i: nat, k: nat, key: Key)
    requires i < k < |steps| <= |states|
  {
    Brings(states, steps, i, key) && Brings(states, steps, k, key)
    ==> states[i].now < Brought(states[k], steps[k], key)[0].at
  }

  /** Whoever commits about the product began after the earlier commits about it,
      and names it once. */
  ghost predicate OneAfterTheOther(states: seq<State>, steps: seq<Step>, n: nat, key: Key)
    requires n <= |steps| <= |states|
  {
    && (forall k {:trigger NamesOnce(states, steps, k, key)} | 0 <= k < n :: NamesOnce(states, steps, k, key))
    && (forall i, k {:trigger BeginsAfter(states, steps, i, k, key)} | 0 <= i < k < n ::
          BeginsAfter(states, steps, i, k, key))
  }

  /** Listings that name each product once, as the extraction worker's are, bring at
      most one observation of it. */
  lemma {:induction false} OncePerProductBringsOne(items: seq<Listing>, key: Key, job: JobId, at: Time)
    requires OncePerProduct(items)
    ensures |SeenIn(items, key, job, at)| <= 1
    ensures SeenIn(items, key, job, at) != [] ==>
              exists i :: 0 <= i < |items| && Usable(items[i]) && KeyOf(items[i]) == key
  {
    if items != [] {
      var n := |items| - 1;
      var front := items[..n];
      OncePerProductFront(items, n);
      OncePerProductBringsOne(front, key, job, at);
      if SeenIn(front, key, job, at) != [] {
        var i :| 0 <= i < n && Usable(front[i]) && KeyOf(front[i]) == key;
        assert items[i] == front[i];
      }
    }
  }

  lemma {:induction false} CommittedBefore(states: seq<State>, steps: seq<Step>, n: nat, key: Key, x: Observation)
    returns (i: nat)
    requires Run(states, steps) && n <= |steps| && x in Committed(states, steps, n, key)
    ensures i < n && Brings(states, steps, i, key) && x.at <= states[i].now
  {
    if x in Committed(states, steps, n - 1, key) {
      i := CommittedBefore(states, steps, n - 1, key, x);
    } else {
      i := n - 1;
      var t := states[i].txns[steps[i].sid];
      SeenAtStart(t.listings, key, t.job, t.start);
      RunInv(states, steps, i);
      assert TxnOk(states[i], t);
    }
  }

  /** So completions of one product that do not overlap keep its history faithful. */
  lemma {:induction false} ApartMeansIncreasing(states: seq<State>, steps: seq<Step>, n: nat, key: Key)
    requires Run(states, steps) && n <= |steps| && OneAfterTheOther(states, steps, n, key)
    ensures Increasing(Committed(states, steps, n, key))
  {
    if n > 0 {
      var earlier, now := Committed(states, steps, n - 1, key), Brought(states[n - 1], steps[n - 1], key);
      ApartMeansIncreasing(states, steps, n - 1, key);
      if now != [] && earlier != [] {
        var i := CommittedBefore(states, steps, n - 1, key, earlier[|earlier| - 1]);
        assert BeginsAfter(states, steps, i, n - 1, key);
      }
      assert NamesOnce(states, steps, n - 1, key);
      OneMoreIncreases(earlier, now);
    }
  }

  lemma OneMoreIncreases(earlier: seq<Observation>, now: seq<Observation>)
    requires Increasing(earlier) && |now| <= 1
    requires earlier != [] && now != [] ==> earlier[|earlier| - 1].at < now[0].at
    ensures Increasing(earlier + now)
  {
  }
}
