/** The change-only price history of one product: an observation is stored only
    when it differs from the latest stored one or that one is a day old. */
module Histories {
  import opened Common
  import opened Jobs
  import opened Catalogs

  /** The stored log after a product's observations arrive in commit order. */
  function RecordAll(log: seq<Observation>, seen: seq<Observation>): seq<Observation> {
    if seen == [] then log
    else Record(RecordAll(log, seen[..|seen| - 1]), seen[|seen| - 1])
  }

  /** WHERE observed_at >= from */
  function Since(log: seq<Observation>, from: Time): seq<Observation> {
    if log == [] then []
    else
      var last := log[|log| - 1];
      if last.at >= from then Since(log[..|log| - 1], from) + [last] else Since(log[..|log| - 1], from)
  }

  /** WHERE observed_at <= to */
  function UpTo(log: seq<Observation>, to: Time): seq<Observation> {
    if log == [] then []
    else
      var last := log[|log| - 1];
      if last.at <= to then UpTo(log[..|log| - 1], to) + [last] else UpTo(log[..|log| - 1], to)
  }

  /** The stored log, read at the observation's own time, shows its values in an
      entry less than a day old. */
  predicate Covers(log: seq<Observation>, seen: Observation) {
    var entry := Latest(UpTo(log, seen.at));
    entry.Some? && entry.value.values == seen.values && entry.value.at > seen.at - DAY
  }

  predicate Increasing(seen: seq<Observation>) {
    forall i | 0 < i < |seen| :: seen[i - 1].at < seen[i].at
  }

  function Changes(seen: seq<Observation>): nat {
    if |seen| < 2 then 0
    else Changes(seen[..|seen| - 1]) + (if seen[|seen| - 1].values != seen[|seen| - 2].values then 1 else 0)
  }

  // ------------------------------------------------------- small facts

  lemma {:induction false} LatestIsGreatest(log: seq<Observation>)
    ensures Latest(log).None? <==> log == []
    ensures Latest(log).Some? ==> Latest(log).value in log && forall x | x in log :: x.at <= Latest(log).value.at
  {
    if log != [] {
      var front, last := log[..|log| - 1], log[|log| - 1];
      LatestIsGreatest(front);
      assert forall x :: x in log <==> x in front || x == last;
    }
  }

  lemma {:induction false} UpToAll(log: seq<Observation>, to: Time)
    requires forall x | x in log :: x.at <= to
    ensures UpTo(log, to) == log
  {
    if log != [] {
      var front := log[..|log| - 1];
      assert forall x | x in front :: x in log;
      UpToAll(front, to);
      assert log == front + [log[|log| - 1]];
    }
  }

  lemma {:induction false} UpToMembers(log: seq<Observation>, to: Time)
    ensures forall x :: x in UpTo(log, to) <==> x in log && x.at <= to
  {
    if log != [] {
      var front, last := log[..|log| - 1], log[|log| - 1];
      UpToMembers(front, to);
      assert forall x :: x in log <==> x in front || x == last;
    }
  }

  lemma {:induction false} SinceMembers(log: seq<Observation>, from: Time)
    ensures forall x :: x in Since(log, from) <==> x in log && x.at >= from
  {
    if log != [] {
      var front, last := log[..|log| - 1], log[|log| - 1];
      SinceMembers(front, from);
      assert forall x :: x in log <==> x in front || x == last;
    }
  }

  lemma UpToAppend(log: seq<Observation>, entry: Observation, to: Time)
    ensures UpTo(log + [entry], to) == if entry.at <= to then UpTo(log, to) + [entry] else UpTo(log, to)
  {
    assert (log + [entry])[..|log|] == log;
  }

  lemma LatestAppend(log: seq<Observation>, entry: Observation)
    ensures Latest(log + [entry])
            == if Latest(log).Some? && Latest(log).value.at > entry.at then Latest(log) else Some(entry)
  {
    assert (log + [entry])[..|log|] == log;
  }

  lemma {:induction false} StoredWasSeen(seen: seq<Observation>, entry: Observation)
    requires entry in RecordAll([], seen)
    ensures entry in seen
  {
    if seen != [] {
      var front := seen[..|seen| - 1];
      if entry in RecordAll([], front) {
        StoredWasSeen(front, entry);
      }
    }
  }

  lemma {:induction false} IncreasingBounds(seen: seq<Observation>, x: Observation)
    requires Increasing(seen) && x in seen
    ensures seen[0].at <= x.at <= seen[|seen| - 1].at
  {
    var front := seen[..|seen| - 1];
    assert x in front || x == seen[|seen| - 1];
    if front != [] {
      assert Increasing(front);
      if x in front { IncreasingBounds(front, x); } else { IncreasingBounds(front, front[0]); }
    }
  }

  // ---------------------------------------------------------- faithful

  ghost predicate AllBefore(log: seq<Observation>, time: Time) {
    forall x | x in log :: x.at < time
  }

  lemma StoredBefore(seen: seq<Observation>)
    requires seen != [] && Increasing(seen)
    ensures var front := seen[..|seen| - 1];
            Increasing(front) && AllBefore(front, seen[|seen| - 1].at)
            && AllBefore(RecordAll([], front), seen[|seen| - 1].at)
  {
    var front, last := seen[..|seen| - 1], seen[|seen| - 1];
    forall x | x in front ensures x.at < last.at {
      IncreasingBounds(front, x);
      assert front[|front| - 1] == seen[|seen| - 2];
    }
    forall x | x in RecordAll([], front) ensures x.at < last.at {
      StoredWasSeen(front, x);
    }
  }

  /** Recording a later observation covers it and uncovers nothing. */
  lemma CoverageGrows(log: seq<Observation>, last: Observation)
    requires AllBefore(log, last.at)
    ensures Covers(Record(log, last), last)
    ensures forall x: Observation | x.at < last.at && Covers(log, x) :: Covers(Record(log, last), x)
  {
    UpToAll(log, last.at);
    UpToAppend(log, last, last.at);
    LatestIsGreatest(log);
    LatestAppend(log, last);
    forall x: Observation | x.at < last.at && Covers(log, x) ensures Covers(Record(log, last), x) {
      UpToAppend(log, last, x.at);
    }
  }

  /** As long as nothing is deleted, whatever was seen can be read back from what
      was stored. */
  lemma {:induction false} HistoryIsFaithful(seen: seq<Observation>)
    requires Increasing(seen)
    ensures forall x | x in seen :: Covers(RecordAll([], seen), x)
  {
    if seen != [] {
      var front, last := seen[..|seen| - 1], seen[|seen| - 1];
      StoredBefore(seen);
      HistoryIsFaithful(front);
      CoverageGrows(RecordAll([], front), last);
      forall x | x in seen ensures Covers(RecordAll([], seen), x) {
        assert x in front || x == last;
      }
    }
  }

  /** The latest entry always shows the latest observation's values. */
  lemma {:induction false} LatestShowsLast(seen: seq<Observation>)
    requires Increasing(seen) && seen != []
    ensures var latest := Latest(RecordAll([], seen));
            latest.Some? && latest.value.values == seen[|seen| - 1].values
            && seen[0].at <= latest.value.at <= seen[|seen| - 1].at
  {
    var log, front, last := RecordAll([], seen), seen[..|seen| - 1], seen[|seen| - 1];
    StoredBefore(seen);
    LatestIsGreatest(RecordAll([], front));
    LatestAppend(RecordAll([], front), last);
    if front != [] {
      LatestShowsLast(front);
    }
  }

  /** The log holds at most one entry, plus one per change, plus one per full day. */
  lemma {:induction false} HistoryIsSmall(seen: seq<Observation>)
    requires Increasing(seen) && seen != []
    ensures |RecordAll([], seen)| <= 1 + Changes(seen) + (seen[|seen| - 1].at - seen[0].at) / DAY
  {
    StoredPerDay(seen);
    LatestShowsLast(seen);
    Days(seen[0].at, Latest(RecordAll([], seen)).value.at, seen[|seen| - 1].at);
  }

  lemma Days(first: Time, mid: Time, last: Time)
    requires mid <= last
    ensures (mid - first) / DAY <= (last - first) / DAY
    ensures mid <= last - DAY ==> (mid - first) / DAY + 1 <= (last - first) / DAY
  {
  }

  lemma {:induction false} StoredPerDay(seen: seq<Observation>)
    requires Increasing(seen) && seen != []
    ensures var log := RecordAll([], seen);
            Latest(log).Some? && |log| <= 1 + Changes(seen) + (Latest(log).value.at - seen[0].at) / DAY
  {
    var front, last := seen[..|seen| - 1], seen[|seen| - 1];
    var log := RecordAll([], front);
    StoredBefore(seen);
    LatestIsGreatest(log);
    LatestAppend(log, last);
    if front == [] {
      assert log == [];
    } else {
      StoredPerDay(front);
      LatestShowsLast(front);
      Days(seen[0].at, Latest(log).value.at, last.at);
    }
  }

  ghost predicate Spaced(log: seq<Observation>) {
    forall i | 0 < i < |log| ::
      log[i - 1].at < log[i].at && (log[i].values != log[i - 1].values || log[i].at >= log[i - 1].at + DAY)
  }

  /** Nothing stored could have been left out: each entry differs from the one
      stored before it or is at least a day younger. */
  lemma {:induction false} NothingRedundant(seen: seq<Observation>)
    requires Increasing(seen)
    ensures Spaced(RecordAll([], seen))
  {
    if seen != [] {
      var front, last := seen[..|seen| - 1], seen[|seen| - 1];
      var log := RecordAll([], front);
      StoredBefore(seen);
      NothingRedundant(front);
      SpacedMore(log, last);
    }
  }

  lemma SpacedMore(log: seq<Observation>, last: Observation)
    requires Spaced(log) && AllBefore(log, last.at)
    ensures Spaced(Record(log, last))
  {
    if log != [] {
      LatestIsLast(log);
    }
  }

  lemma LatestIsLast(log: seq<Observation>)
    requires log != [] && Increasing(log)
    ensures Latest(log) == Some(log[|log| - 1])
  {
    LatestIsGreatest(log);
    IncreasingBounds(log, Latest(log).value);
  }

  // ----------------------------------------------------- one job's listings

  /** The listings a job may deliver: no product twice. */
  ghost predicate OncePerProduct(items: seq<Listing>) {
    forall i, j | 0 <= i < j < |items| && Usable(items[i]) && Usable(items[j]) :: KeyOf(items[i]) != KeyOf(items[j])
  }

  lemma OncePerProductFront(items: seq<Listing>, n: nat)
    requires OncePerProduct(items) && n <= |items|
    ensures OncePerProduct(items[..n])
  {
    var front := items[..n];
    forall i, j | 0 <= i < j < n && Usable(front[i]) && Usable(front[j])
      ensures KeyOf(front[i]) != KeyOf(front[j])
    {
      assert items[i] == front[i] && items[j] == front[j];
    }
  }

  /** The product row shows the listing: its address and title, its image and
      seller if it has one and otherwise the ones known before, and its values. */
  predicate Shows(was: Option<Product>, now: Product, item: Listing, at: Time) {
    && now.url == item.url && now.title == item.title
    && (if item.imageUrl != "" then now.imageUrl == Some(item.imageUrl)
        else now.imageUrl == if was.Some? then was.value.imageUrl else None)
    && (if item.seller != "" then now.seller == Some(item.seller)
        else now.seller == if was.Some? then was.value.seller else None)
    && (var entry := Latest(UpTo(now.log, at));
        entry.Some? && entry.value.at > at - DAY && Reads(entry.value.values, item))
  }

  /** The values are the listing's, an empty currency read as a missing one. */
  predicate Reads(values: Values, item: Listing) {
    && values.price == item.price && values.originalPrice == item.originalPrice && values.shipping == item.shipping
    && values.available == item.available && values.rating == item.rating && values.reviews == item.reviews
    && values.sold == item.sold && values.sponsored == item.sponsored
    && (if item.currency == "" then values.currency.None? else values.currency == Some(item.currency))
  }

  lemma StoredShows(was: Option<Product>, item: Listing, job: JobId, at: Time)
    requires was.Some? ==> AllBefore(was.value.log, at)
    ensures Shows(was, Stored(was, item, job, at), item, at)
  {
    CoverageGrows(if was.Some? then was.value.log else [], Observation(job, at, ValuesOf(item)));
  }

  /** A completed job can be read back: every usable listing it delivered shows in
      its product's row and history, if it names each product once and its time is
      later than what those products had. */
  lemma {:induction false} CompletedJobIsReadable(catalog: Catalog, items: seq<Listing>, job: JobId, at: Time)
    requires OncePerProduct(items)
    requires forall key | key in Touched(items) && key in catalog :: AllBefore(catalog[key].log, at)
    ensures var out := ApplyItems(catalog, items, job, at);
            forall item | item in items && Usable(item) ::
              KeyOf(item) in out && Shows(Get(catalog, KeyOf(item)), out[KeyOf(item)], item, at)
  {
    if items != [] {
      var n := |items| - 1;
      var front, last := items[..n], items[n];
      var out := ApplyItems(catalog, items, job, at);
      OneMoreItem(catalog, items, n, job, at);
      assert items[..n + 1] == items;
      OncePerProductFront(items, n);
      CompletedJobIsReadable(catalog, front, job, at);
      ApplyItemsFrame(catalog, catalog, front, job, at);
      if Usable(last) {
        assert KeyOf(last) !in Touched(front) by {
          forall item | item in front && Usable(item) ensures KeyOf(item) != KeyOf(last) {
            var i :| 0 <= i < n && items[i] == item;
          }
        }
        StoredShows(Get(catalog, KeyOf(last)), last, job, at);
      }
      forall item | item in items && Usable(item)
        ensures KeyOf(item) in out && Shows(Get(catalog, KeyOf(item)), out[KeyOf(item)], item, at)
      {
        assert item in front || item == last;
        assert item in front ==> KeyOf(item) in Touched(front);
      }
    }
  }

  // ------------------------------------------- the clock hypothesis is exact

  predicate Timed(seen: seq<Observation>, times: seq<Time>) {
    |seen| == |times| && forall i | 0 <= i < |times| :: seen[i].at == times[i]
  }

  ghost predicate FaithfulThroughout(seen: seq<Observation>) {
    forall n | 0 <= n <= |seen| :: forall x | x in seen[..n] :: Covers(RecordAll([], seen[..n]), x)
  }

  ghost predicate Strict(times: seq<Time>) {
    forall i | 0 < i < |times| :: times[i - 1] < times[i]
  }

  ghost predicate AlwaysFaithful(times: seq<Time>) {
    forall seen | Timed(seen, times) :: FaithfulThroughout(seen)
  }

  /** A history with these commit-order times is faithful whatever the products
      cost if and only if the times strictly increase. */
  lemma FaithfulExactlyWhenIncreasing(times: seq<Time>)
    ensures AlwaysFaithful(times) <==> Strict(times)
  {
    if Strict(times) {
      forall seen | Timed(seen, times) ensures FaithfulThroughout(seen) {
        forall n | 0 <= n <= |seen| ensures forall x | x in seen[..n] :: Covers(RecordAll([], seen[..n]), x) {
          HistoryIsFaithful(seen[..n]);
        }
      }
    } else {
      var seen := Misread(times);
    }
  }

  const PLAIN := Values(None, None, None, None, None, None, None, None, None)
  const PRICED := PLAIN.(price := Some(1))

  /** Observations with the given times that the stored log misrepresents. */
  lemma {:induction false} Misread(times: seq<Time>) returns (seen: seq<Observation>)
    requires !Strict(times)
    ensures Timed(seen, times) && !FaithfulThroughout(seen)
  {
    var n := |times| - 1;
    if Strict(times[..n]) {
      seen := MisreadFirst(times);
    } else {
      var shorter := Misread(times[..n]);
      seen := shorter + [Observation(0, times[n], PLAIN)];
      StillMisread(shorter, Observation(0, times[n], PLAIN));
    }
  }

  lemma StillMisread(shorter: seq<Observation>, last: Observation)
    requires !FaithfulThroughout(shorter)
    ensures !FaithfulThroughout(shorter + [last])
  {
    var m :| 0 <= m <= |shorter| && exists x | x in shorter[..m] :: !Covers(RecordAll([], shorter[..m]), x);
    assert (shorter + [last])[..m] == shorter[..m];
  }

  lemma TimedIncreases(seen: seq<Observation>, times: seq<Time>)
    requires Timed(seen, times) && Strict(times)
    ensures Increasing(seen)
  {
    forall i | 0 < i < |seen| ensures seen[i - 1].at < seen[i].at {
      assert times[i - 1] < times[i];
    }
  }

  lemma UnfaithfulAtEnd(seen: seq<Observation>, x: Observation)
    requires x in seen && !Covers(RecordAll([], seen), x)
    ensures !FaithfulThroughout(seen)
  {
    assert seen[..|seen|] == seen;
  }

  function PlainAt(times: seq<Time>): (seen: seq<Observation>)
    ensures Timed(seen, times) && forall x | x in seen :: x.values == PLAIN
  {
    seq(|times|, i requires 0 <= i < |times| => Observation(0, times[i], PLAIN))
  }

  lemma MisreadFirst(times: seq<Time>) returns (seen: seq<Observation>)
    requires times != [] && Strict(times[..|times| - 1]) && !Strict(times)
    ensures Timed(seen, times) && !FaithfulThroughout(seen)
  {
    var n := |times| - 1;
    var early := PlainAt(times[..n - 1]);
    var before := Observation(0, times[n - 1], PRICED);
    var after := Observation(0, times[n], if times[n] == times[n - 1] then PLAIN else PRICED);
    seen := early + [before] + [after];
    assert times[..n] == times[..n - 1] + [times[n - 1]] && times == times[..n] + [times[n]];
    TimedIncreases(early + [before], times[..n]);
    MisreadLast(early, before, after);
    UnfaithfulAtEnd(seen, Wrong(before, after));
  }

  lemma MisreadLast(early: seq<Observation>, before: Observation, after: Observation)
    requires Increasing(early + [before]) && after.at <= before.at
    requires forall x | x in early :: x.values == PLAIN
    requires before.values == PRICED && after.values == if after.at < before.at then PRICED else PLAIN
    ensures var seen := early + [before] + [after];
            Wrong(before, after) in seen && !Covers(RecordAll([], seen), Wrong(before, after))
  {
    var two := early + [before];
    var seen := two + [after];
    assert seen[..|two|] == two && two[..|early|] == early;
    var log := RecordAll([], early);
    StoredBefore(two);
    forall x | x in log ensures x.values == PLAIN {
      StoredWasSeen(early, x);
    }
    LatestIsGreatest(log);
    assert RecordAll([], two) == log + [before];
    MisreadEntry(log, before, after);
  }

  function Wrong(before: Observation, after: Observation): Observation {
    if after.at < before.at then after else before
  }

  lemma MisreadEntry(log: seq<Observation>, before: Observation, after: Observation)
    requires AllBefore(log, before.at) && after.at <= before.at
    requires forall x | x in log :: x.values == PLAIN
    requires before.values == PRICED && after.values == if after.at < before.at then PRICED else PLAIN
    ensures !Covers(Record(log + [before], after), Wrong(before, after))
  {
    LatestIsGreatest(log);
    LatestAppend(log, before);
    UpToAppend(log, before, after.at);
    UpToMembers(log, after.at);
    LatestIsGreatest(UpTo(log, after.at));
    if after.at == before.at {
      UpToAppend(log + [before], after, after.at);
      LatestAppend(UpTo(log, after.at) + [before], after);
    }
  }

  // ------------------------------------------------------------ pruning

  lemma {:induction false} LatestSince(log: seq<Observation>, from: Time)
    ensures Latest(Since(log, from))
            == if Latest(log).Some? && Latest(log).value.at >= from then Latest(log) else None
  {
    LatestIsGreatest(log);
    if log != [] {
      var front, last := log[..|log| - 1], log[|log| - 1];
      LatestSince(front, from);
      LatestIsGreatest(front);
      LatestAppend(Since(front, from), last);
    }
  }

  /** Deleting entries at least a day older than an observation changes neither
      the decision to store it nor what else is kept. Times are whole microseconds. */
  lemma PruneThenRecord(log: seq<Observation>, seen: Observation, from: Time)
    requires from <= seen.at - DAY + 1
    ensures Repeats(Since(log, from), seen) == Repeats(log, seen)
    ensures Record(Since(log, from), seen) == Since(Record(log, seen), from)
  {
    LatestSince(log, from);
  }

  lemma {:induction false} PruneCommutes(log: seq<Observation>, seen: seq<Observation>, from: Time)
    requires forall x | x in seen :: from <= x.at - DAY + 1
    ensures RecordAll(Since(log, from), seen) == Since(RecordAll(log, seen), from)
  {
    if seen != [] {
      var front, last := seen[..|seen| - 1], seen[|seen| - 1];
      assert forall x | x in front :: x in seen;
      PruneCommutes(log, front, from);
      PruneThenRecord(RecordAll(log, front), last, from);
    }
  }

  /** DELETE ... WHERE observed_at < from, over all products. */
  function Pruned(catalog: Catalog, from: Time): Catalog {
    map key | key in catalog :: catalog[key].(log := Since(catalog[key].log, from))
  }

  lemma {:induction false} SinceConcat(log: seq<Observation>, more: seq<Observation>, from: Time)
    requires forall x | x in more :: x.at >= from
    ensures Since(log + more, from) == Since(log, from) + more
  {
    if more == [] {
      assert log + more == log && Since(log, from) + more == Since(log, from);
    } else {
      var front, last := more[..|more| - 1], more[|more| - 1];
      SinceConcat(log, front, from);
      assert log + more == log + front + [last];
      assert (log + more)[..|log + more| - 1] == log + front;
      assert Since(log, from) + more == Since(log, from) + front + [last];
    }
  }

  lemma {:induction false} SinceAll(log: seq<Observation>, from: Time)
    requires forall x | x in log :: x.at >= from
    ensures Since(log, from) == log
  {
    SinceConcat([], log, from);
    assert [] + log == log && Since([], from) + log == log;
  }

  /** A prune reaches through uncommitted changes that are too young for it. */
  lemma PruneShowsThrough(catalog: Catalog, changes: Catalog, from: Time)
    requires forall key, x | key in changes && x in changes[key].log :: x.at >= from
    ensures Merged(Pruned(catalog, from), changes) == Pruned(Merged(catalog, changes), from)
  {
    forall key | key in changes
      ensures Grown(Get(Pruned(catalog, from), key), changes[key]).log
              == Since(Grown(Get(catalog, key), changes[key]).log, from)
    {
      SinceAll(changes[key].log, from);
      if key in catalog {
        SinceConcat(catalog[key].log, changes[key].log, from);
      }
    }
  }

  lemma StoredPruned(was: Option<Product>, item: Listing, job: JobId, at: Time, from: Time)
    requires from <= at - DAY + 1
    ensures var seen := Observation(job, at, ValuesOf(item));
            var pruned := if was.Some? then Some(was.value.(log := Since(was.value.log, from))) else None;
            var now := Stored(was, item, job, at);
            Stored(pruned, item, job, at) == now.(log := Since(now.log, from))
  {
    PruneThenRecord(if was.Some? then was.value.log else [], Observation(job, at, ValuesOf(item)), from);
  }

  /** A prune that stays out of the day before a completion commutes with it. */
  lemma {:induction false} PruneThenApply(
      catalog: Catalog, items: seq<Listing>, job: JobId, at: Time, from: Time)
    requires from <= at - DAY + 1
    ensures ApplyItems(Pruned(catalog, from), items, job, at) == Pruned(ApplyItems(catalog, items, job, at), from)
  {
    if items != [] {
      var front, last := items[..|items| - 1], items[|items| - 1];
      PruneThenApply(catalog, front, job, at, from);
      var mid := ApplyItems(catalog, front, job, at);
      if Usable(last) {
        StoredPruned(Get(mid, KeyOf(last)), last, job, at, from);
      }
    }
  }

  predicate SameDecision(log: seq<Observation>, seen: Observation, pruned: Time, span: int, lag: int) {
    pruned <= seen.at + lag ==> Repeats(Since(log, pruned - span), seen) == Repeats(log, seen)
  }

  /** A prune that keeps a span of this length is invisible to recording, even if it
      happens `lag` later than the start of the transaction that records. */
  ghost predicate PruneInvisible(span: int, lag: int) {
    forall log, seen, pruned :: SameDecision(log, seen, pruned, span, lag)
  }

  /** The exact rule for a prune beside open completions: the span exceeds a day by
      all but a microsecond of the longest time a completion stays open. */
  lemma RetentionIsExact(span: int, lag: int)
    requires lag >= 0
    ensures PruneInvisible(span, lag) <==> lag < span - DAY + 2
  {
    if lag < span - DAY + 2 {
      forall log, seen, pruned ensures SameDecision(log, seen, pruned, span, lag) {
        if pruned <= seen.at + lag {
          PruneThenRecord(log, seen, pruned - span);
        }
      }
    } else {
      var kept, seen := Observation(0, 1 - DAY, PLAIN), Observation(0, 0, PLAIN);
      LatestAppend([], kept);
      assert [] + [kept] == [kept];
      assert Repeats([kept], seen);
      assert Since([kept], lag - span) == [];
      assert !SameDecision([kept], seen, lag, span, lag);
    }
  }

  const HOUR: int := DAY / 24

  /** With days of 24 hours, a retention of at least one day, which the configuration
      insists on, is exactly what recording needs when no completion is open at a
      prune. If the session's time zone turns its clock forward inside the retention,
      one day is an hour short of what recording needs, and two are exactly enough. */
  lemma RetentionOfOneDayIsExact(days: int)
    ensures PruneInvisible(days * DAY, 0) <==> days >= 1
    ensures PruneInvisible(days * DAY - HOUR, 0) <==> days >= 2
  {
    RetentionIsExact(days * DAY, 0);
    RetentionIsExact(days * DAY - HOUR, 0);
  }

  // -------------------------------------------- what can be read after a prune

  lemma {:induction false} UpToSince(log: seq<Observation>, from: Time, to: Time)
    ensures UpTo(Since(log, from), to) == Since(UpTo(log, to), from)
  {
    if log != [] {
      UpToSince(log[..|log| - 1], from, to);
    }
  }

  /** The entry that shows what held at this time. */
  function EntryAt(log: seq<Observation>, time: Time): Option<Observation> {
    Latest(UpTo(log, time))
  }

  /** A prune leaves an observation readable exactly if it leaves the entry that
      covers it, which may be almost a day older than the observation. */
  lemma CoverageAfterPrune(log: seq<Observation>, x: Observation, from: Time)
    ensures Covers(Since(log, from), x) <==> Covers(log, x) && EntryAt(log, x.at).value.at >= from
  {
    UpToSince(log, from, x.at);
    LatestSince(UpTo(log, x.at), from);
  }

  predicate StaysCovered(log: seq<Observation>, x: Observation, from: Time, lag: int) {
    Covers(log, x) && x.at >= from + lag ==> Covers(Since(log, from), x)
  }

  /** Whatever could be read and is this much younger than the cut can still be read. */
  ghost predicate SurvivesPrunes(lag: int) {
    forall log, x, from :: StaysCovered(log, x, from, lag)
  }

  const EARLY := Observation(0, 0, PLAIN)

  /** The exact rule: observations of the first day after the cut may be lost, the
      younger ones never are. */
  lemma SurvivesPrunesExactly(lag: int)
    ensures SurvivesPrunes(lag) <==> lag >= DAY - 1
  {
    if lag >= DAY - 1 {
      forall log, x, from ensures StaysCovered(log, x, from, lag) {
        CoverageAfterPrune(log, x, from);
      }
    } else {
      var x := Observation(0, DAY - 1, PLAIN);
      OneEntry(DAY - 1, DAY - 1 - lag);
      assert !StaysCovered([EARLY], x, DAY - 1 - lag, lag);
    }
  }

  lemma OneEntry(time: Time, from: Time)
    requires 0 <= time < DAY && from > 0
    ensures Covers([EARLY], Observation(0, time, PLAIN)) && Since([EARLY], from) == []
    ensures !Covers(Since([EARLY], from), Observation(0, time, PLAIN))
  {
    UpToAll([EARLY], time);
    LatestAppend([], EARLY);
    assert [] + [EARLY] == [EARLY];
  }

  /** The same values seen at time 0 and an hour later: a prune that keeps the second
      observation's time leaves nothing to read at it, and neither does a history
      request whose window begins in between. */
  lemma CutHidesObservation()
    ensures var again := Observation(0, HOUR, PLAIN);
            && RecordAll([], [EARLY, again]) == [EARLY] && Covers([EARLY], again)
            && again.at >= 1 && !Covers(Since([EARLY], 1), again)
            && Points([EARLY], 60 * DAY + 1, 60) == []
  {
    var again := Observation(0, HOUR, PLAIN);
    OneEntry(HOUR, 1);
    assert [EARLY, again][..1] == [EARLY] && [EARLY][..0] == [];
    assert [] + [EARLY] == [EARLY];
    LatestAppend([], EARLY);
    assert Record([], EARLY) == [EARLY];
    assert RecordAll([], [EARLY]) == [EARLY];
  }

  // ------------------------------------------------------------ reading

  /** The window History clamps its argument to. */
  function Window(days: int): (window: int)
    ensures 1 <= window <= 365
    ensures 1 <= days <= 365 ==> window == days
    ensures days < 1 ==> window == 60
    ensures days > 365 ==> window == 365
  {
    var atLeastOne := if days < 1 then 60 else days;
    if atLeastOne > 365 then 365 else atLeastOne
  }

  function InsertByTime(sorted: seq<Observation>, entry: Observation): seq<Observation> {
    if sorted == [] || sorted[|sorted| - 1].at <= entry.at then sorted + [entry]
    else InsertByTime(sorted[..|sorted| - 1], entry) + [sorted[|sorted| - 1]]
  }

  /** ORDER BY observed_at */
  function ByTime(log: seq<Observation>): seq<Observation> {
    if log == [] then [] else InsertByTime(ByTime(log[..|log| - 1]), log[|log| - 1])
  }

  function Points(log: seq<Observation>, at: Time, days: int): seq<Observation> {
    ByTime(Since(log, at - Window(days) * DAY))
  }

  ghost predicate Ordered(log: seq<Observation>) {
    forall i, j | 0 <= i < j < |log| :: log[i].at <= log[j].at
  }

  lemma {:induction false} InsertAtMost(sorted: seq<Observation>, entry: Observation, bound: Time)
    requires entry.at <= bound && forall i | 0 <= i < |sorted| :: sorted[i].at <= bound
    ensures forall i | 0 <= i < |InsertByTime(sorted, entry)| :: InsertByTime(sorted, entry)[i].at <= bound
  {
    if !(sorted == [] || sorted[|sorted| - 1].at <= entry.at) {
      InsertAtMost(sorted[..|sorted| - 1], entry, bound);
    }
  }

  lemma {:induction false} InsertAdds(sorted: seq<Observation>, entry: Observation)
    ensures multiset(InsertByTime(sorted, entry)) == multiset(sorted) + multiset{entry}
  {
    if !(sorted == [] || sorted[|sorted| - 1].at <= entry.at) {
      InsertAdds(sorted[..|sorted| - 1], entry);
      assert sorted == sorted[..|sorted| - 1] + [sorted[|sorted| - 1]];
    }
  }

  lemma {:induction false} InsertKeepsOrder(sorted: seq<Observation>, entry: Observation)
    requires Ordered(sorted)
    ensures Ordered(InsertByTime(sorted, entry))
  {
    if !(sorted == [] || sorted[|sorted| - 1].at <= entry.at) {
      var front, last := sorted[..|sorted| - 1], sorted[|sorted| - 1];
      InsertKeepsOrder(front, entry);
      InsertAtMost(front, entry, last.at);
    }
  }

  lemma SameMembers(a: seq<Observation>, b: seq<Observation>)
    requires multiset(a) == multiset(b)
    ensures forall x :: x in a <==> x in b
  {
    forall x ensures x in a <==> x in b {
      assert x in a <==> x in multiset(a);
      assert x in b <==> x in multiset(b);
    }
  }

  lemma {:induction false} ByTimeSorts(log: seq<Observation>)
    ensures Ordered(ByTime(log)) && multiset(ByTime(log)) == multiset(log)
  {
    if log != [] {
      var front, last := log[..|log| - 1], log[|log| - 1];
      ByTimeSorts(front);
      InsertAdds(ByTime(front), last);
      InsertKeepsOrder(ByTime(front), last);
      assert log == front + [last];
    }
  }

  lemma WindowMembers(log: seq<Observation>, from: Time)
    ensures Ordered(ByTime(Since(log, from)))
    ensures forall x :: x in ByTime(Since(log, from)) <==> x in log && x.at >= from
  {
    var window := Since(log, from);
    ByTimeSorts(window);
    SinceMembers(log, from);
    SameMembers(ByTime(window), window);
  }

  /** Nothing is kept twice and nothing of what is kept is lost. */
  lemma {:induction false} SinceCounts(log: seq<Observation>, from: Time)
    ensures forall x :: multiset(Since(log, from))[x] == if x.at >= from then multiset(log)[x] else 0
    ensures |Since(log, from)| + Older(log, from) == |log|
  {
    if log != [] {
      var front, last := log[..|log| - 1], log[|log| - 1];
      SinceCounts(front, from);
      assert log == front + [last];
    }
  }

  /** How many entries a cut deletes. */
  function Older(log: seq<Observation>, from: Time): nat {
    if log == [] then 0 else Older(log[..|log| - 1], from) + (if log[|log| - 1].at < from then 1 else 0)
  }

  /** A history request never looks past its clamped window, returns everything
      inside it in time order, and cannot tell that the log was pruned earlier
      with a retention at least as long. */
  lemma PointsAreTheWindow(log: seq<Observation>, at: Time, days: int, pruned: Time, retention: int)
    ensures Ordered(Points(log, at, days))
    ensures forall x :: x in Points(log, at, days) <==> x in log && x.at >= at - Window(days) * DAY
    ensures pruned <= at && Window(days) <= retention
            ==> Points(Since(log, pruned - retention * DAY), at, days) == Points(log, at, days)
  {
    WindowMembers(log, at - Window(days) * DAY);
    if pruned <= at && Window(days) <= retention {
      SinceTwice(log, pruned - retention * DAY, at - Window(days) * DAY);
    }
  }

  /** It returns each of them as often as it is stored. */
  lemma PointsOnce(log: seq<Observation>, at: Time, days: int, x: Observation)
    ensures multiset(Points(log, at, days))[x] == if x.at >= at - Window(days) * DAY then multiset(log)[x] else 0
  {
    ByTimeSorts(Since(log, at - Window(days) * DAY));
    SinceCounts(log, at - Window(days) * DAY);
  }

  lemma {:induction false} SinceTwice(log: seq<Observation>, from: Time, later: Time)
    ensures Since(Since(log, from), later) == Since(log, if from <= later then later else from)
  {
    if log != [] {
      var front := log[..|log| - 1];
      SinceTwice(front, from, later);
    }
  }

  // ------------------------------------------- what a history request shows

  lemma OrderedLatest(sorted: seq<Observation>)
    requires Ordered(sorted)
    ensures Latest(sorted) == if sorted == [] then None else Some(sorted[|sorted| - 1])
  {
    LatestIsGreatest(sorted);
    if |sorted| > 1 {
      LatestIsGreatest(sorted[..|sorted| - 1]);
      assert Latest(sorted[..|sorted| - 1]).value in sorted[..|sorted| - 1];
    }
  }

  /** Sorting keeps the entry that shows what held last. */
  lemma {:induction false} ByTimeLatest(log: seq<Observation>)
    ensures Latest(ByTime(log)) == Latest(log)
  {
    if log != [] {
      var front, last := log[..|log| - 1], log[|log| - 1];
      ByTimeLatest(front);
      ByTimeSorts(front);
      ByTimeSorts(log);
      OrderedLatest(ByTime(front));
      OrderedLatest(ByTime(log));
    }
  }

  lemma {:induction false} UpToInsert(sorted: seq<Observation>, entry: Observation, to: Time)
    requires Ordered(sorted)
    ensures UpTo(InsertByTime(sorted, entry), to)
            == if entry.at <= to then InsertByTime(UpTo(sorted, to), entry) else UpTo(sorted, to)
  {
    if sorted == [] || sorted[|sorted| - 1].at <= entry.at {
      UpToAppend(sorted, entry, to);
      if entry.at <= to {
        UpToAll(sorted, to);
      }
    } else {
      var front, last := sorted[..|sorted| - 1], sorted[|sorted| - 1];
      UpToInsert(front, entry, to);
      UpToAppend(InsertByTime(front, entry), last, to);
    }
  }

  lemma {:induction false} UpToByTime(log: seq<Observation>, to: Time)
    ensures UpTo(ByTime(log), to) == ByTime(UpTo(log, to))
  {
    if log != [] {
      var front, last := log[..|log| - 1], log[|log| - 1];
      UpToByTime(front, to);
      ByTimeSorts(front);
      UpToInsert(ByTime(front), last, to);
      if last.at <= to {
        assert (UpTo(front, to) + [last])[..|UpTo(front, to)|] == UpTo(front, to);
      }
    }
  }

  /** A history request shows an observation exactly if the entry that covers it is
      inside the window. */
  lemma CoverageInPoints(log: seq<Observation>, x: Observation, at: Time, days: int)
    ensures Covers(Points(log, at, days), x)
            <==> Covers(log, x) && EntryAt(log, x.at).value.at >= at - Window(days) * DAY
  {
    var window := Since(log, at - Window(days) * DAY);
    UpToByTime(window, x.at);
    ByTimeLatest(UpTo(window, x.at));
    CoverageAfterPrune(log, x, at - Window(days) * DAY);
  }

  predicate StaysShown(log: seq<Observation>, x: Observation, at: Time, days: int, lag: int) {
    Covers(log, x) && x.at >= at - Window(days) * DAY + lag ==> Covers(Points(log, at, days), x)
  }

  /** Every request shows whatever could be read and is this much younger than the
      beginning of its window. */
  ghost predicate RequestsShow(lag: int) {
    forall log, x, at, days :: StaysShown(log, x, at, days, lag)
  }

  /** The same exact rule for a request's window: its first day may be missing. */
  lemma RequestsShowExactly(lag: int)
    ensures RequestsShow(lag) <==> lag >= DAY - 1
  {
    if lag >= DAY - 1 {
      forall log, x, at, days ensures StaysShown(log, x, at, days, lag) {
        CoverageInPoints(log, x, at, days);
      }
    } else {
      var x, at := Observation(0, DAY - 1, PLAIN), 60 * DAY + DAY - 1 - lag;
      OneEntry(DAY - 1, DAY - 1 - lag);
      CoverageInPoints([EARLY], x, at, 60);
      CoverageAfterPrune([EARLY], x, DAY - 1 - lag);
      assert !StaysShown([EARLY], x, at, 60, lag);
    }
  }
}
