/** The database operations one at a time: what each statement or transaction
    does to the tables when nothing else runs beside it. */
module Stores {
  import opened Common
  import opened Jobs
  import opened Catalogs
  import opened Histories

  datatype Db = Db(jobs: map<JobId, Row>, catalog: Catalog)

  datatype Op =
    | Nothing
    | DoCreate(job: JobId, request: SearchRequest, at: Time)
    | DoClaim(job: JobId, worker: WorkerId, at: Time)
    | DoRefresh(job: JobId, worker: WorkerId, at: Time)
    | DoComplete(job: JobId, worker: WorkerId, listings: seq<Listing>, at: Time)
    | DoFail(job: JobId, worker: WorkerId, text: string, at: Time)
    | DoRequeue(job: JobId, at: Time, age: int)
    | DoPrune(at: Time, days: int)

  predicate OwnedIn(db: Db, job: JobId, worker: WorkerId) {
    job in db.jobs && Owned(db.jobs[job], worker)
  }

  /** When an operation has its effect: claims take queued rows, completions and
      failures take rows the caller owns. */
  predicate Effective(db: Db, op: Op) {
    match op
    case Nothing => true
    case DoCreate(job, _, _) => job !in db.jobs
    case DoClaim(job, _, _) => job in db.jobs && db.jobs[job].status == Queued
    case DoRefresh(job, worker, _) => OwnedIn(db, job, worker)
    case DoComplete(job, worker, _, _) => OwnedIn(db, job, worker)
    case DoFail(job, worker, _, _) => OwnedIn(db, job, worker)
    case DoRequeue(job, at, age) => job in db.jobs && Stale(db.jobs[job], at, age)
    case DoPrune(_, _) => true
  }

  function Perform(db: Db, op: Op): Db {
    if !Effective(db, op) then db else
    match op
    case Nothing => db
    case DoCreate(job, request, at) => db.(jobs := db.jobs[job := NewRow(request, at)])
    case DoClaim(job, worker, at) => db.(jobs := db.jobs[job := Claimed(db.jobs[job], worker, at)])
    case DoRefresh(job, worker, at) => db.(jobs := db.jobs[job := Refreshed(db.jobs[job], worker, at)])
    case DoComplete(job, worker, listings, at) =>
      Db(db.jobs[job := Completed(db.jobs[job], worker, listings, at)], ApplyItems(db.catalog, listings, job, at))
    case DoFail(job, worker, text, at) => db.(jobs := db.jobs[job := FailedRow(db.jobs[job], worker, text, at)])
    case DoRequeue(job, at, age) => db.(jobs := db.jobs[job := Requeued(db.jobs[job], at, age)])
    case DoPrune(at, days) => db.(catalog := Pruned(db.catalog, at - days * DAY))
  }

  function PerformAll(db: Db, ops: seq<Op>): Db {
    if ops == [] then db else Perform(PerformAll(db, ops[..|ops| - 1]), ops[|ops| - 1])
  }

  datatype Outcome = Ok | ClaimLost | Error

  /** The observations older than that, by product and place in its log. */
  function Expired(catalog: Catalog, from: Time): set<(Key, nat)> {
    set key, i: nat | key in catalog && i < |catalog[key].log| && catalog[key].log[i].at < from :: (key, i)
  }

  /** All observations, by product and place in its log. */
  function Entries(catalog: Catalog): set<(Key, nat)> {
    set key, i: nat | key in catalog && i < |catalog[key].log| :: (key, i)
  }

  /** The places up to n, and those of them that are expired. */
  function Places(key: Key, n: nat): set<(Key, nat)> {
    set i: nat | i < n :: (key, i)
  }

  function ExpiredPlaces(key: Key, log: seq<Observation>, from: Time): set<(Key, nat)> {
    set i: nat | i < |log| && log[i].at < from :: (key, i)
  }

  lemma {:induction false} CountPlaces(key: Key, n: nat)
    ensures |Places(key, n)| == n
  {
    if n == 0 {
      assert Places(key, n) == {};
    } else {
      CountPlaces(key, n - 1);
      assert Places(key, n) == Places(key, n - 1) + {(key, n - 1)};
    }
  }

  lemma {:induction false} CountExpired(key: Key, log: seq<Observation>, from: Time)
    ensures |ExpiredPlaces(key, log, from)| == Older(log, from)
  {
    if log == [] {
      assert ExpiredPlaces(key, log, from) == {};
    } else {
      var n := |log| - 1;
      CountExpired(key, log[..n], from);
      assert ExpiredPlaces(key, log, from)
        == ExpiredPlaces(key, log[..n], from) + (if log[n].at < from then {(key, n)} else {});
    }
  }

  lemma EntriesApart(catalog: Catalog, key: Key)
    requires key in catalog
    ensures |Entries(catalog)| == |Entries(catalog - {key})| + |catalog[key].log|
  {
    var rest, own := Entries(catalog - {key}), Places(key, |catalog[key].log|);
    CountPlaces(key, |catalog[key].log|);
    forall e ensures e in Entries(catalog) <==> e in rest + own {
      assert e.0 == key || (e.0 in catalog - {key} <==> e.0 in catalog);
    }
    assert Entries(catalog) == rest + own && rest !! own;
  }

  lemma ExpiredApart(catalog: Catalog, key: Key, from: Time)
    requires key in catalog
    ensures |Expired(catalog, from)| == |Expired(catalog - {key}, from)| + Older(catalog[key].log, from)
  {
    var rest, own := Expired(catalog - {key}, from), ExpiredPlaces(key, catalog[key].log, from);
    CountExpired(key, catalog[key].log, from);
    forall e ensures e in Expired(catalog, from) <==> e in rest + own {
      assert e.0 == key || (e.0 in catalog - {key} <==> e.0 in catalog);
    }
    assert Expired(catalog, from) == rest + own && rest !! own;
  }

  /** What a prune counts and what it leaves are together what was there. */
  lemma {:induction false} PruneCounts(catalog: Catalog, from: Time)
    ensures |Expired(catalog, from)| + |Entries(Pruned(catalog, from))| == |Entries(catalog)|
    decreases |catalog.Keys|
  {
    if catalog == map[] {
      assert Expired(catalog, from) == {} && Entries(catalog) == {} && Entries(Pruned(catalog, from)) == {};
    } else {
      var key :| key in catalog;
      var rest := catalog - {key};
      assert rest.Keys == catalog.Keys - {key};
      PruneCounts(rest, from);
      EntriesApart(catalog, key);
      ExpiredApart(catalog, key, from);
      EntriesApart(Pruned(catalog, from), key);
      assert Pruned(catalog, from) - {key} == Pruned(rest, from);
      SinceCounts(catalog[key].log, from);
    }
  }

  /** Which answer of a completing transaction is an error: to BEGIN or the first
      SELECT, to the statements for a listing, to the final UPDATE, or to COMMIT,
      which may have landed all the same. */
  datatype Fault = NoFault | AtBegin | AtListing(index: nat) | AtUpdate | AtCommit(landed: bool)

  /** The fault is met by a caller that owns the row; listings without id, title or
      URL are passed over and send no statement. */
  predicate Strikes(fault: Fault, listings: seq<Listing>) {
    match fault
    case NoFault => false
    case AtListing(index) => index < |listings| && Usable(listings[index])
    case _ => true
  }

  /** A failure report that follows a commit whose answer was lost changes nothing. */
  lemma ReportAfterCommitIsVoid(
      db: Db, job: JobId, worker: WorkerId, listings: seq<Listing>, at: Time, text: string, failAt: Time)
    requires OwnedIn(db, job, worker)
    ensures var done := Perform(db, DoComplete(job, worker, listings, at));
            Perform(done, DoFail(job, worker, text, failAt)) == done
            && done.jobs[job].status == Complete && done.jobs[job].result == Some(listings)
  {
  }

  class Store {
    var jobs: map<JobId, Row>
    var catalog: Catalog

    constructor ()
      ensures Contents() == Db(map[], map[])
    {
      jobs, catalog := map[], map[];
    }

    function Contents(): Db
      reads this
    {
      Db(jobs, catalog)
    }

    method CreateJob(job: JobId, request: SearchRequest, at: Time)
      requires job !in jobs
      modifies this
      ensures Contents() == Perform(old(Contents()), DoCreate(job, request, at))
    {
      jobs := jobs[job := NewRow(request, at)];
    }

    /** `locked` are the rows other open transactions hold: SKIP LOCKED passes over them. */
    method ClaimJob(worker: WorkerId, locked: set<JobId>, at: Time) returns (claimed: Option<JobId>)
      modifies this
      ensures claimed.None? <==> forall job :: !Claimable(old(jobs), locked, job)
      ensures claimed.None? ==> Contents() == old(Contents())
      ensures claimed.Some? ==>
                && IsNext(old(jobs), locked, claimed.value)
                && (forall other | Claimable(old(jobs), locked, other) ::
                      var first, row := old(jobs)[claimed.value], old(jobs)[other];
                      first.priority >= row.priority
                      && (first.priority == row.priority ==> first.createdAt <= row.createdAt))
                && Contents() == Perform(old(Contents()), DoClaim(claimed.value, worker, at))
    {
      var candidates := set job | job in jobs && Claimable(jobs, locked, job);
      if candidates == {} {
        assert forall job :: Claimable(jobs, locked, job) ==> job in candidates;
        return None;
      }
      NextExists(jobs, candidates);
      var next :| next in candidates && forall other | other in candidates :: Before(jobs[next], jobs[other]);
      assert IsNext(jobs, locked, next);
      jobs := jobs[next := Claimed(jobs[next], worker, at)];
      claimed := Some(next);
    }

    method RefreshJobClaim(job: JobId, worker: WorkerId, at: Time) returns (outcome: Outcome)
      modifies this
      ensures outcome == if old(OwnedIn(Contents(), job, worker)) then Ok else ClaimLost
      ensures Contents() == Perform(old(Contents()), DoRefresh(job, worker, at))
    {
      if job in jobs && Owned(jobs[job], worker) {
        jobs := jobs[job := Refreshed(jobs[job], worker, at)];
        outcome := Ok;
      } else {
        outcome := ClaimLost;
      }
    }

    method CompleteJob(job: JobId, worker: WorkerId, listings: seq<Listing>, at: Time, fault: Fault)
      returns (outcome: Outcome)
      modifies this
      ensures outcome.Ok? <==> worker != "" && old(OwnedIn(Contents(), job, worker)) && !Strikes(fault, listings)
      ensures outcome.ClaimLost? <==> worker != "" && !old(OwnedIn(Contents(), job, worker)) && fault != AtBegin
      ensures var landed := worker != "" && old(OwnedIn(Contents(), job, worker))
                            && (Strikes(fault, listings) ==> fault == AtCommit(true));
              Contents() == if landed then Perform(old(Contents()), DoComplete(job, worker, listings, at))
                            else old(Contents())
    {
      if worker == "" {
        return Error;
      }
      if fault.AtBegin? {
        return Error;
      }
      if !(job in jobs && Owned(jobs[job], worker)) {
        return ClaimLost;
      }
      var before := catalog;
      var i := 0;
      while i < |listings|
        invariant 0 <= i <= |listings|
        invariant catalog == ApplyItems(before, listings[..i], job, at)
        invariant jobs == old(jobs)
        invariant fault.AtListing? && fault.index < i ==> !Usable(listings[fault.index])
      {
        OneMoreItem(before, listings, i, job, at);
        if Usable(listings[i]) {
          if fault == AtListing(i) {
            catalog := before; // rollback
            return Error;
          }
          var key := KeyOf(listings[i]);
          catalog := catalog[key := Stored(Get(catalog, key), listings[i], job, at)];
        }
        i := i + 1;
      }
      assert listings[..i] == listings;
      if fault.AtUpdate? || fault == AtCommit(false) {
        catalog := before; // rollback
        return Error;
      }
      jobs := jobs[job := Completed(jobs[job], worker, listings, at)];
      outcome := if fault.AtCommit? then Error else Ok;
    }

    method FailJob(job: JobId, worker: WorkerId, text: string, at: Time) returns (outcome: Outcome)
      modifies this
      ensures outcome == if old(OwnedIn(Contents(), job, worker)) then Ok else ClaimLost
      ensures Contents() == Perform(old(Contents()), DoFail(job, worker, text, at))
    {
      if job in jobs && Owned(jobs[job], worker) {
        jobs := jobs[job := FailedRow(jobs[job], worker, text, at)];
        outcome := Ok;
      } else {
        outcome := ClaimLost;
      }
    }

    method RequeueStaleJobs(at: Time, age: int) returns (count: nat)
      modifies this
      ensures catalog == old(catalog) && jobs.Keys == old(jobs).Keys
      ensures forall job | job in jobs :: jobs[job] == Requeued(old(jobs)[job], at, age)
      ensures count == |set job | job in old(jobs) && Stale(old(jobs)[job], at, age)|
      ensures forall job | job in jobs :: !Stale(jobs[job], at, age)
    {
      count := |set job | job in jobs && Stale(jobs[job], at, age)|;
      jobs := map job | job in jobs :: Requeued(jobs[job], at, age);
    }

    method PruneHistory(at: Time, days: int) returns (count: nat)
      modifies this
      ensures Contents() == Perform(old(Contents()), DoPrune(at, days))
      ensures jobs == old(jobs) && catalog.Keys == old(catalog).Keys
      ensures forall key | key in catalog ::
                catalog[key] == old(catalog)[key].(log := Since(old(catalog)[key].log, at - days * DAY))
      ensures count == |Expired(old(catalog), at - days * DAY)|
      ensures count + |Entries(catalog)| == |Entries(old(catalog))|
    {
      PruneCounts(catalog, at - days * DAY);
      count := |Expired(catalog, at - days * DAY)|;
      catalog := Pruned(catalog, at - days * DAY);
    }

    method History(key: Key, at: Time, days: int) returns (points: seq<Observation>)
      ensures points == if key in catalog then Points(catalog[key].log, at, days) else []
      ensures Ordered(points)
    {
      if key !in catalog {
        return [];
      }
      PointsAreTheWindow(catalog[key].log, at, days, at, Window(days));
      points := Points(catalog[key].log, at, days);
    }
  }
}
