/** One row of scrape_jobs and the UPDATE statements that change it. Each
    statement carries its own WHERE clause, so each function here is one
    guarded, atomic row update. */
module Jobs {
  import opened Common

  type JobId = nat
  type WorkerId = string
  type Time = int // microseconds

  datatype Status = Queued | Running | Complete | Failed

  /** What the client asked for, and the key it asked with. */
  datatype SearchRequest = SearchRequest(marketplace: string, query: string, limit: int, requester: string)

  datatype Row = Row(
    request: SearchRequest,
    status: Status,
    priority: int,
    createdAt: Time,
    worker: Option<WorkerId>,
    claimedAt: Option<Time>,
    result: Option<seq<Listing>>,
    error: Option<string>,
    finishedAt: Option<Time>)

  const REQUEUE_ERROR := "requeued after stale worker claim"

  function NewRow(request: SearchRequest, at: Time): Row {
    Row(request, Queued, 0, at, None, None, None, None, None)
  }

  predicate Owned(row: Row, worker: WorkerId) {
    row.status == Running && row.worker == Some(worker)
  }

  predicate Terminal(row: Row) {
    row.status == Complete || row.status == Failed
  }

  predicate Stale(row: Row, at: Time, age: int) {
    row.status == Running && row.claimedAt.Some? && row.claimedAt.value < at - age
  }

  function Claimed(row: Row, worker: WorkerId, at: Time): Row {
    row.(status := Running, claimedAt := Some(at), worker := Some(worker), error := None)
  }

  function Refreshed(row: Row, worker: WorkerId, at: Time): Row {
    if Owned(row, worker) then row.(claimedAt := Some(at)) else row
  }

  function Completed(row: Row, worker: WorkerId, listings: seq<Listing>, at: Time): Row {
    if Owned(row, worker)
    then row.(status := Complete, result := Some(listings), finishedAt := Some(at), error := None)
    else row
  }

  function FailedRow(row: Row, worker: WorkerId, text: string, at: Time): Row {
    if Owned(row, worker)
    then row.(status := Failed, error := Some(text), finishedAt := Some(at))
    else row
  }

  function Requeued(row: Row, at: Time, age: int): Row {
    if Stale(row, at, age)
    then row.(status := Queued, claimedAt := None, worker := None, error := Some(REQUEUE_ERROR))
    else row
  }

  /** The status alone decides which of the nullable columns are set. */
  predicate WellShaped(row: Row) {
    match row.status
    case Queued =>
      row.worker.None? && row.claimedAt.None? && row.result.None? && row.finishedAt.None?
      && (row.error.None? || row.error.value == REQUEUE_ERROR)
    case Running =>
      row.worker.Some? && row.claimedAt.Some? && row.result.None? && row.finishedAt.None? && row.error.None?
    case Complete =>
      row.worker.Some? && row.claimedAt.Some? && row.result.Some? && row.finishedAt.Some? && row.error.None?
    case Failed =>
      row.worker.Some? && row.claimedAt.Some? && row.result.None? && row.finishedAt.Some? && row.error.Some?
  }

  /** The row the claim query picks: queued, not locked by another transaction,
      first by priority and then by age. */
  ghost predicate IsNext(jobs: map<JobId, Row>, locked: set<JobId>, job: JobId) {
    && Claimable(jobs, locked, job)
    && forall other | other in jobs && Claimable(jobs, locked, other) ::
         Before(jobs[job], jobs[other])
  }

  predicate Claimable(jobs: map<JobId, Row>, locked: set<JobId>, job: JobId) {
    job in jobs && jobs[job].status == Queued && job !in locked
  }

  /** ORDER BY priority DESC, created_at */
  predicate Before(a: Row, b: Row) {
    a.priority > b.priority || (a.priority == b.priority && a.createdAt <= b.createdAt)
  }

  /** A query over a non-empty set of candidates has a first row. */
  lemma {:induction false} NextExists(jobs: map<JobId, Row>, candidates: set<JobId>)
    requires candidates != {} && candidates <= jobs.Keys
    ensures exists job :: job in candidates && forall other | other in candidates :: Before(jobs[job], jobs[other])
    decreases |candidates|
  {
    var some :| some in candidates;
    var rest := candidates - {some};
    if rest == {} {
      assert candidates == {some};
    } else {
      NextExists(jobs, rest);
      var first :| first in rest && forall other | other in rest :: Before(jobs[first], jobs[other]);
      var winner := if Before(jobs[some], jobs[first]) then some else first;
      forall other | other in candidates ensures Before(jobs[winner], jobs[other]) {
        if other != some { assert other in rest; }
      }
    }
  }
}
