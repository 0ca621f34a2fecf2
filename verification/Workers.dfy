/** What a worker slot does with one claim: scrape attempts, at most one commit,
    and at most one failure report. */
module Workers {
  import opened Common
  import opened Jobs
  import opened Stores

  const SECOND: int := 1_000_000_000 // nanoseconds
  const MILLISECOND: int := 1_000_000

  /** 1 << shift */
  function Doubled(base: int, shift: nat): int {
    if shift == 0 then base else 2 * Doubled(base, shift - 1)
  }

  const CAP := 15 * SECOND

  /** The pause after an attempt, without its jitter: twice the one before, up to
      the cap and up to the fifth attempt. */
  function Backoff(base: int, attempt: nat): int
    requires attempt >= 1
  {
    if attempt == 1 then Min(base, CAP)
    else if attempt > 5 then Backoff(base, attempt - 1)
    else Min(2 * Backoff(base, attempt - 1), CAP)
  }

  function Min(a: int, b: int): int {
    if a <= b then a else b
  }

  /** Capping at the end or at every step is the same. */
  lemma {:induction false} CappedDoubling(base: int, attempt: nat)
    requires attempt >= 1
    ensures Backoff(base, attempt) == Min(Doubled(base, if attempt > 5 then 4 else attempt - 1), CAP)
  {
    if attempt > 1 {
      CappedDoubling(base, attempt - 1);
    }
  }

  /** The pause before the next attempt; `jitter` is the random number below 500. */
  method RetryDelay(base: int, attempt: nat, jitter: nat) returns (delay: int)
    requires attempt >= 1 && jitter < 500
    ensures delay == Backoff(base, attempt) + jitter * MILLISECOND
    ensures Backoff(base, attempt) <= delay < Backoff(base, attempt) + 500 * MILLISECOND
    ensures delay < CAP + 500 * MILLISECOND
  {
    var shift := attempt - 1;
    if shift > 4 {
      shift := 4;
    }
    var backoff := Doubled(base, shift);
    if backoff > 15 * SECOND {
      backoff := 15 * SECOND;
    }
    delay := backoff + jitter * MILLISECOND;
    CappedDoubling(base, attempt);
  }

  /** Without jitter, pauses start at the base, double until they reach fifteen
      seconds or the fifth attempt, stay there, and never shrink. */
  lemma {:induction false} BackoffDoublesToACap(base: int, a: nat, b: nat)
    requires base >= 0 && 1 <= a <= b
    ensures 0 <= Backoff(base, a) <= Backoff(base, b) <= CAP
    ensures Backoff(base, 1) == if base > CAP then CAP else base
    ensures 2 <= b <= 5 && Backoff(base, b) < CAP ==> Backoff(base, b) == 2 * Backoff(base, b - 1)
    ensures 5 <= a || Backoff(base, a) == CAP ==> Backoff(base, b) == Backoff(base, a)
    decreases b
  {
    if a < b {
      BackoffDoublesToACap(base, a, b - 1);
    } else if a > 1 {
      BackoffDoublesToACap(base, a - 1, b - 1);
    }
  }

  predicate MayPause(base: int, attempt: nat, delay: int)
    requires attempt >= 1
  {
    exists jitter: nat :: jitter < 500 && delay == Backoff(base, attempt) + jitter * MILLISECOND
  }

  /** Of two pauses, the one after the later attempt is never shorter by half a
      second or more. With a base of half a second or more it is longer as long as
      doubling has not met the cap and the fifth attempt is not over. */
  lemma PausesHardlyShrink(base: int, a: nat, b: nat, early: int, late: int)
    requires base >= 0 && 1 <= a < b && MayPause(base, a, early) && MayPause(base, b, late)
    ensures late > early - 500 * MILLISECOND
    ensures base >= 500 * MILLISECOND && b <= 5 && Backoff(base, b) < CAP ==> late > early
  {
    BackoffDoublesToACap(base, a, b - 1);
    BackoffDoublesToACap(base, b - 1, b);
    BackoffDoublesToACap(base, 1, a);
  }

  /** A later pause can be shorter, for every base and exactly where the backoff
      without jitter has grown by less than the jitter's range. */
  lemma PauseCanShrinkExactly(base: int, a: nat, b: nat)
    requires base >= 0 && 1 <= a < b
    ensures (exists early, late :: MayPause(base, a, early) && MayPause(base, b, late) && late < early)
            <==> Backoff(base, b) < Backoff(base, a) + 499 * MILLISECOND
  {
    if Backoff(base, b) < Backoff(base, a) + 499 * MILLISECOND {
      var early, late := Backoff(base, a) + 499 * MILLISECOND, Backoff(base, b) + 0 * MILLISECOND;
      assert MayPause(base, a, early) && MayPause(base, b, late);
    }
  }

  /** What happens around one attempt: the scrape's listings, or None when it fails;
      whether the heartbeat has reported the claim lost by then; whether the process
      is shutting down after a failed scrape; when the commit starts and which of
      its statements fails. */
  datatype Attempt = Attempt(listings: Option<seq<Listing>>, lost: bool, stopping: bool, at: Time, fault: Fault)

  datatype Trouble = NoTrouble | LostClaim | Other

  datatype Verdict = Committed | Discarded | Stopped | Reported

  /** After this attempt there is no other: it has listings, finds the claim lost, or
      is interrupted by a shutdown. */
  predicate Ends(a: Attempt) {
    a.lost || a.listings.Some? || a.stopping
  }

  /** The attempt is made, and no other after it: the first that ends the matter, or
      the last allowed one if none does. */
  predicate Decides(attempts: seq<Attempt>, i: nat) {
    && i < |attempts| && (forall k | 0 <= k < i :: !Ends(attempts[k]))
    && (Ends(attempts[i]) || i + 1 == |attempts|)
  }

  function Last(attempts: seq<Attempt>): (i: nat)
    requires attempts != []
    ensures Decides(attempts, i)
  {
    if Ends(attempts[0]) || |attempts| == 1 then 0
    else
      var i := Last(attempts[1..]);
      assert forall k | 1 <= k <= i + 1 :: attempts[k] == attempts[1..][k - 1];
      1 + i
  }

  /** No attempt is left out and none is made twice: exactly one decides. */
  lemma OneDecides(attempts: seq<Attempt>, i: nat)
    requires attempts != []
    ensures Decides(attempts, i) <==> i == Last(attempts)
  {
  }

  /** The attempt's commit takes effect, answered or not. */
  predicate Lands(db: Db, job: JobId, worker: WorkerId, a: Attempt) {
    && !a.lost && a.listings.Some? && OwnedIn(db, job, worker)
    && (Strikes(a.fault, a.listings.value) ==> a.fault == AtCommit(true))
  }

  function AfterCommit(db: Db, job: JobId, worker: WorkerId, a: Attempt): Db {
    if Lands(db, job, worker, a) then Perform(db, DoComplete(job, worker, a.listings.value, a.at)) else db
  }

  /** `attempts` has one entry per allowed attempt; `stopping` is whether the
      process is shutting down when the attempts are over. */
  method ProcessClaim(
      store: Store, job: JobId, worker: WorkerId, attempts: seq<Attempt>, stopping: bool, text: string, failAt: Time)
    returns (verdict: Verdict)
    requires attempts != [] && worker != ""
    modifies store
    ensures Decides(attempts, Last(attempts))
    ensures forall i: nat | Decides(attempts, i) ::
              var last, before := attempts[i], old(store.Contents());
              && (verdict.Committed? <==>
                    Lands(before, job, worker, last) && !Strikes(last.fault, last.listings.value))
              && (verdict.Discarded? <==>
                    last.lost || (last.listings.Some? && !OwnedIn(before, job, worker) && last.fault != AtBegin))
    ensures var last, before := attempts[Last(attempts)], old(store.Contents());
            match verdict
            case Committed =>
              && Lands(before, job, worker, last) && !Strikes(last.fault, last.listings.value)
              && store.Contents() == AfterCommit(before, job, worker, last)
            case Discarded =>
              && (last.lost || (last.listings.Some? && !OwnedIn(before, job, worker)))
              && store.Contents() == before
            case Stopped =>
              && stopping && !last.lost && (last.listings.None? || Strikes(last.fault, last.listings.value))
              && store.Contents() == AfterCommit(before, job, worker, last)
            case Reported =>
              && !stopping && !last.lost && (last.listings.None? || Strikes(last.fault, last.listings.value))
              && store.Contents() == if Lands(before, job, worker, last) then AfterCommit(before, job, worker, last)
                                     else Perform(before, DoFail(job, worker, text, failAt))
    ensures verdict.Committed? || verdict.Reported? ==> !OwnedIn(store.Contents(), job, worker)
  {
    forall i: nat ensures Decides(attempts, i) <==> i == Last(attempts) {
      OneDecides(attempts, i);
    }
    var trouble := NoTrouble;
    var k := 0;
    while k < |attempts|
      invariant 0 <= k < |attempts|
      invariant Last(attempts) == k + Last(attempts[k..])
      invariant trouble.NoTrouble? || trouble.Other?
      invariant store.Contents() == old(store.Contents())
      decreases |attempts| - k
    {
      var a := attempts[k];
      assert attempts[k..][0] == a && attempts[k..][1..] == attempts[k + 1..];
      if a.lost {
        trouble := LostClaim;
        break;
      }
      if a.listings.Some? {
        var outcome := store.CompleteJob(job, worker, a.listings.value, a.at, a.fault);
        trouble := match outcome case Ok => NoTrouble case ClaimLost => LostClaim case Error => Other;
        break;
      }
      trouble := Other;
      if a.stopping || k + 1 == |attempts| {
        break;
      }
      k := k + 1;
    }
    if trouble.NoTrouble? {
      return Committed;
    }
    if trouble.LostClaim? {
      return Discarded;
    }
    if stopping {
      return Stopped;
    }
    var last := attempts[k];
    if Lands(old(store.Contents()), job, worker, last) {
      ReportAfterCommitIsVoid(old(store.Contents()), job, worker, last.listings.value, last.at, text, failAt);
    }
    var outcome := store.FailJob(job, worker, text, failAt);
    verdict := Reported;
  }
}
