/** Concurrent scrape requests over the marketplace pools and the browser pool:
    the direct path takes a marketplace permit, the browser path a marketplace
    permit and then a browser permit, and any of them may fail or be aborted. */
module ScrapeTasks {
  import opened Common
  import opened PermitPools

  datatype PoolId = Market(name: string) | Browser

  /** Where a request stands. `Leaving` has given back its browser permit, or
      never got one, and still holds its marketplace permit. */
  datatype Stage =
    | ArriveDirect | WaitDirect | HoldDirect
    | ArriveBrowser | WaitMarket | HoldMarket | WaitBrowser | HoldBoth | Leaving
    | Done

  datatype Task = Task(market: string, signal: SignalId, stage: Stage)

  datatype Sys = Sys(pools: map<PoolId, Pool>, tasks: seq<Task>, aborted: set<SignalId>)

  datatype Step =
    | Take(task: TaskId)                  // call acquire
    | Drop(task: TaskId, goOn: bool)      // release the marketplace permit of the direct path
    | Close(task: TaskId)                 // release the browser permit
    | Leave(task: TaskId)                 // release the marketplace permit of the browser path
    | Abort(signal: SignalId)
    | Fire(task: TaskId)                  // an abort listener runs

  function Wanted(t: Task): Option<PoolId> {
    match t.stage
    case ArriveDirect => Some(Market(t.market))
    case ArriveBrowser => Some(Market(t.market))
    case HoldMarket => Some(Browser)
    case _ => None
  }

  function WaitsOn(t: Task): Option<PoolId> {
    match t.stage
    case WaitDirect => Some(Market(t.market))
    case WaitMarket => Some(Market(t.market))
    case WaitBrowser => Some(Browser)
    case _ => None
  }

  predicate Holds(t: Task, p: PoolId) {
    match t.stage
    case HoldDirect => p == Market(t.market)
    case HoldMarket => p == Market(t.market)
    case WaitBrowser => p == Market(t.market)
    case HoldBoth => p == Market(t.market) || p == Browser
    case Leaving => p == Market(t.market)
    case _ => false
  }

  /** The request gets the permit it asked or waited for. */
  function Given(stage: Stage): Stage {
    match stage
    case ArriveDirect => HoldDirect
    case WaitDirect => HoldDirect
    case ArriveBrowser => HoldMarket
    case WaitMarket => HoldMarket
    case HoldMarket => HoldBoth
    case WaitBrowser => HoldBoth
    case other => other
  }

  function MadeToWait(stage: Stage): Stage {
    match stage
    case ArriveDirect => WaitDirect
    case ArriveBrowser => WaitMarket
    case HoldMarket => WaitBrowser
    case other => other
  }

  /** acquire throws: the request ends, after giving back what it still holds. */
  function TurnedAway(stage: Stage): Stage {
    match stage
    case HoldMarket => Leaving
    case WaitBrowser => Leaving
    case _ => Done
  }

  function AsWaiter(s: Sys, t: TaskId): Waiter
    requires t < |s.tasks|
  {
    Waiter(t, Some(s.tasks[t].signal))
  }

  predicate At(s: Sys, t: TaskId, stage: Stage) {
    t < |s.tasks| && s.tasks[t].stage == stage
  }

  ghost predicate Enabled(s: Sys, step: Step) {
    match step
    case Take(t) => t < |s.tasks| && Wanted(s.tasks[t]).Some? && Wanted(s.tasks[t]).value in s.pools
    case Drop(t, goOn) => At(s, t, HoldDirect) && Market(s.tasks[t].market) in s.pools
    case Close(t) => At(s, t, HoldBoth) && Browser in s.pools
    case Leave(t) => At(s, t, Leaving) && Market(s.tasks[t].market) in s.pools
    case Abort(signal) => true
    case Fire(t) =>
      t < |s.tasks| && s.tasks[t].signal in s.aborted
      && WaitsOn(s.tasks[t]).Some? && WaitsOn(s.tasks[t]).value in s.pools
  }

  function Moved(s: Sys, t: TaskId, stage: Stage): Sys
    requires t < |s.tasks|
  {
    s.(tasks := s.tasks[t := s.tasks[t].(stage := stage)])
  }

  /** What becomes of task i when task t gives a permit back and goes to `stage`. */
  function Touched(task: Task, i: TaskId, t: TaskId, stage: Stage, r: Released): Task {
    if i == t then task.(stage := stage)
    else if r.granted == Some(i) then task.(stage := Given(task.stage))
    else if i in r.rejected then task.(stage := TurnedAway(task.stage))
    else task
  }

  function AllTouched(tasks: seq<Task>, t: TaskId, stage: Stage, r: Released): (after: seq<Task>)
    ensures |after| == |tasks| && forall i | 0 <= i < |tasks| :: after[i] == Touched(tasks[i], i, t, stage, r)
  {
    seq(|tasks|, i requires 0 <= i < |tasks| => Touched(tasks[i], i, t, stage, r))
  }

  function GivenBack(s: Sys, t: TaskId, p: PoolId, stage: Stage): Sys
    requires t < |s.tasks| && p in s.pools
  {
    var r := Release(s.pools[p], s.aborted);
    s.(pools := s.pools[p := r.pool], tasks := AllTouched(s.tasks, t, stage, r))
  }

  ghost function Apply(s: Sys, step: Step): Sys
    requires Enabled(s, step)
  {
    match step
    case Take(t) =>
      var p, stage := Wanted(s.tasks[t]).value, s.tasks[t].stage;
      var w := AsWaiter(s, t);
      var next := match AnswerTo(s.pools[p], w, s.aborted)
                  case Granted => Given(stage)
                  case Queued => MadeToWait(stage)
                  case Rejected => TurnedAway(stage);
      Moved(s.(pools := s.pools[p := AfterAcquire(s.pools[p], w, s.aborted)]), t, next)
    case Drop(t, goOn) => GivenBack(s, t, Market(s.tasks[t].market), if goOn then ArriveBrowser else Done)
    case Close(t) => GivenBack(s, t, Browser, Leaving)
    case Leave(t) => GivenBack(s, t, Market(s.tasks[t].market), Done)
    case Abort(signal) => s.(aborted := s.aborted + {signal})
    case Fire(t) =>
      var p := WaitsOn(s.tasks[t]).value;
      Moved(s.(pools := s.pools[p := s.pools[p].(waiters := Without(s.pools[p].waiters, AsWaiter(s, t)))]),
            t, TurnedAway(s.tasks[t].stage))
  }

  // ---------------------------------------------------------------- invariant

  ghost function Holders(tasks: seq<Task>, p: PoolId): set<TaskId> {
    set t | 0 <= t < |tasks| && Holds(tasks[t], p)
  }

  predicate Listed(q: seq<Waiter>, t: TaskId) {
    exists i | 0 <= i < |q| :: q[i].task == t
  }

  predicate Waiting(tasks: seq<Task>, p: PoolId, w: Waiter) {
    w.task < |tasks| && w.signal == Some(tasks[w.task].signal) && WaitsOn(tasks[w.task]) == Some(p)
  }

  predicate Differ(q: seq<Waiter>, i: nat, j: nat) {
    i < j < |q| ==> q[i].task != q[j].task
  }

  ghost predicate Distinct(q: seq<Waiter>) {
    forall i: nat, j: nat :: Differ(q, i, j)
  }

  /** The queue lists exactly the tasks waiting on p, each once. */
  ghost predicate QueueOk(q: seq<Waiter>, tasks: seq<Task>, p: PoolId) {
    && (forall i {:trigger Waiting(tasks, p, q[i])} | 0 <= i < |q| :: Waiting(tasks, p, q[i]))
    && Distinct(q)
    && (forall t {:trigger Listed(q, t)} | 0 <= t < |tasks| && WaitsOn(tasks[t]) == Some(p) :: Listed(q, t))
  }

  ghost predicate PermitsOk(pool: Pool, tasks: seq<Task>, p: PoolId) {
    && 1 <= pool.limit
    && pool.active == |Holders(tasks, p)|
    && pool.active <= pool.limit
    && (pool.waiters != [] ==> pool.active == pool.limit)
  }

  ghost predicate PoolOk(pool: Pool, tasks: seq<Task>, p: PoolId) {
    QueueOk(pool.waiters, tasks, p) && PermitsOk(pool, tasks, p)
  }

  ghost predicate PoolsExist(s: Sys) {
    Browser in s.pools && forall t | 0 <= t < |s.tasks| :: Market(s.tasks[t].market) in s.pools
  }

  ghost predicate Inv(s: Sys) {
    PoolsExist(s) && forall p {:trigger PoolOk(s.pools[p], s.tasks, p)} | p in s.pools :: PoolOk(s.pools[p], s.tasks, p)
  }

  /** Nobody has asked for anything yet. */
  ghost predicate Init(s: Sys) {
    && PoolsExist(s) && s.aborted == {}
    && (forall p | p in s.pools :: s.pools[p].limit >= 1 && s.pools[p].active == 0 && s.pools[p].waiters == [])
    && (forall t | 0 <= t < |s.tasks| :: s.tasks[t].stage == ArriveDirect || s.tasks[t].stage == ArriveBrowser)
  }

  lemma InitInv(s: Sys)
    requires Init(s)
    ensures Inv(s)
  {
    forall p | p in s.pools ensures PoolOk(s.pools[p], s.tasks, p) {
      assert Holders(s.tasks, p) == {};
    }
  }

  /** Seen from pool p, no task has changed. */
  ghost predicate SameFor(p: PoolId, a: seq<Task>, b: seq<Task>) {
    |a| == |b| && forall t {:trigger SameTask(p, a[t], b[t])} | 0 <= t < |a| :: SameTask(p, a[t], b[t])
  }

  predicate SameTask(p: PoolId, a: Task, b: Task) {
    Holds(a, p) == Holds(b, p) && a.signal == b.signal && (WaitsOn(a) == Some(p)) == (WaitsOn(b) == Some(p))
  }

  lemma OtherPool(pool: Pool, a: seq<Task>, b: seq<Task>, p: PoolId)
    requires PoolOk(pool, a, p) && SameFor(p, a, b)
    ensures PoolOk(pool, b, p)
  {
    assert Holders(a, p) == Holders(b, p) by {
      forall t ensures t in Holders(a, p) <==> t in Holders(b, p) {
        assert 0 <= t < |a| ==> SameTask(p, a[t], b[t]);
      }
    }
    forall i | 0 <= i < |pool.waiters| ensures Waiting(b, p, pool.waiters[i]) {
      assert Waiting(a, p, pool.waiters[i]);
      assert SameTask(p, a[pool.waiters[i].task], b[pool.waiters[i].task]);
    }
    forall t | 0 <= t < |b| && WaitsOn(b[t]) == Some(p) ensures Listed(pool.waiters, t) {
      assert SameTask(p, a[t], b[t]);
    }
  }

  // -------------------------------------------- one task moves on its own

  function With(tasks: seq<Task>, t: TaskId, stage: Stage): seq<Task>
    requires t < |tasks|
  {
    tasks[t := tasks[t].(stage := stage)]
  }

  lemma QueueStays(q: seq<Waiter>, tasks: seq<Task>, p: PoolId, t: TaskId, stage: Stage)
    requires t < |tasks| && QueueOk(q, tasks, p)
    requires WaitsOn(tasks[t]) != Some(p) && WaitsOn(tasks[t].(stage := stage)) != Some(p)
    ensures QueueOk(q, With(tasks, t, stage), p)
  {
    forall i | 0 <= i < |q| ensures Waiting(With(tasks, t, stage), p, q[i]) {
      assert Waiting(tasks, p, q[i]);
    }
  }

  lemma QueueGrows(q: seq<Waiter>, tasks: seq<Task>, p: PoolId, t: TaskId, stage: Stage)
    requires t < |tasks| && QueueOk(q, tasks, p)
    requires WaitsOn(tasks[t]) != Some(p) && WaitsOn(tasks[t].(stage := stage)) == Some(p)
    ensures QueueOk(q + [Waiter(t, Some(tasks[t].signal))], With(tasks, t, stage), p)
  {
    var more, after := q + [Waiter(t, Some(tasks[t].signal))], With(tasks, t, stage);
    forall i | 0 <= i < |more| ensures Waiting(after, p, more[i]) && (i < |q| ==> more[i].task != t) {
      if i < |q| { assert Waiting(tasks, p, q[i]); }
    }
    forall i: nat, j: nat ensures Differ(more, i, j) { assert Differ(q, i, j); }
    forall u | 0 <= u < |after| && WaitsOn(after[u]) == Some(p) ensures Listed(more, u) {
      if u == t {
        assert more[|q|].task == t;
      } else {
        assert Listed(q, u);
        var i :| 0 <= i < |q| && q[i].task == u;
        assert more[i].task == u;
      }
    }
  }

  lemma QueueShrinks(q: seq<Waiter>, tasks: seq<Task>, p: PoolId, t: TaskId, stage: Stage)
    requires t < |tasks| && QueueOk(q, tasks, p)
    requires WaitsOn(tasks[t]) == Some(p) && WaitsOn(tasks[t].(stage := stage)) != Some(p)
    ensures var rest := Without(q, Waiter(t, Some(tasks[t].signal)));
            QueueOk(rest, With(tasks, t, stage), p) && |rest| < |q|
  {
    var w := Waiter(t, Some(tasks[t].signal));
    assert Listed(q, t);
    var at :| 0 <= at < |q| && q[at].task == t;
    assert Waiting(tasks, p, q[at]);
    WithoutLeavesRest(q, w, at);
    var rest, after := q[..at] + q[at + 1..], With(tasks, t, stage);
    forall i | 0 <= i < |rest| ensures Waiting(after, p, rest[i]) {
      var j := if i < at then i else i + 1;
      assert rest[i] == q[j] && Waiting(tasks, p, q[j]);
      assert Differ(q, i, at) && Differ(q, at, j);
    }
    forall i: nat, j: nat ensures Differ(rest, i, j) {
      assert Differ(q, if i < at then i else i + 1, if j < at then j else j + 1);
    }
    forall u | 0 <= u < |after| && WaitsOn(after[u]) == Some(p) ensures Listed(rest, u) {
      assert Listed(q, u);
      var i :| 0 <= i < |q| && q[i].task == u;
      assert rest[if i < at then i else i - 1].task == u;
    }
  }

  lemma DistinctRest(q: seq<Waiter>, cut: nat)
    requires Distinct(q) && cut <= |q|
    ensures Distinct(q[cut..])
  {
    forall i: nat, j: nat ensures Differ(q[cut..], i, j) { assert Differ(q, cut + i, cut + j); }
  }

  lemma WithoutLeavesRest(q: seq<Waiter>, w: Waiter, at: nat)
    requires at < |q| && q[at] == w && Distinct(q)
    ensures Without(q, w) == q[..at] + q[at + 1..]
  {
    forall k | 0 <= k < at ensures q[k] != w { assert Differ(q, k, at); }
    WithoutAt(q, w, at);
  }

  lemma PermitTaken(tasks: seq<Task>, p: PoolId, t: TaskId, stage: Stage)
    requires t < |tasks| && !Holds(tasks[t], p)
    ensures Holds(tasks[t].(stage := stage), p) ==> |Holders(With(tasks, t, stage), p)| == |Holders(tasks, p)| + 1
    ensures !Holds(tasks[t].(stage := stage), p) ==> Holders(With(tasks, t, stage), p) == Holders(tasks, p)
  {
    var before, after := Holders(tasks, p), Holders(With(tasks, t, stage), p);
    forall u | u != t ensures u in after <==> u in before {
      assert 0 <= u < |tasks| ==> With(tasks, t, stage)[u] == tasks[u];
    }
    assert t !in before && (t in after <==> Holds(tasks[t].(stage := stage), p));
    assert after == if t in after then before + {t} else before;
  }

  lemma TakeKeeps(s: Sys, t: TaskId)
    requires Inv(s) && Enabled(s, Take(t))
    ensures Inv(Apply(s, Take(t)))
  {
    var s', mine := Apply(s, Take(t)), Wanted(s.tasks[t]).value;
    var stage := s'.tasks[t].stage;
    assert s'.tasks == With(s.tasks, t, stage);
    forall p | p in s'.pools ensures PoolOk(s'.pools[p], s'.tasks, p) {
      assert PoolOk(s.pools[p], s.tasks, p);
      if p != mine {
        OtherPool(s.pools[p], s.tasks, s'.tasks, p);
      } else {
        PermitTaken(s.tasks, p, t, stage);
        if AnswerTo(s.pools[p], AsWaiter(s, t), s.aborted).Queued? {
          QueueGrows(s.pools[p].waiters, s.tasks, p, t, stage);
        } else {
          QueueStays(s.pools[p].waiters, s.tasks, p, t, stage);
        }
      }
    }
  }

  lemma FireKeeps(s: Sys, t: TaskId)
    requires Inv(s) && Enabled(s, Fire(t))
    ensures Inv(Apply(s, Fire(t)))
  {
    var s', mine := Apply(s, Fire(t)), WaitsOn(s.tasks[t]).value;
    var stage := s'.tasks[t].stage;
    assert s'.tasks == With(s.tasks, t, stage);
    forall p | p in s'.pools ensures PoolOk(s'.pools[p], s'.tasks, p) {
      assert PoolOk(s.pools[p], s.tasks, p);
      if p != mine {
        OtherPool(s.pools[p], s.tasks, s'.tasks, p);
      } else {
        PermitTaken(s.tasks, p, t, stage);
        QueueShrinks(s.pools[p].waiters, s.tasks, p, t, stage);
      }
    }
  }

  // ----------------------------------------------- a permit is handed back

  /** The task that gives a permit of p back waits for nothing, before or after. */
  predicate Releasing(tasks: seq<Task>, t: TaskId, p: PoolId, stage: Stage) {
    && t < |tasks| && Holds(tasks[t], p)
    && WaitsOn(tasks[t]).None? && WaitsOn(tasks[t].(stage := stage)).None?
    && !Holds(tasks[t].(stage := stage), p)
  }

  /** How many waiters leave the queue when a permit comes back. */
  function Served(q: seq<Waiter>, aborted: set<SignalId>): nat {
    var n := Dead(q, aborted);
    if n < |q| then n + 1 else n
  }

  lemma ServedTasks(pool: Pool, tasks: seq<Task>, aborted: set<SignalId>, p: PoolId, t: TaskId, stage: Stage, i: nat)
    requires PoolOk(pool, tasks, p) && Releasing(tasks, t, p, stage) && i < |pool.waiters|
    ensures var w, r := pool.waiters[i], Release(pool, aborted);
            w.task < |tasks| && w.task != t
            && (i < Dead(pool.waiters, aborted) ==> r.granted != Some(w.task) && w.task in r.rejected)
            && (i == Dead(pool.waiters, aborted) ==> r.granted == Some(w.task))
            && (i > Dead(pool.waiters, aborted) ==> r.granted != Some(w.task) && w.task !in r.rejected)
  {
    var q, r, n := pool.waiters, Release(pool, aborted), Dead(pool.waiters, aborted);
    assert Waiting(tasks, p, q[i]);
    forall k: nat | k < |q| && k != i ensures q[k].task != q[i].task { assert Differ(q, k, i) && Differ(q, i, k); }
    assert |r.rejected| == n && forall k | 0 <= k < n :: r.rejected[k] == q[k].task;
    assert i < n ==> r.rejected[i] == q[i].task;
  }

  lemma Untouched(pool: Pool, tasks: seq<Task>, aborted: set<SignalId>, p: PoolId, u: TaskId)
    requires PoolOk(pool, tasks, p) && u < |tasks| && WaitsOn(tasks[u]) != Some(p)
    ensures Release(pool, aborted).granted != Some(u) && u !in Release(pool, aborted).rejected
  {
    forall i | 0 <= i < |pool.waiters| ensures pool.waiters[i].task != u {
      assert Waiting(tasks, p, pool.waiters[i]);
    }
  }

  lemma RestWaits(pool: Pool, tasks: seq<Task>, aborted: set<SignalId>, p: PoolId, t: TaskId, stage: Stage, i: nat)
    requires PoolOk(pool, tasks, p) && Releasing(tasks, t, p, stage)
    requires Served(pool.waiters, aborted) <= i < |pool.waiters|
    ensures Waiting(AllTouched(tasks, t, stage, Release(pool, aborted)), p, pool.waiters[i])
  {
    ServedTasks(pool, tasks, aborted, p, t, stage, i);
    assert Waiting(tasks, p, pool.waiters[i]);
  }

  lemma RestListed(pool: Pool, tasks: seq<Task>, aborted: set<SignalId>, p: PoolId, t: TaskId, stage: Stage, u: TaskId)
    requires PoolOk(pool, tasks, p) && Releasing(tasks, t, p, stage) && u < |tasks|
    requires WaitsOn(Touched(tasks[u], u, t, stage, Release(pool, aborted))) == Some(p)
    ensures Listed(pool.waiters[Served(pool.waiters, aborted)..], u)
  {
    var q := pool.waiters;
    assert Listed(q, u);
    var i :| 0 <= i < |q| && q[i].task == u;
    ServedTasks(pool, tasks, aborted, p, t, stage, i);
    InTail(q, Served(q, aborted), i);
  }

  lemma InTail(q: seq<Waiter>, cut: nat, i: nat)
    requires cut <= i < |q|
    ensures Listed(q[cut..], q[i].task)
  {
    assert q[cut..][i - cut].task == q[i].task;
  }

  lemma ReleaseQueue(pool: Pool, tasks: seq<Task>, aborted: set<SignalId>, p: PoolId, t: TaskId, stage: Stage)
    requires PoolOk(pool, tasks, p) && Releasing(tasks, t, p, stage)
    ensures QueueOk(Release(pool, aborted).pool.waiters, AllTouched(tasks, t, stage, Release(pool, aborted)), p)
  {
    var cut, after := Served(pool.waiters, aborted), AllTouched(tasks, t, stage, Release(pool, aborted));
    var rest := pool.waiters[cut..];
    assert Release(pool, aborted).pool.waiters == rest;
    DistinctRest(pool.waiters, cut);
    forall i | 0 <= i < |rest| ensures Waiting(after, p, rest[i]) {
      RestWaits(pool, tasks, aborted, p, t, stage, cut + i);
    }
    forall u | 0 <= u < |after| && WaitsOn(after[u]) == Some(p) ensures Listed(rest, u) {
      RestListed(pool, tasks, aborted, p, t, stage, u);
    }
  }

  /** The task that is handed the permit, if any. */
  function Heir(q: seq<Waiter>, aborted: set<SignalId>): set<TaskId> {
    if Dead(q, aborted) < |q| then {q[Dead(q, aborted)].task} else {}
  }

  lemma HeldAfter(pool: Pool, tasks: seq<Task>, aborted: set<SignalId>, p: PoolId, t: TaskId, stage: Stage, u: TaskId)
    requires PoolOk(pool, tasks, p) && Releasing(tasks, t, p, stage) && u < |tasks|
    ensures var after := Touched(tasks[u], u, t, stage, Release(pool, aborted));
            Holds(after, p) <==> u != t && (Holds(tasks[u], p) || u in Heir(pool.waiters, aborted))
    ensures u in Heir(pool.waiters, aborted) ==> u != t && !Holds(tasks[u], p)
  {
    var q := pool.waiters;
    if WaitsOn(tasks[u]) == Some(p) {
      assert Listed(q, u);
      var i :| 0 <= i < |q| && q[i].task == u;
      ServedTasks(pool, tasks, aborted, p, t, stage, i);
    } else {
      Untouched(pool, tasks, aborted, p, u);
    }
  }

  lemma ReleasePermits(pool: Pool, tasks: seq<Task>, aborted: set<SignalId>, p: PoolId, t: TaskId, stage: Stage)
    requires PoolOk(pool, tasks, p) && Releasing(tasks, t, p, stage)
    ensures PermitsOk(Release(pool, aborted).pool, AllTouched(tasks, t, stage, Release(pool, aborted)), p)
    ensures !Release(pool, aborted).error
  {
    var after := AllTouched(tasks, t, stage, Release(pool, aborted));
    var before, heir := Holders(tasks, p), Heir(pool.waiters, aborted);
    assert t in before;
    forall u | u in heir ensures u < |tasks| && u !in before {
      ServedTasks(pool, tasks, aborted, p, t, stage, Dead(pool.waiters, aborted));
      HeldAfter(pool, tasks, aborted, p, t, stage, u);
    }
    forall u ensures u in Holders(after, p) <==> u in before - {t} + heir {
      if 0 <= u < |tasks| {
        HeldAfter(pool, tasks, aborted, p, t, stage, u);
      }
    }
    assert Holders(after, p) == before - {t} + heir;
    assert |heir| == if Dead(pool.waiters, aborted) < |pool.waiters| then 1 else 0;
    Replaced(before, t, heir);
  }

  lemma Replaced(held: set<TaskId>, t: TaskId, heir: set<TaskId>)
    requires t in held && heir !! held
    ensures |held - {t} + heir| == |held| - 1 + |heir|
  {
    assert |held - {t}| == |held| - 1;
    assert |held - {t} + heir| == |held - {t}| + |heir|;
  }

  lemma ReleaseKeeps(s: Sys, t: TaskId, p: PoolId, stage: Stage)
    requires Inv(s) && p in s.pools && Releasing(s.tasks, t, p, stage)
    requires forall other | other != p :: Holds(s.tasks[t].(stage := stage), other) == Holds(s.tasks[t], other)
    ensures Inv(GivenBack(s, t, p, stage))
  {
    var s' := GivenBack(s, t, p, stage);
    assert PoolOk(s.pools[p], s.tasks, p);
    forall other | other in s'.pools ensures PoolOk(s'.pools[other], s'.tasks, other) {
      if other == p {
        ReleaseQueue(s.pools[p], s.tasks, s.aborted, p, t, stage);
        ReleasePermits(s.pools[p], s.tasks, s.aborted, p, t, stage);
      } else {
        forall u | 0 <= u < |s.tasks| ensures SameTask(other, s.tasks[u], s'.tasks[u]) {
          if WaitsOn(s.tasks[u]) != Some(p) {
            Untouched(s.pools[p], s.tasks, s.aborted, p, u);
          }
        }
        OtherPool(s.pools[other], s.tasks, s'.tasks, other);
      }
    }
  }

  lemma InvKept(s: Sys, step: Step)
    requires Inv(s) && Enabled(s, step)
    ensures Inv(Apply(s, step))
  {
    match step
    case Take(t) => TakeKeeps(s, t);
    case Drop(t, goOn) => ReleaseKeeps(s, t, Market(s.tasks[t].market), if goOn then ArriveBrowser else Done);
    case Close(t) => ReleaseKeeps(s, t, Browser, Leaving);
    case Leave(t) => ReleaseKeeps(s, t, Market(s.tasks[t].market), Done);
    case Abort(_) =>
    case Fire(t) => FireKeeps(s, t);
  }

  // ------------------------------------------------------------------- runs

  ghost predicate Taken(s: Sys, step: Step, s': Sys) {
    Enabled(s, step) && s' == Apply(s, step)
  }

  /** Step i leads from state i to the next. */
  ghost predicate TakenAt(states: seq<Sys>, steps: seq<Step>, i: nat)
    requires i < |steps| < |states|
  {
    Taken(states[i], steps[i], states[i + 1])
  }

  ghost predicate Run(states: seq<Sys>, steps: seq<Step>) {
    && |states| == |steps| + 1
    && Init(states[0])
    && forall i {:trigger TakenAt(states, steps, i)} | 0 <= i < |steps| :: TakenAt(states, steps, i)
  }

  lemma {:induction false} RunInv(states: seq<Sys>, steps: seq<Step>, i: nat)
    requires Run(states, steps) && i <= |steps|
    ensures Inv(states[i]) && |states[i].tasks| == |states[0].tasks|
  {
    if i == 0 {
      InitInv(states[0]);
    } else {
      RunInv(states, steps, i - 1);
      assert TakenAt(states, steps, i - 1);
      InvKept(states[i - 1], steps[i - 1]);
    }
  }

  /** The open browser contexts of one marketplace, or of all. */
  ghost function Open(tasks: seq<Task>, p: PoolId): set<TaskId> {
    set t | 0 <= t < |tasks| && tasks[t].stage == HoldBoth && Holds(tasks[t], p)
  }

  /** In every interleaving the count is the number of holders, stays within the
      limit, is at the limit while anyone waits, and bounds the open contexts. */
  lemma PermitsAreConserved(states: seq<Sys>, steps: seq<Step>, i: nat, p: PoolId)
    requires Run(states, steps) && i <= |steps| && p in states[i].pools
    ensures var s, pool := states[i], states[i].pools[p];
            pool.active == |Holders(s.tasks, p)| && pool.active <= pool.limit
            && (pool.waiters != [] ==> pool.active == pool.limit)
            && |Open(s.tasks, p)| <= pool.limit
  {
    RunInv(states, steps, i);
    assert PoolOk(states[i].pools[p], states[i].tasks, p);
    SubsetCount(Open(states[i].tasks, p), Holders(states[i].tasks, p));
  }

  /** release never finds the pool without an active permit. */
  lemma ReleaseNeverThrows(states: seq<Sys>, steps: seq<Step>, i: nat, p: PoolId, t: TaskId)
    requires Run(states, steps) && i <= |steps| && p in states[i].pools
    requires t < |states[i].tasks| && Holds(states[i].tasks[t], p)
    ensures !Release(states[i].pools[p], states[i].aborted).error
  {
    RunInv(states, steps, i);
    assert PoolOk(states[i].pools[p], states[i].tasks, p);
    assert t in Holders(states[i].tasks, p);
  }

  // -------------------------------------------------------------- progress

  function Rank(stage: Stage): nat {
    match stage
    case ArriveDirect => 9
    case WaitDirect => 8
    case HoldDirect => 7
    case ArriveBrowser => 6
    case WaitMarket => 5
    case HoldMarket => 4
    case WaitBrowser => 3
    case HoldBoth => 2
    case Leaving => 1
    case Done => 0
  }

  function Work(tasks: seq<Task>): nat {
    if tasks == [] then 0 else Work(tasks[..|tasks| - 1]) + Rank(tasks[|tasks| - 1].stage)
  }

  lemma {:induction false} WorkFalls(a: seq<Task>, b: seq<Task>, t: TaskId)
    requires |a| == |b| && forall i | 0 <= i < |a| :: Rank(b[i].stage) <= Rank(a[i].stage)
    ensures Work(b) <= Work(a)
    ensures t < |a| && Rank(b[t].stage) < Rank(a[t].stage) ==> Work(b) < Work(a)
  {
    if a != [] {
      WorkFalls(a[..|a| - 1], b[..|b| - 1], t);
    }
  }

  lemma TouchedWorks(tasks: seq<Task>, t: TaskId, stage: Stage, r: Released)
    requires t < |tasks| && Rank(stage) < Rank(tasks[t].stage)
    ensures Work(AllTouched(tasks, t, stage, r)) < Work(tasks)
  {
    var after := AllTouched(tasks, t, stage, r);
    forall i | 0 <= i < |tasks| ensures Rank(after[i].stage) <= Rank(tasks[i].stage) {
      TouchedRank(tasks[i], i, t, stage, r);
    }
    WorkFalls(tasks, after, t);
  }

  lemma TouchedRank(task: Task, i: TaskId, t: TaskId, stage: Stage, r: Released)
    requires i == t ==> Rank(stage) <= Rank(task.stage)
    ensures Rank(Touched(task, i, t, stage, r).stage) <= Rank(task.stage)
  {
  }

  lemma StepWorks(s: Sys, step: Step)
    requires Enabled(s, step)
    ensures if step.Abort? then Apply(s, step).tasks == s.tasks else Work(Apply(s, step).tasks) < Work(s.tasks)
  {
    match step
    case Take(t) => WorkFalls(s.tasks, Apply(s, step).tasks, t);
    case Fire(t) => WorkFalls(s.tasks, Apply(s, step).tasks, t);
    case Drop(t, goOn) =>
      var released := Release(s.pools[Market(s.tasks[t].market)], s.aborted);
      TouchedWorks(s.tasks, t, if goOn then ArriveBrowser else Done, released);
    case Close(t) => TouchedWorks(s.tasks, t, Leaving, Release(s.pools[Browser], s.aborted));
    case Leave(t) => TouchedWorks(s.tasks, t, Done, Release(s.pools[Market(s.tasks[t].market)], s.aborted));
    case Abort(_) =>
  }

  function Moves(steps: seq<Step>): nat {
    if steps == [] then 0
    else Moves(steps[..|steps| - 1]) + (if steps[|steps| - 1].Abort? then 0 else 1)
  }

  lemma {:induction false} WorkPaysForMoves(states: seq<Sys>, steps: seq<Step>, n: nat)
    requires Run(states, steps) && n <= |steps|
    ensures Moves(steps[..n]) + Work(states[n].tasks) <= Work(states[0].tasks)
  {
    if n > 0 {
      WorkPaysForMoves(states, steps, n - 1);
      RunInv(states, steps, n - 1);
      assert TakenAt(states, steps, n - 1);
      StepWorks(states[n - 1], steps[n - 1]);
      assert steps[..n][..n - 1] == steps[..n - 1];
    }
  }

  lemma {:induction false} WorkAtMost(tasks: seq<Task>)
    ensures Work(tasks) <= 9 * |tasks|
  {
    if tasks != [] {
      WorkAtMost(tasks[..|tasks| - 1]);
    }
  }

  predicate Finished(s: Sys) {
    forall t | 0 <= t < |s.tasks| :: s.tasks[t].stage == Done
  }

  predicate Drained(s: Sys) {
    forall p | p in s.pools :: s.pools[p].active == 0 && s.pools[p].waiters == []
  }

  /** A pool someone waits for has a holder. */
  lemma SomeHolder(s: Sys, p: PoolId, t: TaskId) returns (h: TaskId)
    requires Inv(s) && p in s.pools && t < |s.tasks| && WaitsOn(s.tasks[t]) == Some(p)
    ensures h < |s.tasks| && Holds(s.tasks[h], p)
  {
    assert PoolOk(s.pools[p], s.tasks, p);
    assert Listed(s.pools[p].waiters, t);
    assert Holders(s.tasks, p) != {};
    h :| h in Holders(s.tasks, p);
  }

  /** Unless every request is finished, some request can move. */
  lemma NoDeadlock(s: Sys) returns (step: Step)
    requires Inv(s) && !Finished(s)
    ensures Enabled(s, step) && !step.Abort?
  {
    var t :| 0 <= t < |s.tasks| && s.tasks[t].stage != Done;
    var market := Market(s.tasks[t].market);
    if WaitsOn(s.tasks[t]) == Some(market) {
      t := SomeHolder(s, market, t);
    }
    if WaitsOn(s.tasks[t]) == Some(Browser) {
      t := SomeHolder(s, Browser, t);
    }
    var stage := s.tasks[t].stage;
    step := if stage == HoldDirect then Drop(t, false)
            else if stage == HoldBoth then Close(t)
            else if stage == Leaving then Leave(t)
            else Take(t);
  }

  lemma FinishedIsDrained(s: Sys)
    requires Inv(s) && Finished(s)
    ensures Drained(s)
  {
    forall p | p in s.pools ensures s.pools[p].active == 0 && s.pools[p].waiters == [] {
      assert PoolOk(s.pools[p], s.tasks, p);
      assert Holders(s.tasks, p) == {};
    }
  }

  /** Whatever fails or is aborted, a run makes at most nine moves per request, can
      always go on until all requests are finished, and then every permit is back. */
  lemma EveryRunDrains(states: seq<Sys>, steps: seq<Step>)
    requires Run(states, steps)
    ensures Moves(steps) <= 9 * |states[0].tasks|
    ensures (exists step :: Enabled(states[|steps|], step) && !step.Abort?) || Finished(states[|steps|])
    ensures Finished(states[|steps|]) ==> Drained(states[|steps|])
  {
    var last := states[|steps|];
    RunInv(states, steps, |steps|);
    WorkPaysForMoves(states, steps, |steps|);
    assert steps[..|steps|] == steps;
    WorkAtMost(states[0].tasks);
    if Finished(last) {
      FinishedIsDrained(last);
    } else {
      var step := NoDeadlock(last);
    }
  }

  // ---------------------------------------------------------------- fairness

  predicate Ahead(q: seq<Waiter>, a: TaskId, b: TaskId) {
    exists i, j | 0 <= i < j < |q| :: q[i].task == a && q[j].task == b
  }

  /** While someone waits, only a release grants. */
  lemma GrantIsHandOff(s: Sys, step: Step, p: PoolId, a: TaskId, t: TaskId)
    requires Enabled(s, step) && p in s.pools && PoolOk(s.pools[p], s.tasks, p)
    requires a < |s.tasks| && t < |s.tasks| && WaitsOn(s.tasks[a]) == Some(p)
    requires !Holds(s.tasks[t], p) && Holds(Apply(s, step).tasks[t], p)
    ensures step.Drop? || step.Close? || step.Leave?
  {
    assert Listed(s.pools[p].waiters, a);
  }

  /** Whoever is granted a permit while task `a` keeps waiting for one was already
      queued in front of it. */
  lemma GrantsInOrder(s: Sys, step: Step, p: PoolId, a: TaskId, t: TaskId)
    requires Inv(s) && Enabled(s, step) && p in s.pools && a < |s.tasks| && t < |s.tasks|
    requires WaitsOn(s.tasks[a]) == Some(p) && WaitsOn(Apply(s, step).tasks[a]) == Some(p)
    requires !Holds(s.tasks[t], p) && Holds(Apply(s, step).tasks[t], p)
    ensures Ahead(s.pools[p].waiters, t, a)
  {
    assert PoolOk(s.pools[p], s.tasks, p);
    GrantIsHandOff(s, step, p, a, t);
    if step.Drop? {
      var u, stage := step.task, if step.goOn then ArriveBrowser else Done;
      HandOffInOrder(s, u, Market(s.tasks[u].market), stage, p, a, t);
    } else if step.Close? {
      HandOffInOrder(s, step.task, Browser, Leaving, p, a, t);
    } else {
      HandOffInOrder(s, step.task, Market(s.tasks[step.task].market), Done, p, a, t);
    }
  }

  lemma HandOffInOrder(s: Sys, u: TaskId, own: PoolId, stage: Stage, p: PoolId, a: TaskId, t: TaskId)
    requires Inv(s) && own in s.pools && p in s.pools && Releasing(s.tasks, u, own, stage)
    requires forall other | other != own :: Holds(s.tasks[u].(stage := stage), other) == Holds(s.tasks[u], other)
    requires a < |s.tasks| && t < |s.tasks|
    requires WaitsOn(s.tasks[a]) == Some(p) && WaitsOn(GivenBack(s, u, own, stage).tasks[a]) == Some(p)
    requires !Holds(s.tasks[t], p) && Holds(GivenBack(s, u, own, stage).tasks[t], p)
    ensures Ahead(s.pools[p].waiters, t, a)
  {
    assert PoolOk(s.pools[own], s.tasks, own) && PoolOk(s.pools[p], s.tasks, p);
    if WaitsOn(s.tasks[t]) != Some(own) {
      Untouched(s.pools[own], s.tasks, s.aborted, own, t);
    }
    assert own == p;
    var q := s.pools[p].waiters;
    assert Listed(q, a);
    var j :| 0 <= j < |q| && q[j].task == a;
    HeldAfter(s.pools[p], s.tasks, s.aborted, p, u, stage, t);
    ServedTasks(s.pools[p], s.tasks, s.aborted, p, u, stage, j);
    var i := Dead(q, s.aborted);
    assert i < j && q[i].task == t;
  }

  lemma HeirIsLive(s: Sys, u: TaskId, own: PoolId, stage: Stage, p: PoolId, t: TaskId)
    requires Inv(s) && own in s.pools && p in s.pools && Releasing(s.tasks, u, own, stage)
    requires forall other | other != own :: Holds(s.tasks[u].(stage := stage), other) == Holds(s.tasks[u], other)
    requires t < |s.tasks| && !Holds(s.tasks[t], p) && Holds(GivenBack(s, u, own, stage).tasks[t], p)
    ensures s.tasks[t].signal !in s.aborted
  {
    assert PoolOk(s.pools[own], s.tasks, own);
    if WaitsOn(s.tasks[t]) != Some(own) {
      Untouched(s.pools[own], s.tasks, s.aborted, own, t);
    }
    assert own == p;
    HeldAfter(s.pools[p], s.tasks, s.aborted, p, u, stage, t);
    var q := s.pools[p].waiters;
    assert Waiting(s.tasks, p, q[Dead(q, s.aborted)]);
  }

  /** An aborted request never gains a permit, neither by asking nor by waiting. */
  lemma AbortedGainNothing(s: Sys, step: Step, p: PoolId, t: TaskId)
    requires Inv(s) && Enabled(s, step) && p in s.pools && t < |s.tasks|
    requires !Holds(s.tasks[t], p) && Holds(Apply(s, step).tasks[t], p)
    ensures s.tasks[t].signal !in s.aborted
  {
    match step
    case Drop(u, goOn) => HeirIsLive(s, u, Market(s.tasks[u].market), if goOn then ArriveBrowser else Done, p, t);
    case Close(u) => HeirIsLive(s, u, Browser, Leaving, p, t);
    case Leave(u) => HeirIsLive(s, u, Market(s.tasks[u].market), Done, p, t);
    case _ =>
  }

  /** The request has given up waiting for this pool's permit, and will not hold it. */
  predicate Gone(t: Task, p: PoolId) {
    t.stage == Done || (t.stage == Leaving && p == Browser)
  }

  /** What the request asks for or waits for. */
  function Due(t: Task): Option<PoolId> {
    if Wanted(t).Some? then Wanted(t) else WaitsOn(t)
  }

  lemma ServedByRelease(s: Sys, u: TaskId, own: PoolId, stage: Stage, t: TaskId)
    requires Inv(s) && own in s.pools && Releasing(s.tasks, u, own, stage) && t < |s.tasks| && t != u
    requires Due(s.tasks[t]).Some? && s.tasks[t].signal !in s.aborted
    ensures var after := GivenBack(s, u, own, stage).tasks[t];
            after == s.tasks[t] || Holds(after, Due(s.tasks[t]).value)
  {
    assert PoolOk(s.pools[own], s.tasks, own);
    var q := s.pools[own].waiters;
    if WaitsOn(s.tasks[t]) != Some(own) {
      Untouched(s.pools[own], s.tasks, s.aborted, own, t);
    } else {
      var r := Release(s.pools[own], s.aborted);
      forall i | 0 <= i < |r.rejected| ensures r.rejected[i] != t {
        assert Waiting(s.tasks, own, q[i]);
      }
    }
  }

  /** No request is turned away while its signal is not aborted: what it asks for or
      waits for it gets, waits for, or still has to ask for. */
  lemma LiveIsNotTurnedAway(s: Sys, step: Step, t: TaskId)
    requires Inv(s) && Enabled(s, step) && t < |s.tasks|
    requires Due(s.tasks[t]).Some? && s.tasks[t].signal !in s.aborted
    ensures var after, p := Apply(s, step).tasks[t], Due(s.tasks[t]).value;
            after == s.tasks[t] || WaitsOn(after) == Some(p) || Holds(after, p)
  {
    match step
    case Drop(u, goOn) => ServedByRelease(s, u, Market(s.tasks[u].market), if goOn then ArriveBrowser else Done, t);
    case Close(u) => ServedByRelease(s, u, Browser, Leaving, t);
    case Leave(u) => ServedByRelease(s, u, Market(s.tasks[u].market), Done, t);
    case _ =>
  }

  predicate OnDirectPath(t: Task) {
    t.stage == ArriveDirect || t.stage == WaitDirect || t.stage == HoldDirect
  }

  /** What may become of a request in one step: it stays on its path or is done, or goes
      over from the direct path to the browser path by giving its permit back; and on
      the browser path a marketplace permit is followed by the browser permit. */
  predicate OnItsPath(before: Task, after: Task, step: Step, t: TaskId) {
    && after.market == before.market && after.signal == before.signal
    && (OnDirectPath(after) ==> OnDirectPath(before))
    && (OnDirectPath(before) && !OnDirectPath(after) && after.stage != Done ==> step == Drop(t, true))
    && (!OnDirectPath(after) && Holds(after, Market(after.market)) && !Holds(before, Market(before.market))
        ==> Wanted(after) == Some(Browser))
  }

  lemma ReleaseKeepsPaths(s: Sys, step: Step, u: TaskId, own: PoolId, stage: Stage, t: TaskId)
    requires Inv(s) && own in s.pools && u < |s.tasks| && t < |s.tasks| && t != u
    ensures OnItsPath(s.tasks[t], GivenBack(s, u, own, stage).tasks[t], step, t)
  {
    var r := Release(s.pools[own], s.aborted);
    assert WaitsOn(s.tasks[t]).Some? || (r.granted != Some(t) && t !in r.rejected) by {
      assert PoolOk(s.pools[own], s.tasks, own);
      if WaitsOn(s.tasks[t]).None? {
        Untouched(s.pools[own], s.tasks, s.aborted, own, t);
      }
    }
    WaiterKeepsPath(s.tasks[t], step, t, u, stage, r);
  }

  lemma WaiterKeepsPath(task: Task, step: Step, t: TaskId, u: TaskId, stage: Stage, r: Released)
    requires t != u && (WaitsOn(task).Some? || (r.granted != Some(t) && t !in r.rejected))
    ensures OnItsPath(task, Touched(task, t, u, stage, r), step, t)
  {
  }

  lemma PathsAreFollowed(s: Sys, step: Step, t: TaskId)
    requires Inv(s) && Enabled(s, step) && t < |s.tasks|
    ensures OnItsPath(s.tasks[t], Apply(s, step).tasks[t], step, t)
  {
    if step.Drop? && step.task != t {
      var stage := if step.goOn then ArriveBrowser else Done;
      ReleaseKeepsPaths(s, step, step.task, Market(s.tasks[step.task].market), stage, t);
    } else if step.Close? && step.task != t {
      ReleaseKeepsPaths(s, step, step.task, Browser, Leaving, t);
    } else if step.Leave? && step.task != t {
      ReleaseKeepsPaths(s, step, step.task, Market(s.tasks[step.task].market), Done, t);
    }
  }

  /** After the direct path a request holds nothing, and asks for its marketplace permit
      again exactly if it goes on; on the browser path it gives back the browser permit
      first, and then the other. */
  lemma GivesBackInTurn(s: Sys, step: Step)
    requires Enabled(s, step) && (step.Drop? || step.Close? || step.Leave?)
    ensures var after := Apply(s, step).tasks[step.task];
            match step
            case Drop(_, goOn) =>
              (forall p :: !Holds(after, p))
              && (if goOn then Wanted(after) == Some(Market(after.market)) else after.stage == Done)
            case Close(_) => forall p :: Holds(after, p) <==> p == Market(after.market)
            case _ => after.stage == Done
  {
  }

  predicate InOrder(q: seq<Waiter>, rest: seq<Waiter>, i: nat, j: nat) {
    i < j < |rest| && Listed(q, rest[i].task) && Listed(q, rest[j].task) ==> Ahead(q, rest[i].task, rest[j].task)
  }

  /** Tasks that both q and `rest` list stand in the same order in both. */
  ghost predicate KeepsOrder(q: seq<Waiter>, rest: seq<Waiter>) {
    forall i: nat, j: nat :: InOrder(q, rest, i, j)
  }

  lemma NotListed(q: seq<Waiter>, tasks: seq<Task>, p: PoolId, t: TaskId)
    requires QueueOk(q, tasks, p) && t < |tasks| && WaitsOn(tasks[t]) != Some(p)
    ensures !Listed(q, t)
  {
    forall k | 0 <= k < |q| ensures q[k].task != t { assert Waiting(tasks, p, q[k]); }
  }

  lemma SamePosition(q: seq<Waiter>, i: nat, k: nat)
    requires Distinct(q) && i < |q| && k < |q| && q[i].task == q[k].task
    ensures i == k
  {
    assert Differ(q, i, k) && Differ(q, k, i);
  }

  lemma AheadOneWay(q: seq<Waiter>, a: TaskId, b: TaskId)
    requires Distinct(q) && Ahead(q, a, b)
    ensures !Ahead(q, b, a)
  {
    var i, j :| 0 <= i < j < |q| && q[i].task == a && q[j].task == b;
    forall k, m | 0 <= k < m < |q| ensures !(q[k].task == b && q[m].task == a) {
      if q[k].task == b && q[m].task == a {
        SamePosition(q, j, k);
        SamePosition(q, i, m);
        assert false;
      }
    }
  }

  lemma CutKeepsOrder(q: seq<Waiter>, cut: nat)
    requires cut <= |q|
    ensures KeepsOrder(q, q[cut..])
  {
    var rest := q[cut..];
    forall i: nat, j: nat ensures InOrder(q, rest, i, j) {
      if i < j < |rest| {
        assert rest[i] == q[cut + i] && rest[j] == q[cut + j];
      }
    }
  }

  lemma DropKeepsOrder(q: seq<Waiter>, at: nat)
    requires at < |q|
    ensures KeepsOrder(q, q[..at] + q[at + 1..])
  {
    var rest := q[..at] + q[at + 1..];
    forall i: nat, j: nat ensures InOrder(q, rest, i, j) {
      if i < j < |rest| {
        var x, y := if i < at then i else i + 1, if j < at then j else j + 1;
        assert rest[i] == q[x] && rest[j] == q[y];
      }
    }
  }

  lemma AddKeepsOrder(q: seq<Waiter>, w: Waiter)
    requires !Listed(q, w.task)
    ensures KeepsOrder(q, q + [w])
  {
    var more := q + [w];
    forall i: nat, j: nat ensures InOrder(q, more, i, j) {
      if i < j < |q| {
        assert more[i] == q[i] && more[j] == q[j];
      }
    }
  }

  lemma LeavingKeepsOrder(q: seq<Waiter>, tasks: seq<Task>, p: PoolId, t: TaskId)
    requires QueueOk(q, tasks, p) && t < |tasks| && WaitsOn(tasks[t]) == Some(p)
    ensures KeepsOrder(q, Without(q, Waiter(t, Some(tasks[t].signal))))
  {
    assert Listed(q, t);
    var at :| 0 <= at < |q| && q[at].task == t;
    assert Waiting(tasks, p, q[at]);
    WithoutLeavesRest(q, Waiter(t, Some(tasks[t].signal)), at);
    DropKeepsOrder(q, at);
  }

  /** No step reorders a queue. */
  lemma QueuesKeepOrder(s: Sys, step: Step, p: PoolId)
    requires Inv(s) && Enabled(s, step) && p in s.pools
    ensures KeepsOrder(s.pools[p].waiters, Apply(s, step).pools[p].waiters)
  {
    var q := s.pools[p].waiters;
    assert PoolOk(s.pools[p], s.tasks, p);
    assert q[0..] == q;
    CutKeepsOrder(q, 0);
    if step.Fire? && WaitsOn(s.tasks[step.task]) == Some(p) {
      LeavingKeepsOrder(q, s.tasks, p, step.task);
    } else if step.Take? {
      NotListed(q, s.tasks, p, step.task);
      AddKeepsOrder(q, AsWaiter(s, step.task));
    } else {
      CutKeepsOrder(q, Served(q, s.aborted));
    }
  }

  lemma StillBehind(s: Sys, step: Step, p: PoolId, a: TaskId, b: TaskId)
    requires Inv(s) && Enabled(s, step) && p in s.pools && a < |s.tasks|
    requires Ahead(s.pools[p].waiters, a, b) && WaitsOn(Apply(s, step).tasks[a]) == Some(p)
    ensures b < |s.tasks|
    ensures Ahead(Apply(s, step).pools[p].waiters, a, b) || Gone(Apply(s, step).tasks[b], p)
  {
    var q, s' := s.pools[p].waiters, Apply(s, step);
    assert PoolOk(s.pools[p], s.tasks, p);
    AheadOneWay(q, a, b);
    var i, j :| 0 <= i < j < |q| && q[i].task == a && q[j].task == b;
    assert Waiting(s.tasks, p, q[i]) && Waiting(s.tasks, p, q[j]);
    if Gone(s'.tasks[b], p) {
    } else if Holds(s'.tasks[b], p) {
      GrantsInOrder(s, step, p, a, b);
      assert false;
    } else {
      StaysOrMoves(s, step, p, b);
      StayBehind(s, step, p, a, b);
    }
  }

  lemma StaysOrMoves(s: Sys, step: Step, p: PoolId, t: TaskId)
    requires Inv(s) && Enabled(s, step) && t < |s.tasks| && WaitsOn(s.tasks[t]) == Some(p)
    ensures var t' := Apply(s, step).tasks[t];
            WaitsOn(t') == Some(p) || Holds(t', p) || Gone(t', p)
  {
  }

  lemma StayBehind(s: Sys, step: Step, p: PoolId, a: TaskId, b: TaskId)
    requires Inv(s) && Enabled(s, step) && p in s.pools && a < |s.tasks| && b < |s.tasks|
    requires Ahead(s.pools[p].waiters, a, b)
    requires WaitsOn(Apply(s, step).tasks[a]) == Some(p) && WaitsOn(Apply(s, step).tasks[b]) == Some(p)
    ensures Ahead(Apply(s, step).pools[p].waiters, a, b)
  {
    var s' := Apply(s, step);
    InvKept(s, step);
    assert PoolOk(s.pools[p], s.tasks, p) && PoolOk(s'.pools[p], s'.tasks, p);
    QueuesKeepOrder(s, step, p);
    assert Listed(s'.pools[p].waiters, a) && Listed(s'.pools[p].waiters, b);
    OrderCarriesOver(s.pools[p].waiters, s'.pools[p].waiters, a, b);
  }

  lemma OrderCarriesOver(q: seq<Waiter>, rest: seq<Waiter>, a: TaskId, b: TaskId)
    requires Distinct(q) && KeepsOrder(q, rest) && Ahead(q, a, b)
    requires Listed(rest, a) && Listed(rest, b)
    ensures Ahead(rest, a, b)
  {
    AheadOneWay(q, a, b);
    var i, j :| 0 <= i < j < |q| && q[i].task == a && q[j].task == b;
    assert Listed(q, a) && Listed(q, b);
    var x, y :| 0 <= x < |rest| && rest[x].task == a && 0 <= y < |rest| && rest[y].task == b;
    assert InOrder(q, rest, y, x);
  }

  /** First come, first served over whole runs: while one request waits for a
      permit, a request queued behind it for the same pool stays behind it or
      gives up; it never gets the permit first. */
  lemma {:induction false} NoOvertaking(
      states: seq<Sys>, steps: seq<Step>, i: nat, k: nat, p: PoolId, a: TaskId, b: TaskId)
    requires Run(states, steps) && i <= k <= |steps| && p in states[i].pools
    requires Ahead(states[i].pools[p].waiters, a, b)
    requires forall n | i <= n <= k :: a < |states[n].tasks| && WaitsOn(states[n].tasks[a]) == Some(p)
    ensures p in states[k].pools && b < |states[k].tasks|
    ensures Ahead(states[k].pools[p].waiters, a, b) || Gone(states[k].tasks[b], p)
    decreases k
  {
    RunInv(states, steps, k);
    if i == k {
      var x, y :| 0 <= x < y < |states[i].pools[p].waiters| && states[i].pools[p].waiters[y].task == b;
      assert PoolOk(states[i].pools[p], states[i].tasks, p);
      assert Waiting(states[i].tasks, p, states[i].pools[p].waiters[y]);
    } else {
      NoOvertaking(states, steps, i, k - 1, p, a, b);
      RunInv(states, steps, k - 1);
      var s, step := states[k - 1], steps[k - 1];
      assert TakenAt(states, steps, k - 1);
      if Gone(s.tasks[b], p) {
        GoneStaysGone(s, step, p, b);
      } else {
        StillBehind(s, step, p, a, b);
      }
    }
  }

  /** Who begins to wait is queued behind everyone who keeps waiting. */
  lemma NewcomerIsBehind(s: Sys, step: Step, p: PoolId, a: TaskId, b: TaskId)
    requires Inv(s) && Enabled(s, step) && p in s.pools && a < |s.tasks| && b < |s.tasks|
    requires WaitsOn(s.tasks[a]) == Some(p) && WaitsOn(Apply(s, step).tasks[a]) == Some(p)
    requires WaitsOn(s.tasks[b]) != Some(p) && WaitsOn(Apply(s, step).tasks[b]) == Some(p)
    ensures Ahead(Apply(s, step).pools[p].waiters, a, b)
  {
    OnlyTakersWait(s, step, p, b);
    var q, q' := s.pools[p].waiters, Apply(s, step).pools[p].waiters;
    assert PoolOk(s.pools[p], s.tasks, p);
    assert Listed(q, a);
    var i :| 0 <= i < |q| && q[i].task == a;
    assert q' == q + [AsWaiter(s, b)];
    assert q'[i].task == a && q'[|q|].task == b;
  }

  lemma OnlyTakersWait(s: Sys, step: Step, p: PoolId, b: TaskId)
    requires Enabled(s, step) && b < |s.tasks|
    requires WaitsOn(s.tasks[b]) != Some(p) && WaitsOn(Apply(s, step).tasks[b]) == Some(p)
    ensures step == Take(b) && Wanted(s.tasks[b]) == Some(p)
    ensures p in s.pools && AnswerTo(s.pools[p], AsWaiter(s, b), s.aborted).Queued?
  {
  }

  /** First come, first served from the moment of arrival: whoever begins to wait for
      a permit while another request waits for one never holds it as long as the
      other one keeps waiting; it stays behind or gives up. */
  lemma ArrivalOrder(states: seq<Sys>, steps: seq<Step>, i: nat, k: nat, p: PoolId, a: TaskId, b: TaskId)
    requires Run(states, steps) && i < k <= |steps| && p in states[i].pools && b < |states[i].tasks|
    requires forall n | i <= n <= k :: a < |states[n].tasks| && WaitsOn(states[n].tasks[a]) == Some(p)
    requires WaitsOn(states[i].tasks[b]) != Some(p)
    requires b < |states[i + 1].tasks| && WaitsOn(states[i + 1].tasks[b]) == Some(p)
    ensures p in states[k].pools && b < |states[k].tasks| && !Holds(states[k].tasks[b], p)
    ensures Ahead(states[k].pools[p].waiters, a, b) || Gone(states[k].tasks[b], p)
  {
    RunInv(states, steps, i);
    RunInv(states, steps, k);
    assert TakenAt(states, steps, i);
    NewcomerIsBehind(states[i], steps[i], p, a, b);
    NoOvertaking(states, steps, i + 1, k, p, a, b);
    if Ahead(states[k].pools[p].waiters, a, b) {
      QueuedHoldsNot(states[k], p, a, b);
    }
  }

  lemma QueuedHoldsNot(s: Sys, p: PoolId, a: TaskId, b: TaskId)
    requires Inv(s) && p in s.pools && b < |s.tasks| && Ahead(s.pools[p].waiters, a, b)
    ensures !Holds(s.tasks[b], p)
  {
    var q := s.pools[p].waiters;
    var x, y :| 0 <= x < y < |q| && q[y].task == b;
    assert PoolOk(s.pools[p], s.tasks, p);
    assert Waiting(s.tasks, p, q[y]);
  }

  lemma GoneStaysGone(s: Sys, step: Step, p: PoolId, t: TaskId)
    requires Inv(s) && Enabled(s, step) && t < |s.tasks| && Gone(s.tasks[t], p)
    ensures Gone(Apply(s, step).tasks[t], p)
  {
    if step.Drop? || step.Close? || step.Leave? {
      var own := if step.Close? then Browser else Market(s.tasks[step.task].market);
      assert PoolOk(s.pools[own], s.tasks, own);
      Untouched(s.pools[own], s.tasks, s.aborted, own, t);
    }
  }
}
