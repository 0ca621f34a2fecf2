/** A counting semaphore with a FIFO queue, direct hand-off and abortable waits. */
module PermitPools {
  import opened Common

  type TaskId = nat
  type SignalId = nat

  datatype Waiter = Waiter(task: TaskId, signal: Option<SignalId>)

  datatype Pool = Pool(limit: nat, active: nat, waiters: seq<Waiter>)

  datatype Answer = Granted | Queued | Rejected

  /** `error` is the exception for a release without an active permit. */
  datatype Released = Released(pool: Pool, granted: Option<TaskId>, rejected: seq<TaskId>, error: bool)

  predicate Aborted(w: Waiter, aborted: set<SignalId>) {
    w.signal.Some? && w.signal.value in aborted
  }

  function AnswerTo(p: Pool, w: Waiter, aborted: set<SignalId>): Answer {
    if Aborted(w, aborted) then Rejected
    else if p.active < p.limit then Granted
    else Queued
  }

  function AfterAcquire(p: Pool, w: Waiter, aborted: set<SignalId>): Pool {
    match AnswerTo(p, w, aborted)
    case Rejected => p
    case Granted => p.(active := p.active + 1)
    case Queued => p.(waiters := p.waiters + [w])
  }

  /** How many waiters at the front of the queue have been aborted. */
  function Dead(waiters: seq<Waiter>, aborted: set<SignalId>): (n: nat)
    ensures n <= |waiters|
    ensures forall i | 0 <= i < n :: Aborted(waiters[i], aborted)
    ensures n < |waiters| ==> !Aborted(waiters[n], aborted)
  {
    if waiters == [] || !Aborted(waiters[0], aborted) then 0 else 1 + Dead(waiters[1..], aborted)
  }

  function TasksOf(waiters: seq<Waiter>): (tasks: seq<TaskId>)
    ensures |tasks| == |waiters| && forall i | 0 <= i < |tasks| :: tasks[i] == waiters[i].task
  {
    seq(|waiters|, i requires 0 <= i < |waiters| => waiters[i].task)
  }

  /** The permit goes to the first live waiter; the aborted ones before it are
      turned away; with no live waiter the permit returns to the pool. */
  function Release(p: Pool, aborted: set<SignalId>): Released {
    var n := Dead(p.waiters, aborted);
    if n < |p.waiters| then
      Released(p.(waiters := p.waiters[n + 1..]), Some(p.waiters[n].task), TasksOf(p.waiters[..n]), false)
    else if p.active == 0 then
      Released(p.(waiters := []), None, TasksOf(p.waiters), true)
    else
      Released(p.(active := p.active - 1, waiters := []), None, TasksOf(p.waiters), false)
  }

  /** The abort listener: leave the queue if still in it. */
  function Without(waiters: seq<Waiter>, w: Waiter): (rest: seq<Waiter>)
    ensures w !in waiters ==> rest == waiters
  {
    if waiters == [] then []
    else if waiters[0] == w then waiters[1..]
    else [waiters[0]] + Without(waiters[1..], w)
  }

  lemma {:induction false} WithoutAt(q: seq<Waiter>, w: Waiter, at: nat)
    requires at <= |q| && (at < |q| ==> q[at] == w)
    requires forall k | 0 <= k < at :: q[k] != w
    ensures Without(q, w) == if at < |q| then q[..at] + q[at + 1..] else q
  {
    if at > 0 {
      WithoutAt(q[1..], w, at - 1);
    }
  }

  /** Who joins the queue is served by a release exactly if everyone who was in it
      has been aborted by then, and it has not. */
  lemma LastComeLastServed(p: Pool, w: Waiter, aborted: set<SignalId>, later: set<SignalId>)
    requires AnswerTo(p, w, aborted).Queued? && forall i | 0 <= i < |p.waiters| :: p.waiters[i].task != w.task
    ensures Release(AfterAcquire(p, w, aborted), later).granted == Some(w.task)
            <==> !Aborted(w, later) && forall i | 0 <= i < |p.waiters| :: Aborted(p.waiters[i], later)
  {
    var q := AfterAcquire(p, w, aborted).waiters;
    var n := Dead(q, later);
    if n < |p.waiters| {
      assert q[n] == p.waiters[n];
    } else {
      assert q[|p.waiters|] == w;
      forall i | 0 <= i < |p.waiters| ensures Aborted(p.waiters[i], later) {
        assert q[i] == p.waiters[i];
      }
    }
  }

  class PermitPool {
    const limit: nat
    var active: nat
    var waiters: seq<Waiter>

    constructor (limit: nat)
      requires limit >= 1
      ensures View() == Pool(limit, 0, [])
    {
      this.limit := limit;
      active, waiters := 0, [];
    }

    function View(): Pool
      reads this
    {
      Pool(limit, active, waiters)
    }

    method Acquire(w: Waiter, aborted: set<SignalId>) returns (answer: Answer)
      modifies this
      ensures answer == AnswerTo(old(View()), w, aborted)
      ensures View() == AfterAcquire(old(View()), w, aborted)
      ensures answer.Rejected? <==> w.signal.Some? && w.signal.value in aborted
      ensures answer.Granted? <==> !(w.signal.Some? && w.signal.value in aborted) && old(active) < limit
      ensures waiters == if answer.Queued? then old(waiters) + [w] else old(waiters)
      ensures active == if answer.Granted? then old(active) + 1 else old(active)
    {
      if w.signal.Some? && w.signal.value in aborted {
        return Rejected;
      }
      if active < limit {
        active := active + 1;
        return Granted;
      }
      waiters := waiters + [w];
      answer := Queued;
    }

    method OnAbort(w: Waiter)
      modifies this
      ensures View() == old(View()).(waiters := Without(old(waiters), w))
    {
      var i := 0;
      while i < |waiters| && waiters[i] != w
        invariant 0 <= i <= |waiters| && forall k | 0 <= k < i :: waiters[k] != w
      {
        i := i + 1;
      }
      WithoutAt(waiters, w, i);
      if i < |waiters| {
        waiters := waiters[..i] + waiters[i + 1..];
      }
    }

    method GiveBack(aborted: set<SignalId>) returns (granted: Option<TaskId>, rejected: seq<TaskId>, error: bool)
      modifies this
      ensures Released(View(), granted, rejected, error) == Release(old(View()), aborted)
    {
      rejected, granted, error := [], None, false;
      ghost var n := Dead(waiters, aborted);
      ghost var i := 0;
      while |waiters| > 0
        invariant 0 <= i <= n && waiters == old(waiters)[i..] && active == old(active)
        invariant rejected == TasksOf(old(waiters)[..i])
        invariant granted.None? && !error
      {
        var next := waiters[0];
        waiters := waiters[1..];
        if next.signal.Some? && next.signal.value in aborted {
          rejected := rejected + [next.task];
          i := i + 1;
          continue;
        }
        granted := Some(next.task);
        return;
      }
      if active == 0 {
        error := true;
        return;
      }
      active := active - 1;
    }
  }
}
