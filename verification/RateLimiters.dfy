/** The per-key fixed-window rate limiter, and what it bounds over sliding intervals. */
module RateLimiters {
  import opened Common

  const MINUTE: int := 60_000_000_000 // nanoseconds

  /** The id of an API key. */
  datatype Id = Id(text: string)

  datatype Window = Window(start: int, count: int)

  /** The decision for one key; a missing window has the zero start time. */
  function Decide(window: Option<Window>, now: int, limit: int): (bool, Option<Window>) {
    if window.None? || now - window.value.start >= MINUTE then (true, Some(Window(now, 1)))
    else if window.value.count >= limit then (false, window)
    else (true, Some(window.value.(count := window.value.count + 1)))
  }

  class RateLimiter {
    var items: map<Id, Window>

    constructor ()
      ensures items == map[]
    {
      items := map[];
    }

    function WindowOf(id: Id): Option<Window>
      reads this
    {
      if id in items then Some(items[id]) else None
    }

    method Allow(id: Id, limit: int, now: int) returns (ok: bool)
      modifies this
      ensures (ok, WindowOf(id)) == Decide(old(WindowOf(id)), now, limit)
      ensures forall other | other != id :: WindowOf(other) == old(WindowOf(other))
    {
      if id !in items || now - items[id].start >= MINUTE {
        items := items[id := Window(now, 1)];
        return true;
      }
      var window := items[id];
      if window.count >= limit {
        return false;
      }
      items := items[id := window.(count := window.count + 1)];
      ok := true;
    }
  }

  // ------------------------------------------------------------------- runs

  datatype Request = Request(id: Id, now: int)

  /** The window of a key after a run that starts with no windows. */
  function After(run: seq<Request>, id: Id, limit: int): Option<Window> {
    if run == [] then None
    else
      var last := run[|run| - 1];
      var before := After(run[..|run| - 1], id, limit);
      if last.id == id then Decide(before, last.now, limit).1 else before
  }

  /** Whether a request is let through after a run. */
  predicate Admits(run: seq<Request>, last: Request, limit: int) {
    Decide(After(run, last.id, limit), last.now, limit).0
  }

  /** How many requests of a key are let through with from <= time < to. */
  function Count(run: seq<Request>, id: Id, limit: int, from: int, to: int): nat {
    if run == [] then 0
    else
      var front, last := run[..|run| - 1], run[|run| - 1];
      Count(front, id, limit, from, to)
      + (if last.id == id && from <= last.now < to && Admits(front, last, limit) then 1 else 0)
  }

  ghost predicate Monotone(run: seq<Request>) {
    forall i | 0 < i < |run| :: run[i - 1].now <= run[i].now
  }

  lemma OneMore(front: seq<Request>, last: Request, id: Id, limit: int, from: int, to: int)
    ensures var run := front + [last];
            After(run, id, limit)
            == (if last.id == id then Decide(After(front, id, limit), last.now, limit).1 else After(front, id, limit))
            && Count(run, id, limit, from, to)
               == Count(front, id, limit, from, to)
                  + (if last.id == id && from <= last.now < to && Admits(front, last, limit) then 1 else 0)
  {
    assert (front + [last])[..|front|] == front;
  }

  lemma AfterOneMore(front: seq<Request>, last: Request, limits: Id -> int)
    ensures forall id {:trigger After(front + [last], id, limits(id))} ::
              After(front + [last], id, limits(id))
              == if last.id == id then Decide(After(front, id, limits(id)), last.now, limits(id)).1
                 else After(front, id, limits(id))
  {
    forall id ensures After(front + [last], id, limits(id))
                      == if last.id == id then Decide(After(front, id, limits(id)), last.now, limits(id)).1
                         else After(front, id, limits(id))
    {
      OneMore(front, last, id, limits(id), 0, 0);
    }
  }

  /** A run of many keys, each with its own limit, through one limiter object. */
  method Serve(run: seq<Request>, limits: Id -> int) returns (answers: seq<bool>)
    ensures |answers| == |run| && forall i | 0 <= i < |run| :: answers[i] == Admits(run[..i], run[i], limits(run[i].id))
  {
    var limiter := new RateLimiter();
    answers := [];
    var i := 0;
    ghost var served: seq<Request> := [];
    while i < |run|
      invariant 0 <= i <= |run| && |answers| == i && served == run[..i]
      invariant forall k | 0 <= k < i :: answers[k] == Admits(run[..k], run[k], limits(run[k].id))
      invariant forall id {:trigger limiter.WindowOf(id)} :: limiter.WindowOf(id) == After(served, id, limits(id))
    {
      var last := run[i];
      var ok := limiter.Allow(last.id, limits(last.id), last.now);
      AfterOneMore(served, last, limits);
      answers, served, i := answers + [ok], served + [last], i + 1;
    }
  }

  function Only(run: seq<Request>, id: Id): seq<Request> {
    if run == [] then []
    else
      var last := run[|run| - 1];
      if last.id == id then Only(run[..|run| - 1], id) + [last] else Only(run[..|run| - 1], id)
  }

  /** Other keys do not matter: a key's window and its accepted requests are those
      of its own requests alone. */
  lemma {:induction false} KeysAreIndependent(run: seq<Request>, id: Id, limit: int, from: int, to: int)
    ensures After(run, id, limit) == After(Only(run, id), id, limit)
    ensures Count(run, id, limit, from, to) == Count(Only(run, id), id, limit, from, to)
  {
    if run != [] {
      var n := |run| - 1;
      KeysAreIndependent(run[..n], id, limit, from, to);
      var own := Only(run[..n], id);
      if run[n].id == id {
        assert (own + [run[n]])[..|own|] == own;
      }
    }
  }

  // ------------------------------------------------------------------ bound

  /** The windows that can still open in `span` more time units. */
  function Windows(span: int): nat {
    if span <= 0 then 0 else 1 + Windows(span - MINUTE)
  }

  lemma {:induction false} WindowsGrow(a: int, b: int)
    requires a <= b
    ensures Windows(a) <= Windows(b)
    decreases if b > 0 then b else 0
  {
    if a > 0 {
      WindowsGrow(a - MINUTE, b - MINUTE);
    }
  }

  lemma {:induction false} WindowsOfMinutes(k: nat)
    ensures Windows(k * MINUTE) == k
  {
    if k > 0 {
      assert k * MINUTE - MINUTE == (k - 1) * MINUTE;
      WindowsOfMinutes(k - 1);
    }
  }

  function Max(a: int, b: int): int {
    if a >= b then a else b
  }

  /** Accepted so far plus what the current window and later ones can still accept before `to`. */
  function Ceiling(run: seq<Request>, id: Id, limit: int, from: int, to: int): int {
    Count(run, id, limit, from, to) + Capacity(After(run, id, limit), limit, from, to)
  }

  function Capacity(w: Option<Window>, limit: int, from: int, to: int): int {
    if w.None? then limit * Windows(to - from)
    else
      (if w.value.start < to then Max(0, limit - w.value.count) else 0)
      + limit * Windows(to - Max(from, w.value.start + MINUTE))
  }

  lemma Product(limit: int, a: int, b: int)
    requires limit >= 0 && a <= b
    ensures limit * a <= limit * b && limit * (a + 1) == limit * a + limit
  {
  }

  lemma {:induction false} WindowShape(run: seq<Request>, id: Id, limit: int)
    requires Monotone(run) && limit >= 1
    ensures var w := After(run, id, limit);
            w.Some? ==> 1 <= w.value.count <= limit && run != [] && w.value.start <= run[|run| - 1].now
  {
    if run != [] {
      var n := |run| - 1;
      assert Monotone(run[..n]);
      WindowShape(run[..n], id, limit);
    }
  }

  /** No request raises the ceiling, once one of the key before `from` has set it
      to (k + 1) * limit - 1 or none has. */
  lemma {:induction false} CeilingHolds(run: seq<Request>, id: Id, limit: int, from: int, k: nat)
    requires Monotone(run) && limit >= 1 && k >= 1
    ensures Ceiling(run, id, limit, from, from + k * MINUTE) <= (k + 1) * limit - 1
  {
    var to := from + k * MINUTE;
    WindowsOfMinutes(k);
    if run == [] {
      assert limit * k <= (k + 1) * limit - 1;
    } else {
      var n := |run| - 1;
      var front, last := run[..n], run[n];
      assert Monotone(front);
      CeilingHolds(front, id, limit, from, k);
      WindowShape(front, id, limit);
      if last.id == id {
        CeilingStep(front, last, limit, from, k);
        assert run == front + [last];
      }
    }
  }

  lemma CeilingStep(front: seq<Request>, last: Request, limit: int, from: int, k: nat)
    requires Monotone(front + [last]) && limit >= 1 && k >= 1
    requires Ceiling(front, last.id, limit, from, from + k * MINUTE) <= (k + 1) * limit - 1
    ensures Ceiling(front + [last], last.id, limit, from, from + k * MINUTE) <= (k + 1) * limit - 1
  {
    var id, to := last.id, from + k * MINUTE;
    OneMore(front, last, id, limit, from, to);
    NoneLater(front, last);
    WindowShape(front, id, limit);
    if last.now < from {
      NoCount(front, id, limit, from, to);
    }
    DecideStep(After(front, id, limit), last.now, Count(front, id, limit, from, to), limit, from, k);
  }

  lemma DecideStep(w: Option<Window>, now: int, count: nat, limit: int, from: int, k: nat)
    requires limit >= 1 && k >= 1
    requires w.Some? ==> 1 <= w.value.count <= limit && w.value.start <= now
    requires now < from ==> count == 0
    requires count + Capacity(w, limit, from, from + k * MINUTE) <= (k + 1) * limit - 1
    ensures var to, next := from + k * MINUTE, Decide(w, now, limit);
            count + (if from <= now < to && next.0 then 1 else 0) + Capacity(next.1, limit, from, to)
            <= (k + 1) * limit - 1
  {
    if w.None? || now - w.value.start >= MINUTE {
      OpenStep(w, now, count, limit, from, k);
    }
  }

  /** The arithmetic of a request that opens a window. */
  lemma OpenStep(w: Option<Window>, now: int, count: nat, limit: int, from: int, k: nat)
    requires limit >= 1 && k >= 1
    requires w.Some? ==> 1 <= w.value.count <= limit && now - w.value.start >= MINUTE
    requires now < from ==> count == 0
    requires count + Capacity(w, limit, from, from + k * MINUTE) <= (k + 1) * limit - 1
    ensures var to := from + k * MINUTE;
            count + (if from <= now < to then 1 else 0) + Capacity(Some(Window(now, 1)), limit, from, to)
            <= (k + 1) * limit - 1
  {
    var to := from + k * MINUTE;
    var before := if w.None? then from else Max(from, w.value.start + MINUTE);
    var after := Max(from, now + MINUTE);
    WindowsOfMinutes(k);
    assert (k + 1) * limit == limit * k + limit;
    assert count + limit * Windows(to - before) <= (k + 1) * limit - 1;
    if now < from {
      WindowsGrow(to - after, k * MINUTE);
      Product(limit, Windows(to - after), k);
    } else if now < to {
      WindowsGrow(to - now, to - before);
      Product(limit, Windows(to - now - MINUTE), Windows(to - before) - 1);
      Product(limit, Windows(to - before) - 1, Windows(to - before));
    } else {
      Product(limit, 0, Windows(to - before));
    }
  }

  lemma {:induction false} NoneLater(front: seq<Request>, last: Request)
    requires Monotone(front + [last])
    ensures Monotone(front) && forall r | r in front :: r.now <= last.now
  {
    var run := front + [last];
    forall i | 0 < i < |front| ensures front[i - 1].now <= front[i].now {
      assert run[i - 1].now <= run[i].now;
    }
    if front != [] {
      var n := |front| - 1;
      assert front == front[..n] + [front[n]];
      assert run[n].now <= run[n + 1].now;
      NoneLater(front[..n], front[n]);
    }
  }

  lemma {:induction false} NoCount(run: seq<Request>, id: Id, limit: int, from: int, to: int)
    requires forall r | r in run :: r.now < from
    ensures Count(run, id, limit, from, to) == 0
  {
    if run != [] {
      assert forall r | r in run[..|run| - 1] :: r in run;
      NoCount(run[..|run| - 1], id, limit, from, to);
      assert run[|run| - 1] in run;
    }
  }

  /** In any half-open interval of k minutes a key gets fewer than (k + 1) times
      its limit through, whatever other keys do in between. */
  lemma SlidingBound(run: seq<Request>, id: Id, limit: int, from: int, k: nat)
    requires Monotone(run) && limit >= 1 && k >= 1
    ensures Count(run, id, limit, from, from + k * MINUTE) <= (k + 1) * limit - 1
  {
    CeilingHolds(run, id, limit, from, k);
    var w := After(run, id, limit);
    var to := from + k * MINUTE;
    Product(limit, 0, if w.None? then Windows(to - from) else Windows(to - Max(from, w.value.start + MINUTE)));
  }

  // --------------------------------------------------------------- refusals

  lemma {:induction false} CountNarrows(run: seq<Request>, id: Id, limit: int, from: int, later: int, to: int)
    requires from <= later
    ensures Count(run, id, limit, later, to) <= Count(run, id, limit, from, to)
  {
    if run != [] {
      CountNarrows(run[..|run| - 1], id, limit, from, later, to);
    }
  }

  ghost predicate Counted(run: seq<Request>, id: Id, limit: int, to: int) {
    var w := After(run, id, limit);
    if w.None? then forall from :: Count(run, id, limit, from, to) == 0
    else Count(run, id, limit, w.value.start, to) == w.value.count
         && Count(run, id, limit, w.value.start + MINUTE, to) == 0
  }

  /** The window's counter is the number of requests let through since its start. */
  lemma {:induction false} WindowCounts(run: seq<Request>, id: Id, limit: int, to: int)
    requires Monotone(run) && limit >= 1 && forall r | r in run :: r.now < to
    ensures Counted(run, id, limit, to)
  {
    if run != [] {
      var front, last := run[..|run| - 1], run[|run| - 1];
      assert run == front + [last] && last in run && forall r | r in front :: r in run;
      NoneLater(front, last);
      WindowCounts(front, id, limit, to);
      if last.id == id {
        WindowShape(front, id, limit);
        CountedStep(front, last, limit, to);
      } else {
        CountedOther(front, last, id, limit, to);
      }
    }
  }

  lemma CountedOther(front: seq<Request>, last: Request, id: Id, limit: int, to: int)
    requires last.id != id && Counted(front, id, limit, to)
    ensures Counted(front + [last], id, limit, to)
  {
    forall from { OneMore(front, last, id, limit, from, to); }
  }

  lemma CountedOpen(front: seq<Request>, last: Request, limit: int, to: int)
    requires last.now < to && Counted(front, last.id, limit, to)
    requires var w := After(front, last.id, limit); w.Some? ==> last.now - w.value.start >= MINUTE
    ensures Counted(front + [last], last.id, limit, to)
  {
    var id, now := last.id, last.now;
    var w := After(front, id, limit);
    assert Count(front, id, limit, now, to) == Count(front, id, limit, now + MINUTE, to) == 0 by {
      if w.Some? {
        CountNarrows(front, id, limit, w.value.start + MINUTE, now, to);
        CountNarrows(front, id, limit, w.value.start + MINUTE, now + MINUTE, to);
      }
    }
    OneMore(front, last, id, limit, now, to);
    OneMore(front, last, id, limit, now + MINUTE, to);
  }

  lemma CountedStep(front: seq<Request>, last: Request, limit: int, to: int)
    requires limit >= 1 && last.now < to && Counted(front, last.id, limit, to)
    requires var w := After(front, last.id, limit);
             w.Some? ==> w.value.start <= last.now && w.value.count <= limit
    ensures Counted(front + [last], last.id, limit, to)
  {
    var w := After(front, last.id, limit);
    if w.None? || last.now - w.value.start >= MINUTE {
      CountedOpen(front, last, limit, to);
    } else {
      OneMore(front, last, last.id, limit, w.value.start, to);
      OneMore(front, last, last.id, limit, w.value.start + MINUTE, to);
    }
  }

  /** A refusal is never early: the key has had its full limit within the last minute. */
  lemma RefusalMeansFull(run: seq<Request>, last: Request, limit: int)
    requires Monotone(run + [last]) && limit >= 1
    requires !Admits(run, last, limit)
    ensures Count(run, last.id, limit, last.now - MINUTE + 1, last.now + 1) >= limit
  {
    NoneLater(run, last);
    WindowShape(run, last.id, limit);
    WindowCounts(run, last.id, limit, last.now + 1);
    var w := After(run, last.id, limit).value;
    CountNarrows(run, last.id, limit, last.now - MINUTE + 1, w.start, last.now + 1);
  }

  lemma {:induction false} StartIsRequest(run: seq<Request>, id: Id, limit: int)
    ensures var w := After(run, id, limit);
            w.Some? ==> exists r :: r in run && r.id == id && r.now == w.value.start
  {
    if run != [] {
      var front, last := run[..|run| - 1], run[|run| - 1];
      StartIsRequest(front, id, limit);
      assert last in run && forall r | r in front :: r in run;
    }
  }

  /** Whatever its limit, a key that has asked for nothing within the last minute gets
      through; a limit below one still lets one request of a minute through. */
  lemma QuietKeyPasses(run: seq<Request>, last: Request, limit: int)
    requires forall r | r in run && r.id == last.id :: last.now - r.now >= MINUTE
    ensures Admits(run, last, limit)
  {
    StartIsRequest(run, last.id, limit);
  }

  // -------------------------------------------------------------- tightness

  const LAST := MINUTE - 1

  ghost predicate UpTo(run: seq<Request>, now: int) {
    Monotone(run) && forall r | r in run :: r.now <= now
  }

  /** At `now` the key has window w, and `total` of its requests from LAST on have
      been let through. */
  ghost predicate Standing(run: seq<Request>, id: Id, limit: int, now: int, w: Window, total: int) {
    && UpTo(run, now)
    && After(run, id, limit) == Some(w)
    && forall to {:trigger Count(run, id, limit, LAST, to)} | to > now :: Count(run, id, limit, LAST, to) == total
  }

  lemma {:induction false} FillUp(run: seq<Request>, id: Id, limit: int, now: int, w: Window, total: int)
    returns (filled: seq<Request>)
    requires Standing(run, id, limit, now, w, total) && LAST <= now && now - w.start < MINUTE && w.count <= limit
    ensures Standing(filled, id, limit, now, Window(w.start, limit), total + limit - w.count)
    decreases limit - w.count
  {
    if w.count == limit {
      filled := run;
    } else {
      filled := FillUp(run + [Request(id, now)], id, limit, now, Window(w.start, w.count + 1), total + 1);
    }
  }

  lemma FirstRequest(id: Id, limit: int)
    requires limit >= 1
    ensures Standing([Request(id, 0)], id, limit, LAST, Window(0, 1), 0)
  {
    var run := [Request(id, 0)];
    assert run[..0] == [];
    forall to {:trigger Count(run, id, limit, LAST, to)} | to > LAST ensures Count(run, id, limit, LAST, to) == 0 {
      assert Count(run[..0], id, limit, LAST, to) == 0;
    }
  }

  /** One request at time 0, the rest of the limit just before the minute is over,
      and then a full window at the start of every minute. */
  lemma {:induction false} BusiestRun(id: Id, limit: int, k: nat) returns (run: seq<Request>)
    requires limit >= 1
    ensures Standing(run, id, limit, Max(LAST, k * MINUTE), Window(k * MINUTE, limit), (k + 1) * limit - 1)
  {
    if k == 0 {
      FirstRequest(id, limit);
      run := FillUp([Request(id, 0)], id, limit, LAST, Window(0, 1), 0);
    } else {
      var shorter := BusiestRun(id, limit, k - 1);
      run := NextMinute(shorter, id, limit, (k - 1) * MINUTE, k * limit - 1);
      assert (k + 1) * limit == k * limit + limit && (k - 1) * MINUTE + MINUTE == k * MINUTE;
    }
  }

  lemma NextMinute(shorter: seq<Request>, id: Id, limit: int, start: int, total: int) returns (run: seq<Request>)
    requires limit >= 1 && start >= 0 && Standing(shorter, id, limit, Max(LAST, start), Window(start, limit), total)
    ensures Standing(run, id, limit, start + MINUTE, Window(start + MINUTE, limit), total + limit)
  {
    var now := start + MINUTE;
    run := FillUp(shorter + [Request(id, now)], id, limit, now, Window(now, 1), total + 1);
  }

  /** The sliding bound is reached, for every key, every limit and every number of minutes. */
  lemma BoundIsTight(id: Id, limit: int, k: nat) returns (run: seq<Request>)
    requires limit >= 1 && k >= 1
    ensures Monotone(run) && Count(run, id, limit, LAST, LAST + k * MINUTE) == (k + 1) * limit - 1
  {
    run := BusiestRun(id, limit, k);
    Inside(k);
  }

  lemma Inside(k: nat)
    requires k >= 1
    ensures LAST + k * MINUTE > Max(LAST, k * MINUTE)
  {
  }
}
