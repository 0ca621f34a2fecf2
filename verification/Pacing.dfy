/** The promise chain that spaces requests to one marketplace: each caller waits
    for the tail it finds, and the map entry is dropped when the last one is done. */
module Pacing {
  import opened Common

  /** Called: waiting for the previous tail. Sleeping: in its turn, waiting for the clock. */
  datatype Stage = Called | Sleeping(until: int) | Left(at: int)

  /** `armed` says that the caller has registered the clean-up of its tail entry. */
  datatype Turn = Turn(previous: Option<nat>, stage: Stage, armed: bool)

  datatype Pace = Pace(now: int, interval: int, next: Option<int>, tail: Option<nat>, turns: seq<Turn>)

  datatype Step =
    | Call
    | Enter(turn: nat)
    | Leave(turn: nat, jitter: nat)
    | Forget(turn: nat)
    | Tick(to: int)

  /** The tail promise a caller waits for has resolved: that caller's turn is
      released and so is everything it waited for. */
  predicate Resolved(turns: seq<Turn>, tail: Option<nat>)
    decreases if tail.Some? then tail.value + 1 else 0
  {
    tail.Some? ==>
      && tail.value < |turns|
      && turns[tail.value].stage.Left?
      && (turns[tail.value].previous.Some? ==> turns[tail.value].previous.value < tail.value)
      && Resolved(turns, turns[tail.value].previous)
  }

  function WakeUp(now: int, next: Option<int>): int {
    if next.Some? && next.value > now then next.value else now
  }

  ghost predicate Enabled(s: Pace, step: Step) {
    match step
    case Call => true
    case Enter(i) => i < |s.turns| && s.turns[i].stage.Called? && Resolved(s.turns, s.turns[i].previous)
    case Leave(i, jitter) => i < |s.turns| && s.turns[i].stage.Sleeping? && s.turns[i].stage.until <= s.now
    case Forget(i) => i < |s.turns| && s.turns[i].armed && Resolved(s.turns, Some(i))
    case Tick(to) => s.now <= to
  }

  ghost function Apply(s: Pace, step: Step): Pace
    requires Enabled(s, step)
  {
    match step
    case Call => s.(turns := s.turns + [Turn(s.tail, Called, false)], tail := Some(|s.turns|))
    case Enter(i) => s.(turns := s.turns[i := s.turns[i].(stage := Sleeping(WakeUp(s.now, s.next)))])
    case Leave(i, jitter) =>
      s.(turns := s.turns[i := s.turns[i].(stage := Left(s.now), armed := s.tail == Some(i))],
         next := Some(s.now + s.interval + jitter))
    case Forget(i) => if s.tail == Some(i) then s.(tail := None) else s
    case Tick(to) => s.(now := to)
  }

  /** The shared maps of one marketplace, changed by `pace` between its awaits. */
  class Pacer {
    const interval: int
    var next: Option<int>
    var tail: Option<nat>
    var turns: seq<Turn>

    constructor (interval: int)
      ensures forall now :: View(now) == Pace(now, interval, None, None, [])
    {
      this.interval := interval;
      next, tail, turns := None, None, [];
    }

    function View(now: int): Pace
      reads this
    {
      Pace(now, interval, next, tail, turns)
    }

    method Arrive(ghost now: int) returns (turn: nat)
      modifies this
      ensures turn == |old(turns)| && View(now) == Apply(old(View(now)), Call)
    {
      turn := |turns|;
      turns := turns + [Turn(tail, Called, false)];
      tail := Some(turn);
    }

    method Begin(turn: nat, now: int) returns (wait: nat)
      requires Enabled(View(now), Enter(turn))
      modifies this
      ensures View(now) == Apply(old(View(now)), Enter(turn))
      ensures turns[turn].stage == Sleeping(now + wait)
    {
      wait := if next.Some? && next.value - now > 0 then next.value - now else 0;
      turns := turns[turn := turns[turn].(stage := Sleeping(now + wait))];
    }

    method Finish(turn: nat, jitter: nat, now: int)
      requires Enabled(View(now), Leave(turn, jitter))
      modifies this
      ensures View(now) == Apply(old(View(now)), Leave(turn, jitter))
    {
      next := Some(now + interval + jitter);
      turns := turns[turn := turns[turn].(stage := Left(now), armed := tail == Some(turn))];
    }

    method DropTail(turn: nat, ghost now: int)
      requires Enabled(View(now), Forget(turn))
      modifies this
      ensures View(now) == Apply(old(View(now)), Forget(turn))
    {
      if tail == Some(turn) {
        tail := None;
      }
    }
  }

  // ---------------------------------------------------------------- invariant

  predicate AllLeft(turns: seq<Turn>, n: nat) {
    forall j | 0 <= j < n && j < |turns| :: turns[j].stage.Left?
  }

  /** A caller waits for its predecessor, or found no tail when all before it had left. */
  predicate Chained(turns: seq<Turn>, i: nat)
    requires i < |turns|
  {
    if turns[i].previous.Some? then turns[i].previous.value + 1 == i else AllLeft(turns, i)
  }

  ghost predicate Chain(turns: seq<Turn>) {
    forall i {:trigger Chained(turns, i)} | 0 <= i < |turns| :: Chained(turns, i)
  }

  /** Only the callers before it having left lets a caller into its turn. */
  ghost predicate Ordered(turns: seq<Turn>) {
    forall i {:trigger AllLeft(turns, i)} | 0 <= i < |turns| && !turns[i].stage.Called? :: AllLeft(turns, i)
  }

  predicate TailOk(turns: seq<Turn>, tail: Option<nat>) {
    if tail.Some? then tail.value + 1 == |turns| else AllLeft(turns, |turns|)
  }

  predicate Timely(s: Pace, turn: Turn) {
    match turn.stage
    case Called => true
    case Sleeping(until) => s.next.Some? ==> s.next.value <= until
    case Left(at) => at <= s.now && s.next.Some? && at + s.interval <= s.next.value
  }

  ghost predicate Spaced(s: Pace) {
    forall i | 0 < i < |s.turns| && s.turns[i].stage.Left? ::
      s.turns[i - 1].stage.Left? && s.turns[i - 1].stage.at + s.interval <= s.turns[i].stage.at
  }

  ghost predicate Inv(s: Pace) {
    && s.interval >= 0
    && Chain(s.turns) && Ordered(s.turns) && TailOk(s.turns, s.tail)
    && (forall i | 0 <= i < |s.turns| :: Timely(s, s.turns[i]))
    && Spaced(s)
  }

  lemma {:induction false} ResolvedMeansAllLeft(turns: seq<Turn>, tail: Option<nat>)
    requires Chain(turns)
    requires Resolved(turns, tail) && tail.Some?
    ensures AllLeft(turns, tail.value + 1)
    decreases tail.value
  {
    var previous := turns[tail.value].previous;
    assert Chained(turns, tail.value);
    if previous.Some? {
      ResolvedMeansAllLeft(turns, previous);
    }
  }

  lemma {:induction false} AllLeftMeansResolved(turns: seq<Turn>, tail: Option<nat>)
    requires Chain(turns)
    requires tail.Some? ==> tail.value < |turns| && AllLeft(turns, tail.value + 1)
    ensures Resolved(turns, tail)
    decreases if tail.Some? then tail.value + 1 else 0
  {
    if tail.Some? {
      assert Chained(turns, tail.value);
      AllLeftMeansResolved(turns, turns[tail.value].previous);
    }
  }

  lemma ChainKept(a: seq<Turn>, i: nat, turn: Turn)
    requires Chain(a) && Ordered(a) && i < |a| && turn.previous == a[i].previous
    requires AllLeft(a, i) && !a[i].stage.Left? && !turn.stage.Called?
    ensures Chain(a[i := turn]) && Ordered(a[i := turn])
  {
    var b := a[i := turn];
    forall k | 0 <= k < |b| ensures Chained(b, k) {
      assert Chained(a, k);
    }
    forall k | 0 <= k < |b| && !b[k].stage.Called? ensures AllLeft(b, k) {
      assert k == i || AllLeft(a, k);
    }
  }

  lemma EnterKept(s: Pace, i: nat)
    requires Inv(s) && Enabled(s, Enter(i))
    ensures Inv(Apply(s, Enter(i)))
  {
    assert Chained(s.turns, i);
    if s.turns[i].previous.Some? {
      ResolvedMeansAllLeft(s.turns, s.turns[i].previous);
    }
    ChainKept(s.turns, i, Apply(s, Enter(i)).turns[i]);
  }

  lemma LeaveKept(s: Pace, i: nat, jitter: nat)
    requires Inv(s) && Enabled(s, Leave(i, jitter))
    ensures Inv(Apply(s, Leave(i, jitter)))
  {
    var s' := Apply(s, Leave(i, jitter));
    assert AllLeft(s.turns, i);
    ChainKept(s.turns, i, s'.turns[i]);
    forall k | 0 <= k < |s.turns| ensures Timely(s', s'.turns[k]) {
      assert Timely(s, s.turns[k]) && Timely(s, s.turns[i]);
      assert k != i ==> AllLeft(s.turns, k) || s.turns[k].stage.Called?;
    }
    forall k | 0 < k < |s.turns| && s'.turns[k].stage.Left?
      ensures s'.turns[k - 1].stage.Left? && s'.turns[k - 1].stage.at + s.interval <= s'.turns[k].stage.at
    {
      assert Timely(s, s.turns[k - 1]) && Timely(s, s.turns[i]);
    }
  }

  lemma CallKept(s: Pace)
    requires Inv(s)
    ensures Inv(Apply(s, Call))
  {
    var a, b := s.turns, Apply(s, Call).turns;
    forall k | 0 <= k < |b| ensures Chained(b, k) {
      assert k < |a| ==> Chained(a, k);
    }
    forall k | 0 <= k < |b| && !b[k].stage.Called? ensures AllLeft(b, k) {
      assert AllLeft(a, k);
    }
  }

  lemma InvKept(s: Pace, step: Step)
    requires Inv(s) && Enabled(s, step)
    ensures Inv(Apply(s, step))
  {
    match step
    case Call => CallKept(s);
    case Enter(i) => EnterKept(s, i);
    case Leave(i, jitter) => LeaveKept(s, i, jitter);
    case Forget(i) => ResolvedMeansAllLeft(s.turns, Some(i));
    case Tick(to) => assert forall k | 0 <= k < |s.turns| :: Timely(s, s.turns[k]);
  }

  // --------------------------------------------------------------------- runs

  ghost predicate Taken(s: Pace, step: Step, s': Pace) {
    Enabled(s, step) && s' == Apply(s, step)
  }

  /** Step i leads from state i to the next. */
  ghost predicate TakenAt(states: seq<Pace>, steps: seq<Step>, i: nat)
    requires i < |steps| < |states|
  {
    Taken(states[i], steps[i], states[i + 1])
  }

  ghost predicate Run(states: seq<Pace>, steps: seq<Step>) {
    && |states| == |steps| + 1
    && states[0].interval >= 0 && states[0].next.None? && states[0].tail.None? && states[0].turns == []
    && forall i {:trigger TakenAt(states, steps, i)} | 0 <= i < |steps| :: TakenAt(states, steps, i)
  }

  lemma {:induction false} RunInv(states: seq<Pace>, steps: seq<Step>, n: nat)
    requires Run(states, steps) && n <= |steps|
    ensures Inv(states[n]) && states[n].interval == states[0].interval
  {
    if n > 0 {
      RunInv(states, steps, n - 1);
      assert TakenAt(states, steps, n - 1);
      InvKept(states[n - 1], steps[n - 1]);
    }
  }

  lemma {:induction false} Spacing(s: Pace, i: nat, j: nat)
    requires Inv(s) && i <= j < |s.turns| && s.turns[j].stage.Left?
    ensures s.turns[i].stage.Left?
    ensures s.turns[i].stage.at + (j - i) * s.interval <= s.turns[j].stage.at
    decreases j
  {
    if i < j {
      assert s.turns[j - 1].stage.Left?;
      Spacing(s, i, j - 1);
      assert (j - i) * s.interval == (j - 1 - i) * s.interval + s.interval;
    }
  }

  /** Callers leave in the order they called, any two of them at least one
      interval per place in the queue apart; dropping the tail entry changes
      nothing about that. */
  lemma LeavesInOrderAndSpaced(states: seq<Pace>, steps: seq<Step>, n: nat, i: nat, j: nat)
    requires Run(states, steps) && n <= |steps| && i < j < |states[n].turns|
    requires states[n].turns[j].stage.Left?
    ensures states[n].turns[i].stage.Left?
    ensures states[n].turns[i].stage.at + (j - i) * states[0].interval <= states[n].turns[j].stage.at
  {
    RunInv(states, steps, n);
    Spacing(states[n], i, j);
  }

  /** At most one caller is in its turn, and everyone before it has left. */
  lemma OneTurnAtATime(states: seq<Pace>, steps: seq<Step>, n: nat, i: nat, j: nat)
    requires Run(states, steps) && n <= |steps| && i < j < |states[n].turns|
    requires !states[n].turns[j].stage.Called?
    ensures states[n].turns[i].stage.Left?
  {
    RunInv(states, steps, n);
    assert AllLeft(states[n].turns, j);
  }

  /** The chain never stalls: the first caller that has not left can enter its
      turn, or leave it once the clock reaches its wake-up time. */
  lemma FirstCanMove(states: seq<Pace>, steps: seq<Step>, n: nat, i: nat)
    requires Run(states, steps) && n <= |steps| && i < |states[n].turns|
    requires !states[n].turns[i].stage.Left? && AllLeft(states[n].turns, i)
    ensures states[n].turns[i].stage.Called? ==> Enabled(states[n], Enter(i))
    ensures states[n].turns[i].stage.Sleeping? ==>
              forall to | to >= states[n].now && to >= states[n].turns[i].stage.until ::
                Enabled(states[n].(now := to), Leave(i, 0))
  {
    RunInv(states, steps, n);
    assert Chained(states[n].turns, i);
    AllLeftMeansResolved(states[n].turns, states[n].turns[i].previous);
  }

  // ------------------------------------------------------ exact waiting times

  /** Exactly the first m callers have left. */
  predicate Front(turns: seq<Turn>, m: nat) {
    m <= |turns| && AllLeft(turns, m) && forall k | m <= k < |turns| :: !turns[k].stage.Left?
  }

  /** The next allowed time is what the last caller that has left made of its own. */
  ghost predicate LastLeft(states: seq<Pace>, steps: seq<Step>, n: nat, m: nat, l: nat)
    requires n <= |steps| < |states|
  {
    && Front(states[n].turns, m)
    && (m == 0 ==> states[n].next.None?)
    && (m > 0 ==>
          l < n && steps[l].Leave? && steps[l].turn == m - 1
          && states[n].next == Some(states[l].now + states[0].interval + steps[l].jitter))
  }

  lemma {:induction false} FindLastLeft(states: seq<Pace>, steps: seq<Step>, n: nat) returns (m: nat, l: nat)
    requires Run(states, steps) && n <= |steps|
    ensures LastLeft(states, steps, n, m, l)
  {
    if n == 0 {
      m, l := 0, 0;
    } else {
      m, l := FindLastLeft(states, steps, n - 1);
      RunInv(states, steps, n - 1);
      assert TakenAt(states, steps, n - 1);
      if steps[n - 1].Leave? {
        assert AllLeft(states[n - 1].turns, steps[n - 1].turn);
        m, l := m + 1, n - 1;
      }
    }
  }

  /** Nobody waits longer than the interval asks: the first caller wakes up at once,
      and any other one at the time its predecessor left, plus the interval, plus the
      predecessor's jitter, or at once if that has passed. */
  lemma WakesExactly(states: seq<Pace>, steps: seq<Step>, e: nat, i: nat) returns (l: nat)
    requires Run(states, steps) && e < |steps| && steps[e] == Enter(i)
    ensures i < |states[e + 1].turns| && states[e + 1].turns[i].stage.Sleeping?
    ensures var now, until := states[e].now, states[e + 1].turns[i].stage.until;
            if i == 0 then until == now
            else
              && l < e && steps[l].Leave? && steps[l].turn == i - 1
              && (var due := states[l].now + states[0].interval + steps[l].jitter;
                  now <= until && due <= until && (until == now || until == due))
  {
    var m;
    m, l := FindLastLeft(states, steps, e);
    RunInv(states, steps, e);
    assert TakenAt(states, steps, e);
    assert Chained(states[e].turns, i);
    if states[e].turns[i].previous.Some? {
      ResolvedMeansAllLeft(states[e].turns, states[e].turns[i].previous);
    }
    assert AllLeft(states[e].turns, i);
  }

  // ---------------------------------------------------------- the tail entry

  /** The caller whose entry is the tail has arranged for its removal when it left. */
  predicate TailArmed(s: Pace) {
    s.tail.Some? && s.tail.value < |s.turns| && s.turns[s.tail.value].stage.Left? ==> s.turns[s.tail.value].armed
  }

  lemma {:induction false} RunArmed(states: seq<Pace>, steps: seq<Step>, n: nat)
    requires Run(states, steps) && n <= |steps|
    ensures TailArmed(states[n])
  {
    if n > 0 {
      RunArmed(states, steps, n - 1);
      RunInv(states, steps, n - 1);
      assert TakenAt(states, steps, n - 1);
    }
  }

  /** When every caller has left, an entry that is still there can be removed, which
      leaves none; while somebody has not left, no clean-up removes the entry. */
  lemma TailIsDropped(states: seq<Pace>, steps: seq<Step>, n: nat)
    requires Run(states, steps) && n <= |steps|
    ensures var s := states[n];
            && (s.tail.Some? && AllLeft(s.turns, |s.turns|) ==>
                  Enabled(s, Forget(s.tail.value)) && Apply(s, Forget(s.tail.value)).tail.None?)
            && (forall i | Enabled(s, Forget(i)) && !AllLeft(s.turns, |s.turns|) ::
                  Apply(s, Forget(i)).tail == s.tail)
  {
    RunInv(states, steps, n);
    RunArmed(states, steps, n);
    var s := states[n];
    if s.tail.Some? && AllLeft(s.turns, |s.turns|) {
      AllLeftMeansResolved(s.turns, s.tail);
    }
    forall i | Enabled(s, Forget(i)) && !AllLeft(s.turns, |s.turns|) ensures Apply(s, Forget(i)).tail == s.tail {
      ResolvedMeansAllLeft(s.turns, Some(i));
    }
  }
}
