/** The article export: one producer of page numbers, a pool of workers, one error
    slot and a shared cancellation. */
module Exports {
  import opened Common

  datatype Worker = Ready | Has(page: nat) | Exited

  /** `settled` are the pages counted as written or skipped by a worker, `fetched`
      the ones written; the program keeps only the two counters. */
  datatype Export = Export(
    total: nat,
    resume: bool,
    next: nat,
    closed: bool,
    cancelled: bool,
    parentCancelled: bool,
    error: Option<nat>,
    workers: seq<Worker>,
    files: set<nat>,
    written: nat,
    skipped: nat,
    settled: set<nat>,
    fetched: set<nat>)

  datatype Step =
    | Send(worker: nat)      // the producer hands the next page over
    | Stop                   // the producer sees the cancellation
    | Finish                 // the producer has sent every page
    | Bail(worker: nat)      // a worker sees the cancellation before it starts a page
    | Skip(worker: nat)
    | Write(worker: nat)
    | Fail(worker: nat)
    | Leave(worker: nat)     // a worker finds the channel closed
    | ParentCancel

  predicate Holding(s: Export, w: nat) {
    w < |s.workers| && s.workers[w].Has?
  }

  /** A resumed export keeps a page it finds, except the last one, which may have grown. */
  predicate Keeps(s: Export, page: nat) {
    s.resume && page != s.total && page in s.files
  }

  predicate Enabled(s: Export, step: Step) {
    match step
    case Send(w) => !s.closed && s.next <= s.total && w < |s.workers| && s.workers[w].Ready?
    case Stop => !s.closed && s.cancelled
    case Finish => !s.closed && s.next > s.total
    case Bail(w) => Holding(s, w) && s.cancelled
    case Skip(w) => Holding(s, w) && Keeps(s, s.workers[w].page)
    case Write(w) => Holding(s, w) && !Keeps(s, s.workers[w].page)
    case Fail(w) => Holding(s, w) && !Keeps(s, s.workers[w].page)
    case Leave(w) => w < |s.workers| && s.workers[w].Ready? && s.closed
    case ParentCancel => true
  }

  function Apply(s: Export, step: Step): Export
    requires Enabled(s, step)
  {
    match step
    case Send(w) => s.(workers := s.workers[w := Has(s.next)], next := s.next + 1)
    case Stop => s.(closed := true)
    case Finish => s.(closed := true)
    case Bail(w) => s.(workers := s.workers[w := Exited])
    case Skip(w) =>
      s.(workers := s.workers[w := Ready], skipped := s.skipped + 1, settled := s.settled + {s.workers[w].page})
    case Write(w) =>
      s.(workers := s.workers[w := Ready], written := s.written + 1,
         files := s.files + {s.workers[w].page}, settled := s.settled + {s.workers[w].page},
         fetched := s.fetched + {s.workers[w].page})
    case Fail(w) =>
      var out := s.(workers := s.workers[w := Exited]);
      if s.error.None? then out.(error := Some(s.workers[w].page), cancelled := true) else out
    case Leave(w) => s.(workers := s.workers[w := Exited])
    case ParentCancel => s.(cancelled := true, parentCancelled := true)
  }

  /** After the probe has settled page 1. */
  predicate Init(s: Export) {
    && s.total >= 2 && s.next == 2 && !s.closed && !s.cancelled && !s.parentCancelled && s.error.None?
    && |s.workers| >= 1 && (forall w | 0 <= w < |s.workers| :: s.workers[w].Ready?)
    && 1 in s.files && s.written + s.skipped == 1 && s.settled == {} && s.fetched == {}
  }

  predicate InHand(s: Export, page: nat) {
    exists w | 0 <= w < |s.workers| :: s.workers[w] == Has(page)
  }

  /** Every page sent so far is settled or in a worker's hands. */
  ghost predicate NoneLost(s: Export) {
    forall page {:trigger InHand(s, page)} | 2 <= page < s.next :: page in s.settled || InHand(s, page)
  }

  ghost predicate PagesOk(s: Export) {
    && s.total >= 2 && 2 <= s.next <= s.total + 1
    && 1 in s.files && s.fetched <= s.settled <= s.files
    && forall page | page in s.settled :: 2 <= page < s.next && (page in s.fetched || (s.resume && page != s.total))
  }

  predicate Apart(workers: seq<Worker>, v: nat, w: nat) {
    v < w < |workers| && workers[v].Has? ==> workers[v] != workers[w]
  }

  /** The pages in hand have been sent, are not settled, and are in one hand each. */
  ghost predicate HandsOk(s: Export) {
    && |s.workers| >= 1
    && (forall w | 0 <= w < |s.workers| && s.workers[w].Has? ::
          2 <= s.workers[w].page < s.next && s.workers[w].page !in s.settled)
    && forall v: nat, w: nat :: Apart(s.workers, v, w)
  }

  ghost predicate FlagsOk(s: Export) {
    && (s.error.Some? ==> s.cancelled)
    && (s.cancelled ==> s.error.Some? || s.parentCancelled)
    && (!s.cancelled && s.closed ==> s.next > s.total)
    && (!s.cancelled && !s.closed ==> forall w | 0 <= w < |s.workers| :: !s.workers[w].Exited?)
  }

  ghost predicate Inv(s: Export) {
    PagesOk(s) && HandsOk(s) && FlagsOk(s) && (!s.cancelled ==> NoneLost(s))
  }

  lemma HandsKept(s: Export, step: Step)
    requires PagesOk(s) && HandsOk(s) && Enabled(s, step)
    ensures HandsOk(Apply(s, step))
  {
    var s' := Apply(s, step);
    forall v: nat, w: nat ensures Apart(s'.workers, v, w) {
      assert Apart(s.workers, v, w);
    }
    forall w | 0 <= w < |s'.workers| && s'.workers[w].Has?
      ensures 2 <= s'.workers[w].page < s'.next && s'.workers[w].page !in s'.settled
    {
      if step.Skip? || step.Write? {
        assert Apart(s.workers, w, step.worker) && Apart(s.workers, step.worker, w);
      }
    }
  }

  lemma NoneLostKept(s: Export, step: Step)
    requires NoneLost(s) && Enabled(s, step) && s.next >= 2 && !Apply(s, step).cancelled
    requires !step.Bail? && !step.Fail?
    ensures NoneLost(Apply(s, step))
  {
    var s' := Apply(s, step);
    forall page {:trigger InHand(s', page)} | 2 <= page < s'.next && page !in s'.settled ensures InHand(s', page) {
      if step.Send? && page == s.next {
        assert s'.workers[step.worker] == Has(page);
      } else {
        assert InHand(s, page);
        var w :| 0 <= w < |s.workers| && s.workers[w] == Has(page);
        assert s'.workers[w] == Has(page);
      }
    }
  }

  lemma InvKept(s: Export, step: Step)
    requires Inv(s) && Enabled(s, step)
    ensures Inv(Apply(s, step))
  {
    HandsKept(s, step);
    if !Apply(s, step).cancelled && !step.Bail? && !step.Fail? {
      NoneLostKept(s, step);
    }
  }

  ghost predicate Taken(s: Export, step: Step, s': Export) {
    Enabled(s, step) && s' == Apply(s, step)
  }

  /** Step i leads from state i to the next. */
  ghost predicate TakenAt(states: seq<Export>, steps: seq<Step>, i: nat)
    requires i < |steps| < |states|
  {
    Taken(states[i], steps[i], states[i + 1])
  }

  ghost predicate Run(states: seq<Export>, steps: seq<Step>) {
    && |states| == |steps| + 1
    && Init(states[0])
    && forall i {:trigger TakenAt(states, steps, i)} | 0 <= i < |steps| :: TakenAt(states, steps, i)
  }

  lemma InitInv(s: Export)
    requires Init(s)
    ensures Inv(s)
  {
    assert forall page {:trigger InHand(s, page)} :: !(2 <= page < s.next);
  }

  lemma NextInv(states: seq<Export>, steps: seq<Step>, i: nat)
    requires Run(states, steps) && i < |steps| && Inv(states[i])
    ensures Inv(states[i + 1])
  {
    assert TakenAt(states, steps, i);
    InvKept(states[i], steps[i]);
  }

  lemma {:induction false} RunInv(states: seq<Export>, steps: seq<Step>, i: nat)
    requires Run(states, steps) && i <= |steps|
    ensures Inv(states[i])
  {
    if i == 0 {
      InitInv(states[0]);
    } else {
      RunInv(states, steps, i - 1);
      NextInv(states, steps, i - 1);
    }
  }

  lemma OneMorePage(pages: set<nat>, page: nat)
    requires page !in pages
    ensures |pages + {page}| == |pages| + 1
  {
    assert pages + {page} - {page} == pages;
  }

  /** Every page is counted once, the probed first one included. */
  ghost predicate Counted(s: Export) {
    s.written + s.skipped == 1 + |s.settled|
  }

  lemma CountedStep(s: Export, step: Step)
    requires Enabled(s, step) && Counted(s)
    requires step.Skip? || step.Write? ==> s.workers[step.worker].page !in s.settled
    ensures Counted(Apply(s, step))
  {
    if step.Skip? || step.Write? {
      OneMorePage(s.settled, s.workers[step.worker].page);
    }
  }

  lemma {:induction false} RunCounted(states: seq<Export>, steps: seq<Step>, i: nat)
    requires Run(states, steps) && i <= |steps|
    ensures Counted(states[i])
  {
    if i > 0 {
      var s, step := states[i - 1], steps[i - 1];
      RunCounted(states, steps, i - 1);
      assert TakenAt(states, steps, i - 1);
      assert step.Skip? || step.Write? ==> s.workers[step.worker].page !in s.settled by {
        RunInv(states, steps, i - 1);
      }
      CountedStep(s, step);
    }
  }

  /** wg.Wait has returned. */
  predicate Finished(s: Export) {
    forall w | 0 <= w < |s.workers| :: s.workers[w].Exited?
  }

  function Pages(first: nat, end: nat): (pages: set<nat>)
    ensures forall page :: page in pages <==> first <= page < end
    ensures first <= end ==> |pages| == end - first
  {
    if first >= end then {} else Pages(first, end - 1) + {end - 1}
  }

  /** Without a parent cancellation, an export that returns no error has every page
      on disk and has counted each page once; the last page, and without the resume
      option every page but the probed first, it has fetched itself. */
  lemma NilErrorMeansComplete(states: seq<Export>, steps: seq<Step>)
    requires Run(states, steps)
    requires var last := states[|steps|]; Finished(last) && last.error.None? && !last.parentCancelled
    ensures var last := states[|steps|];
            Pages(1, last.total + 1) <= last.files && last.written + last.skipped == last.total
            && last.total in last.fetched && (!last.resume ==> last.fetched == Pages(2, last.total + 1))
  {
    var last := states[|steps|];
    RunInv(states, steps, |steps|);
    RunCounted(states, steps, |steps|);
    assert last.workers[0].Exited?;
    assert last.settled == Pages(2, last.total + 1) by {
      forall page | 2 <= page < last.next ensures page in last.settled {
        assert !InHand(last, page);
      }
    }
  }

  /** At any point of any run, cancelled or not, the counters add up to the page
      count exactly when every page has been settled. */
  lemma CountersTellCompletion(states: seq<Export>, steps: seq<Step>, i: nat)
    requires Run(states, steps) && i <= |steps|
    ensures var s := states[i];
            s.written + s.skipped == s.total <==> s.settled == Pages(2, s.total + 1)
    ensures states[i].settled <= states[i].files
  {
    var s := states[i];
    RunInv(states, steps, i);
    RunCounted(states, steps, i);
    if s.written + s.skipped == s.total {
      SubsetCount(s.settled, Pages(2, s.total + 1));
    }
  }

  /** The error that comes back is the first one: the run has an error exactly if some
      worker has failed, and it names the page of the one that failed first. */
  lemma {:induction false} FirstErrorWins(states: seq<Export>, steps: seq<Step>, n: nat) returns (k: nat)
    requires Run(states, steps) && n <= |steps|
    ensures k <= n && forall j | 0 <= j < k :: !steps[j].Fail?
    ensures states[n].error.None? <==> k == n
    ensures k < n ==> steps[k].Fail? && Holding(states[k], steps[k].worker)
                      && states[n].error == Some(states[k].workers[steps[k].worker].page)
  {
    k := 0;
    if n > 0 {
      k := FirstErrorWins(states, steps, n - 1);
      assert TakenAt(states, steps, n - 1);
      if k == n - 1 && !steps[k].Fail? {
        k := n;
      }
    }
  }

  // ---------------------------------------------- what a resume spares

  /** The page was on disk when the export began, and is not the last one. */
  predicate WasThere(start: Export, page: nat) {
    page in start.files && page < start.total
  }

  /** What is on disk was there or has been fetched, and nothing has been fetched that
      a resume can spare; the counters count the one and the other. */
  ghost predicate Sparing(start: Export, s: Export) {
    && s.total == start.total && s.resume == start.resume && s.files == start.files + s.fetched
    && (forall page | page in s.settled :: page in s.fetched <==> !(s.resume && WasThere(start, page)))
    && s.written == start.written + |s.fetched| && s.skipped == start.skipped + |s.settled - s.fetched|
  }

  lemma SparingSkip(start: Export, s: Export, w: nat)
    requires PagesOk(s) && HandsOk(s) && Sparing(start, s) && Enabled(s, Skip(w))
    ensures Sparing(start, Apply(s, Skip(w)))
  {
    var page := s.workers[w].page;
    OneMorePage(s.settled - s.fetched, page);
    assert s.settled + {page} - s.fetched == s.settled - s.fetched + {page};
  }

  lemma SparingWrite(start: Export, s: Export, w: nat)
    requires PagesOk(s) && HandsOk(s) && Sparing(start, s) && Enabled(s, Write(w))
    ensures Sparing(start, Apply(s, Write(w)))
  {
    var page := s.workers[w].page;
    OneMorePage(s.fetched, page);
    assert s.settled + {page} - (s.fetched + {page}) == s.settled - s.fetched;
  }

  lemma SparingStep(start: Export, s: Export, step: Step)
    requires PagesOk(s) && HandsOk(s) && Sparing(start, s) && Enabled(s, step)
    ensures Sparing(start, Apply(s, step))
  {
    if step.Skip? {
      SparingSkip(start, s, step.worker);
    } else if step.Write? {
      SparingWrite(start, s, step.worker);
    }
  }

  /** At every moment of every run, a resumed export has fetched exactly those settled
      pages that were not on disk when it began, and the last one; a run without the
      option has fetched them all. The two counters tell how many there are of each. */
  lemma {:induction false} ResumeSparesExactly(states: seq<Export>, steps: seq<Step>, i: nat)
    requires Run(states, steps) && i <= |steps|
    ensures Sparing(states[0], states[i])
  {
    if i > 0 {
      ResumeSparesExactly(states, steps, i - 1);
      RunInv(states, steps, i - 1);
      assert TakenAt(states, steps, i - 1);
      SparingStep(states[0], states[i - 1], steps[i - 1]);
    }
  }

  /** So an export that ends without an error or an outside cancellation has written
      the pages that were missing, the last one, and the first one if the probe did. */
  lemma WrittenAtTheEnd(states: seq<Export>, steps: seq<Step>)
    requires Run(states, steps)
    requires var last := states[|steps|]; Finished(last) && last.error.None? && !last.parentCancelled
    ensures var start, last := states[0], states[|steps|];
            var missing := set page | page in Pages(2, last.total + 1) && !(last.resume && WasThere(start, page));
            last.fetched == missing && last.written == start.written + |missing|
            && last.skipped == start.skipped + last.total - 1 - |missing|
  {
    var last := states[|steps|];
    NilErrorMeansComplete(states, steps);
    ResumeSparesExactly(states, steps, |steps|);
    CountersTellCompletion(states, steps, |steps|);
    RunInv(states, steps, |steps|);
  }

  // ---------------------------------------------------------- cancellation

  /** The producer has stopped on a cancellation, and the first n workers have left. */
  ghost predicate Leaving(s: Export, now: Export, n: nat) {
    && now.closed && now.cancelled && now.parentCancelled && now.error.None?
    && now.total == s.total && now.files == s.files && |now.workers| == |s.workers| && n <= |now.workers|
    && forall w | 0 <= w < |now.workers| :: if w < n then now.workers[w].Exited? else now.workers[w].Ready?
  }

  lemma RunGrows(states: seq<Export>, steps: seq<Step>, step: Step)
    requires Run(states, steps) && Enabled(states[|steps|], step)
    ensures Run(states + [Apply(states[|steps|], step)], steps + [step])
  {
    var longer, more := states + [Apply(states[|steps|], step)], steps + [step];
    forall i {:trigger TakenAt(longer, more, i)} | 0 <= i < |more| ensures TakenAt(longer, more, i) {
      assert i < |steps| ==> TakenAt(states, steps, i);
    }
  }

  lemma {:induction false} AllLeave(s: Export, n: nat) returns (states: seq<Export>, steps: seq<Step>)
    requires Init(s) && n <= |s.workers|
    ensures Run(states, steps) && states[0] == s && Leaving(s, states[|steps|], n)
  {
    if n == 0 {
      var s1 := Apply(s, ParentCancel);
      var s2 := Apply(s1, Stop);
      states, steps := [s, s1, s2], [ParentCancel, Stop];
    } else {
      states, steps := AllLeave(s, n - 1);
      RunGrows(states, steps, Leave(n - 1));
      states, steps := states + [Apply(states[|steps|], Leave(n - 1))], steps + [Leave(n - 1)];
    }
  }

  /** Cancelled from outside before it has sent a page, an export ends without an
      error and with the files it started with. */
  lemma CancelledExportCanLookFine(s: Export) returns (states: seq<Export>, steps: seq<Step>)
    requires Init(s)
    ensures Run(states, steps) && states[0] == s
    ensures var last := states[|steps|];
            Finished(last) && last.error.None? && last.parentCancelled && last.files == s.files && last.total == s.total
  {
    states, steps := AllLeave(s, |s.workers|);
  }

  /** The run has come back without an error. */
  ghost predicate NilError(s: Export, states: seq<Export>, steps: seq<Step>) {
    Run(states, steps) && states[0] == s && Finished(states[|steps|]) && states[|steps|].error.None?
  }

  ghost predicate CompleteAnyway(s: Export) {
    forall states: seq<Export>, steps: seq<Step> | NilError(s, states, steps) ::
      Pages(1, s.total + 1) <= states[|steps|].files
  }

  lemma {:induction false} FilesStay(states: seq<Export>, steps: seq<Step>, i: nat)
    requires Run(states, steps) && i <= |steps|
    ensures states[0].files <= states[i].files
  {
    if i > 0 {
      FilesStay(states, steps, i - 1);
      assert TakenAt(states, steps, i - 1);
    }
  }

  /** With cancellations from outside allowed, a return without an error tells that
      every page is on disk if and only if every page was there before. */
  lemma CompleteAnywayExactly(s: Export)
    requires Init(s)
    ensures CompleteAnyway(s) <==> Pages(1, s.total + 1) <= s.files
  {
    if Pages(1, s.total + 1) <= s.files {
      forall states: seq<Export>, steps: seq<Step> | NilError(s, states, steps)
        ensures Pages(1, s.total + 1) <= states[|steps|].files
      {
        FilesStay(states, steps, |steps|);
      }
    } else {
      var states, steps := CancelledExportCanLookFine(s);
      assert NilError(s, states, steps);
    }
  }

  // ------------------------------------------------------------ termination

  function Rank(w: Worker): nat {
    match w
    case Has(_) => 2
    case Ready => 1
    case Exited => 0
  }

  function Ranks(workers: seq<Worker>): nat {
    if workers == [] then 0 else Ranks(workers[..|workers| - 1]) + Rank(workers[|workers| - 1])
  }

  lemma {:induction false} RankChange(workers: seq<Worker>, w: nat, to: Worker)
    requires w < |workers|
    ensures Ranks(workers[w := to]) == Ranks(workers) - Rank(workers[w]) + Rank(to)
  {
    var n := |workers| - 1;
    if w < n {
      RankChange(workers[..n], w, to);
      assert workers[w := to][..n] == workers[..n][w := to];
    } else {
      assert workers[w := to][..n] == workers[..n];
    }
  }

  function Work(s: Export): int {
    3 * (s.total + 1 - s.next) + Ranks(s.workers) + (if s.closed then 0 else 1)
  }

  lemma StepWorks(s: Export, step: Step)
    requires s.next <= s.total + 1 && Enabled(s, step)
    ensures 0 <= Work(Apply(s, step))
    ensures if step.ParentCancel? then Work(Apply(s, step)) == Work(s) else Work(Apply(s, step)) < Work(s)
  {
    if !(step.Stop? || step.Finish? || step.ParentCancel?) {
      RankChange(s.workers, step.worker, Apply(s, step).workers[step.worker]);
    }
  }

  lemma NeverStuck(s: Export) returns (step: Step)
    requires Inv(s) && !Finished(s)
    ensures Enabled(s, step) && !step.ParentCancel?
  {
    var w :| 0 <= w < |s.workers| && !s.workers[w].Exited?;
    if s.workers[w].Has? {
      step := if Keeps(s, s.workers[w].page) then Skip(w) else Write(w);
    } else {
      step := if s.closed then Leave(w) else if s.next <= s.total then Send(w) else Finish;
    }
  }

  function Moves(steps: seq<Step>): nat {
    if steps == [] then 0
    else Moves(steps[..|steps| - 1]) + (if steps[|steps| - 1].ParentCancel? then 0 else 1)
  }

  lemma {:induction false} WorkPaysForMoves(states: seq<Export>, steps: seq<Step>, n: nat)
    requires Run(states, steps) && n <= |steps|
    ensures Moves(steps[..n]) + Work(states[n]) <= Work(states[0])
  {
    if n > 0 {
      WorkPaysForMoves(states, steps, n - 1);
      RunInv(states, steps, n - 1);
      assert TakenAt(states, steps, n - 1);
      StepWorks(states[n - 1], steps[n - 1]);
      assert steps[..n][..n - 1] == steps[..n - 1];
    }
  }

  lemma {:induction false} ReadyRanks(workers: seq<Worker>)
    requires forall w | 0 <= w < |workers| :: workers[w].Ready?
    ensures Ranks(workers) == |workers|
  {
    if workers != [] {
      ReadyRanks(workers[..|workers| - 1]);
    }
  }

  /** Errors and cancellations at any point included, an export makes a bounded
      number of moves and is never stuck before all workers have left. */
  lemma ExportTerminates(states: seq<Export>, steps: seq<Step>)
    requires Run(states, steps)
    ensures Moves(steps) <= 3 * states[0].total + |states[0].workers|
    ensures Finished(states[|steps|]) || exists step :: Enabled(states[|steps|], step) && !step.ParentCancel?
  {
    RunInv(states, steps, |steps|);
    WorkPaysForMoves(states, steps, |steps|);
    assert steps[..|steps|] == steps;
    ReadyRanks(states[0].workers);
    if !Finished(states[|steps|]) {
      var step := NeverStuck(states[|steps|]);
    }
  }
}
