/** The media download over any number of resumed runs and crashes: files stored
    under their hash, and an append-only manifest that says what need not be
    fetched again. */
module Medias {
  import opened Common

  type Url = string
  type Hash = string

  /** Files are stored as hash and extension. */
  datatype Path = Path(hash: Hash, extension: string)

  datatype Record =
    | Stored(url: Url, path: Path)   // status downloaded or skipped
    | Failed(url: Url)

  /** A newline-terminated line of the manifest; Junk does not parse. */
  datatype Line = Line(record: Record) | Junk

  /** What stands after the last newline: nothing, a record cut short, or a whole
      record that lacks only its newline. */
  datatype Tail = Clean | Partial | Whole(record: Record)

  /** A download on its way into place: where it goes, and whether os.Stat has
      found a file there. */
  datatype Placing = Placing(path: Path, found: bool)

  /** One run of DownloadMedia. `placing` are the downloads between os.Stat and
      os.Rename, `pending` the records between a worker and the manifest writer,
      `buffer` what the writer has encoded and not written. */
  datatype Job = Job(
    resume: bool,
    workers: nat,
    seen: set<Url>,
    discovered: nat,
    todo: set<Url>,
    working: set<Url>,
    placing: map<Url, Placing>,
    pending: set<Record>,
    buffer: seq<Record>,
    downloaded: nat,
    skipped: nat,
    failed: nat)

  datatype State = State(
    files: map<Path, Hash>,
    lines: seq<Line>,
    tail: Tail,
    job: Option<Job>)

  datatype Step =
    | Start(urls: set<Url>, resume: bool, workers: nat)
    | Dispatch(url: Url)
    | SkipSeen(url: Url)
    | FetchFailed(url: Url)
    | Probe(url: Url, path: Path)    // downloaded and hashed; os.Stat answers
    | Place(url: Url)                // os.Rename, unless a file was found
    | Encode(record: Record)
    | Persist
    | End
    | Crash(tail: Tail)

  /** The URLs loadMediaManifest returns. */
  function Loaded(lines: seq<Line>, tail: Tail): set<Url> {
    Listed(lines) + (if tail.Whole? && tail.record.Stored? then {tail.record.url} else {})
  }

  /** The last successful record of a URL. */
  function LastSuccess(lines: seq<Line>, url: Url): Option<Record> {
    if lines == [] then None
    else
      var last := lines[|lines| - 1];
      if last.Line? && last.record.Stored? && last.record.url == url then Some(last.record)
      else LastSuccess(lines[..|lines| - 1], url)
  }

  /** Scanning the manifest: for every URL that has a successful record, the last one. */
  method LoadMediaManifest(lines: seq<Line>, tail: Tail) returns (seen: map<Url, Record>)
    ensures seen.Keys == Loaded(lines, tail)
    ensures forall url :: (if url in seen then Some(seen[url]) else None)
                          == LastSuccess(if tail.Whole? then lines + [Line(tail.record)] else lines, url)
  {
    seen := map[];
    var i := 0;
    while i < |lines|
      invariant 0 <= i <= |lines|
      invariant seen.Keys == Listed(lines[..i])
      invariant forall url :: (if url in seen then Some(seen[url]) else None) == LastSuccess(lines[..i], url)
    {
      assert forall line :: line in lines[..i + 1] <==> line in lines[..i] || line == lines[i];
      assert lines[..i + 1][..i] == lines[..i];
      if lines[i].Line? && lines[i].record.Stored? {
        seen := seen[lines[i].record.url := lines[i].record];
      }
      i := i + 1;
    }
    assert lines[..i] == lines;
    assert tail.Whole? ==> (lines + [Line(tail.record)])[..|lines|] == lines;
    if tail.Whole? && tail.record.Stored? {
      seen := seen[tail.record.url := tail.record];
    }
  }

  /** The URLs with a successful, newline-terminated record. */
  function Listed(lines: seq<Line>): set<Url> {
    set line | line in lines && line.Line? && line.record.Stored? :: line.record.url
  }

  /** Appending to a file that does not end in a newline spoils the line it lands on. */
  function Appended(lines: seq<Line>, tail: Tail, record: Record): seq<Line> {
    lines + [if tail.Clean? then Line(record) else Junk]
  }

  predicate Busy(s: State, url: Url) {
    s.job.Some? && url in s.job.value.working
  }

  predicate SkipsSeen(j: Job, url: Url) {
    j.resume && url in j.seen
  }

  /** What a crash can leave of the record that was being written. */
  predicate CutOff(s: State, tail: Tail) {
    || tail == s.tail
    || (s.job.Some? && s.job.value.buffer != []
        && (tail.Partial? || (s.tail.Clean? && tail == Whole(s.job.value.buffer[0]))))
  }

  predicate Enabled(s: State, step: Step) {
    match step
    case Start(urls, resume, workers) => s.job.None? && workers >= 1
    case Dispatch(url) => s.job.Some? && url in s.job.value.todo && |s.job.value.working| < s.job.value.workers
    case SkipSeen(url) => Busy(s, url) && SkipsSeen(s.job.value, url)
    case FetchFailed(url) =>
      Busy(s, url) && !SkipsSeen(s.job.value, url)
      && (url in s.job.value.placing ==> !s.job.value.placing[url].found)
    case Probe(url, path) => Busy(s, url) && !SkipsSeen(s.job.value, url) && url !in s.job.value.placing
    case Place(url) => Busy(s, url) && url in s.job.value.placing
    case Encode(record) => s.job.Some? && record in s.job.value.pending
    case Persist => s.job.Some? && s.job.value.buffer != []
    case End =>
      s.job.Some? && s.job.value.todo == {} && s.job.value.working == {}
      && s.job.value.pending == {} && s.job.value.buffer == []
    case Crash(tail) => CutOff(s, tail)
  }

  /** The worker is done with the URL. */
  function Over(j: Job, url: Url): Job {
    j.(working := j.working - {url}, placing := j.placing - {url})
  }

  function Apply(s: State, step: Step): State
    requires Enabled(s, step)
  {
    match step
    case Start(urls, resume, workers) =>
      s.(job := Some(Job(resume, workers, Loaded(s.lines, s.tail), |urls|, urls, {}, map[], {}, [], 0, 0, 0)))
    case Dispatch(url) =>
      var j := s.job.value;
      s.(job := Some(j.(todo := j.todo - {url}, working := j.working + {url})))
    case SkipSeen(url) =>
      var j := s.job.value;
      s.(job := Some(Over(j, url).(skipped := j.skipped + 1)))
    case FetchFailed(url) =>
      var j := s.job.value;
      s.(job := Some(Over(j, url).(failed := j.failed + 1, pending := j.pending + {Failed(url)})))
    case Probe(url, path) =>
      var j := s.job.value;
      s.(job := Some(j.(placing := j.placing[url := Placing(path, path in s.files)])))
    case Place(url) =>
      var j := s.job.value;
      var path := j.placing[url].path;
      var done := Over(j, url).(pending := j.pending + {Stored(url, path)});
      if j.placing[url].found then s.(job := Some(done.(skipped := j.skipped + 1)))
      else s.(files := s.files[path := path.hash], job := Some(done.(downloaded := j.downloaded + 1)))
    case Encode(record) =>
      var j := s.job.value;
      s.(job := Some(j.(pending := j.pending - {record}, buffer := j.buffer + [record])))
    case Persist =>
      var j := s.job.value;
      State(s.files, Appended(s.lines, s.tail, j.buffer[0]), Clean, Some(j.(buffer := j.buffer[1..])))
    case End => s.(job := None)
    case Crash(tail) => s.(tail := tail, job := None)
  }

  // -------------------------------------------------------------- invariant

  predicate OnDisk(files: map<Path, Hash>, record: Record) {
    record.Stored? ==> record.path in files && files[record.path] == record.path.hash
  }

  /** URLs the run has taken in hand and finished. */
  predicate Open(j: Job, url: Url) {
    url in j.todo || url in j.working
  }

  predicate JobOk(s: State, j: Job) {
    && j.todo !! j.working
    && j.downloaded + j.skipped + j.failed + |j.todo| + |j.working| == j.discovered
    && j.placing.Keys <= j.working
    && (forall url | url in j.placing ::
          !SkipsSeen(j, url) && (j.placing[url].found ==> j.placing[url].path in s.files))
    && (forall r | r in j.pending :: OnDisk(s.files, r) && !Open(j, r.url))
    && (forall r | r in j.buffer :: OnDisk(s.files, r) && !Open(j, r.url))
    && (forall url | Open(j, url) && url in Listed(s.lines) :: url in j.seen)
  }

  predicate Inv(s: State) {
    && (forall path | path in s.files :: s.files[path] == path.hash)
    && (forall line | line in s.lines && line.Line? :: OnDisk(s.files, line.record))
    && (s.tail.Whole? ==> OnDisk(s.files, s.tail.record))
    && (s.job.Some? ==> JobOk(s, s.job.value))
  }

  lemma PlaceKept(s: State, url: Url)
    requires Inv(s) && Enabled(s, Place(url))
    ensures Inv(Apply(s, Place(url)))
  {
    var s' := Apply(s, Place(url));
    assert forall r :: OnDisk(s.files, r) ==> OnDisk(s'.files, r);
  }

  lemma ProbeKept(s: State, url: Url, path: Path)
    requires Inv(s) && Enabled(s, Probe(url, path))
    ensures Inv(Apply(s, Probe(url, path)))
  {
  }

  lemma PersistKept(s: State)
    requires Inv(s) && Enabled(s, Persist)
    ensures Inv(Apply(s, Persist))
  {
    var s', j := Apply(s, Persist), s.job.value;
    assert j.buffer[0] in j.buffer && forall r | r in j.buffer[1..] :: r in j.buffer;
  }

  lemma FailKept(s: State, url: Url)
    requires Inv(s) && Enabled(s, FetchFailed(url))
    ensures Inv(Apply(s, FetchFailed(url)))
  {
  }

  lemma DispatchKept(s: State, url: Url)
    requires Inv(s) && Enabled(s, Dispatch(url))
    ensures Inv(Apply(s, Dispatch(url)))
  {
    var j, j' := s.job.value, Apply(s, Dispatch(url)).job.value;
    assert |j'.todo| == |j.todo| - 1 && |j'.working| == |j.working| + 1;
    assert forall other :: Open(j', other) <==> Open(j, other);
  }

  lemma StartKept(s: State, urls: set<Url>, resume: bool, workers: nat)
    requires Inv(s) && Enabled(s, Start(urls, resume, workers))
    ensures Inv(Apply(s, Start(urls, resume, workers)))
  {
  }

  lemma SkipOrEncodeKept(s: State, step: Step)
    requires Inv(s) && Enabled(s, step) && (step.SkipSeen? || step.Encode?)
    ensures Inv(Apply(s, step))
  {
  }

  lemma InvKept(s: State, step: Step)
    requires Inv(s) && Enabled(s, step)
    ensures Inv(Apply(s, step))
  {
    match step
    case Start(urls, resume, workers) => StartKept(s, urls, resume, workers);
    case Dispatch(url) => DispatchKept(s, url);
    case SkipSeen(_) => SkipOrEncodeKept(s, step);
    case FetchFailed(url) => FailKept(s, url);
    case Probe(url, path) => ProbeKept(s, url, path);
    case Place(url) => PlaceKept(s, url);
    case Encode(_) => SkipOrEncodeKept(s, step);
    case Persist => PersistKept(s);
    case End =>
    case Crash(_) =>
  }

  // ------------------------------------------------------------------- runs

  ghost predicate Taken(s: State, step: Step, s': State) {
    Enabled(s, step) && s' == Apply(s, step)
  }

  /** Step i leads from state i to the next. */
  ghost predicate TakenAt(states: seq<State>, steps: seq<Step>, i: nat)
    requires i < |steps| < |states|
  {
    Taken(states[i], steps[i], states[i + 1])
  }

  const EMPTY := State(map[], [], Clean, None)

  /** A continuation of s. */
  ghost predicate Continues(s: State, states: seq<State>, steps: seq<Step>) {
    && |states| == |steps| + 1
    && states[0] == s
    && forall i {:trigger TakenAt(states, steps, i)} | 0 <= i < |steps| :: TakenAt(states, steps, i)
  }

  ghost predicate Run(states: seq<State>, steps: seq<Step>) {
    Continues(EMPTY, states, steps)
  }

  lemma {:induction false} RunInv(states: seq<State>, steps: seq<Step>, i: nat)
    requires Run(states, steps) && i <= |steps|
    ensures Inv(states[i])
  {
    if i > 0 {
      RunInv(states, steps, i - 1);
      assert TakenAt(states, steps, i - 1);
      InvKept(states[i - 1], steps[i - 1]);
    }
  }

  /** Over any sequence of runs and crashes, every success the manifest shows names
      a present file that has that hash. */
  lemma ManifestIsTrue(states: seq<State>, steps: seq<Step>, i: nat, record: Record)
    requires Run(states, steps) && i <= |steps| && record.Stored?
    requires Line(record) in states[i].lines || states[i].tail == Whole(record)
    ensures record.path in states[i].files && states[i].files[record.path] == record.path.hash
  {
    RunInv(states, steps, i);
  }

  /** The URL's content is asked for: with success, or in vain. */
  predicate Fetches(step: Step, url: Url) {
    (step.FetchFailed? && step.url == url) || (step.Probe? && step.url == url)
  }

  /** A resumed run never fetches a URL whose success stands in a finished line. */
  lemma NothingFetchedAgain(states: seq<State>, steps: seq<Step>, i: nat, url: Url)
    requires Run(states, steps) && i < |steps| && Fetches(steps[i], url)
    ensures states[i].job.Some? && (states[i].job.value.resume ==> url !in Listed(states[i].lines))
  {
    RunInv(states, steps, i);
    assert TakenAt(states, steps, i);
  }

  lemma {:induction false} SeenAtStart(states: seq<State>, steps: seq<Step>, i: nat)
    requires Run(states, steps) && i <= |steps| && states[i].job.Some?
    ensures var from, j := StartOf(steps, i), states[i].job.value;
            0 < from && steps[from - 1].Start? && j.resume == steps[from - 1].resume
            && j.seen == Loaded(states[from - 1].lines, states[from - 1].tail)
  {
    assert i > 0;
    assert TakenAt(states, steps, i - 1);
    if !steps[i - 1].Start? {
      SeenAtStart(states, steps, i - 1);
    }
  }

  /** A URL is passed over unread exactly when the run resumes and the manifest it has
      loaded at its start lists the URL; any other one is asked for. */
  lemma PassedOverExactly(states: seq<State>, steps: seq<Step>, i: nat, url: Url)
    requires Run(states, steps) && i <= |steps| && Busy(states[i], url)
    ensures var from := StartOf(steps, i);
            0 < from && steps[from - 1].Start?
            && (Enabled(states[i], SkipSeen(url)) <==>
                  steps[from - 1].resume && url in Loaded(states[from - 1].lines, states[from - 1].tail))
            && (Enabled(states[i], SkipSeen(url)) <==> !exists path :: Fetching(states[i], url, path))
  {
    SeenAtStart(states, steps, i);
    RunInv(states, steps, i);
    if !Enabled(states[i], SkipSeen(url)) {
      assert Fetching(states[i], url, if url in states[i].job.value.placing then states[i].job.value.placing[url].path
                                      else Path("", ""));
    }
  }

  /** The URL's content has been downloaded to go to this path, or still can be. */
  predicate Fetching(s: State, url: Url, path: Path) {
    Enabled(s, Probe(url, path)) || (s.job.Some? && url in s.job.value.placing && s.job.value.placing[url].path == path)
  }

  /** A finished line is never lost. */
  lemma {:induction false} ListedForGood(states: seq<State>, steps: seq<Step>, i: nat, k: nat)
    requires Run(states, steps) && i <= k <= |steps|
    ensures Listed(states[i].lines) <= Listed(states[k].lines)
    decreases k
  {
    if i < k {
      ListedForGood(states, steps, i, k - 1);
      assert TakenAt(states, steps, k - 1);
    }
  }

  /** So once its success is in a finished line, no later resumed run fetches a URL. */
  lemma OnceIsEnough(states: seq<State>, steps: seq<Step>, i: nat, k: nat, url: Url)
    requires Run(states, steps) && i <= k < |steps|
    requires url in Listed(states[i].lines) && states[k].job.Some? && states[k].job.value.resume
    ensures !Fetches(steps[k], url)
  {
    ListedForGood(states, steps, i, k);
    if Fetches(steps[k], url) {
      NothingFetchedAgain(states, steps, k, url);
    }
  }

  // ----------------------------------- successes end up in the manifest

  /** No URL has two records on their way into the manifest. */
  predicate OneRecordEach(j: Job) {
    && (forall r, r' | r in j.pending && r' in j.pending && r.url == r'.url :: r == r')
    && (forall r, a | r in j.pending && 0 <= a < |j.buffer| :: j.buffer[a].url != r.url)
    && (forall a, b | 0 <= a < b < |j.buffer| :: j.buffer[a].url != j.buffer[b].url)
  }

  lemma OneRecordMoves(j: Job, record: Record)
    requires OneRecordEach(j) && record in j.pending
    ensures OneRecordEach(j.(pending := j.pending - {record}, buffer := j.buffer + [record]))
  {
  }

  lemma OneRecordMore(j: Job, record: Record)
    requires OneRecordEach(j)
    requires forall r | r in j.pending || r in j.buffer :: r.url != record.url
    ensures OneRecordEach(j.(pending := j.pending + {record}))
  {
  }

  lemma OneRecordLess(j: Job)
    requires OneRecordEach(j) && j.buffer != []
    ensures OneRecordEach(j.(buffer := j.buffer[1..]))
  {
  }

  lemma OneRecordKept(s: State, step: Step)
    requires Inv(s) && Enabled(s, step) && (s.job.Some? ==> OneRecordEach(s.job.value))
    ensures Apply(s, step).job.Some? ==> OneRecordEach(Apply(s, step).job.value)
  {
    match step
    case Place(url) => OneRecordMore(s.job.value, Stored(url, s.job.value.placing[url].path));
    case FetchFailed(url) => OneRecordMore(s.job.value, Failed(url));
    case Encode(record) => OneRecordMoves(s.job.value, record);
    case Persist => OneRecordLess(s.job.value);
    case _ =>
  }

  lemma {:induction false} RunOneRecord(states: seq<State>, steps: seq<Step>, i: nat)
    requires Run(states, steps) && i <= |steps|
    ensures states[i].job.Some? ==> OneRecordEach(states[i].job.value)
  {
    if i > 0 {
      RunOneRecord(states, steps, i - 1);
      RunInv(states, steps, i - 1);
      assert TakenAt(states, steps, i - 1);
      OneRecordKept(states[i - 1], steps[i - 1]);
    }
  }

  /** The record is on its way into the manifest. */
  predicate UnderWay(s: State, record: Record) {
    s.job.Some? && (record in s.job.value.pending || record in s.job.value.buffer)
  }

  /** The run is done with the URL, and its record is written. */
  predicate Finished(s: State, url: Url) {
    && s.job.Some? && !Open(s.job.value, url)
    && (forall r | r in s.job.value.pending :: r.url != url)
    && (forall r | r in s.job.value.buffer :: r.url != url)
  }

  /** The record of this URL is written where a cut-off one stands. */
  predicate Spoils(s: State, step: Step, url: Url) {
    step.Persist? && Enabled(s, step) && !s.tail.Clean? && s.job.value.buffer[0].url == url
  }

  lemma UnderWayNext(s: State, step: Step, record: Record)
    requires Inv(s) && Enabled(s, step) && UnderWay(s, record) && OneRecordEach(s.job.value) && record.Stored?
    requires !step.Start? && Apply(s, step).job.Some?
    ensures var s', url := Apply(s, step), record.url;
            if step.Persist? && s.job.value.buffer[0] == record
            then Finished(s', url) && (url in Listed(s'.lines) <==> url in Listed(s.lines) || s.tail.Clean?)
                 && (Spoils(s, step, url) <==> !s.tail.Clean?)
            else UnderWay(s', record) && (url in Listed(s'.lines) <==> url in Listed(s.lines)) && !Spoils(s, step, url)
  {
    var j := s.job.value;
    if step.Persist? {
      assert forall line :: line in Apply(s, step).lines <==>
        line in s.lines || line == if s.tail.Clean? then Line(j.buffer[0]) else Junk;
      assert j.buffer[0] in j.buffer;
      forall r | r in j.buffer[1..] ensures r.url != j.buffer[0].url {
        var b :| 0 <= b < |j.buffer| - 1 && j.buffer[1..][b] == r;
        assert j.buffer[b + 1] == r;
      }
      assert record in j.buffer ==> record == j.buffer[0] || record in j.buffer[1..];
    }
  }

  lemma FinishedNext(s: State, step: Step, url: Url)
    requires Inv(s) && Enabled(s, step) && Finished(s, url) && !step.Start? && Apply(s, step).job.Some?
    ensures Finished(Apply(s, step), url) && (url in Listed(Apply(s, step).lines) <==> url in Listed(s.lines))
    ensures !Spoils(s, step, url)
  {
    var j := s.job.value;
    if step.Persist? {
      assert forall line :: line in Apply(s, step).lines <==>
        line in s.lines || line == if s.tail.Clean? then Line(j.buffer[0]) else Junk;
      assert j.buffer[0] in j.buffer && forall r | r in j.buffer[1..] :: r in j.buffer;
    }
  }

  /** The record of this URL has been written where a cut-off one stood, after step k
      and before step m. */
  predicate Spoiled(states: seq<State>, steps: seq<Step>, k: nat, m: nat, url: Url)
    requires m <= |steps| <= |states|
  {
    m > k + 1 && (Spoiled(states, steps, k, m - 1, url) || Spoils(states[m - 1], steps[m - 1], url))
  }

  predicate Fate(states: seq<State>, steps: seq<Step>, k: nat, m: nat, record: Record)
    requires k < m <= |steps| < |states|
  {
    var now, before := record.url in Listed(states[m].lines), record.url in Listed(states[k].lines);
    || (UnderWay(states[m], record) && now == before && !Spoiled(states, steps, k, m, record.url))
    || (Finished(states[m], record.url) && (now <==> before || !Spoiled(states, steps, k, m, record.url)))
  }

  /** All steps from k up to m belong to one run of the download. */
  predicate SameRun(steps: seq<Step>, k: nat, m: nat)
    requires m <= |steps|
  {
    forall n | k <= n < m :: !steps[n].Start? && !steps[n].End? && !steps[n].Crash?
  }

  lemma {:induction false} FateOf(states: seq<State>, steps: seq<Step>, k: nat, m: nat, record: Record)
    requires Run(states, steps) && k < m <= |steps| && SameRun(steps, k, m)
    requires steps[k].Place? && states[k].job.Some? && steps[k].url in states[k].job.value.placing
    requires record == Stored(steps[k].url, states[k].job.value.placing[steps[k].url].path)
    ensures states[m].job.Some? && Fate(states, steps, k, m, record)
    decreases m
  {
    RunInv(states, steps, m - 1);
    RunOneRecord(states, steps, m - 1);
    assert TakenAt(states, steps, m - 1);
    if m > k + 1 {
      FateOf(states, steps, k, m - 1, record);
      if UnderWay(states[m - 1], record) && !Spoiled(states, steps, k, m - 1, record.url) {
        UnderWayNext(states[m - 1], steps[m - 1], record);
      } else {
        FinishedNext(states[m - 1], steps[m - 1], record.url);
      }
    }
  }

  /** What a run that ends has downloaded, or found on disk, stands in a finished line
      of the manifest, if and only if its record was not written where a cut-off one
      stood, or its success was listed already. */
  lemma SuccessIsListed(states: seq<State>, steps: seq<Step>, k: nat, i: nat)
    requires Run(states, steps) && k < i < |steps| && SameRun(steps, k, i)
    requires steps[k].Place? && steps[i].End?
    ensures var url := steps[k].url;
            url in Listed(states[i + 1].lines)
            <==> url in Listed(states[k].lines) || !Spoiled(states, steps, k, i, url)
  {
    assert TakenAt(states, steps, k) && TakenAt(states, steps, i);
    FateOf(states, steps, k, i, Stored(steps[k].url, states[k].job.value.placing[steps[k].url].path));
  }

  /** That happens to at most one record of a run, and to none if the manifest ends in
      a newline when the run begins to write. */
  lemma {:induction false} OneIsSpoiled(states: seq<State>, steps: seq<Step>, k: nat, m: nat, url: Url)
    requires Run(states, steps) && k <= m < |steps| && SameRun(steps, k, m)
    requires states[k].tail.Clean? || steps[k].Persist?
    ensures k < m || states[k].tail.Clean? ==> states[m].tail.Clean? && !Spoils(states[m], steps[m], url)
    decreases m
  {
    if k < m {
      OneIsSpoiled(states, steps, k, m - 1, url);
      assert TakenAt(states, steps, m - 1);
    }
  }

  lemma {:induction false} CleanIsNotSpoiled(states: seq<State>, steps: seq<Step>, k: nat, m: nat, url: Url)
    requires Run(states, steps) && k < m <= |steps| && SameRun(steps, k, m) && states[k].tail.Clean?
    ensures !Spoiled(states, steps, k, m, url)
    decreases m
  {
    if m > k + 1 {
      CleanIsNotSpoiled(states, steps, k, m - 1, url);
      OneIsSpoiled(states, steps, k, m - 1, url);
    }
  }

  /** So a run that ends, on a manifest that ended in a newline, spares all later
      resumed runs every URL it has downloaded or found. */
  lemma SuccessIsForGood(states: seq<State>, steps: seq<Step>, k: nat, i: nat, later: nat)
    requires Run(states, steps) && k < i < later < |steps| && SameRun(steps, k, i)
    requires steps[k].Place? && steps[i].End? && states[k].tail.Clean?
    requires states[later].job.Some? && states[later].job.value.resume
    ensures steps[k].url in Listed(states[i + 1].lines) && !Fetches(steps[later], steps[k].url)
  {
    CleanIsNotSpoiled(states, steps, k, i, steps[k].url);
    SuccessIsListed(states, steps, k, i);
    OnceIsEnough(states, steps, i + 1, later, steps[k].url);
  }

  /** A run that ends has counted every URL it discovered exactly once. */
  lemma CountsAddUp(states: seq<State>, steps: seq<Step>, i: nat)
    requires Run(states, steps) && i < |steps| && steps[i].End?
    ensures states[i].job.Some?
    ensures var j := states[i].job.value; j.downloaded + j.skipped + j.failed == j.discovered
  {
    RunInv(states, steps, i);
    assert TakenAt(states, steps, i);
  }

  /** The three ends of a URL: put into place, already there, in vain. */
  predicate Fresh(s: State, step: Step) {
    step.Place? && Enabled(s, step) && !s.job.value.placing[step.url].found
  }

  predicate Known(s: State, step: Step) {
    step.SkipSeen? || (step.Place? && Enabled(s, step) && s.job.value.placing[step.url].found)
  }

  predicate Vain(s: State, step: Step) {
    step.FetchFailed?
  }

  /** How many of the steps from `from` on, before i, are of this kind. */
  function Times(states: seq<State>, steps: seq<Step>, from: nat, i: nat, kind: (State, Step) -> bool): nat
    requires i <= |steps| <= |states|
  {
    if i <= from then 0
    else Times(states, steps, from, i - 1, kind) + (if kind(states[i - 1], steps[i - 1]) then 1 else 0)
  }

  /** At every moment of a run each counter counts its own kind of end. */
  lemma {:induction false} CountersMean(states: seq<State>, steps: seq<Step>, i: nat)
    requires Run(states, steps) && i <= |steps| && states[i].job.Some?
    ensures var j, from := states[i].job.value, StartOf(steps, i);
            && j.downloaded == Times(states, steps, from, i, Fresh)
            && j.skipped == Times(states, steps, from, i, Known)
            && j.failed == Times(states, steps, from, i, Vain)
  {
    assert i > 0;
    assert TakenAt(states, steps, i - 1);
    if !steps[i - 1].Start? {
      CountersMean(states, steps, i - 1);
    }
  }

  // ------------------------------------------------- files against counter

  /** The rename lands on a file that was not there when the worker looked. */
  predicate Collides(s: State, step: Step) {
    step.Place? && Enabled(s, step)
    && !s.job.value.placing[step.url].found && s.job.value.placing[step.url].path in s.files
  }

  /** The moment after the latest start, looking back from i. */
  function StartOf(steps: seq<Step>, i: nat): (from: nat)
    requires i <= |steps|
    ensures from <= i && forall k | from <= k < i :: !steps[k].Start?
    ensures 0 < from ==> steps[from - 1].Start?
  {
    if i == 0 || steps[i - 1].Start? then i else StartOf(steps, i - 1)
  }

  ghost predicate Undisturbed(states: seq<State>, steps: seq<Step>, from: nat, i: nat)
    requires i <= |steps| <= |states|
  {
    forall k | from <= k < i :: !Collides(states[k], steps[k])
  }

  function Overwritten(states: seq<State>, steps: seq<Step>, from: nat, i: nat): nat
    requires i <= |steps| <= |states|
  {
    if i <= from then 0
    else Overwritten(states, steps, from, i - 1) + (if Collides(states[i - 1], steps[i - 1]) then 1 else 0)
  }

  lemma {:induction false} NoneOverwritten(states: seq<State>, steps: seq<Step>, from: nat, i: nat)
    requires i <= |steps| <= |states|
    ensures Overwritten(states, steps, from, i) == 0 <==> Undisturbed(states, steps, from, i)
  {
    if i > from {
      NoneOverwritten(states, steps, from, i - 1);
    }
  }

  lemma {:induction false} FilesOfRun(states: seq<State>, steps: seq<Step>, i: nat)
    requires Run(states, steps) && i <= |steps| && states[i].job.Some?
    ensures var from := StartOf(steps, i);
            0 < from
            && |states[i].files| + Overwritten(states, steps, from, i)
               == |states[from].files| + states[i].job.value.downloaded
  {
    assert i > 0;
    assert TakenAt(states, steps, i - 1);
    if !steps[i - 1].Start? {
      FilesOfRun(states, steps, i - 1);
    }
  }

  /** `downloaded` never falls short of the files a run has added, and equals their
      number exactly as long as no rename has landed on a file that appeared after
      its own stat. */
  lemma DownloadedCountsFiles(states: seq<State>, steps: seq<Step>, i: nat)
    requires Run(states, steps) && i <= |steps| && states[i].job.Some?
    ensures var from := StartOf(steps, i);
            && |states[i].files| <= |states[from].files| + states[i].job.value.downloaded
            && (|states[i].files| == |states[from].files| + states[i].job.value.downloaded
                <==> Undisturbed(states, steps, from, i))
  {
    FilesOfRun(states, steps, i);
    NoneOverwritten(states, steps, StartOf(steps, i), i);
  }

  /** What a worker found absent is still absent. */
  predicate NothingNew(s: State) {
    s.job.Some? &&
      forall url | url in s.job.value.placing && !s.job.value.placing[url].found ::
        s.job.value.placing[url].path !in s.files
  }

  /** The download being placed shares its place with no other one. */
  predicate Alone(s: State, step: Step) {
    step.Place? && s.job.Some? && step.url in s.job.value.placing ==>
      forall other | other in s.job.value.placing && other != step.url ::
        s.job.value.placing[other].path != s.job.value.placing[step.url].path
  }

  lemma {:induction false} AloneMeansUndisturbed(states: seq<State>, steps: seq<Step>, i: nat)
    requires Run(states, steps) && i <= |steps| && states[i].job.Some?
    requires forall k | StartOf(steps, i) <= k < i :: Alone(states[k], steps[k])
    ensures NothingNew(states[i]) && Undisturbed(states, steps, StartOf(steps, i), i)
  {
    assert i > 0;
    assert TakenAt(states, steps, i - 1);
    if !steps[i - 1].Start? {
      AloneMeansUndisturbed(states, steps, i - 1);
    }
  }

  /** Within a run the number of workers stays, and no more URLs than that are in hand. */
  lemma {:induction false} WorkersOfRun(states: seq<State>, steps: seq<Step>, i: nat, k: nat)
    requires Run(states, steps) && i <= |steps| && states[i].job.Some? && StartOf(steps, i) <= k <= i
    ensures states[k].job.Some? && states[k].job.value.workers == states[i].job.value.workers
    ensures |states[k].job.value.working| <= states[k].job.value.workers
    decreases i
  {
    assert i > 0;
    assert TakenAt(states, steps, i - 1);
    if !steps[i - 1].Start? {
      WorkersOfRun(states, steps, i - 1, if k == i then k - 1 else k);
    }
  }

  lemma OneIsAlone(s: State, step: Step)
    requires Inv(s) && s.job.Some? && |s.job.value.working| <= 1
    ensures Alone(s, step)
  {
    if step.Place? && step.url in s.job.value.placing {
      SubsetCount({step.url}, s.job.value.working);
      assert s.job.value.working == {step.url};
    }
  }

  lemma {:induction false} AfterStart(states: seq<State>, steps: seq<Step>, i: nat)
    requires Run(states, steps) && i <= |steps| && states[i].job.Some?
    ensures 0 < StartOf(steps, i)
  {
    assert i > 0;
    assert TakenAt(states, steps, i - 1);
    if !steps[i - 1].Start? {
      AfterStart(states, steps, i - 1);
    }
  }

  /** A run with one worker counts its files exactly. */
  lemma OneWorkerCountsFiles(states: seq<State>, steps: seq<Step>, i: nat)
    requires Run(states, steps) && i <= |steps| && states[i].job.Some? && states[i].job.value.workers == 1
    ensures |states[i].files| == |states[StartOf(steps, i)].files| + states[i].job.value.downloaded
  {
    forall k | StartOf(steps, i) <= k < i ensures Alone(states[k], steps[k]) {
      WorkersOfRun(states, steps, i, k);
      RunInv(states, steps, k);
      OneIsAlone(states[k], steps[k]);
    }
    AloneMeansUndisturbed(states, steps, i);
    DownloadedCountsFiles(states, steps, i);
  }

  /** Every URL leads to one content, kept under its path. */
  ghost predicate Serves(content: Url -> Path, steps: seq<Step>, from: nat, i: nat)
    requires i <= |steps|
  {
    forall k | from <= k < i && steps[k].Probe? :: steps[k].path == content(steps[k].url)
  }

  ghost predicate Served(s: State, content: Url -> Path, urls: set<Url>) {
    s.job.Some? && s.job.value.todo + s.job.value.working <= urls
    && forall url | url in s.job.value.placing :: url in urls && s.job.value.placing[url].path == content(url)
  }

  lemma {:induction false} ServedThroughout(
      states: seq<State>, steps: seq<Step>, from: nat, i: nat, content: Url -> Path)
    requires Run(states, steps) && 0 < from <= i <= |steps|
    requires steps[from - 1].Start? && forall k | from <= k < i :: !steps[k].Start?
    requires states[i].job.Some? && Serves(content, steps, from, i)
    ensures Served(states[i], content, steps[from - 1].urls)
    decreases i
  {
    var s, step := states[i - 1], steps[i - 1];
    assert TakenAt(states, steps, i - 1);
    if i == from {
    } else {
      assert s.job.Some?;
      ServedThroughout(states, steps, from, i - 1, content);
    }
  }

  /** So does a run whose URLs all have different contents. */
  lemma DistinctContentsCountFiles(states: seq<State>, steps: seq<Step>, i: nat, content: Url -> Path)
    requires Run(states, steps) && i <= |steps| && states[i].job.Some?
    requires Serves(content, steps, StartOf(steps, i), i)
    requires var from := StartOf(steps, i);
             0 < from ==> forall u, v | u in steps[from - 1].urls && v in steps[from - 1].urls && u != v ::
                            content(u) != content(v)
    ensures |states[i].files| == |states[StartOf(steps, i)].files| + states[i].job.value.downloaded
  {
    var from := StartOf(steps, i);
    AfterStart(states, steps, i);
    forall k | from <= k < i ensures Alone(states[k], steps[k]) {
      WorkersOfRun(states, steps, i, k);
      ServedThroughout(states, steps, from, k, content);
    }
    AloneMeansUndisturbed(states, steps, i);
    DownloadedCountsFiles(states, steps, i);
  }

  // --------------------------------------------------------- witness runs

  ghost predicate LeadsTo(s: State, t: State) {
    exists states, steps :: Continues(s, states, steps) && states[|steps|] == t
  }

  ghost predicate Reachable(s: State) {
    LeadsTo(EMPTY, s)
  }

  lemma Nowhere(s: State)
    ensures LeadsTo(s, s)
  {
    assert Continues(s, [s], []);
  }

  lemma Onward(s: State, t: State, step: Step) returns (t': State)
    requires LeadsTo(s, t) && Enabled(t, step)
    ensures LeadsTo(s, t') && t' == Apply(t, step)
  {
    t' := Apply(t, step);
    var states, steps :| Continues(s, states, steps) && states[|steps|] == t;
    var longer, more := states + [t'], steps + [step];
    forall i {:trigger TakenAt(longer, more, i)} | 0 <= i < |more| ensures TakenAt(longer, more, i) {
      assert i < |steps| ==> TakenAt(states, steps, i);
    }
    assert Continues(s, longer, more);
  }

  const P := Path("h", ".jpg")

  /** Two workers hold the same content under two URLs, and neither has found it on disk. */
  const TWINS := State(map[], [], Clean, Some(
    Job(true, 2, {}, 2, {}, {"a", "b"}, map["a" := Placing(P, false), "b" := Placing(P, false)], {}, [], 0, 0, 0)))

  /** Both have renamed. */
  const TWICE := State(map[P := "h"], [], Clean, Some(
    Job(true, 2, {}, 2, {}, {}, map[], {Stored("a", P), Stored("b", P)}, [], 2, 0, 0)))

  lemma ReachTwins()
    ensures Reachable(TWINS)
  {
    Nowhere(EMPTY);
    var s := Onward(EMPTY, EMPTY, Start({"a", "b"}, true, 2));
    s := Onward(EMPTY, s, Dispatch("a"));
    assert s.job.value.working == {"a"} && s.job.value.todo == {"b"};
    s := Onward(EMPTY, s, Dispatch("b"));
    assert s.job.value.working == {"a", "b"} && s.job.value.todo == {} && |{"a", "b"}| == 2;
    s := Onward(EMPTY, s, Probe("a", P));
    s := Onward(EMPTY, s, Probe("b", P));
    assert s.job.value.placing == map["a" := Placing(P, false), "b" := Placing(P, false)] && s.job.value.seen == {};
  }

  lemma ReachTwice()
    ensures Reachable(TWICE)
  {
    ReachTwins();
    var s := Onward(EMPTY, TWINS, Place("a"));
    assert s.job.value.placing == map["b" := Placing(P, false)] && s.job.value.working == {"b"};
    assert Collides(s, Place("b"));
    s := Onward(EMPTY, s, Place("b"));
    assert s.job.value.placing == map[] && s.job.value.working == {};
    assert s.job.value.pending == {Stored("a", P), Stored("b", P)} && s.files == map[P := "h"];
  }

  /** Two URLs with one content, two workers: both look, both rename, one file is
      added and two are counted. */
  lemma TwinsCountTwice() returns (s: State)
    ensures Reachable(s) && Enabled(s, End)
    ensures s.job.value.downloaded == 2 && |s.files| == 1
  {
    ReachTwice();
    s := Onward(EMPTY, TWICE, Encode(Stored("a", P)));
    s := Onward(EMPTY, s, Encode(Stored("b", P)));
    s := Onward(EMPTY, s, Persist);
    s := Onward(EMPTY, s, Persist);
  }

  // --------------------------------- which starts make the counter exact

  /** The step belongs to the run that is under way, and every URL still leads to
      the same content. */
  ghost predicate Fits(step: Step, content: Url -> Path) {
    !step.Start? && (step.Probe? ==> step.path == content(step.url))
  }

  /** A continuation of s within its run. */
  ghost predicate OneRun(s: State, states: seq<State>, steps: seq<Step>, content: Url -> Path) {
    && Continues(s, states, steps)
    && states[|steps|].job.Some?
    && forall i | 0 <= i < |steps| :: Fits(steps[i], content)
  }

  predicate Counted(s: State, t: State) {
    t.job.Some? && |t.files| == |s.files| + t.job.value.downloaded
  }

  /** Whatever happens, a run started here has at every moment counted the files it
      has added. */
  ghost predicate CountsExactly(s: State, start: Step, content: Url -> Path)
    requires start.Start? && Enabled(s, start)
  {
    forall states: seq<State>, steps: seq<Step> | OneRun(Apply(s, start), states, steps, content) ::
      Counted(s, states[|steps|])
  }

  /** The run will ask for the URL. */
  predicate Wanted(s: State, start: Step, url: Url)
    requires start.Start?
  {
    url in start.urls && !(start.resume && url in Loaded(s.lines, s.tail))
  }

  predicate Twins(s: State, start: Step, content: Url -> Path, u: Url, v: Url)
    requires start.Start?
  {
    u != v && Wanted(s, start, u) && Wanted(s, start, v) && content(u) == content(v) && content(u) !in s.files
  }

  /** No two URLs that the run will ask for share a content that is not there yet. */
  ghost predicate NoTwins(s: State, start: Step, content: Url -> Path)
    requires start.Start?
  {
    forall u, v :: !Twins(s, start, content, u, v)
  }

  /** What holds within a run of these URLs. */
  ghost predicate Within(s: State, start: Step, content: Url -> Path, t: State)
    requires start.Start?
  {
    && Counted(s, t) && NothingNew(t) && s.files.Keys <= t.files.Keys
    && var j := t.job.value;
       && j.resume == start.resume && j.workers == start.workers && j.seen == Loaded(s.lines, s.tail)
       && j.todo + j.working <= start.urls && |j.working| <= j.workers && j.placing.Keys <= j.working
       && forall url | url in j.placing :: j.placing[url].path == content(url) && !SkipsSeen(j, url)
  }

  lemma OnlyOne(s: State, url: Url)
    requires s.job.Some? && |s.job.value.working| <= 1 && s.job.value.placing.Keys <= s.job.value.working
    requires url in s.job.value.placing
    ensures s.job.value.placing.Keys == {url}
  {
    SubsetCount({url}, s.job.value.working);
    assert s.job.value.working == {url};
  }

  lemma PlaceWithin(s: State, start: Step, content: Url -> Path, t: State, url: Url)
    requires start.Start? && Within(s, start, content, t) && Enabled(t, Place(url))
    requires start.workers == 1 || NoTwins(s, start, content)
    ensures Within(s, start, content, Apply(t, Place(url)))
  {
    var j, t' := t.job.value, Apply(t, Place(url));
    if start.workers == 1 {
      OnlyOne(t, url);
    } else if !j.placing[url].found {
      forall other | other in j.placing && other != url && !j.placing[other].found
        ensures j.placing[other].path !in t'.files
      {
        assert !Twins(s, start, content, url, other);
      }
    }
    SubsetCount(t'.job.value.working, j.working);
  }

  lemma DispatchWithin(s: State, start: Step, content: Url -> Path, t: State, url: Url)
    requires start.Start? && Within(s, start, content, t) && Enabled(t, Dispatch(url))
    ensures Within(s, start, content, Apply(t, Dispatch(url)))
  {
  }

  lemma ProbeWithin(s: State, start: Step, content: Url -> Path, t: State, url: Url)
    requires start.Start? && Within(s, start, content, t) && Enabled(t, Probe(url, content(url)))
    ensures Within(s, start, content, Apply(t, Probe(url, content(url))))
  {
  }

  lemma LeaveWithin(s: State, start: Step, content: Url -> Path, t: State, step: Step)
    requires start.Start? && Within(s, start, content, t) && Enabled(t, step) && (step.SkipSeen? || step.FetchFailed?)
    ensures Within(s, start, content, Apply(t, step))
  {
    SubsetCount(Apply(t, step).job.value.working, t.job.value.working);
  }

  lemma WriteWithin(s: State, start: Step, content: Url -> Path, t: State, step: Step)
    requires start.Start? && Within(s, start, content, t) && Enabled(t, step) && (step.Encode? || step.Persist?)
    ensures Within(s, start, content, Apply(t, step))
  {
  }

  lemma StepWithin(s: State, start: Step, content: Url -> Path, t: State, step: Step)
    requires start.Start? && Within(s, start, content, t) && Enabled(t, step) && Fits(step, content)
    requires start.workers == 1 || NoTwins(s, start, content)
    requires Apply(t, step).job.Some?
    ensures Within(s, start, content, Apply(t, step))
  {
    match step
    case Start(_, _, _) =>
    case Dispatch(url) => DispatchWithin(s, start, content, t, url);
    case SkipSeen(_) => LeaveWithin(s, start, content, t, step);
    case FetchFailed(_) => LeaveWithin(s, start, content, t, step);
    case Probe(url, _) => ProbeWithin(s, start, content, t, url);
    case Place(url) => PlaceWithin(s, start, content, t, url);
    case Encode(_) => WriteWithin(s, start, content, t, step);
    case Persist => WriteWithin(s, start, content, t, step);
    case End =>
    case Crash(_) =>
  }

  lemma {:induction false} RunWithin(
      s: State, start: Step, content: Url -> Path, states: seq<State>, steps: seq<Step>, i: nat)
    requires start.Start? && Enabled(s, start) && (start.workers == 1 || NoTwins(s, start, content))
    requires OneRun(Apply(s, start), states, steps, content) && i <= |steps| && states[i].job.Some?
    ensures Within(s, start, content, states[i])
  {
    if i > 0 {
      assert TakenAt(states, steps, i - 1) && Fits(steps[i - 1], content);
      RunWithin(s, start, content, states, steps, i - 1);
      StepWithin(s, start, content, states[i - 1], steps[i - 1]);
    }
  }

  ghost predicate RunsTo(s: State, t: State, content: Url -> Path) {
    exists states, steps :: OneRun(s, states, steps, content) && states[|steps|] == t
  }

  lemma OnwardInRun(s: State, t: State, step: Step, content: Url -> Path) returns (t': State)
    requires RunsTo(s, t, content) && Enabled(t, step) && Fits(step, content) && Apply(t, step).job.Some?
    ensures RunsTo(s, t', content) && t' == Apply(t, step)
  {
    t' := Apply(t, step);
    var states, steps :| OneRun(s, states, steps, content) && states[|steps|] == t;
    var longer, more := states + [t'], steps + [step];
    forall i {:trigger TakenAt(longer, more, i)} | 0 <= i < |more| ensures TakenAt(longer, more, i) {
      assert i < |steps| ==> TakenAt(states, steps, i);
    }
    assert OneRun(s, longer, more, content);
  }

  lemma BothLook(s: State, start: Step, content: Url -> Path, u: Url, v: Url) returns (t: State)
    requires start.Start? && Enabled(s, start) && start.workers > 1 && Twins(s, start, content, u, v)
    ensures RunsTo(Apply(s, start), t, content) && t.files == s.files && t.job.Some?
    ensures t.job.value.downloaded == 0 && t.job.value.working == {u, v}
    ensures t.job.value.placing == map[u := Placing(content(u), false), v := Placing(content(u), false)]
  {
    var begun := Apply(s, start);
    assert OneRun(begun, [begun], [], content);
    t := OnwardInRun(begun, begun, Dispatch(u), content);
    assert t.job.value.working == {u};
    t := OnwardInRun(begun, t, Dispatch(v), content);
    t := OnwardInRun(begun, t, Probe(u, content(u)), content);
    t := OnwardInRun(begun, t, Probe(v, content(v)), content);
  }

  lemma BothRename(s: State, start: Step, content: Url -> Path, u: Url, v: Url) returns (t: State)
    requires start.Start? && Enabled(s, start) && start.workers > 1 && Twins(s, start, content, u, v)
    ensures RunsTo(Apply(s, start), t, content) && !Counted(s, t)
  {
    var begun := Apply(s, start);
    t := BothLook(s, start, content, u, v);
    t := OnwardInRun(begun, t, Place(u), content);
    t := OnwardInRun(begun, t, Place(v), content);
    assert t.files == s.files[content(u) := content(u).hash];
  }

  /** The exact rule, to be checked at the start: `downloaded` is the number of files
      added, at every moment of every run from here, if and only if there is one
      worker or no two URLs to be asked for share a content that is not there yet. */
  lemma CountsExactlyWhen(s: State, start: Step, content: Url -> Path)
    requires start.Start? && Enabled(s, start)
    ensures CountsExactly(s, start, content) <==> start.workers == 1 || NoTwins(s, start, content)
  {
    if start.workers == 1 || NoTwins(s, start, content) {
      forall states: seq<State>, steps: seq<Step> | OneRun(Apply(s, start), states, steps, content)
        ensures Counted(s, states[|steps|])
      {
        RunWithin(s, start, content, states, steps, |steps|);
      }
    } else {
      var u, v :| Twins(s, start, content, u, v);
      var t := BothRename(s, start, content, u, v);
    }
  }

  // --------------------------------------------------- the missing newline

  predicate ResumedFetch(s: State, url: Url) {
    s.job.Some? && s.job.value.resume && Enabled(s, FetchFailed(url))
  }

  /** Some continuation of s makes a resumed run fetch the URL. */
  ghost predicate FetchedLater(s: State, url: Url) {
    exists t :: LeadsTo(s, t) && ResumedFetch(t, url)
  }

  lemma {:induction false} ListedStays(s: State, states: seq<State>, steps: seq<Step>, i: nat)
    requires Inv(s) && Continues(s, states, steps) && i <= |steps|
    ensures Inv(states[i]) && Listed(s.lines) <= Listed(states[i].lines)
  {
    if i > 0 {
      ListedStays(s, states, steps, i - 1);
      assert TakenAt(states, steps, i - 1);
      InvKept(states[i - 1], steps[i - 1]);
    }
  }

  lemma FailOnce(s: State, url: Url) returns (t: State)
    ensures LeadsTo(s, t) && t.lines == s.lines && t.tail == s.tail && t.job.Some?
    ensures t.job.value.pending == {Failed(url)} && t.job.value.buffer == []
  {
    Nowhere(s);
    t := Onward(s, s, Crash(s.tail));
    t := Onward(s, t, Start({url}, false, 1));
    t := Onward(s, t, Dispatch(url));
    t := Onward(s, t, FetchFailed(url));
  }

  /** After one more record, whatever the manifest ended in, it ends in a newline. */
  lemma EndTheTail(s: State, url: Url) returns (t: State)
    ensures LeadsTo(s, t) && t.job.None? && t.tail.Clean? && Listed(t.lines) == Listed(s.lines)
  {
    t := FailOnce(s, url);
    t := Onward(s, t, Encode(Failed(url)));
    t := Onward(s, t, Persist);
    t := Onward(s, t, Crash(Clean));
  }

  lemma UnlistedIsFetched(s: State, url: Url)
    requires url !in Listed(s.lines)
    ensures FetchedLater(s, url)
  {
    var t := EndTheTail(s, url);
    t := Onward(s, t, Start({url}, true, 1));
    t := Onward(s, t, Dispatch(url));
  }

  /** From any reachable state, no continuation lets a resumed run fetch a URL if
      and only if its success stands in a line that has its newline. */
  lemma NeverAgainExactly(s: State, url: Url)
    requires Reachable(s)
    ensures !FetchedLater(s, url) <==> url in Listed(s.lines)
  {
    var run, taken :| Continues(EMPTY, run, taken) && run[|taken|] == s;
    RunInv(run, taken, |taken|);
    if url in Listed(s.lines) {
      forall t | LeadsTo(s, t) ensures !ResumedFetch(t, url) {
        var states, steps :| Continues(s, states, steps) && states[|steps|] == t;
        ListedStays(s, states, steps, |steps|);
      }
    } else {
      UnlistedIsFetched(s, url);
    }
  }

  const A := Stored("a", P)

  /** The manifest ends in a whole record without its newline. */
  const UNENDED := State(map[P := "h"], [], Whole(A), None)

  lemma ReachStored() returns (s: State)
    ensures Reachable(s) && s.files == map[P := "h"] && s.lines == [] && s.tail.Clean?
    ensures s.job.Some? && s.job.value.pending == {A} && s.job.value.buffer == []
  {
    Nowhere(EMPTY);
    s := Onward(EMPTY, EMPTY, Start({"a"}, true, 1));
    s := Onward(EMPTY, s, Dispatch("a"));
    s := Onward(EMPTY, s, Probe("a", P));
    s := Onward(EMPTY, s, Place("a"));
  }

  lemma ReachUnended()
    ensures Reachable(UNENDED)
  {
    var s := ReachStored();
    s := Onward(EMPTY, s, Encode(A));
    s := Onward(EMPTY, s, Crash(Whole(A)));
  }

  /** The newline matters: a record cut off before it is honoured by the next run,
      and yet a later resumed run may fetch its URL again. */
  lemma UnendedRecordIsForgotten()
    ensures Reachable(UNENDED) && "a" in Loaded(UNENDED.lines, UNENDED.tail) && FetchedLater(UNENDED, "a")
  {
    ReachUnended();
    NeverAgainExactly(UNENDED, "a");
  }
}
