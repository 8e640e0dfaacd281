/**
  The safetensors build as a step system: a directory that survives, and a process that
  prepares files, lets workers write ticks in any order, records finished segments, and
  publishes by rename. The process may stop between any two steps.
 */
module EngramBuild {
  import opened Results
  import opened Bytes
  import opened EngramPlan
  import Text

  // ----- the directory -----

  /** `.engram-progress.json`: absent, unreadable, or a list of segment indices. */
  datatype Progress = Missing | Garbled | Recorded(done: set<int>)

  datatype Disk = Disk(finals: map<int, seq<byte>>, partials: map<int, seq<byte>>, progress: Progress)

  function LoadProgress(p: Progress): set<int> {
    match p
    case Recorded(done) => done
    case _ => {}
  }

  function Lookup(m: map<int, seq<byte>>, layer: int): Option<seq<byte>> {
    if layer in m then Some(m[layer]) else None
  }

  function Contents(m: map<int, seq<byte>>, layer: int): seq<byte> {
    if layer in m then m[layer] else []
  }

  // ----- the offline check -----

  /** The header of a safetensors file, if it can be read at all. */
  function ReadHeader(json: Json, file: seq<byte>): Option<Doc> {
    if |file| < 8 then None
    else
      var hlen := UnpackLE(file[..8]);
      json.decode(if 8 + hlen <= |file| then file[8..8 + hlen] else file[8..])
  }

  predicate Provides(json: Json, file: seq<byte>, layer: int) {
    var doc := ReadHeader(json, file);
    doc.Some? && EntryOk(doc.value, layer)
  }

  predicate BigEnough(json: Json, file: seq<byte>, layer: int)
    requires Provides(json, file, layer)
  {
    NeededSize(8 + UnpackLE(file[..8]), ReadHeader(json, file).value, layer) <= |file|
  }

  function FileName(layer: int): string {
    "engram-l" + (if layer < 0 then "-" + Text.Decimal(-layer) else Text.Decimal(layer)) + ".safetensors"
  }

  /** The file of `l` is looked at before the file of `m`: files are visited in the order of their names. */
  predicate Before(l: int, m: int) {
    Text.StrLe(FileName(l), FileName(m)) && FileName(l) != FileName(m)
  }

  predicate Whole(json: Json, file: seq<byte>, layer: int) {
    Provides(json, file, layer) && BigEnough(json, file, layer)
  }

  predicate TruncatedAfterWhole(json: Json, d: Disk, layer: int, l: int)
    requires l in d.finals
  {
    Provides(json, d.finals[l], layer) && !BigEnough(json, d.finals[l], layer) ==>
      exists m :: m in d.finals && Whole(json, d.finals[m], layer) && Before(m, l)
  }

  /**
    `check_output` for one layer: every file readable, some file holds the layer whole, no
    truncated one is met before it, and no stray partial.
   */
  predicate CheckOutput(json: Json, d: Disk, layer: int) {
    && (forall l :: l in d.finals ==> ReadHeader(json, d.finals[l]).Some?)
    && (exists l :: l in d.finals && Whole(json, d.finals[l], layer))
    && (forall l :: l in d.finals ==> TruncatedAfterWhole(json, d, layer, l))
    && d.partials == map[]
  }

  // ----- the process -----

  /** Everything a build is given: JSON, the checkpoint, the tasks of its layers, the segment size. */
  datatype Build = Build(json: Json, source: map<string, seq<byte>>, tasks: seq<Task>, segment: nat)

  /** One process's work: its tasks, its segment list, and (for the proofs) the directory it found. */
  datatype Run = Run(tasks: seq<Task>, segs: seq<Segment>, resume: bool, start: Disk)

  datatype Stage = Discard | Create | Size | Header

  /** A worker that fails leaves behind the `pos` bytes it had written. */
  datatype Worker = Queued | Copying(pos: nat) | Copied | Failed(pos: nat)

  datatype Proc =
    | Down
    | Preparing(run: Run, k: nat, stage: Stage)
    | Fetching(run: Run, done: set<int>, workers: map<int, Worker>)
    | Publishing(run: Run, renamed: nat)

  datatype State = State(disk: Disk, proc: Proc)

  datatype Action =
    | Start(resume: bool)
    | Prepare
    | Load
    | Begin(i: int)
    | Tick(i: int, n: nat)
    | Complete(i: int)
    | Fail(i: int)
    | Record(i: int)
    | Settle
    | Rename
    | Finish
    | Crash

  const TICK: nat := 0x40_0000

  ghost predicate WfBuild(b: Build) {
    && b.segment > 0
    && WfTasks(b.tasks)
    && forall t :: t in b.tasks ==> Announces(b.json, t)
  }

  /** The layers a resumed build still has to produce. */
  function Unfinished(json: Json, d: Disk, tasks: seq<Task>): seq<Task> {
    if tasks == [] then []
    else
      var rest := Unfinished(json, d, tasks[1..]);
      if CheckOutput(json, d, tasks[0].layer) then rest else [tasks[0]] + rest
  }

  function Kept(b: Build, d: Disk, resume: bool): seq<Task> {
    if resume then Unfinished(b.json, d, b.tasks) else b.tasks
  }

  function FirstStage(resume: bool): Stage {
    if resume then Create else Discard
  }

  predicate NeedsHeader(file: seq<byte>) {
    |file| < 8 || UnpackLE(file[..8]) == 0
  }

  function WithHeader(file: seq<byte>, header: seq<byte>): seq<byte> {
    if NeedsHeader(file) then Pwrite(file, 0, header) else file
  }

  predicate Enabled(b: Build, s: State, a: Action) {
    match a
    case Start(_) => s.proc.Down?
    case Prepare => s.proc.Preparing? && s.proc.k < |s.proc.run.tasks|
    case Load => s.proc.Preparing? && s.proc.k == |s.proc.run.tasks|
    case Begin(i) => Active(s, i) && s.proc.workers[i].Queued?
    case Tick(i, n) =>
      && Active(s, i) && s.proc.workers[i].Copying?
      && var g, pos := s.proc.run.segs[i], s.proc.workers[i].pos;
      && 0 < n <= TICK && pos + n <= g.len && g.srcOff + pos + n <= |Shard(b.source, g.shard)|
    case Complete(i) =>
      && Active(s, i) && s.proc.workers[i].Copying?
      && s.proc.workers[i].pos == s.proc.run.segs[i].len
    case Fail(i) => Active(s, i) && (s.proc.workers[i].Queued? || s.proc.workers[i].Copying?)
    case Record(i) => Active(s, i) && s.proc.workers[i].Copied?
    case Settle => s.proc.Fetching? && forall i :: i in s.proc.workers ==> s.proc.workers[i].Failed?
    case Rename => s.proc.Publishing? && s.proc.renamed < |s.proc.run.tasks|
    case Finish => s.proc.Publishing? && s.proc.renamed == |s.proc.run.tasks|
    case Crash => !s.proc.Down?
  }

  predicate Active(s: State, i: int) {
    s.proc.Fetching? && i in s.proc.workers && 0 <= i < |s.proc.run.segs|
  }

  function Apply(b: Build, s: State, a: Action): State
    requires b.segment > 0 && Enabled(b, s, a)
  {
    match a
    case Start(resume) => ApplyStart(b, s, resume)
    case Prepare => ApplyPrepare(s)
    case Load => ApplyLoad(s)
    case Begin(i) => WithWorker(s, i, Copying(0))
    case Tick(i, n) => ApplyTick(b, s, i, n)
    case Complete(i) => WithWorker(s, i, Copied)
    case Fail(i) => WithWorker(s, i, Failed(Written(s.proc.workers[i], 0)))
    case Record(i) => ApplyRecord(s, i)
    case Settle => ApplySettle(s)
    case Rename => ApplyRename(s)
    case Finish => State(s.disk.(progress := Missing), Down)
    case Crash => s.(proc := Down)
  }

  /** Skip the finished layers, plan the others; with nothing to do the process ends at once. */
  function ApplyStart(b: Build, s: State, resume: bool): State
    requires b.segment > 0
  {
    var tasks := Kept(b, s.disk, resume);
    if tasks == [] then s
    else s.(proc := Preparing(Run(tasks, Plan(tasks, b.segment), resume, s.disk), 0, FirstStage(resume)))
  }

  /** Read the progress file and queue every segment it does not list. */
  function ApplyLoad(s: State): State
    requires s.proc.Preparing?
  {
    var run := s.proc.run;
    var done := if run.resume then LoadProgress(s.disk.progress) else {};
    s.(proc := Fetching(run, done, map i | 0 <= i < |run.segs| && i !in done :: Queued))
  }

  /** The progress file is replaced, atomically, by one that lists `i` as well. */
  function ApplyRecord(s: State, i: int): State
    requires s.proc.Fetching?
  {
    var done := s.proc.done + {i};
    State(s.disk.(progress := Recorded(done)), s.proc.(done := done, workers := s.proc.workers - {i}))
  }

  /** All futures are in: publish, or give up because one failed or a size is wrong. */
  function ApplySettle(s: State): State
    requires s.proc.Fetching?
  {
    s.(proc := if s.proc.workers == map[] && SizesRight(s) then Publishing(s.proc.run, 0) else Down)
  }

  function Renamed(d: Disk, layer: int): Disk {
    d.(finals := d.finals[layer := Contents(d.partials, layer)], partials := d.partials - {layer})
  }

  function ApplyRename(s: State): State
    requires s.proc.Publishing? && s.proc.renamed < |s.proc.run.tasks|
  {
    State(Renamed(s.disk, s.proc.run.tasks[s.proc.renamed].layer), s.proc.(renamed := s.proc.renamed + 1))
  }

  /** One system call of the preparation loop. */
  function ApplyPrepare(s: State): State
    requires s.proc.Preparing? && s.proc.k < |s.proc.run.tasks|
  {
    var p, d := s.proc, s.disk;
    var t := p.run.tasks[p.k];
    match p.stage
    case Discard => State(d.(partials := d.partials - {t.layer}), p.(stage := Create))
    case Create => State(d.(partials := d.partials[t.layer := Contents(d.partials, t.layer)]), p.(stage := Size))
    case Size =>
      State(d.(partials := d.partials[t.layer := Ftruncate(Contents(d.partials, t.layer), t.total)]),
            p.(stage := Header))
    case Header =>
      State(d.(partials := d.partials[t.layer := WithHeader(Contents(d.partials, t.layer), t.header)]),
            p.(k := p.k + 1, stage := FirstStage(p.run.resume)))
  }

  function WithWorker(s: State, i: int, w: Worker): State
    requires s.proc.Fetching?
  {
    s.(proc := s.proc.(workers := s.proc.workers[i := w]))
  }

  /** The file of segment `g` after `n` more of its bytes, from `pos`, are written in place. */
  function Ticked(b: Build, d: Disk, g: Segment, pos: nat, n: nat): Disk {
    var piece := Slice(Shard(b.source, g.shard), g.srcOff + pos, n);
    d.(partials := d.partials[g.layer := Pwrite(Contents(d.partials, g.layer), g.dstOff + pos, piece)])
  }

  function ApplyTick(b: Build, s: State, i: int, n: nat): State
    requires Active(s, i) && s.proc.workers[i].Copying?
  {
    var pos := s.proc.workers[i].pos;
    WithWorker(s.(disk := Ticked(b, s.disk, s.proc.run.segs[i], pos, n)), i, Copying(pos + n))
  }

  predicate SizesRight(s: State)
    requires s.proc.Fetching?
  {
    forall t :: t in s.proc.run.tasks ==> |Contents(s.disk.partials, t.layer)| == t.total
  }

  // ----- what a process does to the directory it found -----

  /** A partial as the preparation loop leaves it, from what was there before. */
  function Prepared(t: Task, was: Option<seq<byte>>): (file: seq<byte>) {
    WithHeader(Ftruncate(if was.Some? then was.value else [], t.total), t.header)
  }

  /** What this run starts from in the file of task `t`. */
  function Base(run: Run, t: Task): seq<byte> {
    Prepared(t, if run.resume then Lookup(run.start.partials, t.layer) else None)
  }

  /** The indices this run takes on trust from the progress file. */
  function Trusted(run: Run): set<int> {
    if run.resume then LoadProgress(run.start.progress) else {}
  }

  ghost predicate SameRange(a: seq<byte>, b: seq<byte>, lo: nat, n: nat) {
    && lo + n <= |a| && lo + n <= |b|
    && forall x :: lo <= x < lo + n ==> a[x] == b[x]
  }

  /** How many bytes of its segment, of length `len`, a worker has written. */
  function Written(w: Worker, len: nat): nat {
    match w
    case Queued => 0
    case Copying(pos) => pos
    case Copied => len
    case Failed(pos) => pos
  }

  /** How much of segment `i` this run has written. */
  function Arrived(done: set<int>, workers: map<int, Worker>, i: int, len: nat): nat {
    if i in done then len
    else if i !in workers then 0
    else Written(workers[i], len)
  }

  /**
    Segment `g`, index `i`: as found when trusted; otherwise source bytes as far as they arrived,
    and what was found from there on.
   */
  ghost predicate SegmentState(source: map<string, seq<byte>>, trusted: set<int>, base: seq<byte>, file: seq<byte>,
                               g: Segment, i: int, arrived: nat)
  {
    if i in trusted then SameRange(file, base, g.dstOff, g.len)
    else
      && arrived <= g.len
      && RangeIs(file, g.dstOff, source, g.shard, g.srcOff, arrived)
      && SameRange(file, base, g.dstOff + arrived, g.len - arrived)
  }

  ghost predicate SegmentsState(source: map<string, seq<byte>>, segs: seq<Segment>, trusted: set<int>, base: seq<byte>,
                                done: set<int>, workers: map<int, Worker>, layer: int, file: seq<byte>)
  {
    forall i :: 0 <= i < |segs| && segs[i].layer == layer ==>
      SegmentState(source, trusted, base, file, segs[i], i, Arrived(done, workers, i, segs[i].len))
  }

  ghost predicate Framed(t: Task, base: seq<byte>, file: seq<byte>) {
    |file| == t.total && SameRange(file, base, 0, |t.header|)
  }

  /** The finished file of task `t`: what the run found where it trusted, source bytes elsewhere. */
  ghost predicate Assembled(source: map<string, seq<byte>>, segs: seq<Segment>, trusted: set<int>, base: seq<byte>,
                            t: Task, file: seq<byte>)
  {
    && Framed(t, base, file)
    && forall i :: 0 <= i < |segs| && segs[i].layer == t.layer ==>
         SegmentState(source, trusted, base, file, segs[i], i, segs[i].len)
  }

  /** The bytes a run publishes for task `t`. */
  ghost predicate Published(b: Build, run: Run, t: Task, file: seq<byte>) {
    Assembled(b.source, run.segs, Trusted(run), Base(run, t), t, file)
  }

  ghost predicate IsTaskLayer(tasks: seq<Task>, layer: int) {
    exists t :: t in tasks && t.layer == layer
  }

  /** The partial of the task being prepared, before each system call. */
  function PartialAt(run: Run, t: Task, stage: Stage): Option<seq<byte>> {
    var found := Lookup(run.start.partials, t.layer);
    var was := if run.resume then found else None;
    match stage
    case Discard => found
    case Create => was
    case Size => Some(if was.Some? then was.value else [])
    case Header => Some(Ftruncate(if was.Some? then was.value else [], t.total))
  }

  ghost predicate PreparingState(d: Disk, run: Run, k: nat, stage: Stage) {
    && k <= |run.tasks|
    && (stage == Discard ==> !run.resume)
    && d.finals == run.start.finals && d.progress == run.start.progress
    && (forall m :: 0 <= m < |run.tasks| ==>
          Lookup(d.partials, run.tasks[m].layer) ==
            if m < k then Some(Base(run, run.tasks[m]))
            else if m == k then PartialAt(run, run.tasks[m], stage)
            else Lookup(run.start.partials, run.tasks[m].layer))
    && (forall l :: !IsTaskLayer(run.tasks, l) ==> Lookup(d.partials, l) == Lookup(run.start.partials, l))
  }

  /** What holds of one task's partial while segments arrive. */
  ghost predicate TaskState(b: Build, d: Disk, segs: seq<Segment>, trusted: set<int>, base: seq<byte>,
                            done: set<int>, workers: map<int, Worker>, t: Task)
  {
    && t.layer in d.partials
    && Framed(t, base, d.partials[t.layer])
    && SegmentsState(b.source, segs, trusted, base, done, workers, t.layer, d.partials[t.layer])
  }

  ghost predicate FetchingFiles(b: Build, d: Disk, run: Run, done: set<int>, workers: map<int, Worker>) {
    forall t :: t in run.tasks ==> TaskState(b, d, run.segs, Trusted(run), Base(run, t), done, workers, t)
  }

  ghost predicate WorkersOk(segs: seq<Segment>, done: set<int>, workers: map<int, Worker>) {
    && (forall i :: i in workers <==> 0 <= i < |segs| && i !in done)
    && (forall i :: 0 <= i < |segs| && i in workers ==> Written(workers[i], segs[i].len) <= segs[i].len)
  }

  ghost predicate FetchingState(b: Build, d: Disk, run: Run, done: set<int>, workers: map<int, Worker>) {
    && d.finals == run.start.finals
    && Trusted(run) <= done
    && (if done == Trusted(run) then d.progress == run.start.progress else d.progress == Recorded(done))
    && WorkersOk(run.segs, done, workers)
    && FetchingFiles(b, d, run, done, workers)
    && (forall l :: !IsTaskLayer(run.tasks, l) ==> Lookup(d.partials, l) == Lookup(run.start.partials, l))
  }

  /** Halfway through publishing: the first `renamed` files are final, the others still partial. */
  ghost predicate PublishedFiles(b: Build, d: Disk, run: Run, renamed: nat)
    requires renamed <= |run.tasks|
  {
    && (forall m :: 0 <= m < renamed ==>
          && run.tasks[m].layer in d.finals && run.tasks[m].layer !in d.partials
          && Published(b, run, run.tasks[m], d.finals[run.tasks[m].layer]))
    && (forall m :: renamed <= m < |run.tasks| ==>
          && run.tasks[m].layer in d.partials
          && Published(b, run, run.tasks[m], d.partials[run.tasks[m].layer]))
  }

  ghost predicate PublishingState(b: Build, d: Disk, run: Run, renamed: nat) {
    && renamed <= |run.tasks|
    && (forall i :: 0 <= i < |run.segs| ==> i in LoadProgress(d.progress))
    && PublishedFiles(b, d, run, renamed)
    && (forall l :: !IsTaskLayer(run.tasks[..renamed], l) ==> Lookup(d.finals, l) == Lookup(run.start.finals, l))
    && (forall l :: !IsTaskLayer(run.tasks, l) ==> Lookup(d.partials, l) == Lookup(run.start.partials, l))
  }

  /** The tasks and segments a process works on are those planned from the directory it found. */
  ghost predicate RunOk(b: Build, run: Run)
    requires b.segment > 0
  {
    && run.tasks == Kept(b, run.start, run.resume) && run.tasks != []
    && run.segs == Plan(run.tasks, b.segment)
  }

  ghost predicate Facts(b: Build, s: State) {
    match s.proc
    case Down => true
    case Preparing(run, k, stage) => PreparingState(s.disk, run, k, stage)
    case Fetching(run, done, workers) => FetchingState(b, s.disk, run, done, workers)
    case Publishing(run, renamed) => PublishingState(b, s.disk, run, renamed)
  }

  /** What every step keeps, whatever the directory held when the process started. */
  ghost predicate Inv(b: Build, s: State)
    requires b.segment > 0
  {
    && (!s.proc.Down? ==> RunOk(b, s.proc.run))
    && Facts(b, s)
  }

  lemma {:induction false} KeptTasks(json: Json, d: Disk, tasks: seq<Task>)
    ensures forall t :: t in Unfinished(json, d, tasks) <==> t in tasks && !CheckOutput(json, d, t.layer)
    ensures DistinctLayers(tasks) ==> DistinctLayers(Unfinished(json, d, tasks))
  {
    if tasks != [] {
      var rest := Unfinished(json, d, tasks[1..]);
      KeptTasks(json, d, tasks[1..]);
      forall t
        ensures t in Unfinished(json, d, tasks) <==> t in tasks && !CheckOutput(json, d, t.layer)
      {
        assert t in tasks <==> t == tasks[0] || t in tasks[1..];
      }
      if DistinctLayers(tasks) {
        assert DistinctLayers(tasks[1..]);
        forall j | 0 <= j < |rest|
          ensures tasks[0].layer != rest[j].layer
        {
          assert rest[j] in tasks[1..];
        }
      }
    }
  }

  /** The kept tasks are tasks of the build, so their plan tiles their files. */
  lemma KeptWf(b: Build, d: Disk, resume: bool)
    requires WfBuild(b)
    ensures WfTasks(Kept(b, d, resume))
    ensures forall t :: t in Kept(b, d, resume) ==> t in b.tasks
  {
    KeptTasks(b.json, d, b.tasks);
  }
}
