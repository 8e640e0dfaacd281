/**
  Every step of the build keeps the invariant, from any directory at all: preparing a file, one
  tick of a worker, recording a finished segment, settling, publishing, and stopping anywhere.
 */
module EngramSteps {
  import opened Results
  import opened Bytes
  import opened EngramPlan
  import opened EngramBuild

  // ----- preparing a file -----

  lemma HeaderFits(t: Task)
    requires WfTask(t)
    ensures 8 < |t.header| <= t.total
  {
    FileTiles(t.layer, t.regions, 1, |t.header|, t.total);
    TilesRise(FileSegments(t.layer, t.regions, 1), t.layer, 1, |t.header|, t.total);
  }

  /** Preparing a file again, from any point of its own preparation, changes nothing. */
  lemma PreparedStable(t: Task, was: Option<seq<byte>>)
    requires WfTask(t)
    ensures |Prepared(t, was)| == t.total && !NeedsHeader(Prepared(t, was))
    ensures Prepared(t, Some(Prepared(t, was))) == Prepared(t, was)
    ensures Prepared(t, Some(Ftruncate(if was.Some? then was.value else [], t.total))) == Prepared(t, was)
    ensures Prepared(t, Some([])) == Prepared(t, None)
  {
    HeaderFits(t);
    var cut := Ftruncate(if was.Some? then was.value else [], t.total);
    var ready := WithHeader(cut, t.header);
    assert Ftruncate(cut, t.total) == cut;
    if NeedsHeader(cut) {
      assert ready[..8] == t.header[..8];
    }
    assert Ftruncate(ready, t.total) == ready;
  }

  lemma StepPrepare(s: State)
    requires s.proc.Preparing? && s.proc.k < |s.proc.run.tasks| && DistinctLayers(s.proc.run.tasks)
    requires PreparingState(s.disk, s.proc.run, s.proc.k, s.proc.stage)
    ensures var s' := ApplyPrepare(s);
      PreparingState(s'.disk, s'.proc.run, s'.proc.k, s'.proc.stage)
  {
    var run, k, stage := s.proc.run, s.proc.k, s.proc.stage;
    var t := run.tasks[k];
    var d := ApplyPrepare(s).disk;
    assert Lookup(s.disk.partials, t.layer) == PartialAt(run, t, stage);
    forall m | 0 <= m < |run.tasks| && m != k
      ensures Lookup(d.partials, run.tasks[m].layer) == Lookup(s.disk.partials, run.tasks[m].layer)
    {
      assert run.tasks[m].layer != t.layer;
    }
    forall l | !IsTaskLayer(run.tasks, l)
      ensures Lookup(d.partials, l) == Lookup(run.start.partials, l)
    {
      assert t in run.tasks && l != t.layer;
    }
  }

  // ----- fetching -----

  /** Segments of one file never share a byte. */
  ghost predicate Apart(segs: seq<Segment>) {
    forall i, j :: 0 <= i < |segs| && 0 <= j < |segs| && i != j && segs[i].layer == segs[j].layer ==>
      segs[i].dstOff + segs[i].len <= segs[j].dstOff || segs[j].dstOff + segs[j].len <= segs[i].dstOff
  }

  /** Segments of `t`'s file lie in its body. */
  ghost predicate Inside(segs: seq<Segment>, t: Task) {
    forall i :: 0 <= i < |segs| && segs[i].layer == t.layer ==>
      0 < segs[i].len && |t.header| <= segs[i].dstOff && segs[i].dstOff + segs[i].len <= t.total
  }

  lemma PlanShape(tasks: seq<Task>, segment: nat)
    requires segment > 0 && WfTasks(tasks)
    ensures Apart(Plan(tasks, segment))
    ensures forall t :: t in tasks ==> Inside(Plan(tasks, segment), t)
    ensures forall i :: 0 <= i < |Plan(tasks, segment)| ==> IsTaskLayer(tasks, Plan(tasks, segment)[i].layer)
  {
    var segs := Plan(tasks, segment);
    forall i, j | 0 <= i < |segs| && 0 <= j < |segs| && i != j && segs[i].layer == segs[j].layer
      ensures segs[i].dstOff + segs[i].len <= segs[j].dstOff || segs[j].dstOff + segs[j].len <= segs[i].dstOff
    {
      if i < j { PlanApart(tasks, segment, i, j); } else { PlanApart(tasks, segment, j, i); }
    }
    forall i | 0 <= i < |segs|
      ensures IsTaskLayer(tasks, segs[i].layer)
      ensures forall t :: t in tasks && segs[i].layer == t.layer ==>
        0 < segs[i].len && |t.header| <= segs[i].dstOff && segs[i].dstOff + segs[i].len <= t.total
    {
      var u := PlanBounds(tasks, segment, i);
      assert forall t :: t in tasks && t.layer == u.layer ==> t == u;
    }
  }

  /** What the plan guarantees of a run's tasks and segments. */
  ghost predicate Shaped(run: Run) {
    && WfTasks(run.tasks)
    && Apart(run.segs)
    && (forall t :: t in run.tasks ==> Inside(run.segs, t))
    && (forall i :: 0 <= i < |run.segs| ==> IsTaskLayer(run.tasks, run.segs[i].layer))
  }

  lemma RunShaped(b: Build, run: Run)
    requires WfBuild(b) && RunOk(b, run)
    ensures Shaped(run)
  {
    KeptWf(b, run.start, run.resume);
    PlanShape(run.tasks, b.segment);
  }

  /** Before any worker runs, every file is its base. */
  lemma LoadFile(b: Build, run: Run, done: set<int>, workers: map<int, Worker>, t: Task)
    requires Shaped(run) && t in run.tasks
    requires Trusted(run) == done && forall i :: i in workers ==> workers[i].Queued?
    ensures Framed(t, Base(run, t), Base(run, t))
    ensures SegmentsState(b.source, run.segs, Trusted(run), Base(run, t), done, workers, t.layer, Base(run, t))
  {
    PreparedStable(t, if run.resume then Lookup(run.start.partials, t.layer) else None);
    HeaderFits(t);
    assert Inside(run.segs, t);
  }

  lemma StepLoad(b: Build, s: State)
    requires s.proc.Preparing? && s.proc.k == |s.proc.run.tasks| && Shaped(s.proc.run)
    requires PreparingState(s.disk, s.proc.run, s.proc.k, s.proc.stage)
    ensures Facts(b, ApplyLoad(s))
  {
    var run, p := s.proc.run, ApplyLoad(s).proc;
    forall t | t in run.tasks
      ensures TaskState(b, s.disk, run.segs, Trusted(run), Base(run, t), p.done, p.workers, t)
    {
      var m :| 0 <= m < |run.tasks| && run.tasks[m] == t;
      assert Lookup(s.disk.partials, t.layer) == Some(Base(run, t));
      LoadFile(b, run, p.done, p.workers, t);
    }
  }

  lemma SameFiles(b: Build, d: Disk, run: Run, done: set<int>, workers: map<int, Worker>, done': set<int>, workers': map<int, Worker>)
    requires FetchingFiles(b, d, run, done, workers)
    requires forall i :: 0 <= i < |run.segs| ==>
      Arrived(done', workers', i, run.segs[i].len) == Arrived(done, workers, i, run.segs[i].len)
    ensures FetchingFiles(b, d, run, done', workers')
  {
  }

  lemma StepWorker(b: Build, s: State, i: int, w: Worker)
    requires s.proc.Fetching? && FetchingState(b, s.disk, s.proc.run, s.proc.done, s.proc.workers) && Active(s, i)
    requires Written(w, s.proc.run.segs[i].len) == Written(s.proc.workers[i], s.proc.run.segs[i].len)
    ensures Facts(b, WithWorker(s, i, w))
  {
    var run, workers := s.proc.run, s.proc.workers[i := w];
    SameFiles(b, s.disk, run, s.proc.done, s.proc.workers, s.proc.done, workers);
  }

  lemma StepRecord(b: Build, s: State, i: int)
    requires s.proc.Fetching? && FetchingState(b, s.disk, s.proc.run, s.proc.done, s.proc.workers) && Active(s, i)
    requires s.proc.workers[i].Copied?
    ensures Facts(b, ApplyRecord(s, i))
  {
    var p := ApplyRecord(s, i).proc;
    SameFiles(b, s.disk, s.proc.run, s.proc.done, s.proc.workers, p.done, p.workers);
  }

  /** One tick of segment `i`: its arrived part grows and every other segment stays as it was. */
  lemma TickSegments(source: map<string, seq<byte>>, segs: seq<Segment>, trusted: set<int>, base: seq<byte>,
                     done: set<int>, workers: map<int, Worker>, t: Task, file: seq<byte>, i: int, n: nat,
                     piece: seq<byte>, after: seq<byte>, workers': map<int, Worker>)
    requires Apart(segs) && Inside(segs, t) && |file| == t.total
    requires SegmentsState(source, segs, trusted, base, done, workers, t.layer, file)
    requires WorkersOk(segs, done, workers) && trusted <= done
    requires 0 <= i < |segs| && segs[i].layer == t.layer && i in workers && workers[i].Copying? && n > 0
    requires workers[i].pos + n <= segs[i].len && segs[i].srcOff + workers[i].pos + n <= |Shard(source, segs[i].shard)|
    requires piece == Slice(Shard(source, segs[i].shard), segs[i].srcOff + workers[i].pos, n)
    requires after == Pwrite(file, segs[i].dstOff + workers[i].pos, piece)
    requires workers' == workers[i := Copying(workers[i].pos + n)]
    ensures SegmentsState(source, segs, trusted, base, done, workers', t.layer, after)
  {
    forall j | 0 <= j < |segs| && segs[j].layer == t.layer
      ensures SegmentState(source, trusted, base, after, segs[j], j, Arrived(done, workers', j, segs[j].len))
    {
      TickSegment(source, segs, trusted, base, done, workers, t, file, i, n, piece, j);
    }
  }

  lemma TickSegment(source: map<string, seq<byte>>, segs: seq<Segment>, trusted: set<int>, base: seq<byte>,
                    done: set<int>, workers: map<int, Worker>, t: Task, file: seq<byte>, i: int, n: nat, piece: seq<byte>, j: int)
    requires Apart(segs) && Inside(segs, t) && |file| == t.total
    requires SegmentsState(source, segs, trusted, base, done, workers, t.layer, file)
    requires WorkersOk(segs, done, workers) && trusted <= done
    requires 0 <= i < |segs| && segs[i].layer == t.layer && i in workers && workers[i].Copying? && n > 0
    requires workers[i].pos + n <= segs[i].len && segs[i].srcOff + workers[i].pos + n <= |Shard(source, segs[i].shard)|
    requires piece == Slice(Shard(source, segs[i].shard), segs[i].srcOff + workers[i].pos, n)
    requires 0 <= j < |segs| && segs[j].layer == t.layer
    ensures SegmentState(source, trusted, base, Pwrite(file, segs[i].dstOff + workers[i].pos, piece), segs[j], j,
                         Arrived(done, workers[i := Copying(workers[i].pos + n)], j, segs[j].len))
  {
    var g, pos := segs[i], workers[i].pos;
    assert SegmentState(source, trusted, base, file, segs[j], j, Arrived(done, workers, j, segs[j].len));
    if j == i {
      assert i !in done && i !in trusted;
    } else {
      assert g.dstOff + g.len <= segs[j].dstOff || segs[j].dstOff + segs[j].len <= g.dstOff;
      assert Arrived(done, workers, j, segs[j].len) <= segs[j].len;
    }
  }

  /** The header lies before every segment, so no tick touches it. */
  lemma TickFrame(segs: seq<Segment>, base: seq<byte>, t: Task, file: seq<byte>, i: int, pos: nat, piece: seq<byte>)
    requires Inside(segs, t) && Framed(t, base, file)
    requires 0 <= i < |segs| && segs[i].layer == t.layer && pos + |piece| <= segs[i].len
    ensures Framed(t, base, Pwrite(file, segs[i].dstOff + pos, piece))
  {
  }

  lemma TickHit(b: Build, d: Disk, segs: seq<Segment>, trusted: set<int>, base: seq<byte>,
                done: set<int>, workers: map<int, Worker>, i: int, n: nat, t: Task)
    requires Apart(segs) && Inside(segs, t)
    requires TaskState(b, d, segs, trusted, base, done, workers, t) && WorkersOk(segs, done, workers) && trusted <= done
    requires 0 <= i < |segs| && i in workers && workers[i].Copying? && n > 0 && t.layer == segs[i].layer
    requires var g := segs[i];
      workers[i].pos + n <= g.len && g.srcOff + workers[i].pos + n <= |Shard(b.source, g.shard)|
    ensures TaskState(b, Ticked(b, d, segs[i], workers[i].pos, n), segs, trusted, base, done,
                      workers[i := Copying(workers[i].pos + n)], t)
  {
    var g, pos, file := segs[i], workers[i].pos, d.partials[t.layer];
    var piece := Slice(Shard(b.source, g.shard), g.srcOff + pos, n);
    var after, workers' := Pwrite(file, g.dstOff + pos, piece), workers[i := Copying(pos + n)];
    assert Framed(t, base, after) by {
      TickFrame(segs, base, t, file, i, pos, piece);
    }
    assert SegmentsState(b.source, segs, trusted, base, done, workers', t.layer, after) by {
      TickSegments(b.source, segs, trusted, base, done, workers, t, file, i, n, piece, after, workers');
    }
    assert Ticked(b, d, g, pos, n).partials == d.partials[t.layer := after];
  }

  lemma TickTask(b: Build, d: Disk, segs: seq<Segment>, trusted: set<int>, base: seq<byte>,
                 done: set<int>, workers: map<int, Worker>, i: int, n: nat, t: Task)
    requires Apart(segs) && Inside(segs, t)
    requires TaskState(b, d, segs, trusted, base, done, workers, t) && WorkersOk(segs, done, workers) && trusted <= done
    requires 0 <= i < |segs| && i in workers && workers[i].Copying? && n > 0
    requires var g := segs[i];
      workers[i].pos + n <= g.len && g.srcOff + workers[i].pos + n <= |Shard(b.source, g.shard)|
    ensures TaskState(b, Ticked(b, d, segs[i], workers[i].pos, n), segs, trusted, base, done,
                      workers[i := Copying(workers[i].pos + n)], t)
  {
    if t.layer == segs[i].layer {
      TickHit(b, d, segs, trusted, base, done, workers, i, n, t);
    }
  }

  lemma TickFiles(b: Build, d: Disk, run: Run, done: set<int>, workers: map<int, Worker>, i: int, n: nat,
                  d': Disk, workers': map<int, Worker>)
    requires Apart(run.segs) && (forall t :: t in run.tasks ==> Inside(run.segs, t))
    requires FetchingFiles(b, d, run, done, workers) && WorkersOk(run.segs, done, workers) && Trusted(run) <= done
    requires 0 <= i < |run.segs| && i in workers && workers[i].Copying? && n > 0
    requires var g := run.segs[i];
      workers[i].pos + n <= g.len && g.srcOff + workers[i].pos + n <= |Shard(b.source, g.shard)|
    requires d' == Ticked(b, d, run.segs[i], workers[i].pos, n) && workers' == workers[i := Copying(workers[i].pos + n)]
    ensures FetchingFiles(b, d', run, done, workers')
  {
    forall t | t in run.tasks
      ensures TaskState(b, d', run.segs, Trusted(run), Base(run, t), done, workers', t)
    {
      TickTask(b, d, run.segs, Trusted(run), Base(run, t), done, workers, i, n, t);
    }
  }

  lemma TickWorkers(segs: seq<Segment>, done: set<int>, workers: map<int, Worker>, i: int, pos: nat)
    requires WorkersOk(segs, done, workers) && 0 <= i < |segs| && i in workers && pos <= segs[i].len
    ensures WorkersOk(segs, done, workers[i := Copying(pos)])
  {
  }

  /** A tick touches one planned layer's partial, and nothing else of the directory. */
  lemma TickOthers(b: Build, d: Disk, run: Run, g: Segment, pos: nat, n: nat)
    requires IsTaskLayer(run.tasks, g.layer)
    requires forall l :: !IsTaskLayer(run.tasks, l) ==> Lookup(d.partials, l) == Lookup(run.start.partials, l)
    ensures var d' := Ticked(b, d, g, pos, n);
      && d'.finals == d.finals && d'.progress == d.progress
      && forall l :: !IsTaskLayer(run.tasks, l) ==> Lookup(d'.partials, l) == Lookup(run.start.partials, l)
  {
  }

  lemma StepTick(b: Build, d: Disk, run: Run, done: set<int>, workers: map<int, Worker>, i: int, n: nat,
                 d': Disk, workers': map<int, Worker>)
    requires FetchingState(b, d, run, done, workers) && Shaped(run)
    requires 0 <= i < |run.segs| && i in workers && workers[i].Copying? && n > 0
    requires var g := run.segs[i];
      workers[i].pos + n <= g.len && g.srcOff + workers[i].pos + n <= |Shard(b.source, g.shard)|
    requires d' == Ticked(b, d, run.segs[i], workers[i].pos, n) && workers' == workers[i := Copying(workers[i].pos + n)]
    ensures FetchingState(b, d', run, done, workers')
  {
    assert FetchingFiles(b, d', run, done, workers') by {
      TickFiles(b, d, run, done, workers, i, n, d', workers');
    }
    assert WorkersOk(run.segs, done, workers') by {
      TickWorkers(run.segs, done, workers, i, workers[i].pos + n);
    }
    TickOthers(b, d, run, run.segs[i], workers[i].pos, n);
  }

  lemma TickIs(b: Build, s: State, i: int, n: nat)
    requires b.segment > 0 && Enabled(b, s, Tick(i, n))
    ensures var pos := s.proc.workers[i].pos;
      Apply(b, s, Tick(i, n)) == State(Ticked(b, s.disk, s.proc.run.segs[i], pos, n),
                                     Fetching(s.proc.run, s.proc.done, s.proc.workers[i := Copying(pos + n)]))
  {
  }

  // ----- settling and publishing -----

  lemma StepSettle(b: Build, s: State)
    requires s.proc.Fetching? && FetchingState(b, s.disk, s.proc.run, s.proc.done, s.proc.workers)
    ensures Facts(b, ApplySettle(s))
  {
    var run, done, workers := s.proc.run, s.proc.done, s.proc.workers;
    if workers == map[] {
      assert forall i :: 0 <= i < |run.segs| ==> i in done;
      forall m | 0 <= m < |run.tasks|
        ensures run.tasks[m].layer in s.disk.partials
        ensures Published(b, run, run.tasks[m], s.disk.partials[run.tasks[m].layer])
      {
        var t := run.tasks[m];
        assert t in run.tasks && TaskState(b, s.disk, run.segs, Trusted(run), Base(run, t), done, workers, t);
      }
      forall i | 0 <= i < |run.segs|
        ensures i in LoadProgress(s.disk.progress)
      {
        assert i in done;
      }
    }
  }

  lemma RenameFiles(b: Build, d: Disk, run: Run, j: nat)
    requires DistinctLayers(run.tasks) && j < |run.tasks| && PublishedFiles(b, d, run, j)
    ensures PublishedFiles(b, Renamed(d, run.tasks[j].layer), run, j + 1)
  {
    forall m | 0 <= m < |run.tasks| && m != j
      ensures run.tasks[m].layer != run.tasks[j].layer
    {
    }
  }

  lemma StepRename(b: Build, s: State)
    requires s.proc.Publishing? && s.proc.renamed < |s.proc.run.tasks| && DistinctLayers(s.proc.run.tasks)
    requires PublishingState(b, s.disk, s.proc.run, s.proc.renamed)
    ensures Facts(b, ApplyRename(s))
  {
    RenameState(b, s.disk, s.proc.run, s.proc.renamed);
  }

  lemma RenameState(b: Build, d: Disk, run: Run, j: nat)
    requires j < |run.tasks| && DistinctLayers(run.tasks) && PublishingState(b, d, run, j)
    ensures PublishingState(b, Renamed(d, run.tasks[j].layer), run, j + 1)
  {
    RenameFiles(b, d, run, j);
    assert run.tasks[j] in run.tasks;
  }

  ghost predicate FetchStep(b: Build, s: State, a: Action)
    requires b.segment > 0
  {
    s.proc.Fetching? && Shaped(s.proc.run) && FetchingState(b, s.disk, s.proc.run, s.proc.done, s.proc.workers) && Enabled(b, s, a)
  }

  lemma BeginKeeps(b: Build, s: State, i: int)
    requires b.segment > 0 && FetchStep(b, s, Begin(i))
    ensures Facts(b, Apply(b, s, Begin(i)))
  {
    StepWorker(b, s, i, Copying(0));
  }

  lemma TickKeeps(b: Build, s: State, i: int, n: nat)
    requires b.segment > 0 && FetchStep(b, s, Tick(i, n))
    ensures Facts(b, Apply(b, s, Tick(i, n)))
  {
    var run, pos, next := s.proc.run, s.proc.workers[i].pos, Apply(b, s, Tick(i, n));
    TickIs(b, s, i, n);
    assert FetchingState(b, next.disk, run, s.proc.done, next.proc.workers) by {
      StepTick(b, s.disk, run, s.proc.done, s.proc.workers, i, n, next.disk, next.proc.workers);
    }
  }

  lemma CompleteKeeps(b: Build, s: State, i: int)
    requires b.segment > 0 && FetchStep(b, s, Complete(i))
    ensures Facts(b, Apply(b, s, Complete(i)))
  {
    StepWorker(b, s, i, Copied);
  }

  lemma FailKeeps(b: Build, s: State, i: int)
    requires b.segment > 0 && FetchStep(b, s, Fail(i))
    ensures Facts(b, Apply(b, s, Fail(i)))
  {
    StepWorker(b, s, i, Failed(Written(s.proc.workers[i], 0)));
  }

  lemma RecordKeeps(b: Build, s: State, i: int)
    requires b.segment > 0 && FetchStep(b, s, Record(i))
    ensures Facts(b, Apply(b, s, Record(i)))
  {
    StepRecord(b, s, i);
  }

  lemma StepOfWorkers(b: Build, s: State, a: Action)
    requires b.segment > 0 && FetchStep(b, s, a)
    requires a.Begin? || a.Tick? || a.Complete? || a.Fail? || a.Record?
    ensures Facts(b, Apply(b, s, a))
  {
    match a
    case Begin(i) => BeginKeeps(b, s, i);
    case Tick(i, n) => TickKeeps(b, s, i, n);
    case Complete(i) => CompleteKeeps(b, s, i);
    case Fail(i) => FailKeeps(b, s, i);
    case Record(i) => RecordKeeps(b, s, i);
  }

  /** The invariant is kept by every enabled step. */
  lemma StepInv(b: Build, s: State, a: Action)
    requires WfBuild(b) && Inv(b, s) && Enabled(b, s, a)
    ensures Inv(b, Apply(b, s, a))
  {
    if !s.proc.Down? {
      RunShaped(b, s.proc.run);
    }
    match a
    case Start(resume) =>
    case Prepare => StepPrepare(s);
    case Load => StepLoad(b, s);
    case Settle => StepSettle(b, s);
    case Rename => StepRename(b, s);
    case Finish =>
    case Crash =>
    case _ => StepOfWorkers(b, s, a);
  }
}
