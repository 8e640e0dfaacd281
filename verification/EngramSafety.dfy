/** What the step system delivers: the bytes any run publishes, and safety over all runs. */
module EngramSafety {
  import opened Results
  import opened Bytes
  import opened EngramPlan
  import opened EngramBuild
  import opened EngramSteps

  // First the exact bytes any run publishes, whatever it found; then safety over all schedules of
  // runs that are only stopped where stopping is safe.

  // ----- exactly when a published file is right -----

  ghost predicate HasHeader(t: Task, file: seq<byte>) {
    |t.header| <= |file| && file[..|t.header|] == t.header
  }

  /** Trusting the indices in `trusted` is harmless for `t`: its header is there and they name source bytes. */
  ghost predicate Sound(source: map<string, seq<byte>>, segs: seq<Segment>, trusted: set<int>, t: Task, base: seq<byte>) {
    && HasHeader(t, base)
    && forall i :: 0 <= i < |segs| && i in trusted && segs[i].layer == t.layer ==> SegmentIs(base, source, segs[i])
  }

  ghost predicate Delivered(source: map<string, seq<byte>>, t: Task, file: seq<byte>) {
    Available(source, t.regions) && file == Expected(source, t)
  }

  /** A file is delivered exactly when its header and all its segments, by index, are in place. */
  lemma DeliveredByIndex(source: map<string, seq<byte>>, tasks: seq<Task>, segment: nat, t: Task, file: seq<byte>)
    requires segment > 0 && WfTasks(tasks) && t in tasks && |file| == t.total
    ensures Delivered(source, t, file) <==>
      HasHeader(t, file) && forall i :: 0 <= i < |Plan(tasks, segment)| && Plan(tasks, segment)[i].layer == t.layer ==>
        SegmentIs(file, source, Plan(tasks, segment)[i])
  {
    var segs, mine := Plan(tasks, segment), FileSegments(t.layer, t.regions, segment);
    FileComplete(file, source, t, segment);
    HeaderFits(t);
    forall i | 0 <= i < |segs| && segs[i].layer == t.layer
      ensures segs[i] in mine
    {
      var u := PlanBounds(tasks, segment, i);
      assert u == t;
    }
    forall g | g in mine
      ensures exists i :: 0 <= i < |segs| && segs[i].layer == t.layer && segs[i] == g
    {
      PlanHasFile(tasks, segment, t, g);
      FileTiles(t.layer, t.regions, segment, |t.header|, t.total);
      var k :| 0 <= k < |mine| && mine[k] == g;
      TilesBounds(mine, t.layer, segment, |t.header|, t.total, k);
    }
  }

  /**
    For any directory, any interleaving and any progress file: the file a run publishes is the
    promised one if and only if what the run took on trust was already right.
   */
  lemma PublishedExactly(b: Build, run: Run, t: Task, file: seq<byte>)
    requires WfBuild(b) && RunOk(b, run) && t in run.tasks && Published(b, run, t, file)
    ensures Delivered(b.source, t, file) <==> Sound(b.source, run.segs, Trusted(run), t, Base(run, t))
  {
    RunShaped(b, run);
    PlannedExactly(b.source, run.tasks, b.segment, run.segs, Trusted(run), Base(run, t), t, file);
  }

  lemma PlannedExactly(source: map<string, seq<byte>>, tasks: seq<Task>, segment: nat, segs: seq<Segment>,
                       trusted: set<int>, base: seq<byte>, t: Task, file: seq<byte>)
    requires segment > 0 && WfTasks(tasks) && segs == Plan(tasks, segment) && t in tasks
    requires Assembled(source, segs, trusted, base, t, file)
    ensures Delivered(source, t, file) <==> Sound(source, segs, trusted, t, base)
  {
    DeliveredByIndex(source, tasks, segment, t, file);
  }

  /** With nothing taken on trust only the header matters. */
  lemma NothingTrusted(source: map<string, seq<byte>>, segs: seq<Segment>, t: Task, base: seq<byte>)
    ensures Sound(source, segs, {}, t, base) <==> HasHeader(t, base)
  {
  }

  lemma FreshHeader(t: Task)
    requires WfTask(t)
    ensures HasHeader(t, Prepared(t, None))
  {
    HeaderFits(t);
    var cut := Ftruncate([], t.total);
    assert cut[..8] == Zeros(8);
    UnpackZero(cut[..8]);
  }

  /** A restart with `--no-resume` publishes the promised file, whatever the directory held. */
  lemma RestartDelivers(b: Build, run: Run, t: Task, file: seq<byte>)
    requires WfBuild(b) && RunOk(b, run) && !run.resume && t in run.tasks && Published(b, run, t, file)
    ensures Delivered(b.source, t, file)
  {
    FreshHeader(t);
    PublishedExactly(b, run, t, file);
  }

  /** Preparing a file again that has the header changes nothing. */
  lemma FramedIsPrepared(t: Task, base: seq<byte>, file: seq<byte>)
    requires WfTask(t) && HasHeader(t, base) && Framed(t, base, file)
    ensures HasHeader(t, file) && Prepared(t, Some(file)) == file
  {
    HeaderFits(t);
    assert file[..|t.header|] == base[..|t.header|];
    assert file[..8] == t.header[..8];
  }

  /** A partial in fetching state is sound for every index recorded so far, if its base was for those trusted. */
  lemma FetchingSound(b: Build, run: Run, done: set<int>, workers: map<int, Worker>, t: Task, d: Disk, base: seq<byte>)
    requires WfTask(t) && TaskState(b, d, run.segs, Trusted(run), base, done, workers, t)
    requires Sound(b.source, run.segs, Trusted(run), t, base)
    ensures Sound(b.source, run.segs, done, t, d.partials[t.layer])
    ensures Prepared(t, Lookup(d.partials, t.layer)) == d.partials[t.layer]
  {
    var file := d.partials[t.layer];
    FramedIsPrepared(t, base, file);
    forall i | 0 <= i < |run.segs| && i in done && run.segs[i].layer == t.layer
      ensures SegmentIs(file, b.source, run.segs[i])
    {
      assert SegmentState(b.source, Trusted(run), base, file, run.segs[i], i, Arrived(done, workers, i, run.segs[i].len));
    }
  }

  /** Every index such a restart has recorded names source bytes, whatever the directory held. */
  lemma RestartRecordsTruth(b: Build, s: State, t: Task, i: int)
    requires WfBuild(b) && Inv(b, s) && s.proc.Fetching? && !s.proc.run.resume && t in s.proc.run.tasks
    requires s.disk.progress == Recorded(s.proc.done) && i in s.proc.done
    requires 0 <= i < |s.proc.run.segs| && s.proc.run.segs[i].layer == t.layer
    ensures t.layer in s.disk.partials && SegmentIs(s.disk.partials[t.layer], b.source, s.proc.run.segs[i])
  {
    var run := s.proc.run;
    assert TaskState(b, s.disk, run.segs, Trusted(run), Base(run, t), s.proc.done, s.proc.workers, t);
    FreshHeader(t);
    FetchingSound(b, run, s.proc.done, s.proc.workers, t, s.disk, Base(run, t));
  }

  // ----- directories a build may start from -----

  /** The whole plan: what a process plans when no layer is finished. */
  function WholePlan(b: Build): seq<Segment>
    requires b.segment > 0
  {
    Plan(b.tasks, b.segment)
  }

  ghost predicate OwnFiles(b: Build, d: Disk) {
    && (forall l :: l in d.finals ==> IsTaskLayer(b.tasks, l))
    && (forall l :: l in d.partials ==> IsTaskLayer(b.tasks, l))
    && (forall t :: t in b.tasks && t.layer in d.finals ==> Delivered(b.source, t, d.finals[t.layer]))
  }

  ghost predicate AllFinal(b: Build, d: Disk) {
    forall t :: t in b.tasks ==> t.layer in d.finals
  }

  /** A finished directory. */
  ghost predicate Settled(b: Build, d: Disk) {
    OwnFiles(b, d) && AllFinal(b, d) && d.partials == map[]
  }

  /** Under the whole plan, the recorded indices name source bytes and no partial has a wrong header. */
  ghost predicate TrueProgress(b: Build, d: Disk)
    requires b.segment > 0
  {
    forall t :: t in b.tasks ==>
      Sound(b.source, WholePlan(b), LoadProgress(d.progress), t, Prepared(t, Lookup(d.partials, t.layer)))
  }

  /**
    A directory with true progress, in which a resume plans every layer (nothing is published yet, or
    some partial is left) or finds nothing recorded.
   */
  ghost predicate Resumable(b: Build, d: Disk)
    requires b.segment > 0
  {
    && OwnFiles(b, d)
    && TrueProgress(b, d)
    && (d.finals == map[] || d.partials != map[] || LoadProgress(d.progress) == {})
  }

  ghost predicate DiskOk(b: Build, d: Disk)
    requires b.segment > 0
  {
    Settled(b, d) || Resumable(b, d)
  }

  /** Building starts safely in any directory that holds nothing but some of the promised files. */
  lemma PublishedOnlyOk(b: Build, finals: map<int, seq<byte>>)
    requires WfBuild(b) && OwnFiles(b, Disk(finals, map[], Missing))
    ensures Resumable(b, Disk(finals, map[], Missing))
  {
    forall t | t in b.tasks {
      FreshHeader(t);
    }
  }

  /** While nothing is recorded, or when all is finished, the segment size may change between runs. */
  lemma SegmentSizeMayChange(b: Build, segment: nat, d: Disk)
    requires WfBuild(b) && DiskOk(b, d) && segment > 0
    requires LoadProgress(d.progress) == {} || Settled(b, d)
    ensures DiskOk(b.(segment := segment), d)
  {
    var other := b.(segment := segment);
    SameOwnFiles(b, other, d);
    if !Settled(b, d) {
      NothingRecorded(b, other, d);
    }
  }

  lemma SameOwnFiles(b: Build, other: Build, d: Disk)
    requires other == b.(segment := other.segment)
    ensures OwnFiles(other, d) <==> OwnFiles(b, d)
    ensures AllFinal(other, d) <==> AllFinal(b, d)
  {
  }

  lemma NothingRecorded(b: Build, other: Build, d: Disk)
    requires b.segment > 0 && other.segment > 0 && other.tasks == b.tasks && other.source == b.source
    requires TrueProgress(b, d) && LoadProgress(d.progress) == {}
    ensures TrueProgress(other, d)
  {
    forall t | t in b.tasks
      ensures Sound(b.source, WholePlan(other), {}, t, Prepared(t, Lookup(d.partials, t.layer)))
    {
      AnyPlan(b.source, WholePlan(b), WholePlan(other), t, Prepared(t, Lookup(d.partials, t.layer)));
    }
  }

  lemma AnyPlan(source: map<string, seq<byte>>, segs: seq<Segment>, others: seq<Segment>, t: Task, base: seq<byte>)
    ensures Sound(source, segs, {}, t, base) ==> Sound(source, others, {}, t, base)
  {
  }

  /** While the build is unfinished, a resume plans every layer again. */
  lemma {:induction false} ResumePlansAll(json: Json, d: Disk, tasks: seq<Task>)
    requires d.finals == map[] || d.partials != map[]
    ensures Unfinished(json, d, tasks) == tasks
  {
    if tasks != [] {
      ResumePlansAll(json, d, tasks[1..]);
    }
  }

  /** The promised file passes the offline check for its own layer and claims no other. */
  lemma ExpectedPasses(json: Json, source: map<string, seq<byte>>, t: Task, layer: int)
    requires WfTask(t) && Announces(json, t) && Available(source, t.regions) && |Expected(source, t)| == t.total
    ensures var file := Expected(source, t);
      && ReadHeader(json, file).Some?
      && (Provides(json, file, layer) <==> layer == t.layer)
      && (layer == t.layer ==> BigEnough(json, file, layer))
  {
    var file := Expected(source, t);
    assert file[..8] == t.header[..8] && file[8..|t.header|] == t.header[8..];
  }

  lemma DeliveredSize(source: map<string, seq<byte>>, t: Task, file: seq<byte>)
    requires WfTask(t) && Delivered(source, t, file)
    ensures |file| == t.total
  {
    DataSize(source, t.regions, |t.header|, t.total);
  }

  lemma {:induction false} DataSize(source: map<string, seq<byte>>, regions: seq<Region>, lo: nat, hi: nat)
    requires RegionChain(regions, lo, hi) && Available(source, regions)
    ensures lo + |PlaneData(source, regions)| == hi
  {
    if regions != [] {
      assert regions[0] in regions;
      DataSize(source, regions[1..], lo + regions[0].len, hi);
    }
  }

  lemma {:induction false} AllPassKeepsNone(json: Json, d: Disk, tasks: seq<Task>)
    requires forall t :: t in tasks ==> CheckOutput(json, d, t.layer)
    ensures Unfinished(json, d, tasks) == []
  {
    if tasks != [] {
      assert tasks[0] in tasks;
      AllPassKeepsNone(json, d, tasks[1..]);
    }
  }

  /** In a finished directory every layer passes the check, so a resume has nothing to do. */
  lemma SettledKeepsNone(b: Build, d: Disk)
    requires WfBuild(b) && Settled(b, d)
    ensures Kept(b, d, true) == []
  {
    forall t | t in b.tasks
      ensures CheckOutput(b.json, d, t.layer)
    {
      forall l | l in d.finals
        ensures ReadHeader(b.json, d.finals[l]).Some?
        ensures Provides(b.json, d.finals[l], t.layer) ==> BigEnough(b.json, d.finals[l], t.layer)
        ensures l == t.layer ==> Provides(b.json, d.finals[l], t.layer)
      {
        var u :| u in b.tasks && u.layer == l;
        DeliveredSize(b.source, u, d.finals[l]);
        ExpectedPasses(b.json, b.source, u, t.layer);
      }
      assert t.layer in d.finals;
    }
    AllPassKeepsNone(b.json, d, b.tasks);
  }

  // ----- what a process that started well may trust -----

  /** A restart over recorded indices: until its first own record the progress file is not its own. */
  ghost predicate Stale(run: Run) {
    !run.resume && LoadProgress(run.start.progress) != {}
  }

  ghost predicate GoodRun(b: Build, run: Run)
    requires b.segment > 0
  {
    OwnFiles(b, run.start) && (Stale(run) || DiskOk(b, run.start))
  }

  /** A good run works on every layer, or it skipped published layers and had nothing to trust. */
  lemma RunKind(b: Build, run: Run)
    requires WfBuild(b) && RunOk(b, run) && GoodRun(b, run)
    ensures forall t :: t in run.tasks ==> t in b.tasks
    ensures run.resume ==> Resumable(b, run.start)
    ensures run.tasks == b.tasks ==> run.segs == WholePlan(b)
    ensures run.tasks != b.tasks ==> run.resume && LoadProgress(run.start.progress) == {} && run.start.partials == map[]
  {
    KeptWf(b, run.start, run.resume);
    if run.resume {
      if Settled(b, run.start) {
        SettledKeepsNone(b, run.start);
      }
      if run.start.finals == map[] || run.start.partials != map[] {
        ResumePlansAll(b.json, run.start, b.tasks);
      }
    }
  }

  /** Nothing a good run trusts is wrong. */
  lemma GoodRunSound(b: Build, run: Run, t: Task)
    requires WfBuild(b) && RunOk(b, run) && GoodRun(b, run) && t in run.tasks
    ensures Sound(b.source, run.segs, Trusted(run), t, Base(run, t))
  {
    RunKind(b, run);
    if !run.resume {
      FreshHeader(t);
    } else {
      var found := Lookup(run.start.partials, t.layer);
      assert Sound(b.source, WholePlan(b), LoadProgress(run.start.progress), t, Prepared(t, found));
      if run.tasks != b.tasks {
        NothingTrusted(b.source, run.segs, t, Prepared(t, found));
      }
    }
  }

  /** A found partial of a directory that may be built on has a good header, or none yet. */
  lemma FoundHeader(b: Build, d: Disk, t: Task)
    requires WfBuild(b) && DiskOk(b, d) && t in b.tasks
    ensures HasHeader(t, Prepared(t, Lookup(d.partials, t.layer)))
  {
    if Settled(b, d) {
      FreshHeader(t);
    } else {
      assert Sound(b.source, WholePlan(b), LoadProgress(d.progress), t, Prepared(t, Lookup(d.partials, t.layer)));
    }
  }

  /** In a directory of the build's own good files, a layer that passes the offline check is published. */
  lemma CheckedIsFinal(b: Build, d: Disk, t: Task)
    requires WfBuild(b) && OwnFiles(b, d) && t in b.tasks && CheckOutput(b.json, d, t.layer)
    ensures t.layer in d.finals && d.partials == map[]
  {
    var l :| l in d.finals && Whole(b.json, d.finals[l], t.layer);
    var u :| u in b.tasks && u.layer == l;
    DeliveredSize(b.source, u, d.finals[l]);
    ExpectedPasses(b.json, b.source, u, t.layer);
  }

  lemma SkippedIsFinal(b: Build, run: Run, t: Task)
    requires WfBuild(b) && RunOk(b, run) && GoodRun(b, run) && t in b.tasks && t !in run.tasks
    ensures t.layer in run.start.finals && run.start.partials == map[]
  {
    KeptTasks(b.json, run.start, b.tasks);
    CheckedIsFinal(b, run.start, t);
  }

  // ----- where a process may stop -----

  /** The process gives up: it is killed, or some segment failed. */
  ghost predicate Stops(s: State, a: Action) {
    a.Crash? || (a.Settle? && s.proc.Fetching? && (s.proc.workers != map[] || !SizesRight(s)))
  }

  /**
    Where stopping is safe. Not between the first rename and the last; not when a restart over recorded
    indices has recorded nothing of its own yet; and not when a run that skipped published layers has.
   */
  ghost predicate MayStop(b: Build, s: State) {
    match s.proc
    case Down => true
    case Preparing(run, _, _) => !Stale(run)
    case Fetching(run, done, _) =>
      && (Stale(run) ==> done != {})
      && (run.tasks == b.tasks || LoadProgress(s.disk.progress) == {})
    case Publishing(run, renamed) =>
      renamed == |run.tasks| || (renamed == 0 && (run.tasks == b.tasks || LoadProgress(s.disk.progress) == {}))
  }

  ghost predicate Allowed(b: Build, s: State, a: Action) {
    Stops(s, a) ==> MayStop(b, s)
  }

  /** A directory that keeps the finals it started from, with true progress, may be resumed. */
  lemma StillResumable(b: Build, d: Disk, start: Disk, tasks: seq<Task>)
    requires b.segment > 0 && OwnFiles(b, start) && d.finals == start.finals && TrueProgress(b, d)
    requires forall t :: t in tasks ==> t in b.tasks
    requires forall l :: !IsTaskLayer(tasks, l) ==> Lookup(d.partials, l) == Lookup(start.partials, l)
    requires d.finals == map[] || d.partials != map[] || LoadProgress(d.progress) == {}
    ensures Resumable(b, d)
  {
    forall l | l in d.partials
      ensures IsTaskLayer(b.tasks, l)
    {
      if !IsTaskLayer(tasks, l) {
        assert Lookup(start.partials, l) == Some(d.partials[l]);
      }
    }
  }

  /** Preparing a layer again, from whatever a stopped preparation left of it, gives a sound base. */
  lemma PreparingSound(b: Build, d: Disk, run: Run, k: nat, stage: Stage, m: nat)
    requires WfBuild(b) && RunOk(b, run) && GoodRun(b, run) && !Stale(run) && PreparingState(d, run, k, stage)
    requires m < |run.tasks|
    ensures Sound(b.source, run.segs, LoadProgress(d.progress), run.tasks[m],
                  Prepared(run.tasks[m], Lookup(d.partials, run.tasks[m].layer)))
  {
    var t := run.tasks[m];
    assert t in run.tasks;
    RunKind(b, run);
    GoodRunSound(b, run, t);
    FoundHeader(b, run.start, t);
    FreshHeader(t);
    PreparedStable(t, if run.resume then Lookup(run.start.partials, t.layer) else None);
  }

  /** A layer's base is sound under the whole plan too: the plans agree, or nothing is trusted. */
  lemma SoundEitherWay(b: Build, run: Run, trusted: set<int>, t: Task, base: seq<byte>)
    requires b.segment > 0 && Sound(b.source, run.segs, trusted, t, base)
    requires run.segs == WholePlan(b) || trusted == {}
    ensures Sound(b.source, WholePlan(b), trusted, t, base)
  {
  }

  lemma PreparingTrue(b: Build, d: Disk, run: Run, k: nat, stage: Stage)
    requires WfBuild(b) && RunOk(b, run) && GoodRun(b, run) && !Stale(run) && PreparingState(d, run, k, stage)
    ensures TrueProgress(b, d)
  {
    RunKind(b, run);
    forall t | t in b.tasks
      ensures Sound(b.source, WholePlan(b), LoadProgress(d.progress), t, Prepared(t, Lookup(d.partials, t.layer)))
    {
      if t in run.tasks {
        var m :| 0 <= m < |run.tasks| && run.tasks[m] == t;
        PreparingSound(b, d, run, k, stage, m);
        SoundEitherWay(b, run, LoadProgress(d.progress), t, Prepared(t, Lookup(d.partials, t.layer)));
      } else {
        NotTaskLayer(b.tasks, run.tasks, t);
        assert Sound(b.source, WholePlan(b), LoadProgress(run.start.progress), t, Prepared(t, Lookup(run.start.partials, t.layer)));
      }
    }
  }

  lemma NotTaskLayer(all: seq<Task>, some: seq<Task>, t: Task)
    requires DistinctLayers(all) && t in all && t !in some && forall u :: u in some ==> u in all
    ensures !IsTaskLayer(some, t.layer)
  {
  }

  /** Preparing for a resume removes no partial. */
  lemma PartialsStay(d: Disk, run: Run, k: nat, stage: Stage, l: int)
    requires PreparingState(d, run, k, stage) && run.resume && l in run.start.partials
    ensures l in d.partials
  {
    assert Lookup(run.start.partials, l) == Some(run.start.partials[l]);
    if IsTaskLayer(run.tasks, l) {
      var t :| t in run.tasks && t.layer == l;
      var m :| 0 <= m < |run.tasks| && run.tasks[m] == t;
      assert Lookup(d.partials, l) != None;
    } else {
      assert Lookup(d.partials, l) == Lookup(run.start.partials, l);
    }
  }

  lemma SomeOf<T>(keys: set<T>) returns (k: T)
    requires keys != {}
    ensures k in keys
  {
    k :| k in keys;
  }

  lemma PreparingStops(b: Build, s: State)
    requires WfBuild(b) && Inv(b, s) && s.proc.Preparing? && GoodRun(b, s.proc.run) && MayStop(b, s)
    ensures Resumable(b, s.disk)
  {
    var run, d := s.proc.run, s.disk;
    RunKind(b, run);
    PreparingTrue(b, d, run, s.proc.k, s.proc.stage);
    if run.resume && run.start.partials != map[] {
      var l := SomeOf(run.start.partials.Keys);
      PartialsStay(d, run, s.proc.k, s.proc.stage, l);
    }
    StillResumable(b, d, run.start, run.tasks);
  }

  /** What the progress file lists is among the segments this process counts as done. */
  lemma RecordedDone(b: Build, s: State)
    requires b.segment > 0 && Inv(b, s) && s.proc.Fetching? && (Stale(s.proc.run) ==> s.proc.done != {})
    ensures LoadProgress(s.disk.progress) <= s.proc.done
  {
  }

  lemma FetchingIndices(b: Build, s: State, t: Task)
    requires WfBuild(b) && Inv(b, s) && s.proc.Fetching? && GoodRun(b, s.proc.run) && t in s.proc.run.tasks
    requires Stale(s.proc.run) ==> s.proc.done != {}
    ensures t.layer in s.disk.partials
    ensures Sound(b.source, s.proc.run.segs, LoadProgress(s.disk.progress), t, Prepared(t, Lookup(s.disk.partials, t.layer)))
  {
    var run := s.proc.run;
    RunKind(b, run);
    assert TaskState(b, s.disk, run.segs, Trusted(run), Base(run, t), s.proc.done, s.proc.workers, t);
    GoodRunSound(b, run, t);
    FetchingSound(b, run, s.proc.done, s.proc.workers, t, s.disk, Base(run, t));
    RecordedDone(b, s);
  }

  lemma FetchingStops(b: Build, s: State)
    requires WfBuild(b) && Inv(b, s) && s.proc.Fetching? && GoodRun(b, s.proc.run) && MayStop(b, s)
    ensures Resumable(b, s.disk)
  {
    var run, d := s.proc.run, s.disk;
    RunKind(b, run);
    forall t | t in b.tasks
      ensures Sound(b.source, WholePlan(b), LoadProgress(d.progress), t, Prepared(t, Lookup(d.partials, t.layer)))
    {
      if t in run.tasks {
        FetchingIndices(b, s, t);
        SoundEitherWay(b, run, LoadProgress(d.progress), t, Prepared(t, Lookup(d.partials, t.layer)));
      } else {
        NotTaskLayer(b.tasks, run.tasks, t);
        FoundHeader(b, run.start, t);
      }
    }
    assert run.tasks[0] in run.tasks;
    FetchingIndices(b, s, run.tasks[0]);
    StillResumable(b, d, run.start, run.tasks);
  }

  /** Everything a good run has published, or is about to publish, is the promised file. */
  lemma PublishingDelivers(b: Build, s: State, m: nat)
    requires WfBuild(b) && Inv(b, s) && s.proc.Publishing? && GoodRun(b, s.proc.run) && m < |s.proc.run.tasks|
    ensures var t := s.proc.run.tasks[m];
      && (m < s.proc.renamed ==>
            t.layer in s.disk.finals && t.layer !in s.disk.partials && Delivered(b.source, t, s.disk.finals[t.layer]))
      && (m >= s.proc.renamed ==> t.layer in s.disk.partials && Delivered(b.source, t, s.disk.partials[t.layer]))
  {
    var run, t := s.proc.run, s.proc.run.tasks[m];
    assert t in run.tasks;
    GoodRunSound(b, run, t);
    PublishedExactly(b, run, t, if m < s.proc.renamed then s.disk.finals[t.layer] else s.disk.partials[t.layer]);
  }

  lemma DeliveredSound(b: Build, tasks: seq<Task>, t: Task, file: seq<byte>, trusted: set<int>)
    requires b.segment > 0 && WfTasks(tasks) && t in tasks && Delivered(b.source, t, file)
    ensures Sound(b.source, Plan(tasks, b.segment), trusted, t, file)
    ensures Prepared(t, Some(file)) == file
  {
    DeliveredSize(b.source, t, file);
    DeliveredByIndex(b.source, tasks, b.segment, t, file);
    HeaderFits(t);
    assert file[..8] == t.header[..8];
  }

  /** A directory whose finals are either the start's or freshly delivered holds only its own good files. */
  lemma StillOwn(b: Build, d: Disk, start: Disk, tasks: seq<Task>, done: seq<Task>)
    requires b.segment > 0 && OwnFiles(b, start)
    requires forall t :: t in tasks ==> t in b.tasks
    requires forall t :: t in done ==> t in tasks
    requires forall l :: !IsTaskLayer(tasks, l) ==> Lookup(d.partials, l) == Lookup(start.partials, l)
    requires forall l :: !IsTaskLayer(done, l) ==> Lookup(d.finals, l) == Lookup(start.finals, l)
    requires forall t :: t in b.tasks && IsTaskLayer(done, t.layer) ==> Delivered(b.source, t, Contents(d.finals, t.layer))
    ensures OwnFiles(b, d)
  {
    forall l
      ensures !IsTaskLayer(b.tasks, l) ==> l !in d.partials && l !in d.finals
    {
      if !IsTaskLayer(b.tasks, l) {
        assert !IsTaskLayer(tasks, l) && !IsTaskLayer(done, l);
        assert Lookup(start.partials, l) == None && Lookup(start.finals, l) == None;
      }
    }
    forall t | t in b.tasks && t.layer in d.finals && !IsTaskLayer(done, t.layer)
      ensures Delivered(b.source, t, d.finals[t.layer])
    {
      assert Lookup(start.finals, t.layer) == Some(d.finals[t.layer]);
    }
  }

  lemma RenamedTask(b: Build, s: State, t: Task)
    requires WfBuild(b) && Inv(b, s) && s.proc.Publishing? && GoodRun(b, s.proc.run)
    requires t in b.tasks && IsTaskLayer(s.proc.run.tasks[..s.proc.renamed], t.layer)
    ensures t.layer in s.disk.finals && Delivered(b.source, t, s.disk.finals[t.layer])
  {
    RunKind(b, s.proc.run);
    var m := TaskIndex(b.tasks, s.proc.run.tasks, s.proc.renamed, t);
    PublishingDelivers(b, s, m);
  }

  lemma TaskIndex(all: seq<Task>, tasks: seq<Task>, k: nat, t: Task) returns (m: nat)
    requires DistinctLayers(all) && k <= |tasks| && t in all && IsTaskLayer(tasks[..k], t.layer)
    requires forall u :: u in tasks ==> u in all
    ensures m < k && tasks[m] == t
  {
    var u :| u in tasks[..k] && u.layer == t.layer;
    m :| 0 <= m < k && tasks[m] == u;
    assert u in tasks;
  }

  lemma PublishingFinals(b: Build, s: State)
    requires WfBuild(b) && Inv(b, s) && s.proc.Publishing? && GoodRun(b, s.proc.run)
    ensures OwnFiles(b, s.disk)
  {
    var run := s.proc.run;
    var done := run.tasks[..s.proc.renamed];
    RunKind(b, run);
    forall t | t in b.tasks && IsTaskLayer(done, t.layer)
      ensures Delivered(b.source, t, Contents(s.disk.finals, t.layer))
    {
      RenamedTask(b, s, t);
    }
    StillOwn(b, s.disk, run.start, run.tasks, done);
  }

  /** All partials complete, none renamed yet. */
  lemma BeforeFirstRename(b: Build, s: State)
    requires WfBuild(b) && Inv(b, s) && s.proc.Publishing? && GoodRun(b, s.proc.run) && s.proc.renamed == 0 && MayStop(b, s)
    ensures Resumable(b, s.disk)
  {
    var run, d := s.proc.run, s.disk;
    RunKind(b, run);
    forall t | t in b.tasks
      ensures Sound(b.source, WholePlan(b), LoadProgress(d.progress), t, Prepared(t, Lookup(d.partials, t.layer)))
    {
      if t in run.tasks {
        var m :| 0 <= m < |run.tasks| && run.tasks[m] == t;
        PublishingDelivers(b, s, m);
        DeliveredSound(b, b.tasks, t, d.partials[t.layer], LoadProgress(d.progress));
      } else {
        NotTaskLayer(b.tasks, run.tasks, t);
        FoundHeader(b, run.start, t);
      }
    }
    PublishingDelivers(b, s, 0);
    assert forall l :: Lookup(d.finals, l) == Lookup(run.start.finals, l);
    SameFinals(d.finals, run.start.finals);
    StillResumable(b, d, run.start, run.tasks);
  }

  lemma SameFinals(a: map<int, seq<byte>>, b: map<int, seq<byte>>)
    requires forall l :: Lookup(a, l) == Lookup(b, l)
    ensures a == b
  {
    forall l
      ensures l in a <==> l in b
      ensures l in a ==> a[l] == b[l]
    {
      assert Lookup(a, l) == Lookup(b, l);
    }
  }

  /** Every file renamed: the directory is finished, with or without the old progress file. */
  lemma AfterLastRename(b: Build, s: State)
    requires WfBuild(b) && Inv(b, s) && s.proc.Publishing? && GoodRun(b, s.proc.run)
    requires s.proc.renamed == |s.proc.run.tasks|
    ensures Settled(b, s.disk) && Settled(b, s.disk.(progress := Missing))
  {
    var run := s.proc.run;
    RunKind(b, run);
    PublishingFinals(b, s);
    forall t | t in b.tasks
      ensures t.layer in s.disk.finals && t.layer !in s.disk.partials
    {
      if t in run.tasks {
        var m :| 0 <= m < |run.tasks| && run.tasks[m] == t;
        PublishingDelivers(b, s, m);
      } else {
        SkippedIsFinal(b, run, t);
        NotTaskLayer(b.tasks, run.tasks, t);
        StillFinal(b, s, t);
      }
    }
    NoPartials(b, s.disk);
  }

  lemma StillFinal(b: Build, s: State, t: Task)
    requires b.segment > 0 && Facts(b, s) && s.proc.Publishing? && s.proc.renamed == |s.proc.run.tasks|
    requires t.layer in s.proc.run.start.finals && s.proc.run.start.partials == map[] && !IsTaskLayer(s.proc.run.tasks, t.layer)
    ensures t.layer in s.disk.finals && t.layer !in s.disk.partials
  {
    var run := s.proc.run;
    assert run.tasks[..s.proc.renamed] == run.tasks;
    assert Lookup(s.disk.finals, t.layer) == Lookup(run.start.finals, t.layer);
    assert Lookup(s.disk.partials, t.layer) == Lookup(run.start.partials, t.layer);
  }

  lemma NoPartials(b: Build, d: Disk)
    requires OwnFiles(b, d) && forall t :: t in b.tasks ==> t.layer !in d.partials
    ensures d.partials == map[]
  {
    assert forall l :: l in d.partials ==> exists t :: t in b.tasks && t.layer == l;
    assert d.partials.Keys == {};
  }

  // ----- safety of whole runs -----

  ghost predicate Steady(b: Build, s: State)
    requires b.segment > 0
  {
    && Inv(b, s)
    && if s.proc.Down? then DiskOk(b, s.disk) else GoodRun(b, s.proc.run)
  }

  lemma StopKeepsDisk(b: Build, s: State)
    requires WfBuild(b) && Steady(b, s) && MayStop(b, s)
    ensures DiskOk(b, s.disk)
  {
    match s.proc
    case Down =>
    case Preparing(_, _, _) => PreparingStops(b, s);
    case Fetching(_, _, _) => FetchingStops(b, s);
    case Publishing(run, renamed) =>
      if renamed == 0 && renamed != |run.tasks| { BeforeFirstRename(b, s); } else { AfterLastRename(b, s); }
  }

  /** Every step keeps the directory finished or resumable, if processes stop only where they may. */
  lemma SteadyStep(b: Build, s: State, a: Action)
    requires WfBuild(b) && Steady(b, s) && Enabled(b, s, a) && Allowed(b, s, a)
    ensures Steady(b, Apply(b, s, a))
  {
    StepInv(b, s, a);
    if Stops(s, a) {
      StopKeepsDisk(b, s);
    } else if a.Finish? {
      AfterLastRename(b, s);
    }
  }

  /** A schedule: every action is enabled where it is taken, and processes stop only where they may. */
  ghost predicate Schedule(b: Build, s: State, acts: seq<Action>)
    requires b.segment > 0
    decreases |acts|
  {
    acts == [] ||
    (Enabled(b, s, acts[0]) && Allowed(b, s, acts[0]) && Schedule(b, Apply(b, s, acts[0]), acts[1..]))
  }

  /** The same without the restriction on stops. */
  ghost predicate Possible(b: Build, s: State, acts: seq<Action>)
    requires b.segment > 0
    decreases |acts|
  {
    acts == [] || (Enabled(b, s, acts[0]) && Possible(b, Apply(b, s, acts[0]), acts[1..]))
  }

  /** Where the actions lead; what is not enabled does not happen. */
  function Exec(b: Build, s: State, acts: seq<Action>): State
    requires b.segment > 0
    decreases |acts|
  {
    if acts == [] || !Enabled(b, s, acts[0]) then s else Exec(b, Apply(b, s, acts[0]), acts[1..])
  }

  /** Whatever has happened, from whatever directory, the invariant holds. */
  lemma {:induction false} InvRun(b: Build, s: State, acts: seq<Action>)
    requires WfBuild(b) && Inv(b, s) && Possible(b, s, acts)
    ensures Inv(b, Exec(b, s, acts))
    decreases |acts|
  {
    if acts != [] {
      StepInv(b, s, acts[0]);
      InvRun(b, Apply(b, s, acts[0]), acts[1..]);
    }
  }

  /**
    After every possible history from any directory: what the process at work has renamed is the promised
    file if and only if what it took on trust from the directory it found was right.
   */
  lemma HistoriesPublishExactly(b: Build, d: Disk, acts: seq<Action>, m: nat)
    requires WfBuild(b) && Possible(b, State(d, Down), acts)
    requires var s := Exec(b, State(d, Down), acts); s.proc.Publishing? && m < s.proc.renamed <= |s.proc.run.tasks|
    ensures var s := Exec(b, State(d, Down), acts);
      var run, t := s.proc.run, s.proc.run.tasks[m];
      && t.layer in s.disk.finals
      && (Delivered(b.source, t, s.disk.finals[t.layer]) <==> Sound(b.source, run.segs, Trusted(run), t, Base(run, t)))
  {
    var s := Exec(b, State(d, Down), acts);
    InvRun(b, State(d, Down), acts);
    assert s.proc.run.tasks[m] in s.proc.run.tasks;
    PublishedExactly(b, s.proc.run, s.proc.run.tasks[m], s.disk.finals[s.proc.run.tasks[m].layer]);
  }

  lemma {:induction false} SteadyRun(b: Build, s: State, acts: seq<Action>)
    requires WfBuild(b) && Steady(b, s) && Schedule(b, s, acts)
    ensures Steady(b, Exec(b, s, acts))
    decreases |acts|
  {
    if acts != [] {
      SteadyStep(b, s, acts[0]);
      SteadyRun(b, Apply(b, s, acts[0]), acts[1..]);
    }
  }

  /** The index names a range that already holds source bytes, in the partial or in the final file. */
  ghost predicate IndexTrue(b: Build, d: Disk, t: Task, g: Segment) {
    if t.layer in d.partials || t.layer !in d.finals
    then SegmentIs(Prepared(t, Lookup(d.partials, t.layer)), b.source, g)
    else SegmentIs(d.finals[t.layer], b.source, g)
  }

  /** Under the plan of `tasks`, every recorded index names a range equal to the source. */
  ghost predicate IndicesTrue(b: Build, d: Disk, tasks: seq<Task>)
    requires b.segment > 0
  {
    var segs := Plan(tasks, b.segment);
    forall t, i :: t in tasks && 0 <= i < |segs| && segs[i].layer == t.layer && i in LoadProgress(d.progress) ==>
      IndexTrue(b, d, t, segs[i])
  }

  /** A restart over recorded indices that has recorded nothing of its own yet. */
  ghost predicate Unrecorded(s: State) {
    match s.proc
    case Preparing(run, _, _) => Stale(run)
    case Fetching(run, done, _) => Stale(run) && done == {}
    case _ => false
  }

  /**
    What a reader of the directory may rely on: published files are the promised ones, and the
    progress file is true under the plan of the process at work, or of the next one.
   */
  ghost predicate Faithful(b: Build, s: State)
    requires b.segment > 0
  {
    && (forall t :: t in b.tasks && t.layer in s.disk.finals ==> Delivered(b.source, t, s.disk.finals[t.layer]))
    && (Unrecorded(s) || IndicesTrue(b, s.disk, if s.proc.Down? then b.tasks else s.proc.run.tasks))
  }

  lemma DeliveredIndex(b: Build, d: Disk, tasks: seq<Task>, t: Task, i: int)
    requires b.segment > 0 && WfTasks(tasks) && t in tasks
    requires 0 <= i < |Plan(tasks, b.segment)| && Plan(tasks, b.segment)[i].layer == t.layer
    requires t.layer in d.partials || t.layer in d.finals
    requires Delivered(b.source, t, if t.layer in d.partials then d.partials[t.layer] else d.finals[t.layer])
    ensures IndexTrue(b, d, t, Plan(tasks, b.segment)[i])
  {
    DeliveredSound(b, tasks, t, if t.layer in d.partials then d.partials[t.layer] else d.finals[t.layer], {i});
  }

  lemma SoundIndex(b: Build, d: Disk, tasks: seq<Task>, t: Task, i: int)
    requires b.segment > 0 && 0 <= i < |Plan(tasks, b.segment)| && Plan(tasks, b.segment)[i].layer == t.layer
    requires i in LoadProgress(d.progress)
    requires Sound(b.source, Plan(tasks, b.segment), LoadProgress(d.progress), t, Prepared(t, Lookup(d.partials, t.layer)))
    requires t.layer in d.partials || t.layer !in d.finals
    ensures IndexTrue(b, d, t, Plan(tasks, b.segment)[i])
  {
  }

  lemma DiskFaithful(b: Build, d: Disk)
    requires WfBuild(b) && DiskOk(b, d)
    ensures Faithful(b, State(d, Down))
  {
    forall t, i | t in b.tasks && 0 <= i < |WholePlan(b)| && WholePlan(b)[i].layer == t.layer && i in LoadProgress(d.progress)
      ensures IndexTrue(b, d, t, WholePlan(b)[i])
    {
      if t.layer !in d.partials && t.layer in d.finals {
        DeliveredIndex(b, d, b.tasks, t, i);
      } else {
        SoundIndex(b, d, b.tasks, t, i);
      }
    }
  }

  lemma PreparingFaithful(b: Build, s: State)
    requires WfBuild(b) && Steady(b, s) && s.proc.Preparing?
    ensures Faithful(b, s)
  {
    var run := s.proc.run;
    RunKind(b, run);
    if !Stale(run) {
      PreparingStops(b, s);
      DiskFaithful(b, s.disk);
    }
  }

  lemma FetchingFaithful(b: Build, s: State)
    requires WfBuild(b) && Steady(b, s) && s.proc.Fetching?
    ensures Faithful(b, s)
  {
    var run := s.proc.run;
    if !Unrecorded(s) {
      forall t, i | t in run.tasks && 0 <= i < |run.segs| && run.segs[i].layer == t.layer && i in LoadProgress(s.disk.progress)
        ensures IndexTrue(b, s.disk, t, run.segs[i])
      {
        FetchingIndices(b, s, t);
        SoundIndex(b, s.disk, run.tasks, t, i);
      }
    }
  }

  lemma PublishingFaithful(b: Build, s: State)
    requires WfBuild(b) && Steady(b, s) && s.proc.Publishing?
    ensures Faithful(b, s)
  {
    var run := s.proc.run;
    PublishingFinals(b, s);
    KeptWf(b, run.start, run.resume);
    forall t, i | t in run.tasks && 0 <= i < |run.segs| && run.segs[i].layer == t.layer && i in LoadProgress(s.disk.progress)
      ensures IndexTrue(b, s.disk, t, run.segs[i])
    {
      var m :| 0 <= m < |run.tasks| && run.tasks[m] == t;
      PublishingDelivers(b, s, m);
      DeliveredIndex(b, s.disk, run.tasks, t, i);
    }
  }

  lemma SteadyFaithful(b: Build, s: State)
    requires WfBuild(b) && Steady(b, s)
    ensures Faithful(b, s)
  {
    match s.proc
    case Down => DiskFaithful(b, s.disk);
    case Preparing(_, _, _) => PreparingFaithful(b, s);
    case Fetching(_, _, _) => FetchingFaithful(b, s);
    case Publishing(_, _) => PublishingFaithful(b, s);
  }

  /**
    Safety of the builder: after any schedule of starts and restarts, interleaved ticks, failures,
    stops and publishes in which processes stop only where they may, every published file is the
    promised file and every index in the progress file names a range already equal to the source.
    All starts are given the same tasks and segment size: the resume-rebuilds-the-plan hypothesis.
   */
  lemma BuildsAreSafe(b: Build, d: Disk, acts: seq<Action>)
    requires WfBuild(b) && DiskOk(b, d) && Schedule(b, State(d, Down), acts)
    ensures Faithful(b, Exec(b, State(d, Down), acts))
  {
    SteadyRun(b, State(d, Down), acts);
    SteadyFaithful(b, Exec(b, State(d, Down), acts));
  }
}
