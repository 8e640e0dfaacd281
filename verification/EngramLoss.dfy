/** Runs outside the hypotheses that do lose data, each from a well-behaved directory. */
module EngramLoss {
  import opened Results
  import opened Bytes
  import opened EngramPlan
  import opened EngramBuild
  import opened EngramSteps
  import opened EngramSafety
  import opened EngramFinish
  import opened EngramWindows

  const EMPTY: Disk := Disk(map[], map[], Missing)

  /** The actions are possible one after the other and lead from `s` to `next`. */
  ghost predicate Leads(b: Build, s: State, acts: seq<Action>, next: State)
    requires b.segment > 0
  {
    Possible(b, s, acts) && Exec(b, s, acts) == next
  }

  lemma LeadsOn(b: Build, s: State, first: seq<Action>, mid: State, second: seq<Action>, next: State)
    requires b.segment > 0 && Leads(b, s, first, mid) && Leads(b, mid, second, next)
    ensures Leads(b, s, first + second, next)
  {
    ExecJoin(b, s, first, second);
  }

  lemma LeadsOne(b: Build, s: State, a: Action)
    requires b.segment > 0 && Enabled(b, s, a)
    ensures Leads(b, s, [a], Apply(b, s, a))
  {
    assert Possible(b, Apply(b, s, a), []) && Exec(b, Apply(b, s, a), []) == Apply(b, s, a);
  }

  /** The process that a start brings up. */
  function Started(b: Build, d: Disk, resume: bool): State
    requires b.segment > 0
  {
    ApplyStart(b, State(d, Down), resume)
  }

  /** From a directory, a start and then onward steps to a point of that process. */
  lemma StartGoesTo(b: Build, d: Disk, resume: bool, goal: Goal) returns (acts: seq<Action>, s: State)
    requires WfBuild(b) && AllAvailable(b) && Kept(b, d, resume) != []
    requires goal.Renames? ==> goal.n <= |Kept(b, d, resume)|
    ensures Leads(b, State(d, Down), acts, s)
    ensures Inv(b, s) && At(s, goal) && s.proc.run == Started(b, d, resume).proc.run
    ensures s.proc.run.start == d && s.proc.run.resume == resume
  {
    var s0 := Started(b, d, resume);
    StepInv(b, State(d, Down), Start(resume));
    var rest := GoesTo(b, s0, goal);
    s := Exec(b, s0, rest);
    LeadsOne(b, State(d, Down), Start(resume));
    LeadsOn(b, State(d, Down), [Start(resume)], s0, rest, s);
    acts := [Start(resume)] + rest;
  }

  /** Every directory in which a resume has something to do leads to a completed resume. */
  lemma ResumeCompletes(b: Build, d: Disk) returns (acts: seq<Action>, last: State)
    requires WfBuild(b) && AllAvailable(b) && Kept(b, d, true) != []
    ensures ResumedTo(b, d, last) && Leads(b, State(d, Down), acts, State(last.disk.(progress := Missing), Down))
  {
    var most;
    most, last := StartGoesTo(b, d, true, Renames(|Kept(b, d, true)|));
    LeadsOne(b, last, Finish);
    LeadsOn(b, State(d, Down), most, last, [Finish], State(last.disk.(progress := Missing), Down));
    acts := most + [Finish];
  }

  /** A process is stopped, and a resume of the same build completes. */
  lemma StopAndResume(b: Build, s: State) returns (acts: seq<Action>, last: State)
    requires WfBuild(b) && AllAvailable(b) && !s.proc.Down? && Kept(b, s.disk, true) != []
    ensures ResumedTo(b, s.disk, last) && Leads(b, s, acts, State(last.disk.(progress := Missing), Down))
  {
    var rest;
    rest, last := ResumeCompletes(b, s.disk);
    LeadsOne(b, s, Crash);
    LeadsOn(b, s, [Crash], State(s.disk, Down), rest, State(last.disk.(progress := Missing), Down));
    acts := [Crash] + rest;
  }

  /** The actions end with `t` published, and not as promised. */
  ghost predicate Loses(b: Build, d: Disk, acts: seq<Action>, t: Task)
    requires b.segment > 0
  {
    var end := Exec(b, State(d, Down), acts);
    && Possible(b, State(d, Down), acts) && end.proc.Down?
    && t.layer in end.disk.finals && !Delivered(b.source, t, end.disk.finals[t.layer])
  }

  /** Segment `i` of the whole plan belongs to `t` and is not all zeros. */
  ghost predicate HasData(b: Build, t: Task, i: int)
    requires b.segment > 0
  {
    0 <= i < |WholePlan(b)| && WholePlan(b)[i].layer == t.layer && !ZeroRange(b.source, WholePlan(b)[i])
  }

  lemma EmptyIsSteady(b: Build)
    requires WfBuild(b)
    ensures Steady(b, State(EMPTY, Down)) && Kept(b, EMPTY, true) == b.tasks
  {
    PublishedOnlyOk(b, map[]);
    ResumePlansAll(b.json, EMPTY, b.tasks);
  }

  /** From the empty directory: build, stop after the first of several renames, resume. */
  lemma CrashLosesLayer(b: Build, i: int) returns (acts: seq<Action>)
    requires WfBuild(b) && AllAvailable(b) && |b.tasks| > 1 && HasData(b, b.tasks[0], i)
    ensures Loses(b, EMPTY, acts, b.tasks[0])
  {
    EmptyIsSteady(b);
    var first, s := StartGoesTo(b, EMPTY, true, Renames(1));
    ResumePlansAll(b.json, s.disk, b.tasks) by {
      assert s.proc.run.tasks[1].layer in s.disk.partials;
    }
    var rest, last := StopAndResume(b, s);
    CrashBetweenRenames(b, s, last, 0);
    LeadsOn(b, State(EMPTY, Down), first, s, rest, State(last.disk.(progress := Missing), Down));
    assert b.tasks[0] in last.proc.run.tasks by { StrayPartialPlansAll(b, s.disk, last); }
    RenamedAre(b, last, b.tasks[0]);
    acts := first + rest;
  }

  /** From the empty directory: build, stop before the first rename, restart, stop, resume. */
  lemma RestartLosesLayer(b: Build, i: int) returns (acts: seq<Action>)
    requires WfBuild(b) && AllAvailable(b) && b.tasks != [] && HasData(b, b.tasks[0], i)
    ensures Loses(b, EMPTY, acts, b.tasks[0])
  {
    EmptyIsSteady(b);
    var first, d := BuiltAndStopped(b, i);
    var again, r := StartGoesTo(b, d, false, AllPrepared);
    LeadsOn(b, State(EMPTY, Down), first, State(d, Down), again, r);
    assert Lookup(r.disk.partials, r.proc.run.tasks[0].layer) == Some(Base(r.proc.run, r.proc.run.tasks[0]));
    ResumePlansAll(b.json, r.disk, b.tasks);
    var rest, last := StopAndResume(b, r);
    LeadsOn(b, State(EMPTY, Down), first + again, r, rest, State(last.disk.(progress := Missing), Down));
    NoResumeStoppedPreparing(b, r, last, 0);
    acts := first + again + rest;
  }

  /** From the empty directory: every segment is recorded, and the process stops before it renames. */
  lemma BuiltAndStopped(b: Build, i: int) returns (acts: seq<Action>, d: Disk)
    requires WfBuild(b) && AllAvailable(b) && b.tasks != [] && 0 <= i < |WholePlan(b)|
    ensures Leads(b, State(EMPTY, Down), acts, State(d, Down)) && i in LoadProgress(d.progress)
  {
    EmptyIsSteady(b);
    var first, s := StartGoesTo(b, EMPTY, true, Renames(0));
    LeadsOne(b, s, Crash);
    LeadsOn(b, State(EMPTY, Down), first, s, [Crash], State(s.disk, Down));
    acts, d := first + [Crash], s.disk;
  }

  /** Only the first layer of `b` is published, and nothing else is there. */
  function FirstPublished(b: Build): Disk
    requires b.tasks != []
  {
    Disk(map[b.tasks[0].layer := Expected(b.source, b.tasks[0])], map[], Missing)
  }

  /** A resume skips exactly that layer. */
  lemma FirstSkipped(b: Build)
    requires WfBuild(b) && AllAvailable(b) && b.tasks != []
    ensures Resumable(b, FirstPublished(b))
    ensures forall t :: t in Kept(b, FirstPublished(b), true) <==> t in b.tasks && t != b.tasks[0]
  {
    var d, t0 := FirstPublished(b), b.tasks[0];
    PublishedOnlyOk(b, d.finals);
    KeptTasks(b.json, d, b.tasks);
    forall t | t in b.tasks
      ensures CheckOutput(b.json, d, t.layer) <==> t == t0
    {
      FirstPasses(b, t);
    }
  }

  lemma FirstPasses(b: Build, t: Task)
    requires WfBuild(b) && AllAvailable(b) && b.tasks != [] && t in b.tasks
    ensures CheckOutput(b.json, FirstPublished(b), t.layer) <==> t == b.tasks[0]
  {
    var d, t0 := FirstPublished(b), b.tasks[0];
    DeliveredSize(b.source, t0, Expected(b.source, t0));
    ExpectedPasses(b.json, b.source, t0, t.layer);
    assert d.finals.Keys == {t0.layer};
  }

  /** One layer is published already: build the others, stop before the first rename, resume. */
  lemma ShiftLosesLayer(b: Build) returns (acts: seq<Action>)
    requires WfBuild(b) && AllAvailable(b) && |b.tasks| > 1 && HasData(b, b.tasks[0], 0)
    requires FileSegments(b.tasks[1].layer, b.tasks[1].regions, b.segment) != []
    ensures Resumable(b, FirstPublished(b)) && Loses(b, FirstPublished(b), acts, b.tasks[0])
  {
    var d, t0 := FirstPublished(b), b.tasks[0];
    FirstSkipped(b);
    assert b.tasks[1] in Kept(b, d, true);
    var first, s := StartGoesTo(b, d, true, Renames(0));
    ZeroIsRecorded(b, s, b.tasks[1]);
    ResumePlansAll(b.json, s.disk, b.tasks);
    var rest, last := StopAndResume(b, s);
    LeadsOn(b, State(d, Down), first, s, rest, State(last.disk.(progress := Missing), Down));
    PublishedLayerShiftsNumbering(b, s, last, t0);
    acts := first + rest;
  }

  /** Before the first rename every index is recorded, the first one included, and every planned layer has its partial. */
  lemma ZeroIsRecorded(b: Build, s: State, t: Task)
    requires b.segment > 0 && Inv(b, s) && s.proc.Publishing? && s.proc.renamed == 0 && t in s.proc.run.tasks
    requires FileSegments(t.layer, t.regions, b.segment) != []
    ensures 0 in LoadProgress(s.disk.progress) && s.disk.partials != map[]
  {
    PlanHasFile(s.proc.run.tasks, b.segment, t, FileSegments(t.layer, t.regions, b.segment)[0]);
    assert |s.proc.run.segs| > 0;
    assert s.proc.run.tasks[0].layer in s.disk.partials;
  }

  // ----- another segment size -----

  /** What the next step of worker `i` does: it leads towards its record, which takes it out. */
  ghost predicate Moved(segs: seq<Segment>, p: Proc, next: Proc, i: nat)
    requires p.Fetching? && i < |segs| && i in p.workers
  {
    && next.Fetching? && next.run == p.run
    && if p.workers[i].Copied? then next.done == p.done + {i} && next.workers == p.workers - {i}
       else
         && next.done == p.done && i in next.workers && next.workers - {i} == p.workers - {i}
         && !next.workers[i].Failed? && WorkOf(segs, next.workers, i) < WorkOf(segs, p.workers, i)
  }

  lemma OneMove(b: Build, s: State, i: nat)
    requires b.segment > 0 && s.proc.Fetching? && i < |s.proc.run.segs| && i in s.proc.workers && !s.proc.workers[i].Failed?
    requires var g := s.proc.run.segs[i];
      Written(s.proc.workers[i], g.len) <= g.len && g.srcOff + g.len <= |Shard(b.source, g.shard)|
    ensures var a := NextOf(s.proc.run.segs, i, s.proc.workers[i]);
      Enabled(b, s, a) && Moved(s.proc.run.segs, s.proc, Apply(b, s, a).proc, i)
  {
  }

  lemma OneStep(b: Build, s: State, i: nat) returns (a: Action)
    requires WfBuild(b) && AllAvailable(b) && Inv(b, s) && s.proc.Fetching? && i < |s.proc.run.segs| && i in s.proc.workers
    requires !s.proc.workers[i].Failed?
    ensures Enabled(b, s, a) && Inv(b, Apply(b, s, a)) && Moved(s.proc.run.segs, s.proc, Apply(b, s, a).proc, i)
  {
    var run := s.proc.run;
    a := NextOf(run.segs, i, s.proc.workers[i]);
    assert Enabled(b, s, a) && Moved(run.segs, s.proc, Apply(b, s, a).proc, i) by {
      KeptWf(b, run.start, run.resume);
      SegmentInShard(b, run.tasks, i);
      assert WorkersOk(run.segs, s.proc.done, s.proc.workers);
      OneMove(b, s, i);
    }
    StepInv(b, s, a);
  }

  /** One worker runs to its record while the others wait. */
  lemma {:induction false} RecordsOne(b: Build, s: State, i: nat) returns (acts: seq<Action>, next: State)
    requires WfBuild(b) && AllAvailable(b) && Inv(b, s) && s.proc.Fetching? && i < |s.proc.run.segs| && i in s.proc.workers
    requires !s.proc.workers[i].Failed?
    ensures Leads(b, s, acts, next) && Inv(b, next)
    ensures next.proc == Fetching(s.proc.run, s.proc.done + {i}, s.proc.workers - {i})
    decreases WorkOf(s.proc.run.segs, s.proc.workers, i)
  {
    var a := OneStep(b, s, i);
    var mid := Apply(b, s, a);
    LeadsOne(b, s, a);
    if s.proc.workers[i].Copied? {
      acts, next := [a], mid;
    } else {
      var rest;
      rest, next := RecordsOne(b, mid, i);
      LeadsOn(b, s, [a], mid, rest, next);
      acts := [a] + rest;
    }
  }

  /** The first segment of a plan is the front of the first plane. */
  lemma FirstSegment(b: Build)
    requires b.segment > 0 && b.tasks != [] && b.tasks[0].regions != [] && b.tasks[0].regions[0].len > 0
    ensures var r := b.tasks[0].regions[0];
      && |WholePlan(b)| > 0
      && WholePlan(b)[0] == Segment(b.tasks[0].layer, r.shard, r.srcOff, r.dstOff, Min(b.segment, r.len))
  {
  }

  /** The first segment is recorded and all others wait. */
  ghost predicate OneRecorded(b: Build, s: State)
    requires b.segment > 0
  {
    && Inv(b, s) && s.proc.Fetching? && s.proc.run.start == EMPTY && s.proc.run.resume
    && s.proc.run.tasks == b.tasks && s.proc.run.segs == WholePlan(b)
    && s.disk.progress == Recorded({0})
    && forall j :: 1 <= j < |WholePlan(b)| ==> j in s.proc.workers && s.proc.workers[j].Queued?
  }

  lemma Loaded(b: Build) returns (acts: seq<Action>, f: State)
    requires WfBuild(b) && AllAvailable(b) && b.tasks != []
    ensures Leads(b, State(EMPTY, Down), acts, f) && Inv(b, f) && f.proc.Fetching?
    ensures f.proc.run.start == EMPTY && f.proc.run.resume && f.proc.run.tasks == b.tasks && f.proc.run.segs == WholePlan(b)
    ensures f.proc.done == {} && forall j :: 0 <= j < |WholePlan(b)| ==> j in f.proc.workers && f.proc.workers[j].Queued?
  {
    EmptyIsSteady(b);
    var ready, p := StartGoesTo(b, EMPTY, true, AllPrepared);
    f := Apply(b, p, Load);
    StepInv(b, p, Load);
    LeadsOne(b, p, Load);
    LeadsOn(b, State(EMPTY, Down), ready, p, [Load], f);
    acts := ready + [Load];
  }

  /** From the empty directory: the first segment is recorded, the others wait, and the process stops. */
  lemma FirstRecorded(b: Build) returns (acts: seq<Action>, s: State)
    requires WfBuild(b) && AllAvailable(b) && b.tasks != [] && |WholePlan(b)| > 0
    ensures Leads(b, State(EMPTY, Down), acts, State(s.disk, Down)) && OneRecorded(b, s)
  {
    var load, f := Loaded(b);
    var one;
    one, s := RecordsOne(b, f, 0);
    LeadsOn(b, State(EMPTY, Down), load, f, one, s);
    LeadsOne(b, s, Crash);
    LeadsOn(b, State(EMPTY, Down), load + one, s, [Crash], State(s.disk, Down));
    RecordedOne(b, s);
    acts := load + one + [Crash];
  }

  lemma RecordedOne(b: Build, s: State)
    requires b.segment > 0 && Inv(b, s) && s.proc.Fetching? && s.proc.run.start == EMPTY && s.proc.done == {0}
    ensures s.disk.progress == Recorded({0})
  {
    assert 0 !in Trusted(s.proc.run);
  }

  /** A byte of a segment that still waits is zero. */
  lemma WaitingByte(b: Build, s: State, t: Task, j: nat, x: nat)
    requires WfBuild(b) && OneRecorded(b, s) && t in b.tasks && 1 <= j < |WholePlan(b)|
    requires var g := WholePlan(b)[j]; g.layer == t.layer && g.dstOff <= x < g.dstOff + g.len
    ensures t.layer in s.disk.partials && x < |s.disk.partials[t.layer]| && s.disk.partials[t.layer][x] == 0
  {
    var run, g := s.proc.run, WholePlan(b)[j];
    RunShaped(b, run);
    assert Inside(run.segs, t);
    FreshZero(t, g);
    assert TaskState(b, s.disk, run.segs, {}, Base(run, t), s.proc.done, s.proc.workers, t);
    assert SegmentState(b.source, {}, Base(run, t), s.disk.partials[t.layer], g, j, Arrived(s.proc.done, s.proc.workers, j, g.len));
  }

  /** A byte of the first plane past the first segment lies in another segment. */
  lemma LaterSegment(b: Build, k: nat) returns (j: nat)
    requires WfBuild(b) && b.tasks != [] && b.tasks[0].regions != []
    requires Min(b.segment, b.tasks[0].regions[0].len) <= k < b.tasks[0].regions[0].len
    ensures 1 <= j < |WholePlan(b)|
    ensures var g, t := WholePlan(b)[j], b.tasks[0];
      g.layer == t.layer && g.dstOff <= t.regions[0].dstOff + k < g.dstOff + g.len
  {
    var t := b.tasks[0];
    assert t in b.tasks;
    FirstSegment(b);
    FileTiles(t.layer, t.regions[1..], 1, |t.header| + t.regions[0].len, t.total);
    TilesRise(FileSegments(t.layer, t.regions[1..], 1), t.layer, 1, |t.header| + t.regions[0].len, t.total);
    j := PlanTiles(b.tasks, b.segment, t, t.regions[0].dstOff + k);
  }

  /**
    From the empty directory: record the first segment, stop, and resume with a larger segment size.
    The recorded index now claims more than was fetched: a nonzero byte there is published as zero.
   */
  lemma SegmentSizeLosesLayer(b: Build, larger: nat, k: nat) returns (acts: seq<Action>, more: seq<Action>)
    requires WfBuild(b) && AllAvailable(b) && b.tasks != [] && b.tasks[0].regions != []
    requires var r := b.tasks[0].regions[0];
      && Min(b.segment, r.len) <= k < Min(larger, r.len)
      && r.srcOff + k < |Shard(b.source, r.shard)| && Shard(b.source, r.shard)[r.srcOff + k] != 0
    ensures Possible(b, State(EMPTY, Down), acts) && Exec(b, State(EMPTY, Down), acts).proc.Down?
    ensures Loses(b.(segment := larger), Exec(b, State(EMPTY, Down), acts).disk, more, b.tasks[0])
  {
    var b', t := b.(segment := larger), b.tasks[0];
    FirstSegment(b);
    var s;
    acts, s := FirstRecorded(b);
    ByteWaits(b, s, t, k);
    NotRight(b', s.disk, t, k);
    ResumePlansAll(b.json, s.disk, b.tasks);
    var last;
    more, last := ResumeCompletes(b', s.disk);
    StrayPartialPlansAll(b', s.disk, last);
    ResumeLoses(b', s.disk, more, last, t);
  }

  lemma ResumeLoses(b: Build, d: Disk, acts: seq<Action>, last: State, t: Task)
    requires WfBuild(b) && ResumedTo(b, d, last) && t in last.proc.run.tasks && !RecordedRight(b, d, last.proc.run.segs, t)
    requires Leads(b, State(d, Down), acts, State(last.disk.(progress := Missing), Down))
    ensures Loses(b, d, acts, t)
  {
    ResumedExactly(b, d, last, t);
  }

  /** With one segment recorded, a byte past it in the first plane is still zero. */
  lemma ByteWaits(b: Build, s: State, t: Task, k: nat)
    requires WfBuild(b) && OneRecorded(b, s) && b.tasks != [] && t == b.tasks[0] && t.regions != []
    requires Min(b.segment, t.regions[0].len) <= k < t.regions[0].len
    ensures t.layer in s.disk.partials && Prepared(t, Lookup(s.disk.partials, t.layer)) == s.disk.partials[t.layer]
    ensures t.regions[0].dstOff + k < |s.disk.partials[t.layer]| && s.disk.partials[t.layer][t.regions[0].dstOff + k] == 0
    ensures s.disk.progress == Recorded({0})
  {
    assert t in b.tasks;
    var j := LaterSegment(b, k);
    WaitingByte(b, s, t, j, t.regions[0].dstOff + k);
    InterruptedFile(b, s, t);
  }

  /** Index 0, read under a plan whose first segment reaches byte `k`, does not name source bytes. */
  lemma NotRight(b: Build, d: Disk, t: Task, k: nat)
    requires b.segment > 0 && b.tasks != [] && t == b.tasks[0] && t.regions != [] && d.progress == Recorded({0})
    requires var r := t.regions[0];
      && k < Min(b.segment, r.len) && r.srcOff + k < |Shard(b.source, r.shard)| && Shard(b.source, r.shard)[r.srcOff + k] != 0
      && t.layer in d.partials && Prepared(t, Lookup(d.partials, t.layer)) == d.partials[t.layer]
      && r.dstOff + k < |d.partials[t.layer]| && d.partials[t.layer][r.dstOff + k] == 0
    ensures !RecordedRight(b, d, WholePlan(b), t)
  {
    FirstSegment(b);
    assert !SegmentIs(d.partials[t.layer], b.source, WholePlan(b)[0]);
  }

  // ----- one build that loses data in each of these ways -----

  /** Layer `l` with one row: its header, and planes of 256 and 8 bytes from the front of two shards. */
  function OneRow(l: byte): Task {
    var header := PackLE(1, 8) + [l];
    Task(l, header, |header| + 264, [Region("weights", 0, |header|, 256), Region("scales", 0, |header| + 256, 8)])
  }

  function OneRowDoc(l: int): Doc {
    map[Weight(l) := Entry("F8_E4M3", [1, 256], 0, 256), Scale(l) := Entry("F8_E8M0", [1, 8], 256, 264)]
  }

  /** Layers 1 and 14 with one row of ones each, cut into segments of 100 bytes. */
  function SmallBuild(): Build {
    Build(Json((d: Doc) => [1], (text: seq<byte>) => if text == [] then None else Some(OneRowDoc(text[0]))),
          map["weights" := seq(256, _ => 1), "scales" := seq(8, _ => 1)],
          [OneRow(1), OneRow(14)], 100)
  }

  lemma OneRowWf(l: byte)
    ensures WfTask(OneRow(l)) && Announces(SmallBuild().json, OneRow(l)) && Available(SmallBuild().source, OneRow(l).regions)
    ensures |OneRow(l).header| == 9
  {
    var t := OneRow(l);
    assert Pow256(8) > 1;
    UnpackPack(1, 8);
    assert t.header[..8] == PackLE(1, 8) && t.header[8..] == [l];
    assert t.regions[1..][1..] == [];
    assert RowBytes([256][1..]) == 1;
    assert RegionChain(t.regions[1..], 265, 273);
    assert RowBytes([1, 256][1..]) == 256 && RowBytes([1, 8][1..]) == 8;
  }

  lemma SmallBuildWf()
    ensures WfBuild(SmallBuild()) && AllAvailable(SmallBuild())
    ensures HasData(SmallBuild(), SmallBuild().tasks[0], 0)
  {
    var b := SmallBuild();
    OneRowWf(1);
    OneRowWf(14);
    TwoTasksWf(b, OneRow(1), OneRow(14));
    FirstSegment(b);
    FirstNotZero(b, WholePlan(b)[0]);
  }

  lemma TwoTasksWf(b: Build, t: Task, u: Task)
    requires b.segment > 0 && b.tasks == [t, u] && t.layer != u.layer
    requires WfTask(t) && WfTask(u) && Announces(b.json, t) && Announces(b.json, u)
    requires Available(b.source, t.regions) && Available(b.source, u.regions)
    ensures WfBuild(b) && AllAvailable(b)
  {
  }

  lemma FirstNotZero(b: Build, g: Segment)
    requires g.len > 0 && g.srcOff < |Shard(b.source, g.shard)| && Shard(b.source, g.shard)[g.srcOff] != 0
    ensures !ZeroRange(b.source, g)
  {
  }

  /** The small build publishes a wrong layer 1 after each of the four excluded histories. */
  lemma SmallBuildLoses() returns (crash: seq<Action>, restart: seq<Action>, shift: seq<Action>, resize: seq<Action>, more: seq<Action>)
    ensures var b := SmallBuild();
      && WfBuild(b) && AllAvailable(b)
      && Loses(b, EMPTY, crash, OneRow(1))
      && Loses(b, EMPTY, restart, OneRow(1))
      && Loses(b, FirstPublished(b), shift, OneRow(1))
      && Possible(b, State(EMPTY, Down), resize)
      && Loses(b.(segment := 200), Exec(b, State(EMPTY, Down), resize).disk, more, OneRow(1))
  {
    var b := SmallBuild();
    SmallBuildWf();
    crash := CrashLosesLayer(b, 0);
    restart := RestartLosesLayer(b, 0);
    assert RegionSegments(14, OneRow(14).regions[0], 100) != [];
    shift := ShiftLosesLayer(b);
    assert Shard(b.source, "weights")[100] == 1;
    resize, more := SegmentSizeLosesLayer(b, 200, 100);
  }
}
