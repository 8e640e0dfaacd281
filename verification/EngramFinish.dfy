/**
  Recovery: whatever has happened, a build can still be completed, and after an allowed history
  it can be completed by resuming.
 */
module EngramFinish {
  import opened Bytes
  import opened EngramPlan
  import opened EngramBuild
  import opened EngramSteps
  import opened EngramSafety

  /** The checkpoint holds every plane that its headers declare. */
  ghost predicate AllAvailable(b: Build) {
    forall t :: t in b.tasks ==> Available(b.source, t.regions)
  }

  ghost predicate NoneFailed(s: State) {
    s.proc.Fetching? ==> forall i :: i in s.proc.workers ==> !s.proc.workers[i].Failed?
  }

  // ----- work left -----

  function WorkOf(segs: seq<Segment>, workers: map<int, Worker>, i: nat): nat
    requires i < |segs|
  {
    if i !in workers then 0
    else match workers[i]
      case Queued => segs[i].len + 3
      case Copying(pos) => if pos <= segs[i].len then segs[i].len - pos + 2 else 2
      case _ => 1
  }

  function WorkSum(segs: seq<Segment>, workers: map<int, Worker>, m: nat): nat
    requires m <= |segs|
  {
    if m == 0 then 0 else WorkSum(segs, workers, m - 1) + WorkOf(segs, workers, m - 1)
  }

  lemma {:induction false} WorkShrinks(segs: seq<Segment>, before: map<int, Worker>, after: map<int, Worker>, i: nat, m: nat)
    requires m <= |segs| && i < |segs|
    requires forall j :: 0 <= j < |segs| && j != i ==> WorkOf(segs, after, j) == WorkOf(segs, before, j)
    requires WorkOf(segs, after, i) < WorkOf(segs, before, i)
    ensures m <= i ==> WorkSum(segs, after, m) == WorkSum(segs, before, m)
    ensures i < m ==> WorkSum(segs, after, m) < WorkSum(segs, before, m)
  {
    if m > 0 {
      WorkShrinks(segs, before, after, i, m - 1);
    }
  }

  function StagesLeft(stage: Stage): nat {
    match stage case Discard => 4 case Create => 3 case Size => 2 case Header => 1
  }

  ghost function Phase(s: State): nat {
    match s.proc
    case Down => 0
    case Preparing(_, _, _) => 3
    case Fetching(_, _, _) => 2
    case Publishing(_, _) => 1
  }

  ghost function WorkLeft(s: State): nat {
    match s.proc
    case Down => 0
    case Preparing(run, k, stage) => if k < |run.tasks| then 4 * (|run.tasks| - k - 1) + StagesLeft(stage) else 0
    case Fetching(run, done, workers) => WorkSum(run.segs, workers, |run.segs|)
    case Publishing(run, renamed) => if renamed <= |run.tasks| then |run.tasks| - renamed else 0
  }

  ghost predicate Shorter(s: State, next: State) {
    Phase(next) < Phase(s) || (Phase(next) == Phase(s) && WorkLeft(next) < WorkLeft(s))
  }

  /** A step of the process at work that neither gives up nor fails a segment. */
  ghost predicate Onward(s: State, a: Action) {
    !s.proc.Down? && !a.Start? && !a.Fail? && !a.Finish? && !Stops(s, a)
  }

  // ----- every tick finds its source bytes -----

  lemma {:induction false} RegionInShard(source: map<string, seq<byte>>, layer: int, r: Region, segment: nat, g: Segment)
    requires segment > 0 && InShard(source, r.shard, r.srcOff, r.len) && g in RegionSegments(layer, r, segment)
    ensures g.srcOff + g.len <= |Shard(source, g.shard)|
    decreases r.len
  {
    if r.len > 0 {
      var n := Min(segment, r.len);
      if g in RegionSegments(layer, Advance(r, n), segment) {
        RegionInShard(source, layer, Advance(r, n), segment, g);
      }
    }
  }

  lemma {:induction false} FileInShard(source: map<string, seq<byte>>, layer: int, regions: seq<Region>, segment: nat, g: Segment)
    requires segment > 0 && Available(source, regions) && g in FileSegments(layer, regions, segment)
    ensures g.srcOff + g.len <= |Shard(source, g.shard)|
  {
    if g in RegionSegments(layer, regions[0], segment) {
      RegionInShard(source, layer, regions[0], segment, g);
    } else {
      FileInShard(source, layer, regions[1..], segment, g);
    }
  }

  lemma SegmentInShard(b: Build, tasks: seq<Task>, i: nat)
    requires WfBuild(b) && AllAvailable(b) && WfTasks(tasks) && (forall t :: t in tasks ==> t in b.tasks)
    requires i < |Plan(tasks, b.segment)|
    ensures Plan(tasks, b.segment)[i].srcOff + Plan(tasks, b.segment)[i].len <= |Shard(b.source, Plan(tasks, b.segment)[i].shard)|
  {
    var t := PlanBounds(tasks, b.segment, i);
    FileInShard(b.source, t.layer, t.regions, b.segment, Plan(tasks, b.segment)[i]);
  }

  // ----- one step towards the end -----

  function NextOf(segs: seq<Segment>, i: nat, w: Worker): Action
    requires i < |segs|
  {
    match w
    case Queued => Begin(i)
    case Copying(pos) => if pos < segs[i].len then Tick(i, Min(TICK, segs[i].len - pos)) else Complete(i)
    case _ => Record(i)
  }

  lemma WorkerMoves(segs: seq<Segment>, workers: map<int, Worker>, i: nat, w: Worker)
    requires i < |segs| && i in workers && WorkOf(segs, map[i as int := w], i) < WorkOf(segs, workers, i)
    ensures WorkSum(segs, workers[i := w], |segs|) < WorkSum(segs, workers, |segs|)
  {
    WorkShrinks(segs, workers, workers[i := w], i, |segs|);
  }

  lemma WorkerLeaves(segs: seq<Segment>, workers: map<int, Worker>, i: nat)
    requires i < |segs| && i in workers
    ensures WorkSum(segs, workers - {i}, |segs|) < WorkSum(segs, workers, |segs|)
  {
    WorkShrinks(segs, workers, workers - {i}, i, |segs|);
  }

  /** What the worker does next is enabled, and leaves less work. */
  lemma WorkerStep(b: Build, s: State, i: nat)
    requires b.segment > 0 && s.proc.Fetching? && i < |s.proc.run.segs| && i in s.proc.workers
    requires !s.proc.workers[i].Failed?
    requires s.proc.workers[i].Copying? ==> s.proc.workers[i].pos <= s.proc.run.segs[i].len
    requires var g := s.proc.run.segs[i]; g.srcOff + g.len <= |Shard(b.source, g.shard)|
    ensures var a := NextOf(s.proc.run.segs, i, s.proc.workers[i]);
            Enabled(b, s, a) && Onward(s, a) && Apply(b, s, a).proc.Fetching? && Apply(b, s, a).proc.run == s.proc.run
            && WorkLeft(Apply(b, s, a)) < WorkLeft(s)
            && forall j :: j in Apply(b, s, a).proc.workers ==>
                             j in s.proc.workers && (j == i ==> !Apply(b, s, a).proc.workers[j].Failed?)
                             && (j != i ==> Apply(b, s, a).proc.workers[j] == s.proc.workers[j])
  {
    var segs, workers := s.proc.run.segs, s.proc.workers;
    match workers[i]
    case Queued => WorkerMoves(segs, workers, i, Copying(0));
    case Copying(pos) =>
      if pos < segs[i].len {
        WorkerMoves(segs, workers, i, Copying(pos + Min(TICK, segs[i].len - pos)));
      } else {
        WorkerMoves(segs, workers, i, Copied);
      }
    case Copied => WorkerLeaves(segs, workers, i);
  }

  /** `s` leads to `next` in one onward step of the same process, which leaves less to do. */
  ghost predicate Progresses(b: Build, s: State, a: Action, next: State)
    requires b.segment > 0
  {
    && Enabled(b, s, a) && Onward(s, a) && next == Apply(b, s, a)
    && !next.proc.Down? && next.proc.run == s.proc.run && NoneFailed(next) && Shorter(s, next)
  }

  lemma WorkerAdvances(b: Build, s: State, i: nat) returns (a: Action)
    requires WfBuild(b) && AllAvailable(b) && Inv(b, s) && NoneFailed(s) && s.proc.Fetching?
    requires i < |s.proc.run.segs| && i in s.proc.workers
    ensures Enabled(b, s, a) && Progresses(b, s, a, Apply(b, s, a))
  {
    var run := s.proc.run;
    KeptWf(b, run.start, run.resume);
    SegmentInShard(b, run.tasks, i);
    assert WorkersOk(run.segs, s.proc.done, s.proc.workers);
    WorkerStep(b, s, i);
    a := NextOf(run.segs, i, s.proc.workers[i]);
  }

  lemma SettleAdvances(b: Build, s: State)
    requires b.segment > 0 && Inv(b, s) && s.proc.Fetching? && s.proc.workers == map[]
    ensures Enabled(b, s, Settle) && Progresses(b, s, Settle, Apply(b, s, Settle))
  {
    var run := s.proc.run;
    forall t | t in run.tasks
      ensures |Contents(s.disk.partials, t.layer)| == t.total
    {
      assert TaskState(b, s.disk, run.segs, Trusted(run), Base(run, t), s.proc.done, s.proc.workers, t);
    }
  }

  lemma FetchAdvances(b: Build, s: State) returns (a: Action)
    requires WfBuild(b) && AllAvailable(b) && Inv(b, s) && NoneFailed(s) && s.proc.Fetching?
    ensures Enabled(b, s, a) && Progresses(b, s, a, Apply(b, s, a))
  {
    if s.proc.workers.Keys == {} {
      assert s.proc.workers == map[];
      SettleAdvances(b, s);
      a := Settle;
    } else {
      var i := SomeOf(s.proc.workers.Keys);
      assert WorkersOk(s.proc.run.segs, s.proc.done, s.proc.workers);
      a := WorkerAdvances(b, s, i);
    }
  }

  lemma PrepareStep(b: Build, s: State)
    requires b.segment > 0 && s.proc.Preparing? && s.proc.k < |s.proc.run.tasks|
    requires s.proc.stage == Discard ==> !s.proc.run.resume
    ensures Apply(b, s, Prepare).proc.Preparing? && WorkLeft(Apply(b, s, Prepare)) < WorkLeft(s)
  {
  }

  lemma PrepareAdvances(b: Build, s: State) returns (a: Action)
    requires WfBuild(b) && Inv(b, s) && s.proc.Preparing?
    ensures Enabled(b, s, a) && Progresses(b, s, a, Apply(b, s, a))
  {
    assert PreparingState(s.disk, s.proc.run, s.proc.k, s.proc.stage);
    if s.proc.k < |s.proc.run.tasks| {
      PrepareStep(b, s);
      a := Prepare;
    } else {
      a := Load;
    }
  }

  /** A point of one process: every file prepared, or `n` of them renamed. */
  datatype Goal = AllPrepared | Renames(n: nat)

  ghost predicate At(s: State, goal: Goal) {
    match goal
    case AllPrepared => s.proc.Preparing? && s.proc.k == |s.proc.run.tasks|
    case Renames(n) => s.proc.Publishing? && s.proc.renamed == n
  }

  /** The process has not gone past the goal. */
  ghost predicate Ahead(s: State, goal: Goal) {
    match goal
    case AllPrepared => s.proc.Preparing?
    case Renames(n) => !s.proc.Down? && n <= |s.proc.run.tasks| && (s.proc.Publishing? ==> s.proc.renamed <= n)
  }

  /** Every file of the process at work is renamed. */
  ghost predicate AllRenamed(s: State) {
    s.proc.Publishing? && s.proc.renamed == |s.proc.run.tasks|
  }

  lemma ProcessAdvances(b: Build, s: State, goal: Goal) returns (a: Action)
    requires WfBuild(b) && AllAvailable(b) && Inv(b, s) && NoneFailed(s) && Ahead(s, goal) && !At(s, goal)
    ensures Enabled(b, s, a) && Progresses(b, s, a, Apply(b, s, a)) && Ahead(Apply(b, s, a), goal)
  {
    match s.proc
    case Preparing(_, _, _) => a := PrepareAdvances(b, s);
    case Fetching(_, _, _) => a := FetchAdvances(b, s);
    case Publishing(_, _) => a := Rename;
  }

  // ----- the rest of one process -----

  /** Onward steps only. */
  ghost predicate Straight(b: Build, s: State, acts: seq<Action>)
    requires b.segment > 0
    decreases |acts|
  {
    acts == [] || (Enabled(b, s, acts[0]) && Onward(s, acts[0]) && Straight(b, Apply(b, s, acts[0]), acts[1..]))
  }

  lemma {:induction false} StraightIsAllowed(b: Build, s: State, acts: seq<Action>)
    requires b.segment > 0 && Straight(b, s, acts)
    ensures Schedule(b, s, acts) && Possible(b, s, acts) && forall a :: a in acts ==> !a.Start?
    decreases |acts|
  {
    if acts != [] {
      StraightIsAllowed(b, Apply(b, s, acts[0]), acts[1..]);
    }
  }

  /** The process at work can go on to any point that it has not passed. */
  lemma {:induction false} GoesTo(b: Build, s: State, goal: Goal) returns (acts: seq<Action>)
    requires WfBuild(b) && AllAvailable(b) && Inv(b, s) && NoneFailed(s) && Ahead(s, goal)
    ensures Straight(b, s, acts) && Possible(b, s, acts)
    ensures var last := Exec(b, s, acts); Inv(b, last) && At(last, goal) && last.proc.run == s.proc.run
    decreases Phase(s), WorkLeft(s)
  {
    if At(s, goal) {
      acts := [];
    } else {
      var a := ProcessAdvances(b, s, goal);
      StepInv(b, s, a);
      var rest := GoesTo(b, Apply(b, s, a), goal);
      acts := [a] + rest;
      assert acts[1..] == rest;
    }
  }

  lemma {:induction false} ExecJoin(b: Build, s: State, first: seq<Action>, second: seq<Action>)
    requires b.segment > 0 && Possible(b, s, first) && Possible(b, Exec(b, s, first), second)
    ensures Possible(b, s, first + second) && Exec(b, s, first + second) == Exec(b, Exec(b, s, first), second)
    ensures Schedule(b, s, first) && Schedule(b, Exec(b, s, first), second) ==> Schedule(b, s, first + second)
    decreases |first|
  {
    if first == [] {
      assert first + second == second;
    } else {
      var all, next := first + second, Apply(b, s, first[0]);
      ExecJoin(b, next, first[1..], second);
      assert all[0] == first[0] && all[1..] == first[1..] + second;
      assert Exec(b, s, first) == Exec(b, next, first[1..]);
    }
  }

  /** The process at work can end with everything published; the last step removes the progress file. */
  lemma Completes(b: Build, s: State) returns (acts: seq<Action>, last: State)
    requires WfBuild(b) && AllAvailable(b) && Inv(b, s) && NoneFailed(s) && !s.proc.Down?
    ensures Schedule(b, s, acts) && Possible(b, s, acts) && forall a :: a in acts ==> !a.Start?
    ensures Inv(b, last) && AllRenamed(last) && last.proc.run == s.proc.run
    ensures Exec(b, s, acts) == State(last.disk.(progress := Missing), Down)
  {
    var most := GoesTo(b, s, Renames(|s.proc.run.tasks|));
    StraightIsAllowed(b, s, most);
    last := Exec(b, s, most);
    assert Possible(b, Apply(b, last, Finish), []) && Schedule(b, Apply(b, last, Finish), []);
    assert Possible(b, last, [Finish]) && Schedule(b, last, [Finish]);
    ExecJoin(b, s, most, [Finish]);
    acts := most + [Finish];
  }

  /** One step, then more. */
  lemma StepThen(b: Build, s: State, a: Action, rest: seq<Action>)
    requires b.segment > 0 && Enabled(b, s, a) && Possible(b, Apply(b, s, a), rest)
    ensures Possible(b, s, [a] + rest) && Exec(b, s, [a] + rest) == Exec(b, Apply(b, s, a), rest)
    ensures Allowed(b, s, a) && Schedule(b, Apply(b, s, a), rest) ==> Schedule(b, s, [a] + rest)
  {
    assert ([a] + rest)[1..] == rest;
  }

  // ----- whole runs -----

  ghost predicate AllDelivered(b: Build, d: Disk) {
    forall t :: t in b.tasks ==> t.layer in d.finals && Delivered(b.source, t, d.finals[t.layer])
  }

  lemma RenamedAre(b: Build, s: State, t: Task)
    requires b.segment > 0 && Inv(b, s) && AllRenamed(s) && t in s.proc.run.tasks
    ensures t.layer in s.disk.finals && Published(b, s.proc.run, t, s.disk.finals[t.layer])
  {
    var m :| 0 <= m < |s.proc.run.tasks| && s.proc.run.tasks[m] == t;
  }

  /** From any directory at all, a restart with `--no-resume` that is not stopped delivers every layer. */
  lemma RestartCompletes(b: Build, d: Disk) returns (more: seq<Action>)
    requires WfBuild(b) && AllAvailable(b)
    ensures Possible(b, State(d, Down), more)
    ensures Exec(b, State(d, Down), more).proc.Down? && AllDelivered(b, Exec(b, State(d, Down), more).disk)
  {
    if b.tasks == [] {
      return [];
    }
    var s := Apply(b, State(d, Down), Start(false));
    var rest, last := Completes(b, s);
    StepThen(b, State(d, Down), Start(false), rest);
    forall t | t in b.tasks
      ensures t.layer in last.disk.finals && Delivered(b.source, t, last.disk.finals[t.layer])
    {
      RenamedAre(b, last, t);
      RestartDelivers(b, last.proc.run, t, last.disk.finals[t.layer]);
    }
    more := [Start(false)] + rest;
  }

  /** There is no dead end: after any history at all, some continuation delivers every layer. */
  lemma NoDeadEnd(b: Build, d: Disk, acts: seq<Action>) returns (more: seq<Action>)
    requires WfBuild(b) && AllAvailable(b) && Possible(b, State(d, Down), acts)
    ensures var s := Exec(b, State(d, Down), acts);
      && Possible(b, s, more)
      && Exec(b, s, more).proc.Down? && AllDelivered(b, Exec(b, s, more).disk)
  {
    var s := Exec(b, State(d, Down), acts);
    var rest := RestartCompletes(b, s.disk);
    if s.proc.Down? {
      more := rest;
    } else {
      StepThen(b, s, Crash, rest);
      more := [Crash] + rest;
    }
  }

  /** In an unfinished directory a resume plans at least one layer. */
  lemma ResumeStarts(b: Build, d: Disk)
    requires WfBuild(b) && DiskOk(b, d) && !Settled(b, d)
    ensures Kept(b, d, true) != []
  {
    KeptTasks(b.json, d, b.tasks);
    if Kept(b, d, true) == [] {
      forall t | t in b.tasks
        ensures t.layer in d.finals && d.partials == map[]
      {
        CheckedIsFinal(b, d, t);
      }
      NoPartials(b, d);
    }
  }

  /** `acts` completes the build without discarding anything: it never starts with `--no-resume`. */
  ghost predicate Finishes(b: Build, s: State, acts: seq<Action>)
    requires b.segment > 0
  {
    && Schedule(b, s, acts) && Possible(b, s, acts)
    && Exec(b, s, acts).proc.Down? && Settled(b, Exec(b, s, acts).disk)
    && Start(false) !in acts
  }

  lemma RunFinishes(b: Build, s: State) returns (acts: seq<Action>)
    requires WfBuild(b) && AllAvailable(b) && Steady(b, s) && NoneFailed(s) && !s.proc.Down?
    ensures Finishes(b, s, acts)
  {
    var last;
    acts, last := Completes(b, s);
    AfterLastRename(b, last);
  }

  lemma DirectoryFinishes(b: Build, d: Disk) returns (acts: seq<Action>)
    requires WfBuild(b) && AllAvailable(b) && DiskOk(b, d)
    ensures Finishes(b, State(d, Down), acts)
  {
    var s := State(d, Down);
    if Settled(b, d) {
      return [];
    }
    ResumeStarts(b, d);
    SteadyStep(b, s, Start(true));
    var rest := RunFinishes(b, Apply(b, s, Start(true)));
    StepThen(b, s, Start(true), rest);
    acts := [Start(true)] + rest;
  }

  /**
    Recovery by resuming: after any allowed history, unless a segment has failed where the process may
    not stop, some continuation that discards nothing ends with every layer published as promised.
   */
  lemma BuildsCanFinish(b: Build, d: Disk, acts: seq<Action>) returns (more: seq<Action>)
    requires WfBuild(b) && AllAvailable(b) && DiskOk(b, d) && Schedule(b, State(d, Down), acts)
    requires var s := Exec(b, State(d, Down), acts); NoneFailed(s) || MayStop(b, s)
    ensures Finishes(b, Exec(b, State(d, Down), acts), more)
  {
    var s := Exec(b, State(d, Down), acts);
    SteadyRun(b, State(d, Down), acts);
    if s.proc.Down? {
      more := DirectoryFinishes(b, s.disk);
    } else if NoneFailed(s) {
      more := RunFinishes(b, s);
    } else {
      StopKeepsDisk(b, s);
      var rest := DirectoryFinishes(b, s.disk);
      StepThen(b, s, Crash, rest);
      more := [Crash] + rest;
    }
  }
}
