/** What resuming does outside the hypotheses, with exact conditions. */
module EngramWindows {
  import opened Results
  import opened Bytes
  import opened EngramPlan
  import opened EngramBuild
  import opened EngramSteps
  import opened EngramSafety

  // What a resume publishes over any directory; then the stops that are not safe: between two
  // renames, after skipping a published layer, and early in a restart over recorded indices.

  // ----- a resume over any directory -----

  /** `s'` is the end of a resumed run that found the directory `d`. */
  ghost predicate ResumedTo(b: Build, d: Disk, s': State)
    requires b.segment > 0
  {
    && Inv(b, s') && s'.proc.Publishing?
    && s'.proc.run.start == d && s'.proc.run.resume
    && s'.proc.renamed == |s'.proc.run.tasks|
  }

  /** Every index recorded in `d`, read under the resuming run's own plan, names a right range of `t`'s partial. */
  ghost predicate RecordedRight(b: Build, d: Disk, segs: seq<Segment>, t: Task) {
    var base := Prepared(t, Lookup(d.partials, t.layer));
    forall i :: 0 <= i < |segs| && i in LoadProgress(d.progress) && segs[i].layer == t.layer ==> SegmentIs(base, b.source, segs[i])
  }

  /**
    A resume over any directory, whoever left it and with whatever layers, row limit or segment size:
    a layer comes out right if and only if its partial has the right header, or none yet, and each
    recorded index, read under the new plan, names a range of it that already is source bytes.
   */
  lemma ResumedExactly(b: Build, d: Disk, s': State, t: Task)
    requires WfBuild(b) && ResumedTo(b, d, s') && t in s'.proc.run.tasks
    ensures t.layer in s'.disk.finals
    ensures Delivered(b.source, t, s'.disk.finals[t.layer]) <==>
      HasHeader(t, Prepared(t, Lookup(d.partials, t.layer))) && RecordedRight(b, d, s'.proc.run.segs, t)
  {
    var run := s'.proc.run;
    var m :| 0 <= m < |run.tasks| && run.tasks[m] == t;
    PublishedExactly(b, run, t, s'.disk.finals[t.layer]);
  }

  /** The same at the end of every possible history from any directory whose last process is a resume. */
  lemma HistoriesResumeExactly(b: Build, d: Disk, acts: seq<Action>, t: Task)
    requires WfBuild(b) && Possible(b, State(d, Down), acts)
    requires var s := Exec(b, State(d, Down), acts);
      s.proc.Publishing? && s.proc.run.resume && s.proc.renamed == |s.proc.run.tasks| && t in s.proc.run.tasks
    ensures var s := Exec(b, State(d, Down), acts);
      var run := s.proc.run;
      && t.layer in s.disk.finals
      && (Delivered(b.source, t, s.disk.finals[t.layer]) <==>
            HasHeader(t, Prepared(t, Lookup(run.start.partials, t.layer))) && RecordedRight(b, run.start, run.segs, t))
  {
    var s := Exec(b, State(d, Down), acts);
    InvRun(b, State(d, Down), acts);
    ResumedExactly(b, s.proc.run.start, s, t);
  }

  /** While some partial is left, a resume plans every layer. */
  lemma StrayPartialPlansAll(b: Build, d: Disk, s': State)
    requires WfBuild(b) && ResumedTo(b, d, s') && d.partials != map[]
    ensures s'.proc.run.tasks == b.tasks && s'.proc.run.segs == WholePlan(b)
  {
    ResumePlansAll(b.json, d, b.tasks);
  }

  // ----- how much of a segment a file holds -----

  /** From its byte `a` on, the segment is zero in the checkpoint. */
  ghost predicate ZeroFrom(source: map<string, seq<byte>>, g: Segment, a: nat) {
    && InShard(source, g.shard, g.srcOff, g.len)
    && forall k :: g.srcOff + a <= k < g.srcOff + g.len ==> Shard(source, g.shard)[k] == 0
  }

  ghost predicate ZeroRange(source: map<string, seq<byte>>, g: Segment) {
    ZeroFrom(source, g, 0)
  }

  /** A segment whose first `a` bytes arrived in a zero-filled file is right where the rest is zero anyway. */
  lemma HeldSegment(file: seq<byte>, source: map<string, seq<byte>>, g: Segment, a: nat)
    requires 0 < g.len && g.dstOff + g.len <= |file| && a <= g.len
    requires RangeIs(file, g.dstOff, source, g.shard, g.srcOff, a)
    requires forall x :: g.dstOff + a <= x < g.dstOff + g.len ==> file[x] == 0
    ensures SegmentIs(file, source, g) <==> ZeroFrom(source, g, a)
  {
    if SegmentIs(file, source, g) {
      forall k | g.srcOff + a <= k < g.srcOff + g.len
        ensures Shard(source, g.shard)[k] == 0
      {
        assert file[g.dstOff + (k - g.srcOff)] == Shard(source, g.shard)[k];
      }
    }
    if ZeroFrom(source, g, a) {
      forall x | g.dstOff <= x < g.dstOff + g.len
        ensures file[x] == Shard(source, g.shard)[g.srcOff + (x - g.dstOff)]
      {
      }
    }
  }

  lemma FreshSegment(source: map<string, seq<byte>>, t: Task, g: Segment)
    requires WfTask(t) && 0 < g.len && |t.header| <= g.dstOff && g.dstOff + g.len <= t.total
    ensures SegmentIs(Prepared(t, None), source, g) <==> ZeroRange(source, g)
  {
    FreshZero(t, g);
    HeldSegment(Prepared(t, None), source, g, 0);
  }

  /** Past the header a fresh file is zero. */
  lemma FreshZero(t: Task, g: Segment)
    requires WfTask(t) && |t.header| <= g.dstOff && g.dstOff + g.len <= t.total
    ensures |Prepared(t, None)| == t.total
    ensures forall x :: g.dstOff <= x < g.dstOff + g.len ==> Prepared(t, None)[x] == 0
  {
    HeaderFits(t);
  }

  /** Every recorded index that the plan `segs` gives to `layer` names a range of zeros. */
  ghost predicate RecordedZero(source: map<string, seq<byte>>, segs: seq<Segment>, recorded: set<int>, layer: int) {
    forall i :: 0 <= i < |segs| && i in recorded && segs[i].layer == layer ==> ZeroRange(source, segs[i])
  }

  /**
    A layer without a partial, in any directory: the resumed run plans it onto a fresh file, and it
    comes out right if and only if the recorded indices that name it are ranges of zeros.
   */
  lemma ResumedFromNothing(b: Build, d: Disk, s': State, t: Task)
    requires WfBuild(b) && ResumedTo(b, d, s') && t in s'.proc.run.tasks
    requires Prepared(t, Lookup(d.partials, t.layer)) == Prepared(t, None)
    ensures t.layer in s'.disk.finals
    ensures Delivered(b.source, t, s'.disk.finals[t.layer]) <==>
      RecordedZero(b.source, s'.proc.run.segs, LoadProgress(d.progress), t.layer)
  {
    var run := s'.proc.run;
    ResumedExactly(b, d, s', t);
    RunShaped(b, run);
    FreshHeader(t);
    forall i | 0 <= i < |run.segs| && run.segs[i].layer == t.layer
      ensures SegmentIs(Prepared(t, None), b.source, run.segs[i]) <==> ZeroRange(b.source, run.segs[i])
    {
      assert Inside(run.segs, t);
      FreshSegment(b.source, t, run.segs[i]);
    }
  }

  // ----- a stop between two renames -----

  /**
    Stop after the first rename and before the last (`s`), then any resumed run to its end (`s'`): a
    layer renamed before the stop was a correct file. It is planned again, onto a fresh file of whose
    segments the old progress file lists all (when no layer had been skipped), and is replaced by a
    file that is right only if those ranges are zero.
   */
  lemma CrashBetweenRenames(b: Build, s: State, s': State, m: nat)
    requires WfBuild(b) && Steady(b, s) && s.proc.Publishing? && m < s.proc.renamed < |s.proc.run.tasks|
    requires ResumedTo(b, s.disk, s')
    ensures var t := s.proc.run.tasks[m];
      && Delivered(b.source, t, Contents(s.disk.finals, t.layer))
      && (Delivered(b.source, t, Contents(s'.disk.finals, t.layer)) <==>
            RecordedZero(b.source, WholePlan(b), LoadProgress(s.disk.progress), t.layer))
    ensures s.proc.run.tasks == b.tasks ==> forall i :: 0 <= i < |WholePlan(b)| ==> i in LoadProgress(s.disk.progress)
  {
    var t := s.proc.run.tasks[m];
    assert t in s.proc.run.tasks;
    RunKind(b, s.proc.run);
    PublishingDelivers(b, s, m);
    PublishingDelivers(b, s, s.proc.renamed);
    StrayPartialPlansAll(b, s.disk, s');
    ResumedFromNothing(b, s.disk, s', t);
  }

  /** The layers not yet renamed at a stop come out right. */
  lemma LaterLayersSurvive(b: Build, s: State, s': State, m: nat)
    requires WfBuild(b) && Steady(b, s) && s.proc.Publishing? && s.proc.renamed <= m < |s.proc.run.tasks|
    requires ResumedTo(b, s.disk, s')
    ensures var t := s.proc.run.tasks[m]; Delivered(b.source, t, Contents(s'.disk.finals, t.layer))
  {
    var t := s.proc.run.tasks[m];
    assert t in s.proc.run.tasks;
    RunKind(b, s.proc.run);
    PublishingDelivers(b, s, m);
    StrayPartialPlansAll(b, s.disk, s');
    DeliveredSound(b, b.tasks, t, s.disk.partials[t.layer], LoadProgress(s.disk.progress));
    ResumedExactly(b, s.disk, s', t);
  }

  // ----- a layer that was already published -----

  /** A layer the run skipped has no partial, wherever the run is stopped. */
  lemma LeftAlone(b: Build, s: State, t: Task)
    requires WfBuild(b) && Inv(b, s) && !s.proc.Down?
    requires t in b.tasks && t !in s.proc.run.tasks && s.proc.run.start.partials == map[]
    ensures Lookup(s.disk.partials, t.layer) == None
  {
    KeptWf(b, s.proc.run.start, s.proc.run.resume);
    NotTaskLayer(b.tasks, s.proc.run.tasks, t);
    assert Lookup(s.proc.run.start.partials, t.layer) == None;
  }

  /**
    A layer `t` was published before the interrupted run `s` started, so that run numbered its segments
    without it. A partial it leaves makes the resume plan `t` again, and the recorded numbers now name
    ranges of `t`: the republished `t` is right only where those ranges are zero.
   */
  lemma PublishedLayerShiftsNumbering(b: Build, s: State, s': State, t: Task)
    requires WfBuild(b) && Inv(b, s) && !s.proc.Down? && s.disk.partials != map[]
    requires t in b.tasks && t !in s.proc.run.tasks && s.proc.run.start.partials == map[]
    requires ResumedTo(b, s.disk, s')
    ensures t in s'.proc.run.tasks && t.layer in s'.disk.finals
    ensures Delivered(b.source, t, s'.disk.finals[t.layer]) <==>
      RecordedZero(b.source, WholePlan(b), LoadProgress(s.disk.progress), t.layer)
  {
    LeftAlone(b, s, t);
    StrayPartialPlansAll(b, s.disk, s');
    ResumedFromNothing(b, s.disk, s', t);
  }

  /** How much of segment `j` the process itself has written: nothing of what it trusts. */
  function Sourced(s: State, j: nat): nat
    requires s.proc.Fetching? && j < |s.proc.run.segs|
  {
    if j in Trusted(s.proc.run) then 0 else Arrived(s.proc.done, s.proc.workers, j, s.proc.run.segs[j].len)
  }

  /** `s` started `t` from a fresh file: what it holds of segment `j` is what it wrote, and zeros. */
  lemma InterruptedSegment(b: Build, s: State, t: Task, j: nat)
    requires WfBuild(b) && Inv(b, s) && s.proc.Fetching? && t in s.proc.run.tasks
    requires Base(s.proc.run, t) == Prepared(t, None) && j < |s.proc.run.segs| && s.proc.run.segs[j].layer == t.layer
    ensures t.layer in s.disk.partials
    ensures SegmentIs(s.disk.partials[t.layer], b.source, s.proc.run.segs[j])
       <==> ZeroFrom(b.source, s.proc.run.segs[j], Sourced(s, j))
  {
    var run, g, a := s.proc.run, s.proc.run.segs[j], Sourced(s, j);
    RunShaped(b, run);
    assert Inside(run.segs, t);
    assert TaskState(b, s.disk, run.segs, Trusted(run), Base(run, t), s.proc.done, s.proc.workers, t);
    var file := s.disk.partials[t.layer];
    assert SegmentState(b.source, Trusted(run), Base(run, t), file, g, j, Arrived(s.proc.done, s.proc.workers, j, g.len));
    FreshZero(t, g);
    HeldSegment(file, b.source, g, a);
  }

  /** Preparing such a partial again changes nothing, and its header is right. */
  lemma InterruptedFile(b: Build, s: State, t: Task)
    requires WfBuild(b) && Inv(b, s) && s.proc.Fetching? && t in s.proc.run.tasks
    requires Base(s.proc.run, t) == Prepared(t, None)
    ensures t.layer in s.disk.partials
    ensures Prepared(t, Lookup(s.disk.partials, t.layer)) == s.disk.partials[t.layer] && HasHeader(t, s.disk.partials[t.layer])
  {
    var run := s.proc.run;
    KeptWf(b, run.start, run.resume);
    assert TaskState(b, s.disk, run.segs, Trusted(run), Base(run, t), s.proc.done, s.proc.workers, t);
    FreshHeader(t);
    FramedIsPrepared(t, Base(run, t), s.disk.partials[t.layer]);
  }

  /** A segment of `t` in the whole plan is a segment of every plan that has `t`. */
  lemma SameSegment(b: Build, tasks: seq<Task>, t: Task, i: nat) returns (j: nat)
    requires WfBuild(b) && t in b.tasks && t in tasks && i < |WholePlan(b)| && WholePlan(b)[i].layer == t.layer
    ensures j < |Plan(tasks, b.segment)| && Plan(tasks, b.segment)[j] == WholePlan(b)[i]
  {
    var u := PlanBounds(b.tasks, b.segment, i);
    assert u == t;
    PlanHasFile(tasks, b.segment, t, WholePlan(b)[i]);
    j :| 0 <= j < |Plan(tasks, b.segment)| && Plan(tasks, b.segment)[j] == WholePlan(b)[i];
  }

  /** Segment `i` of the whole plan is zero from where `s` had written it, under whatever number `s` had it. */
  ghost predicate HeldAt(b: Build, s: State, i: nat)
    requires b.segment > 0 && s.proc.Fetching? && i < |WholePlan(b)|
  {
    forall j: nat :: j < |s.proc.run.segs| && s.proc.run.segs[j] == WholePlan(b)[i] ==>
      ZeroFrom(b.source, WholePlan(b)[i], Sourced(s, j))
  }

  /** Every recorded index that names `t` under the whole plan names a range that had arrived, or is zero from there on. */
  ghost predicate RecordedHeld(b: Build, s: State, t: Task)
    requires b.segment > 0 && s.proc.Fetching?
  {
    forall i :: 0 <= i < |WholePlan(b)| && i in LoadProgress(s.disk.progress) && WholePlan(b)[i].layer == t.layer ==> HeldAt(b, s, i)
  }

  lemma InterruptedIndex(b: Build, s: State, t: Task, i: nat)
    requires WfBuild(b) && Inv(b, s) && s.proc.Fetching? && t in s.proc.run.tasks && t in b.tasks
    requires Base(s.proc.run, t) == Prepared(t, None) && i < |WholePlan(b)| && WholePlan(b)[i].layer == t.layer
    ensures t.layer in s.disk.partials
    ensures SegmentIs(s.disk.partials[t.layer], b.source, WholePlan(b)[i]) <==> HeldAt(b, s, i)
  {
    var run := s.proc.run;
    var j0 := SameSegment(b, run.tasks, t, i);
    InterruptedSegment(b, s, t, j0);
    forall j: nat | j < |run.segs| && run.segs[j] == WholePlan(b)[i]
      ensures SegmentIs(s.disk.partials[t.layer], b.source, run.segs[j]) <==> ZeroFrom(b.source, run.segs[j], Sourced(s, j))
    {
      InterruptedSegment(b, s, t, j);
    }
  }

  /**
    The layers the interrupted run `s` was fetching itself, each from a fresh file: one comes out right
    if and only if the recorded numbers, which may have shifted, name segments of it that had arrived,
    or that are zero from where they had arrived.
   */
  lemma InterruptedLayer(b: Build, s: State, s': State, t: Task)
    requires WfBuild(b) && Inv(b, s) && s.proc.Fetching? && t in s.proc.run.tasks
    requires Base(s.proc.run, t) == Prepared(t, None) && ResumedTo(b, s.disk, s')
    ensures t in s'.proc.run.tasks && t.layer in s'.disk.finals
    ensures Delivered(b.source, t, s'.disk.finals[t.layer]) <==> RecordedHeld(b, s, t)
  {
    KeptWf(b, s.proc.run.start, s.proc.run.resume);
    InterruptedFile(b, s, t);
    StrayPartialPlansAll(b, s.disk, s');
    ResumedExactly(b, s.disk, s', t);
    forall i: nat | i < |WholePlan(b)| && WholePlan(b)[i].layer == t.layer
      ensures SegmentIs(s.disk.partials[t.layer], b.source, WholePlan(b)[i]) <==> HeldAt(b, s, i)
    {
      InterruptedIndex(b, s, t, i);
    }
  }

  // ----- a restart over recorded indices -----

  /** A restart has emptied the partial of its `m`-th layer and not yet refilled it. */
  ghost predicate Emptied(p: Proc, m: nat)
    requires p.Preparing?
  {
    m < p.k || (m == p.k && p.stage != Discard)
  }

  /**
    `--no-resume` empties the partials one after the other but leaves the progress file. Stopped while
    preparing (`s`), it makes the next resume trust the stale numbers: an emptied layer comes out right
    only where the stale ranges are zero, and one not reached yet as it would have without the restart.
   */
  lemma NoResumeStoppedPreparing(b: Build, s: State, s': State, m: nat)
    requires WfBuild(b) && Inv(b, s) && s.proc.Preparing? && !s.proc.run.resume && m < |b.tasks|
    requires ResumedTo(b, s.disk, s') && b.tasks[m] in s'.proc.run.tasks
    ensures var run, t, segs := s.proc.run, b.tasks[m], s'.proc.run.segs;
      && t.layer in s'.disk.finals
      && (Emptied(s.proc, m) ==>
            (Delivered(b.source, t, s'.disk.finals[t.layer]) <==> RecordedZero(b.source, segs, LoadProgress(run.start.progress), t.layer)))
      && (!Emptied(s.proc, m) ==>
            (Delivered(b.source, t, s'.disk.finals[t.layer]) <==>
               HasHeader(t, Prepared(t, Lookup(run.start.partials, t.layer))) && RecordedRight(b, run.start, segs, t)))
    ensures s.disk.partials != map[] ==> s'.proc.run.segs == WholePlan(b)
  {
    var t := b.tasks[m];
    RestartedPartial(b, s, m);
    if Emptied(s.proc, m) {
      ResumedFromNothing(b, s.disk, s', t);
    } else {
      ResumedExactly(b, s.disk, s', t);
    }
    if s.disk.partials != map[] {
      StrayPartialPlansAll(b, s.disk, s');
    }
  }

  /** While a restart prepares, a layer's partial counts as none, or is still as found. */
  lemma RestartedPartial(b: Build, s: State, m: nat)
    requires WfBuild(b) && Inv(b, s) && s.proc.Preparing? && !s.proc.run.resume && m < |b.tasks|
    ensures var run, t := s.proc.run, b.tasks[m];
      && s.disk.progress == run.start.progress
      && (Emptied(s.proc, m) ==> Prepared(t, Lookup(s.disk.partials, t.layer)) == Prepared(t, None))
      && (!Emptied(s.proc, m) ==> Lookup(s.disk.partials, t.layer) == Lookup(run.start.partials, t.layer))
  {
    var t := b.tasks[m];
    assert t in b.tasks && Lookup(s.disk.partials, s.proc.run.tasks[m].layer) ==
      if m < s.proc.k then Some(Base(s.proc.run, t))
      else if m == s.proc.k then PartialAt(s.proc.run, t, s.proc.stage)
      else Lookup(s.proc.run.start.partials, t.layer);
    PreparedStable(t, None);
  }

  /** What the progress file lists is, segment by segment, what this process has written, or zero from there on. */
  ghost predicate RecordedArrived(b: Build, s: State, t: Task)
    requires b.segment > 0 && s.proc.Fetching?
  {
    forall i :: 0 <= i < |WholePlan(b)| && i in LoadProgress(s.disk.progress) && WholePlan(b)[i].layer == t.layer ==>
      ZeroFrom(b.source, WholePlan(b)[i], Arrived(s.proc.done, s.proc.workers, i, WholePlan(b)[i].len))
  }

  /**
    Stopped while fetching (`s`), in particular before its first segment is recorded: a resumed layer
    comes out right if and only if every stale range had arrived, or is zero from where it had arrived.
   */
  lemma NoResumeKeepsStaleProgress(b: Build, s: State, s': State, t: Task)
    requires WfBuild(b) && Inv(b, s) && s.proc.Fetching? && !s.proc.run.resume
    requires ResumedTo(b, s.disk, s') && t in b.tasks
    ensures t in s'.proc.run.tasks && t.layer in s'.disk.finals
    ensures s.proc.done == {} ==> s.disk.progress == s.proc.run.start.progress
    ensures Delivered(b.source, t, s'.disk.finals[t.layer]) <==> RecordedArrived(b, s, t)
  {
    InterruptedFile(b, s, t);
    StrayPartialPlansAll(b, s.disk, s');
    ResumedExactly(b, s.disk, s', t);
    forall i: nat | i < |WholePlan(b)| && WholePlan(b)[i].layer == t.layer
      ensures SegmentIs(s.disk.partials[t.layer], b.source, WholePlan(b)[i]) <==>
        ZeroFrom(b.source, WholePlan(b)[i], Arrived(s.proc.done, s.proc.workers, i, WholePlan(b)[i].len))
    {
      InterruptedSegment(b, s, t, i);
    }
  }
}
