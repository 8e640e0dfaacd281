/** The boot watchdog: every stop is justified by what the checks of the run observed. */
module Watchdog {
  import opened Results

  datatype Verdict = Healthy | NoProbe | Loading | Dead | DeadCandidate | Stalled

  /** Bytes read and written so far by the serve child. */
  datatype Io = Io(read: int, written: int)

  /**
   * One check: the endpoint's answer, what the probe saw (`alive` is None when the probe
   * itself failed), and the clock at the check's four readings.
   */
  datatype Check = Check(
    ok: bool, alive: Option<bool>, io: Option<Io>, logSize: Option<int>, fatal: bool,
    progressAt: int, idleAt: int, sinceAt: int, forAt: int)

  datatype Outcome = Watching | Up(at: nat) | Stopped(at: nat, verdict: Verdict)

  // ----- the classification of one check -----

  function Decide(ok: bool, alive: Option<bool>, consecutiveDead: nat, seenAlive: bool, fatal: bool): Verdict {
    if ok then Healthy
    else if alive.None? then NoProbe
    else if alive.value then Loading
    else if (seenAlive || fatal) && consecutiveDead >= 2 then Dead
    else DeadCandidate
  }

  predicate IsStalled(ok: bool, alive: Option<bool>, idle: int, stall: int) {
    !ok && alive == Some(true) && idle >= stall
  }

  predicate ShouldStop(verdict: Verdict, deadGrace: int, deadFor: Option<int>) {
    match verdict
    case Dead => true
    case DeadCandidate => deadFor.Some? && deadFor.value >= deadGrace
    case Stalled => true
    case _ => false
  }

  // ----- the state carried from check to check -----

  datatype Monitor = Monitor(
    consecutiveDead: nat, prevIo: Option<Io>, prevLogSize: Option<int>,
    lastProgress: int, deadSince: Option<int>, seenAlive: bool)

  function Begin(start: int): Monitor { Monitor(0, None, None, start, None, false) }

  function Moved(before: Io, now: Io): int {
    (now.read - before.read) + (now.written - before.written)
  }

  /** Bytes moved or the log grew between two samples, when both were taken. */
  predicate Grew(prevIo: Option<Io>, prevLogSize: Option<int>, now: Check) {
    || (prevIo.Some? && now.io.Some? && Moved(prevIo.value, now.io.value) > 0)
    || (prevLogSize.Some? && now.logSize.Some? && now.logSize.value - prevLogSize.value > 0)
  }

  function Observed(m: Monitor, c: Check): Monitor {
    Monitor(
      if c.alive == Some(false) && !c.ok then m.consecutiveDead + 1 else 0,
      c.io, c.logSize,
      if c.ok || Grew(m.prevIo, m.prevLogSize, c) then c.progressAt else m.lastProgress,
      m.deadSince,
      m.seenAlive || c.alive == Some(true))
  }

  function Judge(m: Monitor, c: Check, stall: int): Verdict {
    if IsStalled(c.ok, c.alive, c.idleAt - m.lastProgress, stall) then Stalled
    else Decide(c.ok, c.alive, m.consecutiveDead, m.seenAlive, c.fatal)
  }

  function Timed(m: Monitor, c: Check, verdict: Verdict): Monitor {
    m.(deadSince := if !verdict.DeadCandidate? then None
                    else if m.deadSince.None? then Some(c.sinceAt) else m.deadSince)
  }

  function DeadFor(m: Monitor, c: Check): Option<int> {
    if m.deadSince.None? then None else Some(c.forAt - m.deadSince.value)
  }

  /** The state after the first `k` checks of a run that none of them ended. */
  ghost function After(trace: seq<Check>, k: nat, start: int, stall: int): Monitor
    requires k <= |trace|
  {
    if k == 0 then Begin(start)
    else
      var m := Observed(After(trace, k - 1, start, stall), trace[k - 1]);
      Timed(m, trace[k - 1], Judge(m, trace[k - 1], stall))
  }

  ghost predicate ActsAt(trace: seq<Check>, k: nat, start: int, deadGrace: int, stall: int)
    requires k < |trace|
  {
    var m := After(trace, k + 1, start, stall);
    var verdict := Judge(m, trace[k], stall);
    verdict.Healthy? || ShouldStop(verdict, deadGrace, DeadFor(m, trace[k]))
  }

  // ----- what a trace of checks shows -----

  ghost predicate Absent(c: Check) { !c.ok && c.alive == Some(false) }

  ghost predicate SawAlive(trace: seq<Check>, k: nat) {
    exists i :: 0 <= i <= k && i < |trace| && trace[i].alive == Some(true)
  }

  ghost predicate Progress(trace: seq<Check>, i: nat)
    requires i < |trace|
  {
    trace[i].ok || (i > 0 && Grew(trace[i - 1].io, trace[i - 1].logSize, trace[i]))
  }

  /** Two adjacent observed absences, and a witness: an earlier sighting or a fatal line now. */
  ghost predicate DeadJustified(trace: seq<Check>, k: nat)
    requires k < |trace|
  {
    && k > 0 && Absent(trace[k - 1]) && Absent(trace[k])
    && (SawAlive(trace, k) || trace[k].fatal)
  }

  ghost predicate AbsentSince(trace: seq<Check>, j: nat, k: nat)
    requires k < |trace|
  {
    j <= k && forall i :: j <= i <= k ==> Absent(trace[i])
  }

  /** An unbroken streak of observed absences that has lasted the dead grace. */
  ghost predicate CandidateJustified(trace: seq<Check>, k: nat, deadGrace: int)
    requires k < |trace|
  {
    exists j: nat {:trigger AbsentSince(trace, j, k)} :: AbsentSince(trace, j, k) && trace[k].forAt - trace[j].sinceAt >= deadGrace
  }

  /** A live child without an endpoint, and nothing that counts as progress for the whole stall span. */
  ghost predicate StallJustified(trace: seq<Check>, k: nat, start: int, stall: int)
    requires k < |trace|
  {
    && !trace[k].ok && trace[k].alive == Some(true)
    && trace[k].idleAt - start >= stall
    && forall i {:trigger Progress(trace, i)} :: 0 <= i <= k && Progress(trace, i) ==> trace[k].idleAt - trace[i].progressAt >= stall
  }

  ghost predicate Ends(trace: seq<Check>, k: nat, start: int, deadGrace: int, stall: int)
    requires k < |trace|
  {
    || trace[k].ok
    || DeadJustified(trace, k)
    || CandidateJustified(trace, k, deadGrace)
    || StallJustified(trace, k, start, stall)
  }

  ghost predicate NoneEnds(trace: seq<Check>, k: nat, start: int, deadGrace: int, stall: int)
    requires k <= |trace|
  {
    forall i :: 0 <= i < k ==> !Ends(trace, i, start, deadGrace, stall)
  }

  ghost predicate FirstEnd(trace: seq<Check>, k: nat, start: int, deadGrace: int, stall: int)
    requires k < |trace|
  {
    Ends(trace, k, start, deadGrace, stall) && NoneEnds(trace, k, start, deadGrace, stall)
  }

  /** The clock never goes back. */
  ghost predicate ClockAdvances(start: int, trace: seq<Check>) {
    && (forall i :: 0 <= i < |trace| ==>
                      start <= trace[i].progressAt <= trace[i].idleAt <= trace[i].sinceAt <= trace[i].forAt)
    && (forall i, j :: 0 <= i < j < |trace| ==> trace[i].forAt <= trace[j].progressAt)
  }

  // ----- what the loop carries -----

  ghost predicate Counted(trace: seq<Check>, k: nat, consecutiveDead: nat)
    requires k <= |trace|
  {
    && consecutiveDead <= k
    && (forall i :: k - consecutiveDead <= i < k ==> Absent(trace[i]))
    && (consecutiveDead < k ==> !Absent(trace[k - consecutiveDead - 1]))
  }

  ghost predicate LastProgress(trace: seq<Check>, k: nat, start: int, last: int)
    requires k <= |trace|
  {
    && start <= last
    && (forall i {:trigger Progress(trace, i)} :: 0 <= i < k && Progress(trace, i) ==> trace[i].progressAt <= last)
    && (last == start || exists i {:trigger Progress(trace, i)} :: 0 <= i < k && Progress(trace, i) && trace[i].progressAt == last)
  }

  ghost predicate Carried(trace: seq<Check>, k: nat, start: int, m: Monitor)
    requires k <= |trace|
  {
    && Counted(trace, k, m.consecutiveDead)
    && LastProgress(trace, k, start, m.lastProgress)
    && (m.seenAlive <==> k > 0 && SawAlive(trace, k - 1))
    && m.prevIo == (if k == 0 then None else trace[k - 1].io)
    && m.prevLogSize == (if k == 0 then None else trace[k - 1].logSize)
    && m.deadSince == (if m.consecutiveDead == 0 then None else Some(trace[k - m.consecutiveDead].sinceAt))
  }

  lemma ProgressStep(trace: seq<Check>, k: nat, start: int, last: int)
    requires k < |trace| && LastProgress(trace, k, start, last)
    requires last <= trace[k].progressAt
    ensures LastProgress(trace, k + 1, start, if Progress(trace, k) then trace[k].progressAt else last)
  {
    forall i | 0 <= i < k + 1 && Progress(trace, i)
      ensures trace[i].progressAt <= if Progress(trace, k) then trace[k].progressAt else last
    {
    }
  }

  lemma StallIs(trace: seq<Check>, k: nat, start: int, stall: int, last: int)
    requires k < |trace| && LastProgress(trace, k + 1, start, last)
    ensures IsStalled(trace[k].ok, trace[k].alive, trace[k].idleAt - last, stall)
       <==> StallJustified(trace, k, start, stall)
  {
  }

  /** The streak's first check gives its longest duration. */
  lemma CandidateIs(trace: seq<Check>, k: nat, consecutiveDead: nat, start: int, deadGrace: int)
    requires k < |trace| && ClockAdvances(start, trace) && Counted(trace, k + 1, consecutiveDead)
    ensures consecutiveDead > 0 && trace[k].forAt - trace[k + 1 - consecutiveDead].sinceAt >= deadGrace
       <==> CandidateJustified(trace, k, deadGrace)
  {
    if j: nat :| AbsentSince(trace, j, k) && trace[k].forAt - trace[j].sinceAt >= deadGrace {
      var first := k + 1 - consecutiveDead;
      assert Absent(trace[k]) && consecutiveDead > 0;
      if first < j {
        assert trace[first].forAt <= trace[j].progressAt;
      }
    } else if consecutiveDead > 0 {
      assert AbsentSince(trace, k + 1 - consecutiveDead, k);
    }
  }

  lemma ObservedStep(trace: seq<Check>, k: nat, start: int, m: Monitor)
    requires k < |trace| && ClockAdvances(start, trace) && Carried(trace, k, start, m)
    ensures var n := Observed(m, trace[k]);
            && Counted(trace, k + 1, n.consecutiveDead)
            && LastProgress(trace, k + 1, start, n.lastProgress)
            && (n.seenAlive <==> SawAlive(trace, k))
  {
    var n := Observed(m, trace[k]);
    ProgressStep(trace, k, start, m.lastProgress);
  }

  lemma JudgedExactly(trace: seq<Check>, k: nat, start: int, stall: int, m: Monitor, n: Monitor)
    requires k < |trace| && ClockAdvances(start, trace)
    requires Carried(trace, k, start, m) && n == Observed(m, trace[k])
    ensures var verdict := Judge(n, trace[k], stall);
            && (verdict.Healthy? <==> trace[k].ok)
            && (verdict.Dead? <==> DeadJustified(trace, k))
            && (verdict.Stalled? <==> StallJustified(trace, k, start, stall))
            && (verdict.DeadCandidate? <==> Absent(trace[k]) && !DeadJustified(trace, k))
  {
    ObservedStep(trace, k, start, m);
    StallIs(trace, k, start, stall, n.lastProgress);
  }

  lemma TimedExactly(trace: seq<Check>, k: nat, start: int, deadGrace: int, m: Monitor, n: Monitor)
    requires k < |trace| && ClockAdvances(start, trace)
    requires Carried(trace, k, start, m) && n == Observed(m, trace[k]) && Absent(trace[k])
    ensures var since := Timed(n, trace[k], DeadCandidate);
            && since.deadSince == Some(trace[k + 1 - n.consecutiveDead].sinceAt)
            && (ShouldStop(DeadCandidate, deadGrace, DeadFor(since, trace[k])) <==> CandidateJustified(trace, k, deadGrace))
  {
    ObservedStep(trace, k, start, m);
    CandidateIs(trace, k, n.consecutiveDead, start, deadGrace);
  }

  ghost predicate VerdictJustified(trace: seq<Check>, k: nat, start: int, deadGrace: int, stall: int, verdict: Verdict)
    requires k < |trace|
  {
    && (verdict.Healthy? <==> trace[k].ok)
    && (verdict.Dead? <==> DeadJustified(trace, k))
    && (verdict.Stalled? <==> StallJustified(trace, k, start, stall))
    && (verdict.DeadCandidate? ==> CandidateJustified(trace, k, deadGrace))
  }

  /** What check `k` does, in terms of the trace alone. */
  lemma ActsExactly(trace: seq<Check>, k: nat, start: int, deadGrace: int, stall: int, m: Monitor)
    requires k < |trace| && ClockAdvances(start, trace)
    requires m == After(trace, k, start, stall) && Carried(trace, k, start, m)
    ensures ActsAt(trace, k, start, deadGrace, stall) <==> Ends(trace, k, start, deadGrace, stall)
    ensures ActsAt(trace, k, start, deadGrace, stall) ==>
              var verdict := Judge(After(trace, k + 1, start, stall), trace[k], stall);
              VerdictJustified(trace, k, start, deadGrace, stall, verdict)
  {
    var n := Observed(m, trace[k]);
    JudgedExactly(trace, k, start, stall, m, n);
    if Absent(trace[k]) {
      TimedExactly(trace, k, start, deadGrace, m, n);
    } else {
      assert forall j: nat :: !AbsentSince(trace, j, k);
    }
  }

  lemma CarriesOn(trace: seq<Check>, k: nat, start: int, deadGrace: int, stall: int, m: Monitor)
    requires k < |trace| && ClockAdvances(start, trace)
    requires m == After(trace, k, start, stall) && Carried(trace, k, start, m)
    requires !ActsAt(trace, k, start, deadGrace, stall)
    ensures Carried(trace, k + 1, start, After(trace, k + 1, start, stall))
  {
    var n := Observed(m, trace[k]);
    ObservedStep(trace, k, start, m);
    if Absent(trace[k]) {
      TimedExactly(trace, k, start, deadGrace, m, n);
    }
  }

  lemma {:induction false} CarriedAlong(trace: seq<Check>, k: nat, start: int, deadGrace: int, stall: int)
    requires k <= |trace| && ClockAdvances(start, trace)
    requires forall i :: 0 <= i < k ==> !ActsAt(trace, i, start, deadGrace, stall)
    ensures Carried(trace, k, start, After(trace, k, start, stall))
  {
    if k > 0 {
      CarriedAlong(trace, k - 1, start, deadGrace, stall);
      CarriesOn(trace, k - 1, start, deadGrace, stall, After(trace, k - 1, start, stall));
    }
  }

  lemma NoneActsNoneEnds(trace: seq<Check>, k: nat, start: int, deadGrace: int, stall: int)
    requires k <= |trace| && ClockAdvances(start, trace)
    requires forall i :: 0 <= i < k ==> !ActsAt(trace, i, start, deadGrace, stall)
    ensures NoneEnds(trace, k, start, deadGrace, stall)
  {
    forall i | 0 <= i < k
      ensures !Ends(trace, i, start, deadGrace, stall)
    {
      CarriedAlong(trace, i, start, deadGrace, stall);
      ActsExactly(trace, i, start, deadGrace, stall, After(trace, i, start, stall));
    }
  }

  ghost predicate Justified(trace: seq<Check>, start: int, deadGrace: int, stall: int, outcome: Outcome) {
    match outcome
    case Watching => NoneEnds(trace, |trace|, start, deadGrace, stall)
    case Up(k) => k < |trace| && FirstEnd(trace, k, start, deadGrace, stall) && trace[k].ok
    case Stopped(k, verdict) =>
      && k < |trace| && FirstEnd(trace, k, start, deadGrace, stall) && !trace[k].ok
      && verdict in {Dead, DeadCandidate, Stalled}
      && VerdictJustified(trace, k, start, deadGrace, stall, verdict)
  }

  lemma ActIsJustified(trace: seq<Check>, k: nat, start: int, deadGrace: int, stall: int, verdict: Verdict)
    requires k < |trace| && ClockAdvances(start, trace)
    requires forall i :: 0 <= i < k ==> !ActsAt(trace, i, start, deadGrace, stall)
    requires ActsAt(trace, k, start, deadGrace, stall)
    requires verdict == Judge(After(trace, k + 1, start, stall), trace[k], stall)
    ensures Justified(trace, start, deadGrace, stall, if verdict == Healthy then Up(k) else Stopped(k, verdict))
  {
    NoneActsNoneEnds(trace, k, start, deadGrace, stall);
    CarriedAlong(trace, k, start, deadGrace, stall);
    ActsExactly(trace, k, start, deadGrace, stall, After(trace, k, start, stall));
  }

  // ----- the monitor -----

  /**
   * The monitor's loop over the checks of a run of any length. It ends on the first check
   * that shows a healthy endpoint or a justified stop, and never otherwise.
   */
  method Watch(trace: seq<Check>, start: int, deadGrace: int, stall: int) returns (outcome: Outcome)
    requires ClockAdvances(start, trace)
    ensures Justified(trace, start, deadGrace, stall, outcome)
  {
    var consecutiveDead := 0;
    var prevIo: Option<Io> := None;
    var prevLogSize: Option<int> := None;
    var lastProgress := start;
    var deadSince: Option<int> := None;
    var seenAlive := false;
    for k := 0 to |trace|
      invariant After(trace, k, start, stall)
             == Monitor(consecutiveDead, prevIo, prevLogSize, lastProgress, deadSince, seenAlive)
      invariant forall i :: 0 <= i < k ==> !ActsAt(trace, i, start, deadGrace, stall)
    {
      var c := trace[k];
      if c.alive == Some(true) {
        seenAlive := true;
      }
      var delta := -1;
      if c.io.Some? && prevIo.Some? {
        delta := Moved(prevIo.value, c.io.value);
      }
      prevIo := c.io;
      var logDelta := -1;
      if c.logSize.Some? && prevLogSize.Some? {
        logDelta := c.logSize.value - prevLogSize.value;
      }
      prevLogSize := c.logSize;
      consecutiveDead := if c.alive == Some(false) && !c.ok then consecutiveDead + 1 else 0;
      var verdict := Decide(c.ok, c.alive, consecutiveDead, seenAlive, c.fatal);
      if c.ok || delta > 0 || logDelta > 0 {
        lastProgress := c.progressAt;
      }
      var idle := c.idleAt - lastProgress;
      if IsStalled(c.ok, c.alive, idle, stall) {
        verdict := Stalled;
      }
      if verdict == DeadCandidate {
        if deadSince.None? {
          deadSince := Some(c.sinceAt);
        }
      } else {
        deadSince := None;
      }
      var deadFor := if deadSince.None? then None else Some(c.forAt - deadSince.value);
      if verdict == Healthy || ShouldStop(verdict, deadGrace, deadFor) {
        ActIsJustified(trace, k, start, deadGrace, stall, verdict);
      }
      if verdict == Healthy {
        return Up(k);
      }
      if ShouldStop(verdict, deadGrace, deadFor) {
        return Stopped(k, verdict);
      }
    }
    NoneActsNoneEnds(trace, |trace|, start, deadGrace, stall);
    return Watching;
  }

  // ----- what the rule means for a run -----

  ghost predicate Failed(c: Check) {
    !c.ok && c.alive.None? && c.io.None? && c.logSize.None?
  }

  /** Silence is never death: a run of failed probes is never stopped, however long. */
  lemma FailedProbesNeverEnd(trace: seq<Check>, k: nat, start: int, deadGrace: int, stall: int)
    requires k <= |trace| && forall i :: 0 <= i < k ==> Failed(trace[i])
    ensures NoneEnds(trace, k, start, deadGrace, stall)
  {
    forall i | 0 <= i < k
      ensures !Ends(trace, i, start, deadGrace, stall)
    {
      assert Failed(trace[i]);
      assert forall j: nat :: AbsentSince(trace, j, i) ==> Absent(trace[i]);
    }
  }

  /** A child that was seen alive and is then absent on two checks in a row ends the run by the second. */
  lemma SeenDeathEnds(trace: seq<Check>, seen: nat, k: nat, start: int, deadGrace: int, stall: int)
    requires seen < k < |trace| && trace[seen].alive == Some(true)
    requires Absent(trace[k - 1]) && Absent(trace[k])
    ensures exists at :: 0 <= at <= k && FirstEnd(trace, at, start, deadGrace, stall)
  {
    assert SawAlive(trace, k) && Ends(trace, k, start, deadGrace, stall);
    FirstEndExists(trace, k, start, deadGrace, stall);
  }

  lemma {:induction false} FirstEndExists(trace: seq<Check>, k: nat, start: int, deadGrace: int, stall: int)
    requires k < |trace| && Ends(trace, k, start, deadGrace, stall)
    ensures exists at :: 0 <= at <= k && FirstEnd(trace, at, start, deadGrace, stall)
  {
    if i :| 0 <= i < k && Ends(trace, i, start, deadGrace, stall) {
      FirstEndExists(trace, i, start, deadGrace, stall);
    } else {
      assert FirstEnd(trace, k, start, deadGrace, stall);
    }
  }

  /**
   * The stall clock also runs through failed probes. After nothing but failed probes, the
   * first sighting of a live, loading child ends the run exactly when the stall span has
   * passed, although no two samples were ever compared.
   */
  lemma FirstSightingStopsExactly(trace: seq<Check>, k: nat, start: int, deadGrace: int, stall: int)
    requires k < |trace| && forall i :: 0 <= i < k ==> Failed(trace[i])
    requires !trace[k].ok && trace[k].alive == Some(true)
    ensures FirstEnd(trace, k, start, deadGrace, stall) <==> trace[k].idleAt - start >= stall
    ensures StallJustified(trace, k, start, stall) <==> trace[k].idleAt - start >= stall
  {
    FailedProbesNeverEnd(trace, k, start, deadGrace, stall);
    forall i | 0 <= i <= k
      ensures !Progress(trace, i)
    {
      assert i < k ==> Failed(trace[i]);
      assert i > 0 ==> Failed(trace[i - 1]);
    }
    assert forall j: nat :: AbsentSince(trace, j, k) ==> Absent(trace[k]);
  }

  /** A failed probe, then 640 seconds into the run a child that has read and written a lot. */
  function LateSighting(): seq<Check> {
    [ Check(false, None, None, None, false, 10, 10, 10, 10),
      Check(false, Some(true), Some(Io(4_000_000_000, 1_000_000)), Some(5_000), false, 640, 640, 640, 640) ]
  }

  /** With the default limits that boot is stopped as stalled, and no two samples were compared. */
  lemma LateSightingIsStopped(outcome: Outcome)
    ensures ClockAdvances(0, LateSighting())
    ensures Justified(LateSighting(), 0, 120, 600, outcome) <==> outcome == Stopped(1, Stalled)
    ensures !Sampled(LateSighting(), 0) && !Sampled(LateSighting(), 1)
  {
    var trace := LateSighting();
    FailedProbesNeverEnd(trace, 1, 0, 120, 600);
    FirstSightingStopsExactly(trace, 1, 0, 120, 600);
    assert Ends(trace, 1, 0, 120, 600);
  }

  ghost predicate InSpan(trace: seq<Check>, i: nat, k: nat, stall: int)
    requires i <= k < |trace|
  {
    trace[k].idleAt - trace[i].progressAt < stall
  }

  ghost predicate Sampled(trace: seq<Check>, i: nat)
    requires i < |trace|
  {
    && i > 0
    && trace[i - 1].io.Some? && trace[i].io.Some?
    && trace[i - 1].logSize.Some? && trace[i].logSize.Some?
  }

  /** The endpoint did not answer, and both samples were compared and had not grown. */
  ghost predicate Silent(trace: seq<Check>, i: nat)
    requires i < |trace|
  {
    && Sampled(trace, i) && !trace[i].ok
    && Moved(trace[i - 1].io.value, trace[i].io.value) <= 0
    && trace[i].logSize.value <= trace[i - 1].logSize.value
  }

  /**
   * A stop for stalling rests on observed silence over the whole span exactly when
   * every check of the span could compare both of its samples.
   */
  lemma StallObservedExactly(trace: seq<Check>, k: nat, start: int, stall: int)
    requires k < |trace| && StallJustified(trace, k, start, stall)
    ensures (forall i: nat :: i <= k && InSpan(trace, i, k, stall) ==> Silent(trace, i))
       <==> (forall i: nat :: i <= k && InSpan(trace, i, k, stall) ==> Sampled(trace, i))
  {
    forall i: nat | i <= k && InSpan(trace, i, k, stall) && Sampled(trace, i)
      ensures Silent(trace, i)
    {
      assert !Progress(trace, i);
    }
  }
}
