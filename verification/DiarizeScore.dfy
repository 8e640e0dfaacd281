/** From scored intervals to the error rate: the accounting identity and the optimal mapping. */
module DiarizeScore {
  import opened Results
  import opened Sorting
  import opened Text
  import opened DiarizeSearch
  import opened Diarize

  // ----- counting speakers -----

  /** The hypothesis labels that `m` attributes to an active reference speaker. */
  function Rightly(m: Mapping, ref: set<string>, hyp: set<string>): set<string> {
    set h | h in hyp && h in m && m[h] in ref
  }

  /** A one-to-one mapping does not merge labels. */
  lemma {:induction false} ImageSize(m: Mapping, hs: set<string>)
    requires OneToOne(m) && forall h :: h in hs ==> h in m
    ensures |Matched(m, hs)| == |hs|
  {
    if hs == {} {
      assert Matched(m, hs) == {};
    } else {
      var h :| h in hs;
      var rest := hs - {h};
      ImageSize(m, rest);
      assert Matched(m, hs) == Matched(m, rest) + {m[h]};
      assert m[h] !in Matched(m, rest);
    }
  }

  lemma SplitSize<T>(s: set<T>, t: set<T>)
    ensures |s| == |s * t| + |s - t|
  {
    assert s == (s * t) + (s - t);
  }

  /** Both sides of an instant, measured by how many labels are rightly attributed. */
  lemma SideSizes(m: Mapping, ref: set<string>, hyp: set<string>)
    requires OneToOne(m)
    ensures var right := |Rightly(m, ref, hyp)|;
      && right <= |ref| && right <= |hyp|
      && |ref * Matched(m, hyp)| == right
      && |ref - Matched(m, hyp)| == |ref| - right
      && |Misattributed(m, ref, hyp)| == |hyp| - right
  {
    var right, matched := Rightly(m, ref, hyp), Matched(m, hyp);
    ImageSize(m, right);
    assert ref * matched == Matched(m, right);
    SplitSize(ref, matched);
    assert hyp * right == right && Misattributed(m, ref, hyp) == hyp - right;
    SplitSize(hyp, right);
  }

  /** The three error kinds and the correct time of an instant make up its longer side. */
  lemma InstantAccounting(m: Mapping, ref: set<string>, hyp: set<string>)
    requires OneToOne(m)
    ensures Worth(Missed, ref, hyp) + Worth(FalseAlarm, ref, hyp) + Worth(SpeakerError(m), ref, hyp) + Worth(Correct(m), ref, hyp)
         == Worth(Longest, ref, hyp)
    ensures Worth(Correct(m), ref, hyp) == |Rightly(m, ref, hyp)| <= |ref|
    ensures Worth(Correct(m), ref, hyp) <= |hyp|
  {
    SideSizes(m, ref, hyp);
  }

  /** The accounting identity over the whole region. */
  lemma {:induction false} AccountingTotal(p: Pair, m: Mapping, a: int, b: int)
    requires OneToOne(m)
    ensures Total(p, Missed, a, b) + Total(p, FalseAlarm, a, b) + Total(p, SpeakerError(m), a, b) + Total(p, Correct(m), a, b)
         == Total(p, Longest, a, b)
    decreases b - a
  {
    if a < b {
      AccountingTotal(p, m, a, b - 1);
      AccountingAt(p, m, b - 1);
    }
  }

  lemma AccountingAt(p: Pair, m: Mapping, t: int)
    requires OneToOne(m)
    ensures At(p, Missed, t) + At(p, FalseAlarm, t) + At(p, SpeakerError(m), t) + At(p, Correct(m), t) == At(p, Longest, t)
  {
    InstantAccounting(m, ActiveAt(p.reference, t), ActiveAt(p.hypothesis, t));
  }

  lemma CorrectAt(p: Pair, m: Mapping, t: int)
    requires OneToOne(m)
    ensures At(p, Correct(m), t) <= At(p, RefSpeech, t) && At(p, Correct(m), t) <= At(p, HypSpeech, t)
  {
    InstantAccounting(m, ActiveAt(p.reference, t), ActiveAt(p.hypothesis, t));
  }

  lemma {:induction false} CorrectTotal(p: Pair, m: Mapping, a: int, b: int)
    requires OneToOne(m)
    ensures Total(p, Correct(m), a, b) <= Total(p, RefSpeech, a, b)
    ensures Total(p, Correct(m), a, b) <= Total(p, HypSpeech, a, b)
    decreases b - a
  {
    if a < b {
      CorrectTotal(p, m, a, b - 1);
      CorrectAt(p, m, b - 1);
    }
  }

  /** All the errors the tool charges under mapping `m`. */
  ghost function Errors(p: Pair, m: Mapping): nat {
    Sum(p, Missed) + Sum(p, FalseAlarm) + Sum(p, SpeakerError(m))
  }

  lemma AccountingIdentity(p: Pair, m: Mapping)
    requires OneToOne(m)
    ensures Errors(p, m) + Sum(p, Correct(m)) == Sum(p, Longest)
  {
    AccountingTotal(p, m, p.lo, p.hi);
  }

  // ----- adding up labels -----

  function NoRepeats(labels: seq<string>): bool {
    forall i, j :: 0 <= i < j < |labels| ==> labels[i] != labels[j]
  }

  function SumLabels(labels: seq<string>, q: string -> Query, intervals: seq<Interval>): nat {
    if labels == [] then 0
    else SumLabels(labels[..|labels| - 1], q, intervals) + Added(q(labels[|labels| - 1]), intervals)
  }

  function CountLabels(labels: seq<string>, q: string -> Query, iv: Interval): nat {
    if labels == [] then 0
    else CountLabels(labels[..|labels| - 1], q, iv) + Worth(q(labels[|labels| - 1]), iv.ref, iv.hyp)
  }

  lemma {:induction false} SumLabelsSnoc(labels: seq<string>, q: string -> Query, intervals: seq<Interval>, iv: Interval)
    ensures SumLabels(labels, q, intervals + [iv]) == SumLabels(labels, q, intervals) + iv.duration * CountLabels(labels, q, iv)
  {
    if labels != [] {
      var before, last := labels[..|labels| - 1], labels[|labels| - 1];
      SumLabelsSnoc(before, q, intervals, iv);
      AddedOne(q(last), intervals, iv);
      NextShare(iv.duration, CountLabels(before, q, iv), Worth(q(last), iv.ref, iv.hyp), CountLabels(labels, q, iv));
    }
  }

  lemma NextShare(d: nat, a: nat, b: nat, both: nat)
    requires both == a + b
    ensures d * both == d * a + d * b
  {
  }

  /** If the labels account for a quantity in every interval, they account for it in total. */
  lemma {:induction false} SumLabelsIs(labels: seq<string>, q: string -> Query, whole: Query, intervals: seq<Interval>)
    requires forall iv :: iv in intervals ==> CountLabels(labels, q, iv) == Worth(whole, iv.ref, iv.hyp)
    ensures SumLabels(labels, q, intervals) == Added(whole, intervals)
  {
    if intervals == [] {
      NoIntervals(labels, q);
    } else {
      var before, iv := intervals[..|intervals| - 1], intervals[|intervals| - 1];
      assert intervals == before + [iv];
      SumLabelsIs(labels, q, whole, before);
      SumLabelsSnoc(labels, q, before, iv);
      AddedOne(whole, before, iv);
    }
  }

  lemma {:induction false} NoIntervals(labels: seq<string>, q: string -> Query)
    ensures SumLabels(labels, q, []) == 0
  {
    if labels != [] {
      NoIntervals(labels[..|labels| - 1], q);
    }
  }

  /** How many of `labels` are in `s`. */
  function CountIn(labels: seq<string>, s: set<string>): nat {
    if labels == [] then 0
    else CountIn(labels[..|labels| - 1], s) + if labels[|labels| - 1] in s then 1 else 0
  }

  lemma {:induction false} CountInSize(labels: seq<string>, s: set<string>)
    requires NoRepeats(labels)
    ensures CountIn(labels, s) == |set x | x in s && x in labels|
  {
    var here := set x | x in s && x in labels;
    if labels == [] {
      assert here == {};
    } else {
      var before, last := labels[..|labels| - 1], labels[|labels| - 1];
      var less := set x | x in s && x in before;
      CountInSize(before, s);
      assert labels == before + [last];
      assert last !in before;
      assert here == if last in s then less + {last} else less;
    }
  }

  lemma {:induction false} CountsAre(labels: seq<string>, q: string -> Query, iv: Interval, s: set<string>)
    requires forall k :: 0 <= k < |labels| ==> Worth(q(labels[k]), iv.ref, iv.hyp) == if labels[k] in s then 1 else 0
    ensures CountLabels(labels, q, iv) == CountIn(labels, s)
  {
    if labels != [] {
      CountsAre(labels[..|labels| - 1], q, iv, s);
    }
  }

  /** The labels account for one interval when they list everyone in `s`. */
  lemma LabelsCount(labels: seq<string>, q: string -> Query, iv: Interval, s: set<string>)
    requires NoRepeats(labels) && forall x :: x in s ==> x in labels
    requires forall k :: 0 <= k < |labels| ==> Worth(q(labels[k]), iv.ref, iv.hyp) == if labels[k] in s then 1 else 0
    ensures CountLabels(labels, q, iv) == |s|
  {
    CountsAre(labels, q, iv, s);
    CountInSize(labels, s);
    assert (set x | x in s && x in labels) == s;
  }

  // ----- the labels of a sweep -----

  /** `refs` and `hyps` list, without repeats, everyone who speaks in some scored interval. */
  ghost predicate Listed(intervals: seq<Interval>, refs: seq<string>, hyps: seq<string>) {
    && NoRepeats(refs) && NoRepeats(hyps)
    && forall iv :: iv in intervals ==>
         (forall x :: x in iv.ref ==> x in refs) && (forall x :: x in iv.hyp ==> x in hyps)
  }

  /** Adding up the label totals gives the speech totals. */
  lemma SpeechByLabel(intervals: seq<Interval>, refs: seq<string>, hyps: seq<string>)
    requires Listed(intervals, refs, hyps)
    ensures SumLabels(refs, RefOf, intervals) == Added(RefSpeech, intervals)
    ensures SumLabels(hyps, HypOf, intervals) == Added(HypSpeech, intervals)
  {
    forall iv | iv in intervals
      ensures CountLabels(refs, RefOf, iv) == Worth(RefSpeech, iv.ref, iv.hyp)
      ensures CountLabels(hyps, HypOf, iv) == Worth(HypSpeech, iv.ref, iv.hyp)
    {
      LabelsCount(refs, RefOf, iv, iv.ref);
      LabelsCount(hyps, HypOf, iv, iv.hyp);
    }
    SumLabelsIs(refs, RefOf, RefSpeech, intervals);
    SumLabelsIs(hyps, HypOf, HypSpeech, intervals);
  }

  /** What hypothesis label `h` contributes to the correct time under `m`. */
  function CorrectOf(m: Mapping): string -> Query {
    (h: string) => if h in m then Together(m[h], h) else Nothing
  }

  /** The correct time is the sum, over hypothesis labels, of the time shared with their reference speaker. */
  lemma CorrectByLabel(intervals: seq<Interval>, refs: seq<string>, hyps: seq<string>, m: Mapping)
    requires Listed(intervals, refs, hyps) && OneToOne(m)
    ensures SumLabels(hyps, CorrectOf(m), intervals) == Added(Correct(m), intervals)
  {
    forall iv | iv in intervals
      ensures CountLabels(hyps, CorrectOf(m), iv) == Worth(Correct(m), iv.ref, iv.hyp)
    {
      LabelsCount(hyps, CorrectOf(m), iv, Rightly(m, iv.ref, iv.hyp));
      InstantAccounting(m, iv.ref, iv.hyp);
    }
    SumLabelsIs(hyps, CorrectOf(m), Correct(m), intervals);
  }

  // ----- assignments and mappings -----

  ghost predicate InRange(a: Assignment, refs: seq<string>, hyps: seq<string>) {
    forall h :: h in a ==> h < |hyps| && a[h] < |refs|
  }

  /** The assignment read as a mapping between labels. */
  function MappingOf(a: Assignment, refs: seq<string>, hyps: seq<string>): (m: Mapping)
    requires NoRepeats(hyps) && forall h :: h in a ==> h < |hyps| && a[h] < |refs|
  {
    map h | h in a :: hyps[h] := refs[a[h]]
  }

  lemma MappingLookup(a: Assignment, refs: seq<string>, hyps: seq<string>, h: nat)
    requires NoRepeats(hyps) && InRange(a, refs, hyps) && h < |hyps|
    ensures h in a <==> hyps[h] in MappingOf(a, refs, hyps)
    ensures h in a ==> MappingOf(a, refs, hyps)[hyps[h]] == refs[a[h]]
  {
  }

  lemma MappingOneToOne(p: Problem, a: Assignment, refs: seq<string>, hyps: seq<string>)
    requires NoRepeats(refs) && NoRepeats(hyps) && Injection(p, a) && p.nRef == |refs| && p.nHyp == |hyps|
    ensures OneToOne(MappingOf(a, refs, hyps))
  {
    var m := MappingOf(a, refs, hyps);
    forall x, y | x in m && y in m && m[x] == m[y]
      ensures x == y
    {
      var g :| g in a && hyps[g] == x;
      var h :| h in a && hyps[h] == y;
      MappingLookup(a, refs, hyps, g);
      MappingLookup(a, refs, hyps, h);
      assert a[g] == a[h];
    }
  }

  /** The assignment problem the scorer poses: shared time per pair of labels. */
  ghost predicate Poses(p: Problem, refs: seq<string>, hyps: seq<string>, intervals: seq<Interval>) {
    && p.nRef == |refs| && p.nHyp == |hyps|
    && forall r, h :: 0 <= r < |refs| && 0 <= h < |hyps| ==>
         Weight(p, r, h) == Added(Together(refs[r], hyps[h]), intervals) as real
  }

  /** `w` of every label, added up. */
  ghost function LabelSum(labels: seq<string>, w: string -> real): real {
    if labels == [] then 0.0 else LabelSum(labels[..|labels| - 1], w) + w(labels[|labels| - 1])
  }

  /** `w` gives each label the weight of the pair that the assignment puts it in. */
  ghost predicate PairsWeigh(p: Problem, a: Assignment, labels: seq<string>, w: string -> real) {
    forall h: nat :: h < |labels| ==> w(labels[h]) == if h in a then Weight(p, a[h], h) else 0.0
  }

  lemma {:induction false} ValueIsLabelSum(p: Problem, a: Assignment, labels: seq<string>, w: string -> real, n: nat)
    requires n <= |labels| && PairsWeigh(p, a, labels, w)
    ensures Value(p, a, n) == LabelSum(labels[..n], w)
  {
    if n > 0 {
      ValueIsLabelSum(p, a, labels, w, n - 1);
      assert labels[..n][..n - 1] == labels[..n - 1];
      assert w(labels[n - 1]) == if n - 1 in a then Weight(p, a[n - 1], n - 1) else 0.0;
    }
  }

  ghost function AddedReal(q: string -> Query, intervals: seq<Interval>): string -> real {
    (h: string) => Added(q(h), intervals) as real
  }

  lemma {:induction false} LabelSumIs(labels: seq<string>, q: string -> Query, intervals: seq<Interval>)
    ensures LabelSum(labels, AddedReal(q, intervals)) == SumLabels(labels, q, intervals) as real
  {
    if labels != [] {
      LabelSumIs(labels[..|labels| - 1], q, intervals);
    }
  }

  lemma PairsShareTime(p: Problem, a: Assignment, refs: seq<string>, hyps: seq<string>, intervals: seq<Interval>)
    requires Poses(p, refs, hyps, intervals) && NoRepeats(hyps) && InRange(a, refs, hyps)
    ensures PairsWeigh(p, a, hyps, AddedReal(CorrectOf(MappingOf(a, refs, hyps)), intervals))
  {
    NothingAdds(intervals);
    forall h: nat | h < |hyps|
      ensures Added(CorrectOf(MappingOf(a, refs, hyps))(hyps[h]), intervals) as real == if h in a then Weight(p, a[h], h) else 0.0
    {
      MappingLookup(a, refs, hyps, h);
    }
  }

  /** An assignment is worth exactly the correct time of its mapping. */
  lemma ValueIsSum(p: Problem, a: Assignment, refs: seq<string>, hyps: seq<string>, intervals: seq<Interval>)
    requires Poses(p, refs, hyps, intervals) && NoRepeats(hyps) && InRange(a, refs, hyps)
    ensures Value(p, a, |hyps|) == SumLabels(hyps, CorrectOf(MappingOf(a, refs, hyps)), intervals) as real
  {
    var q := CorrectOf(MappingOf(a, refs, hyps));
    PairsShareTime(p, a, refs, hyps, intervals);
    ValueIsLabelSum(p, a, hyps, AddedReal(q, intervals), |hyps|);
    LabelSumIs(hyps, q, intervals);
    assert hyps[..|hyps|] == hyps;
  }

  lemma {:induction false} NothingAdds(intervals: seq<Interval>)
    ensures Added(Nothing, intervals) == 0
  {
    if intervals != [] {
      NothingAdds(intervals[..|intervals| - 1]);
    }
  }

  lemma ValueIsCorrect(p: Problem, a: Assignment, refs: seq<string>, hyps: seq<string>, intervals: seq<Interval>)
    requires Poses(p, refs, hyps, intervals) && Listed(intervals, refs, hyps) && Injection(p, a)
    ensures Value(p, a, p.nHyp) == Added(Correct(MappingOf(a, refs, hyps)), intervals) as real
  {
    var m := MappingOf(a, refs, hyps);
    ValueIsSum(p, a, refs, hyps, intervals);
    assert OneToOne(m) by {
      MappingOneToOne(p, a, refs, hyps);
    }
    CorrectByLabel(intervals, refs, hyps, m);
  }

  function IndexOf(labels: seq<string>, x: string): (k: nat)
    requires x in labels
    ensures k < |labels| && labels[k] == x
  {
    if labels[0] == x then 0 else 1 + IndexOf(labels[1..], x)
  }

  /** A mapping cut down to the listed labels, as an assignment. */
  function AssignmentOf(m: Mapping, refs: seq<string>, hyps: seq<string>): Assignment {
    map h: nat | h < |hyps| && hyps[h] in m && m[hyps[h]] in refs :: IndexOf(refs, m[hyps[h]])
  }

  lemma AssignmentIsInjection(p: Problem, m: Mapping, refs: seq<string>, hyps: seq<string>)
    requires OneToOne(m) && NoRepeats(hyps) && p.nRef == |refs| && p.nHyp == |hyps|
    ensures Injection(p, AssignmentOf(m, refs, hyps))
  {
    var a := AssignmentOf(m, refs, hyps);
    forall g, h | g in a && h in a && a[g] == a[h]
      ensures g == h
    {
      assert m[hyps[g]] == m[hyps[h]];
    }
  }

  /** Labels that never speak change nothing: the cut-down mapping is as correct as the mapping. */
  lemma {:induction false} CutDownCorrect(m: Mapping, refs: seq<string>, hyps: seq<string>, intervals: seq<Interval>)
    requires Listed(intervals, refs, hyps)
    ensures Added(Correct(m), intervals) == Added(Correct(MappingOf(AssignmentOf(m, refs, hyps), refs, hyps)), intervals)
  {
    if intervals != [] {
      var iv := intervals[|intervals| - 1];
      assert iv in intervals;
      CutDownCorrect(m, refs, hyps, intervals[..|intervals| - 1]);
      CutDownInterval(m, refs, hyps, iv);
    }
  }

  lemma CutDownInterval(m: Mapping, refs: seq<string>, hyps: seq<string>, iv: Interval)
    requires NoRepeats(refs) && NoRepeats(hyps)
    requires (forall x :: x in iv.ref ==> x in refs) && (forall x :: x in iv.hyp ==> x in hyps)
    ensures Worth(Correct(m), iv.ref, iv.hyp) == Worth(Correct(MappingOf(AssignmentOf(m, refs, hyps), refs, hyps)), iv.ref, iv.hyp)
  {
    var a := AssignmentOf(m, refs, hyps);
    var small := MappingOf(a, refs, hyps);
    forall h | h in iv.hyp
      ensures h in small <==> h in m && m[h] in refs
      ensures h in small ==> small[h] == m[h]
    {
    }
    SameMatched(m, small, refs, iv.ref, iv.hyp);
  }

  lemma SameMatched(m: Mapping, small: Mapping, refs: seq<string>, ref: set<string>, hyp: set<string>)
    requires forall x :: x in ref ==> x in refs
    requires forall h :: h in hyp ==> (h in small <==> h in m && m[h] in refs) && (h in small ==> small[h] == m[h])
    ensures ref * Matched(m, hyp) == ref * Matched(small, hyp)
  {
  }

  /** The optimal assignment is the optimal mapping, among all one-to-one mappings of any labels. */
  lemma OptimalMapping(p: Problem, best: Leaf, refs: seq<string>, hyps: seq<string>, intervals: seq<Interval>)
    requires Poses(p, refs, hyps, intervals) && Listed(intervals, refs, hyps) && Optimum(p, best.value, best.assign)
    ensures OneToOne(MappingOf(best.assign, refs, hyps))
    ensures best.value == Added(Correct(MappingOf(best.assign, refs, hyps)), intervals) as real
    ensures forall m :: OneToOne(m) ==> Added(Correct(m), intervals) <= Added(Correct(MappingOf(best.assign, refs, hyps)), intervals)
  {
    ValueIsCorrect(p, best.assign, refs, hyps, intervals);
    forall m | OneToOne(m)
      ensures Added(Correct(m), intervals) <= Added(Correct(MappingOf(best.assign, refs, hyps)), intervals)
    {
      var a := AssignmentOf(m, refs, hyps);
      AssignmentIsInjection(p, m, refs, hyps);
      ValueIsCorrect(p, a, refs, hyps, intervals);
      CutDownCorrect(m, refs, hyps, intervals);
    }
  }

  // ----- the score -----

  datatype ScoreError = NegativeCollar | EmptyRegion | NoSegments | NoScoredSpeech | TooManySpeakers

  datatype Score = Score(
    lo: int, hi: int,
    referenceSpeech: nat, hypothesisSpeech: nat,
    correct: nat, missed: nat, falseAlarm: nat, speakerError: nat,
    der: real, jer: real,
    mapping: Mapping, nRef: nat, nHyp: nat)

  /** Shared time over joint time; nothing in common is worth nothing. */
  function Ratio(both: nat, ref: nat, hyp: nat): real {
    if both > 0 && ref + hyp - both > 0 then both as real / (ref + hyp - both) as real else 0.0
  }

  /** Overlap over union of the time of two labels. */
  ghost function Jaccard(p: Pair, r: string, h: string): real {
    Ratio(Sum(p, Together(r, h)), Sum(p, RefTime(r)), Sum(p, HypTime(h)))
  }

  /** The labels with scored time, each once. */
  ghost predicate ScoredLabels(p: Pair, refs: seq<string>, hyps: seq<string>) {
    && NoRepeats(refs) && NoRepeats(hyps)
    && (forall x :: x in refs <==> Sum(p, RefTime(x)) > 0)
    && (forall x :: x in hyps <==> Sum(p, HypTime(x)) > 0)
  }

  ghost predicate PosesJaccard(q: Problem, p: Pair, refs: seq<string>, hyps: seq<string>) {
    && q.nRef == |refs| && q.nHyp == |hyps|
    && forall r, h :: 0 <= r < |refs| && 0 <= h < |hyps| ==> Weight(q, r, h) == Jaccard(p, refs[r], hyps[h])
  }

  function JerOf(total: real, larger: nat): real
    requires larger > 0
  {
    1.0 - total / larger as real
  }

  /** One minus the best total overlap-over-union, per speaker of the larger side. */
  ghost predicate IsJer(p: Pair, nRef: nat, nHyp: nat, jer: real) {
    exists refs, hyps, q, best: Leaf ::
      && ScoredLabels(p, refs, hyps) && |refs| == nRef && |hyps| == nHyp && Larger(nRef, nHyp) > 0
      && PosesJaccard(q, p, refs, hyps) && Optimum(q, best.value, best.assign)
      && jer == JerOf(best.value, Larger(nRef, nHyp))
  }

  function Rate(errors: nat, speech: nat): real
    requires speech > 0
  {
    errors as real / speech as real
  }

  /** `m` is one-to-one, pairs only labels that speak together, and no one-to-one mapping is more correct. */
  ghost predicate BestFor(p: Pair, m: Mapping) {
    && OneToOne(m)
    && (forall h :: h in m ==> Sum(p, Together(m[h], h)) > 0)
    && (forall n :: OneToOne(n) ==> Sum(p, Correct(n)) <= Sum(p, Correct(m)))
  }

  /** What the reported times and the error rate mean, in terms of the instants of the region. */
  ghost predicate IsDer(p: Pair, sc: Score) {
    && sc.referenceSpeech == Sum(p, RefSpeech) > 0
    && sc.hypothesisSpeech == Sum(p, HypSpeech)
    && BestFor(p, sc.mapping)
    && sc.correct == Sum(p, Correct(sc.mapping))
    && sc.missed == Sum(p, Missed) && sc.falseAlarm == Sum(p, FalseAlarm)
    && sc.speakerError == Sum(p, SpeakerError(sc.mapping))
    && sc.der == Rate(sc.missed + sc.falseAlarm + sc.speakerError, sc.referenceSpeech)
  }

  ghost predicate IsScore(p: Pair, sc: Score) {
    IsDer(p, sc) && IsJer(p, sc.nRef, sc.nHyp, sc.jer)
  }

  lemma DerIs(p: Pair, tb: Tables, m: Mapping, sc: Score, errors: nat, der: real)
    requires SweepDone(p, tb) && BestFor(p, m) && sc.mapping == m
    requires sc.referenceSpeech == Sum(p, RefSpeech) > 0 && sc.hypothesisSpeech == Sum(p, HypSpeech)
    requires sc.correct == Added(Correct(m), tb.intervals) && sc.missed == Added(Missed, tb.intervals)
    requires sc.falseAlarm == Added(FalseAlarm, tb.intervals) && sc.speakerError == Added(SpeakerError(m), tb.intervals)
    requires errors == sc.missed + sc.falseAlarm + sc.speakerError && der == Rate(errors, sc.referenceSpeech) && sc.der == der
    ensures IsDer(p, sc)
  {
  }

  lemma ScoreIs(p: Pair, sc: Score, nRef: nat, nHyp: nat, jer: real)
    requires IsDer(p, sc) && IsJer(p, nRef, nHyp, jer) && sc.nRef == nRef && sc.nHyp == nHyp && sc.jer == jer
    ensures IsScore(p, sc)
  {
  }

  // ----- the method -----

  /** `sum(table.values())`, in label order. */
  method SumTable(m: map<string, nat>, labels: seq<string>, ghost q: string -> Query, ghost intervals: seq<Interval>) returns (s: nat)
    requires Tracks(m, q, intervals) && forall x :: x in labels ==> x in m
    ensures s == SumLabels(labels, q, intervals)
  {
    s := 0;
    var k := 0;
    while k < |labels|
      invariant 0 <= k <= |labels|
      invariant s == SumLabels(labels[..k], q, intervals)
    {
      assert labels[..k + 1][..k] == labels[..k];
      s := s + m[labels[k]];
      k := k + 1;
    }
    assert labels[..k] == labels;
  }

  /** One turn of the accounting loop, per unit of time. */
  method AccountInterval(iv: Interval, m: Mapping) returns (correct: nat, missed: nat, falseAlarm: nat, speakerError: nat)
    ensures correct == Worth(Correct(m), iv.ref, iv.hyp) && missed == Worth(Missed, iv.ref, iv.hyp)
    ensures falseAlarm == Worth(FalseAlarm, iv.ref, iv.hyp) && speakerError == Worth(SpeakerError(m), iv.ref, iv.hyp)
  {
    var matched := Matched(m, iv.hyp);
    correct, missed, falseAlarm, speakerError := |iv.ref * matched|, 0, 0, 0;
    if iv.hyp == {} {
      missed := |iv.ref|;
      return;
    }
    if iv.ref == {} {
      falseAlarm := |iv.hyp|;
      return;
    }
    var missedSide := |iv.ref - matched|;
    var attributedSide := |Misattributed(m, iv.ref, iv.hyp)|;
    speakerError := Larger(missedSide, attributedSide);
  }

  lemma AddedNext(q: Query, intervals: seq<Interval>, k: nat)
    requires k < |intervals|
    ensures Added(q, intervals[..k + 1]) ==
      Added(q, intervals[..k]) + intervals[k].duration * Worth(q, intervals[k].ref, intervals[k].hyp)
  {
    assert intervals[..k + 1] == intervals[..k] + [intervals[k]];
    AddedOne(q, intervals[..k], intervals[k]);
  }

  /** The accounting loop over the scored intervals. */
  method Account(intervals: seq<Interval>, m: Mapping) returns (correct: nat, missed: nat, falseAlarm: nat, speakerError: nat)
    ensures correct == Added(Correct(m), intervals) && missed == Added(Missed, intervals)
    ensures falseAlarm == Added(FalseAlarm, intervals) && speakerError == Added(SpeakerError(m), intervals)
  {
    correct, missed, falseAlarm, speakerError := 0, 0, 0, 0;
    var k := 0;
    while k < |intervals|
      invariant 0 <= k <= |intervals|
      invariant correct == Added(Correct(m), intervals[..k]) && missed == Added(Missed, intervals[..k])
      invariant falseAlarm == Added(FalseAlarm, intervals[..k]) && speakerError == Added(SpeakerError(m), intervals[..k])
    {
      var iv := intervals[k];
      AddedNext(Correct(m), intervals, k);
      AddedNext(Missed, intervals, k);
      AddedNext(FalseAlarm, intervals, k);
      AddedNext(SpeakerError(m), intervals, k);
      var c, ms, fa, se := AccountInterval(iv, m);
      correct := correct + iv.duration * c;
      missed := missed + iv.duration * ms;
      falseAlarm := falseAlarm + iv.duration * fa;
      speakerError := speakerError + iv.duration * se;
      k := k + 1;
    }
    assert intervals[..k] == intervals;
  }

  /** Everyone in a scored interval has an entry in the label tables. */
  lemma TablesListAll(tb: Tables, refs: seq<string>, hyps: seq<string>)
    requires TablesAgree(tb) && NoRepeats(refs) && NoRepeats(hyps)
    requires (forall x :: x in refs <==> x in tb.refTime) && (forall x :: x in hyps <==> x in tb.hypTime)
    ensures Listed(tb.intervals, refs, hyps)
  {
    forall iv, x | iv in tb.intervals && x in iv.ref
      ensures x in refs
    {
      AddedCounts(RefTime(x), tb.intervals, iv);
      assert x in tb.refTime <==> Added(RefOf(x), tb.intervals) > 0;
    }
    forall iv, x | iv in tb.intervals && x in iv.hyp
      ensures x in hyps
    {
      AddedCounts(HypTime(x), tb.intervals, iv);
      assert x in tb.hypTime <==> Added(HypOf(x), tb.intervals) > 0;
    }
  }

  lemma {:induction false} AddedCounts(q: Query, intervals: seq<Interval>, iv: Interval)
    requires iv in intervals && iv.duration > 0 && Worth(q, iv.ref, iv.hyp) == 1
    ensures Added(q, intervals) > 0
  {
    var before, last := intervals[..|intervals| - 1], intervals[|intervals| - 1];
    AddedAtLeast(q, before, last, intervals);
    if iv != last {
      assert iv in before;
      AddedCounts(q, before, iv);
    }
  }

  lemma AddedAtLeast(q: Query, before: seq<Interval>, last: Interval, intervals: seq<Interval>)
    requires intervals != [] && before == intervals[..|intervals| - 1] && last == intervals[|intervals| - 1]
    ensures Added(q, intervals) >= Added(q, before)
    ensures last.duration > 0 && Worth(q, last.ref, last.hyp) == 1 ==> Added(q, intervals) > Added(q, before)
  {
    ShareCounts(last.duration, Worth(q, last.ref, last.hyp));
  }

  lemma ShareCounts(d: nat, w: nat)
    ensures d * w >= 0
    ensures d > 0 && w == 1 ==> d * w > 0
  {
  }

  /** The tables of a finished sweep, seen through the per-instant definition. */
  ghost predicate SweepDone(p: Pair, tb: Tables) {
    TablesAgree(tb) && forall q :: Added(q, tb.intervals) == Sum(p, q)
  }

  lemma LabelsAreScored(p: Pair, tb: Tables, refs: seq<string>, hyps: seq<string>)
    requires SweepDone(p, tb) && Increasing(refs, StrLe) && Increasing(hyps, StrLe)
    requires (forall x :: x in refs <==> x in tb.refTime) && (forall x :: x in hyps <==> x in tb.hypTime)
    ensures ScoredLabels(p, refs, hyps) && Listed(tb.intervals, refs, hyps)
  {
    TablesListAll(tb, refs, hyps);
    forall x
      ensures x in refs <==> Sum(p, RefTime(x)) > 0
      ensures x in hyps <==> Sum(p, HypTime(x)) > 0
    {
      assert x in tb.refTime <==> Added(RefOf(x), tb.intervals) > 0;
      assert x in tb.hypTime <==> Added(HypOf(x), tb.intervals) > 0;
    }
  }

  /** `overlap_weights`, by label index. */
  method OverlapProblem(tb: Tables, refs: seq<string>, hyps: seq<string>) returns (q: Problem)
    requires TablesAgree(tb)
    ensures Poses(q, refs, hyps, tb.intervals) && NonNegative(q)
  {
    var weights := map r: nat, h: nat | r < |refs| && h < |hyps| && (refs[r], hyps[h]) in tb.inter ::
      (r, h) := tb.inter[(refs[r], hyps[h])] as real;
    q := Problem(|refs|, |hyps|, weights);
    forall r, h | 0 <= r < |refs| && 0 <= h < |hyps|
      ensures Weight(q, r, h) == Added(Together(refs[r], hyps[h]), tb.intervals) as real
    {
      var pair := (refs[r], hyps[h]);
      assert pair in tb.inter <==> Added(BothOf(pair), tb.intervals) > 0;
    }
  }

  lemma JaccardEntry(p: Pair, tb: Tables, r: string, h: string)
    requires SweepDone(p, tb) && r in tb.refTime && h in tb.hypTime
    ensures Sum(p, RefTime(r)) == tb.refTime[r] && Sum(p, HypTime(h)) == tb.hypTime[h]
    ensures (r, h) in tb.inter ==> Sum(p, Together(r, h)) == tb.inter[(r, h)] > 0
    ensures (r, h) !in tb.inter ==> Sum(p, Together(r, h)) == 0
  {
    assert RefOf(r) == RefTime(r) && HypOf(h) == HypTime(h) && BothOf((r, h)) == Together(r, h);
  }

  /** The Jaccard weights, by label index; a pair whose union is empty weighs nothing. */
  method JaccardProblem(ghost p: Pair, tb: Tables, refs: seq<string>, hyps: seq<string>) returns (q: Problem)
    requires SweepDone(p, tb)
    requires (forall x :: x in refs ==> x in tb.refTime) && (forall x :: x in hyps ==> x in tb.hypTime)
    ensures PosesJaccard(q, p, refs, hyps)
  {
    var weights := map r: nat, h: nat
      | r < |refs| && h < |hyps| && (refs[r], hyps[h]) in tb.inter ::
      (r, h) := Ratio(tb.inter[(refs[r], hyps[h])], Get(tb.refTime, refs[r]), Get(tb.hypTime, hyps[h]));
    q := Problem(|refs|, |hyps|, weights);
    forall r, h | 0 <= r < |refs| && 0 <= h < |hyps|
      ensures Weight(q, r, h) == Jaccard(p, refs[r], hyps[h])
    {
      JaccardEntry(p, tb, refs[r], hyps[h]);
    }
  }

  function LastEnd(segs: seq<Segment>): int
    requires segs != []
  {
    if |segs| == 1 then segs[0].end
    else
      var rest := LastEnd(segs[1..]);
      if segs[0].end >= rest then segs[0].end else rest
  }

  lemma {:induction false} LastEndBounds(segs: seq<Segment>)
    requires segs != []
    ensures forall s :: s in segs ==> s.end <= LastEnd(segs)
  {
    if |segs| > 1 {
      LastEndBounds(segs[1..]);
      assert forall s :: s in segs <==> s == segs[0] || s in segs[1..];
    }
  }

  /** The scored region: the given one, or `[0, last end)`. */
  function Region(reference: seq<Segment>, hypothesis: seq<Segment>, uem: Option<(int, int)>): Result<(int, int), ScoreError> {
    match uem
    case Some(u) => if u.1 <= u.0 then Err(EmptyRegion) else Ok(u)
    case None => if reference + hypothesis == [] then Err(NoSegments) else Ok((0, LastEnd(reference + hypothesis)))
  }

  ghost predicate TooMany(p: Pair) {
    exists refs, hyps :: ScoredLabels(p, refs, hyps) && (|refs| > MAX_SPEAKERS || |hyps| > MAX_SPEAKERS)
  }

  lemma {:induction false} ListSize(labels: seq<string>, names: set<string>)
    requires NoRepeats(labels) && forall x :: x in labels <==> x in names
    ensures |labels| == |names|
  {
    if labels != [] {
      var k := |labels| - 1;
      assert labels == labels[..k] + [labels[k]];
      ListSize(labels[..k], names - {labels[k]});
    } else {
      assert names == {};
    }
  }

  /** All lists of the scored labels are equally long, so any of them tells whether there are too many. */
  lemma TooManyIs(p: Pair, refs: seq<string>, hyps: seq<string>)
    requires ScoredLabels(p, refs, hyps)
    ensures TooMany(p) <==> |refs| > MAX_SPEAKERS || |hyps| > MAX_SPEAKERS
  {
    forall refs', hyps' | ScoredLabels(p, refs', hyps')
      ensures |refs'| == |refs| && |hyps'| == |hyps|
    {
      ListSize(refs, set x | x in refs);
      ListSize(refs', set x | x in refs);
      ListSize(hyps, set x | x in hyps);
      ListSize(hyps', set x | x in hyps);
    }
  }

  /**
    `score_pair`: refuses exactly what it says it refuses, and otherwise reports the score of the
    pair as the per-instant definition has it.
   */
  method ScorePair(reference: seq<Segment>, hypothesis: seq<Segment>, collar: int, overlap: Overlap, uem: Option<(int, int)>)
    returns (r: Result<Score, ScoreError>)
    ensures r == Err(NegativeCollar) <==> collar < 0
    ensures collar >= 0 && Region(reference, hypothesis, uem).Err? ==> r == Err(Region(reference, hypothesis, uem).error)
    ensures collar >= 0 && Region(reference, hypothesis, uem).Ok? ==>
      var region := Region(reference, hypothesis, uem).value;
      var p := Pair(reference, hypothesis, collar, overlap, region.0, region.1);
      && (r == Err(NoScoredSpeech) <==> Sum(p, RefSpeech) == 0)
      && (r == Err(TooManySpeakers) <==> Sum(p, RefSpeech) > 0 && TooMany(p))
      && (r.Ok? ==> IsScore(p, r.value))
      && (r.Err? ==> r.error == NoScoredSpeech || r.error == TooManySpeakers)
  {
    if collar < 0 {
      return Err(NegativeCollar);
    }
    var region := Region(reference, hypothesis, uem);
    if region.Err? {
      return Err(region.error);
    }
    var p := Pair(reference, hypothesis, collar, overlap, region.value.0, region.value.1);
    if uem.None? {
      LastEndBounds(reference + hypothesis);
    }
    var tb := Sweep(p);
    r := ScoreTables(p, tb);
  }

  /** The overlap-maximising mapping, unless there are too many speakers to search exactly. */
  method BestMapping(ghost p: Pair, tb: Tables, refs: seq<string>, hyps: seq<string>) returns (m: Option<Mapping>)
    requires SweepDone(p, tb) && Listed(tb.intervals, refs, hyps)
    ensures m.None? <==> |refs| > MAX_SPEAKERS || |hyps| > MAX_SPEAKERS
    ensures m.Some? ==> BestFor(p, m.value)
  {
    var q := OverlapProblem(tb, refs, hyps);
    var best := SearchInjection(q);
    if best.None? {
      return None;
    }
    MappingIsBest(p, tb, q, best.value, refs, hyps);
    return Some(MappingOf(best.value.assign, refs, hyps));
  }

  lemma MappingIsBest(p: Pair, tb: Tables, q: Problem, best: Leaf, refs: seq<string>, hyps: seq<string>)
    requires SweepDone(p, tb) && Listed(tb.intervals, refs, hyps) && Poses(q, refs, hyps, tb.intervals) && NonNegative(q)
    requires best == Answer(q) && Optimum(q, best.value, best.assign)
    ensures InRange(best.assign, refs, hyps) && BestFor(p, MappingOf(best.assign, refs, hyps))
  {
    var m := MappingOf(best.assign, refs, hyps);
    OptimalMapping(q, best, refs, hyps, tb.intervals);
    MappedPairsShareTime(p, q, best, refs, hyps, tb);
    assert Added(Correct(m), tb.intervals) == Sum(p, Correct(m));
    forall n | OneToOne(n)
      ensures Sum(p, Correct(n)) <= Sum(p, Correct(m))
    {
      assert Added(Correct(n), tb.intervals) == Sum(p, Correct(n));
    }
  }

  /** The Jaccard error rate of a pair with few enough speakers. */
  method BestJer(ghost p: Pair, tb: Tables, refs: seq<string>, hyps: seq<string>) returns (jer: real)
    requires SweepDone(p, tb) && ScoredLabels(p, refs, hyps) && 0 < |refs| <= MAX_SPEAKERS && |hyps| <= MAX_SPEAKERS
    requires (forall x :: x in refs ==> x in tb.refTime) && (forall x :: x in hyps ==> x in tb.hypTime)
    ensures IsJer(p, |refs|, |hyps|, jer)
  {
    var q := JaccardProblem(p, tb, refs, hyps);
    var best := SearchInjection(q);
    jer := JerOf(best.value.value, Larger(|refs|, |hyps|));
  }

  /** The numbers of a pair that can be scored. */
  method Report(p: Pair, tb: Tables, refs: seq<string>, hyps: seq<string>, m: Mapping, referenceSpeech: nat, hypothesisSpeech: nat)
    returns (sc: Score)
    requires SweepDone(p, tb) && ScoredLabels(p, refs, hyps) && 0 < |refs| <= MAX_SPEAKERS && |hyps| <= MAX_SPEAKERS
    requires (forall x :: x in refs ==> x in tb.refTime) && (forall x :: x in hyps ==> x in tb.hypTime)
    requires referenceSpeech == Sum(p, RefSpeech) > 0 && hypothesisSpeech == Sum(p, HypSpeech) && BestFor(p, m)
    ensures IsScore(p, sc)
  {
    var correct, missed, falseAlarm, speakerError := Account(tb.intervals, m);
    var jer := BestJer(p, tb, refs, hyps);
    var errors := missed + falseAlarm + speakerError;
    var der := Rate(errors, referenceSpeech);
    sc := Score(p.lo, p.hi, referenceSpeech, hypothesisSpeech, correct, missed, falseAlarm, speakerError, der, jer,
                m, |refs|, |hyps|);
    DerIs(p, tb, m, sc, errors, der);
    ScoreIs(p, sc, |refs|, |hyps|, jer);
  }

  /** From the tables to the reported numbers. */
  method ScoreTables(p: Pair, tb: Tables) returns (r: Result<Score, ScoreError>)
    requires SweepDone(p, tb)
    ensures r == Err(NoScoredSpeech) <==> Sum(p, RefSpeech) == 0
    ensures r == Err(TooManySpeakers) <==> Sum(p, RefSpeech) > 0 && TooMany(p)
    ensures r.Ok? ==> IsScore(p, r.value)
    ensures r.Err? ==> r.error == NoScoredSpeech || r.error == TooManySpeakers
  {
    var refs, hyps, referenceSpeech, hypothesisSpeech := SortedLabels(p, tb);
    if referenceSpeech == 0 {
      return Err(NoScoredSpeech);
    }
    TooManyIs(p, refs, hyps);
    var mapping := BestMapping(p, tb, refs, hyps);
    if mapping.None? {
      return Err(TooManySpeakers);
    }
    var sc := Report(p, tb, refs, hyps, mapping.value, referenceSpeech, hypothesisSpeech);
    r := Ok(sc);
  }

  /** The sorted labels of both sides, and how much scored speech each side has. */
  method SortedLabels(ghost p: Pair, tb: Tables) returns (refs: seq<string>, hyps: seq<string>, referenceSpeech: nat, hypothesisSpeech: nat)
    requires SweepDone(p, tb)
    ensures ScoredLabels(p, refs, hyps) && Listed(tb.intervals, refs, hyps)
    ensures (forall x :: x in refs ==> x in tb.refTime) && (forall x :: x in hyps ==> x in tb.hypTime)
    ensures referenceSpeech == Sum(p, RefSpeech) && hypothesisSpeech == Sum(p, HypSpeech)
    ensures referenceSpeech > 0 ==> |refs| > 0
  {
    StrLeOrder();
    refs, hyps := SortedSet(tb.refTime.Keys, StrLe), SortedSet(tb.hypTime.Keys, StrLe);
    LabelsAreScored(p, tb, refs, hyps);
    SpeechByLabel(tb.intervals, refs, hyps);
    referenceSpeech := SumTable(tb.refTime, refs, RefOf, tb.intervals);
    hypothesisSpeech := SumTable(tb.hypTime, hyps, HypOf, tb.intervals);
  }

  lemma PairSharesTime(p: Pair, q: Problem, best: Leaf, refs: seq<string>, hyps: seq<string>, tb: Tables, k: nat)
    requires SweepDone(p, tb) && Poses(q, refs, hyps, tb.intervals) && k in best.assign && k < |hyps| && best.assign[k] < |refs|
    requires Weight(q, best.assign[k], k) > 0.0
    ensures Sum(p, Together(refs[best.assign[k]], hyps[k])) > 0
  {
    assert Added(Together(refs[best.assign[k]], hyps[k]), tb.intervals) as real > 0.0;
  }

  /** No pair in the reported mapping has nothing in common. */
  lemma MappedPairsShareTime(p: Pair, q: Problem, best: Leaf, refs: seq<string>, hyps: seq<string>, tb: Tables)
    requires SweepDone(p, tb) && Poses(q, refs, hyps, tb.intervals) && NoRepeats(hyps) && best == Answer(q) && Injection(q, best.assign)
    requires NonNegative(q)
    ensures var m := MappingOf(best.assign, refs, hyps);
      forall h :: h in m ==> Sum(p, Together(m[h], h)) > 0
  {
    var m := MappingOf(best.assign, refs, hyps);
    forall h | h in m
      ensures Sum(p, Together(m[h], h)) > 0
    {
      var k :| k in best.assign && hyps[k] == h;
      assert Weight(q, best.assign[k], k) > 0.0 by {
        AnswerPairsWeigh(q);
      }
      MappingLookup(best.assign, refs, hyps, k);
      PairSharesTime(p, q, best, refs, hyps, tb, k);
    }
  }
}
