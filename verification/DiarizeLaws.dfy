/** What a reader may conclude from a reported score. */
module DiarizeLaws {
  import opened Results
  import opened DiarizeSearch
  import opened Diarize
  import opened DiarizeScore
  import opened Quotients

  lemma RateOrder(a: nat, b: nat, speech: nat)
    requires speech > 0
    ensures a <= b <==> Rate(a, speech) <= Rate(b, speech)
  {
    QuotientOrder(a as real, b as real, speech as real);
  }

  /**
    The reported components add up to the longer side of every scored instant, and the correct time
    never exceeds either side.
   */
  lemma ComponentsAddUp(p: Pair, sc: Score)
    requires IsDer(p, sc)
    ensures sc.missed + sc.falseAlarm + sc.speakerError + sc.correct == Sum(p, Longest)
    ensures sc.correct <= sc.referenceSpeech && sc.correct <= sc.hypothesisSpeech
  {
    AccountingTotal(p, sc.mapping, p.lo, p.hi);
    CorrectTotal(p, sc.mapping, p.lo, p.hi);
  }

  /** The reported DER is the smallest any one-to-one mapping of labels gives, and it is attained. */
  lemma DerIsMinimum(p: Pair, sc: Score)
    requires IsDer(p, sc)
    ensures sc.der == Rate(Errors(p, sc.mapping), sc.referenceSpeech)
    ensures forall m :: OneToOne(m) ==> sc.der <= Rate(Errors(p, m), sc.referenceSpeech)
  {
    forall m | OneToOne(m) {
      NoMappingIsBetter(p, sc, m);
    }
  }

  lemma NoMappingIsBetter(p: Pair, sc: Score, m: Mapping)
    requires IsDer(p, sc) && OneToOne(m)
    ensures sc.der <= Rate(Errors(p, m), sc.referenceSpeech)
  {
    AccountingIdentity(p, sc.mapping);
    AccountingIdentity(p, m);
    assert Sum(p, Correct(m)) <= sc.correct;
    RateOrder(Errors(p, sc.mapping), Errors(p, m), sc.referenceSpeech);
  }

  // ----- relabelling -----

  ghost predicate Inverse(f: string -> string, fi: string -> string) {
    && (forall x :: fi(f(x)) == x)
    && (forall x :: f(fi(x)) == x)
  }

  function Relabelled(segs: seq<Segment>, f: string -> string): (r: seq<Segment>)
    ensures |r| == |segs| && forall k :: 0 <= k < |segs| ==> r[k] == segs[k].(speaker := f(segs[k].speaker))
  {
    if segs == [] then [] else [segs[0].(speaker := f(segs[0].speaker))] + Relabelled(segs[1..], f)
  }

  function Image(s: set<string>, f: string -> string): set<string> {
    set x | x in s :: f(x)
  }

  lemma {:induction false} ImageSame(s: set<string>, f: string -> string, fi: string -> string)
    requires Inverse(f, fi)
    ensures |Image(s, f)| == |s|
  {
    if s == {} {
      assert Image(s, f) == {};
    } else {
      var x :| x in s;
      ImageSame(s - {x}, f, fi);
      assert Image(s, f) == Image(s - {x}, f) + {f(x)};
      assert f(x) !in Image(s - {x}, f) by {
        forall y | y in s - {x}
          ensures f(y) != f(x)
        {
          assert fi(f(y)) == y && fi(f(x)) == x;
        }
      }
    }
  }

  lemma {:induction false} SameBoundaries(segs: seq<Segment>, f: string -> string)
    ensures Boundaries(Relabelled(segs, f)) == Boundaries(segs)
  {
    if segs != [] {
      SameBoundaries(segs[1..], f);
      assert Relabelled(segs, f)[1..] == Relabelled(segs[1..], f);
    }
  }

  lemma RelabelledActive(segs: seq<Segment>, f: string -> string, t: int)
    ensures ActiveAt(Relabelled(segs, f), t) == Image(ActiveAt(segs, t), f)
  {
    var r := Relabelled(segs, f);
    forall x | x in ActiveAt(r, t)
      ensures x in Image(ActiveAt(segs, t), f)
    {
      var k :| 0 <= k < |r| && r[k].start <= t < r[k].end && r[k].speaker == x;
      assert segs[k] in segs;
    }
    forall x | x in Image(ActiveAt(segs, t), f)
      ensures x in ActiveAt(r, t)
    {
      var y :| y in ActiveAt(segs, t) && f(y) == x;
      var k :| 0 <= k < |segs| && segs[k].start <= t < segs[k].end && segs[k].speaker == y;
      assert r[k] in r;
    }
  }

  /** The same recording with other names on both sides. */
  function Rename(p: Pair, f: string -> string, g: string -> string): Pair {
    p.(reference := Relabelled(p.reference, f), hypothesis := Relabelled(p.hypothesis, g))
  }

  lemma RenameScored(p: Pair, f: string -> string, fi: string -> string, g: string -> string, t: int)
    requires Inverse(f, fi)
    ensures Scored(Rename(p, f, g), t) == Scored(p, t)
  {
    SameBoundaries(p.reference, f);
    RelabelledActive(p.reference, f, t);
    ImageSame(ActiveAt(p.reference, t), f, fi);
  }

  /** The mapping `m`, under the new names. */
  function RenameMapping(m: Mapping, f: string -> string, gi: string -> string, hs: set<string>): Mapping {
    map h | h in hs && gi(h) in m :: f(m[gi(h)])
  }

  lemma RenameOneToOne(m: Mapping, f: string -> string, fi: string -> string, g: string -> string, gi: string -> string, hs: set<string>)
    requires Inverse(f, fi) && Inverse(g, gi) && OneToOne(m)
    ensures OneToOne(RenameMapping(m, f, gi, hs))
  {
    var n := RenameMapping(m, f, gi, hs);
    forall x, y | x in n && y in n && n[x] == n[y]
      ensures x == y
    {
      assert fi(f(m[gi(x)])) == m[gi(x)] && fi(f(m[gi(y)])) == m[gi(y)];
      assert g(gi(x)) == x && g(gi(y)) == y;
    }
  }

  lemma RenameWorth(m: Mapping, f: string -> string, fi: string -> string, g: string -> string, gi: string -> string, hs: set<string>,
                    ref: set<string>, hyp: set<string>)
    requires Inverse(f, fi) && Inverse(g, gi) && OneToOne(m) && Image(hyp, g) <= hs
    ensures Worth(Correct(RenameMapping(m, f, gi, hs)), Image(ref, f), Image(hyp, g)) == Worth(Correct(m), ref, hyp)
  {
    var n := RenameMapping(m, f, gi, hs);
    RenameOneToOne(m, f, fi, g, gi, hs);
    InstantAccounting(m, ref, hyp);
    InstantAccounting(n, Image(ref, f), Image(hyp, g));
    var right, right' := Rightly(m, ref, hyp), Rightly(n, Image(ref, f), Image(hyp, g));
    forall h | h in right
      ensures g(h) in right'
    {
      assert g(h) in Image(hyp, g) && gi(g(h)) == h && f(m[h]) in Image(ref, f);
    }
    forall x | x in right'
      ensures gi(x) in right && g(gi(x)) == x
    {
      var h :| h in hyp && g(h) == x;
      assert gi(g(h)) == h;
      var r :| r in ref && f(r) == n[x];
      assert fi(f(r)) == r && fi(f(m[h])) == m[h];
    }
    assert right' == Image(right, g);
    ImageSame(right, g, gi);
  }

  /** All labels of a list of segments. */
  function Labels(segs: seq<Segment>): set<string> {
    set s | s in segs :: s.speaker
  }

  lemma {:induction false} RenameTotals(p: Pair, m: Mapping, f: string -> string, fi: string -> string, g: string -> string, gi: string -> string, a: int, b: int)
    requires Inverse(f, fi) && Inverse(g, gi) && OneToOne(m)
    ensures var p' := Rename(p, f, g); var m' := RenameMapping(m, f, gi, Labels(p'.hypothesis));
      && Total(p', Correct(m'), a, b) == Total(p, Correct(m), a, b)
      && Total(p', RefSpeech, a, b) == Total(p, RefSpeech, a, b)
      && Total(p', Longest, a, b) == Total(p, Longest, a, b)
      && Total(p', Missed, a, b) == Total(p, Missed, a, b)
      && Total(p', FalseAlarm, a, b) == Total(p, FalseAlarm, a, b)
    decreases b - a
  {
    if a < b {
      RenameTotals(p, m, f, fi, g, gi, a, b - 1);
      RenameInstant(p, m, f, fi, g, gi, b - 1);
    }
  }

  lemma RenameInstant(p: Pair, m: Mapping, f: string -> string, fi: string -> string, g: string -> string, gi: string -> string, t: int)
    requires Inverse(f, fi) && Inverse(g, gi) && OneToOne(m)
    ensures var p' := Rename(p, f, g); var m' := RenameMapping(m, f, gi, Labels(p'.hypothesis));
      && At(p', Correct(m'), t) == At(p, Correct(m), t)
      && At(p', RefSpeech, t) == At(p, RefSpeech, t)
      && At(p', Longest, t) == At(p, Longest, t)
      && At(p', Missed, t) == At(p, Missed, t)
      && At(p', FalseAlarm, t) == At(p, FalseAlarm, t)
  {
    var ref, hyp := ActiveAt(p.reference, t), ActiveAt(p.hypothesis, t);
    RenameScored(p, f, fi, g, t);
    RelabelledActive(p.reference, f, t);
    RelabelledActive(p.hypothesis, g, t);
    RenameSizes(f, fi, g, gi, ref, hyp);
    RenameWorth(m, f, fi, g, gi, Labels(Relabelled(p.hypothesis, g)), ref, hyp);
  }

  lemma RenameSizes(f: string -> string, fi: string -> string, g: string -> string, gi: string -> string, ref: set<string>, hyp: set<string>)
    requires Inverse(f, fi) && Inverse(g, gi)
    ensures forall q :: q in {RefSpeech, Longest, Missed, FalseAlarm} ==> Worth(q, Image(ref, f), Image(hyp, g)) == Worth(q, ref, hyp)
  {
    ImageSame(ref, f, fi);
    ImageSame(hyp, g, gi);
  }

  /** Renaming can only gain correct time for the optimum; and renaming back cannot lose it. */
  lemma RenamedOptimum(p: Pair, sc: Score, sc': Score, f: string -> string, fi: string -> string, g: string -> string, gi: string -> string)
    requires Inverse(f, fi) && Inverse(g, gi) && IsDer(p, sc) && IsDer(Rename(p, f, g), sc')
    ensures sc.correct <= sc'.correct
    ensures sc'.referenceSpeech == sc.referenceSpeech && sc'.missed == sc.missed && sc'.falseAlarm == sc.falseAlarm
    ensures Sum(Rename(p, f, g), Longest) == Sum(p, Longest)
  {
    RenameTotals(p, sc.mapping, f, fi, g, gi, p.lo, p.hi);
    RenameOneToOne(sc.mapping, f, fi, g, gi, Labels(Rename(p, f, g).hypothesis));
  }

  /** The score does not depend on what either side calls its speakers. */
  lemma NamesDoNotMatter(p: Pair, sc: Score, sc': Score, f: string -> string, fi: string -> string, g: string -> string, gi: string -> string)
    requires Inverse(f, fi) && Inverse(g, gi) && IsDer(p, sc) && IsDer(Rename(p, f, g), sc')
    ensures sc'.referenceSpeech == sc.referenceSpeech && sc'.missed == sc.missed && sc'.falseAlarm == sc.falseAlarm
    ensures sc'.correct == sc.correct && sc'.speakerError == sc.speakerError && sc'.der == sc.der
  {
    var p' := Rename(p, f, g);
    RenamedOptimum(p, sc, sc', f, fi, g, gi);
    RenameBack(p, f, fi, g, gi);
    RenamedOptimum(p', sc', sc, fi, f, gi, g);
    AccountingIdentity(p, sc.mapping);
    AccountingIdentity(p', sc'.mapping);
  }

  lemma RenameBack(p: Pair, f: string -> string, fi: string -> string, g: string -> string, gi: string -> string)
    requires Inverse(f, fi) && Inverse(g, gi)
    ensures Rename(Rename(p, f, g), fi, gi) == p
  {
  }

  // ----- a relabelled copy is perfect -----

  function BackMapping(hs: set<string>, gi: string -> string): Mapping {
    map h | h in hs :: gi(h)
  }

  lemma {:induction false} CopyTotal(p: Pair, g: string -> string, gi: string -> string, a: int, b: int)
    requires Inverse(g, gi) && p.hypothesis == Relabelled(p.reference, g)
    ensures Total(p, Correct(BackMapping(Labels(p.hypothesis), gi)), a, b) == Total(p, Longest, a, b)
    decreases b - a
  {
    if a < b {
      CopyTotal(p, g, gi, a, b - 1);
      CopyInstant(p, g, gi, b - 1);
    }
  }

  lemma CopyInstant(p: Pair, g: string -> string, gi: string -> string, t: int)
    requires Inverse(g, gi) && p.hypothesis == Relabelled(p.reference, g)
    ensures At(p, Correct(BackMapping(Labels(p.hypothesis), gi)), t) == At(p, Longest, t)
  {
    RelabelledActive(p.reference, g, t);
    CopySets(p, ActiveAt(p.reference, t), g, gi, t);
  }

  lemma CopySets(p: Pair, ref: set<string>, g: string -> string, gi: string -> string, t: int)
    requires Inverse(g, gi) && ActiveAt(p.hypothesis, t) == Image(ref, g)
    ensures var hyp, m := ActiveAt(p.hypothesis, t), BackMapping(Labels(p.hypothesis), gi);
            ref * Matched(m, hyp) == ref && |hyp| == |ref|
  {
    var hyp, m := ActiveAt(p.hypothesis, t), BackMapping(Labels(p.hypothesis), gi);
    ImageSame(ref, g, gi);
    forall x | x in ref
      ensures x in Matched(m, hyp)
    {
      assert g(x) in hyp && gi(g(x)) == x;
    }
    assert ref * Matched(m, hyp) == ref;
  }

  /** A hypothesis that is the reference under other names has no error of any kind. */
  lemma RelabelledCopyScoresZero(p: Pair, sc: Score, g: string -> string, gi: string -> string)
    requires Inverse(g, gi) && p.hypothesis == Relabelled(p.reference, g) && IsDer(p, sc)
    ensures sc.missed == sc.falseAlarm == sc.speakerError == 0 && sc.der == 0.0
  {
    var m := BackMapping(Labels(p.hypothesis), gi);
    CopyTotal(p, g, gi, p.lo, p.hi);
    assert Sum(p, Correct(m)) <= sc.correct;
    ComponentsAddUp(p, sc);
    NoErrorsNoRate(p, sc);
  }

  lemma NoErrorsNoRate(p: Pair, sc: Score)
    requires IsDer(p, sc) && sc.missed + sc.falseAlarm + sc.speakerError == 0
    ensures sc.der == 0.0
  {
    WholeQuotient(sc.referenceSpeech as real);
  }

  // ----- the Jaccard error rate -----

  lemma {:induction false} TogetherIsLess(p: Pair, r: string, h: string, a: int, b: int)
    ensures Total(p, Together(r, h), a, b) <= Total(p, RefTime(r), a, b)
    ensures Total(p, Together(r, h), a, b) <= Total(p, HypTime(h), a, b)
    decreases b - a
  {
    if a < b {
      TogetherIsLess(p, r, h, a, b - 1);
    }
  }

  lemma JaccardInUnit(p: Pair, r: string, h: string)
    ensures 0.0 <= Jaccard(p, r, h) <= 1.0
  {
    TogetherIsLess(p, r, h, p.lo, p.hi);
    var both, either := Sum(p, Together(r, h)), Sum(p, RefTime(r)) + Sum(p, HypTime(h)) - Sum(p, Together(r, h));
    if both > 0 {
      RatioInUnit(both, either);
    }
  }

  lemma RatioInUnit(a: nat, b: nat)
    requires 0 < a <= b
    ensures 0.0 <= a as real / b as real <= 1.0
  {
    UnitQuotient(a as real, b as real);
  }

  lemma {:induction false} ValueInRange(q: Problem, a: Assignment, n: nat)
    requires forall h :: h in a && h < n ==> 0.0 <= Weight(q, a[h], h) <= 1.0
    ensures 0.0 <= Value(q, a, n) <= n as real
  {
    if n > 0 {
      ValueInRange(q, a, n - 1);
    }
  }

  /** The Jaccard error rate is a rate: between 0 and 1. */
  lemma JerInUnit(p: Pair, sc: Score)
    requires IsScore(p, sc)
    ensures 0.0 <= sc.jer <= 1.0
  {
    var refs, hyps, q, best: Leaf :|
      && ScoredLabels(p, refs, hyps) && |refs| == sc.nRef && |hyps| == sc.nHyp && Larger(sc.nRef, sc.nHyp) > 0
      && PosesJaccard(q, p, refs, hyps) && Optimum(q, best.value, best.assign)
      && sc.jer == JerOf(best.value, Larger(sc.nRef, sc.nHyp));
    forall h | h in best.assign
      ensures 0.0 <= Weight(q, best.assign[h], h) <= 1.0
    {
      JaccardInUnit(p, refs[best.assign[h]], hyps[h]);
    }
    ValueInRange(q, best.assign, q.nHyp);
    ShareInUnit(best.value, q.nHyp, Larger(sc.nRef, sc.nHyp));
  }

  lemma ShareInUnit(v: real, n: nat, longer: nat)
    requires 0.0 <= v <= n as real && n <= longer && longer > 0
    ensures 0.0 <= v / longer as real <= 1.0
  {
    UnitQuotient(v, longer as real);
  }

  // ----- pooling -----

  /** `sum(r[...] for r in results)` for a count, by the field it takes. */
  function Sums(scores: seq<Score>, of: Score -> nat): nat {
    if scores == [] then 0 else Sums(scores[..|scores| - 1], of) + of(scores[|scores| - 1])
  }

  function SumJer(scores: seq<Score>): real {
    if scores == [] then 0.0 else SumJer(scores[..|scores| - 1]) + scores[|scores| - 1].jer
  }

  function AllErrors(sc: Score): nat { sc.missed + sc.falseAlarm + sc.speakerError }

  function Speech(sc: Score): nat { sc.referenceSpeech }

  datatype PooledScore = PooledScore(
    pairs: nat, referenceSpeech: nat, missed: nat, falseAlarm: nat, speakerError: nat, der: real, jer: real)

  /** `pooled`: the errors of all pairs over all their speech and the mean Jaccard rate; refused when there is no speech. */
  function Pooled(scores: seq<Score>): Option<PooledScore> {
    var speech := Sums(scores, Speech);
    if speech == 0 then None
    else
      Some(PooledScore(|scores|, speech, Sums(scores, (sc: Score) => sc.missed), Sums(scores, (sc: Score) => sc.falseAlarm),
                       Sums(scores, (sc: Score) => sc.speakerError), Rate(Sums(scores, AllErrors), speech),
                       SumJer(scores) / |scores| as real))
  }

  ghost predicate Rated(sc: Score) {
    sc.referenceSpeech > 0 && sc.der == Rate(AllErrors(sc), sc.referenceSpeech)
  }

  ghost predicate Within(lo: real, hi: real, errors: nat, speech: nat) {
    lo * speech as real <= errors as real <= hi * speech as real
  }

  /** Adding a pair keeps the errors between `lo` and `hi` times the speech. */
  lemma AddWithin(lo: real, hi: real, e: nat, s: nat, e': nat, s': nat)
    requires Within(lo, hi, e, s) && s' > 0 && lo <= Rate(e', s') <= hi
    ensures Within(lo, hi, e + e', s + s')
  {
    RateWithin(lo, hi, e', s');
    Distributes(lo, s, s');
    Distributes(hi, s, s');
  }

  lemma Distributes(x: real, a: nat, b: nat)
    ensures x * (a + b) as real == x * a as real + x * b as real
  {
  }

  lemma RateWithin(lo: real, hi: real, e: nat, s: nat)
    requires s > 0 && lo <= Rate(e, s) <= hi
    ensures Within(lo, hi, e, s)
  {
    Divided(e as real, s as real);
    ProductOrder(Rate(e, s), lo, s as real);
    ProductOrder(hi, Rate(e, s), s as real);
  }

  lemma {:induction false} ErrorsWithin(scores: seq<Score>, lo: real, hi: real)
    requires forall sc :: sc in scores ==> Rated(sc) && lo <= sc.der <= hi
    ensures Within(lo, hi, Sums(scores, AllErrors), Sums(scores, Speech))
    ensures scores != [] ==> Sums(scores, Speech) > 0
  {
    if scores != [] {
      var before, last := scores[..|scores| - 1], scores[|scores| - 1];
      ErrorsWithin(before, lo, hi);
      assert last in scores;
      AddWithin(lo, hi, Sums(before, AllErrors), Sums(before, Speech), AllErrors(last), last.referenceSpeech);
    }
  }

  /** The pooled rate lies between the smallest and the largest of the pairs' rates. */
  lemma PooledBetween(scores: seq<Score>, lo: real, hi: real)
    requires scores != [] && forall sc :: sc in scores ==> Rated(sc) && lo <= sc.der <= hi
    ensures Pooled(scores).Some? && lo <= Pooled(scores).value.der <= hi
  {
    ErrorsWithin(scores, lo, hi);
    RateOf(lo, hi, Sums(scores, AllErrors), Sums(scores, Speech));
  }

  lemma RateOf(lo: real, hi: real, e: nat, s: nat)
    requires s > 0 && Within(lo, hi, e, s)
    ensures lo <= Rate(e, s) <= hi
  {
    Shared(lo, hi, e as real, s as real);
  }

  lemma Shared(lo: real, hi: real, x: real, s: real)
    requires s > 0.0 && lo * s <= x <= hi * s
    ensures lo <= x / s <= hi
  {
    Divided(x, s);
    ProductOrder(x / s, lo, s);
    ProductOrder(hi, x / s, s);
  }

  lemma {:induction false} ErrorsAddUp(scores: seq<Score>)
    ensures Sums(scores, AllErrors)
         == Sums(scores, (sc: Score) => sc.missed) + Sums(scores, (sc: Score) => sc.falseAlarm) + Sums(scores, (sc: Score) => sc.speakerError)
  {
    if scores != [] {
      ErrorsAddUp(scores[..|scores| - 1]);
    }
  }

  /** The pooled rate times the pooled speech is what the pooled components add up to. */
  lemma PooledAddsUp(scores: seq<Score>)
    requires Pooled(scores).Some?
    ensures var r := Pooled(scores).value; r.der * r.referenceSpeech as real == (r.missed + r.falseAlarm + r.speakerError) as real
  {
    ErrorsAddUp(scores);
    Divided(Sums(scores, AllErrors) as real, Sums(scores, Speech) as real);
  }

  lemma {:induction false} JersWithin(scores: seq<Score>, lo: real, hi: real)
    requires forall sc :: sc in scores ==> lo <= sc.jer <= hi
    ensures lo * |scores| as real <= SumJer(scores) <= hi * |scores| as real
  {
    if scores != [] {
      var k := |scores| - 1;
      JersWithin(scores[..k], lo, hi);
      assert scores[k] in scores;
      Distributes(lo, k, 1);
      Distributes(hi, k, 1);
    }
  }

  /** The pooled Jaccard rate, a plain mean, also lies between those of the pairs. */
  lemma PooledJerBetween(scores: seq<Score>, lo: real, hi: real)
    requires Pooled(scores).Some? && forall sc :: sc in scores ==> lo <= sc.jer <= hi
    ensures lo <= Pooled(scores).value.jer <= hi
  {
    JersWithin(scores, lo, hi);
    Shared(lo, hi, SumJer(scores), |scores| as real);
  }
}
