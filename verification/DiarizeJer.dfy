/** The Jaccard error rate as an optimum over mappings, and what that makes it independent of. */
module DiarizeJer {
  import opened DiarizeSearch
  import opened Diarize
  import opened DiarizeScore
  import opened DiarizeLaws
  import opened Quotients

  // ----- the optimum, in terms of mappings -----

  /** What hypothesis label `h` adds under `m`. */
  ghost function JaccardOf(p: Pair, m: Mapping): string -> real {
    (h: string) => if h in m then Jaccard(p, m[h], h) else 0.0
  }

  /** `m` is a best one-to-one mapping for the Jaccard total over `hyps`. */
  ghost predicate BestJaccard(p: Pair, hyps: seq<string>, m: Mapping) {
    && OneToOne(m)
    && forall n :: OneToOne(n) ==> LabelSum(hyps, JaccardOf(p, n)) <= LabelSum(hyps, JaccardOf(p, m))
  }

  lemma SilentIsWorthless(p: Pair, r: string, h: string)
    requires Sum(p, RefTime(r)) == 0
    ensures Jaccard(p, r, h) == 0.0
  {
    TogetherIsLess(p, r, h, p.lo, p.hi);
  }

  lemma MappingWeighs(p: Pair, q: Problem, a: Assignment, refs: seq<string>, hyps: seq<string>)
    requires PosesJaccard(q, p, refs, hyps) && NoRepeats(hyps) && InRange(a, refs, hyps)
    ensures PairsWeigh(q, a, hyps, JaccardOf(p, MappingOf(a, refs, hyps)))
  {
    forall h: nat | h < |hyps|
      ensures JaccardOf(p, MappingOf(a, refs, hyps))(hyps[h]) == if h in a then Weight(q, a[h], h) else 0.0
    {
      MappingLookup(a, refs, hyps, h);
    }
  }

  lemma CutDownWeighs(p: Pair, q: Problem, m: Mapping, refs: seq<string>, hyps: seq<string>)
    requires PosesJaccard(q, p, refs, hyps) && ScoredLabels(p, refs, hyps)
    ensures PairsWeigh(q, AssignmentOf(m, refs, hyps), hyps, JaccardOf(p, m))
  {
    var a := AssignmentOf(m, refs, hyps);
    forall h: nat | h < |hyps|
      ensures JaccardOf(p, m)(hyps[h]) == if h in a then Weight(q, a[h], h) else 0.0
    {
      if hyps[h] in m && m[hyps[h]] !in refs {
        SilentIsWorthless(p, m[hyps[h]], hyps[h]);
      }
    }
  }

  lemma ValueIsJaccard(q: Problem, a: Assignment, hyps: seq<string>, w: string -> real)
    requires q.nHyp == |hyps| && PairsWeigh(q, a, hyps, w)
    ensures Value(q, a, q.nHyp) == LabelSum(hyps, w)
  {
    ValueIsLabelSum(q, a, hyps, w, |hyps|);
    assert hyps[..|hyps|] == hyps;
  }

  /** The reported rate is one minus the best Jaccard total of any one-to-one mapping, per speaker of the larger side. */
  lemma JerIsOptimum(p: Pair, nRef: nat, nHyp: nat, jer: real) returns (refs: seq<string>, hyps: seq<string>, m: Mapping)
    requires IsJer(p, nRef, nHyp, jer)
    ensures ScoredLabels(p, refs, hyps) && |refs| == nRef && |hyps| == nHyp && Larger(nRef, nHyp) > 0
    ensures BestJaccard(p, hyps, m)
    ensures jer == JerOf(LabelSum(hyps, JaccardOf(p, m)), Larger(nRef, nHyp))
  {
    var q: Problem, best: Leaf;
    refs, hyps, q, best :|
      && ScoredLabels(p, refs, hyps) && |refs| == nRef && |hyps| == nHyp && Larger(nRef, nHyp) > 0
      && PosesJaccard(q, p, refs, hyps) && Optimum(q, best.value, best.assign)
      && jer == JerOf(best.value, Larger(nRef, nHyp));
    m := MappingOf(best.assign, refs, hyps);
    MappingOneToOne(q, best.assign, refs, hyps);
    MappingWeighs(p, q, best.assign, refs, hyps);
    ValueIsJaccard(q, best.assign, hyps, JaccardOf(p, m));
    forall n | OneToOne(n)
      ensures LabelSum(hyps, JaccardOf(p, n)) <= best.value
    {
      AssignmentIsInjection(q, n, refs, hyps);
      CutDownWeighs(p, q, n, refs, hyps);
      ValueIsJaccard(q, AssignmentOf(n, refs, hyps), hyps, JaccardOf(p, n));
    }
  }

  // ----- sums over labels -----

  lemma {:induction false} LabelSumTake(labels: seq<string>, k: nat, w: string -> real)
    requires k < |labels|
    ensures LabelSum(labels, w) == LabelSum(labels[..k] + labels[k + 1..], w) + w(labels[k])
  {
    var last := |labels| - 1;
    if k < last {
      LabelSumTake(labels[..last], k, w);
      var rest := labels[..k] + labels[k + 1..];
      assert rest[..|rest| - 1] == labels[..last][..k] + labels[..last][k + 1..] && rest[|rest| - 1] == labels[last];
    } else {
      assert labels[..k] + labels[k + 1..] == labels[..last];
    }
  }

  /** Two lists of the same labels have the same sum, and the same length. */
  lemma {:induction false} LabelSumSame(a: seq<string>, b: seq<string>, w: string -> real)
    requires NoRepeats(a) && NoRepeats(b) && forall x :: x in a <==> x in b
    ensures LabelSum(a, w) == LabelSum(b, w) && |a| == |b|
    decreases |a|
  {
    ListSize(a, set x | x in a);
    ListSize(b, set x | x in a);
    if a != [] {
      var last := a[|a| - 1];
      assert last in b;
      var k :| 0 <= k < |b| && b[k] == last;
      var rest := b[..k] + b[k + 1..];
      TakenOut(b, k, rest);
      assert forall x :: x in a <==> x in a[..|a| - 1] || x == last;
      LabelSumSame(a[..|a| - 1], rest, w);
      LabelSumTake(b, k, w);
    }
  }

  lemma TakenOut(labels: seq<string>, k: nat, rest: seq<string>)
    requires NoRepeats(labels) && k < |labels| && rest == labels[..k] + labels[k + 1..]
    ensures NoRepeats(rest) && forall x :: x in rest <==> x in labels && x != labels[k]
  {
    forall i | 0 <= i < |rest|
      ensures rest[i] == labels[if i < k then i else i + 1] && rest[i] != labels[k]
    {
    }
    forall x | x in labels && x != labels[k]
      ensures x in rest
    {
      var i :| 0 <= i < |labels| && labels[i] == x;
      assert rest[if i < k then i else i - 1] == x;
    }
  }

  function Renamed(labels: seq<string>, g: string -> string): (r: seq<string>)
    ensures |r| == |labels| && forall k :: 0 <= k < |labels| ==> r[k] == g(labels[k])
  {
    seq(|labels|, k requires 0 <= k < |labels| => g(labels[k]))
  }

  lemma {:induction false} LabelSumRenamed(labels: seq<string>, g: string -> string, w: string -> real, w': string -> real)
    requires forall x :: x in labels ==> w'(g(x)) == w(x)
    ensures LabelSum(Renamed(labels, g), w') == LabelSum(labels, w)
  {
    if labels != [] {
      var before := labels[..|labels| - 1];
      LabelSumRenamed(before, g, w, w');
      assert Renamed(labels, g)[..|labels| - 1] == Renamed(before, g);
      assert labels[|labels| - 1] in labels;
    }
  }

  lemma RenamedNoRepeats(labels: seq<string>, g: string -> string, gi: string -> string)
    requires Inverse(g, gi) && NoRepeats(labels)
    ensures NoRepeats(Renamed(labels, g))
    ensures forall x :: x in Renamed(labels, g) <==> gi(x) in labels
  {
    var r := Renamed(labels, g);
    forall i, j | 0 <= i < j < |r|
      ensures r[i] != r[j]
    {
      assert gi(r[i]) == labels[i] && gi(r[j]) == labels[j];
    }
    forall x | gi(x) in labels
      ensures x in r
    {
      var k :| 0 <= k < |labels| && labels[k] == gi(x);
      assert r[k] == g(gi(x)) == x;
    }
    forall x | x in r
      ensures gi(x) in labels
    {
      var k :| 0 <= k < |r| && r[k] == x;
      assert gi(g(labels[k])) == labels[k];
    }
  }

  // ----- renaming -----

  lemma InImage(s: set<string>, f: string -> string, fi: string -> string, x: string)
    requires Inverse(f, fi)
    ensures f(x) in Image(s, f) <==> x in s
  {
    if f(x) in Image(s, f) {
      var y :| y in s && f(y) == f(x);
      assert fi(f(y)) == y && fi(f(x)) == x;
    }
  }

  lemma RenamedLabelsAt(p: Pair, f: string -> string, fi: string -> string, g: string -> string, gi: string -> string, r: string, h: string, t: int)
    requires Inverse(f, fi) && Inverse(g, gi)
    ensures At(Rename(p, f, g), RefTime(f(r)), t) == At(p, RefTime(r), t)
    ensures At(Rename(p, f, g), HypTime(g(h)), t) == At(p, HypTime(h), t)
    ensures At(Rename(p, f, g), Together(f(r), g(h)), t) == At(p, Together(r, h), t)
  {
    RenameScored(p, f, fi, g, t);
    RelabelledActive(p.reference, f, t);
    RelabelledActive(p.hypothesis, g, t);
    InImage(ActiveAt(p.reference, t), f, fi, r);
    InImage(ActiveAt(p.hypothesis, t), g, gi, h);
  }

  lemma {:induction false} RenamedLabels(p: Pair, f: string -> string, fi: string -> string, g: string -> string, gi: string -> string, r: string, h: string, a: int, b: int)
    requires Inverse(f, fi) && Inverse(g, gi)
    ensures Total(Rename(p, f, g), RefTime(f(r)), a, b) == Total(p, RefTime(r), a, b)
    ensures Total(Rename(p, f, g), HypTime(g(h)), a, b) == Total(p, HypTime(h), a, b)
    ensures Total(Rename(p, f, g), Together(f(r), g(h)), a, b) == Total(p, Together(r, h), a, b)
    decreases b - a
  {
    if a < b {
      RenamedLabels(p, f, fi, g, gi, r, h, a, b - 1);
      RenamedLabelsAt(p, f, fi, g, gi, r, h, b - 1);
    }
  }

  /** The scored labels of the renamed pair are the scored labels, renamed. */
  lemma RenamedScored(p: Pair, f: string -> string, fi: string -> string, g: string -> string, gi: string -> string,
                      refs: seq<string>, hyps: seq<string>, refs': seq<string>, hyps': seq<string>)
    requires Inverse(f, fi) && Inverse(g, gi) && ScoredLabels(p, refs, hyps) && ScoredLabels(Rename(p, f, g), refs', hyps')
    ensures forall x :: x in refs' <==> fi(x) in refs
    ensures forall x :: x in hyps' <==> gi(x) in hyps
  {
    forall x
      ensures x in refs' <==> fi(x) in refs
      ensures x in hyps' <==> gi(x) in hyps
    {
      assert f(fi(x)) == x && g(gi(x)) == x;
      RenamedLabels(p, f, fi, g, gi, fi(x), gi(x), p.lo, p.hi);
    }
  }

  lemma RenamedSizes(labels: seq<string>, labels': seq<string>, g: string -> string, gi: string -> string, w': string -> real)
    requires Inverse(g, gi) && NoRepeats(labels) && NoRepeats(labels') && forall x :: x in labels' <==> gi(x) in labels
    ensures |labels'| == |labels| && LabelSum(labels', w') == LabelSum(Renamed(labels, g), w')
  {
    RenamedNoRepeats(labels, g, gi);
    LabelSumSame(labels', Renamed(labels, g), w');
  }

  /** A mapping and its renaming have the same Jaccard total. */
  lemma RenamedTotal(p: Pair, m: Mapping, f: string -> string, fi: string -> string, g: string -> string, gi: string -> string,
                     hyps: seq<string>, hyps': seq<string>)
    requires Inverse(f, fi) && Inverse(g, gi) && NoRepeats(hyps) && NoRepeats(hyps') && forall x :: x in hyps' <==> gi(x) in hyps
    ensures LabelSum(hyps', JaccardOf(Rename(p, f, g), RenameMapping(m, f, gi, set x | x in hyps')))
         == LabelSum(hyps, JaccardOf(p, m))
  {
    var p', m' := Rename(p, f, g), RenameMapping(m, f, gi, set x | x in hyps');
    forall h | h in hyps
      ensures JaccardOf(p', m')(g(h)) == JaccardOf(p, m)(h)
    {
      assert gi(g(h)) == h && g(h) in hyps';
      if h in m {
        RenamedLabels(p, f, fi, g, gi, m[h], h, p.lo, p.hi);
      }
    }
    LabelSumRenamed(hyps, g, JaccardOf(p, m), JaccardOf(p', m'));
    RenamedSizes(hyps, hyps', g, gi, JaccardOf(p', m'));
  }

  /** The best total under the new names is at least the best under the old ones. */
  lemma RenamedBest(p: Pair, m: Mapping, m': Mapping, f: string -> string, fi: string -> string, g: string -> string, gi: string -> string,
                    hyps: seq<string>, hyps': seq<string>)
    requires Inverse(f, fi) && Inverse(g, gi) && NoRepeats(hyps) && NoRepeats(hyps') && forall x :: x in hyps' <==> gi(x) in hyps
    requires OneToOne(m) && BestJaccard(Rename(p, f, g), hyps', m')
    ensures LabelSum(hyps, JaccardOf(p, m)) <= LabelSum(hyps', JaccardOf(Rename(p, f, g), m'))
  {
    RenameOneToOne(m, f, fi, g, gi, set x | x in hyps');
    RenamedTotal(p, m, f, fi, g, gi, hyps, hyps');
  }

  /** The Jaccard error rate, too, does not depend on what either side calls its speakers. */
  lemma NamesDoNotMatterToJer(p: Pair, sc: Score, sc': Score, f: string -> string, fi: string -> string, g: string -> string, gi: string -> string)
    requires Inverse(f, fi) && Inverse(g, gi) && IsScore(p, sc) && IsScore(Rename(p, f, g), sc')
    ensures sc'.nRef == sc.nRef && sc'.nHyp == sc.nHyp && sc'.jer == sc.jer
  {
    var p' := Rename(p, f, g);
    var refs, hyps, m := JerIsOptimum(p, sc.nRef, sc.nHyp, sc.jer);
    var refs', hyps', m' := JerIsOptimum(p', sc'.nRef, sc'.nHyp, sc'.jer);
    RenameBack(p, f, fi, g, gi);
    RenamedJaccard(p, p', f, fi, g, gi, refs, hyps, m, refs', hyps', m');
    RenamedJaccard(p', p, fi, f, gi, g, refs', hyps', m', refs, hyps, m);
    assert LabelSum(hyps, JaccardOf(p, m)) == LabelSum(hyps', JaccardOf(p', m'));
  }

  lemma RenamedJaccard(p: Pair, p': Pair, f: string -> string, fi: string -> string, g: string -> string, gi: string -> string,
                       refs: seq<string>, hyps: seq<string>, m: Mapping, refs': seq<string>, hyps': seq<string>, m': Mapping)
    requires Inverse(f, fi) && Inverse(g, gi) && p' == Rename(p, f, g)
    requires ScoredLabels(p, refs, hyps) && ScoredLabels(p', refs', hyps') && OneToOne(m) && BestJaccard(p', hyps', m')
    ensures |refs'| == |refs| && |hyps'| == |hyps|
    ensures LabelSum(hyps, JaccardOf(p, m)) <= LabelSum(hyps', JaccardOf(p', m'))
  {
    RenamedScored(p, f, fi, g, gi, refs, hyps, refs', hyps');
    RenamedSizes(refs, refs', f, fi, JaccardOf(p, m));
    RenamedSizes(hyps, hyps', g, gi, JaccardOf(p, m));
    RenamedBest(p, m, m', f, fi, g, gi, hyps, hyps');
  }

  // ----- a relabelled copy -----

  lemma CopiedLabelAt(p: Pair, g: string -> string, gi: string -> string, r: string, t: int)
    requires Inverse(g, gi) && p.hypothesis == Relabelled(p.reference, g)
    ensures At(p, HypTime(g(r)), t) == At(p, RefTime(r), t) == At(p, Together(r, g(r)), t)
  {
    RelabelledActive(p.reference, g, t);
    InImage(ActiveAt(p.reference, t), g, gi, r);
  }

  lemma {:induction false} CopiedLabel(p: Pair, g: string -> string, gi: string -> string, r: string, a: int, b: int)
    requires Inverse(g, gi) && p.hypothesis == Relabelled(p.reference, g)
    ensures Total(p, HypTime(g(r)), a, b) == Total(p, RefTime(r), a, b) == Total(p, Together(r, g(r)), a, b)
    decreases b - a
  {
    if a < b {
      CopiedLabel(p, g, gi, r, a, b - 1);
      CopiedLabelAt(p, g, gi, r, b - 1);
    }
  }

  lemma CopyWorth(p: Pair, g: string -> string, gi: string -> string, h: string)
    requires Inverse(g, gi) && p.hypothesis == Relabelled(p.reference, g) && Sum(p, HypTime(h)) > 0
    ensures Jaccard(p, gi(h), h) == 1.0
  {
    assert g(gi(h)) == h;
    CopiedLabel(p, g, gi, gi(h), p.lo, p.hi);
    WholeQuotient(Sum(p, HypTime(h)) as real);
  }

  lemma {:induction false} AllOnes(labels: seq<string>, w: string -> real)
    requires forall x :: x in labels ==> w(x) == 1.0
    ensures LabelSum(labels, w) == |labels| as real
  {
    if labels != [] {
      AllOnes(labels[..|labels| - 1], w);
      assert labels[|labels| - 1] in labels;
    }
  }

  lemma BackOneToOne(hs: set<string>, g: string -> string, gi: string -> string)
    requires Inverse(g, gi)
    ensures OneToOne(BackMapping(hs, gi))
  {
    forall x, y | x in hs && y in hs && gi(x) == gi(y)
      ensures x == y
    {
      assert g(gi(x)) == x && g(gi(y)) == y;
    }
  }

  /** A hypothesis that is the reference under other names has a Jaccard error rate of zero. */
  lemma RelabelledCopyJerIsZero(p: Pair, sc: Score, g: string -> string, gi: string -> string)
    requires Inverse(g, gi) && p.hypothesis == Relabelled(p.reference, g) && IsScore(p, sc)
    ensures sc.jer == 0.0 && sc.nRef == sc.nHyp
  {
    var refs, hyps, m := JerIsOptimum(p, sc.nRef, sc.nHyp, sc.jer);
    CopyTotalIsFull(p, g, gi, refs, hyps);
    JerInUnit(p, sc);
    FullTotal(LabelSum(hyps, JaccardOf(p, m)), |hyps|);
  }

  /** Mapping every copied label back to its own gives the largest total there can be. */
  lemma CopyTotalIsFull(p: Pair, g: string -> string, gi: string -> string, refs: seq<string>, hyps: seq<string>)
    requires Inverse(g, gi) && p.hypothesis == Relabelled(p.reference, g) && ScoredLabels(p, refs, hyps)
    ensures |refs| == |hyps|
    ensures var back := BackMapping((set x | x in hyps), gi);
      OneToOne(back) && LabelSum(hyps, JaccardOf(p, back)) == |hyps| as real
  {
    var back := BackMapping((set x | x in hyps), gi);
    BackOneToOne((set x | x in hyps), g, gi);
    forall h | h in hyps
      ensures JaccardOf(p, back)(h) == 1.0
    {
      CopyWorth(p, g, gi, h);
    }
    AllOnes(hyps, JaccardOf(p, back));
    forall x
      ensures x in hyps <==> gi(x) in refs
    {
      assert g(gi(x)) == x;
      CopiedLabel(p, g, gi, gi(x), p.lo, p.hi);
    }
    RenamedSizes(refs, hyps, g, gi, JaccardOf(p, back));
  }

  lemma FullTotal(total: real, n: nat)
    requires n > 0 && total >= n as real
    ensures total / n as real >= 1.0
  {
    UnitQuotient(total, n as real);
  }
}
