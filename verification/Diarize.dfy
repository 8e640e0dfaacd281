/**
  Diarization scoring: what each instant is worth, and the sweep over cut points that adds it
  up. Times are whole ticks; an instant is the unit interval that starts at a tick, so a
  duration is the number of instants in it.
 */
module Diarize {
  import opened Sorting
  import opened DiarizeSearch

  datatype Segment = Segment(start: int, end: int, speaker: string)

  datatype Overlap = ScoreOverlap | ExcludeOverlap

  /** One pair to score, with the region `[lo, hi)`. */
  datatype Pair = Pair(reference: seq<Segment>, hypothesis: seq<Segment>, collar: nat, overlap: Overlap, lo: int, hi: int)

  /** Which reference speaker a hypothesis label stands for. */
  type Mapping = map<string, string>

  ghost predicate OneToOne(m: Mapping) {
    forall g, h :: g in m && h in m && m[g] == m[h] ==> g == h
  }

  // ----- what an instant is worth -----

  function ActiveAt(segs: seq<Segment>, t: int): set<string> {
    set s | s in segs && s.start <= t < s.end :: s.speaker
  }

  /** Start and end of every segment, in order. */
  function Boundaries(segs: seq<Segment>): seq<int> {
    if segs == [] then [] else [segs[0].start, segs[0].end] + Boundaries(segs[1..])
  }

  lemma {:induction false} HasBoundaries(segs: seq<Segment>, s: Segment)
    requires s in segs
    ensures s.start in Boundaries(segs) && s.end in Boundaries(segs)
  {
    if s != segs[0] {
      HasBoundaries(segs[1..], s);
    }
  }

  /** Within the collar of some reference boundary. */
  ghost predicate InCollar(p: Pair, t: int) {
    exists b :: b in Boundaries(p.reference) && b - p.collar <= t < b + p.collar
  }

  ghost predicate Scored(p: Pair, t: int) {
    && p.lo <= t < p.hi
    && !InCollar(p, t)
    && !(p.overlap.ExcludeOverlap? && |ActiveAt(p.reference, t)| >= 2)
  }

  /** The reference speakers that `hyp` is right about under mapping `m`. */
  function Matched(m: Mapping, hyp: set<string>): set<string> {
    set h | h in hyp && h in m :: m[h]
  }

  /** The hypothesis labels that `m` attributes to no active reference speaker. */
  function Misattributed(m: Mapping, ref: set<string>, hyp: set<string>): set<string> {
    set h | h in hyp && !(h in m && m[h] in ref)
  }

  /** The quantities the score is made of. */
  datatype Query =
    | RefTime(speaker: string)
    | HypTime(speaker: string)
    | Together(ref: string, hyp: string)
    | RefSpeech
    | HypSpeech
    | Longest
    | Correct(m: Mapping)
    | Missed
    | FalseAlarm
    | SpeakerError(m: Mapping)
    | Nothing

  function Larger(a: nat, b: nat): nat { if a >= b then a else b }

  /** What one instant adds to a quantity, given who speaks. */
  function Worth(q: Query, ref: set<string>, hyp: set<string>): nat {
    match q
    case RefTime(speaker) => if speaker in ref then 1 else 0
    case HypTime(speaker) => if speaker in hyp then 1 else 0
    case Together(r, h) => if r in ref && h in hyp then 1 else 0
    case RefSpeech => |ref|
    case HypSpeech => |hyp|
    case Longest => Larger(|ref|, |hyp|)
    case Nothing => 0
    case Correct(m) => |ref * Matched(m, hyp)|
    case Missed => if hyp == {} then |ref| else 0
    case FalseAlarm => if hyp != {} && ref == {} then |hyp| else 0
    case SpeakerError(m) =>
      if hyp == {} || ref == {} then 0
      else Larger(|ref - Matched(m, hyp)|, |Misattributed(m, ref, hyp)|)
  }

  ghost function At(p: Pair, q: Query, t: int): nat {
    if Scored(p, t) then Worth(q, ActiveAt(p.reference, t), ActiveAt(p.hypothesis, t)) else 0
  }

  /** The definition the score is measured against: add up the instants of `[a, b)` one by one. */
  ghost function Total(p: Pair, q: Query, a: int, b: int): nat
    decreases b - a
  {
    if b <= a then 0 else Total(p, q, a, b - 1) + At(p, q, b - 1)
  }

  /** Over the whole region. */
  ghost function Sum(p: Pair, q: Query): nat {
    Total(p, q, p.lo, p.hi)
  }

  lemma {:induction false} TotalSplit(p: Pair, q: Query, a: int, b: int, c: int)
    requires a <= b <= c
    ensures Total(p, q, a, c) == Total(p, q, a, b) + Total(p, q, b, c)
    decreases c - b
  {
    if b < c {
      TotalSplit(p, q, a, b, c - 1);
    }
  }

  lemma {:induction false} TotalConstant(p: Pair, q: Query, a: int, b: int, w: nat)
    requires a <= b && forall t :: a <= t < b ==> At(p, q, t) == w
    ensures Total(p, q, a, b) == (b - a) * w
    decreases b - a
  {
    if a < b {
      TotalConstant(p, q, a, b - 1, w);
      TimesNext(b - 1 - a, w);
    }
  }

  lemma TimesNext(n: nat, w: nat)
    ensures (n + 1) * w == n * w + w
  {
  }

  lemma {:induction false} TotalNothing(p: Pair, q: Query, a: int, b: int)
    requires forall t :: a <= t < b ==> At(p, q, t) == 0
    ensures Total(p, q, a, b) == 0
    decreases b - a
  {
    if a < b {
      TotalNothing(p, q, a, b - 1);
    }
  }

  // ----- elementary intervals -----

  function Clip(p: Pair, x: int): int {
    var y := if x >= p.lo then x else p.lo;
    if y <= p.hi then y else p.hi
  }

  /** `[start, end)` lies between two neighbouring cut points. */
  ghost predicate Uncut(p: Pair, start: int, end: int) {
    && p.lo <= start < end <= p.hi
    && (forall b :: b in Boundaries(p.reference + p.hypothesis) ==> !(start < Clip(p, b) < end))
    && (p.collar > 0 ==> forall b :: b in Boundaries(p.reference) ==> CollarOutside(p, b, start, end))
  }

  /** Neither edge of the collar band around boundary `b` lies inside the interval. */
  ghost predicate CollarOutside(p: Pair, b: int, start: int, end: int) {
    !(start < Clip(p, b - p.collar) < end) && !(start < Clip(p, b + p.collar) < end)
  }

  /** The sweep's test for who speaks in an elementary interval. */
  function ActiveIn(segs: seq<Segment>, start: int, end: int): set<string> {
    set s | s in segs && s.start < end && s.end > start :: s.speaker
  }

  lemma ClipBefore(p: Pair, x: int, start: int, end: int, t: int)
    requires p.lo <= start <= t < end <= p.hi && !(start < Clip(p, x) < end)
    ensures x <= t <==> x < end
    ensures x <= t <==> Clip(p, x) <= start
    ensures t < x <==> x > start
    ensures t < x <==> Clip(p, x) >= end
  {
  }

  lemma SameActive(p: Pair, segs: seq<Segment>, start: int, end: int, t: int)
    requires Uncut(p, start, end) && start <= t < end
    requires forall s :: s in segs ==> s in p.reference + p.hypothesis
    ensures ActiveAt(segs, t) == ActiveIn(segs, start, end)
  {
    forall s | s in segs
      ensures s.start <= t < s.end <==> s.start < end && s.end > start
    {
      HasBoundaries(p.reference + p.hypothesis, s);
      ClipBefore(p, s.start, start, end, t);
      ClipBefore(p, s.end, start, end, t);
    }
  }

  /** The sweep's collar test: the middle of the interval lies strictly inside a clipped band. */
  predicate InBand(low: int, high: int, start: int, end: int) {
    2 * low < start + end < 2 * high
  }

  function BandOf(p: Pair, boundary: int): (int, int) {
    (Clip(p, boundary - p.collar), Clip(p, boundary + p.collar))
  }

  ghost predicate InSomeBand(p: Pair, start: int, end: int) {
    p.collar > 0 && exists b :: b in Boundaries(p.reference) && InBand(BandOf(p, b).0, BandOf(p, b).1, start, end)
  }

  lemma SameBand(p: Pair, boundary: int, start: int, end: int, t: int)
    requires p.lo <= start <= t < end <= p.hi
    requires !(start < Clip(p, boundary - p.collar) < end) && !(start < Clip(p, boundary + p.collar) < end)
    ensures InBand(BandOf(p, boundary).0, BandOf(p, boundary).1, start, end)
       <==> boundary - p.collar <= t < boundary + p.collar
  {
    ClipBefore(p, boundary - p.collar, start, end, t);
    ClipBefore(p, boundary + p.collar, start, end, t);
  }

  lemma SameCollar(p: Pair, start: int, end: int, t: int)
    requires Uncut(p, start, end) && start <= t < end
    ensures InCollar(p, t) <==> InSomeBand(p, start, end)
  {
    if p.collar > 0 {
      forall b | b in Boundaries(p.reference)
        ensures InBand(BandOf(p, b).0, BandOf(p, b).1, start, end) <==> b - p.collar <= t < b + p.collar
      {
        SameBand(p, b, start, end, t);
      }
    }
  }

  /** The sweep drops this interval. */
  ghost predicate Dropped(p: Pair, start: int, end: int) {
    InSomeBand(p, start, end) || (p.overlap.ExcludeOverlap? && |ActiveIn(p.reference, start, end)| >= 2)
  }

  /** One elementary interval adds its length times the worth of whoever speaks in it. */
  lemma UncutTotal(p: Pair, q: Query, start: int, end: int)
    requires Uncut(p, start, end)
    ensures Total(p, q, start, end) ==
      (end - start) * (if Dropped(p, start, end) then 0
                       else Worth(q, ActiveIn(p.reference, start, end), ActiveIn(p.hypothesis, start, end)))
  {
    var w := if Dropped(p, start, end) then 0
             else Worth(q, ActiveIn(p.reference, start, end), ActiveIn(p.hypothesis, start, end));
    forall t | start <= t < end
      ensures At(p, q, t) == w
    {
      SameActive(p, p.reference, start, end, t);
      SameActive(p, p.hypothesis, start, end, t);
      SameCollar(p, start, end, t);
    }
    TotalConstant(p, q, start, end, w);
  }

  // ----- the sweep -----

  /** A scored elementary interval: how long, and who speaks. */
  datatype Interval = Interval(duration: nat, ref: set<string>, hyp: set<string>)

  /** What a list of scored intervals adds up to. */
  function Added(q: Query, intervals: seq<Interval>): nat {
    if intervals == [] then 0
    else
      var last := intervals[|intervals| - 1];
      Added(q, intervals[..|intervals| - 1]) + last.duration * Worth(q, last.ref, last.hyp)
  }

  lemma AddedOne(q: Query, intervals: seq<Interval>, iv: Interval)
    ensures Added(q, intervals + [iv]) == Added(q, intervals) + iv.duration * Worth(q, iv.ref, iv.hyp)
  {
    assert (intervals + [iv])[..|intervals|] == intervals;
  }

  /** Silence is worth nothing, whatever is asked. */
  lemma SilenceIsWorthless(q: Query)
    ensures Worth(q, {}, {}) == 0
  {
    if q.Correct? {
      assert {} * Matched(q.m, {}) == {};
    }
  }

  predicate IntLe(a: int, b: int) { a <= b }

  lemma IntLeOrder()
    ensures TotalOrder(IntLe)
  {
  }

  /** Every cut point: region ends, segment edges and collar band edges, all inside the region. */
  function CutPoints(p: Pair): set<int> {
    {p.lo, p.hi}
    + (set b | b in Boundaries(p.reference + p.hypothesis) :: Clip(p, b))
    + (if p.collar > 0 then
         (set b | b in Boundaries(p.reference) :: Clip(p, b - p.collar))
         + (set b | b in Boundaries(p.reference) :: Clip(p, b + p.collar))
       else {})
  }

  /** A region as `score_pair` makes it: forward, or past the end of every segment. */
  ghost predicate RegionOk(p: Pair) {
    p.lo <= p.hi || forall s :: s in p.reference + p.hypothesis ==> s.end <= p.hi
  }

  lemma CutHas(p: Pair, b: int)
    ensures b in Boundaries(p.reference + p.hypothesis) ==> Clip(p, b) in CutPoints(p)
    ensures p.collar > 0 && b in Boundaries(p.reference) ==>
      Clip(p, b - p.collar) in CutPoints(p) && Clip(p, b + p.collar) in CutPoints(p)
  {
  }

  /** No cut point lies strictly between two neighbours of the sorted list. */
  lemma NoCutBetween(p: Pair, cuts: seq<int>, k: nat, x: int)
    requires Increasing(cuts, IntLe) && (forall y :: y in cuts <==> y in CutPoints(p)) && k + 1 < |cuts|
    requires x in CutPoints(p)
    ensures !(cuts[k] < x < cuts[k + 1])
  {
    assert x in cuts;
    var i :| 0 <= i < |cuts| && cuts[i] == x;
  }

  lemma NeighboursUncut(p: Pair, cuts: seq<int>, k: nat)
    requires p.lo <= p.hi && Increasing(cuts, IntLe) && (forall x :: x in cuts <==> x in CutPoints(p))
    requires k + 1 < |cuts|
    ensures Uncut(p, cuts[k], cuts[k + 1])
  {
    var start, end := cuts[k], cuts[k + 1];
    assert start in cuts && end in cuts;
    forall b | b in Boundaries(p.reference + p.hypothesis)
      ensures !(start < Clip(p, b) < end)
    {
      BoundaryUncut(p, cuts, k, b);
    }
    if p.collar > 0 {
      forall b | b in Boundaries(p.reference)
        ensures CollarOutside(p, b, start, end)
      {
        CollarUncut(p, cuts, k, b);
      }
    }
    CutsInRegion(p, start);
    CutsInRegion(p, end);
  }

  lemma BoundaryUncut(p: Pair, cuts: seq<int>, k: nat, b: int)
    requires Increasing(cuts, IntLe) && (forall x :: x in cuts <==> x in CutPoints(p)) && k + 1 < |cuts|
    requires b in Boundaries(p.reference + p.hypothesis)
    ensures !(cuts[k] < Clip(p, b) < cuts[k + 1])
  {
    CutHas(p, b);
    NoCutBetween(p, cuts, k, Clip(p, b));
  }

  lemma CollarUncut(p: Pair, cuts: seq<int>, k: nat, b: int)
    requires Increasing(cuts, IntLe) && (forall x :: x in cuts <==> x in CutPoints(p)) && k + 1 < |cuts|
    requires p.collar > 0 && b in Boundaries(p.reference)
    ensures !(cuts[k] < Clip(p, b - p.collar) < cuts[k + 1]) && !(cuts[k] < Clip(p, b + p.collar) < cuts[k + 1])
  {
    CutHas(p, b);
    NoCutBetween(p, cuts, k, Clip(p, b - p.collar));
    NoCutBetween(p, cuts, k, Clip(p, b + p.collar));
  }

  lemma CutsInRegion(p: Pair, x: int)
    requires p.lo <= p.hi && x in CutPoints(p)
    ensures p.lo <= x <= p.hi
  {
  }

  // ----- the loops of `score_pair` -----

  lemma {:induction false} BoundariesSnoc(segs: seq<Segment>, k: nat)
    requires k < |segs|
    ensures Boundaries(segs[..k + 1]) == Boundaries(segs[..k]) + [segs[k].start, segs[k].end]
  {
    if k == 0 {
      assert segs[..1][1..] == [];
    } else {
      BoundariesSnoc(segs[1..], k - 1);
      assert segs[..k + 1][1..] == segs[1..][..k] && segs[..k][1..] == segs[1..][..k - 1];
    }
  }

  /** Collect the cut points of every segment edge. */
  method EdgeCuts(p: Pair, segs: seq<Segment>, before: set<int>) returns (cuts: set<int>)
    ensures cuts == before + set b | b in Boundaries(segs) :: Clip(p, b)
  {
    cuts := before;
    var k := 0;
    while k < |segs|
      invariant 0 <= k <= |segs|
      invariant cuts == before + set b | b in Boundaries(segs[..k]) :: Clip(p, b)
    {
      BoundariesSnoc(segs, k);
      cuts := cuts + {Clip(p, segs[k].start), Clip(p, segs[k].end)};
      k := k + 1;
    }
    assert segs[..k] == segs;
  }

  /** The bands of the collected boundaries, one each. */
  ghost predicate AreBands(p: Pair, bands: seq<(int, int)>, boundaries: seq<int>) {
    |bands| == |boundaries| && forall k :: 0 <= k < |bands| ==> bands[k] == BandOf(p, boundaries[k])
  }

  function Lows(bands: seq<(int, int)>): set<int> { set x | x in bands :: x.0 }

  function Highs(bands: seq<(int, int)>): set<int> { set x | x in bands :: x.1 }

  /** Collect the collar bands of every reference boundary, and their edges. */
  method BandCuts(p: Pair, before: set<int>) returns (cuts: set<int>, bands: seq<(int, int)>)
    ensures AreBands(p, bands, Boundaries(p.reference))
    ensures cuts == before + Lows(bands) + Highs(bands)
  {
    cuts, bands := before, [];
    var k, segs := 0, p.reference;
    while k < |segs|
      invariant 0 <= k <= |segs|
      invariant AreBands(p, bands, Boundaries(segs[..k]))
      invariant cuts == before + Lows(bands) + Highs(bands)
    {
      BoundariesSnoc(segs, k);
      var first, second := BandOf(p, segs[k].start), BandOf(p, segs[k].end);
      BandsSnoc(p, bands, Boundaries(segs[..k]), segs[k].start, segs[k].end);
      TwoBandEdges(bands, first, second, before);
      bands := bands + [first] + [second];
      cuts := cuts + {first.0, first.1} + {second.0, second.1};
      k := k + 1;
    }
    assert segs[..k] == segs;
  }

  lemma BandsSnoc(p: Pair, bands: seq<(int, int)>, bs: seq<int>, a: int, b: int)
    requires AreBands(p, bands, bs)
    ensures AreBands(p, bands + [BandOf(p, a)] + [BandOf(p, b)], bs + [a, b])
  {
  }

  lemma TwoBandEdges(bands: seq<(int, int)>, x: (int, int), y: (int, int), before: set<int>)
    ensures before + Lows(bands + [x] + [y]) + Highs(bands + [x] + [y])
         == before + Lows(bands) + Highs(bands) + {x.0, x.1} + {y.0, y.1}
  {
    BandEdges(bands, x);
    BandEdges(bands + [x], y);
  }

  lemma BandEdges(bands: seq<(int, int)>, x: (int, int))
    ensures Lows(bands + [x]) == Lows(bands) + {x.0} && Highs(bands + [x]) == Highs(bands) + {x.1}
  {
    assert forall y :: y in bands + [x] <==> y in bands || y == x;
  }

  predicate InAny(bands: seq<(int, int)>, start: int, end: int) {
    exists k | 0 <= k < |bands| :: InBand(bands[k].0, bands[k].1, start, end)
  }

  lemma BandsTest(p: Pair, bands: seq<(int, int)>, start: int, end: int)
    requires AreBands(p, bands, Boundaries(p.reference))
    ensures InAny(bands, start, end) <==>
      exists b :: b in Boundaries(p.reference) && InBand(BandOf(p, b).0, BandOf(p, b).1, start, end)
  {
    var bs := Boundaries(p.reference);
    if b :| b in bs && InBand(BandOf(p, b).0, BandOf(p, b).1, start, end) {
      var k :| 0 <= k < |bs| && bs[k] == b;
      assert InBand(bands[k].0, bands[k].1, start, end);
    }
    if k :| 0 <= k < |bands| && InBand(bands[k].0, bands[k].1, start, end) {
      assert bs[k] in bs;
    }
  }

  lemma BandsMean(p: Pair, bands: seq<(int, int)>)
    requires AreBands(p, bands, Boundaries(p.reference))
    ensures Lows(bands) == set b | b in Boundaries(p.reference) :: Clip(p, b - p.collar)
    ensures Highs(bands) == set b | b in Boundaries(p.reference) :: Clip(p, b + p.collar)
  {
    var bs := Boundaries(p.reference);
    forall x
      ensures x in bands <==> exists b :: b in bs && BandOf(p, b) == x
    {
      if x in bands {
        var k :| 0 <= k < |bands| && bands[k] == x;
        assert bs[k] in bs;
      }
      if b :| b in bs && BandOf(p, b) == x {
        var k :| 0 <= k < |bs| && bs[k] == b;
        assert bands[k] == x;
      }
    }
    LowsHighs(p, bands, bs);
  }

  lemma LowsHighs(p: Pair, bands: seq<(int, int)>, bs: seq<int>)
    requires forall x :: x in bands <==> exists b :: b in bs && BandOf(p, b) == x
    ensures Lows(bands) == set b | b in bs :: Clip(p, b - p.collar)
    ensures Highs(bands) == set b | b in bs :: Clip(p, b + p.collar)
  {
    forall b | b in bs
      ensures BandOf(p, b) in bands
    {
    }
  }

  function Get<K>(m: map<K, nat>, k: K): nat {
    if k in m then m[k] else 0
  }

  /** `for key in keys: m[key] = m.get(key, 0) + d`. */
  method AddAll<K(==)>(m: map<K, nat>, keys: set<K>, d: nat) returns (r: map<K, nat>)
    ensures r.Keys == m.Keys + keys
    ensures forall k :: k in r ==> r[k] == Get(m, k) + if k in keys then d else 0
  {
    r := m;
    var left := keys;
    while left != {}
      invariant left <= keys
      invariant r.Keys == m.Keys + (keys - left)
      invariant forall k :: k in r ==> r[k] == Get(m, k) + if k in keys - left then d else 0
      decreases left
    {
      var key :| key in left;
      r := r[key := Get(r, key) + d];
      left := left - {key};
    }
  }

  /** A running table agrees with the scored intervals: entries are the positive totals. */
  ghost predicate Tracks<K(!new)>(m: map<K, nat>, q: K -> Query, intervals: seq<Interval>) {
    forall k :: (k in m <==> Added(q(k), intervals) > 0) && (k in m ==> m[k] == Added(q(k), intervals))
  }

  function RefOf(speaker: string): Query { RefTime(speaker) }

  function HypOf(speaker: string): Query { HypTime(speaker) }

  function BothOf(pair: (string, string)): Query { Together(pair.0, pair.1) }

  lemma TracksStep<K(!new)>(m: map<K, nat>, q: K -> Query, intervals: seq<Interval>, iv: Interval, keys: set<K>, m': map<K, nat>)
    requires Tracks(m, q, intervals) && iv.duration > 0
    requires forall k :: Worth(q(k), iv.ref, iv.hyp) == if k in keys then 1 else 0
    requires m'.Keys == m.Keys + keys
    requires forall k :: k in m' ==> m'[k] == Get(m, k) + if k in keys then iv.duration else 0
    ensures Tracks(m', q, intervals + [iv])
  {
    forall k
      ensures (k in m' <==> Added(q(k), intervals + [iv]) > 0) && (k in m' ==> m'[k] == Added(q(k), intervals + [iv]))
    {
      AddedOne(q(k), intervals, iv);
      assert Worth(q(k), iv.ref, iv.hyp) == if k in keys then 1 else 0;
    }
  }

  /** What an elementary interval adds to a quantity. */
  ghost function IntervalWorth(p: Pair, q: Query, start: int, end: int): nat {
    if Dropped(p, start, end) then 0 else Worth(q, ActiveIn(p.reference, start, end), ActiveIn(p.hypothesis, start, end))
  }

  /** What one elementary interval of the sweep is worth, for every quantity at once. */
  lemma CutStep(p: Pair, cuts: seq<int>, k: nat, start: int, end: int)
    requires RegionOk(p) && Increasing(cuts, IntLe) && (forall x :: x in cuts <==> x in CutPoints(p))
    requires k + 1 < |cuts| && start == cuts[k] && end == cuts[k + 1]
    ensures start < end
    ensures p.lo > p.hi ==> ActiveIn(p.reference, start, end) == {} == ActiveIn(p.hypothesis, start, end)
    ensures forall q :: Total(p, q, start, end) == (end - start) * IntervalWorth(p, q, start, end)
  {
    forall q
      ensures Total(p, q, start, end) == (end - start) * IntervalWorth(p, q, start, end)
    {
      if p.lo <= p.hi {
        NeighboursUncut(p, cuts, k);
        UncutTotal(p, q, start, end);
      } else {
        BackwardCuts(p, cuts, k);
        TotalConstant(p, q, start, end, 0);
        SilenceIsWorthless(q);
      }
    }
    if p.lo > p.hi {
      BackwardCuts(p, cuts, k);
    }
  }

  lemma BackwardCuts(p: Pair, cuts: seq<int>, k: nat)
    requires p.lo > p.hi && RegionOk(p) && Increasing(cuts, IntLe) && (forall x :: x in cuts <==> x in CutPoints(p)) && k + 1 < |cuts|
    ensures ActiveIn(p.reference, cuts[k], cuts[k + 1]) == {} == ActiveIn(p.hypothesis, cuts[k], cuts[k + 1])
  {
    assert cuts[k] in CutPoints(p) && cuts[k] >= p.hi;
  }

  /** The tables the sweep fills: label totals, pair totals, and the scored intervals. */
  datatype Tables = Tables(refTime: map<string, nat>, hypTime: map<string, nat>, inter: map<(string, string), nat>,
                           intervals: seq<Interval>)

  ghost predicate TablesAgree(tb: Tables) {
    && Tracks(tb.refTime, RefOf, tb.intervals)
    && Tracks(tb.hypTime, HypOf, tb.intervals)
    && Tracks(tb.inter, BothOf, tb.intervals)
    && forall iv :: iv in tb.intervals ==> iv.duration > 0
  }

  ghost predicate Counts(p: Pair, from: int, at: int, intervals: seq<Interval>) {
    from <= at && forall q :: Added(q, intervals) == Total(p, q, from, at)
  }

  /** A dropped or silent interval changes nothing. */
  lemma CountsSkip(p: Pair, from: int, start: int, end: int, intervals: seq<Interval>)
    requires Counts(p, from, start, intervals) && start < end
    requires forall q :: Total(p, q, start, end) == (end - start) * IntervalWorth(p, q, start, end)
    requires forall q :: IntervalWorth(p, q, start, end) == 0
    ensures Counts(p, from, end, intervals)
  {
    forall q
      ensures Added(q, intervals) == Total(p, q, from, end)
    {
      NothingThere(p, q, start, end);
      TotalSplit(p, q, from, start, end);
    }
  }

  lemma NothingThere(p: Pair, q: Query, start: int, end: int)
    requires start < end && Total(p, q, start, end) == (end - start) * IntervalWorth(p, q, start, end)
    requires IntervalWorth(p, q, start, end) == 0
    ensures Total(p, q, start, end) == 0
  {
  }

  lemma CountsAdd(p: Pair, from: int, start: int, end: int, intervals: seq<Interval>, iv: Interval)
    requires Counts(p, from, start, intervals) && start < end && iv.duration == end - start
    requires forall q :: Total(p, q, start, end) == (end - start) * IntervalWorth(p, q, start, end)
    requires forall q :: IntervalWorth(p, q, start, end) == Worth(q, iv.ref, iv.hyp)
    ensures Counts(p, from, end, intervals + [iv])
  {
    forall q
      ensures Added(q, intervals + [iv]) == Total(p, q, from, end)
    {
      TotalSplit(p, q, from, start, end);
      AddedOne(q, intervals, iv);
      assert Total(p, q, start, end) == (end - start) * IntervalWorth(p, q, start, end);
      assert IntervalWorth(p, q, start, end) == Worth(q, iv.ref, iv.hyp);
    }
  }

  /** Every table takes its share of a scored interval. */
  method ScoreInterval(tb: Tables, iv: Interval) returns (tb': Tables)
    requires TablesAgree(tb) && iv.duration > 0
    ensures TablesAgree(tb') && tb'.intervals == tb.intervals + [iv]
  {
    var refTime := AddAll(tb.refTime, iv.ref, iv.duration);
    var hypTime := AddAll(tb.hypTime, iv.hyp, iv.duration);
    var pairs := set r, h | r in iv.ref && h in iv.hyp :: (r, h);
    var inter := AddAll(tb.inter, pairs, iv.duration);
    TracksStep(tb.refTime, RefOf, tb.intervals, iv, iv.ref, refTime);
    TracksStep(tb.hypTime, HypOf, tb.intervals, iv, iv.hyp, hypTime);
    TracksStep(tb.inter, BothOf, tb.intervals, iv, pairs, inter);
    tb' := Tables(refTime, hypTime, inter, tb.intervals + [iv]);
  }

  /** The body of the sweep loop. */
  method SweepInterval(p: Pair, bands: seq<(int, int)>, ghost from: int, start: int, end: int, tb: Tables) returns (tb': Tables)
    requires TablesAgree(tb) && Counts(p, from, start, tb.intervals) && start < end
    requires InAny(bands, start, end) <==> InSomeBand(p, start, end)
    requires forall q :: Total(p, q, start, end) == (end - start) * IntervalWorth(p, q, start, end)
    ensures TablesAgree(tb') && Counts(p, from, end, tb'.intervals)
  {
    var ref, hyp := ActiveIn(p.reference, start, end), ActiveIn(p.hypothesis, start, end);
    if InAny(bands, start, end) || (p.overlap.ExcludeOverlap? && |ref| >= 2) {
      CountsSkip(p, from, start, end, tb.intervals);
      return tb;
    }
    if ref == {} && hyp == {} {
      forall q {
        SilenceIsWorthless(q);
      }
      CountsSkip(p, from, start, end, tb.intervals);
      return tb;
    }
    var iv := Interval(end - start, ref, hyp);
    CountsAdd(p, from, start, end, tb.intervals, iv);
    tb' := ScoreInterval(tb, iv);
  }

  /** The cut points of `score_pair`, sorted, and the bands. */
  method SortedCuts(p: Pair) returns (cuts: seq<int>, bands: seq<(int, int)>)
    ensures Increasing(cuts, IntLe) && (forall x :: x in cuts <==> x in CutPoints(p)) && |cuts| > 0
    ensures forall start, end :: InAny(bands, start, end) <==> InSomeBand(p, start, end)
  {
    var cutSet := EdgeCuts(p, p.reference + p.hypothesis, {p.lo, p.hi});
    bands := [];
    if p.collar > 0 {
      cutSet, bands := BandCuts(p, cutSet);
      BandsMean(p, bands);
      forall start, end {
        BandsTest(p, bands, start, end);
      }
    }
    IntLeOrder();
    cuts := SortedSet(cutSet, IntLe);
    assert p.lo in cuts;
  }

  /**
    The sweep refines the per-instant definition: every table entry, and every quantity of the
    scored intervals, is the count of instants of the region at which it holds.
   */
  method Sweep(p: Pair) returns (tb: Tables)
    requires RegionOk(p)
    ensures forall q :: Added(q, tb.intervals) == Sum(p, q)
    ensures TablesAgree(tb)
  {
    var cuts, bands := SortedCuts(p);
    tb := Tables(map[], map[], map[], []);
    var k := 0;
    while k + 1 < |cuts|
      invariant 0 <= k < |cuts|
      invariant TablesAgree(tb) && Counts(p, cuts[0], cuts[k], tb.intervals)
    {
      var start, end := cuts[k], cuts[k + 1];
      CutStep(p, cuts, k, start, end);
      tb := SweepInterval(p, bands, cuts[0], start, end, tb);
      k := k + 1;
    }
    WholeRegion(p, cuts);
  }

  /** From the first cut point to the last is the whole region, and no instant counts outside it. */
  lemma WholeRegion(p: Pair, cuts: seq<int>)
    requires Increasing(cuts, IntLe) && |cuts| > 0 && (forall x :: x in cuts <==> x in CutPoints(p))
    ensures forall q :: Total(p, q, cuts[0], cuts[|cuts| - 1]) == Sum(p, q)
  {
    assert p.lo in cuts && p.hi in cuts && cuts[0] in CutPoints(p) && cuts[|cuts| - 1] in CutPoints(p);
    forall q
      ensures Total(p, q, cuts[0], cuts[|cuts| - 1]) == Sum(p, q)
    {
      WholeRegionOf(p, q, cuts[0], cuts[|cuts| - 1]);
    }
  }

  lemma WholeRegionOf(p: Pair, q: Query, first: int, last: int)
    requires first in CutPoints(p) && last in CutPoints(p) && first <= p.lo && first <= p.hi && p.lo <= last && p.hi <= last
    ensures Total(p, q, first, last) == Sum(p, q)
  {
    if p.lo <= p.hi {
      CutsInRegion(p, first);
      CutsInRegion(p, last);
      assert first == p.lo && last == p.hi;
    } else {
      OutsideIsNothing(p, q, first, last);
    }
  }

  lemma OutsideIsNothing(p: Pair, q: Query, first: int, last: int)
    requires p.hi < p.lo
    ensures Total(p, q, first, last) == 0
  {
    forall t
      ensures At(p, q, t) == 0
    {
      assert !Scored(p, t);
    }
    TotalNothing(p, q, first, last);
  }
}
