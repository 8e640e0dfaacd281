/**
  The expected calibration error over ten confidence bins: the weighted gap between each bin's
  share of right answers and its mean confidence.
 */
module Calibration {
  import opened Quotients

  const BINS: nat := 10

  /** Confidences and whether each answer was right. */
  datatype Sample = Sample(conf: seq<real>, right: seq<bool>) {
    ghost predicate Valid() {
      |conf| == |right| && forall i :: 0 <= i < |conf| ==> 0.0 <= conf[i] <= 1.0
    }
  }

  function Abs(x: real): real { if x < 0.0 then -x else x }

  function Bin(conf: real): (b: nat)
    requires 0.0 <= conf <= 1.0
    ensures b < BINS
  {
    var b := (conf * 10.0).Floor;
    if b < 9 then b else 9
  }

  /** Bin `b` holds the confidences from b/10 up to (b+1)/10; the last one holds 1 as well. */
  lemma BinHolds(conf: real, b: nat)
    requires 0.0 <= conf <= 1.0 && b < BINS
    ensures Bin(conf) == b <==> b as real / 10.0 <= conf && (conf < (b + 1) as real / 10.0 || b == 9)
  {
  }

  function Hit(right: bool): real { if right then 1.0 else 0.0 }

  /** The members of bin `b` among the first `k` samples, in order. */
  ghost function Members(s: Sample, b: nat, k: nat): seq<nat>
    requires s.Valid() && k <= |s.conf|
  {
    if k == 0 then []
    else Members(s, b, k - 1) + if Bin(s.conf[k - 1]) == b then [k - 1] else []
  }

  /** The bins partition the samples: each index is in its own bin once, and in no other. */
  lemma {:induction false} MembersPartition(s: Sample, b: nat, k: nat)
    requires s.Valid() && k <= |s.conf|
    ensures forall i: nat :: i in Members(s, b, k) <==> i < k && Bin(s.conf[i]) == b
    ensures forall x, y :: 0 <= x < y < |Members(s, b, k)| ==> Members(s, b, k)[x] < Members(s, b, k)[y]
  {
    if k > 0 {
      MembersPartition(s, b, k - 1);
      var before := Members(s, b, k - 1);
      assert forall x :: 0 <= x < |before| ==> before[x] in before;
    }
  }

  // ----- sums -----

  function ConfSum(s: Sample, members: seq<nat>): real
    requires s.Valid() && forall x :: 0 <= x < |members| ==> members[x] < |s.conf|
  {
    if members == [] then 0.0
    else ConfSum(s, members[..|members| - 1]) + s.conf[members[|members| - 1]]
  }

  function HitSum(s: Sample, members: seq<nat>): real
    requires s.Valid() && forall x :: 0 <= x < |members| ==> members[x] < |s.conf|
  {
    if members == [] then 0.0
    else HitSum(s, members[..|members| - 1]) + Hit(s.right[members[|members| - 1]])
  }

  /** The gap of bin `b`: its hits less its confidence, added up over the first `k` samples. */
  ghost function Gap(s: Sample, b: nat, k: nat): real
    requires s.Valid() && k <= |s.conf|
  {
    if k == 0 then 0.0
    else Gap(s, b, k - 1) + if Bin(s.conf[k - 1]) == b then Off(s, k - 1) else 0.0
  }

  ghost function Off(s: Sample, i: nat): real
    requires s.Valid() && i < |s.conf|
  {
    Hit(s.right[i]) - s.conf[i]
  }

  lemma {:induction false} MembersInRange(s: Sample, b: nat, k: nat)
    requires s.Valid() && k <= |s.conf|
    ensures forall x :: 0 <= x < |Members(s, b, k)| ==> Members(s, b, k)[x] < |s.conf|
  {
    if k > 0 {
      MembersInRange(s, b, k - 1);
    }
  }

  lemma {:induction false} GapOfMembers(s: Sample, b: nat, k: nat, members: seq<nat>)
    requires s.Valid() && k <= |s.conf| && members == Members(s, b, k)
    requires forall x :: 0 <= x < |members| ==> members[x] < |s.conf|
    ensures HitSum(s, members) - ConfSum(s, members) == Gap(s, b, k)
  {
    if k > 0 {
      MembersInRange(s, b, k - 1);
      GapOfMembers(s, b, k - 1, Members(s, b, k - 1));
      if Bin(s.conf[k - 1]) == b {
      } else {
        assert members == Members(s, b, k - 1);
      }
    }
  }

  /** The gaps of the first `m` bins, with and without their signs. */
  ghost function Gaps(s: Sample, m: nat, k: nat): real
    requires s.Valid() && k <= |s.conf|
  {
    if m == 0 then 0.0 else Gaps(s, m - 1, k) + Gap(s, m - 1, k)
  }

  ghost function AbsGaps(s: Sample, m: nat, k: nat): real
    requires s.Valid() && k <= |s.conf|
  {
    if m == 0 then 0.0 else AbsGaps(s, m - 1, k) + Abs(Gap(s, m - 1, k))
  }

  ghost function Offs(s: Sample, k: nat): real
    requires s.Valid() && k <= |s.conf|
  {
    if k == 0 then 0.0 else Offs(s, k - 1) + Off(s, k - 1)
  }

  ghost function AbsOffs(s: Sample, k: nat): real
    requires s.Valid() && k <= |s.conf|
  {
    if k == 0 then 0.0 else AbsOffs(s, k - 1) + Abs(Off(s, k - 1))
  }

  lemma {:induction false} GapsStep(s: Sample, m: nat, k: nat)
    requires s.Valid() && 0 < k <= |s.conf|
    ensures Gaps(s, m, k) == Gaps(s, m, k - 1) + if Bin(s.conf[k - 1]) < m then Off(s, k - 1) else 0.0
    ensures AbsGaps(s, m, k) <= AbsGaps(s, m, k - 1) + if Bin(s.conf[k - 1]) < m then Abs(Off(s, k - 1)) else 0.0
  {
    if m > 0 {
      GapsStep(s, m - 1, k);
    }
  }

  /** The signed gaps of all bins add up to the overall gap; without signs they never exceed the single ones. */
  lemma {:induction false} GapsAddUp(s: Sample, k: nat)
    requires s.Valid() && k <= |s.conf|
    ensures Gaps(s, BINS, k) == Offs(s, k)
    ensures AbsGaps(s, BINS, k) <= AbsOffs(s, k)
  {
    if k > 0 {
      GapsAddUp(s, k - 1);
      GapsStep(s, BINS, k);
    } else {
      NoGaps(s, BINS);
    }
  }

  lemma {:induction false} NoGaps(s: Sample, m: nat)
    requires s.Valid()
    ensures Gaps(s, m, 0) == AbsGaps(s, m, 0) == 0.0
  {
    if m > 0 {
      NoGaps(s, m - 1);
    }
  }

  lemma {:induction false} SignsOnlyHelp(s: Sample, m: nat, k: nat)
    requires s.Valid() && k <= |s.conf|
    ensures Abs(Gaps(s, m, k)) <= AbsGaps(s, m, k)
  {
    if m > 0 {
      SignsOnlyHelp(s, m - 1, k);
    }
  }

  lemma {:induction false} MeansDiffer(s: Sample, k: nat)
    requires s.Valid() && k <= |s.conf|
    ensures AllHits(s, k) - AllConf(s, k) == Offs(s, k)
  {
    if k > 0 {
      MeansDiffer(s, k - 1);
    }
  }

  ghost function AllHits(s: Sample, k: nat): real
    requires s.Valid() && k <= |s.conf|
  {
    if k == 0 then 0.0 else AllHits(s, k - 1) + Hit(s.right[k - 1])
  }

  ghost function AllConf(s: Sample, k: nat): real
    requires s.Valid() && k <= |s.conf|
  {
    if k == 0 then 0.0 else AllConf(s, k - 1) + s.conf[k - 1]
  }

  // ----- the error itself -----

  /** The first loop: each index goes to the list of its bin. */
  method FillBins(s: Sample) returns (members: seq<seq<nat>>)
    requires s.Valid()
    ensures |members| == BINS && forall b :: 0 <= b < BINS ==> members[b] == Members(s, b, |s.conf|)
  {
    members := seq(BINS, b => []);
    for i := 0 to |s.conf|
      invariant |members| == BINS && forall b :: 0 <= b < BINS ==> members[b] == Members(s, b, i)
    {
      var b := Bin(s.conf[i]);
      members := members[b := members[b] + [i]];
    }
  }

  /** The second loop: the count-weighted gaps of the bins that have members. */
  method SumGaps(s: Sample, members: seq<seq<nat>>) returns (sum: real)
    requires s.Valid() && |members| == BINS
    requires forall b :: 0 <= b < BINS ==> members[b] == Members(s, b, |s.conf|)
    ensures sum == AbsGaps(s, BINS, |s.conf|)
  {
    sum := 0.0;
    for b := 0 to BINS
      invariant sum == AbsGaps(s, b, |s.conf|)
    {
      var idx := members[b];
      MembersInRange(s, b, |s.conf|);
      ghost var gap := Gap(s, b, |s.conf|);
      assert HitSum(s, idx) - ConfSum(s, idx) == gap by {
        GapOfMembers(s, b, |s.conf|, idx);
      }
      if |idx| == 0 {
        continue;
      }
      var confs, hits, count := ConfSum(s, idx), HitSum(s, idx), |idx| as real;
      var term := count * Abs(hits / count - confs / count);
      assert term == Abs(gap);
      sum := sum + term;
    }
  }

  /**
   * The bins' mean gaps, weighted by their counts. No samples score zero; otherwise the
   * error lies between the gap of the two overall means and the mean of the single gaps.
   */
  method ExpectedCalibrationError(s: Sample) returns (ece: real)
    requires s.Valid()
    ensures s.conf == [] ==> ece == 0.0
    ensures var n := |s.conf|;
            n > 0 ==>
              && ece * n as real == AbsGaps(s, BINS, n)
              && Abs(AllHits(s, n) / n as real - AllConf(s, n) / n as real) <= ece <= AbsOffs(s, n) / n as real
  {
    var members := FillBins(s);
    var total := |s.conf|;
    if total == 0 {
      return 0.0;
    }
    var sum := SumGaps(s, members);
    ece := sum / total as real;
    Bounds(s, sum);
  }

  lemma Bounds(s: Sample, sum: real)
    requires s.Valid() && |s.conf| > 0 && sum == AbsGaps(s, BINS, |s.conf|)
    ensures var n := |s.conf|;
            && sum / n as real * n as real == sum
            && Abs(AllHits(s, n) / n as real - AllConf(s, n) / n as real) <= sum / n as real <= AbsOffs(s, n) / n as real
  {
    var k := |s.conf|;
    GapsAddUp(s, k);
    SignsOnlyHelp(s, BINS, k);
    MeansDiffer(s, k);
    MeanBounds(k as real, AllHits(s, k), AllConf(s, k), Offs(s, k), sum, AbsOffs(s, k));
  }

  lemma MeanBounds(n: real, hits: real, confs: real, offs: real, sum: real, singles: real)
    requires n > 0.0 && hits - confs == offs && Abs(offs) <= sum <= singles
    ensures sum / n * n == sum
    ensures Abs(hits / n - confs / n) <= sum / n <= singles / n
  {
    var gap := Abs(hits / n - confs / n);
    QuotientOrder(n * gap, sum, n);
    QuotientOrder(sum, singles, n);
    Divided(sum, n);
  }
}
