/** Quantile-grid scoring of forecasts: the CRPS, the crossing check and the seasonal-naive baseline. */
module Forecast {
  import opened Quotients
  import opened Results
  import opened Sorting

  const LEVELS: nat := 21
  const WEEK: nat := 7

  /** The 21 quantile levels: 0.01, then 0.05 to 0.95 in steps of 0.05, then 0.99. */
  function Level(i: nat): (tau: real)
    requires i < LEVELS
    ensures 0.0 < tau < 1.0
  {
    if i == 0 then 0.01 else if i == 20 then 0.99 else i as real / 20.0
  }

  function Levels(): (w: seq<real>)
    ensures |w| == LEVELS && forall i :: 0 <= i < LEVELS ==> w[i] == Level(i)
    ensures StrictlyUp(w)
  {
    seq(LEVELS, i requires 0 <= i < LEVELS => Level(i))
  }

  ghost predicate StrictlyUp(w: seq<real>) {
    forall i, j :: 0 <= i < j < |w| ==> w[i] < w[j]
  }

  predicate RealLe(a: real, b: real) { a <= b }

  function Abs(x: real): real { if x < 0.0 then -x else x }

  function Over(x: real): real { if x < 0.0 then 0.0 else x }

  lemma Product(a: real, b: real)
    ensures a >= 0.0 && b >= 0.0 ==> a * b >= 0.0
    ensures a > 0.0 && b > 0.0 ==> a * b > 0.0
  {
  }

  lemma Exchanged(w0: real, w1: real, low: real, high: real)
    requires w0 < w1 && low < high
    ensures w0 * low + w1 * high > w0 * high + w1 * low
  {
    assert (w1 - w0) * (high - low) > 0.0;
  }

  function Pinball(tau: real, actual: real, predicted: real): real {
    var d := actual - predicted;
    if d >= 0.0 then d * tau else (tau - 1.0) * d
  }

  /** A loss is never negative, and zero only for an exact prediction. */
  lemma PinballIsLoss(tau: real, actual: real, predicted: real)
    requires 0.0 < tau < 1.0
    ensures Pinball(tau, actual, predicted) >= 0.0
    ensures Pinball(tau, actual, predicted) == 0.0 <==> predicted == actual
  {
    var d := actual - predicted;
    if d >= 0.0 {
      Product(d, tau);
    } else {
      Product(1.0 - tau, -d);
      assert (1.0 - tau) * -d == (tau - 1.0) * d;
    }
  }

  /** Losses at the given levels, added up. */
  ghost function Total(loss: (real, real) -> real, taus: seq<real>, grid: seq<real>): real
    requires |taus| == |grid|
  {
    if grid == [] then 0.0 else loss(taus[0], grid[0]) + Total(loss, taus[1..], grid[1..])
  }

  lemma {:induction false} TotalSnoc(loss: (real, real) -> real, taus: seq<real>, grid: seq<real>)
    requires |taus| == |grid| > 0
    ensures var n := |grid| - 1; Total(loss, taus, grid) == Total(loss, taus[..n], grid[..n]) + loss(taus[n], grid[n])
  {
    var n := |grid| - 1;
    if n > 0 {
      TotalSnoc(loss, taus[1..], grid[1..]);
      assert taus[1..][..n - 1] == taus[..n][1..] && grid[1..][..n - 1] == grid[..n][1..];
    } else {
      assert Total(loss, taus[1..], grid[1..]) == 0.0;
    }
  }

  ghost function PinballAt(actual: real): (real, real) -> real {
    (tau, predicted) => Pinball(tau, actual, predicted)
  }

  ghost function Losses(taus: seq<real>, grid: seq<real>, actual: real): real
    requires |taus| == |grid|
  {
    Total(PinballAt(actual), taus, grid)
  }

  /** A whole grid's CRPS: twice the mean loss over the levels. */
  ghost function Crps(grid: seq<real>, actual: real): real
    requires |grid| == LEVELS
  {
    2.0 / 21.0 * Losses(Levels(), grid, actual)
  }

  method CrpsFromQuantiles(grid: seq<real>, actual: real) returns (crps: real)
    requires |grid| == LEVELS
    ensures crps == Crps(grid, actual)
    ensures crps >= 0.0 && (crps == 0.0 <==> forall i :: 0 <= i < LEVELS ==> grid[i] == actual)
  {
    var total, taus := 0.0, Levels();
    for k := 0 to LEVELS
      invariant total == Losses(taus[..k], grid[..k], actual)
      invariant total >= 0.0 && (total == 0.0 <==> forall i :: 0 <= i < k ==> grid[i] == actual)
    {
      TotalSnoc(PinballAt(actual), taus[..k + 1], grid[..k + 1]);
      assert taus[..k + 1][..k] == taus[..k] && grid[..k + 1][..k] == grid[..k];
      PinballIsLoss(taus[k], actual, grid[k]);
      total := total + Pinball(taus[k], actual, grid[k]);
    }
    assert taus[..LEVELS] == taus && grid[..LEVELS] == grid;
    return 2.0 / 21.0 * total;
  }

  // ----- sorting a grid -----

  /** A low value belongs to a low level: crossing two of them costs more. */
  ghost predicate CrossingCosts(loss: (real, real) -> real) {
    forall t0, t1, low, high :: t0 < t1 && low < high ==> loss(t0, low) + loss(t1, high) < loss(t0, high) + loss(t1, low)
  }

  lemma PinballCrossingCosts(actual: real)
    ensures CrossingCosts(PinballAt(actual))
  {
    forall t0, t1, low, high | t0 < t1 && low < high
      ensures Pinball(t0, actual, low) + Pinball(t1, actual, high) < Pinball(t0, actual, high) + Pinball(t1, actual, low)
    {
      Exchanged(t0, t1, low, high);
    }
  }

  /** Moving a value up to its place never costs, and gains if it moves. */
  lemma {:induction false} InsertGains(loss: (real, real) -> real, taus: seq<real>, x: real, s: seq<real>)
    requires |taus| == |s| + 1 && StrictlyUp(taus) && CrossingCosts(loss)
    ensures Total(loss, taus, Insert(x, s, RealLe)) <= Total(loss, taus, [x] + s)
    ensures s != [] && x > s[0] ==> Total(loss, taus, Insert(x, s, RealLe)) < Total(loss, taus, [x] + s)
  {
    if s != [] && x > s[0] {
      InsertGains(loss, taus[1..], x, s[1..]);
      assert taus[1..][0] == taus[1];
    }
  }

  lemma {:induction false} SortGains(loss: (real, real) -> real, taus: seq<real>, s: seq<real>)
    requires |taus| == |s| && StrictlyUp(taus) && CrossingCosts(loss)
    ensures Total(loss, taus, Sort(s, RealLe)) <= Total(loss, taus, s)
    ensures !Ordered(s, RealLe) ==> Total(loss, taus, Sort(s, RealLe)) < Total(loss, taus, s)
  {
    if s != [] {
      var rest := Sort(s[1..], RealLe);
      SortGains(loss, taus[1..], s[1..]);
      InsertGains(loss, taus, s[0], rest);
      if Ordered(s[1..], RealLe) && !Ordered(s, RealLe) {
        OrderedIsSorted(s[1..]);
        OutOfPlace(s);
      }
    }
  }

  lemma OrderedIsSorted(s: seq<real>)
    ensures Ordered(s, RealLe) <==> Sort(s, RealLe) == s
  {
    assert TotalOrder(RealLe);
    SortOrdered(s, RealLe);
    if Ordered(s, RealLe) {
      OrderedUnique(Sort(s, RealLe), s, RealLe);
    }
  }

  lemma OutOfPlace(s: seq<real>)
    requires s != [] && Ordered(s[1..], RealLe) && !Ordered(s, RealLe)
    ensures |s| > 1 && s[0] > s[1]
  {
    var i, j :| 0 <= i < j < |s| && s[i] > s[j];
    var k := if i == 0 then 1 else i;
    assert k < j ==> RealLe(s[1..][k - 1], s[1..][j - 1]);
  }

  lemma SortingLowersLosses(taus: seq<real>, grid: seq<real>, actual: real)
    requires |taus| == |grid| && StrictlyUp(taus)
    ensures Losses(taus, Sort(grid, RealLe), actual) <= Losses(taus, grid, actual)
    ensures !Ordered(grid, RealLe) ==> Losses(taus, Sort(grid, RealLe), actual) < Losses(taus, grid, actual)
  {
    PinballCrossingCosts(actual);
    SortGains(PinballAt(actual), taus, grid);
  }

  /** Sorting a grid never raises its CRPS, and lowers it exactly when two of its levels cross. */
  lemma SortingLowersCrps(grid: seq<real>, actual: real)
    requires |grid| == LEVELS
    ensures Crps(Sort(grid, RealLe), actual) <= Crps(grid, actual)
    ensures Crps(Sort(grid, RealLe), actual) < Crps(grid, actual) <==> !Ordered(grid, RealLe)
  {
    SortingLowersLosses(Levels(), grid, actual);
    if Ordered(grid, RealLe) {
      OrderedIsSorted(grid);
    }
  }

  // ----- the crossing check -----

  datatype Crossing = Crossing(step: nat, a: real, b: real)

  lemma {:induction false} AdjacentIsOrdered(s: seq<real>)
    ensures Ordered(s, RealLe) <==> forall j :: 0 <= j < |s| - 1 ==> s[j] <= s[j + 1]
  {
    if (forall j :: 0 <= j < |s| - 1 ==> s[j] <= s[j + 1]) && s != [] {
      forall j | 0 <= j < |s| - 2
        ensures s[1..][j] <= s[1..][j + 1]
      {
        assert s[j + 1] <= s[j + 1 + 1];
      }
      AdjacentIsOrdered(s[1..]);
      forall i, j | 0 <= i < j < |s|
        ensures RealLe(s[i], s[j])
      {
        assert i > 0 ==> RealLe(s[1..][i - 1], s[1..][j - 1]);
        assert j > 1 ==> RealLe(s[1..][0], s[1..][j - 1]);
      }
    } else {
      assert forall j :: 0 <= j < |s| - 1 && Ordered(s, RealLe) ==> RealLe(s[j], s[j + 1]);
    }
  }

  /** The first place where the grid goes down. */
  ghost predicate FirstDrop(grid: seq<real>, j: nat, f: Crossing) {
    && j + 1 < |grid|
    && f.a == grid[j] && f.b == grid[j + 1] && f.b < f.a
    && forall i :: 0 <= i < j ==> grid[i] <= grid[i + 1]
  }

  ghost predicate Flags(fails: seq<Crossing>, grids: seq<seq<real>>, upto: nat)
    requires upto <= |grids|
  {
    && (forall f :: f in fails ==> f.step < upto && exists j: nat :: FirstDrop(grids[f.step], j, f))
    && (forall i :: 0 <= i < upto && !Ordered(grids[i], RealLe) ==> exists f :: f in fails && f.step == i)
    && (forall x, y :: 0 <= x < y < |fails| ==> fails[x].step < fails[y].step)
  }

  /** One failure for each grid that is not sorted, naming its first crossing; none for the others. */
  method CheckMonotone(grids: seq<seq<real>>) returns (fails: seq<Crossing>)
    ensures Flags(fails, grids, |grids|)
    ensures forall i :: 0 <= i < |grids| ==>
                          ((exists f :: f in fails && f.step == i) <==> !Ordered(grids[i], RealLe))
  {
    fails := [];
    for i := 0 to |grids|
      invariant Flags(fails, grids, i)
    {
      var grid, flagged := grids[i], false;
      ghost var before := fails;
      for j := 0 to |grid| - (if |grid| == 0 then 0 else 1)
        invariant !flagged && fails == before
        invariant forall m :: 0 <= m < j ==> grid[m] <= grid[m + 1]
      {
        if grid[j + 1] < grid[j] {
          fails := fails + [Crossing(i, grid[j], grid[j + 1])];
          flagged := true;
          assert FirstDrop(grid, j, fails[|before|]);
          break;
        }
      }
      if !flagged {
        AdjacentIsOrdered(grid);
      }
    }
    forall i | 0 <= i < |grids|
      ensures (exists f :: f in fails && f.step == i) <==> !Ordered(grids[i], RealLe)
    {
    }
  }

  // ----- the baseline -----

  ghost function Sum(s: seq<real>): real {
    if s == [] then 0.0 else s[0] + Sum(s[1..])
  }

  lemma {:induction false} LevelsFrom(k: nat)
    requires 1 <= k <= 20
    ensures Sum(Levels()[k..]) == 0.99 + (380 - k * (k - 1)) as real / 40.0
    decreases 20 - k
  {
    var w := Levels();
    assert w[k..][0] == Level(k) && w[k..][1..] == w[k + 1..];
    if k == 20 {
      assert w[k..] == [0.99];
    } else {
      LevelsFrom(k + 1);
      assert (k + 1) * k == k * (k - 1) + 2 * k;
      assert (380 - k * (k - 1)) as real == (380 - (k + 1) * k) as real + 2.0 * k as real;
    }
  }

  lemma LevelsSum()
    ensures Sum(Levels()) == 10.5
  {
    LevelsFrom(1);
    assert Levels()[0] == 0.01;
  }

  ghost predicate Constant(grid: seq<real>, q: real) {
    forall i :: 0 <= i < |grid| ==> grid[i] == q
  }

  lemma {:induction false} ConstantLosses(taus: seq<real>, grid: seq<real>, q: real, actual: real)
    requires |taus| == |grid| && Constant(grid, q)
    ensures Losses(taus, grid, actual) == (actual - q) * Sum(taus) + |grid| as real * Over(q - actual)
  {
    if grid != [] {
      ConstantLosses(taus[1..], grid[1..], q, actual);
    }
  }

  /** A grid whose levels all say `q` scores exactly the absolute error of `q`. */
  lemma ConstantGridScoresError(grid: seq<real>, q: real, actual: real)
    requires |grid| == LEVELS && Constant(grid, q)
    ensures Crps(grid, actual) == Abs(actual - q)
  {
    ConstantLosses(Levels(), grid, q, actual);
    LevelsSum();
  }

  /**
    How many values `values[:len(values) - horizon]` keeps: a horizon longer than the series makes the
    stop index negative, so that it counts from the end once more.
   */
  function ContextSize(count: nat, horizon: nat): (n: nat)
    ensures n <= count
  {
    if horizon <= count then count - horizon else if horizon <= 2 * count then 2 * count - horizon else 0
  }

  /**
    The last week before the horizon, tiled: each step repeats the last seen value of its weekday.
    With less than a week of context the first steps repeat the context, and more steps are an error.
   */
  function SeasonalNaive(values: seq<real>, horizon: nat): (point: Option<seq<real>>)
    ensures var n := ContextSize(|values|, horizon); point.None? <==> n < WEEK && n < horizon
    ensures point.Some? ==> |point.value| == horizon
    ensures var n := ContextSize(|values|, horizon); point.Some? && n >= WEEK ==>
              forall h :: 0 <= h < horizon ==> point.value[h] == values[n - WEEK + h % WEEK]
    ensures var n := ContextSize(|values|, horizon); point.Some? && n < WEEK ==>
              forall h :: 0 <= h < horizon ==> point.value[h] == values[h]
  {
    var context := values[..ContextSize(|values|, horizon)];
    var tail := if |context| < WEEK then context else context[|context| - WEEK..];
    if |tail| < WEEK && |tail| < horizon then None
    else
      Some(seq(horizon, h requires 0 <= h < horizon => tail[h % WEEK]))
  }

  /** The value a step repeats is one of the last week, from as far into the week as the step is. */
  lemma SeasonalNaiveKeepsWeekday(values: seq<real>, horizon: nat, h: nat) returns (t: nat)
    requires SeasonalNaive(values, horizon).Some? && h < horizon && ContextSize(|values|, horizon) >= WEEK
    ensures var n := ContextSize(|values|, horizon); n - WEEK <= t < n && t % WEEK == (n + h) % WEEK
    ensures SeasonalNaive(values, horizon).value[h] == values[t]
  {
    var n := ContextSize(|values|, horizon);
    t := n - WEEK + h % WEEK;
    SameWeekday(n, h, h / WEEK);
  }

  lemma SameWeekday(n: nat, h: nat, weeks: nat)
    requires n >= WEEK && weeks == h / WEEK
    ensures (n - WEEK + h % WEEK) % WEEK == (n + h) % WEEK
  {
    assert n + h == n - WEEK + h % WEEK + WEEK * (weeks + 1);
  }

  ghost function SumErrors(target: seq<real>, point: seq<real>): real
    requires |target| == |point|
  {
    if target == [] then 0.0 else Abs(target[0] - point[0]) + SumErrors(target[1..], point[1..])
  }

  ghost function SumCrps(target: seq<real>, grids: seq<seq<real>>): real
    requires |target| == |grids| && forall h :: 0 <= h < |grids| ==> |grids[h]| == LEVELS
  {
    if target == [] then 0.0 else Crps(grids[0], target[0]) + SumCrps(target[1..], grids[1..])
  }

  /** Scored through the quantile path, a point forecast's CRPS is its absolute error, step by step. */
  lemma {:induction false} BaselineScoresItsError(target: seq<real>, point: seq<real>, grids: seq<seq<real>>)
    requires |target| == |point| == |grids|
    requires forall h :: 0 <= h < |grids| ==> |grids[h]| == LEVELS && Constant(grids[h], point[h])
    ensures SumCrps(target, grids) == SumErrors(target, point)
  {
    if target != [] {
      ConstantGridScoresError(grids[0], point[0], target[0]);
      BaselineScoresItsError(target[1..], point[1..], grids[1..]);
    }
  }

  // ----- the model's absolute error -----

  /** The mean absolute error of the steps that `zip` pairs up. */
  ghost function MeanError(target: seq<real>, point: seq<real>): real
    requires |target| == |point| > 0
  {
    SumErrors(target, point) / |target| as real
  }

  /**
    The number reported as the model's error: it is taken against `grids[10]`, all levels of the eleventh
    step, as far as both reach. With ten steps or fewer there is no such step.
   */
  ghost function ModelMae(target: seq<real>, grids: seq<seq<real>>): (mae: Option<real>)
    requires target != [] && |grids| == |target| && forall h :: 0 <= h < |grids| ==> |grids[h]| == LEVELS
    ensures mae.None? <==> |target| <= LEVELS / 2
  {
    if |grids| <= LEVELS / 2 then None
    else
      var n := if |target| < LEVELS then |target| else LEVELS;
      Some(MeanError(target[..n], grids[LEVELS / 2][..n]))
  }

  /** The error of the median column: level 0.5 of every step. */
  ghost function MedianMae(target: seq<real>, grids: seq<seq<real>>): real
    requires target != [] && |grids| == |target| && forall h :: 0 <= h < |grids| ==> |grids[h]| == LEVELS
  {
    MeanError(target, seq(|grids|, h requires 0 <= h < |grids| => grids[h][LEVELS / 2]))
  }

  lemma {:induction false} NoError(target: seq<real>, point: seq<real>)
    requires |target| == |point|
    ensures SumErrors(target, point) >= 0.0
    ensures SumErrors(target, point) == 0.0 <==> forall h :: 0 <= h < |target| ==> point[h] == target[h]
  {
    if target != [] {
      NoError(target[1..], point[1..]);
      assert forall h :: 1 <= h < |target| ==> target[h] == target[1..][h - 1] && point[h] == point[1..][h - 1];
    }
  }

  lemma NoMeanError(target: seq<real>, point: seq<real>)
    requires |target| == |point| > 0
    ensures MeanError(target, point) == 0.0 <==> forall h :: 0 <= h < |target| ==> point[h] == target[h]
  {
    NoError(target, point);
    UnitQuotient(SumErrors(target, point), |target| as real);
  }

  /**
    What a reported error of zero means: not that the median column hits every value, but that the levels
    of the eleventh step do, one after the other.
   */
  lemma ModelMaeReadsOneStep(target: seq<real>, grids: seq<seq<real>>)
    requires |target| == |grids| > LEVELS / 2 && forall h :: 0 <= h < |grids| ==> |grids[h]| == LEVELS
    ensures ModelMae(target, grids) == Some(0.0)
       <==> forall k :: 0 <= k < |target| && k < LEVELS ==> grids[LEVELS / 2][k] == target[k]
    ensures MedianMae(target, grids) == 0.0 <==> forall h :: 0 <= h < |grids| ==> grids[h][LEVELS / 2] == target[h]
  {
    var n := if |target| < LEVELS then |target| else LEVELS;
    NoMeanError(target[..n], grids[LEVELS / 2][..n]);
    NoMeanError(target, seq(|grids|, h requires 0 <= h < |grids| => grids[h][LEVELS / 2]));
  }

  /** Eleven steps of the levels -10 to 10. */
  function SpreadGrids(): (grids: seq<seq<real>>)
    ensures |grids| == 11 && forall h :: 0 <= h < 11 ==> |grids[h]| == LEVELS
    ensures forall h, k :: 0 <= h < 11 && 0 <= k < LEVELS ==> grids[h][k] == (k - 10) as real
  {
    seq(11, _ => seq(LEVELS, k => (k - 10) as real))
  }

  /** A forecast whose median is right at every step is charged an error. */
  lemma RightMedianIsCharged()
    ensures var target := seq(11, _ => 0.0);
      MedianMae(target, SpreadGrids()) == 0.0 && ModelMae(target, SpreadGrids()) != Some(0.0)
  {
    var target: seq<real> := seq(11, _ => 0.0);
    ModelMaeReadsOneStep(target, SpreadGrids());
    assert SpreadGrids()[10][0] == -10.0 && target[0] == 0.0;
  }
}
