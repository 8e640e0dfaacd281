/** Comparing a pool with one model: paired counts, scores and the exact two-sided McNemar p-value. */
module McNemar {
  import opened Quotients
  import opened Results
  import opened Tandem

  /** One question: the model's own answer, the gold distribution and the gold answer. */
  datatype Record = Record(pred: Dist, gold: Dist, answer: string)

  type Pool = Record -> Dist

  /** Every record's distributions name at least one label. */
  ghost predicate Answered(records: seq<Record>, pool: Pool) {
    forall i :: 0 <= i < |records| ==> records[i].pred != map[] && pool(records[i]) != map[]
  }

  predicate Right(d: Dist, r: Record) { d != map[] && Argmax(d) == r.answer }

  function Alone(): Pool { (r: Record) => r.pred }

  // ----- counting -----

  function Correct(records: seq<Record>, pool: Pool): nat {
    if records == [] then 0
    else Correct(records[..|records| - 1], pool) + if Right(pool(records[|records| - 1]), records[|records| - 1]) then 1 else 0
  }

  ghost predicate Fixes(r: Record, pool: Pool) { Right(pool(r), r) && !Right(r.pred, r) }

  ghost predicate Breaks(r: Record, pool: Pool) { Right(r.pred, r) && !Right(pool(r), r) }

  ghost function Where(records: seq<Record>, p: Record -> bool): set<nat> {
    set i: nat | i < |records| && p(records[i])
  }

  ghost function FixCount(records: seq<Record>, pool: Pool): nat {
    |Where(records, r => Fixes(r, pool))|
  }

  ghost function BreakCount(records: seq<Record>, pool: Pool): nat {
    |Where(records, r => Breaks(r, pool))|
  }

  lemma WhereStep(records: seq<Record>, k: nat, p: Record -> bool)
    requires k < |records|
    ensures |Where(records[..k + 1], p)| == |Where(records[..k], p)| + if p(records[k]) then 1 else 0
  {
    var before, after := Where(records[..k], p), Where(records[..k + 1], p);
    forall i: nat
      ensures i in after <==> i in before || (i == k && p(records[k]))
    {
      WhereNext(records, k, p, i);
    }
    assert k !in before;
    assert after == before + if p(records[k]) then {k} else {};
  }

  lemma WhereNext(records: seq<Record>, k: nat, p: Record -> bool, i: nat)
    requires k < |records|
    ensures i in Where(records[..k + 1], p) <==> i in Where(records[..k], p) || (i == k && p(records[k]))
  {
    if i < k {
      assert records[..k][i] == records[..k + 1][i];
    } else if i == k {
      assert records[..k + 1][k] == records[k];
    }
  }

  lemma CountStep(records: seq<Record>, k: nat, pool: Pool)
    requires k < |records|
    ensures FixCount(records[..k + 1], pool) == FixCount(records[..k], pool) + if Fixes(records[k], pool) then 1 else 0
    ensures BreakCount(records[..k + 1], pool) == BreakCount(records[..k], pool) + if Breaks(records[k], pool) then 1 else 0
  {
    WhereStep(records, k, r => Fixes(r, pool));
    WhereStep(records, k, r => Breaks(r, pool));
  }

  /** What the pool fixes less what it breaks is what it gains in correct answers. */
  lemma {:induction false} FixesLessBreaks(records: seq<Record>, pool: Pool)
    ensures FixCount(records, pool) - BreakCount(records, pool) == Correct(records, pool) - Correct(records, Alone())
  {
    if records != [] {
      var k := |records| - 1;
      FixesLessBreaks(records[..k], pool);
      CountStep(records, k, pool);
      assert records[..k + 1] == records;
    } else {
      assert Where(records, r => Fixes(r, pool)) == Where(records, r => Breaks(r, pool)) == {};
    }
  }

  ghost function BrierTotal(records: seq<Record>, pool: Pool): real {
    if records == [] then 0.0
    else BrierTotal(records[..|records| - 1], pool) + Brier(records[|records| - 1].gold, pool(records[|records| - 1]))
  }

  datatype Score = Score(accuracyPct: real, correct: nat, n: nat, brierMean: real)

  lemma TotalsStep(records: seq<Record>, k: nat, pool: Pool)
    requires k < |records|
    ensures Correct(records[..k + 1], pool) == Correct(records[..k], pool) + if Right(pool(records[k]), records[k]) then 1 else 0
    ensures BrierTotal(records[..k + 1], pool) == BrierTotal(records[..k], pool) + Brier(records[k].gold, pool(records[k]))
  {
    assert records[..k + 1][..k] == records[..k] && records[..k + 1][k] == records[k];
  }

  /** The loop over the records. */
  method Totals(records: seq<Record>, pool: Pool) returns (correct: nat, briers: real)
    requires Answered(records, pool)
    ensures correct == Correct(records, pool) && briers == BrierTotal(records, pool)
  {
    correct, briers := 0, 0.0;
    for k := 0 to |records|
      invariant correct == Correct(records[..k], pool) && briers == BrierTotal(records[..k], pool)
    {
      TotalsStep(records, k, pool);
      var p := pool(records[k]);
      if Right(p, records[k]) {
        correct := correct + 1;
      }
      briers := briers + Brier(records[k].gold, p);
    }
    assert records[..|records|] == records;
  }

  /** The reported score: the percentage and the mean are totals shared out over the records. */
  function ScoreOf(correct: nat, briers: real, n: nat): (s: Score)
    requires n > 0
    ensures s.correct == correct && s.n == n
    ensures s.accuracyPct * n as real == 100.0 * correct as real
    ensures s.brierMean * n as real == briers
  {
    Divided(100.0 * correct as real, n as real);
    Divided(briers, n as real);
    Score(100.0 * correct as real / n as real, correct, n, briers / n as real)
  }

  /** Accuracy and mean Brier score of a pool; None stands for the division by zero on no records. */
  method ScorePool(records: seq<Record>, pool: Pool) returns (score: Option<Score>)
    requires Answered(records, pool)
    ensures score == if records == [] then None else Some(ScoreOf(Correct(records, pool), BrierTotal(records, pool), |records|))
  {
    var correct, briers := Totals(records, pool);
    if |records| == 0 {
      return None;
    }
    return Some(ScoreOf(correct, briers, |records|));
  }

  // ----- binomials -----

  function Choose(n: nat, k: nat): nat {
    if k == 0 then 1 else if n == 0 then 0 else Choose(n - 1, k - 1) + Choose(n - 1, k)
  }

  function Pow2(n: nat): (p: nat)
    ensures p > 0
  {
    if n == 0 then 1 else 2 * Pow2(n - 1)
  }

  /** The sum of `Choose(n, i)` for i up to `k`. */
  function Tail(n: nat, k: int): nat {
    if k < 0 then 0 else Tail(n, k - 1) + Choose(n, k)
  }

  lemma {:induction false} ChooseOutside(n: nat, k: nat)
    ensures k > n ==> Choose(n, k) == 0
    ensures k <= n ==> Choose(n, k) > 0
    ensures Choose(n, n) == 1
  {
    if n > 0 {
      ChooseOutside(n - 1, k);
      if k > 0 {
        ChooseOutside(n - 1, k - 1);
      }
      ChooseOutside(n - 1, n);
    }
  }

  lemma {:induction false} ChooseSymmetric(n: nat, k: nat)
    requires k <= n
    ensures Choose(n, k) == Choose(n, n - k)
  {
    ChooseOutside(n, k);
    if 0 < k < n {
      ChooseSymmetric(n - 1, k - 1);
      ChooseSymmetric(n - 1, k);
    }
  }

  lemma {:induction false} TailPascal(n: nat, k: int)
    requires n > 0
    ensures Tail(n, k) == Tail(n - 1, k) + Tail(n - 1, k - 1)
  {
    if k > 0 {
      TailPascal(n, k - 1);
    }
  }

  lemma {:induction false} TailWhole(n: nat)
    ensures Tail(n, n) == Pow2(n)
  {
    if n > 0 {
      TailPascal(n, n);
      TailWhole(n - 1);
      ChooseOutside(n - 1, n);
    }
  }

  /** By symmetry the two ends of a row add up to the whole row. */
  lemma {:induction false} TailComplement(n: nat, k: int)
    requires -1 <= k <= n
    ensures Tail(n, k) + Tail(n, n - 1 - k) == Pow2(n)
    decreases k + 1
  {
    TailWhole(n);
    if k >= 0 {
      TailComplement(n, k - 1);
      ChooseSymmetric(n, k);
      assert Tail(n, n - k) == Tail(n, n - k - 1) + Choose(n, n - k);
    }
  }

  lemma {:induction false} TailGrows(n: nat, k: int, m: int)
    requires k <= m <= n
    ensures Tail(n, k) <= Tail(n, m)
    ensures k < m && m >= 0 ==> Tail(n, k) < Tail(n, m)
    decreases m - k
  {
    if k < m && m >= 0 {
      TailGrows(n, k, m - 1);
      ChooseOutside(n, m);
    }
  }

  // ----- the p-value -----

  function Min(a: nat, b: nat): nat { if a <= b then a else b }

  function PValue(fixes: nat, breaks: nat): real {
    var n := fixes + breaks;
    if n == 0 then 1.0
    else
      var p := (2 * Tail(n, Min(fixes, breaks))) as real / Pow2(n) as real;
      if p <= 1.0 then p else 1.0
  }

  /** Twice the smaller tail against the whole row: when the difference is at most one, and when it is more. */
  lemma TailDoubled(fixes: nat, breaks: nat)
    requires fixes + breaks > 0
    ensures var k, n := Min(fixes, breaks), fixes + breaks;
            (2 * Tail(n, k) >= Pow2(n)) <==> (-1 <= fixes - breaks <= 1)
  {
    var k, n := Min(fixes, breaks), fixes + breaks;
    TailComplement(n, k);
    if n - 1 - k <= k {
      TailGrows(n, n - 1 - k, k);
    } else {
      TailGrows(n, k, n - 1 - k);
    }
  }

  lemma RatioAtLeastOne(a: nat, b: nat)
    requires b > 0
    ensures a as real / b as real >= 1.0 <==> a >= b
    ensures a > 0 ==> a as real / b as real > 0.0
  {
    UnitQuotient(a as real, b as real);
  }

  /** The p-value treats fixes and breaks alike; it is one exactly when they differ by at most one. */
  lemma PValueShape(fixes: nat, breaks: nat)
    ensures PValue(fixes, breaks) == PValue(breaks, fixes)
    ensures PValue(fixes, breaks) == 1.0 <==> -1 <= fixes - breaks <= 1
    ensures 0.0 < PValue(fixes, breaks) <= 1.0
  {
    var k, n := Min(fixes, breaks), fixes + breaks;
    if n > 0 {
      TailDoubled(fixes, breaks);
      TailGrows(n, -1, k);
      RatioAtLeastOne(2 * Tail(n, k), Pow2(n));
    }
  }

  // ----- what the p-value means -----

  /** As many heads, or as many tails, as `k` or fewer. */
  predicate Lopsided(heads: nat, n: nat, k: nat) { heads <= k || n <= heads + k }

  /** Of the sequences of `n` more flips, how many end lopsided, given `heads` so far out of `total` in the end. */
  function Outcomes(n: nat, heads: nat, total: nat, k: nat): nat {
    if n == 0 then if Lopsided(heads, total, k) then 1 else 0
    else Outcomes(n - 1, heads, total, k) + Outcomes(n - 1, heads + 1, total, k)
  }

  /** The lopsided outcomes with at most `m` heads among the remaining flips, counted by number of heads. */
  function Rows(n: nat, heads: nat, total: nat, k: nat, m: int): nat {
    if m < 0 then 0
    else Rows(n, heads, total, k, m - 1) + if Lopsided(heads + m, total, k) then Choose(n, m) else 0
  }

  lemma {:induction false} RowsPascal(n: nat, heads: nat, total: nat, k: nat, m: int)
    requires n > 0
    ensures Rows(n, heads, total, k, m)
         == Rows(n - 1, heads, total, k, m) + Rows(n - 1, heads + 1, total, k, m - 1)
  {
    if m > 0 {
      RowsPascal(n, heads, total, k, m - 1);
      assert heads + 1 + (m - 1) == heads + m;
    }
  }

  lemma {:induction false} OutcomesByHeads(n: nat, heads: nat, total: nat, k: nat)
    ensures Outcomes(n, heads, total, k) == Rows(n, heads, total, k, n)
  {
    if n > 0 {
      OutcomesByHeads(n - 1, heads, total, k);
      OutcomesByHeads(n - 1, heads + 1, total, k);
      RowsPascal(n, heads, total, k, n);
      ChooseOutside(n - 1, n);
    } else {
      assert Rows(0, heads, total, k, -1) == 0;
    }
  }

  /** Up to `k` every row counts; from `n - k` on every row counts again; between them none does. */
  lemma {:induction false} RowsAreTails(n: nat, k: nat, m: int)
    requires 2 * k < n && -1 <= m <= n
    ensures Rows(n, 0, n, k, m)
         == if m <= k then Tail(n, m) else if m < n - k then Tail(n, k) else Tail(n, k) + Tail(n, m) - Tail(n, n - k - 1)
    decreases m + 1
  {
    if m >= 0 {
      RowsAreTails(n, k, m - 1);
    }
  }

  lemma {:induction false} RowsAllLopsided(n: nat, k: nat, m: int)
    requires n <= 2 * k && -1 <= m
    ensures Rows(n, 0, n, k, m) == Tail(n, m)
    decreases m + 1
  {
    if m >= 0 {
      RowsAllLopsided(n, k, m - 1);
    }
  }

  /**
   * The p-value is exact: it is the share of the equally likely fix-or-break sequences,
   * one for each disagreement, that are at least as lopsided as the one seen.
   */
  lemma PValueIsExact(fixes: nat, breaks: nat)
    ensures var n := fixes + breaks;
            PValue(fixes, breaks) == Outcomes(n, 0, n, Min(fixes, breaks)) as real / Pow2(n) as real
  {
    var n, k := fixes + breaks, Min(fixes, breaks);
    OutcomesByHeads(n, 0, n, k);
    TailWhole(n);
    if n == 0 {
      assert Outcomes(0, 0, 0, 0) == 1;
    } else if 2 * k < n {
      RowsAreTails(n, k, n);
      TailComplement(n, k);
      TailGrows(n, k, n - 1 - k);
      RatioAtLeastOne(2 * Tail(n, k), Pow2(n));
      assert Rows(n, 0, n, k, n) == 2 * Tail(n, k);
      assert 2 * Tail(n, k) <= Pow2(n);
      WholeRatio(2 * Tail(n, k), Pow2(n));
    } else {
      RowsAllLopsided(n, k, n);
      TailDoubled(fixes, breaks);
      RatioAtLeastOne(2 * Tail(n, k), Pow2(n));
      WholeRatio(Pow2(n), Pow2(n));
    }
  }

  lemma WholeRatio(a: nat, b: nat)
    requires b > 0 && a <= b
    ensures a as real / b as real <= 1.0
    ensures a == b ==> a as real / b as real == 1.0
  {
    UnitQuotient(a as real, b as real);
  }

  /** One pass over the records counts the disagreements. */
  method Disagreements(records: seq<Record>, pool: Pool) returns (fixes: nat, breaks: nat)
    requires Answered(records, pool)
    ensures fixes == FixCount(records, pool) && breaks == BreakCount(records, pool)
  {
    fixes, breaks := 0, 0;
    for k := 0 to |records|
      invariant fixes == FixCount(records[..k], pool) && breaks == BreakCount(records[..k], pool)
    {
      var r := records[k];
      var alone, ens := Right(r.pred, r), Right(pool(r), r);
      CountStep(records, k, pool);
      if alone && !ens {
        breaks := breaks + 1;
      } else if !alone && ens {
        fixes := fixes + 1;
      }
    }
    assert records[..|records|] == records;
  }

  /** The two-sided p-value of the counts, from one tail of the binomials. */
  method TwoSidedP(fixes: nat, breaks: nat) returns (p: real)
    ensures p == PValue(fixes, breaks)
  {
    var n := fixes + breaks;
    if n == 0 {
      return 1.0;
    }
    var k, sum := Min(fixes, breaks), 0;
    for i := 0 to k + 1
      invariant sum == Tail(n, i - 1)
    {
      sum := sum + Choose(n, i);
    }
    p := (2 * sum) as real / Pow2(n) as real;
    return if p <= 1.0 then p else 1.0;
  }

  /** Counts the disagreements and returns their exact two-sided p-value. */
  method McNemarP(records: seq<Record>, pool: Pool) returns (fixes: nat, breaks: nat, p: real)
    requires Answered(records, pool)
    ensures fixes == FixCount(records, pool) && breaks == BreakCount(records, pool)
    ensures fixes - breaks == Correct(records, pool) - Correct(records, Alone())
    ensures p == PValue(fixes, breaks) && 0.0 < p <= 1.0 && (p == 1.0 <==> -1 <= fixes - breaks <= 1)
  {
    fixes, breaks := Disagreements(records, pool);
    p := TwoSidedP(fixes, breaks);
    FixesLessBreaks(records, pool);
    PValueShape(fixes, breaks);
  }
}
