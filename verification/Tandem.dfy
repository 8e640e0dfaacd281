/** Pooling two models' answers: argmax and its tie-break, the linear pool and the Brier score. */
module Tandem {
  import opened Quotients
  import opened Results
  import opened Sorting
  import opened Text

  /** A probability for each label named; a label not named has none. */
  type Dist = map<string, real>

  function Mass(d: Dist): string -> real {
    k => if k in d then d[k] else 0.0
  }

  // ----- sums over label sets -----

  predicate IsFirst(k: string, keys: set<string>) {
    k in keys && forall j | j in keys :: StrLe(k, j)
  }

  lemma FirstExists(keys: set<string>)
    requires keys != {}
    ensures exists k :: IsFirst(k, keys)
  {
    StrLeOrder();
    LeastExists(keys, StrLe);
    var k :| IsLeast(k, keys, StrLe);
    assert IsFirst(k, keys);
  }

  lemma FirstUnique(j: string, k: string, keys: set<string>)
    requires IsFirst(j, keys) && IsFirst(k, keys)
    ensures j == k
  {
    StrLeAntisymmetric(j, k);
  }

  function First(keys: set<string>): (k: string)
    requires keys != {}
    ensures IsFirst(k, keys)
  {
    assert exists k :: k in keys && IsFirst(k, keys) by { FirstExists(keys); }
    assert forall j, k | IsFirst(j, keys) && IsFirst(k, keys) :: j == k by {
      forall j, k | IsFirst(j, keys) && IsFirst(k, keys)
        ensures j == k
      {
        FirstUnique(j, k, keys);
      }
    }
    var first :| first in keys && IsFirst(first, keys);
    first
  }

  function SumOver(keys: set<string>, f: string -> real): real {
    if keys == {} then 0.0
    else
      var first := First(keys);
      f(first) + SumOver(keys - {first}, f)
  }

  /** The order of summation does not matter: any key may be taken out first. */
  lemma {:induction false} SumTakes(keys: set<string>, f: string -> real, k: string)
    requires k in keys
    ensures SumOver(keys, f) == f(k) + SumOver(keys - {k}, f)
  {
    var first := First(keys);
    if first != k {
      SumTakes(keys - {first}, f, k);
      SumTakes(keys - {k}, f, first);
      assert keys - {first} - {k} == keys - {k} - {first};
    }
  }

  lemma {:induction false} SumWidens(keys: set<string>, wider: set<string>, f: string -> real)
    requires keys <= wider && forall k :: k in wider && k !in keys ==> f(k) == 0.0
    ensures SumOver(wider, f) == SumOver(keys, f)
    decreases |wider - keys|
  {
    if k :| k in wider && k !in keys {
      SumTakes(wider, f, k);
      assert wider - {k} - keys == wider - keys - {k};
      SumWidens(keys, wider - {k}, f);
    } else {
      assert keys == wider;
    }
  }

  lemma {:induction false} SumDivides(keys: set<string>, f: string -> real, r: string -> real, s: real)
    requires s != 0.0 && forall k :: k in keys ==> r(k) == f(k) / s
    ensures SumOver(keys, r) == SumOver(keys, f) / s
  {
    if keys != {} {
      var k := First(keys);
      SumDivides(keys - {k}, f, r, s);
      SumQuotient(f(k), SumOver(keys - {k}, f), s);
    }
  }

  lemma {:induction false} SumAverages(keys: set<string>, f: string -> real, g: string -> real, r: string -> real)
    requires forall k :: k in keys ==> r(k) == 0.5 * f(k) + 0.5 * g(k)
    ensures SumOver(keys, r) == 0.5 * SumOver(keys, f) + 0.5 * SumOver(keys, g)
  {
    if keys != {} {
      SumAverages(keys - {First(keys)}, f, g, r);
    }
  }

  lemma {:induction false} SumAtLeast(keys: set<string>, f: string -> real, k: string)
    requires k in keys && forall j :: j in keys ==> f(j) >= 0.0
    ensures SumOver(keys, f) >= f(k)
  {
    SumTakes(keys, f, k);
    if j :| j in keys - {k} {
      SumAtLeast(keys - {k}, f, j);
    }
  }

  // ----- argmax -----

  /** No label has more mass, and none with the same mass comes later in the alphabet. */
  predicate IsArgmax(d: Dist, k: string) {
    && k in d
    && forall j | j in d :: Beaten(d, j, k)
  }

  lemma ArgmaxUnique(d: Dist, j: string, k: string)
    requires IsArgmax(d, j) && IsArgmax(d, k)
    ensures j == k
  {
    if j != k {
      StrLeAntisymmetric(j, k);
    }
  }

  predicate Beaten(d: Dist, j: string, k: string)
    requires j in d && k in d
  {
    d[j] < d[k] || (d[j] == d[k] && StrLe(j, k))
  }

  lemma BeatenTransitive(d: Dist, i: string, j: string, k: string)
    requires i in d && j in d && k in d && Beaten(d, i, j) && Beaten(d, j, k)
    ensures Beaten(d, i, k)
  {
    if d[i] == d[k] {
      StrLeTransitive(i, j, k);
    }
  }

  /** `max` over labels taken one after the other, keyed by mass and then by label. */
  function Best(d: Dist, labels: seq<string>): (k: string)
    requires labels != [] && forall x :: x in labels ==> x in d
    ensures k in labels && forall j :: j in labels ==> Beaten(d, j, k)
  {
    var n := |labels| - 1;
    if n == 0 then
      StrLeTotal(labels[0], labels[0]);
      labels[0]
    else
      var best := Best(d, labels[..n]);
      StrLeTotal(best, labels[n]);
      StrLeTotal(labels[n], labels[n]);
      if Beaten(d, best, labels[n]) then
        NextBest(d, labels[..n], best, labels[n]);
        labels[n]
      else best
  }

  lemma NextBest(d: Dist, before: seq<string>, best: string, next: string)
    requires (forall x :: x in before ==> x in d) && best in d && next in d
    requires (forall j :: j in before ==> Beaten(d, j, best)) && Beaten(d, best, next)
    ensures forall j :: j in before ==> Beaten(d, j, next)
  {
    forall j | j in before
      ensures Beaten(d, j, next)
    {
      BeatenTransitive(d, j, best, next);
    }
  }

  function Argmax(d: Dist): (k: string)
    requires d != map[]
    ensures IsArgmax(d, k)
  {
    StrLeOrder();
    assert d.Keys != {};
    Best(d, SortedSet(d.Keys, StrLe))
  }

  /** The order in which the labels are visited makes no difference. */
  lemma AnyOrderSameBest(d: Dist, labels: seq<string>)
    requires d != map[] && labels != [] && forall x :: x in labels <==> x in d
    ensures Best(d, labels) == Argmax(d)
  {
    ArgmaxUnique(d, Best(d, labels), Argmax(d));
  }

  // ----- pooling -----

  function SumOf(d: Dist): real { SumOver(d.Keys, Mass(d)) }

  /** Every value divided by the sum; no answer when the sum is zero. */
  function Normalise(d: Dist): (r: Option<Dist>)
    ensures r.None? <==> SumOf(d) == 0.0
    ensures r.Some? ==> r.value.Keys == d.Keys
  {
    var s := SumOf(d);
    if s == 0.0 then None else Some(map k | k in d :: d[k] / s)
  }

  /** A normalised distribution sums to one. */
  lemma NormaliseSumsToOne(d: Dist)
    requires SumOf(d) != 0.0
    ensures SumOf(Normalise(d).value) == 1.0
  {
    var r, s := Normalise(d).value, SumOf(d);
    SumDivides(d.Keys, Mass(d), Mass(r), s);
    assert r.Keys == d.Keys;
    Divided(s, s);
    assert s / s == 1.0;
  }

  function Halves(a: Dist, b: Dist): Dist {
    map k | k in a.Keys + b.Keys :: 0.5 * Mass(a)(k) + 0.5 * Mass(b)(k)
  }

  function Linear(a: Dist, b: Dist): Option<Dist> {
    Normalise(Halves(a, b))
  }

  lemma HalvesSum(a: Dist, b: Dist)
    ensures SumOf(Halves(a, b)) == 0.5 * SumOf(a) + 0.5 * SumOf(b)
  {
    var keys, h := a.Keys + b.Keys, Halves(a, b);
    assert h.Keys == keys;
    SumAverages(keys, Mass(a), Mass(b), Mass(h));
    SumWidens(a.Keys, keys, Mass(a));
    SumWidens(b.Keys, keys, Mass(b));
  }

  /** Of two distributions the pool is the plain average of their masses. */
  lemma LinearIsAverage(a: Dist, b: Dist)
    requires SumOf(a) == SumOf(b) == 1.0
    ensures Linear(a, b).Some?
    ensures forall k :: Mass(Linear(a, b).value)(k) == 0.5 * Mass(a)(k) + 0.5 * Mass(b)(k)
  {
    HalvesSum(a, b);
    var h := Halves(a, b);
    var pool := Linear(a, b).value;
    forall k: string
      ensures Mass(pool)(k) == 0.5 * Mass(a)(k) + 0.5 * Mass(b)(k)
    {
      if k in h {
        assert pool[k] == h[k] / 1.0 == h[k];
      } else {
        assert k !in pool && k !in a && k !in b;
      }
    }
  }

  function SquareAt(gold: Dist, pred: Dist): string -> real {
    k => (Mass(pred)(k) - Mass(gold)(k)) * (Mass(pred)(k) - Mass(gold)(k))
  }

  function Brier(gold: Dist, pred: Dist): real {
    SumOver(gold.Keys + pred.Keys, SquareAt(gold, pred))
  }

  lemma BrierWidens(gold: Dist, pred: Dist, wider: set<string>)
    requires gold.Keys + pred.Keys <= wider
    ensures Brier(gold, pred) == SumOver(wider, SquareAt(gold, pred))
  {
    forall k | k in wider && k !in gold.Keys + pred.Keys
      ensures SquareAt(gold, pred)(k) == 0.0
    {
      assert Mass(pred)(k) == Mass(gold)(k) == 0.0;
    }
    SumWidens(gold.Keys + pred.Keys, wider, SquareAt(gold, pred));
  }

  /** The pool scores the mean of its members' scores less a quarter of their squared distance. */
  lemma BrierOfPool(gold: Dist, a: Dist, b: Dist)
    requires SumOf(a) == SumOf(b) == 1.0
    ensures Linear(a, b).Some?
    ensures Brier(gold, Linear(a, b).value) == 0.5 * Brier(gold, a) + 0.5 * Brier(gold, b) - 0.25 * Brier(a, b)
  {
    LinearIsAverage(a, b);
    var pool, keys := Linear(a, b).value, gold.Keys + a.Keys + b.Keys;
    SquaresCombine(gold, a, b, pool, keys);
    BrierWidens(gold, a, keys);
    BrierWidens(gold, b, keys);
    BrierWidens(a, b, keys);
    BrierWidens(gold, pool, keys);
  }

  lemma SquareCombinesAt(gold: Dist, a: Dist, b: Dist, pool: Dist, k: string)
    requires Mass(pool)(k) == 0.5 * Mass(a)(k) + 0.5 * Mass(b)(k)
    ensures SquareAt(gold, pool)(k)
         == 0.5 * SquareAt(gold, a)(k) + 0.5 * SquareAt(gold, b)(k) - 0.25 * SquareAt(a, b)(k)
  {
  }

  lemma SquaresCombine(gold: Dist, a: Dist, b: Dist, pool: Dist, keys: set<string>)
    requires forall k :: Mass(pool)(k) == 0.5 * Mass(a)(k) + 0.5 * Mass(b)(k)
    ensures SumOver(keys, SquareAt(gold, pool))
         == 0.5 * SumOver(keys, SquareAt(gold, a)) + 0.5 * SumOver(keys, SquareAt(gold, b))
            - 0.25 * SumOver(keys, SquareAt(a, b))
  {
    forall k | k in keys
      ensures SquareAt(gold, pool)(k)
           == 0.5 * SquareAt(gold, a)(k) + 0.5 * SquareAt(gold, b)(k) - 0.25 * SquareAt(a, b)(k)
    {
      SquareCombinesAt(gold, a, b, pool, k);
    }
  }

  ghost predicate NonNegative(d: Dist) {
    forall k :: k in d ==> d[k] >= 0.0
  }

  /** When both members put most mass on the same label, so does the pool, tie-break included. */
  lemma PoolKeepsAgreement(a: Dist, b: Dist, k: string)
    requires NonNegative(a) && NonNegative(b)
    requires IsArgmax(a, k) && IsArgmax(b, k) && a[k] > 0.0 && b[k] > 0.0
    ensures Linear(a, b).Some? && Linear(a, b).value != map[]
    ensures Argmax(Linear(a, b).value) == k
  {
    var h, s := Halves(a, b), SumOf(Halves(a, b));
    SumAtLeast(h.Keys, Mass(h), k);
    assert s >= h[k] > 0.0;
    var pool := Linear(a, b).value;
    assert k in pool;
    forall j | j in pool
      ensures Beaten(pool, j, k)
    {
      assert j in a ==> Beaten(a, j, k);
      assert j in b ==> Beaten(b, j, k);
      assert Mass(a)(j) <= a[k] && Mass(b)(j) <= b[k];
      assert h[j] <= h[k] && (h[j] == h[k] ==> j in a && StrLe(j, k));
      QuotientOrder(h[j], h[k], s);
    }
    ArgmaxUnique(pool, Argmax(pool), k);
  }
}
