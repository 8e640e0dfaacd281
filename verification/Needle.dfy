/** Planting facts in a haystack: where they go, and how they come out again. */
module Needle {

  // ----- the end of a sentence -----

  predicate SentenceEnds(s: string, p: nat) {
    p + 2 <= |s| && s[p] == '.' && s[p + 1] == ' '
  }

  /** `s.find(". ", start)`: the first sentence end at `start` or later, -1 when there is none. */
  function Find(s: string, start: nat): (p: int)
    ensures p < 0 ==> forall q: nat :: start <= q ==> !SentenceEnds(s, q)
    ensures p >= 0 ==> start <= p && SentenceEnds(s, p) && forall q: nat :: start <= q < p ==> !SentenceEnds(s, q)
    decreases |s| - start
  {
    if start >= |s| then -1 else if SentenceEnds(s, start) then start else Find(s, start + 1)
  }

  /** Just after the first sentence end at `start` or later; the end of the text when there is none. */
  function CutAfter(s: string, start: nat): (cut: nat)
    ensures cut <= |s|
    ensures cut == |s| || (cut >= 2 && SentenceEnds(s, cut - 2))
  {
    if Find(s, start) < 0 then |s| else Find(s, start) + 2
  }

  // ----- depths -----

  function Clamp(x: real): (r: real)
    ensures 0.0 <= r <= 1.0
  {
    if x < 0.0 then 0.0 else if x > 1.0 then 1.0 else x
  }

  /** The facts fan out by eight percent in all, evenly and symmetrically around the depth. */
  function Spread(count: nat): (s: real)
    ensures s >= 0.0
  {
    if count > 1 then 8.0 / (count - 1) as real else 0.0
  }

  function Half(count: nat): real { (count as real - 1.0) / 2.0 }

  function Fraction(depth: int, count: nat, idx: nat): (r: real)
    ensures 0.0 <= r <= 1.0
  {
    Clamp((depth as real + (idx as real - Half(count)) * Spread(count)) / 100.0)
  }

  function Start(length: nat, depth: int, count: nat, idx: nat): (start: nat)
    ensures start <= length
  {
    var r := Fraction(depth, count, idx);
    var at := length as real * r;
    PartOf(length as real, r, at);
    FloorWithin(at, length);
    at.Floor
  }

  lemma PartOf(x: real, r: real, at: real)
    requires x >= 0.0 && 0.0 <= r <= 1.0 && at == x * r
    ensures 0.0 <= at <= x
  {
    assert x * (1.0 - r) >= 0.0;
  }

  lemma FloorWithin(x: real, n: nat)
    requires 0.0 <= x <= n as real
    ensures 0 <= x.Floor <= n
  {
  }

  lemma Scales(x: real, a: real, b: real)
    requires x >= 0.0 && 0.0 <= a <= b
    ensures 0.0 <= x * a <= x * b
  {
    assert x * (b - a) >= 0.0;
  }

  lemma StartsKeepOrder(length: nat, depth: int, count: nat, idx: nat)
    ensures Start(length, depth, count, idx) <= Start(length, depth, count, idx + 1)
  {
    var s, x := Spread(count), idx as real - Half(count);
    assert (x + 1.0) * s == x * s + s;
    assert (idx + 1) as real - Half(count) == x + 1.0;
    assert Fraction(depth, count, idx) <= Fraction(depth, count, idx + 1);
    Scales(length as real, Fraction(depth, count, idx), Fraction(depth, count, idx + 1));
  }

  function Cut(haystack: string, depth: int, count: nat, idx: nat): (cut: nat)
    ensures cut <= |haystack|
  {
    CutAfter(haystack, Start(|haystack|, depth, count, idx))
  }

  /** Cut points never go backwards. */
  lemma {:induction false} CutsNeverGoBack(haystack: string, depth: int, count: nat, i: nat, j: nat)
    requires i <= j
    ensures Cut(haystack, depth, count, i) <= Cut(haystack, depth, count, j)
    decreases j - i
  {
    if i < j {
      CutsNeverGoBack(haystack, depth, count, i, j - 1);
      StartsKeepOrder(|haystack|, depth, count, j - 1);
    }
  }

  // ----- parts -----

  function Join(parts: seq<string>): string {
    if parts == [] then "" else Join(parts[..|parts| - 1]) + parts[|parts| - 1]
  }

  function Lengths(parts: seq<string>): nat {
    if parts == [] then 0 else Lengths(parts[..|parts| - 1]) + |parts[|parts| - 1]|
  }

  // ----- taking the facts out again -----

  ghost predicate FactAt(text: string, pos: nat, fact: string) {
    && pos + |fact| < |text| && text[pos + |fact|] == ' '
    && forall q :: 0 <= q < |fact| ==> text[pos + q] == fact[q]
  }

  /** Facts at increasing positions, each ending before the next begins. */
  ghost predicate Planted(text: string, positions: seq<nat>, facts: seq<string>) {
    && |positions| == |facts|
    && (forall i :: 0 <= i < |facts| ==> FactAt(text, positions[i], facts[i]))
    && (forall i, j :: 0 <= i < j < |facts| ==> positions[i] + |facts[i]| + 1 <= positions[j])
  }

  /** The text without the facts (and the blank after each), last one first. */
  ghost function Unplant(text: string, positions: seq<nat>, facts: seq<string>): string
    requires Planted(text, positions, facts)
  {
    if facts == [] then text
    else
      var n := |facts| - 1;
      PlantedBefore(text, positions, facts);
      Unplant(text[..positions[n]], positions[..n], facts[..n]) + text[positions[n] + |facts[n]| + 1..]
  }

  lemma PlantedBefore(text: string, positions: seq<nat>, facts: seq<string>)
    requires Planted(text, positions, facts) && facts != []
    ensures var n := |facts| - 1; Planted(text[..positions[n]], positions[..n], facts[..n])
  {
    var n := |facts| - 1;
    forall i | 0 <= i < n
      ensures FactAt(text[..positions[n]], positions[i], facts[i])
    {
      assert FactAt(text, positions[i], facts[i]);
    }
  }

  lemma StillPlanted(text: string, positions: seq<nat>, facts: seq<string>, more: string)
    requires Planted(text, positions, facts)
    ensures Planted(text + more, positions, facts)
  {
    forall i | 0 <= i < |facts|
      ensures FactAt(text + more, positions[i], facts[i])
    {
      assert FactAt(text, positions[i], facts[i]);
    }
  }

  lemma PlantedGrows(text: string, positions: seq<nat>, facts: seq<string>, more: string)
    requires Planted(text, positions, facts)
    ensures Planted(text + more, positions, facts)
    ensures Unplant(text + more, positions, facts) == Unplant(text, positions, facts) + more
  {
    StillPlanted(text, positions, facts, more);
    if facts != [] {
      var n := |facts| - 1;
      UnplantLonger(text, text + more, more, positions, facts, positions[n], positions[n] + |facts[n]| + 1);
    }
  }

  lemma UnplantLonger(text: string, longer: string, more: string, positions: seq<nat>, facts: seq<string>, p: nat, q: nat)
    requires Planted(text, positions, facts) && Planted(longer, positions, facts) && longer == text + more && facts != []
    requires p == positions[|facts| - 1] && q == p + |facts[|facts| - 1]| + 1
    ensures Unplant(longer, positions, facts) == Unplant(text, positions, facts) + more
  {
    UnplantLast(text, positions, facts, p, q);
    UnplantLast(longer, positions, facts, p, q);
    LongerTail(text, longer, more, p, q, Unplant(text[..p], positions[..|facts| - 1], facts[..|facts| - 1]));
  }

  lemma LongerTail(text: string, longer: string, more: string, p: nat, q: nat, front: string)
    requires longer == text + more && p <= q <= |text|
    ensures longer[..p] == text[..p] && front + longer[q..] == (front + text[q..]) + more
  {
    assert longer[q..] == text[q..] + more;
  }

  /** The last fact runs from `p` to `q`. */
  lemma UnplantLast(text: string, positions: seq<nat>, facts: seq<string>, p: nat, q: nat)
    requires Planted(text, positions, facts) && facts != []
    requires p == positions[|facts| - 1] && q == p + |facts[|facts| - 1]| + 1
    ensures p <= q <= |text| && Planted(text[..p], positions[..|facts| - 1], facts[..|facts| - 1])
    ensures Unplant(text, positions, facts) == Unplant(text[..p], positions[..|facts| - 1], facts[..|facts| - 1]) + text[q..]
  {
    assert FactAt(text, p, facts[|facts| - 1]);
    PlantedBefore(text, positions, facts);
  }

  lemma PlantedOne(text: string, positions: seq<nat>, facts: seq<string>, fact: string)
    requires Planted(text, positions, facts)
    ensures Planted(text + (fact + " "), positions + [|text|], facts + [fact])
    ensures Unplant(text + (fact + " "), positions + [|text|], facts + [fact]) == Unplant(text, positions, facts)
  {
    var longer, ps, fs := text + (fact + " "), positions + [|text|], facts + [fact];
    OneMorePlanted(text, positions, facts, fact, longer, ps, fs);
    UnplantLast(longer, ps, fs, |text|, |text| + |fact| + 1);
    assert longer[..|text|] == text && ps[..|facts|] == positions && fs[..|facts|] == facts;
    assert longer[|text| + |fact| + 1..] == "";
  }

  lemma OneMorePlanted(text: string, positions: seq<nat>, facts: seq<string>, fact: string, longer: string, ps: seq<nat>, fs: seq<string>)
    requires Planted(text, positions, facts)
    requires longer == text + (fact + " ") && ps == positions + [|text|] && fs == facts + [fact]
    ensures Planted(longer, ps, fs)
  {
    StillPlanted(text, positions, facts, fact + " ");
    forall i | 0 <= i < |fs|
      ensures FactAt(longer, ps[i], fs[i])
    {
      assert i < |facts| ==> FactAt(longer, positions[i], facts[i]);
    }
    forall i, j | 0 <= i < j < |fs|
      ensures ps[i] + |fs[i]| + 1 <= ps[j]
    {
      assert FactAt(text, positions[i], facts[i]);
    }
  }

  /** The first `idx` facts are planted in the haystack up to `last`. */
  ghost predicate SoFar(haystack: string, text: string, positions: seq<nat>, facts: seq<string>, idx: nat, last: nat) {
    && idx <= |facts| && last <= |haystack|
    && Planted(text, positions, facts[..idx])
    && Unplant(text, positions, facts[..idx]) == haystack[..last]
  }

  /** One round of the loop: the haystack up to the cut, then the fact. */
  lemma PlantNext(haystack: string, text: string, positions: seq<nat>, facts: seq<string>, idx: nat,
                  last: nat, cut: nat, longer: string, fact: string)
    requires idx < |facts| && fact == facts[idx] && last <= cut <= |haystack|
    requires SoFar(haystack, text, positions, facts, idx, last)
    requires longer == text + haystack[last..cut]
    ensures SoFar(haystack, longer + (fact + " "), positions + [|longer|], facts, idx + 1, cut)
  {
    PlantedGrows(text, positions, facts[..idx], haystack[last..cut]);
    PlantedOne(longer, positions, facts[..idx], fact);
    assert haystack[..last] + haystack[last..cut] == haystack[..cut];
    assert facts[..idx] + [facts[idx]] == facts[..idx + 1];
  }

  lemma PlantRest(haystack: string, text: string, positions: seq<nat>, facts: seq<string>, last: nat)
    requires SoFar(haystack, text, positions, facts, |facts|, last)
    ensures Planted(text + haystack[last..], positions, facts)
    ensures Unplant(text + haystack[last..], positions, facts) == haystack
  {
    assert facts[..|facts|] == facts;
    PlantedGrows(text, positions, facts, haystack[last..]);
    assert haystack[..last] + haystack[last..] == haystack;
  }

  /** How much text the first `i` facts add. */
  ghost function Added(facts: seq<string>, i: nat): nat
    requires i <= |facts|
  {
    if i == 0 then 0 else Added(facts, i - 1) + |facts[i - 1]| + 1
  }

  /** Cut points, one for each fact, that stay in the text and never go back. */
  ghost predicate Forward(cuts: seq<nat>, count: nat, length: nat) {
    && |cuts| == count
    && (forall i :: 0 <= i < count ==> cuts[i] <= length)
    && (forall i, j :: 0 <= i < j < count ==> cuts[i] <= cuts[j])
  }

  function Last(cuts: seq<nat>, k: nat): nat
    requires k <= |cuts|
  {
    if k == 0 then 0 else cuts[k - 1]
  }

  ghost function Piece(haystack: string, from: nat, to: nat): string {
    if from <= to <= |haystack| then haystack[from..to] else ""
  }

  /** The text up to and including the first `k` facts, and where those facts begin. */
  ghost function Woven(haystack: string, facts: seq<string>, cuts: seq<nat>, k: nat): string
    requires k <= |facts| == |cuts|
  {
    if k == 0 then ""
    else
      Woven(haystack, facts, cuts, k - 1) + Piece(haystack, Last(cuts, k - 1), cuts[k - 1]) + (facts[k - 1] + " ")
  }

  ghost function Spot(facts: seq<string>, cuts: seq<nat>, i: nat): nat
    requires i < |facts| == |cuts|
  {
    cuts[i] + Added(facts, i)
  }

  ghost function Spots(facts: seq<string>, cuts: seq<nat>, k: nat): seq<nat>
    requires k <= |facts| == |cuts|
  {
    seq(k, i requires 0 <= i < k => Spot(facts, cuts, i))
  }

  lemma WovenSpot(haystack: string, facts: seq<string>, cuts: seq<nat>, k: nat)
    requires Forward(cuts, |facts|, |haystack|) && k < |facts|
    ensures |Woven(haystack, facts, cuts, k) + Piece(haystack, Last(cuts, k), cuts[k])| == Spot(facts, cuts, k)
  {
    assert Last(cuts, k) <= cuts[k];
  }

  lemma SpotsStep(facts: seq<string>, cuts: seq<nat>, k: nat)
    requires k < |facts| == |cuts|
    ensures Spots(facts, cuts, k + 1) == Spots(facts, cuts, k) + [Spot(facts, cuts, k)]
  {
  }

  lemma {:induction false} WovenSoFar(haystack: string, facts: seq<string>, cuts: seq<nat>, k: nat)
    requires Forward(cuts, |facts|, |haystack|) && k <= |facts|
    ensures SoFar(haystack, Woven(haystack, facts, cuts, k), Spots(facts, cuts, k), facts, k, Last(cuts, k))
  {
    if k > 0 {
      var i := k - 1;
      WovenSoFar(haystack, facts, cuts, i);
      WovenSpot(haystack, facts, cuts, i);
      SpotsStep(facts, cuts, i);
      var text, last, cut := Woven(haystack, facts, cuts, i), Last(cuts, i), cuts[i];
      assert last <= cut;
      PlantNext(haystack, text, Spots(facts, cuts, i), facts, i, last, cut, text + Piece(haystack, last, cut), facts[i]);
    }
  }

  lemma WovenWhole(haystack: string, facts: seq<string>, cuts: seq<nat>, text: string)
    requires Forward(cuts, |facts|, |haystack|) && Last(cuts, |facts|) <= |haystack|
    requires text == Woven(haystack, facts, cuts, |facts|) + haystack[Last(cuts, |facts|)..]
    ensures Planted(text, Spots(facts, cuts, |facts|), facts)
    ensures Unplant(text, Spots(facts, cuts, |facts|), facts) == haystack
  {
    WovenSoFar(haystack, facts, cuts, |facts|);
    PlantRest(haystack, Woven(haystack, facts, cuts, |facts|), Spots(facts, cuts, |facts|), facts, Last(cuts, |facts|));
  }

  lemma NextParts(haystack: string, facts: seq<string>, cuts: seq<nat>, k: nat, parts: seq<string>)
    requires Forward(cuts, |facts|, |haystack|) && k < |facts|
    requires Join(parts) == Woven(haystack, facts, cuts, k) && Lengths(parts) == |Join(parts)|
    ensures Last(cuts, k) <= cuts[k] <= |haystack|
    ensures var piece, fact := haystack[Last(cuts, k)..cuts[k]], facts[k] + " ";
            && Lengths(parts + [piece]) == Spot(facts, cuts, k)
            && Join(parts + [piece] + [fact]) == Woven(haystack, facts, cuts, k + 1)
            && Lengths(parts + [piece] + [fact]) == |Join(parts + [piece] + [fact])|
  {
    var piece, fact := haystack[Last(cuts, k)..cuts[k]], facts[k] + " ";
    WovenSpot(haystack, facts, cuts, k);
  }

  /** The loop: the haystack up to the next cut, then the next fact, and at last the rest. */
  method Splice(haystack: string, facts: seq<string>, cuts: seq<nat>) returns (text: string, positions: seq<nat>)
    requires Forward(cuts, |facts|, |haystack|)
    ensures positions == Spots(facts, cuts, |facts|)
    ensures Planted(text, positions, facts)
    ensures Unplant(text, positions, facts) == haystack
  {
    if |facts| == 0 {
      return haystack, [];
    }
    var parts, last := SpliceParts(haystack, facts, cuts);
    positions := parts.1;
    text := Join(parts.0 + [haystack[last..]]);
    WovenWhole(haystack, facts, cuts, text);
  }

  method SpliceParts(haystack: string, facts: seq<string>, cuts: seq<nat>) returns (spliced: (seq<string>, seq<nat>), last: nat)
    requires Forward(cuts, |facts|, |haystack|)
    ensures Join(spliced.0) == Woven(haystack, facts, cuts, |facts|)
    ensures spliced.1 == Spots(facts, cuts, |facts|)
    ensures last == Last(cuts, |facts|) <= |haystack|
  {
    var parts: seq<string>, positions: seq<nat> := [], [];
    last := 0;
    for idx := 0 to |facts|
      invariant Join(parts) == Woven(haystack, facts, cuts, idx) && Lengths(parts) == |Join(parts)|
      invariant positions == Spots(facts, cuts, idx)
      invariant last == Last(cuts, idx) <= |haystack|
    {
      NextParts(haystack, facts, cuts, idx, parts);
      SpotsStep(facts, cuts, idx);
      var cut := cuts[idx];
      parts := parts + [haystack[last..cut]];
      positions := positions + [Lengths(parts)];
      parts := parts + [facts[idx] + " "];
      last := cut;
    }
    spliced := (parts, positions);
  }

  /**
   * Each fact goes in at the sentence end its depth asks for, in order. Taking the facts
   * out at the returned positions gives back the haystack.
   */
  method Plant(haystack: string, facts: seq<string>, depth: int) returns (text: string, positions: seq<nat>)
    ensures Planted(text, positions, facts)
    ensures Unplant(text, positions, facts) == haystack
    ensures forall i {:trigger positions[i]} :: 0 <= i < |facts| ==>
              positions[i] == Cut(haystack, depth, |facts|, i) + Added(facts, i)
  {
    var cuts := seq(|facts|, idx requires 0 <= idx < |facts| => Cut(haystack, depth, |facts|, idx));
    forall i, j | 0 <= i < j < |facts|
      ensures cuts[i] <= cuts[j]
    {
      CutsNeverGoBack(haystack, depth, |facts|, i, j);
    }
    text, positions := Splice(haystack, facts, cuts);
  }

  /** Each fact starts right after ". " in the haystack or at its end, at or after its depth. */
  lemma FactsFollowSentences(haystack: string, depth: int, count: nat, idx: nat)
    ensures var cut, start := Cut(haystack, depth, count, idx), Start(|haystack|, depth, count, idx);
            && start <= cut
            && (cut == |haystack| || (cut >= 2 && haystack[cut - 2..cut] == ". " && start + 2 <= cut))
            && (forall q: nat :: start <= q && q + 2 < cut ==> !SentenceEnds(haystack, q))
  {
    var cut := Cut(haystack, depth, count, idx);
    if cut != |haystack| {
      assert haystack[cut - 2..cut] == ". ";
    }
  }
}
