/** The BFCL call checker: greedy matching of parallel calls to possible answers, in any order. */
module Bfcl {

  datatype Verdict = Valid | WrongCount | CannotFindMatch(answer: nat)

  // ----- what the checker decides, on values -----

  /** The position of the first output that `answer` accepts; |outputs| when there is none. */
  function FirstFit<O, A>(outputs: seq<O>, answer: A, accepts: (O, A) -> bool): (k: nat)
    ensures k <= |outputs|
    ensures k < |outputs| ==> accepts(outputs[k], answer)
    ensures forall i :: 0 <= i < k ==> !accepts(outputs[i], answer)
  {
    if outputs == [] || accepts(outputs[0], answer) then 0
    else
      assert forall i :: 1 <= i < |outputs| ==> outputs[i] == outputs[1..][i - 1];
      1 + FirstFit(outputs[1..], answer, accepts)
  }

  lemma FirstFitIs<O, A>(s: seq<O>, p: nat, answer: A, accepts: (O, A) -> bool)
    requires p <= |s| && forall i :: 0 <= i < p ==> !accepts(s[i], answer)
    requires p < |s| ==> accepts(s[p], answer)
    ensures FirstFit(s, answer, accepts) == p
  {
  }

  function Without<T>(s: seq<T>, k: nat): seq<T>
    requires k < |s|
  {
    s[..k] + s[k + 1..]
  }

  lemma WithoutRemovesOne<T>(s: seq<T>, k: nat)
    requires k < |s|
    ensures multiset(Without(s, k)) == multiset(s) - multiset{s[k]}
  {
    assert s == s[..k] + [s[k]] + s[k + 1..];
  }

  /** How many answers, taken in order, find an output of their own when each takes the first that fits. */
  function Greedy<O, A>(outputs: seq<O>, answers: seq<A>, accepts: (O, A) -> bool): (n: nat)
    ensures n <= |answers|
    decreases |answers|
  {
    if answers == [] then 0
    else
      var k := FirstFit(outputs, answers[0], accepts);
      if k == |outputs| then 0 else 1 + Greedy(Without(outputs, k), answers[1..], accepts)
  }

  /** The outputs, lined up against the answers: a bijection with every pair accepted. */
  ghost predicate LinesUp<O, A>(lined: seq<O>, outputs: multiset<O>, answers: seq<A>, accepts: (O, A) -> bool) {
    && multiset(lined) == outputs
    && |lined| == |answers|
    && forall i :: 0 <= i < |answers| ==> accepts(lined[i], answers[i])
  }

  ghost predicate Matchable<O(!new), A>(outputs: multiset<O>, answers: seq<A>, accepts: (O, A) -> bool) {
    exists lined :: LinesUp(lined, outputs, answers, accepts)
  }

  ghost predicate Accepted<O, A>(outputs: seq<O>, answers: seq<A>, accepts: (O, A) -> bool) {
    |outputs| == |answers| == Greedy(outputs, answers, accepts)
  }

  /** What an earlier answer accepts is disjoint from, or contained in, what a later one accepts. */
  ghost predicate NestedPair<O, A>(pool: multiset<O>, earlier: A, later: A, accepts: (O, A) -> bool) {
    || (forall o :: o in pool ==> !(accepts(o, earlier) && accepts(o, later)))
    || (forall o :: o in pool && accepts(o, earlier) ==> accepts(o, later))
  }

  ghost predicate Nested<O, A>(pool: multiset<O>, answers: seq<A>, accepts: (O, A) -> bool) {
    forall i, j :: 0 <= i < j < |answers| ==> NestedPair(pool, answers[i], answers[j], accepts)
  }

  // ----- soundness -----

  /** An accepted list of outputs has a bijection to the answers with every pair accepted. */
  lemma {:induction false} AcceptedIsMatchable<O(!new), A>(outputs: seq<O>, answers: seq<A>, accepts: (O, A) -> bool)
    requires Accepted(outputs, answers, accepts)
    ensures Matchable(multiset(outputs), answers, accepts)
    decreases |answers|
  {
    if answers == [] {
      assert LinesUp([], multiset(outputs), answers, accepts);
    } else {
      var k := FirstFit(outputs, answers[0], accepts);
      var rest := Without(outputs, k);
      WithoutRemovesOne(outputs, k);
      AcceptedIsMatchable(rest, answers[1..], accepts);
      var lined :| LinesUp(lined, multiset(rest), answers[1..], accepts);
      LineUpFirst(outputs[k], lined, multiset(rest), answers, accepts);
      assert multiset(outputs) == multiset(rest) + multiset{outputs[k]};
      assert LinesUp([outputs[k]] + lined, multiset(outputs), answers, accepts);
    }
  }

  lemma LineUpFirst<O, A>(o: O, lined: seq<O>, pool: multiset<O>, answers: seq<A>, accepts: (O, A) -> bool)
    requires answers != [] && accepts(o, answers[0]) && LinesUp(lined, pool, answers[1..], accepts)
    ensures LinesUp([o] + lined, pool + multiset{o}, answers, accepts)
  {
    var all := [o] + lined;
    forall i | 0 <= i < |answers|
      ensures accepts(all[i], answers[i])
    {
      assert i > 0 ==> all[i] == lined[i - 1] && answers[i] == answers[1..][i - 1];
    }
  }

  // ----- completeness, by exchange -----

  lemma SwapLeaves<O>(lined: seq<O>, j: nat)
    requires 0 < j < |lined|
    ensures multiset(lined[1..][j - 1 := lined[0]]) == multiset(lined) - multiset{lined[j]}
  {
    assert lined == [lined[0]] + lined[1..];
    assert multiset(lined) == multiset{lined[0]} + multiset(lined[1..]);
  }

  lemma SwapAccepted<O, A>(lined: seq<O>, j: nat, answers: seq<A>, accepts: (O, A) -> bool)
    requires 0 < j < |lined| == |answers| && forall i :: 0 <= i < |answers| ==> accepts(lined[i], answers[i])
    requires accepts(lined[0], answers[j])
    ensures var left := lined[1..][j - 1 := lined[0]];
            forall i :: 0 <= i < |answers| - 1 ==> accepts(left[i], answers[1..][i])
  {
    var left := lined[1..][j - 1 := lined[0]];
    forall i | 0 <= i < |answers| - 1
      ensures accepts(left[i], answers[1..][i])
    {
      assert answers[1..][i] == answers[i + 1];
      assert left[i] == if i == j - 1 then lined[0] else lined[i + 1];
    }
  }

  /**
   * The first answer may take any output it accepts: whoever held that output
   * can hold the one the first answer gives up.
   */
  lemma Exchange<O(!new), A>(lined: seq<O>, j: nat, answers: seq<A>, accepts: (O, A) -> bool)
    requires j < |lined| == |answers| && forall i :: 0 <= i < |answers| ==> accepts(lined[i], answers[i])
    requires accepts(lined[j], answers[0])
    requires 0 < j ==> NestedPair(multiset(lined), answers[0], answers[j], accepts)
    ensures Matchable(multiset(lined) - multiset{lined[j]}, answers[1..], accepts)
  {
    var pool, others := multiset(lined) - multiset{lined[j]}, answers[1..];
    if j == 0 {
      assert lined == [lined[0]] + lined[1..];
      assert LinesUp(lined[1..], pool, others, accepts);
    } else {
      ExchangeLater(lined, j, answers, accepts, pool, others, lined[1..][j - 1 := lined[0]]);
    }
  }

  lemma ExchangeLater<O(!new), A>(lined: seq<O>, j: nat, answers: seq<A>, accepts: (O, A) -> bool,
                                  pool: multiset<O>, others: seq<A>, swapped: seq<O>)
    requires 0 < j < |lined| == |answers| && forall i :: 0 <= i < |answers| ==> accepts(lined[i], answers[i])
    requires accepts(lined[j], answers[0]) && NestedPair(multiset(lined), answers[0], answers[j], accepts)
    requires pool == multiset(lined) - multiset{lined[j]} && others == answers[1..] && swapped == lined[1..][j - 1 := lined[0]]
    ensures LinesUp(swapped, pool, others, accepts)
  {
    assert accepts(lined[0], answers[j]) by {
      assert lined[0] in multiset(lined) && lined[j] in multiset(lined);
    }
    SwapLeaves(lined, j);
    SwapAccepted(lined, j, answers, accepts);
  }

  lemma NestedShrinks<O, A>(pool: multiset<O>, smaller: multiset<O>, answers: seq<A>, accepts: (O, A) -> bool)
    requires answers != [] && Nested(pool, answers, accepts) && smaller <= pool
    ensures Nested(smaller, answers[1..], accepts)
  {
    forall i, j | 0 <= i < j < |answers| - 1
      ensures NestedPair(smaller, answers[1..][i], answers[1..][j], accepts)
    {
      assert NestedPair(pool, answers[i + 1], answers[j + 1], accepts);
    }
  }

  lemma {:induction false} MatchableIsAccepted<O(!new), A>(outputs: seq<O>, answers: seq<A>, accepts: (O, A) -> bool)
    requires Nested(multiset(outputs), answers, accepts)
    requires Matchable(multiset(outputs), answers, accepts)
    ensures Accepted(outputs, answers, accepts)
    decreases |answers|
  {
    var lined :| LinesUp(lined, multiset(outputs), answers, accepts);
    assert |outputs| == |multiset(outputs)| == |lined|;
    if answers != [] {
      var k := FirstFit(outputs, answers[0], accepts);
      assert lined[0] in multiset(lined);
      assert k < |outputs| by {
        var i :| 0 <= i < |outputs| && outputs[i] == lined[0];
        assert accepts(outputs[i], answers[0]);
      }
      assert outputs[k] in multiset(lined);
      var j :| 0 <= j < |lined| && lined[j] == outputs[k];
      Exchange(lined, j, answers, accepts);
      WithoutRemovesOne(outputs, k);
      NestedShrinks(multiset(outputs), multiset(Without(outputs, k)), answers, accepts);
      MatchableIsAccepted(Without(outputs, k), answers[1..], accepts);
    }
  }

  /** With nested answers the greedy verdict is exact: it accepts precisely when a bijection exists. */
  lemma NestedIsExact<O(!new), A>(outputs: seq<O>, answers: seq<A>, accepts: (O, A) -> bool)
    requires Nested(multiset(outputs), answers, accepts)
    ensures Accepted(outputs, answers, accepts) <==> Matchable(multiset(outputs), answers, accepts)
  {
    if Accepted(outputs, answers, accepts) {
      AcceptedIsMatchable(outputs, answers, accepts);
    }
    if Matchable(multiset(outputs), answers, accepts) {
      MatchableIsAccepted(outputs, answers, accepts);
    }
  }

  /** With nested answers the verdict does not depend on the order of the outputs. */
  lemma NestedIgnoresOrder<O(!new), A>(outputs: seq<O>, reordered: seq<O>, answers: seq<A>, accepts: (O, A) -> bool)
    requires multiset(outputs) == multiset(reordered)
    requires Nested(multiset(outputs), answers, accepts)
    ensures Accepted(outputs, answers, accepts) <==> Accepted(reordered, answers, accepts)
  {
    NestedIsExact(outputs, answers, accepts);
    NestedIsExact(reordered, answers, accepts);
  }

  // ----- where order matters -----

  lemma GreedyOne<O, A>(outputs: seq<O>, o: O, y: A, accepts: (O, A) -> bool)
    requires outputs == [o]
    ensures Greedy(outputs, [y], accepts) == if accepts(o, y) then 1 else 0
  {
    var rest: seq<O> := [];
    assert [y][1..] == [];
  }

  lemma AcceptedPair<O, A>(o1: O, o2: O, x: A, y: A, accepts: (O, A) -> bool)
    ensures Accepted([o1, o2], [x, y], accepts)
      <==> if accepts(o1, x) then accepts(o2, y) else accepts(o2, x) && accepts(o1, y)
  {
    var outputs, answers := [o1, o2], [x, y];
    assert answers[1..] == [y];
    if accepts(o1, x) {
      FirstFitIs(outputs, 0, x, accepts);
      GreedyOne(Without(outputs, 0), o2, y, accepts);
    } else if accepts(o2, x) {
      FirstFitIs(outputs, 1, x, accepts);
      GreedyOne(Without(outputs, 1), o1, y, accepts);
    }
  }

  /** Outputs that may occur: the claims below hold for any choice of them. */
  ghost predicate Drawn<O>(outputs: seq<O>, from: O -> bool) {
    forall i :: 0 <= i < |outputs| ==> from(outputs[i])
  }

  /** The verdict on outputs drawn from `from` never depends on their order. */
  ghost predicate OrderIgnored<O(!new), A>(from: O -> bool, answers: seq<A>, accepts: (O, A) -> bool) {
    forall outputs, reordered :: Drawn(outputs, from) && multiset(outputs) == multiset(reordered) ==>
      (Accepted(outputs, answers, accepts) <==> Accepted(reordered, answers, accepts))
  }

  /** The verdict on outputs drawn from `from` is always right: accepted precisely when a bijection exists. */
  ghost predicate AlwaysExact<O(!new), A>(from: O -> bool, answers: seq<A>, accepts: (O, A) -> bool) {
    forall outputs :: Drawn(outputs, from) ==>
      (Accepted(outputs, answers, accepts) <==> Matchable(multiset(outputs), answers, accepts))
  }

  ghost predicate NestedIn<O(!new), A>(from: O -> bool, earlier: A, later: A, accepts: (O, A) -> bool) {
    || (forall o :: from(o) ==> !(accepts(o, earlier) && accepts(o, later)))
    || (forall o :: from(o) && accepts(o, earlier) ==> accepts(o, later))
  }

  ghost predicate AllNested<O(!new), A>(from: O -> bool, answers: seq<A>, accepts: (O, A) -> bool) {
    forall i, j :: 0 <= i < j < |answers| ==> NestedIn(from, answers[i], answers[j], accepts)
  }

  ghost predicate Hopeless<O(!new), A>(from: O -> bool, answer: A, accepts: (O, A) -> bool) {
    forall o :: from(o) ==> !accepts(o, answer)
  }

  /** Some answer accepts none of the outputs, so that every list is rejected. */
  ghost predicate SomeHopeless<O(!new), A>(from: O -> bool, answers: seq<A>, accepts: (O, A) -> bool) {
    exists i :: 0 <= i < |answers| && Hopeless(from, answers[i], accepts)
  }

  /** Answers whose own outputs stand at their places in front take exactly those. */
  lemma {:induction false} GreedyPrefix<O, A>(front: seq<O>, back: seq<O>, answers: seq<A>, later: seq<A>, accepts: (O, A) -> bool)
    requires |front| == |answers| && forall i :: 0 <= i < |front| ==> accepts(front[i], answers[i])
    ensures Greedy(front + back, answers + later, accepts) == |front| + Greedy(back, later, accepts)
    decreases |front|
  {
    if front == [] {
      assert front + back == back && answers + later == later;
    } else {
      FirstFitIs(front + back, 0, answers[0], accepts);
      assert Without(front + back, 0) == front[1..] + back && (answers + later)[1..] == answers[1..] + later;
      GreedyPrefix(front[1..], back, answers[1..], later, accepts);
    }
  }

  /** How many outputs of the list `y` rejects. */
  function Rejected<O, A>(s: seq<O>, y: A, accepts: (O, A) -> bool): nat {
    if s == [] then 0 else (if accepts(s[0], y) then 0 else 1) + Rejected(s[1..], y, accepts)
  }

  lemma {:induction false} RejectedWithout<O, A>(s: seq<O>, k: nat, y: A, accepts: (O, A) -> bool)
    requires k < |s|
    ensures Rejected(s, y, accepts) == Rejected(Without(s, k), y, accepts) + if accepts(s[k], y) then 0 else 1
  {
    if k > 0 {
      RejectedWithout(s[1..], k - 1, y, accepts);
      assert Without(s, k)[1..] == Without(s[1..], k - 1);
    } else {
      assert Without(s, 0) == s[1..];
    }
  }

  lemma {:induction false} RejectedIgnoresOrder<O, A>(s: seq<O>, t: seq<O>, y: A, accepts: (O, A) -> bool)
    requires multiset(s) == multiset(t)
    ensures Rejected(s, y, accepts) == Rejected(t, y, accepts)
    decreases |s|
  {
    assert |s| == |multiset(s)| == |t|;
    if s != [] {
      assert s[0] in multiset(t);
      var k :| 0 <= k < |t| && t[k] == s[0];
      WithoutRemovesOne(s, 0);
      WithoutRemovesOne(t, k);
      assert Without(s, 0) == s[1..];
      RejectedIgnoresOrder(s[1..], Without(t, k), y, accepts);
      RejectedWithout(t, k, y, accepts);
    }
  }

  lemma {:induction false} RejectedPointwise<O, A>(s: seq<O>, t: seq<O>, y: A, accepts: (O, A) -> bool)
    requires |s| == |t| && forall k :: 0 <= k < |s| && !accepts(s[k], y) ==> !accepts(t[k], y)
    ensures Rejected(s, y, accepts) <= Rejected(t, y, accepts)
    decreases |s|
  {
    if s != [] {
      RejectedPointwise(s[1..], t[1..], y, accepts);
    }
  }

  /** `o` is an output for `answer`, and one that `y` rejects if `answer` has any such. */
  ghost predicate Spares<O(!new), A>(from: O -> bool, o: O, answer: A, y: A, accepts: (O, A) -> bool) {
    && from(o) && accepts(o, answer)
    && (accepts(o, y) ==> forall x :: from(x) && accepts(x, answer) ==> accepts(x, y))
  }

  ghost predicate AllSpare<O(!new), A>(from: O -> bool, own: seq<O>, answers: seq<A>, y: A, accepts: (O, A) -> bool) {
    |own| == |answers| && forall k :: 0 <= k < |own| ==> Spares(from, own[k], answers[k], y, accepts)
  }

  lemma {:induction false} SparingOutputs<O(!new), A>(from: O -> bool, answers: seq<A>, y: A, accepts: (O, A) -> bool) returns (own: seq<O>)
    requires !SomeHopeless(from, answers, accepts)
    ensures AllSpare(from, own, answers, y, accepts)
  {
    own := [];
    if answers != [] {
      var n := |answers| - 1;
      assert !Hopeless(from, answers[n], accepts);
      var o :| from(o) && accepts(o, answers[n]);
      if x :| from(x) && accepts(x, answers[n]) && !accepts(x, y) {
        o := x;
      }
      assert forall i :: 0 <= i < n ==> answers[..n][i] == answers[i];
      own := SparingOutputs(from, answers[..n], y, accepts);
      own := own + [o];
    }
  }

  /**
   * When answer `y` has to take the place of a later answer, the outputs it rejects
   * are one more than the later answers can hold.
   */
  lemma CrowdedOut<O(!new), A>(from: O -> bool, o: O, own: seq<O>, y: A, later: seq<A>, accepts: (O, A) -> bool)
    requires from(o) && !accepts(o, y) && AllSpare(from, own, later, y, accepts)
    ensures !Accepted([o] + own, [y] + later, accepts)
  {
    var outputs := [o] + own;
    assert forall i :: 0 <= i < |own| ==> Spares(from, own[i], later[i], y, accepts);
    if Accepted(outputs, [y] + later, accepts) {
      var k := FirstFit(outputs, y, accepts);
      assert ([y] + later)[1..] == later;
      AcceptedIsMatchable(Without(outputs, k), later, accepts);
      TooFewPlaces(from, outputs, o, own, k, y, later, accepts);
    }
  }

  lemma TooFewPlaces<O(!new), A>(from: O -> bool, outputs: seq<O>, o: O, own: seq<O>, k: nat, y: A, later: seq<A>, accepts: (O, A) -> bool)
    requires from(o) && !accepts(o, y) && AllSpare(from, own, later, y, accepts)
    requires outputs == [o] + own && Drawn(outputs, from) && k < |outputs| && accepts(outputs[k], y)
    ensures !Matchable(multiset(Without(outputs, k)), later, accepts)
  {
    var rest := Without(outputs, k);
    WithoutRemovesOne(outputs, k);
    RejectedWithout(outputs, k, y, accepts);
    assert Rejected(rest, y, accepts) == 1 + Rejected(own, y, accepts) by {
      assert outputs[1..] == own;
    }
    if lined :| LinesUp(lined, multiset(rest), later, accepts) {
      LinedRejects(from, outputs, lined, rest, own, y, later, accepts);
    }
  }

  /** The later answers hold no more outputs that `y` rejects than were picked for them. */
  lemma LinedRejects<O(!new), A>(from: O -> bool, outputs: seq<O>, lined: seq<O>, rest: seq<O>, own: seq<O>, y: A, later: seq<A>, accepts: (O, A) -> bool)
    requires AllSpare(from, own, later, y, accepts) && LinesUp(lined, multiset(rest), later, accepts)
    requires multiset(rest) <= multiset(outputs) && Drawn(outputs, from)
    ensures Rejected(rest, y, accepts) <= Rejected(own, y, accepts)
  {
    RejectedIgnoresOrder(lined, rest, y, accepts);
    PlacesSpare(from, outputs, lined, rest, own, y, later, accepts);
    RejectedPointwise(lined, own, y, accepts);
  }

  /** Where a lined-up output is rejected by `y`, so is the one picked for that answer. */
  lemma PlacesSpare<O(!new), A>(from: O -> bool, outputs: seq<O>, lined: seq<O>, rest: seq<O>, own: seq<O>, y: A, later: seq<A>, accepts: (O, A) -> bool)
    requires AllSpare(from, own, later, y, accepts) && LinesUp(lined, multiset(rest), later, accepts)
    requires multiset(rest) <= multiset(outputs) && Drawn(outputs, from)
    ensures forall i :: 0 <= i < |lined| && !accepts(lined[i], y) ==> !accepts(own[i], y)
  {
    forall i | 0 <= i < |lined| && !accepts(lined[i], y)
      ensures !accepts(own[i], y)
    {
      assert lined[i] in multiset(lined) && lined[i] in multiset(outputs);
      assert Spares(from, own[i], later[i], y, accepts) && from(lined[i]);
    }
  }

  lemma TakesOwn<O, A>(outputs: seq<O>, answers: seq<A>, accepts: (O, A) -> bool)
    requires |outputs| == |answers| && forall i :: 0 <= i < |outputs| ==> accepts(outputs[i], answers[i])
    ensures Accepted(outputs, answers, accepts)
  {
    GreedyPrefix(outputs, [], answers, [], accepts);
    assert outputs + [] == outputs && answers + [] == answers;
  }

  /** A pair that is not nested gives two orders of one list with different verdicts. */
  lemma OrderMatters<O(!new), A>(from: O -> bool, answers: seq<A>, i: nat, j: nat, accepts: (O, A) -> bool)
    returns (outputs: seq<O>, reordered: seq<O>)
    requires !SomeHopeless(from, answers, accepts)
    requires i < j < |answers| && !NestedIn(from, answers[i], answers[j], accepts)
    ensures Drawn(outputs, from) && multiset(outputs) == multiset(reordered)
    ensures Accepted(outputs, answers, accepts) && !Accepted(reordered, answers, accepts)
  {
    var y := answers[j];
    var shared :| from(shared) && accepts(shared, answers[i]) && accepts(shared, y);
    var only :| from(only) && accepts(only, answers[i]) && !accepts(only, y);
    var own := SparingOutputs(from, answers, y, accepts);
    assert forall k :: 0 <= k < |own| ==> Spares(from, own[k], answers[k], y, accepts);
    outputs := own[i := only][j := shared];
    reordered := own[i := shared][j := only];
    TakesOwn(outputs, answers, accepts);
    PlaceTaken(from, own, reordered, i, j, shared, only, answers, accepts);
    SwapKeeps(own, i, j, only, shared);
  }

  /** With the shared output in the earlier place, answer `j` finds its own place taken by one it rejects. */
  lemma PlaceTaken<O(!new), A>(from: O -> bool, own: seq<O>, reordered: seq<O>, i: nat, j: nat, shared: O, only: O, answers: seq<A>, accepts: (O, A) -> bool)
    requires i < j < |answers| && AllSpare(from, own, answers, answers[j], accepts)
    requires reordered == own[i := shared][j := only] && accepts(shared, answers[i]) && from(only) && !accepts(only, answers[j])
    ensures !Accepted(reordered, answers, accepts)
  {
    var front, back := own[..j][i := shared], own[j + 1..];
    var before, later := answers[..j], answers[j + 1..];
    assert reordered == front + ([only] + back) && answers == before + ([answers[j]] + later);
    forall k | 0 <= k < j
      ensures accepts(front[k], before[k])
    {
      assert Spares(from, own[k], answers[k], answers[j], accepts);
    }
    GreedyPrefix(front, [only] + back, before, [answers[j]] + later, accepts);
    forall k | 0 <= k < |back|
      ensures Spares(from, back[k], later[k], answers[j], accepts)
    {
      assert Spares(from, own[j + 1 + k], answers[j + 1 + k], answers[j], accepts);
    }
    CrowdedOut(from, only, back, answers[j], later, accepts);
  }

  lemma SwapKeeps<O>(own: seq<O>, i: nat, j: nat, x: O, y: O)
    requires i < j < |own|
    ensures multiset(own[i := x][j := y]) == multiset(own[i := y][j := x])
  {
  }

  lemma NestedOrHopelessIsExact<O(!new), A>(from: O -> bool, answers: seq<A>, accepts: (O, A) -> bool)
    requires AllNested(from, answers, accepts) || SomeHopeless(from, answers, accepts)
    ensures AlwaysExact(from, answers, accepts)
  {
    forall outputs | Drawn(outputs, from)
      ensures Accepted(outputs, answers, accepts) <==> Matchable(multiset(outputs), answers, accepts)
    {
      if AllNested(from, answers, accepts) {
        DrawnNested(from, outputs, answers, accepts);
        NestedIsExact(outputs, answers, accepts);
      } else {
        if Accepted(outputs, answers, accepts) {
          AcceptedIsMatchable(outputs, answers, accepts);
        }
        HopelessUnmatched(from, outputs, answers, accepts);
      }
    }
  }

  lemma DrawnNested<O(!new), A>(from: O -> bool, outputs: seq<O>, answers: seq<A>, accepts: (O, A) -> bool)
    requires Drawn(outputs, from) && AllNested(from, answers, accepts)
    ensures Nested(multiset(outputs), answers, accepts)
  {
    assert forall o :: o in multiset(outputs) ==> from(o);
    forall i, j | 0 <= i < j < |answers|
      ensures NestedPair(multiset(outputs), answers[i], answers[j], accepts)
    {
      assert NestedIn(from, answers[i], answers[j], accepts);
    }
  }

  lemma HopelessUnmatched<O(!new), A>(from: O -> bool, outputs: seq<O>, answers: seq<A>, accepts: (O, A) -> bool)
    requires Drawn(outputs, from) && SomeHopeless(from, answers, accepts)
    ensures !Matchable(multiset(outputs), answers, accepts)
  {
    forall lined
      ensures !LinesUp(lined, multiset(outputs), answers, accepts)
    {
      if LinesUp(lined, multiset(outputs), answers, accepts) {
        LinedServe(from, outputs, lined, answers, accepts);
      }
    }
  }

  /** Lined-up outputs show that no answer is hopeless. */
  lemma LinedServe<O(!new), A>(from: O -> bool, outputs: seq<O>, lined: seq<O>, answers: seq<A>, accepts: (O, A) -> bool)
    requires Drawn(outputs, from) && LinesUp(lined, multiset(outputs), answers, accepts)
    ensures !SomeHopeless(from, answers, accepts)
  {
    forall i | 0 <= i < |answers|
      ensures !Hopeless(from, answers[i], accepts)
    {
      assert lined[i] in multiset(outputs);
      assert from(lined[i]) && accepts(lined[i], answers[i]);
    }
  }

  /**
   * When the verdict on any number of answers is independent of output order: exactly when every
   * earlier answer is nested in every later one, or some answer accepts nothing at all. The same
   * condition says exactly when the verdict is right on every list.
   */
  lemma OrderIgnoredExactly<O(!new), A>(from: O -> bool, answers: seq<A>, accepts: (O, A) -> bool)
    ensures OrderIgnored(from, answers, accepts) <==> AllNested(from, answers, accepts) || SomeHopeless(from, answers, accepts)
    ensures AlwaysExact(from, answers, accepts) <==> AllNested(from, answers, accepts) || SomeHopeless(from, answers, accepts)
  {
    if AllNested(from, answers, accepts) || SomeHopeless(from, answers, accepts) {
      NestedOrHopelessIsExact(from, answers, accepts);
    } else {
      var i, j :| 0 <= i < j < |answers| && !NestedIn(from, answers[i], answers[j], accepts);
      var outputs, reordered := OrderMatters(from, answers, i, j, accepts);
      assert !OrderIgnored(from, answers, accepts);
    }
    ExactIgnoresOrder(from, answers, accepts);
  }

  lemma ExactIgnoresOrder<O(!new), A>(from: O -> bool, answers: seq<A>, accepts: (O, A) -> bool)
    ensures AlwaysExact(from, answers, accepts) ==> OrderIgnored(from, answers, accepts)
  {
    if AlwaysExact(from, answers, accepts) {
      forall outputs, reordered | Drawn(outputs, from) && multiset(outputs) == multiset(reordered)
        ensures Accepted(outputs, answers, accepts) <==> Accepted(reordered, answers, accepts)
      {
        forall i | 0 <= i < |reordered|
          ensures from(reordered[i])
        {
          assert reordered[i] in multiset(outputs);
        }
      }
    }
  }

  /**
   * Two answers are scored independently of output order, whatever two outputs
   * of the pool are given, exactly when they are nested.
   */
  lemma PairIgnoresOrderExactly<O(!new), A>(pool: multiset<O>, x: A, y: A, accepts: (O, A) -> bool)
    ensures NestedPair(pool, x, y, accepts)
      <==> forall o1, o2 :: o1 in pool && o2 in pool ==>
                        (Accepted([o1, o2], [x, y], accepts) <==> Accepted([o2, o1], [x, y], accepts))
  {
    var from := o => o in pool;
    OrderIgnoredExactly(from, [x, y], accepts);
    if !NestedPair(pool, x, y, accepts) {
      assert !NestedIn(from, [x, y][0], [x, y][1], accepts);
      assert !Hopeless(from, x, accepts) && !Hopeless(from, y, accepts);
      var outputs, reordered := OrderMatters(from, [x, y], 0, 1, accepts);
      TwoOrders(outputs, reordered);
    } else {
      assert AllNested(from, [x, y], accepts);
      forall o1, o2 | o1 in pool && o2 in pool
        ensures Accepted([o1, o2], [x, y], accepts) <==> Accepted([o2, o1], [x, y], accepts)
      {
        assert Drawn([o1, o2], from) && multiset([o1, o2]) == multiset([o2, o1]);
      }
    }
  }

  /** Two lists of two with the same elements are the same list or each other's reverse. */
  lemma TwoOrders<O>(a: seq<O>, b: seq<O>)
    requires |a| == 2 && multiset(a) == multiset(b)
    ensures a == [a[0], a[1]] && (b == a || b == [a[1], a[0]])
  {
    assert a == [a[0], a[1]];
    assert |multiset(b)| == |b| == 2;
    assert b == [b[0], b[1]];
    assert multiset(b) == multiset{b[0], b[1]} && multiset(a) == multiset{a[0], a[1]};
    assert b[0] in multiset(a) && a[0] in multiset(b) && a[1] in multiset(b) && b[1] in multiset(a);
  }

  // ----- the checker itself -----

  /** The outputs whose index is not in `matched`, in order. */
  ghost function Free<O>(outputs: seq<O>, matched: seq<nat>): seq<O> {
    if outputs == [] then []
    else
      var last := |outputs| - 1;
      Free(outputs[..last], matched) + if last in matched then [] else [outputs[last]]
  }

  lemma {:induction false} FreeUnmatched<O>(outputs: seq<O>, matched: seq<nat>)
    requires forall m :: m in matched ==> |outputs| <= m
    ensures Free(outputs, matched) == outputs
  {
    if outputs != [] {
      var last := |outputs| - 1;
      FreeUnmatched(outputs[..last], matched);
      assert outputs == outputs[..last] + [outputs[last]];
    }
  }

  /** Taking output `k` removes exactly its place in the free list. */
  lemma {:induction false} FreeTake<O>(outputs: seq<O>, matched: seq<nat>, k: nat) returns (rest: seq<O>)
    requires k < |outputs| && k !in matched
    ensures Free(outputs, matched) == Free(outputs[..k], matched) + [outputs[k]] + rest
    ensures Free(outputs, matched + [k]) == Free(outputs[..k], matched) + rest
  {
    var last := |outputs| - 1;
    if k == last {
      FreeOther(outputs[..last], matched, k);
      rest := [];
    } else {
      rest := FreeTake(outputs[..last], matched, k);
      assert outputs[..last][..k] == outputs[..k];
      if last !in matched {
        rest := rest + [outputs[last]];
      }
    }
  }

  ghost predicate NoneFree<O, A>(outputs: seq<O>, matched: seq<nat>, upto: nat, answer: A, accepts: (O, A) -> bool)
    requires upto <= |outputs|
  {
    forall m :: 0 <= m < upto && m !in matched ==> !accepts(outputs[m], answer)
  }

  lemma {:induction false} FreeRejected<O, A>(outputs: seq<O>, matched: seq<nat>, answer: A, accepts: (O, A) -> bool)
    requires NoneFree(outputs, matched, |outputs|, answer, accepts)
    ensures forall i :: 0 <= i < |Free(outputs, matched)| ==> !accepts(Free(outputs, matched)[i], answer)
  {
    if outputs != [] {
      var shorter := outputs[..|outputs| - 1];
      assert NoneFree(shorter, matched, |shorter|, answer, accepts);
      FreeRejected(shorter, matched, answer, accepts);
    }
  }

  /** One round: the answer takes the first free output it accepts, and only that output leaves. */
  lemma RoundTakes<O, A>(outputs: seq<O>, matched: seq<nat>, k: nat, answers: seq<A>, accepts: (O, A) -> bool)
    requires answers != [] && k < |outputs| && k !in matched && accepts(outputs[k], answers[0])
    requires NoneFree(outputs, matched, k, answers[0], accepts)
    ensures Greedy(Free(outputs, matched), answers, accepts)
         == 1 + Greedy(Free(outputs, matched + [k]), answers[1..], accepts)
  {
    var rest := FreeTake(outputs, matched, k);
    var front := Free(outputs[..k], matched);
    assert NoneFree(outputs[..k], matched, k, answers[0], accepts);
    FreeRejected(outputs[..k], matched, answers[0], accepts);
    GreedyTakes(Free(outputs, matched), front, outputs[k], rest, answers, accepts);
  }

  lemma GreedyTakes<O, A>(free: seq<O>, front: seq<O>, o: O, rest: seq<O>, answers: seq<A>, accepts: (O, A) -> bool)
    requires answers != [] && free == front + [o] + rest && accepts(o, answers[0])
    requires forall i :: 0 <= i < |front| ==> !accepts(front[i], answers[0])
    ensures Greedy(free, answers, accepts) == 1 + Greedy(front + rest, answers[1..], accepts)
  {
    FirstFitIs(free, |front|, answers[0], accepts);
    assert Without(free, |front|) == front + rest;
  }

  lemma RoundFails<O, A>(outputs: seq<O>, matched: seq<nat>, answers: seq<A>, accepts: (O, A) -> bool)
    requires answers != [] && NoneFree(outputs, matched, |outputs|, answers[0], accepts)
    ensures Greedy(Free(outputs, matched), answers, accepts) == 0
  {
    FreeRejected(outputs, matched, answers[0], accepts);
    FirstFitIs(Free(outputs, matched), |Free(outputs, matched)|, answers[0], accepts);
  }

  lemma {:induction false} FreeOther<O>(outputs: seq<O>, matched: seq<nat>, k: nat)
    requires |outputs| <= k
    ensures Free(outputs, matched + [k]) == Free(outputs, matched)
  {
    if outputs != [] {
      FreeOther(outputs[..|outputs| - 1], matched, k);
    }
  }

  /** The inner loop: the first output that is not matched yet and that the answer accepts. */
  method FindMatch<O, A>(outputs: seq<O>, matched: seq<nat>, answer: A, accepts: (O, A) -> bool) returns (found: bool, index: nat)
    ensures index <= |outputs| && NoneFree(outputs, matched, index, answer, accepts)
    ensures found <==> index < |outputs|
    ensures found ==> index !in matched && accepts(outputs[index], answer)
  {
    for k := 0 to |outputs|
      invariant NoneFree(outputs, matched, k, answer, accepts)
    {
      if k in matched {
        continue;
      }
      if accepts(outputs[k], answer) {
        return true, k;
      }
    }
    return false, |outputs|;
  }

  /** The verdict: counts first, then each answer in turn takes the first output left that it accepts. */
  method ParallelChecker<O, A>(outputs: seq<O>, answers: seq<A>, accepts: (O, A) -> bool) returns (verdict: Verdict)
    ensures verdict.WrongCount? <==> |outputs| != |answers|
    ensures verdict.Valid? <==> Accepted(outputs, answers, accepts)
    ensures verdict.CannotFindMatch? ==> verdict.answer == Greedy(outputs, answers, accepts) < |answers|
  {
    if |outputs| != |answers| {
      return WrongCount;
    }
    var matched: seq<nat> := [];
    FreeUnmatched(outputs, matched);
    for i := 0 to |answers|
      invariant Greedy(outputs, answers, accepts) == i + Greedy(Free(outputs, matched), answers[i..], accepts)
    {
      var found, index := FindMatch(outputs, matched, answers[i], accepts);
      assert answers[i..][0] == answers[i] && answers[i..][1..] == answers[i + 1..];
      if !found {
        RoundFails(outputs, matched, answers[i..], accepts);
        return CannotFindMatch(i);
      }
      RoundTakes(outputs, matched, index, answers[i..], accepts);
      matched := matched + [index];
    }
    return Valid;
  }
}
