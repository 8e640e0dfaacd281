/** The exact speaker assignment: a backtracking search, and why its answer is the optimum. */
module DiarizeSearch {
  import opened Results

  type Assignment = map<nat, nat>

  /** `nRef` reference and `nHyp` hypothesis speakers; pairs without a weight weigh nothing. */
  datatype Problem = Problem(nRef: nat, nHyp: nat, weights: map<(nat, nat), real>)

  const MAX_SPEAKERS: nat := 8

  function Weight(p: Problem, ref: nat, hyp: nat): real {
    if (ref, hyp) in p.weights then p.weights[(ref, hyp)] else 0.0
  }

  ghost predicate NonNegative(p: Problem) {
    forall pair :: pair in p.weights ==> p.weights[pair] >= 0.0
  }

  // ----- what is searched for -----

  /** One-to-one: every hypothesis speaker takes at most one reference speaker, and no two the same. */
  ghost predicate Injection(p: Problem, a: Assignment) {
    && (forall h :: h in a ==> h < p.nHyp && a[h] < p.nRef)
    && (forall g, h :: g in a && h in a && a[g] == a[h] ==> g == h)
  }

  /** The total weight of the pairs of hypothesis speakers below `hyps`. */
  function Value(p: Problem, a: Assignment, hyps: nat): real {
    if hyps == 0 then 0.0
    else Value(p, a, hyps - 1) + (if hyps - 1 in a then Weight(p, a[hyps - 1], hyps - 1) else 0.0)
  }

  ghost predicate Optimum(p: Problem, value: real, a: Assignment) {
    && Injection(p, a) && value == Value(p, a, p.nHyp)
    && forall b :: Injection(p, b) ==> Value(p, b, p.nHyp) <= value
  }

  // ----- the visiting order -----

  datatype Leaf = Leaf(value: real, assign: Assignment)

  /** The leaves below a node of the search, in the order they are visited. */
  function Leaves(p: Problem, ref: nat, total: real, a: Assignment): seq<Leaf>
    requires ref <= p.nRef
    decreases p.nRef - ref, p.nHyp + 1
  {
    if ref == p.nRef then [Leaf(total, a)]
    else Leaves(p, ref + 1, total, a) + Branches(p, ref, total, a, 0)
  }

  /** The leaves that give reference speaker `ref` a hypothesis speaker from `hyp` on. */
  function Branches(p: Problem, ref: nat, total: real, a: Assignment, hyp: nat): seq<Leaf>
    requires ref < p.nRef && hyp <= p.nHyp
    decreases p.nRef - ref, p.nHyp - hyp
  {
    if hyp == p.nHyp then []
    else
      (if hyp in a then [] else Leaves(p, ref + 1, total + Weight(p, ref, hyp), a[hyp := ref]))
      + Branches(p, ref, total, a, hyp + 1)
  }

  /** Keep the best leaf so far; a later leaf must be strictly better. */
  function Best(best: Leaf, leaves: seq<Leaf>): Leaf
    decreases leaves
  {
    if leaves == [] then best
    else Best(if leaves[0].value > best.value then leaves[0] else best, leaves[1..])
  }

  lemma {:induction false} BestConcat(best: Leaf, xs: seq<Leaf>, ys: seq<Leaf>)
    ensures Best(best, xs + ys) == Best(Best(best, xs), ys)
    decreases xs
  {
    if xs == [] {
      assert xs + ys == ys;
    } else {
      assert (xs + ys)[1..] == xs[1..] + ys;
      BestConcat(if xs[0].value > best.value then xs[0] else best, xs[1..], ys);
    }
  }

  /** `x` is among the leaves, and every leaf visited before it is worse. */
  ghost predicate FirstOfItsValue(x: Leaf, leaves: seq<Leaf>) {
    exists i :: 0 <= i < |leaves| && leaves[i] == x && forall j :: 0 <= j < i ==> leaves[j].value < x.value
  }

  /** The result is at least as good as everything seen, and it is the first leaf of its value. */
  lemma {:induction false} BestIsFirstMaximum(best: Leaf, leaves: seq<Leaf>)
    ensures Best(best, leaves).value >= best.value
    ensures forall x :: x in leaves ==> x.value <= Best(best, leaves).value
    ensures Best(best, leaves) == best || (best.value < Best(best, leaves).value && FirstOfItsValue(Best(best, leaves), leaves))
    decreases leaves
  {
    if leaves != [] {
      var next := if leaves[0].value > best.value then leaves[0] else best;
      BestIsFirstMaximum(next, leaves[1..]);
      var r := Best(best, leaves);
      if r == next && r != best {
        assert leaves[0] == r;
      } else if r != next {
        var i :| 0 <= i < |leaves[1..]| && leaves[1..][i] == r && forall j :: 0 <= j < i ==> leaves[1..][j].value < r.value;
        assert leaves[i + 1] == r;
        forall j | 0 <= j < i + 1
          ensures leaves[j].value < r.value
        {
          if j > 0 {
            assert leaves[1..][j - 1] == leaves[j];
          }
        }
      }
    }
  }

  // ----- the leaves are the partial injections -----

  ghost predicate Extends(a: Assignment, b: Assignment) {
    forall h :: h in a ==> h in b && b[h] == a[h]
  }

  /** A node at depth `ref`: only reference speakers before `ref` are taken. */
  ghost predicate Node(p: Problem, ref: nat, total: real, a: Assignment) {
    && ref <= p.nRef && Injection(p, a) && total == Value(p, a, p.nHyp)
    && forall h :: h in a ==> a[h] < ref
  }

  /** `b` completes the node `a` at depth `ref`. */
  ghost predicate Completes(p: Problem, ref: nat, a: Assignment, b: Assignment) {
    && Injection(p, b) && Extends(a, b)
    && forall h :: h in b && h !in a ==> b[h] >= ref
  }

  lemma {:induction false} ValueAdd(p: Problem, a: Assignment, hyp: nat, ref: nat, hyps: nat)
    requires hyp !in a
    ensures Value(p, a[hyp := ref], hyps) == Value(p, a, hyps) + (if hyp < hyps then Weight(p, ref, hyp) else 0.0)
  {
    if hyps > 0 {
      ValueAdd(p, a, hyp, ref, hyps - 1);
    }
  }

  lemma ChildNode(p: Problem, ref: nat, total: real, a: Assignment, hyp: nat)
    requires Node(p, ref, total, a) && ref < p.nRef && hyp < p.nHyp && hyp !in a
    ensures Node(p, ref + 1, total + Weight(p, ref, hyp), a[hyp := ref])
  {
    ValueAdd(p, a, hyp, ref, p.nHyp);
  }

  /** Every leaf completes its node and carries its own value. */
  lemma {:induction false} LeavesSound(p: Problem, ref: nat, total: real, a: Assignment)
    requires Node(p, ref, total, a)
    ensures forall x :: x in Leaves(p, ref, total, a) ==> Completes(p, ref, a, x.assign) && x.value == Value(p, x.assign, p.nHyp)
    decreases p.nRef - ref, p.nHyp + 1
  {
    if ref < p.nRef {
      LeavesSound(p, ref + 1, total, a);
      BranchesSound(p, ref, total, a, 0);
    }
  }

  lemma {:induction false} BranchesSound(p: Problem, ref: nat, total: real, a: Assignment, hyp: nat)
    requires Node(p, ref, total, a) && ref < p.nRef && hyp <= p.nHyp
    ensures forall x :: x in Branches(p, ref, total, a, hyp) ==> Completes(p, ref, a, x.assign) && x.value == Value(p, x.assign, p.nHyp)
    decreases p.nRef - ref, p.nHyp - hyp
  {
    if hyp < p.nHyp {
      BranchesSound(p, ref, total, a, hyp + 1);
      if hyp !in a {
        var child, weight := a[hyp := ref], total + Weight(p, ref, hyp);
        ChildNode(p, ref, total, a, hyp);
        LeavesSound(p, ref + 1, weight, child);
        forall x | x in Leaves(p, ref + 1, weight, child)
          ensures Completes(p, ref, a, x.assign)
        {
          assert Completes(p, ref + 1, child, x.assign);
        }
      }
    }
  }

  /** Every completion of a node is one of its leaves. */
  lemma {:induction false} LeavesComplete(p: Problem, ref: nat, total: real, a: Assignment, b: Assignment)
    requires Node(p, ref, total, a) && Completes(p, ref, a, b)
    ensures exists x :: x in Leaves(p, ref, total, a) && x.assign == b
    decreases p.nRef - ref, p.nHyp + 1
  {
    if ref == p.nRef {
      assert b == a;
      assert Leaves(p, ref, total, a)[0].assign == b;
    } else if h :| h in b && b[h] == ref {
      BranchesComplete(p, ref, total, a, b, h, 0);
      var x :| x in Branches(p, ref, total, a, 0) && x.assign == b;
      assert x in Leaves(p, ref, total, a);
    } else {
      LeavesComplete(p, ref + 1, total, a, b);
      var x :| x in Leaves(p, ref + 1, total, a) && x.assign == b;
      assert x in Leaves(p, ref, total, a);
    }
  }

  lemma {:induction false} BranchesComplete(p: Problem, ref: nat, total: real, a: Assignment, b: Assignment, h: nat, hyp: nat)
    requires Node(p, ref, total, a) && ref < p.nRef && Completes(p, ref, a, b)
    requires h in b && b[h] == ref && hyp <= h
    ensures hyp <= p.nHyp
    ensures exists x :: x in Branches(p, ref, total, a, hyp) && x.assign == b
    decreases p.nRef - ref, p.nHyp - hyp
  {
    if hyp == h {
      var child, weight := a[hyp := ref], total + Weight(p, ref, hyp);
      ChildNode(p, ref, total, a, hyp);
      LeavesComplete(p, ref + 1, weight, child, b);
      var x :| x in Leaves(p, ref + 1, weight, child) && x.assign == b;
      assert x in Branches(p, ref, total, a, hyp);
    } else {
      BranchesComplete(p, ref, total, a, b, h, hyp + 1);
      var x :| x in Branches(p, ref, total, a, hyp + 1) && x.assign == b;
      assert x in Branches(p, ref, total, a, hyp);
    }
  }

  // ----- the answer -----

  function Answer(p: Problem): Leaf {
    Best(Leaf(-1.0, map[]), Leaves(p, 0, 0.0, map[]))
  }

  lemma {:induction false} EmptyValue(p: Problem, hyps: nat)
    ensures Value(p, map[], hyps) == 0.0
  {
    if hyps > 0 {
      EmptyValue(p, hyps - 1);
    }
  }

  /** The search returns the maximum over all partial injections: the first one in visiting order. */
  lemma AnswerIsOptimum(p: Problem)
    ensures Optimum(p, Answer(p).value, Answer(p).assign)
    ensures FirstOfItsValue(Answer(p), Leaves(p, 0, 0.0, map[]))
  {
    var leaves, start := Leaves(p, 0, 0.0, map[]), Leaf(-1.0, map[]);
    EmptyValue(p, p.nHyp);
    LeavesSound(p, 0, 0.0, map[]);
    BestIsFirstMaximum(start, leaves);
    forall b | Injection(p, b)
      ensures Value(p, b, p.nHyp) <= Answer(p).value
    {
      LeavesComplete(p, 0, 0.0, map[], b);
    }
    assert Value(p, map[], p.nHyp) <= Answer(p).value;
    assert Answer(p) != start;
  }

  // ----- no pair without weight -----

  /** The pairs `b` adds to `a` all weigh something. */
  ghost predicate AddsWeight(p: Problem, a: Assignment, b: Assignment) {
    forall h :: h in b && h !in a ==> Weight(p, b[h], h) > 0.0
  }

  lemma ValueDrop(p: Problem, b: Assignment, hyp: nat)
    requires Injection(p, b) && hyp in b
    ensures Injection(p, b - {hyp})
    ensures Value(p, b, p.nHyp) == Value(p, b - {hyp}, p.nHyp) + Weight(p, b[hyp], hyp)
  {
    ValueAdd(p, b - {hyp}, hyp, b[hyp], p.nHyp);
    assert (b - {hyp})[hyp := b[hyp]] == b;
  }

  /** A branch over a weightless pair never beats leaving the reference speaker unmatched. */
  lemma WeightlessBranch(p: Problem, ref: nat, total: real, a: Assignment, hyp: nat, best: Leaf)
    requires Node(p, ref, total, a) && ref < p.nRef && hyp < p.nHyp && hyp !in a && Weight(p, ref, hyp) == 0.0
    requires forall x :: x in Leaves(p, ref + 1, total, a) ==> x.value <= best.value
    ensures Best(best, Leaves(p, ref + 1, total + Weight(p, ref, hyp), a[hyp := ref])) == best
  {
    var child := a[hyp := ref];
    var leaves := Leaves(p, ref + 1, total + Weight(p, ref, hyp), child);
    ChildNode(p, ref, total, a, hyp);
    LeavesSound(p, ref + 1, total + Weight(p, ref, hyp), child);
    forall x | x in leaves
      ensures x.value <= best.value
    {
      WeightlessLeaf(p, ref, total, a, hyp, best, x);
    }
    BestIsFirstMaximum(best, leaves);
  }

  /** A leaf that holds a weightless pair has a leaf of the same value without it. */
  lemma WeightlessLeaf(p: Problem, ref: nat, total: real, a: Assignment, hyp: nat, best: Leaf, x: Leaf)
    requires Node(p, ref, total, a) && ref < p.nRef && hyp < p.nHyp && hyp !in a && Weight(p, ref, hyp) == 0.0
    requires forall y :: y in Leaves(p, ref + 1, total, a) ==> y.value <= best.value
    requires Completes(p, ref + 1, a[hyp := ref], x.assign) && x.value == Value(p, x.assign, p.nHyp)
    ensures x.value <= best.value
  {
    var less := x.assign - {hyp};
    assert hyp in x.assign && x.assign[hyp] == ref;
    ValueDrop(p, x.assign, hyp);
    CompletesWithout(p, ref, a, hyp, x.assign, less);
    LeafOf(p, ref + 1, total, a, less, best.value);
  }

  lemma CompletesWithout(p: Problem, ref: nat, a: Assignment, hyp: nat, b: Assignment, less: Assignment)
    requires hyp !in a && Completes(p, ref + 1, a[hyp := ref], b) && less == b - {hyp} && Injection(p, less)
    ensures Completes(p, ref + 1, a, less)
  {
    forall h | h in less && h !in a
      ensures less[h] >= ref + 1
    {
      assert b[h] >= ref + 1;
    }
  }

  /** A bound on the leaves below a node bounds every completion of it. */
  lemma LeafOf(p: Problem, ref: nat, total: real, a: Assignment, b: Assignment, bound: real)
    requires Node(p, ref, total, a) && Completes(p, ref, a, b)
    requires forall y :: y in Leaves(p, ref, total, a) ==> y.value <= bound
    ensures Value(p, b, p.nHyp) <= bound
  {
    LeavesComplete(p, ref, total, a, b);
    LeavesSound(p, ref, total, a);
    var y :| y in Leaves(p, ref, total, a) && y.assign == b;
  }

  lemma {:induction false} BestAddsWeight(p: Problem, ref: nat, total: real, a: Assignment, best: Leaf)
    requires NonNegative(p) && Node(p, ref, total, a)
    ensures var r := Best(best, Leaves(p, ref, total, a)); r == best || AddsWeight(p, a, r.assign)
    decreases p.nRef - ref, p.nHyp + 1
  {
    if ref < p.nRef {
      var first := Best(best, Leaves(p, ref + 1, total, a));
      BestAddsWeight(p, ref + 1, total, a, best);
      BestIsFirstMaximum(best, Leaves(p, ref + 1, total, a));
      BranchesAddWeight(p, ref, total, a, 0, first);
      BestConcat(best, Leaves(p, ref + 1, total, a), Branches(p, ref, total, a, 0));
    }
  }

  /** What one branch makes of the best leaf so far. */
  function AfterBranch(p: Problem, ref: nat, total: real, a: Assignment, hyp: nat, best: Leaf): Leaf
    requires ref < p.nRef
  {
    if hyp in a then best else Best(best, Leaves(p, ref + 1, total + Weight(p, ref, hyp), a[hyp := ref]))
  }

  lemma BranchStep(p: Problem, ref: nat, total: real, a: Assignment, hyp: nat, best: Leaf)
    requires ref < p.nRef && hyp < p.nHyp
    ensures Best(best, Branches(p, ref, total, a, hyp)) == Best(AfterBranch(p, ref, total, a, hyp, best), Branches(p, ref, total, a, hyp + 1))
    ensures AfterBranch(p, ref, total, a, hyp, best).value >= best.value
  {
    var rest := Branches(p, ref, total, a, hyp + 1);
    if hyp in a {
      assert Branches(p, ref, total, a, hyp) == rest;
    } else {
      var below := Leaves(p, ref + 1, total + Weight(p, ref, hyp), a[hyp := ref]);
      assert Branches(p, ref, total, a, hyp) == below + rest;
      BestOfBranch(best, below, rest);
    }
  }

  lemma BestOfBranch(best: Leaf, below: seq<Leaf>, rest: seq<Leaf>)
    ensures Best(best, below + rest) == Best(Best(best, below), rest)
    ensures Best(best, below).value >= best.value
  {
    BestConcat(best, below, rest);
    BestIsFirstMaximum(best, below);
  }

  lemma {:induction false} BranchesAddWeight(p: Problem, ref: nat, total: real, a: Assignment, hyp: nat, best: Leaf)
    requires NonNegative(p) && Node(p, ref, total, a) && ref < p.nRef && hyp <= p.nHyp
    requires forall x :: x in Leaves(p, ref + 1, total, a) ==> x.value <= best.value
    ensures var r := Best(best, Branches(p, ref, total, a, hyp)); r == best || AddsWeight(p, a, r.assign)
    decreases p.nRef - ref, p.nHyp - hyp, 1
  {
    if hyp < p.nHyp {
      BranchStep(p, ref, total, a, hyp, best);
      BranchAddsWeight(p, ref, total, a, hyp, best);
      BranchesAddWeight(p, ref, total, a, hyp + 1, AfterBranch(p, ref, total, a, hyp, best));
    }
  }

  lemma BranchAddsWeight(p: Problem, ref: nat, total: real, a: Assignment, hyp: nat, best: Leaf)
    requires NonNegative(p) && Node(p, ref, total, a) && ref < p.nRef && hyp < p.nHyp
    requires forall x :: x in Leaves(p, ref + 1, total, a) ==> x.value <= best.value
    ensures var r := AfterBranch(p, ref, total, a, hyp, best); r == best || AddsWeight(p, a, r.assign)
    decreases p.nRef - ref, p.nHyp - hyp, 0
  {
    var next := AfterBranch(p, ref, total, a, hyp, best);
    if next != best {
      if Weight(p, ref, hyp) == 0.0 {
        WeightlessBranch(p, ref, total, a, hyp, best);
      }
      ChildNode(p, ref, total, a, hyp);
      assert a[hyp := ref] - {hyp} == a;
      BestAddsWeight(p, ref + 1, total + Weight(p, ref, hyp), a[hyp := ref], best);
      NextInBelow(p, ref, total + Weight(p, ref, hyp), a[hyp := ref], hyp, best, next);
    }
  }

  lemma NextInBelow(p: Problem, ref: nat, total: real, child: Assignment, hyp: nat, best: Leaf, next: Leaf)
    requires ref < p.nRef && Node(p, ref + 1, total, child) && hyp in child && child[hyp] == ref && Weight(p, ref, hyp) > 0.0
    requires next == Best(best, Leaves(p, ref + 1, total, child)) && next != best && AddsWeight(p, child, next.assign)
    ensures AddsWeight(p, child - {hyp}, next.assign)
  {
    BestIsFirstMaximum(best, Leaves(p, ref + 1, total, child));
    LeavesSound(p, ref + 1, total, child);
    assert next in Leaves(p, ref + 1, total, child);
    assert Completes(p, ref + 1, child, next.assign);
  }

  /** With non-negative weights the answer never contains a pair without weight. */
  lemma AnswerPairsWeigh(p: Problem)
    requires NonNegative(p)
    ensures forall h :: h in Answer(p).assign ==> Weight(p, Answer(p).assign[h], h) > 0.0
  {
    EmptyValue(p, p.nHyp);
    BestAddsWeight(p, 0, 0.0, map[], Leaf(-1.0, map[]));
  }

  // ----- the search itself -----

  /** The mutable state of `_search_injection`. */
  class Search {
    const p: Problem
    var used: set<nat>
    var assign: Assignment
    var bestValue: real
    var bestAssign: Assignment

    constructor (p: Problem)
      ensures this.p == p && used == {} && assign == map[]
      ensures bestValue == -1.0 && bestAssign == map[]
    {
      this.p := p;
      used, assign, bestValue, bestAssign := {}, map[], -1.0, map[];
    }

    /** Visit every leaf below reference speaker `ref`, and leave `used` and `assign` as they were. */
    method Walk(ref: nat, total: real)
      requires ref <= p.nRef && used == assign.Keys
      modifies this
      ensures used == old(used) && assign == old(assign)
      ensures Leaf(bestValue, bestAssign) == Best(old(Leaf(bestValue, bestAssign)), Leaves(p, ref, total, old(assign)))
      decreases p.nRef - ref, 1
    {
      ghost var start, a := Leaf(bestValue, bestAssign), assign;
      if ref == p.nRef {
        if total > bestValue {
          bestValue, bestAssign := total, assign;
        }
        assert Leaves(p, ref, total, a)[1..] == [];
        return;
      }
      Walk(ref + 1, total);
      BestConcat(start, Leaves(p, ref + 1, total, a), Branches(p, ref, total, a, 0));
      var hyp := 0;
      while hyp < p.nHyp
        invariant hyp <= p.nHyp
        invariant assign == a && used == a.Keys
        invariant Best(Leaf(bestValue, bestAssign), Branches(p, ref, total, a, hyp)) == Best(start, Leaves(p, ref, total, a))
      {
        BranchStep(p, ref, total, a, hyp, Leaf(bestValue, bestAssign));
        if hyp !in used {
          Match(ref, total, hyp);
        }
        hyp := hyp + 1;
      }
    }

    /** Give reference speaker `ref` the free hypothesis speaker `hyp`, search on, and take it back. */
    method Match(ref: nat, total: real, hyp: nat)
      requires ref < p.nRef && hyp < p.nHyp && used == assign.Keys && hyp !in used
      modifies this
      ensures used == old(used) && assign == old(assign)
      ensures Leaf(bestValue, bestAssign) == AfterBranch(p, ref, total, old(assign), hyp, old(Leaf(bestValue, bestAssign)))
      decreases p.nRef - ref, 0
    {
      ghost var a := assign;
      used := used + {hyp};
      assign := assign[hyp := ref];
      Walk(ref + 1, total + Weight(p, ref, hyp));
      assign := assign - {hyp};
      used := used - {hyp};
      assert assign == a;
    }
  }

  /** `_search_injection`: refuse above the cap, otherwise the exact optimum. */
  method SearchInjection(p: Problem) returns (r: Option<Leaf>)
    ensures r.None? <==> p.nRef > MAX_SPEAKERS || p.nHyp > MAX_SPEAKERS
    ensures r.Some? ==> r.value == Answer(p) && Optimum(p, r.value.value, r.value.assign)
  {
    if p.nRef > MAX_SPEAKERS || p.nHyp > MAX_SPEAKERS {
      return None;
    }
    var search := new Search(p);
    search.Walk(0, 0.0);
    AnswerIsOptimum(p);
    return Some(Leaf(search.bestValue, search.bestAssign));
  }
}
