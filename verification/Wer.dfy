/** The word error rate computed from an opcode list, against the true edit distance. */
module Wer {
  import opened Quotients
  import opened Results

  type Words = seq<string>

  /** `ref[i1..i2]` becomes `hyp[j1..j2]`; an equal block leaves the words alone. */
  datatype Opcode = Opcode(equal: bool, i1: nat, i2: nat, j1: nat, j2: nat)

  // ----- what any opcode list satisfies -----

  ghost predicate Fits(op: Opcode, ref: Words, hyp: Words) {
    && op.i1 <= op.i2 <= |ref| && op.j1 <= op.j2 <= |hyp|
    && (op.equal ==> ref[op.i1..op.i2] == hyp[op.j1..op.j2])
  }

  /** The opcodes tile both word lists from `(i, j)` to their ends, in order and without gaps. */
  ghost predicate Tiles(ops: seq<Opcode>, ref: Words, hyp: Words, i: nat, j: nat) {
    if ops == [] then i == |ref| && j == |hyp|
    else
      && Fits(ops[0], ref, hyp) && ops[0].i1 == i && ops[0].j1 == j
      && Tiles(ops[1..], ref, hyp, ops[0].i2, ops[0].j2)
  }

  ghost predicate Describes(ops: seq<Opcode>, ref: Words, hyp: Words) {
    Tiles(ops, ref, hyp, 0, 0)
  }

  function Max(a: nat, b: nat): nat { if a >= b then a else b }

  function Min(a: nat, b: nat): nat { if a <= b then a else b }

  ghost function CostOf(op: Opcode): nat
    requires op.i1 <= op.i2 && op.j1 <= op.j2
  {
    if op.equal then 0 else Max(op.i2 - op.i1, op.j2 - op.j1)
  }

  ghost predicate Ordered(ops: seq<Opcode>) {
    forall k :: 0 <= k < |ops| ==> ops[k].i1 <= ops[k].i2 && ops[k].j1 <= ops[k].j2
  }

  ghost function Cost(ops: seq<Opcode>): nat
    requires Ordered(ops)
  {
    if ops == [] then 0 else CostOf(ops[0]) + Cost(ops[1..])
  }

  lemma {:induction false} TilesOrdered(ops: seq<Opcode>, ref: Words, hyp: Words, i: nat, j: nat)
    requires Tiles(ops, ref, hyp, i, j)
    ensures Ordered(ops)
  {
    if ops != [] {
      TilesOrdered(ops[1..], ref, hyp, ops[0].i2, ops[0].j2);
      assert forall k :: 0 < k < |ops| ==> ops[k] == ops[1..][k - 1];
    }
  }

  // ----- edit distance -----

  function Lev(a: Words, b: Words): nat
    decreases |a| + |b|
  {
    if a == [] then |b|
    else if b == [] then |a|
    else Min(Min(Lev(a[1..], b), Lev(a, b[1..])) + 1, Lev(a[1..], b[1..]) + Differ(a[0], b[0]))
  }

  function Differ(x: string, y: string): nat { if x == y then 0 else 1 }

  lemma {:induction false} LevSame(a: Words)
    ensures Lev(a, a) == 0
  {
    if a != [] {
      LevSame(a[1..]);
    }
  }

  lemma {:induction false} LevAtMostMax(a: Words, b: Words)
    ensures Lev(a, b) <= Max(|a|, |b|)
  {
    if a != [] && b != [] {
      LevAtMostMax(a[1..], b[1..]);
    }
  }

  /** What a best edit does first. */
  datatype First = Done | Inserts | Deletes | Matches

  function BestFirstEdit(a: Words, b: Words): (how: First)
    ensures how.Done? ==> a == [] && b == []
    ensures how.Inserts? ==> b != [] && Lev(a, b) == Lev(a, b[1..]) + 1
    ensures how.Deletes? ==> a != [] && Lev(a, b) == Lev(a[1..], b) + 1
    ensures how.Matches? ==> a != [] && b != [] && Lev(a, b) == Lev(a[1..], b[1..]) + Differ(a[0], b[0])
  {
    if a == [] then if b == [] then Done else assert Lev(a, b[1..]) == |b| - 1; Inserts
    else if b == [] then assert Lev(a[1..], b) == |a| - 1; Deletes
    else if Lev(a, b) == Lev(a, b[1..]) + 1 then Inserts
    else if Lev(a, b) == Lev(a[1..], b) + 1 then Deletes
    else Matches
  }

  /** Editing two parts separately is one way of editing the whole. */
  lemma {:induction false} LevSplits(a1: Words, b1: Words, a2: Words, b2: Words)
    ensures Lev(a1 + a2, b1 + b2) <= Lev(a1, b1) + Lev(a2, b2)
    decreases |a1| + |b1|
  {
    var how := BestFirstEdit(a1, b1);
    match how
    case Done =>
      assert a1 + a2 == a2 && b1 + b2 == b2;
    case Inserts =>
      LevSplits(a1, b1[1..], a2, b2);
      InsertInFront(a1, b1, a2, b2);
    case Deletes =>
      LevSplits(a1[1..], b1, a2, b2);
      DeleteInFront(a1, b1, a2, b2);
    case Matches =>
      LevSplits(a1[1..], b1[1..], a2, b2);
      MatchInFront(a1, b1, a2, b2);
  }

  lemma InsertInFront(a1: Words, b1: Words, a2: Words, b2: Words)
    requires b1 != []
    ensures Lev(a1 + a2, b1 + b2) <= Lev(a1 + a2, b1[1..] + b2) + 1
  {
    assert (b1 + b2)[1..] == b1[1..] + b2;
  }

  lemma DeleteInFront(a1: Words, b1: Words, a2: Words, b2: Words)
    requires a1 != []
    ensures Lev(a1 + a2, b1 + b2) <= Lev(a1[1..] + a2, b1 + b2) + 1
  {
    assert (a1 + a2)[1..] == a1[1..] + a2;
  }

  lemma MatchInFront(a1: Words, b1: Words, a2: Words, b2: Words)
    requires a1 != [] && b1 != []
    ensures Lev(a1 + a2, b1 + b2) <= Lev(a1[1..] + a2, b1[1..] + b2) + Differ(a1[0], b1[0])
  {
    assert (a1 + a2)[1..] == a1[1..] + a2 && (b1 + b2)[1..] == b1[1..] + b2;
  }

  /** Any script of opcodes costs at least the edit distance. */
  lemma {:induction false} CostFrom(ops: seq<Opcode>, ref: Words, hyp: Words, i: nat, j: nat)
    requires i <= |ref| && j <= |hyp| && Tiles(ops, ref, hyp, i, j) && Ordered(ops)
    ensures Lev(ref[i..], hyp[j..]) <= Cost(ops)
  {
    if ops != [] {
      var op := ops[0];
      var a, b := ref[op.i1..op.i2], hyp[op.j1..op.j2];
      CostFrom(ops[1..], ref, hyp, op.i2, op.j2);
      assert ref[i..] == a + ref[op.i2..] && hyp[j..] == b + hyp[op.j2..];
      LevSplits(a, b, ref[op.i2..], hyp[op.j2..]);
      if op.equal {
        LevSame(a);
      } else {
        LevAtMostMax(a, b);
      }
    }
  }

  // ----- edit distance is the fewest edits -----

  /** One word inserted, deleted or replaced, at the split `u`, `v`. */
  ghost predicate EditAt(a: Words, b: Words, u: Words, x: Words, y: Words, v: Words) {
    a == u + x + v && b == u + y + v && |x| <= 1 && |y| <= 1
  }

  ghost predicate Edit(a: Words, b: Words) {
    exists u, x, y, v :: EditAt(a, b, u, x, y, v)
  }

  ghost predicate Script(steps: seq<Words>, a: Words, b: Words) {
    && steps != [] && steps[0] == a && steps[|steps| - 1] == b
    && forall k :: 0 <= k < |steps| - 1 ==> Edit(steps[k], steps[k + 1])
  }

  /** The cut `m` of `b` serves `a1` and `a2`. */
  ghost predicate Cut(a1: Words, a2: Words, b: Words, m: nat) {
    m <= |b| && Lev(a1 + a2, b) >= Lev(a1, b[..m]) + Lev(a2, b[m..])
  }

  lemma CutAfterInsert(a1: Words, a2: Words, b: Words, m: nat)
    requires b != [] && Cut(a1, a2, b[1..], m) && Lev(a1 + a2, b) == Lev(a1 + a2, b[1..]) + 1
    ensures Cut(a1, a2, b, m + 1)
  {
    assert b[..m + 1][1..] == b[1..][..m] && b[m + 1..] == b[1..][m..];
  }

  lemma CutAfterMatch(a1: Words, a2: Words, b: Words, m: nat)
    requires a1 != [] && b != [] && Cut(a1[1..], a2, b[1..], m)
    requires Lev(a1 + a2, b) == Lev(a1[1..] + a2, b[1..]) + Differ(a1[0], b[0])
    ensures Cut(a1, a2, b, m + 1)
  {
    assert b[..m + 1][1..] == b[1..][..m] && b[m + 1..] == b[1..][m..];
  }

  /** A best edit of a concatenation is best on each part, for some cut of the target. */
  lemma {:induction false} LevCuts(a1: Words, a2: Words, b: Words) returns (m: nat)
    ensures Cut(a1, a2, b, m)
    decreases |a1| + |b|
  {
    var a := a1 + a2;
    if a1 == [] {
      m := 0;
      assert a == a2 && b[0..] == b;
    } else {
      assert a[1..] == a1[1..] + a2 && a[0] == a1[0];
      var how := BestFirstEdit(a, b);
      match how
      case Deletes =>
        m := LevCuts(a1[1..], a2, b);
      case Inserts =>
        m := LevCuts(a1, a2, b[1..]);
        CutAfterInsert(a1, a2, b, m);
        m := m + 1;
      case Matches =>
        m := LevCuts(a1[1..], a2, b[1..]);
        CutAfterMatch(a1, a2, b, m);
        m := m + 1;
    }
  }

  lemma LevOneWord(x: Words, y: Words, c: Words)
    requires |x| <= 1 && |y| <= 1
    ensures Lev(x, c) <= Lev(y, c) + 1
  {
    LevAtMostMax(x, c);
  }

  /** One edit changes the distance to any list by at most one. */
  lemma EditMovesOne(a: Words, b: Words, c: Words)
    requires Edit(a, b)
    ensures Lev(a, c) <= Lev(b, c) + 1
  {
    var u, x, y, v :| EditAt(a, b, u, x, y, v);
    assert b == u + (y + v) && a == u + (x + v);
    var m := LevCuts(u, y + v, c);
    assert c[..m] + c[m..] == c;
    LevSplits(u, c[..m], x + v, c[m..]);
    SwapWord(x, y, v, c[m..]);
  }

  lemma SwapWord(x: Words, y: Words, v: Words, c: Words)
    requires |x| <= 1 && |y| <= 1
    ensures Lev(x + v, c) <= Lev(y + v, c) + 1
  {
    var n := LevCuts(y, v, c);
    assert c[..n] + c[n..] == c;
    LevOneWord(x, y, c[..n]);
    LevSplits(x, c[..n], v, c[n..]);
  }

  /** No sequence of edits is shorter than the edit distance. */
  lemma {:induction false} ScriptAtLeastLev(steps: seq<Words>, a: Words, b: Words)
    requires Script(steps, a, b)
    ensures Lev(a, b) <= |steps| - 1
  {
    if |steps| == 1 {
      LevSame(a);
    } else {
      forall k | 0 <= k < |steps| - 2
        ensures Edit(steps[1..][k], steps[1..][k + 1])
      {
        assert Edit(steps[k + 1], steps[k + 1 + 1]);
      }
      ScriptAtLeastLev(steps[1..], steps[1], b);
      assert Edit(steps[0], steps[0 + 1]);
      EditMovesOne(a, steps[1], b);
    }
  }

  /** The front of every list in a script may be kept in place. */
  lemma PrefixScript(front: Words, steps: seq<Words>, a: Words, b: Words) returns (longer: seq<Words>)
    requires Script(steps, a, b)
    ensures Script(longer, front + a, front + b) && |longer| == |steps|
  {
    longer := seq(|steps|, k requires 0 <= k < |steps| => front + steps[k]);
    forall k | 0 <= k < |longer| - 1
      ensures Edit(longer[k], longer[k + 1])
    {
      assert Edit(steps[k], steps[k + 1]);
      var u, x, y, v :| EditAt(steps[k], steps[k + 1], u, x, y, v);
      assert EditAt(longer[k], longer[k + 1], front + u, x, y, v);
    }
  }

  lemma EditFirst(a: Words, steps: seq<Words>, next: Words, b: Words) returns (longer: seq<Words>)
    requires Edit(a, next) && Script(steps, next, b)
    ensures Script(longer, a, b) && |longer| == |steps| + 1
  {
    longer := [a] + steps;
    forall k | 0 <= k < |longer| - 1
      ensures Edit(longer[k], longer[k + 1])
    {
      assert k > 0 ==> Edit(steps[k - 1], steps[k - 1 + 1]);
    }
  }

  /** And some sequence of edits is that short. */
  lemma {:induction false} ScriptOfLev(a: Words, b: Words) returns (steps: seq<Words>)
    ensures Script(steps, a, b) && |steps| - 1 == Lev(a, b)
    decreases |a| + |b|
  {
    var how := BestFirstEdit(a, b);
    match how
    case Done =>
      steps := [a];
    case Inserts =>
      var rest := ScriptOfLev(a, b[1..]);
      steps := ScriptInsert(a, b, rest);
    case Deletes =>
      var rest := ScriptOfLev(a[1..], b);
      assert EditAt(a, a[1..], [], [a[0]], [], a[1..]);
      steps := EditFirst(a, rest, a[1..], b);
    case Matches =>
      var rest := ScriptOfLev(a[1..], b[1..]);
      steps := ScriptMatch(a, b, rest);
  }

  lemma ScriptInsert(a: Words, b: Words, rest: seq<Words>) returns (steps: seq<Words>)
    requires b != [] && Script(rest, a, b[1..])
    ensures Script(steps, a, b) && |steps| == |rest| + 1
  {
    var kept := PrefixScript([b[0]], rest, a, b[1..]);
    assert [b[0]] + b[1..] == b;
    assert EditAt(a, [b[0]] + a, [], [], [b[0]], a);
    steps := EditFirst(a, kept, [b[0]] + a, b);
  }

  lemma ScriptMatch(a: Words, b: Words, rest: seq<Words>) returns (steps: seq<Words>)
    requires a != [] && b != [] && Script(rest, a[1..], b[1..])
    ensures Script(steps, a, b) && |steps| == |rest| + Differ(a[0], b[0])
  {
    var kept := PrefixScript([b[0]], rest, a[1..], b[1..]);
    assert [b[0]] + b[1..] == b;
    if a[0] == b[0] {
      assert [b[0]] + a[1..] == a;
      steps := kept;
    } else {
      assert EditAt(a, [b[0]] + a[1..], [], [a[0]], [b[0]], a[1..]);
      steps := EditFirst(a, kept, [b[0]] + a[1..], b);
    }
  }

  ghost predicate CanEdit(a: Words, b: Words, n: nat) {
    exists steps :: Script(steps, a, b) && |steps| == n + 1
  }

  /** The edit distance is the least number of word edits. */
  lemma LevIsFewestEdits(a: Words, b: Words)
    ensures CanEdit(a, b, Lev(a, b))
    ensures forall n: nat :: CanEdit(a, b, n) ==> Lev(a, b) <= n
  {
    var steps := ScriptOfLev(a, b);
    assert Script(steps, a, b) && |steps| == Lev(a, b) + 1;
    forall n: nat | CanEdit(a, b, n)
      ensures Lev(a, b) <= n
    {
      var other :| Script(other, a, b) && |other| == n + 1;
      ScriptAtLeastLev(other, a, b);
    }
  }

  // ----- tightness and zero -----

  ghost function Moved(op: Opcode, di: nat, dj: nat): Opcode {
    Opcode(op.equal, op.i1 + di, op.i2 + di, op.j1 + dj, op.j2 + dj)
  }

  ghost function Shift(ops: seq<Opcode>, di: nat, dj: nat): seq<Opcode> {
    if ops == [] then [] else [Moved(ops[0], di, dj)] + Shift(ops[1..], di, dj)
  }

  lemma MovedFits(op: Opcode, ref: Words, hyp: Words, di: nat, dj: nat)
    requires di <= |ref| && dj <= |hyp| && Fits(op, ref[di..], hyp[dj..])
    ensures Fits(Moved(op, di, dj), ref, hyp)
  {
    assert ref[di..][op.i1..op.i2] == ref[op.i1 + di..op.i2 + di];
    assert hyp[dj..][op.j1..op.j2] == hyp[op.j1 + dj..op.j2 + dj];
  }

  lemma {:induction false} ShiftTiles(ops: seq<Opcode>, ref: Words, hyp: Words, di: nat, dj: nat, i: nat, j: nat)
    requires di <= |ref| && dj <= |hyp|
    requires Tiles(ops, ref[di..], hyp[dj..], i, j) && Ordered(ops)
    ensures Tiles(Shift(ops, di, dj), ref, hyp, i + di, j + dj)
    ensures Ordered(Shift(ops, di, dj)) && Cost(Shift(ops, di, dj)) == Cost(ops)
  {
    if ops != [] {
      ShiftTiles(ops[1..], ref, hyp, di, dj, ops[0].i2, ops[0].j2);
      MovedFits(ops[0], ref, hyp, di, dj);
    }
  }

  lemma BestFirst(ref: Words, hyp: Words, first: Opcode, rest: seq<Opcode>) returns (ops: seq<Opcode>)
    requires Fits(first, ref, hyp) && first.i1 == first.j1 == 0
    requires Describes(rest, ref[first.i2..], hyp[first.j2..]) && Ordered(rest)
    ensures Describes(ops, ref, hyp) && Ordered(ops) && Cost(ops) == CostOf(first) + Cost(rest)
  {
    ShiftTiles(rest, ref, hyp, first.i2, first.j2, 0, 0);
    ops := [first] + Shift(rest, first.i2, first.j2);
  }

  /** The bound is tight: some opcode list costs exactly the edit distance. */
  lemma {:induction false} BestOpcodes(ref: Words, hyp: Words) returns (ops: seq<Opcode>)
    ensures Describes(ops, ref, hyp) && Ordered(ops) && Cost(ops) == Lev(ref, hyp)
    decreases |ref| + |hyp|
  {
    assert ref[0..] == ref && hyp[0..] == hyp;
    var how := BestFirstEdit(ref, hyp);
    match how
    case Done =>
      ops := [];
    case Inserts =>
      var rest := BestOpcodes(ref[0..], hyp[1..]);
      ops := BestFirst(ref, hyp, Opcode(false, 0, 0, 0, 1), rest);
    case Deletes =>
      var rest := BestOpcodes(ref[1..], hyp[0..]);
      ops := BestFirst(ref, hyp, Opcode(false, 0, 1, 0, 0), rest);
    case Matches =>
      var rest := BestOpcodes(ref[1..], hyp[1..]);
      ops := BestFirst(ref, hyp, Opcode(ref[0] == hyp[0], 0, 1, 0, 1), rest);
  }

  lemma {:induction false} ZeroCostIsEqual(ops: seq<Opcode>, ref: Words, hyp: Words, i: nat, j: nat)
    requires i <= |ref| && j <= |hyp| && Tiles(ops, ref, hyp, i, j) && Ordered(ops) && Cost(ops) == 0
    ensures ref[i..] == hyp[j..]
  {
    if ops != [] {
      var op := ops[0];
      ZeroCostIsEqual(ops[1..], ref, hyp, op.i2, op.j2);
      assert ref[i..] == ref[op.i1..op.i2] + ref[op.i2..];
      assert hyp[j..] == hyp[op.j1..op.j2] + hyp[op.j2..];
    }
  }

  lemma {:induction false} AllEqualIsFree(ops: seq<Opcode>)
    requires Ordered(ops) && forall k :: 0 <= k < |ops| ==> ops[k].equal
    ensures Cost(ops) == 0
  {
    if ops != [] {
      AllEqualIsFree(ops[1..]);
    }
  }

  // ----- the rate -----

  lemma {:induction false} CostSnoc(ops: seq<Opcode>, k: nat)
    requires k < |ops| && Ordered(ops)
    ensures Ordered(ops[..k]) && Ordered(ops[..k + 1])
    ensures Cost(ops[..k + 1]) == Cost(ops[..k]) + CostOf(ops[k])
  {
    if k > 0 {
      CostSnoc(ops[1..], k - 1);
      assert ops[..k + 1][1..] == ops[1..][..k] && ops[..k][1..] == ops[1..][..k - 1];
    } else {
      assert ops[..1][1..] == [];
    }
  }

  lemma RateOrder(a: nat, b: nat, n: nat)
    requires n > 0 && a <= b
    ensures a as real / n as real <= b as real / n as real
    ensures b as real / n as real == 0.0 <==> b == 0
  {
    QuotientOrder(b as real, a as real, n as real);
    UnitQuotient(b as real, n as real);
  }

  /**
   * The rate over any opcode list that describes the two texts: an error for an empty
   * reference; never below the fewest edits per reference word; and zero only for equal
   * texts, and for those too when their opcodes are all equal blocks.
   */
  method ErrorRate(ref: Words, hyp: Words, ops: seq<Opcode>) returns (rate: Option<real>)
    requires Describes(ops, ref, hyp)
    ensures rate.None? <==> ref == []
    ensures rate.Some? ==> rate.value >= Lev(ref, hyp) as real / |ref| as real
    ensures rate.Some? && rate.value == 0.0 ==> ref == hyp
    ensures rate.Some? && (forall k :: 0 <= k < |ops| ==> ops[k].equal) ==> rate.value == 0.0
    ensures Ordered(ops) && (rate.Some? ==> rate.value == Cost(ops) as real / |ref| as real)
  {
    TilesOrdered(ops, ref, hyp, 0, 0);
    if |ref| == 0 {
      return None;
    }
    var errors := 0;
    for k := 0 to |ops|
      invariant Ordered(ops[..k]) && errors == Cost(ops[..k])
    {
      CostSnoc(ops, k);
      var op := ops[k];
      if !op.equal {
        errors := errors + Max(op.i2 - op.i1, op.j2 - op.j1);
      }
    }
    assert ops[..|ops|] == ops && ref[0..] == ref && hyp[0..] == hyp;
    CostFrom(ops, ref, hyp, 0, 0);
    RateOrder(Lev(ref, hyp), errors, |ref|);
    if errors == 0 {
      ZeroCostIsEqual(ops, ref, hyp, 0, 0);
    }
    if forall k :: 0 <= k < |ops| ==> ops[k].equal {
      AllEqualIsFree(ops);
    }
    return Some(errors as real / |ref| as real);
  }
}
