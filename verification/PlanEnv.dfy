/** The scheduling tasks: requirements as sentences, the order check, and why some order always passes. */
module PlanEnv {
  import opened Results
  import opened Sorting
  import opened Text

  datatype Kind = After | Before | NotAfter
  datatype Requirement = Requirement(kind: Kind, a: string, b: string)
  datatype Verdict = Valid | NotPermutation | Violated(requirement: nat)

  function Job(i: nat): string { "J" + Decimal(i) }

  // ----- the requirement that job `i` brings -----

  function KindOf(i: nat): Kind {
    if i >= 2 && (i % 6 == 1 || i % 6 == 4) then Before else if i >= 2 && i % 6 == 5 then NotAfter else After
  }

  function Other(i: nat): (j: nat)
    requires i >= 1
    ensures j < i
  {
    if i == 1 || i % 6 == 2 then 0 else if i % 6 == 3 then 1 else if i % 6 == 4 then 2 else i - 1
  }

  const AFTER := " must run after "
  const BEFORE := " must run before "
  const NOT_AFTER := " must not run immediately after "

  function Verb(kind: Kind): string {
    match kind case After => AFTER case Before => BEFORE case NotAfter => NOT_AFTER
  }

  /** The sentence for job `i`: the first is fixed, the others go round the six templates. */
  function ConstraintText(i: nat): string
    requires i >= 1
  {
    if i == 1 then "J1" + AFTER + "J0"
    else match i % 6
      case 0 => Job(i) + AFTER + Job(i - 1)
      case 1 => Job(i) + BEFORE + Job(i - 1)
      case 2 => Job(i) + AFTER + "J0"
      case 3 => Job(i) + AFTER + "J1"
      case 4 => Job(i) + BEFORE + "J2"
      case _ => Job(i) + NOT_AFTER + Job(i - 1)
  }

  // ----- reading a sentence -----

  function LeadingDigits(s: string): (k: nat)
    ensures k <= |s|
  {
    if s == "" || !IsDigit(s[0]) then 0 else 1 + LeadingDigits(s[1..])
  }

  /** The length of the job name the text starts with; 0 when it starts with none. */
  function JobLength(s: string): (k: nat)
    ensures k <= |s|
  {
    if s == "" || s[0] != 'J' || LeadingDigits(s[1..]) == 0 then 0 else 1 + LeadingDigits(s[1..])
  }

  function Second(kind: Kind, a: string, rest: string): Option<Requirement> {
    var k := JobLength(rest);
    if k == 0 then None else Some(Requirement(kind, a, rest[..k]))
  }

  /** `J<digits> <verb> J<digits>` at the start of the text. */
  function ParseAfterBefore(c: string): Option<Requirement> {
    var k := JobLength(c);
    if k == 0 then None
    else
      var a, rest := c[..k], c[k..];
      if AFTER <= rest then Second(After, a, rest[|AFTER|..])
      else if BEFORE <= rest then Second(Before, a, rest[|BEFORE|..])
      else if NOT_AFTER <= rest then Second(NotAfter, a, rest[|NOT_AFTER|..])
      else None
  }

  lemma {:induction false} LeadingDigitsOf(d: string, rest: string)
    requires forall k :: 0 <= k < |d| ==> IsDigit(d[k])
    requires rest == "" || !IsDigit(rest[0])
    ensures LeadingDigits(d + rest) == |d|
  {
    if d == "" {
      assert d + rest == rest;
    } else {
      LeadingDigitsOf(d[1..], rest);
      assert (d + rest)[1..] == d[1..] + rest;
    }
  }

  lemma JobLengthOf(i: nat, rest: string)
    requires rest == "" || !IsDigit(rest[0])
    ensures JobLength(Job(i) + rest) == |Job(i)|
  {
    var s := Job(i) + rest;
    assert s[1..] == Decimal(i) + rest;
    LeadingDigitsOf(Decimal(i), rest);
  }

  lemma SentenceParses(i: nat, kind: Kind, j: nat)
    ensures ParseAfterBefore(Job(i) + Verb(kind) + Job(j)) == Some(Requirement(kind, Job(i), Job(j)))
  {
    var rest := Verb(kind) + Job(j);
    var c := Job(i) + rest;
    assert c == Job(i) + Verb(kind) + Job(j);
    JobLengthOf(i, rest);
    assert c[..|Job(i)|] == Job(i) && c[|Job(i)|..] == rest;
    assert rest[|Verb(kind)|..] == Job(j);
    JobLengthOf(j, "");
    assert Job(j) + "" == Job(j) && Job(j)[..|Job(j)|] == Job(j);
    OneVerb(kind, rest);
  }

  lemma OneVerb(kind: Kind, rest: string)
    requires Verb(kind) <= rest
    ensures AFTER <= rest <==> kind.After?
    ensures BEFORE <= rest <==> kind.Before?
    ensures NOT_AFTER <= rest <==> kind.NotAfter?
  {
    assert rest[6] == if kind.NotAfter? then 'n' else 'r';
    assert !kind.NotAfter? ==> rest[10] == if kind.After? then 'a' else 'b';
    assert AFTER[6] == BEFORE[6] == 'r' && NOT_AFTER[6] == 'n' && AFTER[10] == 'a' && BEFORE[10] == 'b';
  }

  lemma TextIs(i: nat)
    requires i >= 1
    ensures ConstraintText(i) == Job(i) + Verb(KindOf(i)) + Job(Other(i))
  {
    assert Job(0) == "J0" && Job(1) == "J1" && Job(2) == "J2";
  }

  /** Every sentence issued reads back as the requirement it states. */
  lemma ConstraintReadsBack(i: nat)
    requires i >= 1
    ensures ParseAfterBefore(ConstraintText(i)) == Some(Requirement(KindOf(i), Job(i), Job(Other(i))))
  {
    TextIs(i);
    SentenceParses(i, KindOf(i), Other(i));
  }

  // ----- orders -----

  function Jobs(upto: nat): (s: seq<string>)
    ensures |s| == upto + 1 && forall i :: 0 <= i <= upto ==> s[i] == Job(i)
  {
    seq(upto + 1, i requires 0 <= i => Job(i))
  }

  lemma JobsDiffer(i: nat, j: nat)
    requires Job(i) == Job(j)
    ensures i == j
  {
    assert Job(i)[1..] == Decimal(i) && Job(j)[1..] == Decimal(j);
    ReadDecimal(i);
    ReadDecimal(j);
  }

  /** Two positions meet a requirement of the given kind. */
  predicate Meets(kind: Kind, a: nat, b: nat) {
    match kind
    case After => a > b
    case Before => a < b
    case NotAfter => a != b + 1
  }

  /** Wherever the two jobs stand in the order, they meet requirement `i`. */
  ghost predicate Satisfied(order: seq<string>, i: nat)
    requires i >= 1
  {
    forall x, y :: 0 <= x < |order| && 0 <= y < |order| && order[x] == Job(i) && order[y] == Job(Other(i)) ==>
                     Meets(KindOf(i), x, y)
  }

  ghost predicate AllSatisfied(order: seq<string>, upto: nat) {
    forall i :: 1 <= i <= upto ==> Satisfied(order, i)
  }

  lemma OneMore(order: seq<string>, i: nat)
    requires i >= 1
    ensures AllSatisfied(order, i) <==> AllSatisfied(order, i - 1) && Satisfied(order, i)
  {
  }

  ghost predicate Permutes(order: seq<string>, upto: nat) {
    multiset(order) == multiset(Jobs(upto))
  }

  lemma PermutesOnce(order: seq<string>, upto: nat)
    requires Permutes(order, upto)
    ensures |order| == upto + 1
    ensures forall i: nat :: i <= upto ==> Job(i) in order
    ensures forall x, y :: 0 <= x < y < |order| ==> order[x] != order[y]
  {
    var jobs := Jobs(upto);
    assert |multiset(order)| == |multiset(jobs)|;
    forall i: nat | i <= upto
      ensures Job(i) in order
    {
      assert jobs[i] in multiset(order);
    }
    JobsOnce(upto);
    forall x, y | 0 <= x < y < |order|
      ensures order[x] != order[y]
    {
      DistinctMultiset(jobs, order[x]);
      if order[x] == order[y] {
        TwiceInMultiset(order, x, y);
      }
    }
  }

  lemma JobsOnce(upto: nat)
    ensures forall x, y :: 0 <= x < y <= upto ==> Jobs(upto)[x] != Jobs(upto)[y]
  {
    forall x: nat, y: nat | x < y <= upto
      ensures Jobs(upto)[x] != Jobs(upto)[y]
    {
      if Job(x) == Job(y) {
        JobsDiffer(x, y);
      }
    }
  }

  lemma TwiceInMultiset(s: seq<string>, x: nat, y: nat)
    requires x < y < |s| && s[x] == s[y]
    ensures multiset(s)[s[x]] >= 2
  {
    assert s == s[..y] + [s[y]] + s[y + 1..];
    assert s[x] in s[..y];
  }

  lemma {:induction false} DistinctMultiset(s: seq<string>, v: string)
    requires forall x, y :: 0 <= x < y < |s| ==> s[x] != s[y]
    ensures multiset(s)[v] <= 1
  {
    if s != [] {
      DistinctMultiset(s[1..], v);
      assert s == [s[0]] + s[1..];
      if v == s[0] {
        assert v !in s[1..];
      }
    }
  }

  // ----- the check -----

  lemma NamesSorted(order: seq<string>, upto: nat)
    ensures Sort(order, StrLe) == Sort(Jobs(upto), StrLe) <==> Permutes(order, upto)
  {
    StrLeOrder();
    SortedSame(order, Jobs(upto), StrLe);
  }

  ghost predicate PositionsOf(pos: map<string, nat>, order: seq<string>, upto: nat)
    requires upto <= |order|
  {
    && (forall k :: 0 <= k < upto ==> order[k] in pos)
    && (forall j :: j in pos ==> pos[j] < upto && order[pos[j]] == j)
  }

  lemma SatisfiedAt(order: seq<string>, upto: nat, pos: map<string, nat>, i: nat)
    requires Permutes(order, upto) && |order| == upto + 1 && PositionsOf(pos, order, upto + 1) && 1 <= i <= upto
    ensures Job(i) in pos && Job(Other(i)) in pos
    ensures Satisfied(order, i) <==> Meets(KindOf(i), pos[Job(i)], pos[Job(Other(i))])
  {
    PermutesOnce(order, upto);
    assert Job(i) in order && Job(Other(i)) in order;
    var x, y := pos[Job(i)], pos[Job(Other(i))];
    assert order[x] == Job(i) && order[y] == Job(Other(i));
  }

  /** VALID exactly for permutations of the jobs that satisfy every requirement issued; else the first violation. */
  method Check(order: seq<string>, upto: nat) returns (verdict: Verdict)
    ensures verdict.NotPermutation? <==> !Permutes(order, upto)
    ensures verdict.Valid? <==> Permutes(order, upto) && AllSatisfied(order, upto)
    ensures verdict.Violated? ==>
              && 1 <= verdict.requirement <= upto && !Satisfied(order, verdict.requirement)
              && AllSatisfied(order, verdict.requirement - 1)
  {
    NamesSorted(order, upto);
    if Sort(order, StrLe) != Sort(Jobs(upto), StrLe) {
      return NotPermutation;
    }
    PermutesOnce(order, upto);
    var pos: map<string, nat> := map[];
    for k := 0 to |order|
      invariant PositionsOf(pos, order, k)
    {
      pos := pos[order[k] := k];
    }
    for i := 1 to upto + 1
      invariant AllSatisfied(order, i - 1)
    {
      var p := ParseAfterBefore(ConstraintText(i));
      ConstraintReadsBack(i);
      SatisfiedAt(order, upto, pos, i);
      OneMore(order, i);
      if p.None? {
        continue;
      }
      var Requirement(kind, a, b) := p.value;
      if kind == After && !(pos[a] > pos[b]) {
        return Violated(i);
      }
      if kind == Before && !(pos[a] < pos[b]) {
        return Violated(i);
      }
      if kind == NotAfter && pos[a] == pos[b] + 1 {
        return Violated(i);
      }
    }
    return Valid;
  }

  // ----- some order always passes -----

  /** The jobs that go to the front of the order; the others go to its end. */
  predicate InFront(i: nat) { i >= 2 && (i % 6 == 1 || i % 6 == 4) }

  function Order(upto: nat): (s: seq<string>)
    ensures |s| == upto + 1
  {
    if upto == 0 then [Job(0)]
    else if InFront(upto) then [Job(upto)] + Order(upto - 1)
    else Order(upto - 1) + [Job(upto)]
  }

  lemma {:induction false} OrderPermutes(upto: nat)
    ensures Permutes(Order(upto), upto)
  {
    if upto == 0 {
      assert Jobs(0) == [Job(0)];
    } else {
      OrderPermutes(upto - 1);
      assert Jobs(upto) == Jobs(upto - 1) + [Job(upto)];
    }
  }

  /** Where job `j` stands in the order of the jobs up to `upto`. */
  function Place(upto: nat, j: nat): (p: nat)
    requires j <= upto
    ensures p <= upto
  {
    if j == upto then if upto > 0 && InFront(upto) then 0 else upto
    else Place(upto - 1, j) + if InFront(upto) then 1 else 0
  }

  lemma {:induction false} PlaceHolds(upto: nat, j: nat)
    requires j <= upto
    ensures Order(upto)[Place(upto, j)] == Job(j)
  {
    if j < upto {
      PlaceHolds(upto - 1, j);
    }
  }

  /** Later jobs move earlier ones together, so how two of them stand to each other stays. */
  lemma {:induction false} PlacesMoveTogether(upto: nat, i: nat, j: nat)
    requires j <= i <= upto
    ensures Place(upto, i) - Place(upto, j) == Place(i, i) - Place(i, j)
  {
    if i < upto {
      PlacesMoveTogether(upto - 1, i, j);
    }
  }

  /** A job meets its own requirement when it is placed. */
  lemma PlacedWell(i: nat)
    requires i >= 1
    ensures Meets(KindOf(i), Place(i, i), Place(i, Other(i)))
  {
    var j := Other(i);
    if InFront(i) {
      assert Place(i, j) == Place(i - 1, j) + 1;
    } else if KindOf(i).NotAfter? {
      assert InFront(i - 1);
      assert Place(i - 1, i - 1) == 0;
    }
  }

  /** However many jobs there are, some order satisfies every requirement issued: the set never becomes unsatisfiable. */
  lemma OrderSatisfies(upto: nat)
    ensures Permutes(Order(upto), upto)
    ensures AllSatisfied(Order(upto), upto)
  {
    var order := Order(upto);
    OrderPermutes(upto);
    PermutesOnce(order, upto);
    forall i: nat | 1 <= i <= upto
      ensures Satisfied(order, i)
    {
      PlacedWell(i);
      PlacesMoveTogether(upto, i, Other(i));
      PlaceHolds(upto, i);
      PlaceHolds(upto, Other(i));
    }
  }
}
