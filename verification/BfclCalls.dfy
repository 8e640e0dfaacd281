/** One call against one possible answer: the accept relation the greedy matcher is given. */
module BfclCalls {
  import opened Bfcl

  datatype Kind = Text | Integer
  datatype Value = Str(s: string) | Int(n: int)
  datatype Function = Function(kinds: map<string, Kind>, required: set<string>)
  datatype Call = Call(name: string, args: map<string, Value>)
  /** For each parameter the values it may take; the empty string among them marks it optional. */
  datatype Answer = Answer(name: string, allowed: map<string, seq<Value>>)

  const OPTIONAL := Str("")

  predicate OfKind(v: Value, k: Kind) { v.Str? <==> k.Text? }

  function KindOf(v: Value): Kind { if v.Str? then Text else Integer }

  /** Values are compared without spaces and `,./-_*^`, lower-cased, single quotes as double. */
  function Standardize(s: string): string {
    if s == "" then ""
    else
      var rest := Standardize(s[1..]);
      if s[0] in " ,./-_*^" then rest
      else if 'A' <= s[0] <= 'Z' then [s[0] - 'A' + 'a'] + rest
      else if s[0] == '\'' then "\"" + rest
      else [s[0]] + rest
  }

  /** The kind of the first value that is not the optional marker. */
  function PossibleKind(possible: seq<Value>): Option {
    if possible == [] then Unknown
    else if possible[0] == OPTIONAL then PossibleKind(possible[1..])
    else Known(KindOf(possible[0]))
  }

  datatype Option = Unknown | Known(kind: Kind)

  predicate StringAllowed(s: string, possible: seq<Value>) {
    exists i :: 0 <= i < |possible| && possible[i].Str? && Standardize(possible[i].s) == Standardize(s)
  }

  /** The type check decides whether the value is compared as declared or as a variable. */
  predicate ValueAccepted(v: Value, declared: Kind, possible: seq<Value>) {
    var answers := PossibleKind(possible);
    if OfKind(v, declared) then
      if declared.Text? && answers in {Unknown, Known(Text)} then StringAllowed(v.s, possible) else v in possible
    else answers == Known(KindOf(v)) && v in possible
  }

  predicate ParamAccepted(declared: Function, v: Value, answer: Answer, p: string) {
    && p in declared.kinds
    && p in answer.allowed
    && ValueAccepted(v, declared.kinds[p], answer.allowed[p])
  }

  /** `simple_function_checker` on text and integer parameters. */
  predicate SimpleFunctionChecker(functions: map<string, Function>, call: Call, answer: Answer) {
    && answer.name in functions
    && call.name == answer.name
    && (forall p :: p in functions[answer.name].required ==> p in call.args)
    && (forall p :: p in call.args ==> ParamAccepted(functions[answer.name], call.args[p], answer, p))
    && (forall p :: p in answer.allowed ==> p in call.args || OPTIONAL in answer.allowed[p])
  }

  ghost function Checker(functions: map<string, Function>): (Call, Answer) -> bool {
    (call, answer) => SimpleFunctionChecker(functions, call, answer)
  }

  /** Every parameter has one possible value and none is optional. */
  ghost predicate Fixed(answer: Answer) {
    forall p :: p in answer.allowed ==> |answer.allowed[p]| == 1 && answer.allowed[p][0] != OPTIONAL
  }

  lemma FixedValuesAgree(shared: Value, v: Value, declared: Kind, xs: seq<Value>, ys: seq<Value>)
    requires |xs| == |ys| == 1 && xs[0] != OPTIONAL && ys[0] != OPTIONAL
    requires ValueAccepted(shared, declared, xs) && ValueAccepted(shared, declared, ys)
    requires ValueAccepted(v, declared, xs)
    ensures ValueAccepted(v, declared, ys)
  {
  }

  /** A call that two fixed answers share is accepted by either together with every other call. */
  lemma FixedPairNested(functions: map<string, Function>, pool: multiset<Call>, x: Answer, y: Answer)
    requires Fixed(x) && Fixed(y)
    ensures NestedPair(pool, x, y, Checker(functions))
  {
    var accepts := Checker(functions);
    if shared :| shared in pool && accepts(shared, x) && accepts(shared, y) {
      forall call | call in pool && accepts(call, x)
        ensures accepts(call, y)
      {
        FixedAgree(functions, shared, call, x, y);
      }
    }
  }

  lemma FixedAgree(functions: map<string, Function>, shared: Call, call: Call, x: Answer, y: Answer)
    requires Fixed(x) && Fixed(y)
    requires SimpleFunctionChecker(functions, shared, x) && SimpleFunctionChecker(functions, shared, y)
    requires SimpleFunctionChecker(functions, call, x)
    ensures SimpleFunctionChecker(functions, call, y)
  {
    forall p | p in call.args
      ensures ParamAccepted(functions[y.name], call.args[p], y, p)
    {
      assert ParamAccepted(functions[x.name], call.args[p], x, p) && p in shared.args;
      assert ParamAccepted(functions[x.name], shared.args[p], x, p) && ParamAccepted(functions[y.name], shared.args[p], y, p);
      FixedValuesAgree(shared.args[p], call.args[p], functions[y.name].kinds[p], x.allowed[p], y.allowed[p]);
    }
    forall p | p in y.allowed
      ensures p in call.args
    {
      assert p in shared.args;
      assert ParamAccepted(functions[x.name], shared.args[p], x, p);
    }
  }

  /** For fixed answers the parallel check is exact and order-independent, whatever the calls. */
  lemma FixedAnswersExact(functions: map<string, Function>, calls: seq<Call>, reordered: seq<Call>, answers: seq<Answer>)
    requires forall i :: 0 <= i < |answers| ==> Fixed(answers[i])
    requires multiset(calls) == multiset(reordered)
    ensures Accepted(calls, answers, Checker(functions)) <==> Matchable(multiset(calls), answers, Checker(functions))
    ensures Accepted(calls, answers, Checker(functions)) <==> Accepted(reordered, answers, Checker(functions))
  {
    forall i, j | 0 <= i < j < |answers|
      ensures NestedPair(multiset(calls), answers[i], answers[j], Checker(functions))
    {
      FixedPairNested(functions, multiset(calls), answers[i], answers[j]);
    }
    NestedIsExact(calls, answers, Checker(functions));
    NestedIgnoresOrder(calls, reordered, answers, Checker(functions));
  }

  function Calling(x: int): Call { Call("f", map["x" := Int(x)]) }

  const FUNCTIONS := map["f" := Function(map["x" := Integer], {"x"})]
  const EITHER := Answer("f", map["x" := [Int(1), Int(2)]])
  const ONLY := Answer("f", map["x" := [Int(1)]])

  lemma ChoiceAccepts(x: int)
    ensures SimpleFunctionChecker(FUNCTIONS, Calling(x), EITHER) <==> x == 1 || x == 2
    ensures SimpleFunctionChecker(FUNCTIONS, Calling(x), ONLY) <==> x == 1
  {
    var call := Calling(x);
    assert forall p :: p in call.args <==> p == "x";
    assert ValueAccepted(Int(x), Integer, [Int(1), Int(2)]) <==> x == 1 || x == 2;
    assert ValueAccepted(Int(x), Integer, [Int(1)]) <==> x == 1;
  }

  /**
   * With a choice of values order does matter: of the answers `f(x in {1, 2})` and `f(x in {1})`,
   * the calls f(2), f(1) are accepted and the calls f(1), f(2) are not, though a matching exists.
   */
  lemma OrderCanMatter()
    ensures Accepted([Calling(2), Calling(1)], [EITHER, ONLY], Checker(FUNCTIONS))
    ensures !Accepted([Calling(1), Calling(2)], [EITHER, ONLY], Checker(FUNCTIONS))
    ensures Matchable(multiset([Calling(1), Calling(2)]), [EITHER, ONLY], Checker(FUNCTIONS))
  {
    var accepts := Checker(FUNCTIONS);
    ChoiceAccepts(1);
    ChoiceAccepts(2);
    AcceptedPair(Calling(2), Calling(1), EITHER, ONLY, accepts);
    AcceptedPair(Calling(1), Calling(2), EITHER, ONLY, accepts);
    AcceptedIsMatchable([Calling(2), Calling(1)], [EITHER, ONLY], accepts);
    assert multiset([Calling(2), Calling(1)]) == multiset([Calling(1), Calling(2)]);
  }
}
