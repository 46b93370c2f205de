/** Concrete exercises run through `Check`: an `add` implementation against
    two cases, under different bounds and with the export missing. */
module Scenarios {
  import opened JsValues
  import opened Validator

  /** What the learner's `add` returns for a call. */
  function Add(args: seq<JsValue>): JsValue
  {
    if |args| == 2 && args[0].Number? && args[1].Number? then Number(args[0].n + args[1].n) else NaN
  }

  function AddCandidate(value: JsValue, text: string, stringify: JsValue -> string): Candidate
  {
    Candidate(value, text, args => Returned(stringify(Add(args))))
  }

  /** `cases: [[1, 2, 3], [-1, -1, -2]]` */
  const AddCases: seq<seq<JsValue>> :=
    [[Number(1.0), Number(2.0), Number(3.0)], [Number(-1.0), Number(-1.0), Number(-2.0)]]

  function AddSpec(min: int, max: int): Spec
  {
    Spec("add", Bounds(Some(min), Some(max)), Some(AddCases), NoHook)
  }

  /** `add` matches both cases. */
  lemma AddCasesMatch(c: Candidate, stringify: JsValue -> string)
    requires forall args :: c.call(args) == Returned(stringify(Add(args)))
    ensures FirstFailing(c, AddCases, stringify) == None
  {
    assert Arguments(AddCases[0]) == [Number(1.0), Number(2.0)];
    assert Add([Number(1.0), Number(2.0)]) == Number(3.0);
    assert !Fails(c, AddCases[0], stringify);
    assert Arguments(AddCases[1]) == [Number(-1.0), Number(-1.0)];
    assert Add([Number(-1.0), Number(-1.0)]) == Number(-2.0);
    assert !Fails(c, AddCases[1], stringify);
    FirstFailingNone(c, AddCases, stringify);
  }

  /** An `add` whose text is within [10, 50], 30 characters say, passes both cases. */
  lemma AddPasses(id: nat, text: string, stringify: JsValue -> string)
    requires 10 <= |text| <= 50
    ensures Check(AddCandidate(Function(id, "add"), text, stringify), AddSpec(10, 50), stringify).verdict
         == Passed(PassedCases(2))
  {
    var c := AddCandidate(Function(id, "add"), text, stringify);
    AddCasesMatch(c, stringify);
    assert Judge(c, AddSpec(10, 50), stringify) == Passed(PassedCases(2));
  }

  /** The same `add` against [40, 50] is too short. */
  lemma AddTooShort(id: nat, text: string, stringify: JsValue -> string)
    requires |text| == 30
    ensures Check(AddCandidate(Function(id, "add"), text, stringify), AddSpec(40, 50), stringify).verdict
         == Failed(TooShort)
  {
  }

  /** A length equal to the upper bound passes that bound; one more is too long. */
  lemma UpperBoundInclusive(id: nat, text: string, longer: string, stringify: JsValue -> string)
    requires |text| == 50 && |longer| == 51
    ensures Check(AddCandidate(Function(id, "add"), text, stringify), AddSpec(10, 50), stringify).verdict
         == Passed(PassedCases(2))
    ensures Check(AddCandidate(Function(id, "add"), longer, stringify), AddSpec(10, 50), stringify).verdict
         == Failed(TooLong)
  {
    AddPasses(id, text, stringify);
  }

  /** Without an `add` export the exercise fails before anything is measured. */
  lemma AddMissing(text: string, stringify: JsValue -> string)
    ensures Check(AddCandidate(Undefined, text, stringify), AddSpec(10, 50), stringify)
         == Report(None, Failed(NoImplementation))
  {
  }

  /** An `add` function whose `.name` is something else is not found. */
  lemma AddMisnamed(id: nat, text: string, stringify: JsValue -> string)
    ensures Check(AddCandidate(Function(id, "sum"), text, stringify), AddSpec(10, 50), stringify)
         == Report(None, Failed("Function add is not found"))
  {
    assert NotFound("add") == "Function add is not found";
  }
}
