/** `executeTest`: the per-exercise verdict. `Check` states the verdict as a
    function of the candidate, the spec and the serialiser; `ExecuteTest` is the
    step-by-step procedure that pops the expected value off each case array. */
module Validator {
  import opened JsValues
  import opened Lines

  /** `test.length`, destructured as `[minLength, maxLength]`; a missing
      element is `undefined`, and every comparison with it is false. */
  datatype Bounds = Bounds(min: Option<int>, max: Option<int>)

  /** `test.test`: absent (falsy), or the outcome of calling it on the target. */
  datatype Hook = NoHook | HookReturns | HookThrows(message: string)

  /** `JSON.stringify(target(...args))`, or the message of what the call threw. */
  datatype CallResult = Returned(json: string) | Threw(message: string)

  /** The looked-up `target`, its `toString()` text and its behaviour when called. */
  datatype Candidate = Candidate(value: JsValue, text: string, call: seq<JsValue> -> CallResult)

  /** The loaded spec object, with the contents of its case arrays. */
  datatype Spec = Spec(name: string, bounds: Bounds, cases: Option<seq<seq<JsValue>>>, hook: Hook)

  datatype CasesSummary = NoTestCases | PassedCases(count: nat)

  /** What is reported for one exercise: the status line, or the error line. */
  datatype Verdict = Passed(summary: CasesSummary) | Failed(message: string)

  /** The informational "Length: …, lines: …" line. */
  datatype Measure = Measure(length: nat, lines: nat)

  datatype Report = Report(measure: Option<Measure>, verdict: Verdict)

  const NoImplementation := "No implementation detected"
  const TooLong := "Solution is too long"
  const TooShort := "Solution is too short"

  function NotFound(name: string): string
  {
    "Function " + name + " is not found"
  }

  function CaseFailed(expected: string, result: string): string
  {
    "Case failed: expected " + expected + ", result: " + result
  }

  /** A function target whose `.name` is not the spec's name. */
  predicate NameMismatch(target: JsValue, name: string)
  {
    IsFunction(target) && target.name != name
  }

  /** `targetLength > maxLength` */
  predicate Above(length: nat, max: Option<int>)
  {
    max.Some? && length > max.value
  }

  /** `targetLength < minLength` */
  predicate Below(length: nat, min: Option<int>)
  {
    min.Some? && length < min.value
  }

  predicate WithinBounds(length: nat, bounds: Bounds)
  {
    !Above(length, bounds.max) && !Below(length, bounds.min)
  }

  /** What `callCase.pop()` returns. */
  function Expected(callCase: seq<JsValue>): JsValue
  {
    if callCase == [] then Undefined else callCase[|callCase| - 1]
  }

  /** What is left of the case array after `pop()`: the call's arguments. */
  function Arguments(callCase: seq<JsValue>): (args: seq<JsValue>)
    ensures callCase != [] ==> args + [Expected(callCase)] == callCase
    ensures |args| == if callCase == [] then 0 else |callCase| - 1
  {
    if callCase == [] then [] else callCase[..|callCase| - 1]
  }

  /** The message one case stops with, if it does not match. */
  function CaseOutcome(c: Candidate, callCase: seq<JsValue>, stringify: JsValue -> string): Option<string>
  {
    var expected := stringify(Expected(callCase));
    match c.call(Arguments(callCase))
    case Threw(message) => Some(message)
    case Returned(result) => if result != expected then Some(CaseFailed(expected, result)) else None
  }

  predicate Fails(c: Candidate, callCase: seq<JsValue>, stringify: JsValue -> string)
  {
    CaseOutcome(c, callCase, stringify).Some?
  }

  /** The index of the first case that does not match. */
  function FirstFailing(c: Candidate, cases: seq<seq<JsValue>>, stringify: JsValue -> string): (k: Option<nat>)
    ensures k.Some? ==> k.value < |cases| && Fails(c, cases[k.value], stringify)
  {
    if cases == [] then None
    else if Fails(c, cases[0], stringify) then Some(0)
    else match FirstFailing(c, cases[1..], stringify)
      case None => None
      case Some(j) => Some(j + 1)
  }

  /** The cases stage: the first failing case's message, or the summary. */
  function CasesVerdict(c: Candidate, cases: Option<seq<seq<JsValue>>>, stringify: JsValue -> string): Verdict
  {
    match cases
    case None => Passed(NoTestCases)
    case Some(cs) =>
      match FirstFailing(c, cs, stringify)
      case Some(k) => Failed(CaseOutcome(c, cs[k], stringify).value)
      case None => Passed(PassedCases(|cs|))
  }

  /** Everything after the informational line: bounds, cases, hook. */
  function Judge(c: Candidate, spec: Spec, stringify: JsValue -> string): Verdict
  {
    var length := |c.text|;
    if Above(length, spec.bounds.max) then Failed(TooLong)
    else if Below(length, spec.bounds.min) then Failed(TooShort)
    else
      var cases := CasesVerdict(c, spec.cases, stringify);
      if cases.Failed? then cases
      else if spec.hook.HookThrows? then Failed(spec.hook.message)
      else cases
  }

  /** The report for one exercise. */
  function Check(c: Candidate, spec: Spec, stringify: JsValue -> string): Report
  {
    if !Truthy(c.value) then Report(None, Failed(NoImplementation))
    else if NameMismatch(c.value, spec.name) then Report(None, Failed(NotFound(spec.name)))
    else Report(Some(Measure(|c.text|, 1 + Newlines(c.text))), Judge(c, spec, stringify))
  }

  /** How many case arrays are popped before the verdict is known. */
  ghost function Evaluated(c: Candidate, spec: Spec, stringify: JsValue -> string): nat
  {
    if !Truthy(c.value) || NameMismatch(c.value, spec.name) || !WithinBounds(|c.text|, spec.bounds)
       || spec.cases.None? then 0
    else CasesReached(c, spec.cases.value, stringify)
  }

  /** Every case before the one `FirstFailing` reports matches. */
  lemma {:induction false} FirstFailingPrefixPasses(c: Candidate, cases: seq<seq<JsValue>>, stringify: JsValue -> string)
    ensures FirstFailing(c, cases, stringify).Some? ==>
      forall j :: 0 <= j < FirstFailing(c, cases, stringify).value ==> !Fails(c, cases[j], stringify)
  {
    if cases != [] && !Fails(c, cases[0], stringify) {
      var tail := cases[1..];
      FirstFailingPrefixPasses(c, tail, stringify);
      if FirstFailing(c, tail, stringify).Some? {
        var m := FirstFailing(c, tail, stringify).value;
        forall j | 0 <= j < m + 1 ensures !Fails(c, cases[j], stringify) {
          if j > 0 {
            assert cases[j] == tail[j - 1];
          }
        }
      }
    }
  }

  /** The least failing index is the one `FirstFailing` reports. */
  lemma {:induction false} LeastFailingIsFirst(c: Candidate, cases: seq<seq<JsValue>>, stringify: JsValue -> string, k: nat)
    requires k < |cases| && Fails(c, cases[k], stringify)
    requires forall j :: 0 <= j < k ==> !Fails(c, cases[j], stringify)
    ensures FirstFailing(c, cases, stringify) == Some(k)
  {
    if k > 0 {
      var tail := cases[1..];
      assert !Fails(c, cases[0], stringify);
      forall j | 0 <= j < k - 1 ensures !Fails(c, tail[j], stringify) {
        assert tail[j] == cases[j + 1];
      }
      LeastFailingIsFirst(c, tail, stringify, k - 1);
    }
  }

  /** `FirstFailing` finds exactly the least index of a failing case. */
  lemma FirstFailingIsLeast(c: Candidate, cases: seq<seq<JsValue>>, stringify: JsValue -> string, k: nat)
    ensures FirstFailing(c, cases, stringify) == Some(k) <==>
      k < |cases| && Fails(c, cases[k], stringify) && forall j :: 0 <= j < k ==> !Fails(c, cases[j], stringify)
  {
    FirstFailingPrefixPasses(c, cases, stringify);
    if k < |cases| && Fails(c, cases[k], stringify) && forall j :: 0 <= j < k ==> !Fails(c, cases[j], stringify) {
      LeastFailingIsFirst(c, cases, stringify, k);
    }
  }

  /** No case fails exactly when `FirstFailing` finds none. */
  lemma {:induction false} FirstFailingNone(c: Candidate, cases: seq<seq<JsValue>>, stringify: JsValue -> string)
    ensures FirstFailing(c, cases, stringify).None? <==> forall j :: 0 <= j < |cases| ==> !Fails(c, cases[j], stringify)
  {
    if cases != [] && !Fails(c, cases[0], stringify) {
      FirstFailingNone(c, cases[1..], stringify);
      assert forall j :: 1 <= j < |cases| ==> cases[j] == cases[1..][j - 1];
    }
  }

  /** A falsy target fails at once: no name, length, case or hook check runs,
      so nothing else about the candidate or the spec matters. */
  lemma NoImplementationFirst(c: Candidate, d: Candidate, spec: Spec, other: Spec,
                              stringify: JsValue -> string, otherStringify: JsValue -> string)
    requires !Truthy(c.value) && d.value == c.value
    ensures Check(c, spec, stringify) == Report(None, Failed(NoImplementation))
    ensures Check(d, other, otherStringify) == Check(c, spec, stringify)
  {
  }

  /** A function target with another name fails before it is measured, and
      neither the bounds, the cases nor the hook matter. */
  lemma NameMismatchSecond(c: Candidate, spec: Spec, bounds: Bounds, cases: Option<seq<seq<JsValue>>>, hook: Hook,
                           stringify: JsValue -> string)
    requires IsFunction(c.value) && c.value.name != spec.name
    ensures Check(c, spec, stringify) == Report(None, Failed(NotFound(spec.name)))
    ensures Check(c, spec.(bounds := bounds, cases := cases, hook := hook), stringify) == Check(c, spec, stringify)
  {
  }

  /** A target that is not a function is never compared by name. */
  lemma NameIgnoredForNonFunctions(c: Candidate, spec: Spec, name: string, stringify: JsValue -> string)
    requires !IsFunction(c.value)
    ensures Check(c, spec.(name := name), stringify) == Check(c, spec, stringify)
  {
  }

  /** Once existence and name pass, the length and line count are reported,
      the line count being one more than the number of '\n' characters. */
  lemma MeasureReported(c: Candidate, spec: Spec, stringify: JsValue -> string)
    ensures Check(c, spec, stringify).measure.Some? <==> Truthy(c.value) && !NameMismatch(c.value, spec.name)
    ensures Check(c, spec, stringify).measure.Some? ==>
      Check(c, spec, stringify).measure.value == Measure(|c.text|, 1 + |NewlineIndices(c.text)|)
  {
    NewlinesAreIndices(c.text);
  }

  /** Too long is checked first, whatever the lower bound says. */
  lemma TooLongFirst(c: Candidate, spec: Spec, stringify: JsValue -> string)
    requires Truthy(c.value) && !NameMismatch(c.value, spec.name)
    requires Above(|c.text|, spec.bounds.max)
    ensures Check(c, spec, stringify).verdict == Failed(TooLong)
  {
  }

  /** Too short is checked only when the text is not too long. */
  lemma TooShortSecond(c: Candidate, spec: Spec, stringify: JsValue -> string)
    requires Truthy(c.value) && !NameMismatch(c.value, spec.name)
    requires !Above(|c.text|, spec.bounds.max) && Below(|c.text|, spec.bounds.min)
    ensures Check(c, spec, stringify).verdict == Failed(TooShort)
  {
  }

  /** Both bounds are inclusive: a length within them, either bound included,
      gives the same report as a spec with no bounds at all. */
  lemma WithinBoundsPasses(c: Candidate, spec: Spec, stringify: JsValue -> string)
    requires WithinBounds(|c.text|, spec.bounds)
    ensures Check(c, spec.(bounds := Bounds(None, None)), stringify) == Check(c, spec, stringify)
  {
  }

  /** The first failing case, in index order, is the one reported; the cases
      after it and the hook make no difference. */
  lemma FirstFailureReported(c: Candidate, spec: Spec, stringify: JsValue -> string, k: nat,
                             rest: seq<seq<JsValue>>, hook: Hook)
    requires Truthy(c.value) && !NameMismatch(c.value, spec.name) && WithinBounds(|c.text|, spec.bounds)
    requires spec.cases.Some? && k < |spec.cases.value|
    requires Fails(c, spec.cases.value[k], stringify)
    requires forall j :: 0 <= j < k ==> !Fails(c, spec.cases.value[j], stringify)
    ensures Check(c, spec, stringify).verdict == Failed(CaseOutcome(c, spec.cases.value[k], stringify).value)
    ensures Check(c, spec.(cases := Some(spec.cases.value[..k + 1] + rest), hook := hook), stringify)
         == Check(c, spec, stringify)
  {
    var cs := spec.cases.value;
    var cs' := cs[..k + 1] + rest;
    LeastFailingIsFirst(c, cs, stringify, k);
    assert forall j :: 0 <= j <= k ==> cs'[j] == cs[j];
    LeastFailingIsFirst(c, cs', stringify, k);
  }

  /** A case fails exactly when its call throws or its serialised result differs
      from the serialised expected value; the message says which. */
  lemma CaseFailureMessage(c: Candidate, callCase: seq<JsValue>, stringify: JsValue -> string)
    ensures Fails(c, callCase, stringify) <==>
      c.call(Arguments(callCase)).Threw? || c.call(Arguments(callCase)).json != stringify(Expected(callCase))
    ensures c.call(Arguments(callCase)).Returned? && Fails(c, callCase, stringify) ==>
      CaseOutcome(c, callCase, stringify).value
        == CaseFailed(stringify(Expected(callCase)), c.call(Arguments(callCase)).json)
  {
  }

  /** An exercise passes exactly when the target exists, its name fits, its
      length is within bounds, every case matches and the hook does not throw;
      its summary is "No test cases" without cases and the case count with them. */
  lemma PassedExactly(c: Candidate, spec: Spec, stringify: JsValue -> string)
    ensures Check(c, spec, stringify).verdict.Passed? <==>
      && Truthy(c.value)
      && !NameMismatch(c.value, spec.name)
      && WithinBounds(|c.text|, spec.bounds)
      && (spec.cases.Some? ==> forall j :: 0 <= j < |spec.cases.value| ==> !Fails(c, spec.cases.value[j], stringify))
      && !spec.hook.HookThrows?
    ensures Check(c, spec, stringify).verdict.Passed? ==>
      Check(c, spec, stringify).verdict.summary
        == if spec.cases.None? then NoTestCases else PassedCases(|spec.cases.value|)
  {
    if spec.cases.Some? {
      FirstFailingNone(c, spec.cases.value, stringify);
    }
  }

  /** The hook runs last: a throwing hook turns an otherwise passing exercise
      into a failure carrying the hook's message verbatim. */
  lemma HookRunsLast(c: Candidate, spec: Spec, stringify: JsValue -> string, message: string)
    requires Check(c, spec.(hook := NoHook), stringify).verdict.Passed?
    ensures Check(c, spec.(hook := HookThrows(message)), stringify).verdict == Failed(message)
    ensures Check(c, spec.(hook := HookReturns), stringify) == Check(c, spec.(hook := NoHook), stringify)
  {
  }

  /** The case arrays' contents, in order. */
  function Contents(arrays: seq<JsArray>): (contents: seq<seq<JsValue>>)
    reads arrays
    ensures |contents| == |arrays|
    ensures forall j :: 0 <= j < |arrays| ==> contents[j] == arrays[j].elems
  {
    if arrays == [] then [] else [arrays[0].elems] + Contents(arrays[1..])
  }

  function CaseContents(cases: Option<seq<JsArray>>): Option<seq<seq<JsValue>>>
    reads if cases.Some? then cases.value else []
  {
    match cases
    case None => None
    case Some(arrays) => Some(Contents(arrays))
  }

  /** No array object stands for two cases. */
  ghost predicate Distinct(arrays: seq<JsArray>)
  {
    forall i, j :: 0 <= i < j < |arrays| ==> arrays[i] != arrays[j]
  }

  /** One iteration of the case loop: pop the expected value, call the target
      with what is left, compare the serialised values. */
  method RunCase(c: Candidate, callCase: JsArray, stringify: JsValue -> string) returns (failure: Option<string>)
    modifies callCase
    ensures failure == CaseOutcome(c, old(callCase.elems), stringify)
    ensures callCase.elems == Arguments(old(callCase.elems))
  {
    var expected := callCase.Pop();
    var expectedJson := stringify(expected);
    var result := c.call(callCase.elems);
    match result {
      case Threw(message) =>
        failure := Some(message);
      case Returned(json) =>
        failure := if json != expectedJson then Some(CaseFailed(expectedJson, json)) else None;
    }
  }

  /** How many cases the loop evaluates: up to and including the first failing one. */
  ghost function CasesReached(c: Candidate, cases: seq<seq<JsValue>>, stringify: JsValue -> string): nat
  {
    match FirstFailing(c, cases, stringify)
    case Some(k) => k + 1
    case None => |cases|
  }

  /** `for (const callCase of test.cases) …`: stops at the first failing case
      with its message; exactly the cases reached have been popped. */
  method RunCases(c: Candidate, arrays: seq<JsArray>, stringify: JsValue -> string) returns (failure: Option<string>)
    requires Distinct(arrays)
    modifies arrays
    ensures failure == match FirstFailing(c, old(Contents(arrays)), stringify)
                       case Some(k) => CaseOutcome(c, old(Contents(arrays))[k], stringify)
                       case None => None
    ensures forall j :: 0 <= j < |arrays| ==>
      arrays[j].elems ==
        if j < CasesReached(c, old(Contents(arrays)), stringify) then Arguments(old(arrays[j].elems))
        else old(arrays[j].elems)
  {
    ghost var before := Contents(arrays);
    for i := 0 to |arrays|
      invariant forall j :: 0 <= j < i ==> !Fails(c, before[j], stringify)
      invariant forall j :: 0 <= j < i ==> arrays[j].elems == Arguments(before[j])
      invariant forall j :: i <= j < |arrays| ==> arrays[j].elems == before[j]
    {
      assert forall j :: 0 <= j < |arrays| && j != i ==> arrays[j] != arrays[i];
      failure := RunCase(c, arrays[i], stringify);
      if failure.Some? {
        LeastFailingIsFirst(c, before, stringify, i);
        assert CasesReached(c, before, stringify) == i + 1;
        return;
      }
    }
    FirstFailingNone(c, before, stringify);
    assert CasesReached(c, before, stringify) == |arrays|;
    failure := None;
  }

  /** `executeTest` from the loaded target and spec: the report is `Check` of
      the spec as loaded, and exactly the case arrays evaluated have lost
      their last element. */
  method ExecuteTest(c: Candidate, name: string, bounds: Bounds, cases: Option<seq<JsArray>>, hook: Hook,
                     stringify: JsValue -> string)
      returns (report: Report)
    requires cases.Some? ==> Distinct(cases.value)
    modifies if cases.Some? then cases.value else []
    ensures report == Check(c, Spec(name, bounds, old(CaseContents(cases)), hook), stringify)
    ensures cases.Some? ==> forall j :: 0 <= j < |cases.value| ==>
      cases.value[j].elems ==
        if j < Evaluated(c, Spec(name, bounds, old(CaseContents(cases)), hook), stringify)
        then Arguments(old(cases.value[j].elems))
        else old(cases.value[j].elems)
  {
    if !Truthy(c.value) {
      return Report(None, Failed(NoImplementation));
    }
    if IsFunction(c.value) {
      if c.value.name != name {
        return Report(None, Failed(NotFound(name)));
      }
    }
    var targetLength := |c.text|;
    var lines := CountLines(c.text);
    var measure := Some(Measure(targetLength, lines));
    if Above(targetLength, bounds.max) {
      return Report(measure, Failed(TooLong));
    }
    if Below(targetLength, bounds.min) {
      return Report(measure, Failed(TooShort));
    }
    var casesResult := NoTestCases;
    if cases.Some? {
      var failure := RunCases(c, cases.value, stringify);
      if failure.Some? {
        return Report(measure, Failed(failure.value));
      }
      casesResult := PassedCases(|cases.value|);
    }
    if hook.HookThrows? {
      return Report(measure, Failed(hook.message));
    }
    report := Report(measure, Passed(casesResult));
  }
}
