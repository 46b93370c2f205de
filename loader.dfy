/** `loadFile`: how a file's text is wrapped before it is compiled, and which
    value a load yields. Compiling and running are oracles of the model. */
module Loader {
  import opened JsValues
  import opened Strings

  const ExpressionOpen := "() => ( "
  const ExpressionClose := " );"
  const StatementOpen := "() => { "
  const StatementClose := " };"

  /** Spec files are those whose name includes ".test" (`file.includes('.test')`). */
  predicate IsSpecFile(file: string)
  {
    Includes(file, ".test")
  }

  /** The wrapper: an expression body that returns `data`'s value for a spec
      file, a statement block otherwise. */
  function Wrap(data: string, isTest: bool): (src: string)
    ensures |src| == |data| + 11
    ensures src[8..|src| - 3] == data
    ensures StartsWith(src, "() => ")
  {
    if isTest then ExpressionOpen + data + ExpressionClose
    else StatementOpen + data + StatementClose
  }

  /** The wrapped source compiled for `file` holding `data`. */
  function Source(file: string, data: string): string
  {
    Wrap(data, IsSpecFile(file))
  }

  /** Recovers the wrapper kind and the wrapped text, if `src` has either shape. */
  function Unwrap(src: string): Option<(bool, string)>
  {
    if |src| < 11 then None
    else if src[..8] == ExpressionOpen && src[|src| - 3..] == ExpressionClose then Some((true, src[8..|src| - 3]))
    else if src[..8] == StatementOpen && src[|src| - 3..] == StatementClose then Some((false, src[8..|src| - 3]))
    else None
  }

  /** The wrapper kind and `data` can both be read back from the wrapped source,
      so wrapping is injective and `data` sits verbatim between prefix and suffix. */
  lemma UnwrapWrap(data: string, isTest: bool)
    ensures Unwrap(Wrap(data, isTest)) == Some((isTest, data))
  {
    var src := Wrap(data, isTest);
    if isTest {
      assert src[..8] == ExpressionOpen && src[|src| - 3..] == ExpressionClose;
    } else {
      assert src[..8] == StatementOpen && src[|src| - 3..] == StatementClose;
      assert src[..8] != ExpressionOpen by {
        assert src[6] == '{' && ExpressionOpen[6] == '(';
      }
    }
  }

  /** Every source of either shape is the wrapping of what `Unwrap` reads from it. */
  lemma WrapUnwrap(src: string, isTest: bool, data: string)
    requires Unwrap(src) == Some((isTest, data))
    ensures Wrap(data, isTest) == src
  {
    var open := if isTest then ExpressionOpen else StatementOpen;
    var close := if isTest then ExpressionClose else StatementClose;
    assert src == src[..8] + src[8..|src| - 3] + src[|src| - 3..];
    assert src == open + data + close;
  }

  /** `exported ? exported : result`: the export slot wins whenever it is truthy,
      including an object with no properties at all. */
  function SelectExport(exported: JsValue, result: JsValue): (v: JsValue)
    ensures Truthy(exported) ==> v == exported
    ensures !Truthy(exported) ==> v == result
    ensures Truthy(v) <==> Truthy(exported) || Truthy(result)
  {
    if Truthy(exported) then exported else result
  }

  /** A load can only yield a falsy value when both candidates are falsy; an
      empty export object is still chosen over the wrapper's return value. */
  lemma EmptyExportWins(id: nat, result: JsValue)
    ensures SelectExport(Object(id), result) == Object(id)
    ensures SelectExport(Undefined, result) == result
  {
  }

  /** What running the compiled wrapper in a fresh sandbox produced: its return
      value and the sandbox's `module.exports` (`undefined` when never set), or
      an abort: anything thrown while running. No time limit applies to the
      file's statements, so `Aborted` never stands for a timeout. */
  datatype RunOutcome = Completed(result: JsValue, exports: JsValue) | Aborted

  /** A load either yields a value or ends the process with a message. */
  datatype LoadOutcome = Loaded(value: JsValue) | Fatal(message: string)

  const ParsingError := "Parsing error"
  const ExecutionTimeout := "Execution timeout"

  /** `loadFile`: wrap, compile (`compiles`), run (`run`), then choose the export.
      Compilation is checked first, so a source that does not compile ends the
      process whatever running it would do. */
  function Load(file: string, data: string, compiles: string -> bool, run: string -> RunOutcome): (r: LoadOutcome)
    ensures !compiles(Source(file, data)) ==> r == Fatal(ParsingError)
    ensures compiles(Source(file, data)) && run(Source(file, data)).Aborted? ==> r == Fatal(ExecutionTimeout)
    ensures r.Fatal? <==> !compiles(Source(file, data)) || run(Source(file, data)).Aborted?
    ensures r.Loaded? ==> r.value in {run(Source(file, data)).result, run(Source(file, data)).exports}
    ensures compiles(Source(file, data)) && run(Source(file, data)).Completed? ==>
      r == Loaded(SelectExport(run(Source(file, data)).exports, run(Source(file, data)).result))
  {
    var src := Source(file, data);
    if !compiles(src) then Fatal(ParsingError)
    else match run(src)
      case Aborted => Fatal(ExecutionTimeout)
      case Completed(result, exports) => Loaded(SelectExport(exports, result))
  }

  /** `./${name}.js`, the implementation file of exercise `name` */
  function ScriptPath(name: string): string
  {
    "./" + name + ".js"
  }

  /** `./${name}.test`, the spec file of exercise `name` */
  function SpecPath(name: string): string
  {
    "./" + name + ".test"
  }

  /** The spec file of every exercise is wrapped as an expression. */
  lemma SpecFileIsExpression(name: string, data: string)
    ensures Source(SpecPath(name), data) == Wrap(data, true)
  {
    assert SpecPath(name) == ("./" + name) + ".test";
    IncludesSuffix("./" + name, ".test");
  }

  /** The implementation file is wrapped as statements exactly when the
      exercise name does not itself contain ".test". */
  lemma ScriptFileWrapping(name: string, data: string)
    ensures Source(ScriptPath(name), data) == Wrap(data, Includes(name, ".test"))
  {
    IncludesTestInScriptPath(name);
  }
}
