/** Where the exercises live and which of the listed files name an exercise. */
module Discovery {
  import opened Strings

  const ExercisesSuffix := "/Exercises"
  const TestSuffix := ".test"

  /** `dir`: the working directory itself if it already includes "/Exercises",
      otherwise its "/Exercises" sub-directory. */
  function ExercisesDir(cwd: string): (dir: string)
    ensures StartsWith(dir, cwd)
    ensures Includes(dir, ExercisesSuffix)
    ensures dir == cwd <==> Includes(cwd, ExercisesSuffix)
    ensures !Includes(cwd, ExercisesSuffix) ==> dir == cwd + ExercisesSuffix
  {
    if Includes(cwd, ExercisesSuffix) then cwd
    else
      IncludesSuffix(cwd, ExercisesSuffix);
      assert (cwd + ExercisesSuffix)[..|cwd|] == cwd;
      cwd + ExercisesSuffix
  }

  /** Choosing the directory a second time changes nothing. */
  lemma ExercisesDirIdempotent(cwd: string)
    ensures ExercisesDir(ExercisesDir(cwd)) == ExercisesDir(cwd)
  {
  }

  /** `files.filter(file => file.endsWith('.test'))`, in listing order. */
  function TestFiles(files: seq<string>): (tests: seq<string>)
    ensures |tests| <= |files|
    ensures forall f :: f in tests <==> f in files && EndsWith(f, TestSuffix)
  {
    if files == [] then []
    else (if EndsWith(files[0], TestSuffix) then [files[0]] else []) + TestFiles(files[1..])
  }

  /** `file.substring(0, file.length - '.test'.length)` */
  function StripTest(file: string): (name: string)
    requires EndsWith(file, TestSuffix)
    ensures name + TestSuffix == file
  {
    assert file == file[..|file| - 5] + file[|file| - 5..];
    file[..|file| - 5]
  }

  /** `.map(...)` of `StripTest` over a list of spec files. */
  function StripAll(tests: seq<string>): (names: seq<string>)
    requires forall f :: f in tests ==> EndsWith(f, TestSuffix)
    ensures |names| == |tests|
    ensures forall k :: 0 <= k < |tests| ==> names[k] + TestSuffix == tests[k]
  {
    if tests == [] then [] else [StripTest(tests[0])] + StripAll(tests[1..])
  }

  /** The exercise names, in listing order. */
  function TestNames(files: seq<string>): seq<string>
  {
    StripAll(TestFiles(files))
  }

  /** Filtering keeps the listing order: it distributes over concatenation. */
  lemma {:induction false} TestFilesConcat(a: seq<string>, b: seq<string>)
    ensures TestFiles(a + b) == TestFiles(a) + TestFiles(b)
  {
    if a == [] {
      assert a + b == b;
    } else {
      assert (a + b)[1..] == a[1..] + b;
      TestFilesConcat(a[1..], b);
    }
  }

  /** Each name is its spec file with the suffix removed, position by position. */
  lemma TestNamesRoundTrip(files: seq<string>)
    ensures |TestNames(files)| == |TestFiles(files)|
    ensures forall k :: 0 <= k < |TestFiles(files)| ==> TestNames(files)[k] + TestSuffix == TestFiles(files)[k]
  {
  }

  /** `name` is discovered exactly when the listing holds `name + ".test"`. */
  lemma TestNameMembership(files: seq<string>, name: string)
    ensures name in TestNames(files) <==> name + TestSuffix in files
  {
    var tests, names := TestFiles(files), TestNames(files);
    if name in names {
      var k :| 0 <= k < |names| && names[k] == name;
      assert tests[k] in tests;
    }
    var f := name + TestSuffix;
    if f in files {
      assert f[|f| - 5..] == TestSuffix;
      assert f in tests;
      var k :| 0 <= k < |tests| && tests[k] == f;
      assert names[k] + TestSuffix == f;
      assert names[k] == f[..|f| - 5] == name;
    }
  }

  /** Names are listed in the order of their files: discovery distributes over
      concatenation of listings. */
  lemma {:induction false} TestNamesConcat(a: seq<string>, b: seq<string>)
    ensures TestNames(a + b) == TestNames(a) + TestNames(b)
  {
    TestFilesConcat(a, b);
    StripAllConcat(TestFiles(a), TestFiles(b));
  }

  lemma {:induction false} StripAllConcat(x: seq<string>, y: seq<string>)
    requires forall f :: f in x ==> EndsWith(f, TestSuffix)
    requires forall f :: f in y ==> EndsWith(f, TestSuffix)
    ensures StripAll(x + y) == StripAll(x) + StripAll(y)
  {
    if x == [] {
      assert x + y == y;
    } else {
      assert (x + y)[1..] == x[1..] + y;
      StripAllConcat(x[1..], y);
    }
  }
}
