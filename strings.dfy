/** The `String.prototype` tests the checker uses on names and paths. */
module Strings {

  /** `s.startsWith(p)` */
  predicate StartsWith(s: string, p: string)
  {
    |p| <= |s| && s[..|p|] == p
  }

  /** `s.endsWith(p)` */
  predicate EndsWith(s: string, p: string)
  {
    |p| <= |s| && s[|s| - |p|..] == p
  }

  /** `p` occurs in `s` starting at index `i` */
  predicate OccursAt(s: string, p: string, i: int)
  {
    0 <= i && i + |p| <= |s| && s[i..i + |p|] == p
  }

  /** `s.includes(p)`: `p` is a prefix of some suffix of `s` */
  predicate Includes(s: string, p: string)
    decreases |s|
  {
    StartsWith(s, p) || (|s| > 0 && Includes(s[1..], p))
  }

  /** `Includes` holds exactly when there is an index at which `p` occurs. */
  lemma {:induction false} IncludesOccurs(s: string, p: string)
    ensures Includes(s, p) <==> exists i :: OccursAt(s, p, i)
    decreases |s|
  {
    if Includes(s, p) {
      if StartsWith(s, p) {
        assert OccursAt(s, p, 0);
      } else {
        IncludesOccurs(s[1..], p);
        var i :| OccursAt(s[1..], p, i);
        assert s[1..][i..i + |p|] == s[i + 1..i + 1 + |p|];
        assert OccursAt(s, p, i + 1);
      }
    }
    if exists i :: OccursAt(s, p, i) {
      var i :| OccursAt(s, p, i);
      if i == 0 {
        assert StartsWith(s, p);
      } else {
        assert s[1..][i - 1..i - 1 + |p|] == s[i..i + |p|];
        assert OccursAt(s[1..], p, i - 1);
        IncludesOccurs(s[1..], p);
      }
    }
  }

  /** A string includes each of its suffixes. */
  lemma IncludesSuffix(a: string, p: string)
    ensures Includes(a + p, p)
  {
    assert OccursAt(a + p, p, |a|);
    IncludesOccurs(a + p, p);
  }

  /** The characters of the path `"./" + x + ".js"`, index by index. */
  lemma ScriptPathChars(x: string, s: string)
    requires s == "./" + x + ".js"
    ensures |s| == |x| + 5 && s[0] == '.' && s[1] == '/' && s[|x| + 2] == '.'
    ensures forall k :: 0 <= k < |x| ==> s[k + 2] == x[k]
  {
  }

  /** An occurrence of ".test" in the path lies inside `x`. */
  lemma OccurrenceInScriptPath(x: string, s: string, i: int)
    requires |s| == |x| + 5 && s[0] == '.' && s[1] == '/' && s[|x| + 2] == '.'
    requires forall k :: 0 <= k < |x| ==> s[k + 2] == x[k]
    requires OccursAt(s, ".test", i)
    ensures OccursAt(x, ".test", i - 2)
  {
    var w := s[i..i + 5];
    assert w == ".test";
    assert w[0] == s[i] && w[1] == s[i + 1];
    assert 2 <= i <= |x| - 3;
    assert forall k :: 0 <= k < 5 ==> x[i - 2 + k] == w[k];
    assert x[i - 2..i + 3] == w;
  }

  /** A string of the form `"./" + x + ".js"` includes ".test" exactly when `x` does:
      no occurrence can straddle the fixed prefix or suffix. */
  lemma IncludesTestInScriptPath(x: string)
    ensures Includes("./" + x + ".js", ".test") <==> Includes(x, ".test")
  {
    var s := "./" + x + ".js";
    ScriptPathChars(x, s);
    IncludesOccurs(s, ".test");
    IncludesOccurs(x, ".test");
    if i :| OccursAt(x, ".test", i) {
      assert s[i + 2..i + 7] == x[i..i + 5];
      assert OccursAt(s, ".test", i + 2);
    }
    if i :| OccursAt(s, ".test", i) {
      OccurrenceInScriptPath(x, s, i);
    }
  }
}
