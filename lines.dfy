/** `countLines`: the line count reported beside the candidate's length. */
module Lines {

  /** The number of '\n' characters in `s`, counted from the right end. */
  function Newlines(s: string): nat
  {
    if s == [] then 0
    else Newlines(s[..|s| - 1]) + (if s[|s| - 1] == '\n' then 1 else 0)
  }

  /** The indices of `s` that hold a '\n'. */
  ghost function NewlineIndices(s: string): set<nat>
  {
    set i: nat | i < |s| && s[i] == '\n'
  }

  /** `countLines(s)`: starts at 1 and adds one per '\n' character. */
  method CountLines(s: string) returns (count: nat)
    ensures count == 1 + Newlines(s)
    ensures count == 1 + |NewlineIndices(s)|
    ensures 1 <= count <= |s| + 1
    ensures s == "" ==> count == 1
  {
    count := 1;
    for i := 0 to |s|
      invariant count == 1 + Newlines(s[..i])
    {
      assert s[..i + 1][..i] == s[..i];
      if s[i] == '\n' {
        count := count + 1;
      }
    }
    assert s[..|s|] == s;
    NewlinesBound(s);
    NewlinesAreIndices(s);
  }

  lemma {:induction false} NewlinesBound(s: string)
    ensures Newlines(s) <= |s|
  {
    if s != [] {
      NewlinesBound(s[..|s| - 1]);
    }
  }

  /** The recursive count agrees with the number of indices holding '\n'. */
  lemma {:induction false} NewlinesAreIndices(s: string)
    ensures Newlines(s) == |NewlineIndices(s)|
  {
    if s != [] {
      var t := s[..|s| - 1];
      NewlinesAreIndices(t);
      var last: nat := |s| - 1;
      if s[last] == '\n' {
        assert NewlineIndices(s) == NewlineIndices(t) + {last};
        assert last !in NewlineIndices(t);
      } else {
        assert NewlineIndices(s) == NewlineIndices(t);
      }
    }
  }

  /** Counting is additive over concatenation. */
  lemma {:induction false} NewlinesConcat(a: string, b: string)
    ensures Newlines(a + b) == Newlines(a) + Newlines(b)
    decreases |b|
  {
    if b == [] {
      assert a + b == a;
    } else {
      assert (a + b)[..|a + b| - 1] == a + b[..|b| - 1];
      NewlinesConcat(a, b[..|b| - 1]);
    }
  }

  /** Joining two texts with a '\n' gives as many lines as the two together. */
  lemma LinesOfJoin(a: string, b: string)
    ensures 1 + Newlines(a + "\n" + b) == (1 + Newlines(a)) + (1 + Newlines(b))
  {
    NewlinesConcat(a + "\n", b);
    NewlinesConcat(a, "\n");
    assert Newlines("\n") == 1 by {
      assert "\n"[..0] == "";
    }
  }
}
