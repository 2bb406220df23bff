/**
 * Python's `"\n".join(lines)` and `s.split("\n")` on strings, as used to assemble the
 * diagram description (backend/main.py, format_diagram_for_analysis).
 */
module Text {
  /** `"\n".join(lines)`: the lines with a newline between each two. */
  function Join(lines: seq<string>): (text: string)
  {
    if |lines| == 0 then ""
    else if |lines| == 1 then lines[0]
    else lines[0] + "\n" + Join(lines[1..])
  }

  /** The position of the first `c` in `s`: `s.index(c)`. */
  function IndexOf<T(==)>(s: seq<T>, c: T): (i: nat)
    requires c in s
    ensures i < |s| && s[i] == c && c !in s[..i]
  {
    if s[0] == c then 0
    else
      assert c in s[1..] by { assert s == [s[0]] + s[1..]; }
      var j := IndexOf(s[1..], c);
      assert s[..j + 1] == [s[0]] + s[1..][..j];
      j + 1
  }

  /** The first position of `c` is `k` when `s[k]` is `c` and no entry before it is. */
  lemma IndexOfAt<T>(s: seq<T>, c: T, k: nat)
    requires k < |s| && s[k] == c && c !in s[..k]
    ensures IndexOf(s, c) == k
  {
    var i := IndexOf(s, c);
    assert forall j :: 0 <= j < k ==> s[..k][j] == s[j];
    assert forall j :: 0 <= j < i ==> s[..i][j] == s[j];
  }

  /** Appending an entry leaves the first position of one already present. */
  lemma IndexOfExtend<T>(s: seq<T>, y: T, c: T)
    requires c in s
    ensures IndexOf(s + [y], c) == IndexOf(s, c)
  {
    var k := IndexOf(s, c);
    assert (s + [y])[..k] == s[..k];
    IndexOfAt(s + [y], c, k);
  }

  /** An appended entry that was absent is first found at the end. */
  lemma IndexOfLast<T>(s: seq<T>, c: T)
    requires c !in s
    ensures IndexOf(s + [c], c) == |s|
  {
    assert (s + [c])[..|s|] == s;
    IndexOfAt(s + [c], c, |s|);
  }

  /** `s.split("\n")`: the pieces between newlines; a string without one is a single piece. */
  function Split(s: string): (r: seq<string>)
    ensures |r| > 0
    decreases |s|
  {
    if '\n' !in s then [s]
    else
      var i := IndexOf(s, '\n');
      [s[..i]] + Split(s[i + 1..])
  }

  /** Joining two non-empty lists of lines puts one newline between the two texts. */
  lemma {:induction false} JoinAppend(a: seq<string>, b: seq<string>)
    requires |a| > 0 && |b| > 0
    ensures Join(a + b) == Join(a) + "\n" + Join(b)
  {
    if |a| == 1 {
      assert (a + b)[1..] == b;
    } else {
      assert (a + b)[1..] == a[1..] + b;
      JoinAppend(a[1..], b);
    }
  }

  /** The first newline of `x + "\n" + y` ends `x` when `x` has none. */
  lemma FirstNewline(x: string, y: string)
    requires '\n' !in x
    ensures var s := x + "\n" + y; '\n' in s && IndexOf(s, '\n') == |x|
  {
    var s := x + "\n" + y;
    assert s[|x|] == '\n';
    assert s[..|x|] == x;
    assert forall k :: 0 <= k < |x| ==> s[k] == x[k];
  }

  /** No line of `lines` contains a newline. */
  ghost predicate SingleLines(lines: seq<string>)
  {
    forall k :: 0 <= k < |lines| ==> '\n' !in lines[k]
  }

  /** A list of lines is newline-free exactly when both of its parts are. */
  lemma SingleLinesAppend(a: seq<string>, b: seq<string>)
    ensures SingleLines(a + b) <==> SingleLines(a) && SingleLines(b)
  {
    if SingleLines(a) && SingleLines(b) {
      forall k | 0 <= k < |a + b|
        ensures '\n' !in (a + b)[k]
      {
        if k >= |a| {
          assert (a + b)[k] == b[k - |a|];
        }
      }
    }
    if SingleLines(a + b) {
      forall k | 0 <= k < |a|
        ensures '\n' !in a[k]
      {
        assert (a + b)[k] == a[k];
      }
      forall k | 0 <= k < |b|
        ensures '\n' !in b[k]
      {
        assert (a + b)[|a| + k] == b[k];
      }
    }
  }

  /** A newline in front of a line, regrouped as a blank line and a separator. */
  lemma Regroup(line: string, rest: string)
    ensures ("\n" + line) + "\n" + rest == "" + "\n" + (line + "\n" + rest)
  {
  }

  /**
   * A line that starts with a newline joins to the same text as a blank line followed by
   * the rest of it.
   */
  lemma LeadingNewline(head: seq<string>, line: string, tail: seq<string>)
    requires |head| > 0 && |tail| > 0
    ensures Join(head + (["\n" + line] + tail)) == Join(head + (["", line] + tail))
  {
    LeadingNewlineAlone(line, tail);
    JoinAppend(head, ["\n" + line] + tail);
    JoinAppend(head, ["", line] + tail);
  }

  /** The same, with nothing in front. */
  lemma LeadingNewlineAlone(line: string, tail: seq<string>)
    requires |tail| > 0
    ensures Join(["\n" + line] + tail) == Join(["", line] + tail)
  {
    calc {
      Join(["\n" + line] + tail);
    == { JoinCons("\n" + line, tail); }
      ("\n" + line) + "\n" + Join(tail);
    == { Regroup(line, Join(tail)); }
      "" + "\n" + (line + "\n" + Join(tail));
    == { JoinCons(line, tail); }
      "" + "\n" + Join([line] + tail);
    == { JoinCons("", [line] + tail); }
      Join([""] + ([line] + tail));
    == { PairFront("", line, tail); }
      Join(["", line] + tail);
    }
  }

  /** Two leading elements, one at a time. */
  lemma PairFront<T>(a: T, b: T, rest: seq<T>)
    ensures [a] + ([b] + rest) == [a, b] + rest
  {
  }

  /** A line in front of at least one more is followed by a newline. */
  lemma JoinCons(x: string, rest: seq<string>)
    requires |rest| > 0
    ensures Join([x] + rest) == x + "\n" + Join(rest)
  {
    assert ([x] + rest)[1..] == rest;
  }

  /** Splitting undoes joining when no line contains a newline. */
  lemma {:induction false} SplitJoin(lines: seq<string>)
    requires |lines| > 0
    requires SingleLines(lines)
    ensures Split(Join(lines)) == lines
  {
    if |lines| > 1 {
      var x, rest := lines[0], lines[1..];
      var s := x + "\n" + Join(rest);
      FirstNewline(x, Join(rest));
      assert s[..|x|] == x;
      assert s[|x| + 1..] == Join(rest);
      SplitJoin(rest);
      assert lines == [x] + rest;
    }
  }
}
