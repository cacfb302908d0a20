/** Line handling for the pretty printer: Python's `str.split("\n")` and
    `sep.join(...)`, and `indent`, which prefixes every line of a text. */
module Indentation {

  /** The default indentation, two spaces. */
  const Indent2: string := "  "

  /** `s.split("\n")`: the text between newlines; never empty, and a text
      ending in a newline has an empty last line. */
  function Split(s: string): (lines: seq<string>)
    ensures |lines| >= 1
    ensures forall i :: 0 <= i < |lines| ==> '\n' !in lines[i]
  {
    if s == [] then [""]
    else if s[0] == '\n' then [""] + Split(s[1..])
    else
      var rest := Split(s[1..]);
      [[s[0]] + rest[0]] + rest[1..]
  }

  /** `sep.join(xs)`: nothing for no texts, and otherwise the first text comes first. */
  function Join(sep: string, xs: seq<string>): (r: string)
    ensures |xs| == 0 ==> r == ""
    ensures |xs| > 0 ==> |xs[0]| <= |r| && r[..|xs[0]|] == xs[0]
  {
    if |xs| == 0 then ""
    else if |xs| == 1 then xs[0]
    else xs[0] + sep + Join(sep, xs[1..])
  }

  /** Every line with `prefix` in front. */
  function Prefixed(lines: seq<string>, prefix: string): (r: seq<string>)
    ensures |r| == |lines|
    ensures forall i :: 0 <= i < |lines| ==> r[i] == prefix + lines[i]
  {
    seq(|lines|, i requires 0 <= i < |lines| => prefix + lines[i])
  }

  /** `indent(obj, indent)` applied to the text of `obj`: each line of `s`
      prefixed, the lines joined again with newlines. */
  function Indent(s: string, prefix: string): (r: string)
    ensures |prefix| <= |r| && r[..|prefix|] == prefix
    ensures s == "" ==> r == prefix
  {
    var lines := Prefixed(Split(s), prefix);
    assert lines[0][..|prefix|] == prefix;
    Join("\n", lines)
  }

  /** The lines of every text of `xs`, one after the other. */
  function SplitAll(xs: seq<string>): seq<string> {
    if |xs| == 0 then [] else Split(xs[0]) + SplitAll(xs[1..])
  }

  /** The concatenation of a sequence of line lists. */
  function Flatten(xss: seq<seq<string>>): (r: seq<string>)
    ensures |xss| > 0 && |xss[0]| > 0 ==> |r| > 0 && r[0] == xss[0][0]
  {
    if |xss| == 0 then [] else xss[0] + Flatten(xss[1..])
  }

  /** Number of newline characters in `s`. */
  function Newlines(s: string): nat {
    multiset(s)['\n']
  }

  // ----- splitting ---------------------------------------------------------

  /** A text without newlines is one line. */
  lemma {:induction false} SplitSingleLine(s: string)
    requires '\n' !in s
    ensures Split(s) == [s]
  {
    if s != [] {
      assert s[0] in s;
      SplitSingleLine(s[1..]);
      assert [s[0]] + s[1..] == s;
    }
  }

  /** Splitting at a newline: the lines of each side, in order. */
  lemma {:induction false} SplitAtNewline(a: string, b: string)
    ensures Split(a + "\n" + b) == Split(a) + Split(b)
  {
    if a == [] {
      assert a + "\n" + b == "\n" + b;
      assert ("\n" + b)[1..] == b;
    } else {
      assert (a + "\n" + b)[1..] == a[1..] + "\n" + b;
      SplitAtNewline(a[1..], b);
    }
  }

  /** One line more than there are newlines. */
  lemma {:induction false} SplitCount(s: string)
    ensures |Split(s)| == Newlines(s) + 1
  {
    if s != [] {
      assert s == [s[0]] + s[1..];
      assert multiset(s) == multiset([s[0]]) + multiset(s[1..]);
      SplitCount(s[1..]);
    }
  }

  lemma JoinCons(sep: string, x: string, ys: seq<string>)
    requires |ys| >= 1
    ensures Join(sep, [x] + ys) == x + sep + Join(sep, ys)
  {
    assert ([x] + ys)[1..] == ys;
  }

  /** Joining the lines of a text with newlines gives the text back. */
  lemma {:induction false} JoinSplit(s: string)
    ensures Join("\n", Split(s)) == s
  {
    if s == [] {
    } else if s[0] == '\n' {
      JoinSplit(s[1..]);
      JoinCons("\n", "", Split(s[1..]));
      assert s == "\n" + s[1..];
    } else {
      var rest := Split(s[1..]);
      JoinSplit(s[1..]);
      if |rest| == 1 {
        assert s == [s[0]] + rest[0];
      } else {
        JoinCons("\n", [s[0]] + rest[0], rest[1..]);
        JoinCons("\n", rest[0], rest[1..]);
        assert [rest[0]] + rest[1..] == rest;
        assert s == [s[0]] + s[1..];
      }
    }
  }

  /** Splitting newline-joined texts gives the lines of each, in order. */
  lemma {:induction false} SplitJoin(xs: seq<string>)
    requires |xs| >= 1
    ensures Split(Join("\n", xs)) == SplitAll(xs)
  {
    if |xs| == 1 {
      assert SplitAll(xs) == Split(xs[0]) + SplitAll([]);
    } else {
      SplitJoin(xs[1..]);
      SplitAtNewline(xs[0], Join("\n", xs[1..]));
    }
  }

  /** ... so newline-free lines survive a join and a split unchanged. */
  lemma {:induction false} SplitJoinLines(xs: seq<string>)
    requires |xs| >= 1
    requires forall i :: 0 <= i < |xs| ==> '\n' !in xs[i]
    ensures Split(Join("\n", xs)) == xs
  {
    SplitJoin(xs);
    SplitAllLines(xs);
  }

  lemma {:induction false} SplitAllLines(xs: seq<string>)
    requires forall i :: 0 <= i < |xs| ==> '\n' !in xs[i]
    ensures SplitAll(xs) == xs
  {
    if |xs| > 0 {
      SplitSingleLine(xs[0]);
      SplitAllLines(xs[1..]);
      assert [xs[0]] + xs[1..] == xs;
    }
  }

  /** SplitAll is the flattening of the lines of each text. */
  lemma {:induction false} SplitAllFlatten(xs: seq<string>, yss: seq<seq<string>>)
    requires |xs| == |yss|
    requires forall i :: 0 <= i < |xs| ==> Split(xs[i]) == yss[i]
    ensures SplitAll(xs) == Flatten(yss)
  {
    if |xs| > 0 {
      SplitAllFlatten(xs[1..], yss[1..]);
    }
  }

  // ----- indentation --------------------------------------------------------

  /** The lines of an indented text are the prefixed lines of the text. */
  lemma IndentLines(s: string, prefix: string)
    requires '\n' !in prefix
    ensures Split(Indent(s, prefix)) == Prefixed(Split(s), prefix)
  {
    var lines := Prefixed(Split(s), prefix);
    forall i | 0 <= i < |lines|
      ensures '\n' !in lines[i]
    {
      assert lines[i] == prefix + Split(s)[i];
    }
    SplitJoinLines(lines);
  }

  /** Indentation keeps the number of lines, and every line starts with the
      prefix. */
  lemma IndentShape(s: string, prefix: string)
    requires '\n' !in prefix
    ensures |Split(Indent(s, prefix))| == |Split(s)|
    ensures forall i :: 0 <= i < |Split(Indent(s, prefix))| ==>
      |prefix| <= |Split(Indent(s, prefix))[i]| && Split(Indent(s, prefix))[i][..|prefix|] == prefix
    ensures Newlines(Indent(s, prefix)) == Newlines(s)
  {
    IndentLines(s, prefix);
    SplitCount(s);
    SplitCount(Indent(s, prefix));
    var lines := Split(Indent(s, prefix));
    forall i | 0 <= i < |lines|
      ensures |prefix| <= |lines[i]| && lines[i][..|prefix|] == prefix
    {
      assert lines[i] == prefix + Split(s)[i];
    }
  }

  /** The empty text indents to the bare prefix. */
  lemma IndentEmpty(prefix: string)
    ensures Indent("", prefix) == prefix
  {
    assert Prefixed(Split(""), prefix) == [prefix + ""];
  }

  /** Removes `n` leading characters from every line of `s` that has them. */
  function Dedent(s: string, n: nat): string {
    var lines := Split(s);
    Join("\n", seq(|lines|, i requires 0 <= i < |lines| => if |lines[i]| >= n then lines[i][n..] else lines[i]))
  }

  /** Indentation is undone by removing the prefix length from every line. */
  lemma DedentIndent(s: string, prefix: string)
    requires '\n' !in prefix
    ensures Dedent(Indent(s, prefix), |prefix|) == s
  {
    IndentLines(s, prefix);
    var lines := Split(Indent(s, prefix));
    var stripped := seq(|lines|, i requires 0 <= i < |lines| => if |lines[i]| >= |prefix| then lines[i][|prefix|..] else lines[i]);
    forall i | 0 <= i < |lines|
      ensures stripped[i] == Split(s)[i]
    {
      assert lines[i] == prefix + Split(s)[i];
    }
    assert stripped == Split(s);
    JoinSplit(s);
  }
}
