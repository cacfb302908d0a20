/** The indented pretty printer of the syntax tree (the `__str__` methods of
    the AST classes): a header line, then every child's text indented by two
    spaces. */
module Printer {
  import opened Wrappers
  import opened Ast
  import opened Indentation

  // ----- Python's repr of a string --------------------------------------------

  /** Characters repr writes with a backslash escape. */
  predicate Special(c: char) {
    c == '\\' || c == '\'' || c == '"' || c == '\n' || c == '\r' || c == '\t'
  }

  /** The character a backslash followed by `x` stands for in a Python string
      literal, for the escapes repr writes. */
  function EscapeCode(x: char): (c: Option<char>)
    ensures c.Some? ==> Special(c.value)
  {
    if x == '\\' then Some('\\')
    else if x == '\'' then Some('\'')
    else if x == '"' then Some('"')
    else if x == 'n' then Some('\n')
    else if x == 'r' then Some('\r')
    else if x == 't' then Some('\t')
    else None
  }

  /** One character as repr writes it inside `quote`: backslash, the quote
      itself and the three control characters become a backslash escape that
      reads back as the character; everything else, the other quote
      included, stays as it is. */
  function EscapeChar(c: char, quote: char): (e: string)
    requires quote == '\'' || quote == '"'
    ensures '\n' !in e
    ensures !Special(c) ==> e == [c]
    ensures |e| == 2 <==> c == '\\' || c == quote || c == '\n' || c == '\r' || c == '\t'
    ensures |e| == 2 ==> e[0] == '\\' && EscapeCode(e[1]) == Some(c)
    ensures |e| != 2 ==> e == [c] && c != '\\' && c != quote
  {
    if c == '\\' then "\\\\"
    else if c == '\n' then "\\n"
    else if c == '\r' then "\\r"
    else if c == '\t' then "\\t"
    else if c == quote then ['\\', c]
    else [c]
  }

  function Escape(s: string, quote: char): (e: string)
    requires quote == '\'' || quote == '"'
    ensures '\n' !in e
  {
    if s == [] then [] else EscapeChar(s[0], quote) + Escape(s[1..], quote)
  }

  /** `repr(s)`: single quotes, unless the text holds a single quote and no
      double quote; backslash, the chosen quote and the control characters
      newline, carriage return and tab are escaped. */
  function Repr(s: string): (r: string)
    ensures '\n' !in r
    ensures |r| >= 2 && r[0] == r[|r| - 1] && (r[0] == '\'' || r[0] == '"')
  {
    var quote := if '\'' in s && '"' !in s then '"' else '\'';
    [quote] + Escape(s, quote) + [quote]
  }

  /** `repr(names)` of a list of strings. */
  function ReprList(names: seq<string>): (r: string)
    ensures '\n' !in r
    ensures |r| >= 2 && r[0] == '[' && r[|r| - 1] == ']'
  {
    "[" + ReprItems(names) + "]"
  }

  function ReprItems(names: seq<string>): (r: string)
    ensures '\n' !in r
  {
    if |names| == 0 then ""
    else if |names| == 1 then Repr(names[0])
    else Repr(names[0]) + ", " + ReprItems(names[1..])
  }

  /** Reading the inside of a literal quoted with `quote` back: a backslash
      escape gives the character it stands for, an unescaped quote or an
      unknown escape is malformed, and every other character stands for
      itself. */
  function Unescape(e: string, quote: char): (s: Option<string>)
    ensures s.Some? ==> |s.value| <= |e|
    decreases |e|
  {
    if e == [] then Some([])
    else if e[0] == '\\' then
      if |e| < 2 || EscapeCode(e[1]).None? then None
      else match Unescape(e[2..], quote)
        case None => None
        case Some(rest) => Some([EscapeCode(e[1]).value] + rest)
    else if e[0] == quote then None
    else match Unescape(e[1..], quote)
      case None => None
      case Some(rest) => Some([e[0]] + rest)
  }

  /** Reading a repr back: the text between matching outer quotes. */
  function Unrepr(r: string): (s: Option<string>)
    ensures s.Some? ==> |s.value| + 2 <= |r|
  {
    if |r| >= 2 && r[0] == r[|r| - 1] && (r[0] == '\'' || r[0] == '"') then Unescape(r[1..|r| - 1], r[0])
    else None
  }

  /** One escaped character, then anything, reads back as that character
      followed by what the rest reads back as. */
  lemma UnescapeChar(c: char, quote: char, rest: string)
    requires quote == '\'' || quote == '"'
    ensures Unescape(EscapeChar(c, quote) + rest, quote) ==
      match Unescape(rest, quote)
      case None => None
      case Some(t) => Some([c] + t)
  {
    var e := EscapeChar(c, quote);
    if |e| == 2 {
      assert (e + rest)[2..] == rest;
    } else {
      assert (e + rest)[1..] == rest;
    }
  }

  /** Escaping can be undone: the escaped text reads back as the original. */
  lemma {:induction false} EscapeRoundTrip(s: string, quote: char)
    requires quote == '\'' || quote == '"'
    ensures Unescape(Escape(s, quote), quote) == Some(s)
  {
    if s != [] {
      EscapeRoundTrip(s[1..], quote);
      UnescapeChar(s[0], quote, Escape(s[1..], quote));
      assert [s[0]] + s[1..] == s;
    }
  }

  /** Every string's repr reads back as that string. */
  lemma ReprRoundTrip(s: string)
    ensures Unrepr(Repr(s)) == Some(s)
  {
    var r := Repr(s);
    EscapeRoundTrip(s, r[0]);
    assert r[1..|r| - 1] == Escape(s, r[0]);
  }

  /** The reprs of a list of strings, one per item. */
  function Reprs(names: seq<string>): (rs: seq<string>)
    ensures |rs| == |names|
    ensures forall i :: 0 <= i < |names| ==> rs[i] == Repr(names[i])
  {
    seq(|names|, i requires 0 <= i < |names| => Repr(names[i]))
  }

  /** `repr` of a list is its items' reprs joined by ", " between brackets. */
  lemma ReprListJoin(names: seq<string>)
    ensures ReprList(names) == "[" + Join(", ", Reprs(names)) + "]"
  {
    ReprItemsJoin(names);
  }

  lemma {:induction false} ReprItemsJoin(names: seq<string>)
    ensures ReprItems(names) == Join(", ", Reprs(names))
    decreases |names|
  {
    if |names| >= 2 {
      ReprItemsJoin(names[1..]);
      assert Reprs(names) == [Repr(names[0])] + Reprs(names[1..]);
      JoinCons(", ", Repr(names[0]), Reprs(names[1..]));
    }
  }

  /** Escaping leaves a text without special characters as it is. */
  lemma {:induction false} EscapePlain(s: string, quote: char)
    requires quote == '\'' || quote == '"'
    requires forall i :: 0 <= i < |s| ==> !Special(s[i])
    ensures Escape(s, quote) == s
  {
    if s != [] {
      EscapePlain(s[1..], quote);
      assert [s[0]] + s[1..] == s;
    }
  }

  /** An identifier is printed between single quotes, unchanged. */
  lemma ReprPlain(s: string)
    requires forall i :: 0 <= i < |s| ==> !Special(s[i])
    ensures Repr(s) == "'" + s + "'"
  {
    EscapePlain(s, '\'');
    assert forall i :: 0 <= i < |s| ==> s[i] != '\'';
  }

  // ----- the tree printer ------------------------------------------------------

  /** `str(n)`. Block, IfExpr, FuncDef and Assign have their own layout; the
      text of every other node comes from `leaf`. A missing else branch is
      Python's None. */
  function Render(n: Node, leaf: Node -> string): (r: string)
    ensures !HasLayout(n) ==> r == leaf(n)
    decreases n
  {
    match n
    case Block(ss) =>
      "BLOCK\n" + Join("\n", seq(|ss|, i requires 0 <= i < |ss| => Indent(Render(ss[i], leaf), Indent2)))
    case IfExpr(c, t, e) =>
      "IF\n" + Indent(Render(c, leaf), Indent2) + "\n" + Indent(Render(t, leaf), Indent2) + "\n" + Indent(ElseText(e, leaf), Indent2)
    case FuncDef(name, ps, body) =>
      "FUNC " + Repr(name) + " " + ReprList(ps) + ":\n" + Indent(Render(body, leaf), Indent2)
    case Assign(name, v) =>
      "ASSIGN " + Repr(name) + "\n" + Indent(Render(v, leaf), Indent2)
    case _ => leaf(n)
  }

  /** The text of an else branch; Python prints a missing one as None. */
  function ElseText(e: Option<Node>, leaf: Node -> string): (r: string)
    ensures e.None? ==> r == "None"
    ensures e.Some? ==> r == Render(e.value, leaf)
    decreases e
  {
    match e
    case Some(x) => Render(x, leaf)
    case None => "None"
  }

  /** The first line of a node with its own layout. */
  function Header(n: Node): (h: string)
    ensures '\n' !in h
  {
    match n
    case Block(_) => "BLOCK"
    case IfExpr(_, _, _) => "IF"
    case FuncDef(name, ps, _) => "FUNC " + Repr(name) + " " + ReprList(ps) + ":"
    case Assign(name, _) => "ASSIGN " + Repr(name)
    case _ => ""
  }

  predicate HasLayout(n: Node) {
    n.Block? || n.IfExpr? || n.FuncDef? || n.Assign?
  }

  /** A node with its own layout prints its header line first, ended by a
      newline. */
  lemma RenderHeader(n: Node, leaf: Node -> string)
    requires HasLayout(n)
    ensures |Header(n)| < |Render(n, leaf)| && Render(n, leaf)[..|Header(n)| + 1] == Header(n) + "\n"
  {
    var rest := HeaderRest(n, leaf);
    FirstLine(Header(n), rest);
  }

  /** What a node with its own layout prints after its header line. */
  lemma HeaderRest(n: Node, leaf: Node -> string) returns (rest: string)
    requires HasLayout(n)
    ensures Render(n, leaf) == Header(n) + "\n" + rest
  {
    match n
    case Block(ss) => rest := BlockRest(ss, leaf);
    case IfExpr(c, t, e) => rest := IfRest(c, t, e, leaf);
    case FuncDef(name, ps, body) => rest := OneChildRest(n, body, leaf);
    case Assign(name, v) => rest := OneChildRest(n, v, leaf);
  }

  lemma OneChildRest(n: Node, child: Node, leaf: Node -> string) returns (rest: string)
    requires (n.FuncDef? && child == n.body) || (n.Assign? && child == n.value)
    ensures Render(n, leaf) == Header(n) + "\n" + rest
  {
    rest := Indent(Render(child, leaf), Indent2);
  }

  lemma BlockRest(ss: seq<Node>, leaf: Node -> string) returns (rest: string)
    ensures Render(Block(ss), leaf) == Header(Block(ss)) + "\n" + rest
  {
    rest := Join("\n", seq(|ss|, i requires 0 <= i < |ss| => Indent(Render(ss[i], leaf), Indent2)));
    assert "BLOCK" + "\n" == "BLOCK\n";
  }

  lemma IfRest(c: Node, t: Node, e: Option<Node>, leaf: Node -> string) returns (rest: string)
    ensures Render(IfExpr(c, t, e), leaf) == Header(IfExpr(c, t, e)) + "\n" + rest
  {
    IfText(c, t, e, leaf);
    var a, b, d := Indent(Render(c, leaf), Indent2), Indent(Render(t, leaf), Indent2), Indent(ElseText(e, leaf), Indent2);
    rest := a + "\n" + (b + "\n" + d);
    LinesNest("IF", a, b, d);
  }

  /** Four lines joined by newlines, regrouped from the right. */
  lemma LinesNest(h: string, a: string, b: string, d: string)
    ensures h + "\n" + a + "\n" + b + "\n" + d == h + "\n" + (a + "\n" + (b + "\n" + d))
  {
  }

  /** A header, a newline and the rest begin with the header and the newline. */
  lemma FirstLine(h: string, rest: string)
    ensures |h| < |h + "\n" + rest| && (h + "\n" + rest)[..|h| + 1] == h + "\n"
  {
    assert (h + "\n" + rest)[..|h| + 1] == h + "\n";
  }

  function ElseLines(e: Option<Node>, leaf: Node -> string): seq<string>
    decreases e
  {
    match e
    case Some(x) => Outline(x, leaf)
    case None => ["None"]
  }

  /** The printed lines, defined line by line: the header, then the lines of
      every child with two spaces in front. An empty block has one empty line
      under its header. */
  function Outline(n: Node, leaf: Node -> string): (lines: seq<string>)
    decreases n
  {
    match n
    case Block(ss) =>
      if |ss| == 0 then [Header(n), ""]
      else [Header(n)] + Flatten(seq(|ss|, i requires 0 <= i < |ss| => Prefixed(Outline(ss[i], leaf), Indent2)))
    case IfExpr(c, t, e) =>
      [Header(n)] + Prefixed(Outline(c, leaf), Indent2) + Prefixed(Outline(t, leaf), Indent2) + Prefixed(ElseLines(e, leaf), Indent2)
    case FuncDef(_, _, body) => [Header(n)] + Prefixed(Outline(body, leaf), Indent2)
    case Assign(_, v) => [Header(n)] + Prefixed(Outline(v, leaf), Indent2)
    case _ => Split(leaf(n))
  }

  /** A child's text, indented, splits into the child's lines with two spaces
      in front. */
  lemma ChildLines(child: string, lines: seq<string>)
    requires Split(child) == lines
    ensures Split(Indent(child, Indent2)) == Prefixed(lines, Indent2)
  {
    IndentLines(child, Indent2);
  }

  /** Header and body, separated by a newline. */
  lemma HeaderLines(header: string, body: string)
    requires '\n' !in header
    ensures Split(header + "\n" + body) == [header] + Split(body)
  {
    SplitAtNewline(header, body);
    SplitSingleLine(header);
  }

  lemma BlockOutline(ss: seq<Node>, leaf: Node -> string)
    requires forall i :: 0 <= i < |ss| ==> Split(Render(ss[i], leaf)) == Outline(ss[i], leaf)
    ensures Split(Render(Block(ss), leaf)) == Outline(Block(ss), leaf)
  {
    var ys := seq(|ss|, i requires 0 <= i < |ss| => Indent(Render(ss[i], leaf), Indent2));
    var joined := Join("\n", ys);
    assert Render(Block(ss), leaf) == "BLOCK" + "\n" + joined;
    HeaderLines("BLOCK", joined);
    if |ss| > 0 {
      var yss := seq(|ss|, i requires 0 <= i < |ss| => Prefixed(Outline(ss[i], leaf), Indent2));
      forall i | 0 <= i < |ss|
        ensures Split(ys[i]) == yss[i]
      {
        ChildLines(Render(ss[i], leaf), Outline(ss[i], leaf));
      }
      SplitJoin(ys);
      SplitAllFlatten(ys, yss);
    }
  }

  /** A header over three children, newline separated. */
  lemma ThreeChildren(h: string, a: string, b: string, d: string)
    requires '\n' !in h
    ensures Split(h + "\n" + a + "\n" + b + "\n" + d) == [h] + Split(a) + Split(b) + Split(d)
  {
    var bd := b + "\n" + d;
    var abd := a + "\n" + bd;
    LinesNest(h, a, b, d);
    HeaderLines(h, abd);
    SplitAtNewline(a, bd);
    SplitAtNewline(b, d);
    var sa, sb, sd := Split(a), Split(b), Split(d);
    assert [h] + Split(abd) == [h] + (sa + (sb + sd)) == [h] + sa + sb + sd;
  }

  lemma IfText(c: Node, t: Node, e: Option<Node>, leaf: Node -> string)
    ensures Render(IfExpr(c, t, e), leaf) ==
      "IF" + "\n" + Indent(Render(c, leaf), Indent2) + "\n" + Indent(Render(t, leaf), Indent2) + "\n" + Indent(ElseText(e, leaf), Indent2)
  {
    assert "IF" + "\n" == "IF\n";
  }

  lemma IfLines(c: Node, t: Node, e: Option<Node>, leaf: Node -> string)
    requires Split(Render(c, leaf)) == Outline(c, leaf)
    requires Split(Render(t, leaf)) == Outline(t, leaf)
    requires Split(ElseText(e, leaf)) == ElseLines(e, leaf)
    ensures Outline(IfExpr(c, t, e), leaf) ==
      ["IF"] + Split(Indent(Render(c, leaf), Indent2)) + Split(Indent(Render(t, leaf), Indent2)) + Split(Indent(ElseText(e, leaf), Indent2))
  {
    ChildLines(Render(c, leaf), Outline(c, leaf));
    ChildLines(Render(t, leaf), Outline(t, leaf));
    ChildLines(ElseText(e, leaf), ElseLines(e, leaf));
  }

  lemma IfOutline(c: Node, t: Node, e: Option<Node>, leaf: Node -> string)
    requires Split(Render(c, leaf)) == Outline(c, leaf)
    requires Split(Render(t, leaf)) == Outline(t, leaf)
    requires Split(ElseText(e, leaf)) == ElseLines(e, leaf)
    ensures Split(Render(IfExpr(c, t, e), leaf)) == Outline(IfExpr(c, t, e), leaf)
  {
    IfText(c, t, e, leaf);
    IfLines(c, t, e, leaf);
    ThreeChildren("IF", Indent(Render(c, leaf), Indent2), Indent(Render(t, leaf), Indent2), Indent(ElseText(e, leaf), Indent2));
  }

  /** FuncDef and Assign: a header over one indented child. */
  lemma SingleChildOutline(n: Node, child: Node, leaf: Node -> string)
    requires n.FuncDef? || n.Assign?
    requires child == (if n.FuncDef? then n.body else n.value)
    requires Split(Render(child, leaf)) == Outline(child, leaf)
    ensures Split(Render(n, leaf)) == Outline(n, leaf)
  {
    var x := Indent(Render(child, leaf), Indent2);
    assert Render(n, leaf) == Header(n) + "\n" + x;
    HeaderLines(Header(n), x);
    ChildLines(Render(child, leaf), Outline(child, leaf));
  }

  /** The printer and the line-by-line layout agree on every tree. */
  lemma {:induction false} RenderOutline(n: Node, leaf: Node -> string)
    ensures Split(Render(n, leaf)) == Outline(n, leaf)
    decreases n
  {
    match n
    case Block(ss) =>
      forall i | 0 <= i < |ss|
        ensures Split(Render(ss[i], leaf)) == Outline(ss[i], leaf)
      {
        RenderOutline(ss[i], leaf);
      }
      BlockOutline(ss, leaf);
    case IfExpr(c, t, e) =>
      RenderOutline(c, leaf);
      RenderOutline(t, leaf);
      if e.Some? {
        RenderOutline(e.value, leaf);
      } else {
        SplitSingleLine("None");
      }
      IfOutline(c, t, e, leaf);
    case FuncDef(_, _, body) =>
      RenderOutline(body, leaf);
      SingleChildOutline(n, body, leaf);
    case Assign(_, v) =>
      RenderOutline(v, leaf);
      SingleChildOutline(n, v, leaf);
    case _ =>
  }

  /** ... so the printed text is the layout's lines joined by newlines. */
  lemma RenderJoin(n: Node, leaf: Node -> string)
    ensures Render(n, leaf) == Join("\n", Outline(n, leaf))
  {
    RenderOutline(n, leaf);
    JoinSplit(Render(n, leaf));
  }

  /** A node with its own layout prints its header on the first line, and
      every further line (but the empty line of an empty block) is indented. */
  lemma RenderNested(n: Node, leaf: Node -> string)
    requires HasLayout(n)
    ensures Split(Render(n, leaf))[0] == Header(n)
    ensures n != Block([]) ==> forall i :: 1 <= i < |Split(Render(n, leaf))| ==>
      |Split(Render(n, leaf))[i]| >= 2 && Split(Render(n, leaf))[i][..2] == Indent2
  {
    RenderOutline(n, leaf);
    var lines := Outline(n, leaf);
    if n != Block([]) {
      forall i | 1 <= i < |lines|
        ensures |lines[i]| >= 2 && lines[i][..2] == Indent2
      {
        OutlineIndented(n, leaf, i);
      }
    }
  }

  lemma OutlineIndented(n: Node, leaf: Node -> string, i: int)
    requires HasLayout(n) && n != Block([])
    requires 1 <= i < |Outline(n, leaf)|
    ensures |Outline(n, leaf)[i]| >= 2 && Outline(n, leaf)[i][..2] == Indent2
  {
    match n
    case Block(ss) =>
      var yss := seq(|ss|, j requires 0 <= j < |ss| => Prefixed(Outline(ss[j], leaf), Indent2));
      FlattenIndented(yss);
    case IfExpr(c, t, e) =>
    case FuncDef(_, _, body) =>
    case Assign(_, v) =>
  }

  lemma {:induction false} FlattenIndented(yss: seq<seq<string>>)
    requires forall j, k :: 0 <= j < |yss| && 0 <= k < |yss[j]| ==> |yss[j][k]| >= 2 && yss[j][k][..2] == Indent2
    ensures forall k :: 0 <= k < |Flatten(yss)| ==> |Flatten(yss)[k]| >= 2 && Flatten(yss)[k][..2] == Indent2
  {
    if |yss| > 0 {
      FlattenIndented(yss[1..]);
    }
  }

  /** The empty block prints its header and an empty line. */
  lemma EmptyBlock(leaf: Node -> string)
    ensures Render(Block([]), leaf) == "BLOCK\n"
    ensures Split(Render(Block([]), leaf)) == ["BLOCK", ""]
  {
    RenderOutline(Block([]), leaf);
  }
  // ----- line counts -------------------------------------------------------------

  /** The number of lines `s` prints as. */
  function LineCount(s: string): nat {
    |Split(s)|
  }

  /** The printed lines of the statements of a block, added up. */
  function StatementLines(ss: seq<Node>, leaf: Node -> string): nat {
    if |ss| == 0 then 0 else LineCount(Render(ss[0], leaf)) + StatementLines(ss[1..], leaf)
  }

  function TotalLength(yss: seq<seq<string>>): nat {
    if |yss| == 0 then 0 else |yss[0]| + TotalLength(yss[1..])
  }

  lemma {:induction false} FlattenLength(yss: seq<seq<string>>)
    ensures |Flatten(yss)| == TotalLength(yss)
  {
    if |yss| > 0 {
      FlattenLength(yss[1..]);
    }
  }

  lemma {:induction false} TotalStatementLines(yss: seq<seq<string>>, ss: seq<Node>, leaf: Node -> string)
    requires |yss| == |ss|
    requires forall i :: 0 <= i < |ss| ==> |yss[i]| == LineCount(Render(ss[i], leaf))
    ensures TotalLength(yss) == StatementLines(ss, leaf)
  {
    if |ss| > 0 {
      TotalStatementLines(yss[1..], ss[1..], leaf);
    }
  }

  /** Each layout adds exactly one header line to the lines of its children:
      a non-empty block prints 1 + the lines of its statements, an if
      1 + the lines of condition, then and else branch, a definition or
      assignment 1 + the lines of its body or value. */
  lemma LineCounts(n: Node, leaf: Node -> string)
    ensures n.Block? && |n.statements| > 0 ==>
      LineCount(Render(n, leaf)) == 1 + StatementLines(n.statements, leaf)
    ensures n.IfExpr? ==>
      LineCount(Render(n, leaf)) == 1 + LineCount(Render(n.cond, leaf)) + LineCount(Render(n.thenBranch, leaf)) + LineCount(ElseText(n.elseBranch, leaf))
    ensures n.FuncDef? ==> LineCount(Render(n, leaf)) == 1 + LineCount(Render(n.body, leaf))
    ensures n.Assign? ==> LineCount(Render(n, leaf)) == 1 + LineCount(Render(n.value, leaf))
  {
    RenderOutline(n, leaf);
    match n
    case Block(ss) =>
      if |ss| > 0 {
        var yss := seq(|ss|, i requires 0 <= i < |ss| => Prefixed(Outline(ss[i], leaf), Indent2));
        forall i | 0 <= i < |ss|
          ensures |yss[i]| == LineCount(Render(ss[i], leaf))
        {
          RenderOutline(ss[i], leaf);
        }
        FlattenLength(yss);
        TotalStatementLines(yss, ss, leaf);
      }
    case IfExpr(c, t, e) =>
      RenderOutline(c, leaf);
      RenderOutline(t, leaf);
      if e.Some? {
        RenderOutline(e.value, leaf);
      } else {
        SplitSingleLine("None");
      }
    case FuncDef(_, _, body) =>
      RenderOutline(body, leaf);
    case Assign(_, v) =>
      RenderOutline(v, leaf);
    case _ =>
  }
}
