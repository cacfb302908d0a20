/** Keywords and operator tables of the language. An operator's `func` is the
    name of the built-in its expressions call (`function` in the source). */
module Syntax {

  datatype Operator = Operator(operator: string, priority: int, func: string)

  type Entry = (string, int, string)

  function MakeOperator(e: Entry): Operator {
    Operator(e.0, e.1, e.2)
  }

  /** `Operator.dict`: one entry per lexeme, inserted in list order, so a later
      entry for the same lexeme replaces an earlier one. */
  function OperatorDict(entries: seq<Entry>): (m: map<string, Operator>)
    ensures forall k :: k in m ==> m[k].operator == k
  {
    if |entries| == 0 then map[]
    else
      var last := entries[|entries| - 1];
      OperatorDict(entries[..|entries| - 1])[last.0 := MakeOperator(last)]
  }

  lemma OperatorDictStep(entries: seq<Entry>, k: nat)
    requires k < |entries|
    ensures OperatorDict(entries[..k + 1]) == OperatorDict(entries[..k])[entries[k].0 := MakeOperator(entries[k])]
  {
    assert entries[..k + 1][..k] == entries[..k];
  }

  /** The keys of `Operator.dict` are exactly the lexemes of its entries. */
  lemma {:induction false} OperatorDictKeys(entries: seq<Entry>)
    ensures forall k :: k in OperatorDict(entries) <==> exists i :: 0 <= i < |entries| && entries[i].0 == k
  {
    if |entries| > 0 {
      var n := |entries| - 1;
      var init := entries[..n];
      OperatorDictKeys(init);
      assert forall i :: 0 <= i < n ==> init[i] == entries[i];
    }
  }

  /** Each key of `Operator.dict` maps to the LAST entry carrying that lexeme. */
  lemma {:induction false} OperatorDictLastWins(entries: seq<Entry>, i: nat)
    requires i < |entries|
    requires forall j :: i < j < |entries| ==> entries[j].0 != entries[i].0
    ensures entries[i].0 in OperatorDict(entries)
    ensures OperatorDict(entries)[entries[i].0] == MakeOperator(entries[i])
  {
    var n := |entries| - 1;
    if i < n {
      var init := entries[..n];
      OperatorDictLastWins(init, i);
    }
  }

  const Keywords: set<string> := {"if", "else", "for", "in", "while", "func"}

  const BinaryEntries: seq<Entry> := [
    ("+", 1, "add"),
    ("-", 1, "sub"),
    ("*", 2, "mul"),
    ("/", 2, "div"),
    ("%", 2, "mod"),
    ("==", 0, "is"),
    (">", 0, "more"),
    ("<", 0, "less")
  ]

  const UnaryEntries: seq<Entry> := [
    ("-", 0, "neg"),
    ("!", 0, "not")
  ]

  const BinaryOperators: map<string, Operator> := OperatorDict(BinaryEntries)

  const UnaryOperators: map<string, Operator> := OperatorDict(UnaryEntries)

  /** The binary table: lexeme, priority and backing built-in of each entry. */
  lemma BinaryTable()
    ensures BinaryOperators == map[
      "+" := Operator("+", 1, "add"),
      "-" := Operator("-", 1, "sub"),
      "*" := Operator("*", 2, "mul"),
      "/" := Operator("/", 2, "div"),
      "%" := Operator("%", 2, "mod"),
      "==" := Operator("==", 0, "is"),
      ">" := Operator(">", 0, "more"),
      "<" := Operator("<", 0, "less")]
  {
    var e := BinaryEntries;
    assert OperatorDict(e[..0]) == map[];
    OperatorDictStep(e, 0);
    OperatorDictStep(e, 1);
    OperatorDictStep(e, 2);
    OperatorDictStep(e, 3);
    OperatorDictStep(e, 4);
    OperatorDictStep(e, 5);
    OperatorDictStep(e, 6);
    OperatorDictStep(e, 7);
    assert e[..8] == e;
  }

  /** Every binary priority lies in 0..2. */
  lemma BinaryPriorities()
    ensures forall k :: k in BinaryOperators ==> 0 <= BinaryOperators[k].priority <= 2
  {
    BinaryTable();
  }

  /** The unary table holds exactly `-` (neg) and `!` (not). */
  lemma UnaryTable()
    ensures UnaryOperators == map["-" := Operator("-", 0, "neg"), "!" := Operator("!", 0, "not")]
  {
    var e := UnaryEntries;
    assert OperatorDict(e[..0]) == map[];
    OperatorDictStep(e, 0);
    OperatorDictStep(e, 1);
    assert e[..2] == e;
  }

  /** The binary table, one lexeme at a time. */
  lemma BinaryLookups()
    ensures "+" in BinaryOperators && BinaryOperators["+"] == Operator("+", 1, "add")
    ensures "-" in BinaryOperators && BinaryOperators["-"] == Operator("-", 1, "sub")
    ensures "*" in BinaryOperators && BinaryOperators["*"] == Operator("*", 2, "mul")
    ensures "==" in BinaryOperators && BinaryOperators["=="] == Operator("==", 0, "is")
    ensures "<" in BinaryOperators && BinaryOperators["<"] == Operator("<", 0, "less")
    ensures "^" !in BinaryOperators
  {
    BinaryTable();
  }

  /** The unary table, one lexeme at a time. */
  lemma UnaryLookups()
    ensures "-" in UnaryOperators && UnaryOperators["-"] == Operator("-", 0, "neg")
    ensures "!" in UnaryOperators && UnaryOperators["!"] == Operator("!", 0, "not")
    ensures "+" !in UnaryOperators && "*" !in UnaryOperators
  {
    UnaryTable();
  }

  /** `-` is both a binary and a unary operator; `!` is unary only. */
  lemma SharedOperators()
    ensures BinaryOperators.Keys * UnaryOperators.Keys == {"-"}
  {
    BinaryTable();
    UnaryTable();
  }
}
