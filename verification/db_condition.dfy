/** The `where` conditions of the database's `select` command. A condition
    compares the values of two columns with one of six relations. The
    relation is kept as a 3-bit code telling whether the left value may be
    greater than (GT), equal to (EQ) or less than (LT) the right one; values
    are compared as Java compares strings. */
module DbCondition {

  import opened Results
  import opened DbLists

  /** A Java `int`, in two's complement. */
  type Int32 = bv32

  /** The value of a Java `int`. */
  function Signed(x: Int32): int
  {
    if x < 0x8000_0000 then x as int else x as int - 0x1_0000_0000
  }

  const GT: Int32 := 1
  const EQ: Int32 := 2
  const LT: Int32 := 4

  /** The relations a condition accepts, and the code of each, in the same
      order. "!=" gets the complement of EQ. */
  const Relations: seq<string> := ["<", ">", "=", "<=", ">=", "!="]
  const Codes: seq<Int32> := [LT, GT, EQ, LT | EQ, GT | EQ, !EQ]

  /** An operand of a condition: a column of the rows being selected, named
      by its title, or a literal value. */
  datatype Column = Named(title: string) | Literal(text: string)

  /** The value of an operand in the current rows, given the value of each
      column title there. */
  function Value(col: Column, current: string -> string): string
  {
    match col
    case Named(t) => current(t)
    case Literal(v) => v
  }

  datatype Condition = Condition(col1: Column, relation: Int32, col2: Column)

  /** The condition `col1 relation col2`; an unknown relation is an error. */
  function NewCondition(col1: Column, relation: string, col2: Column): (r: Result<Condition, string>)
    ensures r.Success? <==> relation in Relations
    ensures r.Failure? ==> r.error == relation + " is not a valid relation."
    ensures r.Success? ==> r.value.col1 == col1 && r.value.col2 == col2 && r.value.relation in Codes
    ensures forall k :: 0 <= k < |Relations| && Relations[k] == relation ==> r.Success? && r.value.relation == Codes[k]
  {
    if relation in Relations then Success(Condition(col1, Codes[IndexOf(Relations, relation)], col2))
    else Failure(relation + " is not a valid relation.")
  }

  /** The condition `col1 relation 'val2'`, comparing with a literal. */
  function NewLiteralCondition(col1: Column, relation: string, val2: string): (r: Result<Condition, string>)
    ensures r.Success? <==> relation in Relations
    ensures r.Failure? ==> r.error == relation + " is not a valid relation."
    ensures r.Success? ==> r.value.col1 == col1 && r.value.col2 == Literal(val2)
    ensures forall k :: 0 <= k < |Relations| && Relations[k] == relation ==> r.Success? && r.value.relation == Codes[k]
  {
    NewCondition(col1, relation, Literal(val2))
  }

  // ---------------------------------------------------------------------
  // Comparing strings

  /** Java's `String.compareTo`: the difference of the first differing
      characters, or else the difference of the lengths. */
  function CompareTo(a: string, b: string): int
  {
    if |a| == 0 || |b| == 0 then |a| - |b|
    else if a[0] != b[0] then a[0] as int - b[0] as int
    else CompareTo(a[1..], b[1..])
  }

  /** Lexicographic order on strings: `a` comes strictly before `b`. */
  predicate LexLess(a: string, b: string)
  {
    if |b| == 0 then false
    else if |a| == 0 then true
    else a[0] < b[0] || (a[0] == b[0] && LexLess(a[1..], b[1..]))
  }

  /** The sign of `CompareTo` is lexicographic order. */
  lemma {:induction false} CompareToSign(a: string, b: string)
    ensures CompareTo(a, b) < 0 <==> LexLess(a, b)
    ensures CompareTo(a, b) == 0 <==> a == b
    ensures CompareTo(a, b) > 0 <==> LexLess(b, a)
  {
    if |a| > 0 && |b| > 0 {
      CompareToSign(a[1..], b[1..]);
      if a[0] == b[0] {
        assert a == [a[0]] + a[1..] && b == [b[0]] + b[1..];
      }
    }
  }

  // ---------------------------------------------------------------------
  // Testing conditions

  /** The test of one condition on the current rows. */
  function Test(c: Condition, current: string -> string): bool
  {
    var temp := CompareTo(Value(c.col1, current), Value(c.col2, current));
    if temp > 0 && (c.relation == GT || c.relation == GT | EQ) then true
    else if temp == 0 && (c.relation == EQ || c.relation == GT | EQ || c.relation == LT | EQ) then true
    else if temp < 0 && (c.relation == LT || c.relation == LT | EQ) then true
    else if temp != 0 && c.relation == !EQ then true
    else false
  }

  /** True when every condition of `conds` holds on the current rows. */
  function TestAll(conds: seq<Condition>, current: string -> string): (r: bool)
    ensures r <==> forall i :: 0 <= i < |conds| ==> Test(conds[i], current)
  {
    if |conds| == 0 then true
    else if !Test(conds[0], current) then false
    else TestAll(conds[1..], current)
  }

  // ---------------------------------------------------------------------
  // Properties

  /** The six codes are distinct, and "!=" is coded as the Java int -3. */
  lemma CodesDistinct()
    ensures |Codes| == |Relations| == 6
    ensures forall i, j :: 0 <= i < j < |Codes| ==> Codes[i] != Codes[j]
    ensures Signed(Codes[5]) == -3
  {
  }

  /** The code a relation gets is the one at its position in the list. */
  lemma RelationCode(col1: Column, k: nat, col2: Column)
    requires k < |Relations|
    ensures NewCondition(col1, Relations[k], col2).value.relation == Codes[k]
  {
    assert IndexOf(Relations, Relations[k]) == k;
  }

  /** The test of a code against a comparison result `temp`, as the sign of
      `temp` and the relation at position k of the list. */
  lemma CodeMeaning(c: Condition, k: nat, current: string -> string)
    requires k < |Codes| && c.relation == Codes[k]
    ensures var temp := CompareTo(Value(c.col1, current), Value(c.col2, current));
      Test(c, current) <==> (match k
        case 0 => temp < 0
        case 1 => temp > 0
        case 2 => temp == 0
        case 3 => temp <= 0
        case 4 => temp >= 0
        case _ => temp != 0)
  {
    assert GT | EQ == 3 && LT | EQ == 6 && !EQ == 0xFFFF_FFFD;
  }

  /** What the relation at position k of `Relations` means, in terms of
      lexicographic order: "<", ">", "=", "<=", ">=", "!=" in turn. */
  predicate MeansAt(k: nat, a: string, b: string)
  {
    match k
    case 0 => LexLess(a, b)
    case 1 => LexLess(b, a)
    case 2 => a == b
    case 3 => LexLess(a, b) || a == b
    case 4 => LexLess(b, a) || a == b
    case _ => a != b
  }

  /** A condition built from a valid relation holds exactly when the two
      values stand in that relation. */
  lemma TestMeaning(col1: Column, k: nat, col2: Column, current: string -> string)
    requires k < |Relations|
    ensures Test(NewCondition(col1, Relations[k], col2).value, current)
        <==> MeansAt(k, Value(col1, current), Value(col2, current))
  {
    var c := NewCondition(col1, Relations[k], col2).value;
    RelationCode(col1, k, col2);
    CodeMeaning(c, k, current);
    CompareToSign(Value(col1, current), Value(col2, current));
  }

  /** A relation the basic tests spell out in words is refused. */
  lemma BasicUnknownRelation()
    ensures NewCondition(Literal("1"), "greater than", Literal("2")).Failure?
  {
    assert "greater than" !in Relations by {
      assert |"greater than"| == 12;
      assert forall i :: 0 <= i < |Relations| ==> |Relations[i]| <= 2;
    }
  }

  /** The condition at position k of the basic tests' list, with its
      operands. */
  function BasicCondition(k: nat): Condition
    requires k < 6
  {
    match k
    case 0 => NewCondition(Literal("1"), ">", Literal("2")).value
    case 1 => NewCondition(Literal("3"), "<=", Literal("2")).value
    case 2 => NewCondition(Literal("1"), "=", Literal("1")).value
    case 3 => NewCondition(Literal("1"), "<", Literal("3")).value
    case 4 => NewCondition(Literal("3"), ">=", Literal("3")).value
    case _ => NewCondition(Literal("2"), "!=", Literal("1")).value
  }

  /** "1" > "2" fails in the basic tests. */
  lemma BasicCondition0(current: string -> string)
    ensures !Test(BasicCondition(0), current)
  {
    assert Relations[1] == ">";
    TestMeaning(Literal("1"), 1, Literal("2"), current);
  }

  /** "3" <= "2" fails in the basic tests. */
  lemma BasicCondition1(current: string -> string)
    ensures !Test(BasicCondition(1), current)
  {
    assert Relations[3] == "<=";
    TestMeaning(Literal("3"), 3, Literal("2"), current);
  }

  /** "1" = "1" holds in the basic tests. */
  lemma BasicCondition2(current: string -> string)
    ensures Test(BasicCondition(2), current)
  {
    assert Relations[2] == "=";
    TestMeaning(Literal("1"), 2, Literal("1"), current);
  }

  /** "1" < "3" holds in the basic tests. */
  lemma BasicCondition3(current: string -> string)
    ensures Test(BasicCondition(3), current)
  {
    assert Relations[0] == "<";
    TestMeaning(Literal("1"), 0, Literal("3"), current);
  }

  /** "3" >= "3" holds in the basic tests. */
  lemma BasicCondition4(current: string -> string)
    ensures Test(BasicCondition(4), current)
  {
    assert Relations[4] == ">=";
    TestMeaning(Literal("3"), 4, Literal("3"), current);
  }

  /** "2" != "1" holds in the basic tests. */
  lemma BasicCondition5(current: string -> string)
    ensures Test(BasicCondition(5), current)
  {
    assert Relations[5] == "!=";
    TestMeaning(Literal("2"), 5, Literal("1"), current);
  }

  /** The six conditions of the basic tests together fail, since the first
      of them does. */
  lemma BasicConditionList(current: string -> string)
    ensures !TestAll([BasicCondition(0), BasicCondition(1), BasicCondition(2),
                      BasicCondition(3), BasicCondition(4), BasicCondition(5)], current)
  {
    BasicCondition0(current);
  }
}
