/**
 The few SQL expressions that aggregate queries are made of: how they are written and what the
 database makes of them. A NULL part makes a concatenation NULL, and an unknown condition takes
 the ELSE branch.
 */
module SqlExpressions {
  import opened Wrappers
  import ChunkQueries

  datatype Expression =
    | Literal(text: string)
    | Cast(value: string, varcharType: string)
    | Concat(left: Expression, operator: string, right: Expression)
    | Coalesce(first: Expression, second: Expression)
    | Case(condition: string, yes: Expression, no: Expression)

  /** What the values and conditions written in an expression come out as; None is NULL or unknown. */
  datatype Meaning = Meaning(value: string -> Option<string>, truth: string -> Option<bool>)

  function Print(e: Expression): string {
    match e
    case Literal(text) => "'" + text + "'"
    case Cast(value, varcharType) => "CAST(" + value + " AS " + varcharType + ")"
    case Concat(left, operator, right) => Print(left) + operator + Print(right)
    case Coalesce(first, second) => "COALESCE(" + Print(first) + ", " + Print(second) + ")"
    case Case(condition, yes, no) => "CASE WHEN " + condition + " THEN " + Print(yes) + " ELSE " + Print(no) + " END"
  }

  function Eval(e: Expression, m: Meaning): Option<string> {
    match e
    case Literal(text) => Some(text)
    case Cast(value, _) => m.value(value)
    case Concat(left, _, right) =>
      var l, r := Eval(left, m), Eval(right, m);
      if l.Some? && r.Some? then Some(l.value + r.value) else None
    case Coalesce(first, second) => if Eval(first, m).Some? then Eval(first, m) else Eval(second, m)
    case Case(condition, yes, no) => if m.truth(condition) == Some(true) then Eval(yes, m) else Eval(no, m)
  }

  /** Expressions joined by a concat operator; there is at least one. */
  function Joined(operator: string, es: seq<Expression>): Expression
    requires es != []
  {
    if |es| == 1 then es[0] else Concat(es[0], operator, Joined(operator, es[1..]))
  }

  function Printed(es: seq<Expression>): (r: seq<string>)
    ensures |r| == |es|
  {
    seq(|es|, i requires 0 <= i < |es| => Print(es[i]))
  }

  function Values(es: seq<Expression>, m: Meaning): Option<string> {
    if es == [] then Some("")
    else
      var head, tail := Eval(es[0], m), Values(es[1..], m);
      if head.Some? && tail.Some? then Some(head.value + tail.value) else None
  }

  /** The joined texts are the text of the joined expression, whose value is the values one after the other. */
  lemma {:induction false} JoinedMeans(operator: string, es: seq<Expression>, m: Meaning)
    requires es != []
    ensures Print(Joined(operator, es)) == ChunkQueries.Join(operator, Printed(es))
    ensures Eval(Joined(operator, es), m) == Values(es, m)
  {
    if |es| > 1 {
      JoinedMeans(operator, es[1..], m);
      assert Printed(es)[1..] == Printed(es[1..]);
    } else {
      assert Values(es[1..], m) == Some("");
      if Eval(es[0], m).Some? {
        assert Eval(es[0], m).value + "" == Eval(es[0], m).value;
      }
    }
  }
}
