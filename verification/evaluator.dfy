/**
 * The evaluator of parse trees (`eval` in select.js) and the top-level entry point
 * (`M`, the exported function): a literal query returns its result set, a boolean
 * query one of the two canonical sets, a malformed query the empty set.
 */
module Evaluator {
  import opened Basics
  import opened Json
  import opened Lexer
  import opened Parser
  import opened ResultSets

  /** `exp.string` is present and non-empty, i.e. truthy. */
  predicate IsLiteral(n: Node) {
    n.HasString() && n.text.value != ""
  }

  /** The value of a tree together with the literals queried, in the order the engine was asked. */
  datatype Outcome = Outcome(value: bool, queried: seq<string>)

  /**
   * `eval(obj, exp, options)`: a literal holds when its result set is not empty; `AND` and
   * `OR` evaluate left to right and skip the right operand once the left one decides;
   * `NOT` negates; any other node is false.
   */
  function Eval(m: Matcher, n: Node, skip: Option<seq<Value>>): (r: Outcome)
    ensures forall x | x in r.queried :: x in Literals(n)
    ensures |r.queried| <= |Literals(n)|
  {
    if IsLiteral(n) then
      Outcome(!IsEmpty(Select(m, n.text.value, skip)), [n.text.value])
    else
      match n
      case And(lhs, rhs) =>
        var l := Eval(m, lhs, skip);
        if !l.value then l
        else
          var r := Eval(m, rhs, skip);
          Outcome(r.value, l.queried + r.queried)
      case Or(lhs, rhs) =>
        var l := Eval(m, lhs, skip);
        if l.value then l
        else
          var r := Eval(m, rhs, skip);
          Outcome(r.value, l.queried + r.queried)
      case Not(e) =>
        var v := Eval(m, e, skip);
        Outcome(!v.value, v.queried)
      case Slot(_, _) => Outcome(false, [])
  }

  /** Every literal of a tree, left to right. */
  function Literals(n: Node): seq<string> {
    if IsLiteral(n) then [n.text.value]
    else
      match n
      case And(lhs, rhs) => Literals(lhs) + Literals(rhs)
      case Or(lhs, rhs) => Literals(lhs) + Literals(rhs)
      case Not(e) => Literals(e)
      case Slot(_, _) => []
  }

  /** The plain boolean meaning of a tree, given the truth of each literal, with no evaluation order. */
  function Holds(n: Node, truth: string -> bool): bool {
    if IsLiteral(n) then truth(n.text.value)
    else
      match n
      case And(lhs, rhs) => Holds(lhs, truth) && Holds(rhs, truth)
      case Or(lhs, rhs) => Holds(lhs, truth) || Holds(rhs, truth)
      case Not(e) => !Holds(e, truth)
      case Slot(_, _) => false
  }

  /** A literal is true exactly when its result set is not empty. */
  function NonEmpty(m: Matcher, skip: Option<seq<Value>>): string -> bool {
    x => !IsEmpty(Select(m, x, skip))
  }

  /** Short-circuit evaluation computes the plain boolean meaning of the tree. */
  lemma {:induction false} EvalMeaning(m: Matcher, n: Node, skip: Option<seq<Value>>)
    ensures Eval(m, n, skip).value == Holds(n, NonEmpty(m, skip))
  {
    if !IsLiteral(n) {
      match n
      case And(lhs, rhs) => EvalMeaning(m, lhs, skip); EvalMeaning(m, rhs, skip);
      case Or(lhs, rhs) => EvalMeaning(m, lhs, skip); EvalMeaning(m, rhs, skip);
      case Not(e) => EvalMeaning(m, e, skip);
      case Slot(_, _) =>
    }
  }

  /** A false left operand of `AND`, or a true one of `OR`, means the right operand is never queried. */
  lemma ShortCircuit(m: Matcher, l: Node, r: Node, skip: Option<seq<Value>>)
    ensures !Eval(m, l, skip).value ==> Eval(m, And(l, r), skip) == Eval(m, l, skip)
    ensures Eval(m, l, skip).value ==> Eval(m, Or(l, r), skip) == Eval(m, l, skip)
    ensures Eval(m, l, skip).value ==>
      Eval(m, And(l, r), skip).queried == Eval(m, l, skip).queried + Eval(m, r, skip).queried
  {
  }

  /** Double negation evaluates like the expression itself and queries the same literals. */
  lemma DoubleNegation(m: Matcher, n: Node, skip: Option<seq<Value>>)
    ensures Eval(m, Not(Not(n)), skip) == Eval(m, n, skip)
  {
  }

  /**
   * The exported entry `M(obj, s, options)`: parse; a literal tree yields the literal's own
   * result set, any other tree the canonical non-empty or empty set by its value, and a
   * parse error the empty set.
   */
  function Find(m: Matcher, s: string, skip: Option<seq<Value>>): (r: ResultSet)
    ensures Parsed(s).Err? ==> r == EmptySet
    ensures !(Parsed(s).Ok? && IsLiteral(Parsed(s).value)) ==> r == EmptySet || r == NotEmptySet
    ensures Parsed(s).Ok? && IsLiteral(Parsed(s).value) ==> r == Select(m, Parsed(s).value.text.value, skip)
  {
    match Parsed(s)
    case Err(_) => EmptySet
    case Ok(exp) =>
      if IsLiteral(exp) then Select(m, exp.text.value, skip)
      else if Eval(m, exp, skip).value then NotEmptySet
      else EmptySet
  }

  /** A boolean query's result is `[true]` when the tree holds and `[]` otherwise, whatever was matched. */
  lemma CanonicalResult(m: Matcher, s: string, skip: Option<seq<Value>>)
    requires Parsed(s).Ok? && !IsLiteral(Parsed(s).value)
    ensures NodesOf(Find(m, s, skip), false) == (if Holds(Parsed(s).value, NonEmpty(m, skip)) then [Bool(true)] else [])
    ensures IsEmpty(Find(m, s, skip)) <==> !Holds(Parsed(s).value, NonEmpty(m, skip))
  {
    EvalMeaning(m, Parsed(s).value, skip);
  }
}
