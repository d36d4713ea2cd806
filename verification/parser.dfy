/**
 * The shift-reduce parser of the boolean query language (`parse` and its inner `reduce`
 * in select.js). The functions here specify it; the methods at the end of the module
 * run it the way the source does, on a stack that they push onto and pop from.
 */
module Parser {
  import opened Basics
  import opened Lexer

  /** Placeholder types: `EXP` and `AND_EXP` (the right operand of `or`, which `or` waits for). */
  datatype SlotKind = Exp | AndExp

  /**
   * A parse-tree node. A `Slot` is an `EXP`/`AND_EXP` object; it is finished exactly when it
   * carries its selector `string`. `AND`, `OR` and `NOT` nodes are always finished.
   */
  datatype Node =
    | Slot(kind: SlotKind, text: Option<string>)
    | And(lhs: Node, rhs: Node)
    | Or(lhs: Node, rhs: Node)
    | Not(exp: Node)
  {
    /** `node.finished` */
    predicate Finished() {
      !Slot? || text.Some?
    }

    /** `node.string !== undefined` */
    predicate HasString() {
      Slot? && text.Some?
    }

    /** `node.type == 'AND_EXP'` */
    predicate IsAndExp() {
      Slot? && kind == AndExp
    }
  }

  /** A stack entry: a keyword or parenthesis token, or a node. */
  datatype Item = Tok(tok: Token) | N(node: Node)

  /** What `parse` throws: an unexpected token, a missing closing quote, a missing operand, an incomplete expression. */
  datatype ParseError = Unexpected | Expected | Missing | Incomplete

  type Stack = seq<Item>

  /** The stack a parse starts from: one empty, unfinished `EXP`. */
  const Initial: Stack := [N(Slot(Exp, None))]

  /** The stack is never empty, and a `)` can only sit on top of it, with something beneath. */
  predicate WellFormed(st: Stack) {
    && |st| > 0
    && st[0] != Tok(RParen)
    && forall i | 0 <= i < |st| - 1 :: st[i] != Tok(RParen)
  }

  /** `item.string` of a stack entry, absent for tokens and for unfinished or boolean nodes. */
  function StringOf(it: Item): Option<string> {
    if it.N? && it.node.HasString() then it.node.text else None
  }

  // ---------------------------------------------------------------- quoted strings

  /** Index of the first occurrence of `c` in `s` (`indexOf`), or None. */
  function IndexOf(s: string, c: char): (r: Option<nat>)
    ensures r.Some? ==> r.value < |s| && s[r.value] == c && c !in s[..r.value]
    ensures r.None? ==> c !in s
  {
    if |s| == 0 then None
    else if s[0] == c then Some(0)
    else
      match IndexOf(s[1..], c)
      case None => None
      case Some(i) => assert s[1..][..i] == s[1..i + 1]; Some(i + 1)
  }

  /**
   * The `do … while` loop that reads a quoted string up to its closing quote `q`: every
   * piece before a quote is kept, a piece ending in a backslash keeps the quote that
   * ends it, and reading goes on while the text read so far ends with `q`. Yields the
   * text and what follows the closing quote; a missing quote raises `Expected`.
   */
  function ScanQuoted(q: char, rest: string, acc: string): (r: Result<(string, string), ParseError>)
    ensures r.Ok? ==> |r.value.1| < |rest|
    decreases |rest|
  {
    match IndexOf(rest, q)
    case None => Err(Expected)
    case Some(i) =>
      var c := rest[..i];
      var acc' := acc + c + (if |c| > 0 && c[|c| - 1] == '\\' then [q] else []);
      if |acc'| > 0 && acc'[|acc'| - 1] == q then ScanQuoted(q, rest[i + 1..], acc')
      else Ok((acc', rest[i + 1..]))
  }

  /** `str.replace(/"/g, '\\"')`: every double quote gets a backslash in front of it. */
  function EscapeDoubleQuotes(s: string): (r: string)
  {
    if |s| == 0 then ""
    else (if s[0] == '"' then "\\\"" else [s[0]]) + EscapeDoubleQuotes(s[1..])
  }

  /** The literal a quoted string becomes: always double-quoted, single-quoted content re-escaped. */
  function QuotedLiteral(q: char, str: string): string {
    "\"" + (if q == '\'' then EscapeDoubleQuotes(str) else str) + "\""
  }

  // ---------------------------------------------------------------- reduce

  /** One pass of the body of `reduce`'s loop: the first rule that applies, or None. */
  function ReduceStep(st: Stack, final: bool): (r: Option<Stack>)
    requires WellFormed(st)
    ensures r.Some? ==> WellFormed(r.value) && |r.value| < |st| && r.value[|r.value| - 1] != Tok(RParen)
  {
    var n := |st|;
    var top := st[n - 1];
    if top.N? && top.node.Finished() then
      if n >= 2 && st[n - 2] == Tok(NotKw) then
        // not EXP -> NOT(EXP), and not NOT(E) -> E
        Some(st[..n - 2] + [N(if top.node.Not? then top.node.exp else Not(top.node))])
      else if n >= 3 && st[n - 2] == Tok(AndKw) && st[n - 3].N? then
        Some(st[..n - 3] + [N(And(st[n - 3].node, top.node))])
      else if n >= 3 && st[n - 2] == Tok(OrKw) && st[n - 3].N? && (!top.node.IsAndExp() || final) then
        Some(st[..n - 3] + [N(Or(st[n - 3].node, top.node))])
      else None
    else if top == Tok(RParen) then
      if StringOf(st[n - 2]).Some? && n >= 4 && st[n - 3] == Tok(LParen) && StringOf(st[n - 4]).Some? then
        // STRING ( STRING ) -> STRING: the parentheses belong to the selector
        var host := st[n - 4].node;
        Some(st[..n - 4] + [N(Slot(host.kind, Some(host.text.value + "( " + st[n - 2].node.text.value + " ) ")))])
      else if n >= 3 && st[n - 3] == Tok(LParen) && (n == 3 || StringOf(st[n - 4]).None?) then
        // ( EXP ) -> EXP
        Some(st[..n - 3] + [st[n - 2]])
      else None
    else None
  }

  /** `reduce(final)`: apply reduction steps until none applies. */
  function Reduced(st: Stack, final: bool): (r: Stack)
    requires WellFormed(st)
    ensures WellFormed(r) && |r| <= |st|
    ensures st[|st| - 1] != Tok(RParen) ==> r[|r| - 1] != Tok(RParen)
    ensures ReduceStep(r, final).None?
    decreases |st|
  {
    match ReduceStep(st, final)
    case None => st
    case Some(st') => Reduced(st', final)
  }

  // ---------------------------------------------------------------- shift

  /** The token can be taken by the stack top: an `EXP`, `AND_EXP`, `AND` or `OR` node, not a `NOT` node or a token. */
  predicate TopAccepts(st: Stack)
    requires |st| > 0
  {
    st[|st| - 1].N? && !st[|st| - 1].node.Not?
  }

  /**
   * The body of `parse`'s token loop for one token. An empty literal or a quote mark is
   * falsy or matches no branch in the source, and leaves the stack as it is.
   */
  function Step(st: Stack, t: Token): (r: Result<Stack, ParseError>)
    requires WellFormed(st)
    ensures r.Ok? ==> WellFormed(r.value)
  {
    var n := |st|;
    var top := st[n - 1];
    if !TopAccepts(st) then Err(Unexpected)
    else if !top.node.Finished() then
      match t
      case LParen => Ok(st[..n - 1] + [Tok(LParen), top])
      case OrKw => Err(Missing)
      case AndKw => Err(Missing)
      case NotKw => Ok(st[..n - 1] + [Tok(NotKw), top])
      case Lit(x) => if x == "" then Ok(st) else Ok(st[..n - 1] + [N(Slot(top.node.kind, Some(x)))])
      case RParen => Err(Missing)
      case QuoteMark(_) => Ok(st)
    else
      match t
      case LParen =>
        if !top.node.HasString() then Err(Unexpected) else Ok(st + [Tok(LParen), N(Slot(Exp, Some("")))])
      case OrKw => Ok(Reduced(st, false) + [Tok(OrKw), N(Slot(AndExp, None))])
      case AndKw => Ok(Reduced(st, false) + [Tok(AndKw), N(Slot(Exp, None))])
      case NotKw => Err(Unexpected)
      case Lit(x) =>
        if x == "" then Ok(st)
        else if !top.node.HasString() then Err(Unexpected)
        else Ok(st[..n - 1] + [N(Slot(top.node.kind, Some(top.node.text.value + x)))])
      case RParen =>
        var st1 := Reduced(st, false);
        Ok(Reduced(st1 + [Tok(RParen)], false))
      case QuoteMark(_) => Ok(st)
  }

  /** After the input is exhausted: `reduce(true)`, then exactly one finished node must remain. */
  function Finish(st: Stack): (r: Result<Node, ParseError>)
    requires WellFormed(st)
  {
    var s := Reduced(st, true);
    var top := s[|s| - 1];
    if !(top.N? && top.node.Finished()) || |s| > 1 then Err(Incomplete) else Ok(top.node)
  }

  /** The token loop of `parse`, from stack `st` over the remaining input `s`. */
  function Run(st: Stack, s: string): (r: Result<Node, ParseError>)
    requires WellFormed(st)
    decreases |s|
  {
    match Match(s)
    case None => Finish(st)
    case Some((t, n)) =>
      var rest := s[n..];
      if t.QuoteMark? then
        match ScanQuoted(t.q, rest, "")
        case Err(e) => Err(e)
        case Ok((str, rest')) =>
          match Step(st, Lit(QuotedLiteral(t.q, str)))
          case Err(e) => Err(e)
          case Ok(st') => Run(st', rest')
      else
        match Step(st, t)
        case Err(e) => Err(e)
        case Ok(st') => Run(st', rest)
  }

  /** `parse(s)`: the parse tree of a whole query, or the error it throws. */
  function Parsed(s: string): Result<Node, ParseError> {
    Run(Initial, s)
  }

  // ---------------------------------------------------------------- the parser as the source runs it

  /** `reduce(final)`: the `do … while (reduced)` loop rewriting the top of the stack. */
  method Reduce(stack: Stack, final: bool) returns (st: Stack)
    requires WellFormed(stack)
    ensures st == Reduced(stack, final)
  {
    st := stack;
    var reduced := true;
    while reduced
      invariant WellFormed(st)
      invariant reduced ==> Reduced(st, final) == Reduced(stack, final)
      invariant !reduced ==> st == Reduced(stack, final)
      decreases |st| + (if reduced then 1 else 0)
    {
      reduced := false;
      var n := |st|;
      var top := st[n - 1];
      if top.N? && top.node.Finished() {
        if n >= 2 && st[n - 2] == Tok(NotKw) {
          st := st[..n - 2] + [N(if top.node.Not? then top.node.exp else Not(top.node))];
          reduced := true;
        } else if n >= 3 && st[n - 2] == Tok(AndKw) && st[n - 3].N? {
          st := st[..n - 3] + [N(And(st[n - 3].node, top.node))];
          reduced := true;
        } else if n >= 3 && st[n - 2] == Tok(OrKw) && st[n - 3].N? && (!top.node.IsAndExp() || final) {
          st := st[..n - 3] + [N(Or(st[n - 3].node, top.node))];
          reduced := true;
        }
      } else if top == Tok(RParen) {
        if StringOf(st[n - 2]).Some? && n >= 4 && st[n - 3] == Tok(LParen) && StringOf(st[n - 4]).Some? {
          var host := st[n - 4].node;
          st := st[..n - 4] + [N(Slot(host.kind, Some(host.text.value + "( " + st[n - 2].node.text.value + " ) ")))];
          reduced := true;
        } else if n >= 3 && st[n - 3] == Tok(LParen) && (n == 3 || StringOf(st[n - 4]).None?) {
          st := st[..n - 3] + [st[n - 2]];
          reduced := true;
        }
      }
    }
  }

  /** The quoted-string loop of `parse`: read up to the closing quote `q`, keeping escaped quotes. */
  method ScanQuote(q: char, input: string) returns (r: Result<(string, string), ParseError>)
    ensures r == ScanQuoted(q, input, "")
  {
    var next := input;
    var str := "";
    var more := true;
    while more
      invariant more ==> ScanQuoted(q, next, str) == ScanQuoted(q, input, "")
      invariant !more ==> ScanQuoted(q, input, "") == Ok((str, next))
      decreases |next|, more
    {
      ghost var next0, str0 := next, str;
      var i := IndexOf(next, q);
      if i.None? {
        return Err(Expected);
      }
      var c := next[..i.value];
      next := next[i.value + 1..];
      str := str + c;
      if |c| > 0 && c[|c| - 1] == '\\' {
        str := str + [q];
      }
      more := |str| > 0 && str[|str| - 1] == q;
      assert str == str0 + c + (if |c| > 0 && c[|c| - 1] == '\\' then [q] else []);
      assert ScanQuoted(q, next0, str0) == if more then ScanQuoted(q, next, str) else Ok((str, next));
    }
    return Ok((str, next));
  }

  /** The dispatch on the stack top for one token, updating the top in place where the source does. */
  method Shift(stack: Stack, t: Token) returns (r: Result<Stack, ParseError>)
    requires WellFormed(stack)
    ensures r == Step(stack, t)
  {
    var n := |stack|;
    var top := stack[n - 1];
    if !(top.N? && !top.node.Not?) {
      return Err(Unexpected);
    }
    var st := stack;
    if !top.node.Finished() {
      match t {
        case LParen => st := st[..n - 1] + [Tok(LParen), top];
        case OrKw => return Err(Missing);
        case AndKw => return Err(Missing);
        case NotKw => st := st[..n - 1] + [Tok(NotKw), top];
        case Lit(x) =>
          if x != "" {
            st := st[..n - 1] + [N(Slot(top.node.kind, Some(x)))];
          }
        case RParen => return Err(Missing);
        case QuoteMark(_) =>
      }
    } else {
      match t {
        case LParen =>
          if !top.node.HasString() {
            return Err(Unexpected);
          }
          st := st + [Tok(LParen), N(Slot(Exp, Some("")))];
        case OrKw =>
          st := Reduce(st, false);
          st := st + [Tok(OrKw), N(Slot(AndExp, None))];
        case AndKw =>
          st := Reduce(st, false);
          st := st + [Tok(AndKw), N(Slot(Exp, None))];
        case NotKw => return Err(Unexpected);
        case Lit(x) =>
          if x != "" {
            if !top.node.HasString() {
              return Err(Unexpected);
            }
            st := st[..n - 1] + [N(Slot(top.node.kind, Some(top.node.text.value + x)))];
          }
        case RParen =>
          st := Reduce(st, false);
          st := Reduce(st + [Tok(RParen)], false);
        case QuoteMark(_) =>
      }
    }
    return Ok(st);
  }

  /** `parse(s)`: tokenize with a cursor, shift each token, reduce finally, check that one expression remains. */
  method Parse(s: string) returns (r: Result<Node, ParseError>)
    ensures r == Parsed(s)
  {
    var input := new Cursor(s);
    var stack := Initial;
    var done := false;
    while !done
      invariant WellFormed(stack)
      invariant !done ==> Run(stack, input.next) == Parsed(s)
      invariant done ==> Finish(stack) == Parsed(s)
      decreases |input.next|, !done
    {
      ghost var before := input.next;
      var t := input.NextToken();
      if t.None? {
        done := true;
      } else {
        var tok := t.value;
        if tok.QuoteMark? {
          var scanned := ScanQuote(tok.q, input.next);
          if scanned.Err? {
            return Err(scanned.error);
          }
          input.next := scanned.value.1;
          tok := Lit(QuotedLiteral(tok.q, scanned.value.0));
        }
        var shifted := Shift(stack, tok);
        if shifted.Err? {
          return Err(shifted.error);
        }
        stack := shifted.value;
      }
    }
    stack := Reduce(stack, true);
    var top := stack[|stack| - 1];
    if !(top.N? && top.node.Finished()) || |stack| > 1 {
      return Err(Incomplete);
    }
    return Ok(top.node);
  }
}
