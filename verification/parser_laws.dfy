/**
 * What the parser does with token sequences: the grammar's precedence and grouping,
 * the parenthesis disambiguation, double-negation collapse, and every error the
 * parser raises, including the quirks of the reduction rules.
 */
module ParserLaws {
  import opened Basics
  import opened Lexer
  import opened Parser

  /** Shift the tokens one after another from stack `st`. */
  function Feed(st: Stack, toks: seq<Token>): (r: Result<Stack, ParseError>)
    requires WellFormed(st)
    ensures r.Ok? ==> WellFormed(r.value)
    decreases |toks|
  {
    if toks == [] then Ok(st)
    else
      match Step(st, toks[0])
      case Err(e) => Err(e)
      case Ok(next) => Feed(next, toks[1..])
  }

  /** Shift the tokens, then finish: the parse of a token sequence from stack `st`. */
  function FeedFinish(st: Stack, toks: seq<Token>): Result<Node, ParseError>
    requires WellFormed(st)
  {
    match Feed(st, toks)
    case Err(e) => Err(e)
    case Ok(last) => Finish(last)
  }

  /** The parse of a whole token sequence. */
  function ParseTokens(toks: seq<Token>): Result<Node, ParseError> {
    FeedFinish(Initial, toks)
  }

  /** The tokens the parser sees for `s`: quoted strings already read into literals. */
  function Lexed(s: string): Result<seq<Token>, ParseError>
    decreases |s|
  {
    match Match(s)
    case None => Ok([])
    case Some((t, n)) =>
      if t.QuoteMark? then
        match ScanQuoted(t.q, s[n..], "")
        case Err(e) => Err(e)
        case Ok((str, rest)) =>
          match Lexed(rest)
          case Err(e) => Err(e)
          case Ok(ts) => Ok([Lit(QuotedLiteral(t.q, str))] + ts)
      else
        match Lexed(s[n..])
        case Err(e) => Err(e)
        case Ok(ts) => Ok([t] + ts)
  }

  /** Parsing text is parsing its tokens; an unterminated quote makes the parse fail too. */
  lemma {:induction false} RunIsFeed(st: Stack, s: string)
    requires WellFormed(st)
    ensures Lexed(s).Ok? ==> Run(st, s) == FeedFinish(st, Lexed(s).value)
    ensures Lexed(s).Err? ==> Run(st, s).Err?
    decreases |s|
  {
    match Match(s)
    case None =>
    case Some((t, n)) =>
      if t.QuoteMark? {
        match ScanQuoted(t.q, s[n..], "")
        case Err(e) =>
        case Ok((str, rest)) =>
          var lit := Lit(QuotedLiteral(t.q, str));
          match Step(st, lit)
          case Err(e) =>
            if Lexed(s).Ok? {
              assert Lexed(s).value[0] == lit;
            }
          case Ok(next) =>
            RunIsFeed(next, rest);
            if Lexed(s).Ok? {
              assert Lexed(s).value[1..] == Lexed(rest).value;
            }
      } else {
        match Step(st, t)
        case Err(e) =>
          if Lexed(s).Ok? {
            assert Lexed(s).value[0] == t;
          }
        case Ok(next) =>
          RunIsFeed(next, s[n..]);
          if Lexed(s).Ok? {
            assert Lexed(s).value[1..] == Lexed(s[n..]).value;
          }
      }
  }

  /** Feeding a first token, then the rest. */
  lemma FeedCons(st: Stack, t: Token, rest: seq<Token>)
    requires WellFormed(st)
    ensures Feed(st, [t] + rest) == if Step(st, t).Err? then Err(Step(st, t).error) else Feed(Step(st, t).value, rest)
  {
    assert ([t] + rest)[1..] == rest;
  }

  // ---------------------------------------------------------------- errors

  /** Empty input: the initial slot is never finished. */
  lemma EmptyInput()
    ensures ParseTokens([]) == Err(Incomplete)
  {
    assert ReduceStep(Initial, true).None?;
  }

  /** `and`, `or` or `)` where an operand is awaited is a missing operand. */
  lemma MissingOperand(st: Stack, t: Token, rest: seq<Token>)
    requires WellFormed(st) && TopAccepts(st) && !st[|st| - 1].node.Finished()
    requires t == AndKw || t == OrKw || t == RParen
    ensures FeedFinish(st, [t] + rest) == Err(Missing)
  {
    FeedCons(st, t, rest);
  }

  /** A query that starts with `and`, `or` or `)`. */
  lemma LeadingOperator(t: Token, rest: seq<Token>)
    requires t == AndKw || t == OrKw || t == RParen
    ensures ParseTokens([t] + rest) == Err(Missing)
  {
    MissingOperand(Initial, t, rest);
  }

  /** `not` after a finished operand is unexpected, whatever was read before and whatever follows. */
  lemma NotAfterOperand(toks: seq<Token>, st: Stack, rest: seq<Token>)
    requires WellFormed(st) && Feed(Initial, toks) == Ok(st)
    requires TopAccepts(st) && st[|st| - 1].node.Finished()
    ensures ParseTokens(toks + [NotKw] + rest) == Err(Unexpected)
  {
    FeedThenFail(toks, st, NotKw, rest);
  }

  /** For instance, `not` right after a leading selector string. */
  lemma NotAfterLiteral(a: string, rest: seq<Token>)
    requires a != ""
    ensures ParseTokens([Lit(a), NotKw] + rest) == Err(Unexpected)
  {
    FedA(a);
    NotAfterOperand([Lit(a)], [N(Slot(Exp, Some(a)))], rest);
    assert [Lit(a)] + [NotKw] + rest == [Lit(a), NotKw] + rest;
  }

  /**
   * `(` or more selector text after a finished operand without a selector string (an `AND` or
   * an `OR` node) is unexpected.
   */
  lemma TextAfterBoolean(toks: seq<Token>, st: Stack, t: Token, rest: seq<Token>)
    requires WellFormed(st) && Feed(Initial, toks) == Ok(st)
    requires TopAccepts(st) && st[|st| - 1].node.Finished() && !st[|st| - 1].node.HasString()
    requires t == LParen || (t.Lit? && t.text != "")
    ensures ParseTokens(toks + [t] + rest) == Err(Unexpected)
  {
    FeedThenFail(toks, st, t, rest);
  }

  /** A stack whose top is a `NOT` node or a `)` takes no token at all. */
  lemma RefusingTop(toks: seq<Token>, st: Stack, t: Token, rest: seq<Token>)
    requires WellFormed(st) && Feed(Initial, toks) == Ok(st) && !TopAccepts(st)
    ensures ParseTokens(toks + [t] + rest) == Err(Unexpected)
  {
    FeedThenFail(toks, st, t, rest);
  }

  /** Without a closing quote in the rest of the input, reading a quoted string fails. */
  lemma UnclosedScan(q: char, rest: string, acc: string)
    requires q !in rest
    ensures ScanQuoted(q, rest, acc) == Err(Expected)
  {
  }

  /** A quote mark with no matching quote after it fails the parse, whatever was read before. */
  lemma UnclosedQuote(st: Stack, s: string, q: char, n: nat)
    requires WellFormed(st) && Match(s) == Some((QuoteMark(q), n)) && q !in s[n..]
    ensures Run(st, s) == Err(Expected)
  {
    UnclosedScan(q, s[n..], "");
  }

  // ---------------------------------------------------------------- precedence and grouping

  /** Feeding two token sequences one after the other. */
  lemma {:induction false} FeedAppend(st: Stack, a: seq<Token>, b: seq<Token>)
    requires WellFormed(st)
    ensures Feed(st, a + b) == if Feed(st, a).Err? then Feed(st, a) else Feed(Feed(st, a).value, b)
    decreases |a|
  {
    if a == [] {
      assert a + b == b;
    } else {
      assert a + b == [a[0]] + (a[1..] + b);
      FeedCons(st, a[0], a[1..] + b);
      assert a == [a[0]] + a[1..];
      FeedCons(st, a[0], a[1..]);
      if Step(st, a[0]).Ok? {
        FeedAppend(Step(st, a[0]).value, a[1..], b);
      }
    }
  }

  /** Feeding a single token is one step. */
  lemma FeedOne(st: Stack, t: Token)
    requires WellFormed(st)
    ensures Feed(st, [t]) == Step(st, t)
  {
    FeedCons(st, t, []);
  }

  /** Extending a fed prefix by one token. */
  lemma FeedSnoc(toks: seq<Token>, t: Token, st: Stack, st': Stack)
    requires WellFormed(st) && Feed(Initial, toks) == Ok(st) && Step(st, t) == Ok(st')
    ensures Feed(Initial, toks + [t]) == Ok(st')
  {
    FeedAppend(Initial, toks, [t]);
    FeedOne(st, t);
    assert Feed(Initial, toks + [t]) == Feed(st, [t]);
  }

  /** `reduce` leaves a stack alone when no rule applies. */
  lemma NoReduction(st: Stack, final: bool)
    requires WellFormed(st) && ReduceStep(st, final).None?
    ensures Reduced(st, final) == st
  {
  }

  /** `reduce` goes on after a rule applied. */
  lemma OneReduction(st: Stack, final: bool, st': Stack)
    requires WellFormed(st) && ReduceStep(st, final) == Some(st')
    ensures Reduced(st, final) == Reduced(st', final)
  {
  }

  /** A literal shifted into an awaiting slot finishes it. */
  lemma ShiftLiteral(st: Stack, k: SlotKind, a: string)
    requires a != "" && WellFormed(st + [N(Slot(k, None))])
    ensures Step(st + [N(Slot(k, None))], Lit(a)) == Ok(st + [N(Slot(k, Some(a)))])
  {
    var s := st + [N(Slot(k, None))];
    assert s[..|s| - 1] == st;
  }

  /** A step that fails ends the parse with its error, whatever follows. */
  lemma FeedThenFail(toks: seq<Token>, st: Stack, t: Token, rest: seq<Token>)
    requires WellFormed(st) && Feed(Initial, toks) == Ok(st) && Step(st, t).Err?
    ensures ParseTokens(toks + [t] + rest) == Err(Step(st, t).error)
  {
    assert toks + [t] + rest == toks + ([t] + rest);
    FeedAppend(Initial, toks, [t] + rest);
    FeedCons(st, t, rest);
  }

  /** `(` or `not` read while an expression is awaited goes below the awaiting slot. */
  lemma ShiftPrefix(p: Stack, k: SlotKind, t: Token)
    requires t == LParen || t == NotKw
    requires WellFormed(p + [N(Slot(k, None))])
    ensures Step(p + [N(Slot(k, None))], t) == Ok(p + [Tok(t), N(Slot(k, None))])
  {
    var s := p + [N(Slot(k, None))];
    var top := N(Slot(k, None));
    assert s[|s| - 1] == top && TopAccepts(s) && !top.node.Finished();
    assert s[..|s| - 1] == p;
    if t == LParen {
      assert Step(s, t) == Ok(s[..|s| - 1] + [Tok(LParen), top]);
    } else {
      assert Step(s, t) == Ok(s[..|s| - 1] + [Tok(NotKw), top]);
    }
  }

  /** `or` or `and` read after a finished node reduces the stack, then awaits its right operand. */
  lemma ShiftOperator(st: Stack, t: Token, r: Stack)
    requires t == OrKw || t == AndKw
    requires WellFormed(st) && TopAccepts(st) && st[|st| - 1].node.Finished() && Reduced(st, false) == r
    ensures Step(st, t) == Ok(r + [Tok(t), N(Slot(if t == OrKw then AndExp else Exp, None))])
  {
  }

  /** `)` read after a finished node: reduce, push `)`, reduce again. */
  lemma ShiftClose(st: Stack, r1: Stack, r2: Stack)
    requires WellFormed(st) && TopAccepts(st) && st[|st| - 1].node.Finished()
    requires Reduced(st, false) == r1 && Reduced(r1 + [Tok(RParen)], false) == r2
    ensures Step(st, RParen) == Ok(r2)
  {
  }

  /** Reading `a`. */
  lemma FedA(a: string)
    requires a != ""
    ensures Feed(Initial, [Lit(a)]) == Ok([N(Slot(Exp, Some(a)))])
  {
    ShiftLiteral([], Exp, a);
    assert [] + [N(Slot(Exp, None))] == Initial && [] + [N(Slot(Exp, Some(a)))] == [N(Slot(Exp, Some(a)))];
    FeedSnoc([], Lit(a), Initial, [N(Slot(Exp, Some(a)))]);
    assert [] + [Lit(a)] == [Lit(a)];
  }

  /** Reading `a or`. */
  lemma FedAOr(a: string)
    requires a != ""
    ensures Feed(Initial, [Lit(a), OrKw]) == Ok([N(Slot(Exp, Some(a))), Tok(OrKw), N(Slot(AndExp, None))])
  {
    var A := N(Slot(Exp, Some(a)));
    FedA(a);
    NoReduction([A], false);
    ShiftOperator([A], OrKw, [A]);
    assert [A] + [Tok(OrKw), N(Slot(AndExp, None))] == [A, Tok(OrKw), N(Slot(AndExp, None))];
    FeedSnoc([Lit(a)], OrKw, [A], [A, Tok(OrKw), N(Slot(AndExp, None))]);
    assert [Lit(a)] + [OrKw] == [Lit(a), OrKw];
  }

  /** Reading `a or b`. */
  lemma FedAOrB(a: string, b: string)
    requires a != "" && b != ""
    ensures Feed(Initial, [Lit(a), OrKw, Lit(b)])
         == Ok([N(Slot(Exp, Some(a))), Tok(OrKw), N(Slot(AndExp, Some(b)))])
  {
    var A, B := N(Slot(Exp, Some(a))), N(Slot(AndExp, Some(b)));
    FedAOr(a);
    ShiftLiteral([A, Tok(OrKw)], AndExp, b);
    assert [A, Tok(OrKw)] + [N(Slot(AndExp, None))] == [A, Tok(OrKw), N(Slot(AndExp, None))];
    assert [A, Tok(OrKw)] + [B] == [A, Tok(OrKw), B];
    FeedSnoc([Lit(a), OrKw], Lit(b), [A, Tok(OrKw), N(Slot(AndExp, None))], [A, Tok(OrKw), B]);
    assert [Lit(a), OrKw] + [Lit(b)] == [Lit(a), OrKw, Lit(b)];
  }

  /** Reading `a or b` and then `and` or `or`: nothing reduces, since `b` is an `AND_EXP`. */
  lemma FedAOrBOp(a: string, b: string, t: Token)
    requires a != "" && b != "" && (t == OrKw || t == AndKw)
    ensures Feed(Initial, [Lit(a), OrKw, Lit(b), t])
         == Ok([N(Slot(Exp, Some(a))), Tok(OrKw), N(Slot(AndExp, Some(b))), Tok(t),
                N(Slot(if t == OrKw then AndExp else Exp, None))])
  {
    var A, B := N(Slot(Exp, Some(a))), N(Slot(AndExp, Some(b)));
    var s3 := [A, Tok(OrKw), B];
    var W := N(Slot(if t == OrKw then AndExp else Exp, None));
    FedAOrB(a, b);
    NoReduction(s3, false);
    ShiftOperator(s3, t, s3);
    assert s3 + [Tok(t), W] == [A, Tok(OrKw), B, Tok(t), W];
    FeedSnoc([Lit(a), OrKw, Lit(b)], t, s3, [A, Tok(OrKw), B, Tok(t), W]);
    assert [Lit(a), OrKw, Lit(b)] + [t] == [Lit(a), OrKw, Lit(b), t];
  }

  /** Reading `a or b` and then `and c` or `or c`. */
  lemma FedAOrBOpC(a: string, b: string, t: Token, c: string)
    requires a != "" && b != "" && c != "" && (t == OrKw || t == AndKw)
    ensures Feed(Initial, [Lit(a), OrKw, Lit(b), t, Lit(c)])
         == Ok([N(Slot(Exp, Some(a))), Tok(OrKw), N(Slot(AndExp, Some(b))), Tok(t),
                N(Slot(if t == OrKw then AndExp else Exp, Some(c)))])
  {
    var A, B := N(Slot(Exp, Some(a))), N(Slot(AndExp, Some(b)));
    var k := if t == OrKw then AndExp else Exp;
    var p := [A, Tok(OrKw), B, Tok(t)];
    FedAOrBOp(a, b, t);
    ShiftLiteral(p, k, c);
    assert p + [N(Slot(k, None))] == [A, Tok(OrKw), B, Tok(t), N(Slot(k, None))];
    assert p + [N(Slot(k, Some(c)))] == [A, Tok(OrKw), B, Tok(t), N(Slot(k, Some(c)))];
    FeedSnoc([Lit(a), OrKw, Lit(b), t], Lit(c), p + [N(Slot(k, None))], p + [N(Slot(k, Some(c)))]);
    assert [Lit(a), OrKw, Lit(b), t] + [Lit(c)] == [Lit(a), OrKw, Lit(b), t, Lit(c)];
  }

  /** `a or b and c` is `OR(a, AND(b, c))`: `and` binds tighter than `or`. */
  lemma OrThenAnd(a: string, b: string, c: string)
    requires a != "" && b != "" && c != ""
    ensures ParseTokens([Lit(a), OrKw, Lit(b), AndKw, Lit(c)])
         == Ok(Or(Slot(Exp, Some(a)), And(Slot(AndExp, Some(b)), Slot(Exp, Some(c)))))
  {
    var A, B, C := N(Slot(Exp, Some(a))), N(Slot(AndExp, Some(b))), N(Slot(Exp, Some(c)));
    FedAOrBOpC(a, b, AndKw, c);
    var s5 := [A, Tok(OrKw), B, Tok(AndKw), C];
    var s6 := [A, Tok(OrKw), N(And(B.node, C.node))];
    assert s5[..2] == [A, Tok(OrKw)] && [A, Tok(OrKw)] + [N(And(B.node, C.node))] == s6;
    OneReduction(s5, true, s6);
    var s7 := [N(Or(A.node, And(B.node, C.node)))];
    assert s6[..0] == [] && [] + s7 == s7;
    OneReduction(s6, true, s7);
    NoReduction(s7, true);
  }

  /** `a or b or c` is `OR(a, OR(b, c))`: chained `or` groups to the right. */
  lemma OrChain(a: string, b: string, c: string)
    requires a != "" && b != "" && c != ""
    ensures ParseTokens([Lit(a), OrKw, Lit(b), OrKw, Lit(c)])
         == Ok(Or(Slot(Exp, Some(a)), Or(Slot(AndExp, Some(b)), Slot(AndExp, Some(c)))))
  {
    var A, B, C := N(Slot(Exp, Some(a))), N(Slot(AndExp, Some(b))), N(Slot(AndExp, Some(c)));
    FedAOrBOpC(a, b, OrKw, c);
    var s5 := [A, Tok(OrKw), B, Tok(OrKw), C];
    var s6 := [A, Tok(OrKw), N(Or(B.node, C.node))];
    assert s5[..2] == [A, Tok(OrKw)] && [A, Tok(OrKw)] + [N(Or(B.node, C.node))] == s6;
    OneReduction(s5, true, s6);
    var s7 := [N(Or(A.node, Or(B.node, C.node)))];
    assert s6[..0] == [] && [] + s7 == s7;
    OneReduction(s6, true, s7);
    NoReduction(s7, true);
  }

  /** Reading `a and`. */
  lemma FedAAnd(a: string)
    requires a != ""
    ensures Feed(Initial, [Lit(a), AndKw]) == Ok([N(Slot(Exp, Some(a))), Tok(AndKw), N(Slot(Exp, None))])
  {
    var A := N(Slot(Exp, Some(a)));
    FedA(a);
    NoReduction([A], false);
    ShiftOperator([A], AndKw, [A]);
    assert [A] + [Tok(AndKw), N(Slot(Exp, None))] == [A, Tok(AndKw), N(Slot(Exp, None))];
    FeedSnoc([Lit(a)], AndKw, [A], [A, Tok(AndKw), N(Slot(Exp, None))]);
    assert [Lit(a)] + [AndKw] == [Lit(a), AndKw];
  }

  /** Reading `a and b`. */
  lemma FedAAndB(a: string, b: string)
    requires a != "" && b != ""
    ensures Feed(Initial, [Lit(a), AndKw, Lit(b)])
         == Ok([N(Slot(Exp, Some(a))), Tok(AndKw), N(Slot(Exp, Some(b)))])
  {
    var A, B := N(Slot(Exp, Some(a))), N(Slot(Exp, Some(b)));
    FedAAnd(a);
    ShiftLiteral([A, Tok(AndKw)], Exp, b);
    assert [A, Tok(AndKw)] + [N(Slot(Exp, None))] == [A, Tok(AndKw), N(Slot(Exp, None))];
    assert [A, Tok(AndKw)] + [B] == [A, Tok(AndKw), B];
    FeedSnoc([Lit(a), AndKw], Lit(b), [A, Tok(AndKw), N(Slot(Exp, None))], [A, Tok(AndKw), B]);
    assert [Lit(a), AndKw] + [Lit(b)] == [Lit(a), AndKw, Lit(b)];
  }

  /** Reading `a and b or`: the `or` reduces `a and b` before it is shifted. */
  lemma FedAAndBOr(a: string, b: string)
    requires a != "" && b != ""
    ensures Feed(Initial, [Lit(a), AndKw, Lit(b), OrKw])
         == Ok([N(And(Slot(Exp, Some(a)), Slot(Exp, Some(b)))), Tok(OrKw), N(Slot(AndExp, None))])
  {
    var A, B := N(Slot(Exp, Some(a))), N(Slot(Exp, Some(b)));
    var AB := N(And(A.node, B.node));
    var s3 := [A, Tok(AndKw), B];
    FedAAndB(a, b);
    assert s3[..0] == [] && [] + [AB] == [AB];
    OneReduction(s3, false, [AB]);
    NoReduction([AB], false);
    ShiftOperator(s3, OrKw, [AB]);
    assert [AB] + [Tok(OrKw), N(Slot(AndExp, None))] == [AB, Tok(OrKw), N(Slot(AndExp, None))];
    FeedSnoc([Lit(a), AndKw, Lit(b)], OrKw, s3, [AB, Tok(OrKw), N(Slot(AndExp, None))]);
    assert [Lit(a), AndKw, Lit(b)] + [OrKw] == [Lit(a), AndKw, Lit(b), OrKw];
  }

  /** Reading `a and b or c`. */
  lemma FedAAndBOrC(a: string, b: string, c: string)
    requires a != "" && b != "" && c != ""
    ensures Feed(Initial, [Lit(a), AndKw, Lit(b), OrKw, Lit(c)])
         == Ok([N(And(Slot(Exp, Some(a)), Slot(Exp, Some(b)))), Tok(OrKw), N(Slot(AndExp, Some(c)))])
  {
    var AB, C := N(And(Slot(Exp, Some(a)), Slot(Exp, Some(b)))), N(Slot(AndExp, Some(c)));
    FedAAndBOr(a, b);
    ShiftLiteral([AB, Tok(OrKw)], AndExp, c);
    assert [AB, Tok(OrKw)] + [N(Slot(AndExp, None))] == [AB, Tok(OrKw), N(Slot(AndExp, None))];
    assert [AB, Tok(OrKw)] + [C] == [AB, Tok(OrKw), C];
    FeedSnoc([Lit(a), AndKw, Lit(b), OrKw], Lit(c), [AB, Tok(OrKw), N(Slot(AndExp, None))], [AB, Tok(OrKw), C]);
    assert [Lit(a), AndKw, Lit(b), OrKw] + [Lit(c)] == [Lit(a), AndKw, Lit(b), OrKw, Lit(c)];
  }

  /** `a and b or c` is `OR(AND(a, b), c)`. */
  lemma AndThenOr(a: string, b: string, c: string)
    requires a != "" && b != "" && c != ""
    ensures ParseTokens([Lit(a), AndKw, Lit(b), OrKw, Lit(c)])
         == Ok(Or(And(Slot(Exp, Some(a)), Slot(Exp, Some(b))), Slot(AndExp, Some(c))))
  {
    var AB, C := N(And(Slot(Exp, Some(a)), Slot(Exp, Some(b)))), N(Slot(AndExp, Some(c)));
    FedAAndBOrC(a, b, c);
    var s5 := [AB, Tok(OrKw), C];
    var s6 := [N(Or(AB.node, C.node))];
    assert s5[..0] == [] && [] + s6 == s6;
    OneReduction(s5, true, s6);
    NoReduction(s6, true);
  }

  /** Reading `a or not`. */
  lemma FedAOrNot(a: string)
    requires a != ""
    ensures Feed(Initial, [Lit(a), OrKw, NotKw])
         == Ok([N(Slot(Exp, Some(a))), Tok(OrKw), Tok(NotKw), N(Slot(AndExp, None))])
  {
    var A := N(Slot(Exp, Some(a)));
    FedAOr(a);
    ShiftPrefix([A, Tok(OrKw)], AndExp, NotKw);
    assert [A, Tok(OrKw)] + [N(Slot(AndExp, None))] == [A, Tok(OrKw), N(Slot(AndExp, None))];
    assert [A, Tok(OrKw)] + [Tok(NotKw), N(Slot(AndExp, None))] == [A, Tok(OrKw), Tok(NotKw), N(Slot(AndExp, None))];
    FeedSnoc([Lit(a), OrKw], NotKw, [A, Tok(OrKw), N(Slot(AndExp, None))],
             [A, Tok(OrKw), Tok(NotKw), N(Slot(AndExp, None))]);
    assert [Lit(a), OrKw] + [NotKw] == [Lit(a), OrKw, NotKw];
  }

  /** Reading `a or not b`. */
  lemma FedAOrNotB(a: string, b: string)
    requires a != "" && b != ""
    ensures Feed(Initial, [Lit(a), OrKw, NotKw, Lit(b)])
         == Ok([N(Slot(Exp, Some(a))), Tok(OrKw), Tok(NotKw), N(Slot(AndExp, Some(b)))])
  {
    var A, B := N(Slot(Exp, Some(a))), N(Slot(AndExp, Some(b)));
    var p := [A, Tok(OrKw), Tok(NotKw)];
    FedAOrNot(a);
    ShiftLiteral(p, AndExp, b);
    assert p + [N(Slot(AndExp, None))] == [A, Tok(OrKw), Tok(NotKw), N(Slot(AndExp, None))];
    assert p + [B] == [A, Tok(OrKw), Tok(NotKw), B];
    FeedSnoc([Lit(a), OrKw, NotKw], Lit(b), p + [N(Slot(AndExp, None))], p + [B]);
    assert [Lit(a), OrKw, NotKw] + [Lit(b)] == [Lit(a), OrKw, NotKw, Lit(b)];
  }

  /** `reduce` on `a or not b`: the `not` and then the `or` both reduce. */
  lemma OrNotReduced(a: string, b: string)
    ensures Reduced([N(Slot(Exp, Some(a))), Tok(OrKw), Tok(NotKw), N(Slot(AndExp, Some(b)))], false)
         == [N(Or(Slot(Exp, Some(a)), Not(Slot(AndExp, Some(b)))))]
  {
    var A, B := N(Slot(Exp, Some(a))), N(Slot(AndExp, Some(b)));
    var O := N(Or(A.node, Not(B.node)));
    var s4 := [A, Tok(OrKw), Tok(NotKw), B];
    var s5 := [A, Tok(OrKw), N(Not(B.node))];
    assert s4[..2] == [A, Tok(OrKw)] && [A, Tok(OrKw)] + [N(Not(B.node))] == s5;
    OneReduction(s4, false, s5);
    assert s5[..0] == [] && [] + [O] == [O];
    OneReduction(s5, false, [O]);
    NoReduction([O], false);
  }

  /** Reading `a or not b and`: `and` has reduced `a or not b` before it was shifted. */
  lemma FedAOrNotBAnd(a: string, b: string)
    requires a != "" && b != ""
    ensures Feed(Initial, [Lit(a), OrKw, NotKw, Lit(b), AndKw])
         == Ok([N(Or(Slot(Exp, Some(a)), Not(Slot(AndExp, Some(b))))), Tok(AndKw), N(Slot(Exp, None))])
  {
    var s4 := [N(Slot(Exp, Some(a))), Tok(OrKw), Tok(NotKw), N(Slot(AndExp, Some(b)))];
    var O := N(Or(Slot(Exp, Some(a)), Not(Slot(AndExp, Some(b)))));
    FedAOrNotB(a, b);
    OrNotReduced(a, b);
    ShiftOperator(s4, AndKw, [O]);
    assert [O] + [Tok(AndKw), N(Slot(Exp, None))] == [O, Tok(AndKw), N(Slot(Exp, None))];
    FeedSnoc([Lit(a), OrKw, NotKw, Lit(b)], AndKw, s4, [O, Tok(AndKw), N(Slot(Exp, None))]);
    assert [Lit(a), OrKw, NotKw, Lit(b)] + [AndKw] == [Lit(a), OrKw, NotKw, Lit(b), AndKw];
  }

  /** Reading `a or not b and c`. */
  lemma FedAOrNotBAndC(a: string, b: string, c: string)
    requires a != "" && b != "" && c != ""
    ensures Feed(Initial, [Lit(a), OrKw, NotKw, Lit(b), AndKw, Lit(c)])
         == Ok([N(Or(Slot(Exp, Some(a)), Not(Slot(AndExp, Some(b))))), Tok(AndKw), N(Slot(Exp, Some(c)))])
  {
    var O, C := N(Or(Slot(Exp, Some(a)), Not(Slot(AndExp, Some(b))))), N(Slot(Exp, Some(c)));
    FedAOrNotBAnd(a, b);
    ShiftLiteral([O, Tok(AndKw)], Exp, c);
    assert [O, Tok(AndKw)] + [N(Slot(Exp, None))] == [O, Tok(AndKw), N(Slot(Exp, None))];
    assert [O, Tok(AndKw)] + [C] == [O, Tok(AndKw), C];
    FeedSnoc([Lit(a), OrKw, NotKw, Lit(b), AndKw], Lit(c), [O, Tok(AndKw), N(Slot(Exp, None))], [O, Tok(AndKw), C]);
    assert [Lit(a), OrKw, NotKw, Lit(b), AndKw] + [Lit(c)] == [Lit(a), OrKw, NotKw, Lit(b), AndKw, Lit(c)];
  }

  /**
   * `a or not b and c` is `AND(OR(a, NOT(b)), c)`, not `OR(a, AND(NOT(b), c))`: once `not b`
   * is reduced, the `or` below it is reduced too before `and` is shifted.
   */
  lemma OrNotAnd(a: string, b: string, c: string)
    requires a != "" && b != "" && c != ""
    ensures ParseTokens([Lit(a), OrKw, NotKw, Lit(b), AndKw, Lit(c)])
         == Ok(And(Or(Slot(Exp, Some(a)), Not(Slot(AndExp, Some(b)))), Slot(Exp, Some(c))))
  {
    var O, C := N(Or(Slot(Exp, Some(a)), Not(Slot(AndExp, Some(b))))), N(Slot(Exp, Some(c)));
    FedAOrNotBAndC(a, b, c);
    var s7 := [O, Tok(AndKw), C];
    var s8 := [N(And(O.node, C.node))];
    assert s7[..0] == [] && [] + s8 == s8;
    OneReduction(s7, true, s8);
    NoReduction(s8, true);
  }

  /** Reading `a and not`, then `a and not not`: each `not` goes below the awaiting slot. */
  lemma FedAAndNot(a: string)
    requires a != ""
    ensures Feed(Initial, [Lit(a), AndKw, NotKw])
         == Ok([N(Slot(Exp, Some(a))), Tok(AndKw), Tok(NotKw), N(Slot(Exp, None))])
    ensures Feed(Initial, [Lit(a), AndKw, NotKw, NotKw])
         == Ok([N(Slot(Exp, Some(a))), Tok(AndKw), Tok(NotKw), Tok(NotKw), N(Slot(Exp, None))])
  {
    var A, E := N(Slot(Exp, Some(a))), N(Slot(Exp, None));
    FedAAnd(a);
    ShiftPrefix([A, Tok(AndKw)], Exp, NotKw);
    assert [A, Tok(AndKw)] + [E] == [A, Tok(AndKw), E];
    assert [A, Tok(AndKw)] + [Tok(NotKw), E] == [A, Tok(AndKw), Tok(NotKw), E];
    FeedSnoc([Lit(a), AndKw], NotKw, [A, Tok(AndKw), E], [A, Tok(AndKw), Tok(NotKw), E]);
    assert [Lit(a), AndKw] + [NotKw] == [Lit(a), AndKw, NotKw];
    ShiftPrefix([A, Tok(AndKw), Tok(NotKw)], Exp, NotKw);
    assert [A, Tok(AndKw), Tok(NotKw)] + [E] == [A, Tok(AndKw), Tok(NotKw), E];
    assert [A, Tok(AndKw), Tok(NotKw)] + [Tok(NotKw), E] == [A, Tok(AndKw), Tok(NotKw), Tok(NotKw), E];
    FeedSnoc([Lit(a), AndKw, NotKw], NotKw, [A, Tok(AndKw), Tok(NotKw), E], [A, Tok(AndKw), Tok(NotKw), Tok(NotKw), E]);
    assert [Lit(a), AndKw, NotKw] + [NotKw] == [Lit(a), AndKw, NotKw, NotKw];
  }

  /** Reading `a and not not b`. */
  lemma FedAAndNotNotB(a: string, b: string)
    requires a != "" && b != ""
    ensures Feed(Initial, [Lit(a), AndKw, NotKw, NotKw, Lit(b)])
         == Ok([N(Slot(Exp, Some(a))), Tok(AndKw), Tok(NotKw), Tok(NotKw), N(Slot(Exp, Some(b)))])
  {
    var A, B := N(Slot(Exp, Some(a))), N(Slot(Exp, Some(b)));
    var p := [A, Tok(AndKw), Tok(NotKw), Tok(NotKw)];
    FedAAndNot(a);
    ShiftLiteral(p, Exp, b);
    assert p + [N(Slot(Exp, None))] == [A, Tok(AndKw), Tok(NotKw), Tok(NotKw), N(Slot(Exp, None))];
    assert p + [B] == [A, Tok(AndKw), Tok(NotKw), Tok(NotKw), B];
    FeedSnoc([Lit(a), AndKw, NotKw, NotKw], Lit(b), p + [N(Slot(Exp, None))], p + [B]);
    assert [Lit(a), AndKw, NotKw, NotKw] + [Lit(b)] == [Lit(a), AndKw, NotKw, NotKw, Lit(b)];
  }

  /** `a and not not b` is `AND(a, b)`: two `not`s in the middle of a query cancel as well. */
  lemma AndNotNot(a: string, b: string)
    requires a != "" && b != ""
    ensures ParseTokens([Lit(a), AndKw, NotKw, NotKw, Lit(b)])
         == Ok(And(Slot(Exp, Some(a)), Slot(Exp, Some(b))))
  {
    var A, B := N(Slot(Exp, Some(a))), N(Slot(Exp, Some(b)));
    FedAAndNotNotB(a, b);
    var s5 := [A, Tok(AndKw), Tok(NotKw), Tok(NotKw), B];
    var s6 := [A, Tok(AndKw), Tok(NotKw), N(Not(B.node))];
    assert s5[..3] == [A, Tok(AndKw), Tok(NotKw)] && [A, Tok(AndKw), Tok(NotKw)] + [N(Not(B.node))] == s6;
    OneReduction(s5, true, s6);
    var s7 := [A, Tok(AndKw), B];
    assert s6[..2] == [A, Tok(AndKw)] && [A, Tok(AndKw)] + [B] == s7;
    OneReduction(s6, true, s7);
    var s8 := [N(And(A.node, B.node))];
    assert s7[..0] == [] && [] + s8 == s8;
    OneReduction(s7, true, s8);
    NoReduction(s8, true);
  }

  // ---------------------------------------------------------------- parentheses

  /** Reading `(`. */
  lemma FedOpen()
    ensures Feed(Initial, [LParen]) == Ok([Tok(LParen), N(Slot(Exp, None))])
  {
    ShiftPrefix([], Exp, LParen);
    assert [] + [N(Slot(Exp, None))] == Initial;
    assert [] + [Tok(LParen), N(Slot(Exp, None))] == [Tok(LParen), N(Slot(Exp, None))];
    FeedSnoc([], LParen, Initial, [Tok(LParen), N(Slot(Exp, None))]);
    assert [] + [LParen] == [LParen];
  }

  /** Reading `( a` opens a group around the awaited expression. */
  lemma FedOpenA(a: string)
    requires a != ""
    ensures Feed(Initial, [LParen, Lit(a)]) == Ok([Tok(LParen), N(Slot(Exp, Some(a)))])
  {
    FedOpen();
    ShiftLiteral([Tok(LParen)], Exp, a);
    assert [Tok(LParen)] + [N(Slot(Exp, None))] == [Tok(LParen), N(Slot(Exp, None))];
    assert [Tok(LParen)] + [N(Slot(Exp, Some(a)))] == [Tok(LParen), N(Slot(Exp, Some(a)))];
    FeedSnoc([LParen], Lit(a), [Tok(LParen), N(Slot(Exp, None))], [Tok(LParen), N(Slot(Exp, Some(a)))]);
    assert [LParen] + [Lit(a)] == [LParen, Lit(a)];
  }

  /** `reduce` on `( x )` with nothing below: the parentheses go. */
  lemma CloseGroup(x: Node)
    requires x.Finished()
    ensures Reduced([Tok(LParen), N(x), Tok(RParen)], false) == [N(x)]
  {
    var s := [Tok(LParen), N(x), Tok(RParen)];
    assert s[..0] == [] && [] + [s[1]] == [N(x)];
    OneReduction(s, false, [N(x)]);
    NoReduction([N(x)], false);
  }

  /** Reading `( x )` for a group whose content has been reduced to one finished node. */
  lemma FedClosed(toks: seq<Token>, st: Stack, x: Node)
    requires x.Finished() && WellFormed(st)
    requires Feed(Initial, toks) == Ok(st) && Reduced(st, false) == [Tok(LParen), N(x)]
    requires st[|st| - 1].N? && !st[|st| - 1].node.Not? && st[|st| - 1].node.Finished()
    ensures Feed(Initial, toks + [RParen]) == Ok([N(x)])
  {
    CloseGroup(x);
    assert [Tok(LParen), N(x)] + [Tok(RParen)] == [Tok(LParen), N(x), Tok(RParen)];
    ShiftClose(st, [Tok(LParen), N(x)], [N(x)]);
    FeedSnoc(toks, RParen, st, [N(x)]);
  }

  /** `( a )` is `a`: parentheses around an expression only group it. */
  lemma Grouping(a: string)
    requires a != ""
    ensures ParseTokens([LParen, Lit(a), RParen]) == Ok(Slot(Exp, Some(a)))
  {
    var A := N(Slot(Exp, Some(a)));
    FedOpenA(a);
    NoReduction([Tok(LParen), A], false);
    FedClosed([LParen, Lit(a)], [Tok(LParen), A], A.node);
    assert [LParen, Lit(a)] + [RParen] == [LParen, Lit(a), RParen];
    NoReduction([A], true);
  }

  /** Reading `l (`: the parenthesis opens a nested selector string. */
  lemma FedLOpen(l: string)
    requires l != ""
    ensures Feed(Initial, [Lit(l), LParen]) == Ok([N(Slot(Exp, Some(l))), Tok(LParen), N(Slot(Exp, Some("")))])
  {
    var L := N(Slot(Exp, Some(l)));
    FedA(l);
    assert [L] + [Tok(LParen), N(Slot(Exp, Some("")))] == [L, Tok(LParen), N(Slot(Exp, Some("")))];
    FeedSnoc([Lit(l)], LParen, [L], [L, Tok(LParen), N(Slot(Exp, Some("")))]);
    assert [Lit(l)] + [LParen] == [Lit(l), LParen];
  }

  /** Reading `l ( m`. */
  lemma FedLOpenM(l: string, m: string)
    requires l != "" && m != ""
    ensures Feed(Initial, [Lit(l), LParen, Lit(m)])
         == Ok([N(Slot(Exp, Some(l))), Tok(LParen), N(Slot(Exp, Some(m)))])
  {
    var L := N(Slot(Exp, Some(l)));
    var s2 := [L, Tok(LParen), N(Slot(Exp, Some("")))];
    var s3 := [L, Tok(LParen), N(Slot(Exp, Some(m)))];
    FedLOpen(l);
    assert "" + m == m;
    assert s2[..2] == [L, Tok(LParen)] && [L, Tok(LParen)] + [N(Slot(Exp, Some("" + m)))] == s3;
    FeedSnoc([Lit(l), LParen], Lit(m), s2, s3);
    assert [Lit(l), LParen] + [Lit(m)] == [Lit(l), LParen, Lit(m)];
  }

  /**
   * `l ( m )` is the single selector string `l( m ) `: parentheses right after selector text
   * belong to the selector, with a space kept after the closing one.
   */
  lemma SelectorParens(l: string, m: string)
    requires l != "" && m != ""
    ensures ParseTokens([Lit(l), LParen, Lit(m), RParen]) == Ok(Slot(Exp, Some(l + "( " + m + " ) ")))
  {
    var L, M := N(Slot(Exp, Some(l))), N(Slot(Exp, Some(m)));
    var R := N(Slot(Exp, Some(l + "( " + m + " ) ")));
    FedLOpenM(l, m);
    var s3 := [L, Tok(LParen), M];
    NoReduction(s3, false);
    var s4 := [L, Tok(LParen), M, Tok(RParen)];
    assert s3 + [Tok(RParen)] == s4;
    assert s4[..0] == [] && [] + [R] == [R];
    OneReduction(s4, false, [R]);
    NoReduction([R], false);
    ShiftClose(s3, s3, [R]);
    FeedSnoc([Lit(l), LParen, Lit(m)], RParen, s3, [R]);
    assert [Lit(l), LParen, Lit(m)] + [RParen] == [Lit(l), LParen, Lit(m), RParen];
    NoReduction([R], true);
  }

  /** Reading `( a` and then `and` or `or`. */
  lemma FedOpenAOp(a: string, t: Token)
    requires a != "" && (t == OrKw || t == AndKw)
    ensures Feed(Initial, [LParen, Lit(a), t])
         == Ok([Tok(LParen), N(Slot(Exp, Some(a))), Tok(t), N(Slot(if t == OrKw then AndExp else Exp, None))])
  {
    var A := N(Slot(Exp, Some(a)));
    var W := N(Slot(if t == OrKw then AndExp else Exp, None));
    FedOpenA(a);
    NoReduction([Tok(LParen), A], false);
    ShiftOperator([Tok(LParen), A], t, [Tok(LParen), A]);
    assert [Tok(LParen), A] + [Tok(t), W] == [Tok(LParen), A, Tok(t), W];
    FeedSnoc([LParen, Lit(a)], t, [Tok(LParen), A], [Tok(LParen), A, Tok(t), W]);
    assert [LParen, Lit(a)] + [t] == [LParen, Lit(a), t];
  }

  /** Reading `( a or b` or `( a and b`. */
  lemma FedOpenAOpB(a: string, t: Token, b: string)
    requires a != "" && b != "" && (t == OrKw || t == AndKw)
    ensures Feed(Initial, [LParen, Lit(a), t, Lit(b)])
         == Ok([Tok(LParen), N(Slot(Exp, Some(a))), Tok(t), N(Slot(if t == OrKw then AndExp else Exp, Some(b)))])
  {
    var A := N(Slot(Exp, Some(a)));
    var k := if t == OrKw then AndExp else Exp;
    var p := [Tok(LParen), A, Tok(t)];
    FedOpenAOp(a, t);
    ShiftLiteral(p, k, b);
    assert p + [N(Slot(k, None))] == [Tok(LParen), A, Tok(t), N(Slot(k, None))];
    assert p + [N(Slot(k, Some(b)))] == [Tok(LParen), A, Tok(t), N(Slot(k, Some(b)))];
    FeedSnoc([LParen, Lit(a), t], Lit(b), p + [N(Slot(k, None))], p + [N(Slot(k, Some(b)))]);
    assert [LParen, Lit(a), t] + [Lit(b)] == [LParen, Lit(a), t, Lit(b)];
  }

  /** Reading `( a or b )`: the `or` never reduces, so `)` stays on the stack. */
  lemma FedGroupedOr(a: string, b: string)
    requires a != "" && b != ""
    ensures Feed(Initial, [LParen, Lit(a), OrKw, Lit(b), RParen])
         == Ok([Tok(LParen), N(Slot(Exp, Some(a))), Tok(OrKw), N(Slot(AndExp, Some(b))), Tok(RParen)])
  {
    var A, B := N(Slot(Exp, Some(a))), N(Slot(AndExp, Some(b)));
    var s4 := [Tok(LParen), A, Tok(OrKw), B];
    FedOpenAOpB(a, OrKw, b);
    NoReduction(s4, false);
    var s5 := s4 + [Tok(RParen)];
    assert s5 == [Tok(LParen), A, Tok(OrKw), B, Tok(RParen)];
    NoReduction(s5, false);
    ShiftClose(s4, s4, s5);
    FeedSnoc([LParen, Lit(a), OrKw, Lit(b)], RParen, s4, s5);
    assert [LParen, Lit(a), OrKw, Lit(b)] + [RParen] == [LParen, Lit(a), OrKw, Lit(b), RParen];
  }

  /**
   * `( a or b )`, with a plain string as the last operand of `or`, does not parse: it is an
   * incomplete expression at the end of the input, and any token after it is unexpected.
   */
  lemma GroupedOr(a: string, b: string, t: Token, rest: seq<Token>)
    requires a != "" && b != ""
    ensures ParseTokens([LParen, Lit(a), OrKw, Lit(b), RParen]) == Err(Incomplete)
    ensures ParseTokens([LParen, Lit(a), OrKw, Lit(b), RParen] + [t] + rest) == Err(Unexpected)
  {
    FedGroupedOr(a, b);
    var s5 := [Tok(LParen), N(Slot(Exp, Some(a))), Tok(OrKw), N(Slot(AndExp, Some(b))), Tok(RParen)];
    NoReduction(s5, true);
    FeedThenFail([LParen, Lit(a), OrKw, Lit(b), RParen], s5, t, rest);
  }

  /** Reading `( not`. */
  lemma FedOpenNot()
    ensures Feed(Initial, [LParen, NotKw]) == Ok([Tok(LParen), Tok(NotKw), N(Slot(Exp, None))])
  {
    FedOpen();
    ShiftPrefix([Tok(LParen)], Exp, NotKw);
    assert [Tok(LParen)] + [N(Slot(Exp, None))] == [Tok(LParen), N(Slot(Exp, None))];
    assert [Tok(LParen)] + [Tok(NotKw), N(Slot(Exp, None))] == [Tok(LParen), Tok(NotKw), N(Slot(Exp, None))];
    FeedSnoc([LParen], NotKw, [Tok(LParen), N(Slot(Exp, None))], [Tok(LParen), Tok(NotKw), N(Slot(Exp, None))]);
    assert [LParen] + [NotKw] == [LParen, NotKw];
  }

  /** Reading `( not a`. */
  lemma FedOpenNotA(a: string)
    requires a != ""
    ensures Feed(Initial, [LParen, NotKw, Lit(a)]) == Ok([Tok(LParen), Tok(NotKw), N(Slot(Exp, Some(a)))])
  {
    var p := [Tok(LParen), Tok(NotKw)];
    FedOpenNot();
    ShiftLiteral(p, Exp, a);
    assert p + [N(Slot(Exp, None))] == [Tok(LParen), Tok(NotKw), N(Slot(Exp, None))];
    assert p + [N(Slot(Exp, Some(a)))] == [Tok(LParen), Tok(NotKw), N(Slot(Exp, Some(a)))];
    FeedSnoc([LParen, NotKw], Lit(a), p + [N(Slot(Exp, None))], p + [N(Slot(Exp, Some(a)))]);
    assert [LParen, NotKw] + [Lit(a)] == [LParen, NotKw, Lit(a)];
  }

  /** Reading `( not a )` leaves a bare `NOT` node on the stack. */
  lemma FedGroupedNot(a: string)
    requires a != ""
    ensures Feed(Initial, [LParen, NotKw, Lit(a), RParen]) == Ok([N(Not(Slot(Exp, Some(a))))])
  {
    var A := N(Slot(Exp, Some(a)));
    var NA := N(Not(A.node));
    var s3 := [Tok(LParen), Tok(NotKw), A];
    FedOpenNotA(a);
    assert s3[..1] == [Tok(LParen)] && [Tok(LParen)] + [NA] == [Tok(LParen), NA];
    OneReduction(s3, false, [Tok(LParen), NA]);
    NoReduction([Tok(LParen), NA], false);
    CloseGroup(NA.node);
    assert [Tok(LParen), NA] + [Tok(RParen)] == [Tok(LParen), NA, Tok(RParen)];
    ShiftClose(s3, [Tok(LParen), NA], [NA]);
    FeedSnoc([LParen, NotKw, Lit(a)], RParen, s3, [NA]);
    assert [LParen, NotKw, Lit(a)] + [RParen] == [LParen, NotKw, Lit(a), RParen];
  }

  /**
   * `( not a )` is `NOT(a)` on its own, but nothing may follow it: a `NOT` node on top of
   * the stack takes no token.
   */
  lemma GroupedNot(a: string, t: Token, rest: seq<Token>)
    requires a != ""
    ensures ParseTokens([LParen, NotKw, Lit(a), RParen]) == Ok(Not(Slot(Exp, Some(a))))
    ensures ParseTokens([LParen, NotKw, Lit(a), RParen] + [t] + rest) == Err(Unexpected)
  {
    FedGroupedNot(a);
    var NA := N(Not(Slot(Exp, Some(a))));
    NoReduction([NA], true);
    FeedThenFail([LParen, NotKw, Lit(a), RParen], [NA], t, rest);
  }

  /** Reading `( a and b )` leaves the `AND` node on the stack. */
  lemma FedGroupedAnd(a: string, b: string)
    requires a != "" && b != ""
    ensures Feed(Initial, [LParen, Lit(a), AndKw, Lit(b), RParen])
         == Ok([N(And(Slot(Exp, Some(a)), Slot(Exp, Some(b))))])
  {
    var A, B := N(Slot(Exp, Some(a))), N(Slot(Exp, Some(b)));
    var AB := N(And(A.node, B.node));
    var s4 := [Tok(LParen), A, Tok(AndKw), B];
    FedOpenAOpB(a, AndKw, b);
    assert s4[..1] == [Tok(LParen)] && [Tok(LParen)] + [AB] == [Tok(LParen), AB];
    OneReduction(s4, false, [Tok(LParen), AB]);
    NoReduction([Tok(LParen), AB], false);
    FedClosed([LParen, Lit(a), AndKw, Lit(b)], s4, AB.node);
    assert [LParen, Lit(a), AndKw, Lit(b)] + [RParen] == [LParen, Lit(a), AndKw, Lit(b), RParen];
  }

  /**
   * `( a and b )` is `AND(a, b)`; after it, `not`, `(` or more selector text is unexpected,
   * since an `AND` node has no selector string to extend.
   */
  lemma GroupedAnd(a: string, b: string, t: Token, rest: seq<Token>)
    requires a != "" && b != ""
    requires t == NotKw || t == LParen || (t.Lit? && t.text != "")
    ensures ParseTokens([LParen, Lit(a), AndKw, Lit(b), RParen]) == Ok(And(Slot(Exp, Some(a)), Slot(Exp, Some(b))))
    ensures ParseTokens([LParen, Lit(a), AndKw, Lit(b), RParen] + [t] + rest) == Err(Unexpected)
  {
    FedGroupedAnd(a, b);
    var AB := N(And(Slot(Exp, Some(a)), Slot(Exp, Some(b))));
    NoReduction([AB], true);
    FeedThenFail([LParen, Lit(a), AndKw, Lit(b), RParen], [AB], t, rest);
  }

  // ---------------------------------------------------------------- quoted strings

  /** `indexOf` finds the first occurrence. */
  lemma IndexOfFirst(s: string, c: char, i: nat)
    requires i < |s| && s[i] == c && c !in s[..i]
    ensures IndexOf(s, c) == Some(i)
  {
  }

  /** One round of the quoted-string loop: the piece up to the next quote is read. */
  lemma ScanPiece(q: char, c: string, r: string, acc: string)
    requires q !in c
    ensures var acc' := acc + c + (if |c| > 0 && c[|c| - 1] == '\\' then [q] else []);
      ScanQuoted(q, c + [q] + r, acc)
      == if |acc'| > 0 && acc'[|acc'| - 1] == q then ScanQuoted(q, r, acc') else Ok((acc', r))
  {
    var s := c + [q] + r;
    assert s[..|c|] == c;
    IndexOfFirst(s, q, |c|);
    assert s[|c| + 1..] == r;
  }

  /** A quoted string without quotes inside, not ending in a backslash, is read up to its closing quote. */
  lemma ClosedQuote(q: char, c: string, r: string)
    requires q !in c && (c == [] || c[|c| - 1] != '\\')
    ensures ScanQuoted(q, c + [q] + r, "") == Ok((c, r))
  {
    ScanPiece(q, c, r, "");
    assert "" + c + [] == c;
  }

  /** A backslash before a quote keeps the quote, with its backslash, in the string and reading goes on. */
  lemma EscapedQuote(q: char, c: string, d: string, r: string)
    requires q == '"' || q == '\''
    requires q !in c && q !in d && d != [] && d[|d| - 1] != '\\'
    ensures ScanQuoted(q, c + ['\\', q] + d + [q] + r, "") == Ok((c + ['\\', q] + d, r))
  {
    var c1 := c + ['\\'];
    var acc := c + ['\\', q];
    assert c + ['\\', q] + d + [q] + r == c1 + [q] + (d + [q] + r);
    ScanPiece(q, c1, d + [q] + r, "");
    assert "" + c1 + [q] == acc;
    ScanPiece(q, d, r, acc);
    assert acc + d + [] == c + ['\\', q] + d;
  }

  /**
   * An escaped quote right before the closing quote makes the closing quote look escaped
   * too: reading goes past it, and at the end of the input the quote is reported missing.
   */
  lemma EscapedQuoteBeforeClose(q: char, c: string)
    requires q == '"' || q == '\''
    requires q !in c
    ensures ScanQuoted(q, c + ['\\', q, q], "") == Err(Expected)
  {
    var c1 := c + ['\\'];
    var acc := c + ['\\', q];
    assert c + ['\\', q, q] == c1 + [q] + [q];
    ScanPiece(q, c1, [q], "");
    assert "" + c1 + [q] == acc;
    ScanPiece(q, [], [], acc);
    assert [] + [q] + [] == [q] && acc + [] + [] == acc;
  }

  /** A query that starts with a quote mark (and holds more than it) is read from a quote-mark token. */
  lemma QuoteMarkFirst(q: char, c: string)
    requires q == '"' || q == '\''
    ensures Match([q] + c + [q]) == Some((QuoteMark(q), 1))
  {
    var s := [q] + c + [q];
    assert SpaceEnd(s, 0) == 0;
    if 3 < |s| {
      assert s[0..3][0] == q;
    }
    if 2 < |s| {
      assert s[0..2][0] == q;
    }
  }

  /** A query whose only token is one literal is that literal. */
  lemma LiteralAlone(lit: string)
    requires lit != ""
    ensures Step(Initial, Lit(lit)) == Ok([N(Slot(Exp, Some(lit)))])
    ensures Run([N(Slot(Exp, Some(lit)))], []) == Ok(Slot(Exp, Some(lit)))
  {
    ShiftLiteral([], Exp, lit);
    assert [] + [N(Slot(Exp, None))] == Initial && [] + [N(Slot(Exp, Some(lit)))] == [N(Slot(Exp, Some(lit)))];
    assert Match([]) == None;
    NoReduction([N(Slot(Exp, Some(lit)))], true);
  }

  /** A whole query that is one quoted string is that string, double-quoted. */
  lemma QuotedQuery(q: char, c: string)
    requires q == '"' || q == '\''
    requires q !in c && (c == [] || c[|c| - 1] != '\\')
    ensures Parsed([q] + c + [q]) == Ok(Slot(Exp, Some(QuotedLiteral(q, c))))
  {
    var s := [q] + c + [q];
    QuoteMarkFirst(q, c);
    assert s[1..] == c + [q] + [];
    ClosedQuote(q, c, []);
    var lit := QuotedLiteral(q, c);
    assert lit[0] == '"';
    LiteralAlone(lit);
  }

  /** Reading `\"` back as `"`: the reverse of `EscapeDoubleQuotes`. */
  function UnescapeDoubleQuotes(s: string): string
    decreases |s|
  {
    if |s| == 0 then ""
    else if |s| >= 2 && s[0] == '\\' && s[1] == '"' then "\"" + UnescapeDoubleQuotes(s[2..])
    else [s[0]] + UnescapeDoubleQuotes(s[1..])
  }

  /** Escaping loses nothing: the single-quoted content is recovered from the double-quoted literal. */
  lemma {:induction false} EscapeRoundTrip(s: string)
    ensures UnescapeDoubleQuotes(EscapeDoubleQuotes(s)) == s
    decreases |s|
  {
    if |s| > 0 {
      var e, rest := EscapeDoubleQuotes(s), EscapeDoubleQuotes(s[1..]);
      EscapeRoundTrip(s[1..]);
      if s[0] == '"' {
        assert e == "\\\"" + rest && e[2..] == rest;
      } else {
        assert e == [s[0]] + rest && e[1..] == rest;
        assert rest == [] || rest[0] != '"';
      }
      assert s == [s[0]] + s[1..];
    }
  }

  /** Every double quote in `r` has a backslash in front of it. */
  predicate QuotesEscaped(r: string) {
    forall i | 0 <= i < |r| && r[i] == '"' :: 0 < i && r[i - 1] == '\\'
  }

  /** Every double quote in the escaped text has a backslash in front of it. */
  lemma {:induction false} EscapedQuotesArePreceded(s: string)
    ensures QuotesEscaped(EscapeDoubleQuotes(s))
    decreases |s|
  {
    if |s| > 0 {
      EscapedQuotesArePreceded(s[1..]);
      var r, rest := EscapeDoubleQuotes(s), EscapeDoubleQuotes(s[1..]);
      var h := if s[0] == '"' then "\\\"" else [s[0]];
      assert r == h + rest;
      forall i | 0 <= i < |r| && r[i] == '"'
        ensures 0 < i && r[i - 1] == '\\'
      {
        if i >= |h| {
          var j := i - |h|;
          assert 0 <= j < |rest| && rest[j] == '"';
          assert 0 < j && rest[j - 1] == '\\';
          assert r[i - 1] == rest[j - 1];
        } else {
          assert s[0] == '"';
          assert i == 1;
          assert r[0] == h[0];
        }
      }
    }
  }
}
