/**
 * `not not E` is `E`. The `not` rule of `reduce` turns `not NOT(E)` back into `E`, so two
 * `not`s at the start of a query change nothing: not the tree, not the error. The proof
 * runs the parser twice side by side, once with two `not` tokens at the bottom of the
 * stack, and shows that each step keeps them at the bottom or consumes them together.
 */
module Negation {
  import opened Basics
  import opened Lexer
  import opened Parser
  import opened ParserLaws

  /** A `NOT` node on the stack wraps a finished node that is not itself a `NOT`. */
  predicate NormalItem(it: Item) {
    it.N? && it.node.Not? ==> it.node.exp.Finished() && !it.node.exp.Not?
  }

  /** Every `NOT` node on the stack is one that `reduce` can have built. */
  predicate Normal(st: Stack) {
    forall i | 0 <= i < |st| :: NormalItem(st[i])
  }

  /** Two `not` tokens. */
  const Nots: Stack := [Tok(NotKw), Tok(NotKw)]

  /** A stack holding a single finished node. */
  predicate Single(st: Stack) {
    |st| == 1 && st[0].N? && st[0].node.Finished()
  }

  /** The stack `p` is `s`, or `s` with two `not`s beneath it. */
  predicate SameOrUnder(p: Stack, s: Stack) {
    p == s || p == Nots + s
  }

  // ---------------------------------------------------------------- NOT nodes stay normal

  /** A reduction step builds only normal `NOT` nodes. */
  lemma ReduceStepNormal(st: Stack, final: bool)
    requires WellFormed(st) && Normal(st)
    ensures ReduceStep(st, final).Some? ==> Normal(ReduceStep(st, final).value)
  {
    var n := |st|;
    assert forall k | 0 <= k <= n :: Normal(st[..k]);
  }

  /** `reduce` builds only normal `NOT` nodes. */
  lemma {:induction false} ReducedNormal(st: Stack, final: bool)
    requires WellFormed(st) && Normal(st)
    ensures Normal(Reduced(st, final))
    decreases |st|
  {
    match ReduceStep(st, final)
    case None =>
    case Some(next) =>
      ReduceStepNormal(st, final);
      ReducedNormal(next, final);
  }

  /** Shifting a token builds only normal `NOT` nodes. */
  lemma StepNormal(st: Stack, t: Token)
    requires WellFormed(st) && Normal(st)
    ensures Step(st, t).Ok? ==> Normal(Step(st, t).value)
  {
    var n := |st|;
    assert Normal(st[..n - 1]);
    ReducedNormal(st, false);
    if TopAccepts(st) && st[n - 1].node.Finished() && t == RParen {
      var r := Reduced(st, false);
      assert Normal(r + [Tok(RParen)]);
      ReducedNormal(r + [Tok(RParen)], false);
    }
  }

  // ---------------------------------------------------------------- two `not`s at the bottom

  /** Below a stack of two entries or more, the `not`s are out of reach of every reduction rule. */
  lemma ReduceStepUnder(st: Stack, final: bool)
    requires WellFormed(st) && |st| >= 2
    ensures WellFormed(Nots + st)
    ensures ReduceStep(Nots + st, final)
         == if ReduceStep(st, final).None? then None else Some(Nots + ReduceStep(st, final).value)
  {
    var p := Nots + st;
    var n, m := |p|, |st|;
    assert p[n - 1] == st[m - 1] && p[n - 2] == st[m - 2];
    assert p[..n - 2] == Nots + st[..m - 2];
    if m == 2 {
      assert p[n - 3] == Tok(NotKw) && p[n - 4] == Tok(NotKw);
      var top := st[m - 1];
      if top.N? {
        var z := N(if top.node.Not? then top.node.exp else Not(top.node));
        assert p[..n - 2] + [z] == Nots + (st[..m - 2] + [z]);
      }
    } else if m == 3 {
      assert p[n - 3] == st[m - 3] && p[n - 4] == Tok(NotKw);
      assert p[..n - 3] == Nots + st[..m - 3];
      assert p[..n - 3] + [st[m - 2]] == Nots + (st[..m - 3] + [st[m - 2]]);
      var top := st[m - 1];
      if top.N? && st[0].N? {
        var z := N(if top.node.Not? then top.node.exp else Not(top.node));
        assert p[..n - 2] + [z] == Nots + (st[..m - 2] + [z]);
        var a, o := N(And(st[0].node, top.node)), N(Or(st[0].node, top.node));
        assert p[..n - 3] + [a] == Nots + (st[..m - 3] + [a]);
        assert p[..n - 3] + [o] == Nots + (st[..m - 3] + [o]);
      } else if top.N? {
        var z := N(if top.node.Not? then top.node.exp else Not(top.node));
        assert p[..n - 2] + [z] == Nots + (st[..m - 2] + [z]);
      }
    } else {
      assert p[n - 3] == st[m - 3] && p[n - 4] == st[m - 4];
      assert p[..n - 3] == Nots + st[..m - 3];
      assert p[..n - 4] == Nots + st[..m - 4];
      assert p[..n - 3] + [st[m - 2]] == Nots + (st[..m - 3] + [st[m - 2]]);
      var top := st[m - 1];
      if top.N? {
        var z := N(if top.node.Not? then top.node.exp else Not(top.node));
        assert p[..n - 2] + [z] == Nots + (st[..m - 2] + [z]);
        if st[m - 3].N? {
          var a, o := N(And(st[m - 3].node, top.node)), N(Or(st[m - 3].node, top.node));
          assert p[..n - 3] + [a] == Nots + (st[..m - 3] + [a]);
          assert p[..n - 3] + [o] == Nots + (st[..m - 3] + [o]);
        }
      } else if StringOf(st[m - 2]).Some? && StringOf(st[m - 4]).Some? {
        var host := st[m - 4].node;
        var h := N(Slot(host.kind, Some(host.text.value + "( " + st[m - 2].node.text.value + " ) ")));
        assert p[..n - 4] + [h] == Nots + (st[..m - 4] + [h]);
      }
    }
  }

  /** `not not X` reduces to `X` for a finished node `X`. */
  lemma SingleUnder(x: Node, final: bool)
    requires x.Finished() && NormalItem(N(x))
    ensures WellFormed(Nots + [N(x)])
    ensures Reduced(Nots + [N(x)], final) == [N(x)]
  {
    var p := Nots + [N(x)];
    assert p == [Tok(NotKw), Tok(NotKw), N(x)];
    assert p[..1] == [Tok(NotKw)];
    if x.Not? {
      var q := [Tok(NotKw), N(x.exp)];
      assert [Tok(NotKw)] + [N(x.exp)] == q;
      assert ReduceStep(p, final) == Some(q);
      assert q[..0] == [] && [] + [N(x)] == [N(x)];
      assert ReduceStep(q, final) == Some([N(x)]);
    } else {
      var q := [Tok(NotKw), N(Not(x))];
      assert [Tok(NotKw)] + [N(Not(x))] == q;
      assert ReduceStep(p, final) == Some(q);
      assert q[..0] == [] && [] + [N(x)] == [N(x)];
      assert ReduceStep(q, final) == Some([N(x)]);
    }
    assert ReduceStep([N(x)], final).None?;
    assert Reduced([N(x)], final) == [N(x)];
  }

  /**
   * `reduce` over a stack with two `not`s beneath it: the `not`s stay, unless the stack
   * comes down to one finished node, which absorbs them.
   */
  lemma {:induction false} ReducedUnder(st: Stack, final: bool)
    requires WellFormed(st) && Normal(st)
    ensures WellFormed(Nots + st)
    ensures Reduced(Nots + st, final)
         == if Single(Reduced(st, final)) then Reduced(st, final) else Nots + Reduced(st, final)
    decreases |st|
  {
    if |st| >= 2 {
      ReduceStepUnder(st, final);
      match ReduceStep(st, final)
      case None =>
      case Some(next) =>
        ReduceStepNormal(st, final);
        ReducedUnder(next, final);
    } else if st[0].N? && st[0].node.Finished() {
      assert st == [N(st[0].node)];
      SingleUnder(st[0].node, final);
    } else {
      assert |st| == 1 && (Nots + st)[2] == st[0];
      assert ReduceStep(Nots + st, final).None?;
      assert ReduceStep(st, final).None?;
    }
  }

  /** The two `reduce` calls around pushing `)` keep or absorb two `not`s beneath the stack alike. */
  lemma ReduceCloseUnder(st: Stack)
    requires WellFormed(st) && Normal(st) && st[|st| - 1] != Tok(RParen)
    ensures WellFormed(Nots + st)
    ensures WellFormed(Reduced(st, false) + [Tok(RParen)])
    ensures WellFormed(Reduced(Nots + st, false) + [Tok(RParen)])
    ensures SameOrUnder(Reduced(Reduced(Nots + st, false) + [Tok(RParen)], false),
                        Reduced(Reduced(st, false) + [Tok(RParen)], false))
  {
    ReducedUnder(st, false);
    var r, q := Reduced(st, false), Reduced(Nots + st, false);
    if Single(r) {
      assert q == r;
    } else {
      assert q == Nots + r;
      ReducedNormal(st, false);
      CloseKeptUnder(r);
    }
  }

  /** When the first `reduce` keeps the `not`s, the second one keeps or absorbs them. */
  lemma CloseKeptUnder(r: Stack)
    requires WellFormed(r) && Normal(r) && r[|r| - 1] != Tok(RParen)
    ensures WellFormed(r + [Tok(RParen)]) && WellFormed(Nots + r + [Tok(RParen)])
    ensures SameOrUnder(Reduced(Nots + r + [Tok(RParen)], false), Reduced(r + [Tok(RParen)], false))
  {
    assert Normal(r + [Tok(RParen)]);
    ReducedUnder(r + [Tok(RParen)], false);
    assert Nots + r + [Tok(RParen)] == Nots + (r + [Tok(RParen)]);
  }

  /** `)` with two `not`s beneath the stack: both `reduce` calls keep or absorb them alike. */
  lemma CloseUnder(st: Stack)
    requires WellFormed(st) && Normal(st)
    ensures WellFormed(Nots + st)
    ensures Step(Nots + st, RParen).Err? == Step(st, RParen).Err?
    ensures Step(st, RParen).Err? ==> Step(Nots + st, RParen).error == Step(st, RParen).error
    ensures Step(st, RParen).Ok? ==> SameOrUnder(Step(Nots + st, RParen).value, Step(st, RParen).value)
  {
    var p := Nots + st;
    var n, m := |p|, |st|;
    assert p[n - 1] == st[m - 1];
    if TopAccepts(st) && st[m - 1].node.Finished() {
      ReduceCloseUnder(st);
      assert Step(st, RParen) == Ok(Reduced(Reduced(st, false) + [Tok(RParen)], false));
      assert Step(p, RParen) == Ok(Reduced(Reduced(p, false) + [Tok(RParen)], false));
    }
  }

  /** `and` or `or` with two `not`s beneath the stack: the `reduce` before the shift keeps or absorbs them. */
  lemma OperatorUnder(st: Stack, t: Token)
    requires WellFormed(st) && Normal(st) && (t == AndKw || t == OrKw)
    ensures WellFormed(Nots + st)
    ensures Step(Nots + st, t).Err? == Step(st, t).Err?
    ensures Step(st, t).Err? ==> Step(Nots + st, t).error == Step(st, t).error
    ensures Step(st, t).Ok? ==> SameOrUnder(Step(Nots + st, t).value, Step(st, t).value)
  {
    var p := Nots + st;
    var n, m := |p|, |st|;
    assert p[n - 1] == st[m - 1];
    if TopAccepts(st) && st[m - 1].node.Finished() {
      ReducedUnder(st, false);
      var r := Reduced(st, false);
      var tail := [Tok(t), N(Slot(if t == OrKw then AndExp else Exp, None))];
      assert (Nots + r) + tail == Nots + (r + tail);
    }
  }

  /** Any other token with two `not`s beneath the stack only touches the top of the stack. */
  lemma ShiftUnder(st: Stack, t: Token)
    requires WellFormed(st) && t != AndKw && t != OrKw && t != RParen
    ensures WellFormed(Nots + st)
    ensures Step(Nots + st, t).Err? == Step(st, t).Err?
    ensures Step(st, t).Err? ==> Step(Nots + st, t).error == Step(st, t).error
    ensures Step(st, t).Ok? ==> Step(Nots + st, t).value == Nots + Step(st, t).value
  {
    var p := Nots + st;
    var n, m := |p|, |st|;
    assert p[n - 1] == st[m - 1];
    assert p[..n - 1] == Nots + st[..m - 1];
    var top := st[m - 1];
    if TopAccepts(st) {
      if !top.node.Finished() {
        assert p[..n - 1] + [Tok(t), top] == Nots + (st[..m - 1] + [Tok(t), top]);
        if t.Lit? {
          var x := N(Slot(top.node.kind, Some(t.text)));
          assert p[..n - 1] + [x] == Nots + (st[..m - 1] + [x]);
        }
      } else if t == LParen {
        var tail := [Tok(LParen), N(Slot(Exp, Some("")))];
        assert p + tail == Nots + (st + tail);
      } else if t.Lit? && top.node.HasString() {
        var x := N(Slot(top.node.kind, Some(top.node.text.value + t.text)));
        assert p[..n - 1] + [x] == Nots + (st[..m - 1] + [x]);
      }
    }
  }

  /** A step with two `not`s beneath the stack fails alike, or succeeds keeping or absorbing them. */
  lemma StepUnder(st: Stack, t: Token)
    requires WellFormed(st) && Normal(st)
    ensures WellFormed(Nots + st)
    ensures Step(Nots + st, t).Err? == Step(st, t).Err?
    ensures Step(st, t).Err? ==> Step(Nots + st, t).error == Step(st, t).error
    ensures Step(st, t).Ok? ==> SameOrUnder(Step(Nots + st, t).value, Step(st, t).value)
  {
    if t == RParen {
      CloseUnder(st);
    } else if t == AndKw || t == OrKw {
      OperatorUnder(st, t);
    } else {
      ShiftUnder(st, t);
    }
  }

  /** The end of the parse ignores two `not`s beneath the stack. */
  lemma FinishUnder(st: Stack)
    requires WellFormed(st) && Normal(st)
    ensures WellFormed(Nots + st)
    ensures Finish(Nots + st) == Finish(st)
  {
    ReducedUnder(st, true);
  }

  /** The rest of a parse ignores two `not`s beneath the stack. */
  lemma {:induction false} RunUnder(st: Stack, s: string)
    requires WellFormed(st) && Normal(st)
    ensures WellFormed(Nots + st)
    ensures Run(Nots + st, s) == Run(st, s)
    decreases |s|
  {
    FinishUnder(st);
    match Match(s)
    case None =>
    case Some((t, n)) =>
      if t.QuoteMark? {
        match ScanQuoted(t.q, s[n..], "")
        case Err(e) =>
        case Ok((str, rest)) =>
          var lit := Lit(QuotedLiteral(t.q, str));
          StepUnder(st, lit);
          StepNormal(st, lit);
          if Step(st, lit).Ok? {
            RunUnder(Step(st, lit).value, rest);
          }
      } else {
        StepUnder(st, t);
        StepNormal(st, t);
        if Step(st, t).Ok? {
          RunUnder(Step(st, t).value, s[n..]);
        }
      }
  }

  /** Shifting a token sequence and finishing ignores two `not`s beneath the stack. */
  lemma {:induction false} FeedUnder(st: Stack, toks: seq<Token>)
    requires WellFormed(st) && Normal(st)
    ensures WellFormed(Nots + st)
    ensures FeedFinish(Nots + st, toks) == FeedFinish(st, toks)
    decreases |toks|
  {
    FinishUnder(st);
    if toks != [] {
      var t := toks[0];
      assert toks == [t] + toks[1..];
      FeedCons(st, t, toks[1..]);
      FeedCons(Nots + st, t, toks[1..]);
      StepUnder(st, t);
      StepNormal(st, t);
      if Step(st, t).Ok? {
        FeedUnder(Step(st, t).value, toks[1..]);
      }
    }
  }

  // ---------------------------------------------------------------- no double negation anywhere

  /** No `NOT` node in the tree wraps another `NOT` node: `not not` has always collapsed. */
  predicate Deep(n: Node) {
    match n
    case Slot(_, _) => true
    case And(l, r) => Deep(l) && Deep(r)
    case Or(l, r) => Deep(l) && Deep(r)
    case Not(e) => !e.Not? && Deep(e)
  }

  /** Every node on the stack is free of double negation. */
  predicate DeepStack(st: Stack) {
    forall i | 0 <= i < |st| :: st[i].N? ==> Deep(st[i].node)
  }

  /** A reduction step builds no double negation: `not NOT(E)` gives `E` back instead. */
  lemma ReduceStepDeep(st: Stack, final: bool)
    requires WellFormed(st) && DeepStack(st)
    ensures ReduceStep(st, final).Some? ==> DeepStack(ReduceStep(st, final).value)
  {
    var n := |st|;
    assert forall k | 0 <= k <= n :: DeepStack(st[..k]);
  }

  /** `reduce` builds no double negation. */
  lemma {:induction false} ReducedDeep(st: Stack, final: bool)
    requires WellFormed(st) && DeepStack(st)
    ensures DeepStack(Reduced(st, final))
    decreases |st|
  {
    match ReduceStep(st, final)
    case None =>
    case Some(next) =>
      ReduceStepDeep(st, final);
      ReducedDeep(next, final);
  }

  /** Shifting a token builds no double negation. */
  lemma StepDeep(st: Stack, t: Token)
    requires WellFormed(st) && DeepStack(st)
    ensures Step(st, t).Ok? ==> DeepStack(Step(st, t).value)
  {
    var n := |st|;
    assert DeepStack(st[..n - 1]);
    ReducedDeep(st, false);
    if TopAccepts(st) && st[n - 1].node.Finished() && t == RParen {
      var r := Reduced(st, false);
      assert DeepStack(r + [Tok(RParen)]);
      ReducedDeep(r + [Tok(RParen)], false);
    }
  }

  /** The rest of a parse from a stack free of double negation yields a tree free of it. */
  lemma {:induction false} RunDeep(st: Stack, s: string)
    requires WellFormed(st) && DeepStack(st)
    ensures Run(st, s).Ok? ==> Deep(Run(st, s).value)
    decreases |s|
  {
    ReducedDeep(st, true);
    match Match(s)
    case None =>
    case Some((t, n)) =>
      if t.QuoteMark? {
        match ScanQuoted(t.q, s[n..], "")
        case Err(e) =>
        case Ok((str, rest)) =>
          var lit := Lit(QuotedLiteral(t.q, str));
          StepDeep(st, lit);
          if Step(st, lit).Ok? {
            RunDeep(Step(st, lit).value, rest);
          }
      } else {
        StepDeep(st, t);
        if Step(st, t).Ok? {
          RunDeep(Step(st, t).value, s[n..]);
        }
      }
  }

  /**
   * A parse tree never holds `NOT(NOT(E))`, wherever the two `not`s stood in the query
   * (`a and not not b`, `( not not a )`): `reduce` collapses them as it meets them.
   */
  lemma ParsedDeep(s: string)
    ensures Parsed(s).Ok? ==> Deep(Parsed(s).value)
  {
    RunDeep(Initial, s);
  }

  // ---------------------------------------------------------------- the theorems

  /** Two leading `not` tokens change neither the tree nor the error of a parse. */
  lemma NotNotTokens(toks: seq<Token>)
    ensures ParseTokens([NotKw, NotKw] + toks) == ParseTokens(toks)
  {
    var s1 := [Tok(NotKw), N(Slot(Exp, None))];
    assert Initial[..0] == [] && [] + [Tok(NotKw), N(Slot(Exp, None))] == s1;
    assert s1[..1] == [Tok(NotKw)] && [Tok(NotKw)] + [Tok(NotKw), N(Slot(Exp, None))] == Nots + Initial;
    assert Step(Initial, NotKw) == Ok(s1) && Step(s1, NotKw) == Ok(Nots + Initial);
    assert [NotKw, NotKw] + toks == [NotKw] + ([NotKw] + toks);
    FeedCons(Initial, NotKw, [NotKw] + toks);
    FeedCons(s1, NotKw, toks);
    FeedUnder(Initial, toks);
  }

  /**
   * A query prefixed with `not not ` parses exactly as the query does (when the query does
   * not itself start with white space, which a selector string would keep).
   */
  lemma NotNotPrefix(s: string)
    requires s == [] || !IsSpace(s[0])
    ensures Parsed("not not " + s) == Parsed(s)
  {
    var s0 := "not not " + s;
    var s1 := "not " + s;
    assert s0[0..3] == "not" && s0[4..] == s1;
    assert SpaceEnd(s0, 4) == 4;
    assert Match(s0) == Some((NotKw, 4));
    assert s1[0..3] == "not" && s1[4..] == s;
    assert SpaceEnd(s1, 4) == 4;
    assert Match(s1) == Some((NotKw, 4));
    var st1 := [Tok(NotKw), N(Slot(Exp, None))];
    assert Initial[..0] == [] && [] + [Tok(NotKw), N(Slot(Exp, None))] == st1;
    assert st1[..1] == [Tok(NotKw)] && [Tok(NotKw)] + [Tok(NotKw), N(Slot(Exp, None))] == Nots + Initial;
    assert Step(Initial, NotKw) == Ok(st1) && Step(st1, NotKw) == Ok(Nots + Initial);
    assert Run(Initial, s0) == Run(st1, s1);
    assert Run(st1, s1) == Run(Nots + Initial, s);
    RunUnder(Initial, s);
  }
}
