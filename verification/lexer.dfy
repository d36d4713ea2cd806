/**
 * The tokenizer of the boolean query language (`token` in select.js): a cascade of
 * anchored regular expressions tried in a fixed order over the remaining input held
 * by a cursor object, which the call advances past the matched prefix.
 */
module Lexer {
  import opened Basics

  /** The `\s` class of JavaScript regular expressions (white space and line terminators). */
  predicate IsSpace(c: char) {
    || c == ' ' || c == '\t' || c == '\n' || c == '\r' || c == '\U{000B}' || c == '\U{000C}'
    || c == '\U{00A0}' || c == '\U{1680}' || ('\U{2000}' <= c <= '\U{200A}')
    || c == '\U{2028}' || c == '\U{2029}' || c == '\U{202F}' || c == '\U{205F}'
    || c == '\U{3000}' || c == '\U{FEFF}'
  }

  /** The class `[^\s^'^"^\(^\)]` of a selector run: no white space, `^`, quote or parenthesis. */
  predicate IsRunChar(c: char) {
    !IsSpace(c) && c != '^' && c != '\'' && c != '"' && c != '(' && c != ')'
  }

  /** What `token` returns: a keyword, a parenthesis, a bare quote character, or a selector run. */
  datatype Token = NotKw | AndKw | OrKw | LParen | RParen | QuoteMark(q: char) | Lit(text: string)

  /** End of the longest run of white space in `s` that starts at `i` (a greedy `\s*`). */
  function SpaceEnd(s: string, i: nat): (j: nat)
    requires i <= |s|
    ensures i <= j <= |s|
    ensures forall k :: i <= k < j ==> IsSpace(s[k])
    ensures j < |s| ==> !IsSpace(s[j])
    decreases |s| - i
  {
    if i < |s| && IsSpace(s[i]) then SpaceEnd(s, i + 1) else i
  }

  /** End of the longest run of selector characters in `s` that starts at `i`. */
  function RunEnd(s: string, i: nat): (j: nat)
    requires i <= |s|
    ensures i <= j <= |s|
    ensures forall k :: i <= k < j ==> IsRunChar(s[k])
    ensures j < |s| ==> !IsRunChar(s[j])
    decreases |s| - i
  {
    if i < |s| && IsRunChar(s[i]) then RunEnd(s, i + 1) else i
  }

  /** The keyword `w` stands at `k` and at least one white-space character follows it (`w\s+`). */
  predicate KeywordAt(s: string, k: nat, w: string)
    requires k <= |s|
  {
    k + |w| < |s| && s[k..k + |w|] == w && IsSpace(s[k + |w|])
  }

  /** The first pattern of the cascade that matches at the start of `s`, with the length of m[0]. */
  function Match(s: string): (r: Option<(Token, nat)>)
    ensures r.Some? ==> 0 < r.value.1 <= |s|
  {
    MatchAt(s, SpaceEnd(s, 0))
  }

  /** The cascade once the leading white space `s[..k]` has been skipped. */
  function MatchAt(s: string, k: nat): (r: Option<(Token, nat)>)
    requires k <= |s|
    ensures r.Some? ==> k < r.value.1 <= |s|
  {
    if KeywordAt(s, k, "not") then Some((NotKw, SpaceEnd(s, k + 3)))
    else if KeywordAt(s, k, "and") then Some((AndKw, SpaceEnd(s, k + 3)))
    else if KeywordAt(s, k, "or") then Some((OrKw, SpaceEnd(s, k + 2)))
    else if k < |s| && s[k] == '(' then Some((LParen, SpaceEnd(s, k + 1)))
    else if k < |s| && s[k] == ')' then Some((RParen, SpaceEnd(s, k + 1)))
    else if k < |s| && s[k] == '"' then Some((QuoteMark('"'), k + 1))
    else if k < |s| && s[k] == '\'' then Some((QuoteMark('\''), k + 1))
    else if k < |s| && IsRunChar(s[k]) then
      var n := SpaceEnd(s, RunEnd(s, k));
      Some((Lit(s[..n]), n))
    else None
  }

  /** The spelling of a keyword token. */
  function KeywordText(t: Token): string
  {
    match t
    case NotKw => "not"
    case AndKw => "and"
    case _ => "or"
  }

  /** A keyword is recognised only when at least one white-space character follows the word. */
  lemma KeywordNeedsSpace(s: string)
    requires Match(s).Some? && Match(s).value.0 in {NotKw, AndKw, OrKw}
    ensures var k, w := SpaceEnd(s, 0), KeywordText(Match(s).value.0);
      k + |w| < |s| && s[k..k + |w|] == w && IsSpace(s[k + |w|])
  {
  }

  /** A selector run is exactly the consumed prefix and holds no quote, parenthesis or `^`. */
  lemma LiteralIsPrefix(s: string)
    requires Match(s).Some? && Match(s).value.0.Lit?
    ensures Match(s).value.0.text == s[..Match(s).value.1]
    ensures forall c | c in Match(s).value.0.text :: c != '\'' && c != '"' && c != '(' && c != ')' && c != '^'
  {
    var k := SpaceEnd(s, 0);
    var e := RunEnd(s, k);
    var n := SpaceEnd(s, e);
    assert Match(s).value == (Lit(s[..n]), n);
    forall c | c in s[..n]
      ensures c != '\'' && c != '"' && c != '(' && c != ')' && c != '^'
    {
      var i :| 0 <= i < n && s[i] == c;
      assert IsSpace(s[i]) || IsRunChar(s[i]);
    }
  }

  /** A keyword found at `k` starts with the keyword's first letter. */
  lemma KeywordHead(s: string, k: nat, w: string)
    requires k <= |s| && w != [] && KeywordAt(s, k, w)
    ensures s[k] == w[0]
  {
    assert s[k..k + |w|][0] == s[k];
  }

  /** No rule matches at a visible position `k` exactly when it is the end of the input or a `^`. */
  lemma NoMatchAt(s: string, k: nat)
    requires k <= |s| && (k < |s| ==> !IsSpace(s[k]))
    ensures MatchAt(s, k).None? <==> k == |s| || s[k] == '^'
  {
    if k < |s| && s[k] == '^' {
      if KeywordAt(s, k, "not") { KeywordHead(s, k, "not"); }
      if KeywordAt(s, k, "and") { KeywordHead(s, k, "and"); }
      if KeywordAt(s, k, "or") { KeywordHead(s, k, "or"); }
    }
  }

  /** No rule matches exactly when only white space is left or the next visible character is `^`. */
  lemma NoMatch(s: string)
    ensures Match(s).None? <==> SpaceEnd(s, 0) == |s| || s[SpaceEnd(s, 0)] == '^'
  {
    NoMatchAt(s, SpaceEnd(s, 0));
  }

  /** The object `{next: string}` whose `next` field `token` advances. */
  class Cursor {
    var next: string

    constructor (s: string)
      ensures next == s
    {
      next := s;
    }

    /** `token(input)`: classify the next piece of input and consume exactly its matched prefix. */
    method NextToken() returns (t: Option<Token>)
      modifies this
      ensures Match(old(next)).None? ==> t.None? && next == old(next)
      ensures Match(old(next)).Some? ==>
        t == Some(Match(old(next)).value.0) &&
        old(next) == old(next)[..Match(old(next)).value.1] + next
    {
      var m := Match(next);
      if m.Some? {
        t := Some(m.value.0);
        next := next[m.value.1..];
      } else {
        t := None;
      }
    }
  }
}
