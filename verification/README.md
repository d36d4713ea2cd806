# x-select boolean queries, in Dafny

x-select wraps a JSONSelect-style selector engine in a small boolean query language.
You can write `.a and not .b`, `( .x or .y ) and .z`, or `.items - .hidden`.
The entry function `M(obj, s, options)` works in four stages:

1. It tokenizes the query with a cascade of anchored regular expressions (`token`).
2. It parses the tokens with a shift-reduce parser (`parse` and its inner `reduce`).
3. It evaluates the tree with short-circuit `and` / `or` (`eval`).
4. It answers with a result set. A query that is one selector string returns that selector's own result set (`select`). Any other query returns one of two canonical sets, the `empty` one or the `not_empty` one.

A result set can subtract other selectors (` - `). It also drops every value on a skip list, which by default holds `undefined`, `null`, `NaN` and `false` (`NaN` is not a value of the model, see "## Left out"). The skip list can be derived persistently with `not` and `add`.

The model follows the code as written, including behaviours the grammar comment in the source does not suggest. The lemmas in `ParserLaws` prove the first four of these, and `Lexer.NoMatch` proves the last:

- `a or not b and c` parses as `AND(OR(a, NOT b), c)`.
- `( not a )` parses, but any token after it is unexpected.
- `( a or b )` does not parse when the last operand of `or` is a plain string. The `or` waits for more and the `)` is never reduced.
- An escaped quote just before the closing quote makes the closing quote count as escaped too.
- A `^` silently ends tokenization.

The project is organised as follows:

- `Lexer` holds the tokenizer and the cursor object whose `next` field it advances.
- `Parser` holds the parser. Functions specify it, and methods run it on a stack the way the source does. Each method is proved equal to its function.
- `ParserLaws` and `Negation` state what the parser does with whole queries.
- `SkipList`, `ResultSets` and `Evaluator` model the rest of the pipeline.
- The selector engine itself is a parameter, `Matcher`: a function from a selector fragment to the values it matches.

## Model

| member | source | states |
|---|---|---|
| Lexer.Match | select.js:261-275 | a recognised token always consumes a non-empty prefix of the remaining input |
| Lexer.MatchAt | select.js:264-271 | after the leading white space, every rule of the cascade consumes at least one more character and stays within the input |
| Lexer.KeywordNeedsSpace | select.js:264-266 | `not`, `and` and `or` are recognised only when followed by at least one white-space character |
| Lexer.LiteralIsPrefix | select.js:271-273 | a selector-text token is exactly the consumed prefix (leading and trailing white space included) and holds no quote, parenthesis or `^` |
| Lexer.NoMatch | select.js:264-274 | no token is produced exactly when only white space is left or the next visible character is `^`, so a `^` ends the query silently |
| Lexer.Cursor.constructor | select.js:288 | the cursor starts on the whole query |
| Lexer.Cursor.NextToken | select.js:261-275 | returns the first matching rule's token and removes exactly the matched prefix from `next`; without a match `next` is unchanged |
| Parser.IndexOf | select.js:302 | `indexOf`: the index found holds the character and nothing before it does; none is found only when the character is absent |
| Parser.ScanQuoted | select.js:300-309 | reading a quoted string always consumes at least its closing quote |
| Parser.ScanQuote | select.js:300-314 | the `do … while` loop over `s.next` yields the same string, remaining input or `expected` error as `ScanQuoted` |
| Parser.ReduceStep | select.js:350-388 | each reduction rule yields a well-formed, strictly shorter stack with no `)` on top |
| Parser.Reduced | select.js:339-390 | `reduce` stops at a well-formed stack on which no rule applies, never longer than before, with no `)` left on top unless one was pushed |
| Parser.Reduce | select.js:339-390 | the `do … while (reduced)` loop computes `Reduced` |
| Parser.Step | select.js:317-336 | shifting a token keeps the stack well formed |
| Parser.Shift | select.js:317-336 | the token dispatch with its in-place updates of the top computes `Step`, errors included |
| Parser.Parse | select.js:282-398 | the token loop with the cursor, quote handling, final `reduce(true)` and completeness check computes `Parsed` |
| ParserLaws.RunIsFeed | select.js:294-337 | parsing text is shifting its token sequence, quoted strings read into literals, then finishing; an unterminated quote fails the parse |
| ParserLaws.EmptyInput | select.js:392-396 | an empty query is an incomplete expression |
| ParserLaws.MissingOperand | select.js:318-324 | `and`, `or` or `)` where an operand is awaited is a missing operand, whatever follows |
| ParserLaws.LeadingOperator | select.js:320-324 | a query starting with `and`, `or` or `)` is a missing operand |
| ParserLaws.NotAfterOperand | select.js:329 | after any prefix that leaves a finished operand on top, `not` is unexpected, whatever follows |
| ParserLaws.NotAfterLiteral | select.js:329 | `a not …` is unexpected |
| ParserLaws.TextAfterBoolean | select.js:326-330 | after any prefix that leaves a finished `AND` or `OR` node on top, `(` or selector text is unexpected, whatever follows |
| ParserLaws.RefusingTop | select.js:317-336 | after any prefix that leaves a `NOT` node or a `)` on top, every token is unexpected |
| ParserLaws.UnclosedScan | select.js:301-303 | reading a quoted string fails with "expected" when no quote of its kind is left in the input |
| ParserLaws.UnclosedQuote | select.js:299-303 | a quote mark without a matching quote after it fails the parse, whatever was read before |
| ParserLaws.OrThenAnd | select.js:359-370 | `a or b and c` is `OR(a, AND(b, c))` |
| ParserLaws.AndThenOr | select.js:327-364 | `a and b or c` is `OR(AND(a, b), c)` |
| ParserLaws.OrChain | select.js:365-370 | `a or b or c` groups to the right, as `OR(a, OR(b, c))` |
| ParserLaws.OrNotAnd | select.js:352-370 | `a or not b and c` is `AND(OR(a, NOT b), c)` |
| ParserLaws.AndNotNot | select.js:353-363 | `a and not not b` is `AND(a, b)`: two `not`s in the middle of a query cancel |
| ParserLaws.Grouping | select.js:382-386 | `( a )` is `a` |
| ParserLaws.SelectorParens | select.js:373-380 | `l ( m )` is the single selector string `l( m ) ` |
| ParserLaws.GroupedOr | select.js:366-388 | `( a or b )` with a plain last operand is incomplete, and any token after it is unexpected |
| ParserLaws.GroupedNot | select.js:317-335 | `( not a )` is `NOT(a)`, and any token after it is unexpected |
| ParserLaws.GroupedAnd | select.js:325-335 | `( a and b )` is `AND(a, b)`; `not`, `(` or selector text after it is unexpected |
| ParserLaws.ClosedQuote | select.js:301-309 | a quoted string without quotes, not ending in a backslash, is read up to its closing quote |
| ParserLaws.EscapedQuote | select.js:305-309 | a backslash-quote keeps both characters in the string and reading goes on to the next quote |
| ParserLaws.EscapedQuoteBeforeClose | select.js:301-309 | an escaped quote right before the closing quote also swallows the closing quote, and the quote is reported missing |
| ParserLaws.QuotedQuery | select.js:299-323 | a query that is one quoted string is that string, double-quoted, with single-quoted content escaped |
| ParserLaws.EscapeRoundTrip | select.js:312 | escaping the double quotes of single-quoted content is undone by reading `\"` back as `"` |
| ParserLaws.EscapedQuotesArePreceded | select.js:312 | after escaping, every double quote has a backslash before it |
| Negation.ReducedNormal | select.js:353-357 | every `NOT` node `reduce` builds wraps a finished node that is not itself a `NOT` |
| Negation.ReducedUnder | select.js:339-390 | two `not`s beneath a stack stay beneath it during `reduce`, unless the stack comes down to one finished node, which absorbs them |
| Negation.StepUnder | select.js:317-336 | with two `not`s beneath the stack, a token fails with the same error, or the `not`s stay beneath the new stack or are absorbed |
| Negation.FinishUnder | select.js:392-397 | the final `reduce(true)` and completeness check give the same tree or error with two `not`s beneath the stack |
| Negation.RunUnder | select.js:294-397 | the rest of a parse gives the same tree or error with two `not`s beneath the stack |
| Negation.NotNotTokens | select.js:352-357 | two leading `not` tokens change neither the tree nor the error of any token sequence |
| Negation.NotNotPrefix | select.js:352-357 | `not not ` in front of a query (not itself starting with white space) changes neither its tree nor its error |
| Negation.ReducedDeep | select.js:353-357 | `reduce` never builds `NOT(NOT(E))` anywhere in a node: `not NOT(E)` gives `E` back |
| Negation.StepDeep | select.js:317-336 | shifting a token keeps every node on the stack free of double negation |
| Negation.RunDeep | select.js:294-397 | the rest of a parse from a stack free of double negation yields a tree free of it |
| Negation.ParsedDeep | select.js:353-357 | no parse tree holds `NOT(NOT(E))` at any depth, wherever the two `not`s stood in the query |
| SkipList.Not | select.js:412-414 | `not(v)` keeps every entry other than `v`, and only those |
| SkipList.NotAppend | select.js:413 | `filter` keeps the order: removing from `a + b` is removing from `a`, then from `b` |
| SkipList.NotCount | select.js:413 | `filter` keeps every copy of every other entry and drops exactly the copies of `v` |
| SkipList.Add | select.js:415-419 | `add(v)` keeps the list as a prefix and appends `v` |
| SkipList.NotThenAdd | select.js:412-419 | `not(v)` then `add(v)` holds the values of the list plus `v` |
| SkipList.DefaultNotFalse | select.js:412-414 | the default list with `false` removed is `[undefined, null]` |
| ResultSets.SplitJoin | select.js:207 | splitting on ` - ` loses nothing: joining the pieces gives back the text |
| ResultSets.SplitPiecesFree | select.js:207 | no piece of the split contains ` - ` |
| ResultSets.SplitLeftmost | select.js:207 | the first piece runs up to the leftmost occurrence of ` - ` and the rest is the split of what follows it; without an occurrence the text is one piece |
| ResultSets.Select | select.js:202-212 | `select` builds a filtered set of the engine's matches |
| ResultSets.SelectStream | select.js:204-218 | a value is handed on exactly when the first ` - ` piece of the padded selector matches it, no later piece matches it, and the skip list in force (the given one or the default) lacks it |
| ResultSets.PassingAppend | select.js:214-219 | the `forEach` filter works value by value: it distributes over concatenation |
| ResultSets.PassingMembers | select.js:214-219 | a value is handed on exactly when it is matched by the base piece, matched by no exclusion piece, and not on the skip list |
| ResultSets.FirstNode | select.js:222-238 | `nodes(true)` is the first value of the stream or nothing; `empty()` holds exactly when the stream is empty; `first()` is its first value or `undefined` |
| ResultSets.ExcludedBy | select.js:217 | the exclusion loop finds `e` exactly when some exclusion piece matches a value deep-equal to it |
| ResultSets.Nodes | select.js:222-229 | collecting the `forEach` stream, blocked after one value when `first` is set, gives `NodesOf` |
| ResultSets.ExcludedNeverPasses | select.js:217-218 | a value matched by an exclusion piece never reaches the stream |
| ResultSets.SplitAB | select.js:207 | ` .a - .b ` splits into ` .a` and `.b ` |
| ResultSets.PassingOne | select.js:218 | a one-value base is handed on exactly when that value passes |
| ResultSets.DifferenceExample | select.js:207-218 | `.a - .b` loses the values that `.b` also matches and keeps the others |
| ResultSets.SplitFoo | select.js:207 | ` .foo ` is a single piece |
| ResultSets.KeepFalse | select.js:218 | with a skip list lacking `false`, `false` values are handed on |
| ResultSets.SkipFalseByDefault | select.js:241-244 | by default a result of only `false` values is empty |
| ResultSets.KeepFalseAfterNot | select.js:412-414 | with `skip.not(false)` the `false` values are handed on again |
| Evaluator.Eval | select.js:400-406 | evaluation queries only literals of the tree, and never more queries than the tree has literals |
| Evaluator.EvalMeaning | select.js:400-406 | short-circuit evaluation yields the plain boolean meaning of the tree, a literal being true when its result set is not empty |
| Evaluator.ShortCircuit | select.js:402-403 | a false left operand of `AND`, or a true one of `OR`, decides the result and the right operand is never queried |
| Evaluator.DoubleNegation | select.js:404 | `NOT(NOT(e))` evaluates like `e` and queries the same literals |
| Evaluator.Find | select.js:193-200 | a parse error yields the empty set; a literal tree yields its selector's result set; any other tree yields one of the canonical sets |
| Evaluator.CanonicalResult | select.js:247-259 | a boolean query's nodes are `[true]` when the tree holds and `[]` otherwise, and it is empty exactly when the tree does not hold |

## Left out

- `_select`, the JSONSelect engine, is not part of this model. `Matcher` stands for it, with the data and options fixed, as a function from a selector fragment to the values it visits in order. Its own selector grammar is not modelled.
- Blocking, updating and removing through the engine's callback context are not modelled. The only effect kept is that `nodes(true)` stops after the first value.
- The engine is modelled as queried once per selector piece. The source queries every exclusion piece again for each base value. The values seen are the same, because the engine is a function here.
- The exclusion pieces are queried with `options.root` (or the data itself) passed in the options position (select.js:209-217). They are modelled as queried exactly like the base piece.
- The skip list is compared structurally. The source's `indexOf` and `!==` compare objects and arrays by identity. For `undefined`, `null`, booleans, numbers and strings the two agree.
- `NaN` is not a value of the model, so the default skip list lacks it. In the source it never matches under `indexOf` anyway, so it skips nothing. Numbers are unbounded integers, and floating point is not modelled.
- The `try` at select.js:194-200 also guards `F.select` and `F.eval`, so an exception thrown inside the selector engine turns the whole answer into the `empty` set as well. `Matcher` is a total function, so the model has no engine exception and does not capture that fallback. Only parse errors lead to `empty` here.
- Error messages and the logging of parse errors (select.js:197-198) are not modelled. A parse error is one of four kinds: unexpected token, missing closing quote, missing operand, incomplete expression.
- The `{type: …}` objects of the parse tree are modelled as values. The in-place extension of a stack top (`extend(top, t)`, `top.string += …`) is a replacement of the top entry.
- Negation.NotNotTokens: the parse with and without `not not` is proved equal only when the two `not`s lead the query. In the middle of a query the model proves that no double negation survives in the tree (`Negation.ParsedDeep`), plus the instance `ParserLaws.AndNotNot`, but not the equality of whole parses.
- Negation.NotNotPrefix: stated only for queries that do not start with white space. A selector string keeps its leading white space, and the `not\s+` rule swallows it, so such queries do change.
