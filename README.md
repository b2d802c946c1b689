# templator core in Dafny

A model of the core of **templator**, a small template compiler for HTML-like markup with
`{{ var }}` variables, `{% if %}/{% else %}/{% endif %}` and `{% for x in xs %}/{% endfor %}`
statements. The model covers all three stages of the pipeline and also the separate plain-text tokenizer.

- **Scanner** (`scanner.dfy`, module `Scanning`): the class `Scanner` keeps the same fields as the
  source: `source`, `startPos`, `currentPos`, `line`, `tokens` and the `modeStack` of lexical
  modes. Every `scan*` method states the scanner's whole new state.
  - The same scanner is also written on values: `Step` is one turn of the `startScan` loop on a
    `ScanState` (position, line, tokens, stack), with one function per `scan*` method, and
    `ScanFrom` folds it to the end of the source. `Scan(s)` is what a new scanner returns for `s`.
    `ScanByChar` is proved to move the object exactly as `Step` says, and `StartScan` to return
    `ScanFrom` of its starting state. The lemmas about `Step` and `ScanFrom` give the per-character
    behaviour, the token order, the hang only after a closer, and a worked example.
  - The class invariant `Valid()` holds throughout the scan. It says that each lexeme is exactly
    its source span, that spans are disjoint and in source order, that token lines never decrease,
    and that the stack keeps its base text mode at the bottom.
  - A `>` dispatched after a stray `}}` or `%}` has popped the base mode makes the source spin
    forever. `StartScan` reports that as `Hangs`.
  - The vocabulary is in `tokens.dfy`: token kinds, modes, the keyword table and the token triple.
- **Parser**:
  - `parser_spec.dfy` (module `ParserSpec`) holds the reference functions `XAt(t, p)`. Each gives
    the node built and the cursor afterwards, or `Error` (any throw), or `Stuck` (where the source
    loops forever).
  - `parser.dfy` (module `Parsing`) holds the class `Parser` with its cursor `current`. Every parse
    method is proved to return what its reference function says and to leave the cursor there.
    Two stretches of code get a method of their own, each proved against its own reference
    function: the part of `parseIfElse` after the first branch (`ParseIfTail`, `IfTailAt`) and the
    children loop of `parseElementNode` (`ParseChildren`, `ChildrenAt`).
  - `parser_props.dfy` proves properties of the reference functions: every result holds at most one
    node, the fixed token frames of variables, ifs and fors, the tag-name check, and that without
    at-signs no event handler appears.
  - The tree types are in `ast.dfy`.
- **String backend** (`string_interpreter.dfy`, module `StringInterp`):
  - rendering as a function over the tree and a context of JavaScript-like values (`context.dfy`);
  - the dotted variable walk as a loop proved equal to its specification function;
  - text normalisation, proved idempotent;
  - `None` stands for the `TypeError` thrown by `child[0].accept` on an empty child slot.
- **DOM backend** (`dom_interpreter.dfy`, module `DomInterp`):
  - render nodes are a datatype of text nodes, elements (tag, attributes, children, listeners)
    and fragments. Appending a fragment inserts its children, and `TextContent` follows the DOM
    Standard, section 4.4;
  - `visitElementNode` fills a `DomElement` object in place through `SetAttribute`, `AppendChild`
    and `AddEventListener`, and is proved equal to the functional `Eval`;
  - the handler table is the set of handler names it holds.
- **Plain-text tokenizer** (`tokenizer.dfy`, module `PlainTokenizer`) and **validator**
  (`tokenizer_validator.dfy`, module `TokenizerValidation`):
  - the global Unicode regular expression is written out as an explicit matcher. The text
    alternative is tried first. Then comes `{{`, then greedy whitespace that can backtrack, then a
    lazy name of 1 to 50 characters, then whitespace and `}}`;
  - `Parse` is the `while (exec)` loop, proved equal to the function `Tokenize`;
  - the validator checks the trimmed name and throws `TokenizerParseError("Validation Error", cause)`.

Shared helpers are in `wrappers.dfy` (`Option`) and `text_util.dfy`. That file holds the ECMAScript
whitespace and line-terminator classes, `trim`, `trimEnd`, `split` and `join`.

One behaviour of the code is easy to miss. The attribute-value loop of `parseAttributes`
(src/compiler/parser/parser.ts:283-297) steps one extra token after every nested variable or if.
So in `class="class-1 {{customClass1}} class-2 {{customClass2}}"` the literal `class-2` is
skipped, and the value parses to `["class-1", customClass1, customClass2]`
(`ParserProps.ClassAttributeValue`). The test at src/compiler/parser/parser.test.ts:48-54 checks
only the two variables, so it passes either way.

## Model

| member | source | states |
|---|---|---|
| `Tokens.KeywordKind` | src/compiler/scanner/scanner.ts:174-182 | a statement word becomes the keyword kind whose text it is, and `Identifier` exactly when it is none of the six keywords |
| `Tokens.KeywordRoundTrip` | src/compiler/scanner/scanner.ts:177-178 | the table maps each keyword's own word back to that keyword |
| `Scanning.Scanner.constructor` | src/compiler/scanner/scanner.ts:5-16 | a new scanner is at position 0, on line 0, with no tokens and the stack `[Text]` |
| `Scanning.Scanner.PushMode` | src/compiler/scanner/scanner.ts:23-25 | pushes the mode on top and keeps the scanner valid |
| `Scanning.Scanner.PopMode` | src/compiler/scanner/scanner.ts:27-29 | removes the top mode, does nothing on an empty stack, and keeps the scanner valid |
| `Scanning.Scanner.Advance` | src/compiler/scanner/scanner.ts:39-43 | returns the current character and moves one position on |
| `Scanning.Scanner.IncrementCurrPos` | src/compiler/scanner/scanner.ts:35-37 | moves one position on, nothing else changes |
| `Scanning.Scanner.AddToken` | src/compiler/scanner/scanner.ts:45-49 | appends `(kind, source[startPos..currentPos], line)` and keeps spans disjoint and in order |
| `Scanning.Scanner.AdvanceWhile` | src/compiler/scanner/scanner.ts:73-77 | consumes the longest run of characters outside the stop set |
| `Scanning.Scanner.ScanTagStart` | src/compiler/scanner/scanner.ts:81-90 | `<` before a letter emits a one-character `TagOpen` and pushes `OpenTag`; `</` emits `TagEndClose` and pushes `CloseTag`; any other `<` emits nothing |
| `Scanning.Scanner.ScanTagEnd` | src/compiler/scanner/scanner.ts:92-97 | emits `TagClose`, then pops until `Text` is on top, leaving `[Text]`; hangs exactly when no `Text` is on the stack |
| `Scanning.Scanner.ScanOpenOrCloseTagName` | src/compiler/scanner/scanner.ts:99-102 | a tag name runs up to `>` or a space |
| `Scanning.Scanner.ScanQuote` | src/compiler/scanner/scanner.ts:104-113 | always one `Quote`; pops two modes over `AttrValue`, pushes `AttrValue` over `AttrName`, otherwise leaves the stack as it is |
| `Scanning.Scanner.ScanEqual` | src/compiler/scanner/scanner.ts:115-117 | emits one `Equal` and leaves the stack alone |
| `Scanning.Scanner.ScanSpace` | src/compiler/scanner/scanner.ts:119-124 | emits nothing; pushes `AttrName` only over `OpenTag` when a letter follows |
| `Scanning.Scanner.ScanOpenBracket` | src/compiler/scanner/scanner.ts:126-136 | `{{` emits `VarOpen` and pushes `VarIdentifier`; `{%` emits `StmtOpen` and pushes `Statement`; a lone `{` is dropped |
| `Scanning.Scanner.ScanCloseBracket` | src/compiler/scanner/scanner.ts:138-144 | `}}` emits `VarClose` and pops once, whatever is on top; a lone `}` is dropped |
| `Scanning.Scanner.ScanAttrName` | src/compiler/scanner/scanner.ts:146-149 | an attribute name runs up to `=`, `>` or a space |
| `Scanning.Scanner.ScanAttrValue` | src/compiler/scanner/scanner.ts:151-154 | an attribute value runs up to `"`, a space or `{` |
| `Scanning.Scanner.ScanVarIdentifier` | src/compiler/scanner/scanner.ts:156-159 | an identifier runs up to `}` |
| `Scanning.Scanner.ScanText` | src/compiler/scanner/scanner.ts:161-164 | text runs up to `<` or `{` |
| `Scanning.Scanner.ScanPercent` | src/compiler/scanner/scanner.ts:166-172 | `%}` emits `StmtClose` and pops once; a lone `%` is dropped |
| `Scanning.Scanner.ScanStatement` | src/compiler/scanner/scanner.ts:174-182 | a statement word runs up to a space and gets its keyword kind, or `Identifier` |
| `Scanning.Scanner.ScanByMode` | src/compiler/scanner/scanner.ts:186-213 | the top mode chooses the stop set and the token kind of the run |
| `Scanning.Scanner.ScanByChar` | src/compiler/scanner/scanner.ts:215-260 | one step moves the scanner exactly as `Step` says on its pending state, and reports a hang exactly when `Step` spins; a newline only moves to the next line, tab, CR and space emit nothing, at most one token is added |
| `Scanning.Scanner.StartScan` | src/compiler/scanner/scanner.ts:264-271 | returns `ScanFrom` of the state it starts in, so on a new scanner the tokens `Scan(source)` defines, or the hang; lexemes equal their spans, spans are disjoint and ordered, lines never decrease |
| `Scanning.Scanner.Valid` | src/compiler/scanner/scanner.ts:4-10 | the scanner's fields agree: positions within the source, each token's lexeme is its disjoint span of the source, lines never decrease, no token is an `AtSign`, and `Text` is on the stack only at the bottom, or not at all once a stray closer popped it |
| `Scanning.Scanner.GetMode` | src/compiler/scanner/scanner.ts:19-21 | the mode on top of the stack, or none on an empty stack |
| `Scanning.Scanner.IsEnd` | src/compiler/scanner/scanner.ts:31-33 | the current position has reached the end of the source |
| `Scanning.Scanner.MatchChar` | src/compiler/scanner/scanner.ts:58-63 | false at the end of the source, otherwise whether the current character is the given one |
| `Scanning.Scanner.MatchAlphabetChar` | src/compiler/scanner/scanner.ts:65-71 | false at the end of the source, otherwise whether the current character is an ASCII letter |
| `Scanning.RunEnd` | src/compiler/scanner/scanner.ts:73-77 | the end of the longest run from a position that holds no stop character: it stops at the end of the source or on a stop character |
| `Scanning.PopToText` | src/compiler/scanner/scanner.ts:92-97 | popping until `Text` is on top succeeds exactly when `Text` is on the stack, and leaves a prefix of the stack with `Text` on top |
| `Scanning.PopToTextShaped` | src/compiler/scanner/scanner.ts:92-97 | on a stack with `Text` only at the bottom, the pops leave exactly `[Text]` |
| `Scanning.Step` | src/compiler/scanner/scanner.ts:215-260 | one dispatch on a state: it spins exactly on a `>` with no `Text` on the stack, otherwise it moves forward within the source, keeps the earlier tokens, adds at most one, and moves to the next line exactly on a newline |
| `Scanning.ScanFrom` | src/compiler/scanner/scanner.ts:264-271 | the loop repeats `Step` to the end of the source or to the first spin, and never drops a token already emitted |
| `Scanning.Scan` | src/compiler/scanner/scanner.ts:4-16 | what a new scanner (position 0, line 0, no tokens, stack `[Text]`) scans to; `ScanInOrder`, `ScanWithoutCloserFinishes`, `StrayCloserHangs` and `ElementTokens` are stated through it, and `StartScan` on a new scanner returns it |
| `Scanning.StepToken` | src/compiler/scanner/scanner.ts:45-49 | a token added by one step has as lexeme exactly the characters the step consumed, the current line, and is never an `AtSign` |
| `Scanning.ScanInOrder` | src/compiler/scanner/scanner.ts:264-271 | the tokens of a finished scan have non-decreasing lines and no `AtSign` |
| `Scanning.StepNested` | src/compiler/scanner/scanner.ts:92-124 | without a `}` ahead, a step keeps `Text` alone at the bottom of the stack and `AttrValue` right above `AttrName`, and never spins |
| `Scanning.ScanWithoutCloserFinishes` | src/compiler/scanner/scanner.ts:264-271 | a source without `}` never hangs |
| `Scanning.StrayCloserHangs` | src/compiler/scanner/scanner.ts:138-144 | `}}>` pops `Text` off the stack and then hangs at the `>` |
| `Scanning.ElementTokens` | src/compiler/scanner/scanner.ts:215-271 | `<b>x</b>` scans to `<`, `b`, `>`, `x`, `</`, `b`, `>` with the kinds `TagOpen`, `TagName`, `TagClose`, `Text`, `TagEndClose`, `TagName`, `TagClose`, all on line 0 |
| `ParserSpec.ExpressionAt` | src/compiler/parser/parser.ts:74-111 | an expression always advances, and is an error at the end of the tokens |
| `ParserSpec.VariableAt` | src/compiler/parser/parser.ts:209-223 | succeeds exactly on `VarOpen Identifier VarClose`, and then the name is the identifier with trailing whitespace removed |
| `ParserSpec.CloseIfAt` | src/compiler/parser/parser.ts:193-206 | the if is built exactly when `StmtOpen EndIf StmtClose` follows |
| `ParserSpec.IfAt` | src/compiler/parser/parser.ts:153-207 | a parsed if spans at least the eight frame tokens |
| `ParserSpec.IfTailAt` | src/compiler/parser/parser.ts:170-206 | what follows the first branch of a parsed if spans at least the three `{% endif %}` tokens |
| `ParserSpec.ForAt` | src/compiler/parser/parser.ts:113-151 | a parsed for spans at least the ten frame tokens |
| `ParserSpec.EventHandlerAt` | src/compiler/parser/parser.ts:225-263 | no handler unless an at-sign is current; then it succeeds exactly on `AtSign AttrName Equal Quote AttrValue Quote`, with the handler name trimmed |
| `ParserSpec.AttrPartAt` | src/compiler/parser/parser.ts:288-297 | one round of the value loop yields at most one fragment and advances |
| `ParserSpec.AttrValueAt` | src/compiler/parser/parser.ts:283-298 | the value loop stops at an attribute name, tag close or at-sign |
| `ParserSpec.AttrRoundAt` | src/compiler/parser/parser.ts:269-305 | one round adds at most one attribute or handler and advances |
| `ParserSpec.AttributesAt` | src/compiler/parser/parser.ts:265-308 | the attribute loop ends at a tag close, and spins at the end of input |
| `ParserSpec.OpenTagAt` | src/compiler/parser/parser.ts:310-316 | the open tag's name is the tag-name lexeme, and the cursor ends one past the tag close |
| `ParserSpec.SkipToTagCloseAt` | src/compiler/parser/parser.ts:321-323 | stops at the first tag close, never throws, and spins at the end |
| `ParserSpec.CloseTagAt` | src/compiler/parser/parser.ts:318-327 | the close-tag name is the lexeme after `</`, and the cursor ends one past the next tag close |
| `ParserSpec.ChildrenAt` | src/compiler/parser/parser.ts:334-337 | the children loop stops at `TagEndClose` |
| `ParserSpec.ElementAt` | src/compiler/parser/parser.ts:329-350 | a parsed element advances past its tokens |
| `ParserSpec.ParseTokens` | src/compiler/parser/parser.ts:354-361 | an empty token list gives `null` |
| `ParserSpec.Adv` | src/compiler/parser/parser.ts:51-56 | `advance()` on the value level: one step forwards, except at the end; the class `Advance` ensures it moves the cursor the same way |
| `Parsing.Parser.constructor` | src/compiler/parser/parser.ts:25-28 | the cursor starts at 0 |
| `Parsing.Parser.Advance` | src/compiler/parser/parser.ts:51-56 | moves by the step except at the end |
| `Parsing.Parser.IsAtEnd` | src/compiler/parser/parser.ts:35-37 | the cursor is past the last token; `Advance` moves only when this is false |
| `Parsing.Parser.Match` | src/compiler/parser/parser.ts:58-63 | false at the end of the tokens, otherwise whether the current token has the kind |
| `Parsing.Parser.Expression` | src/compiler/parser/parser.ts:74-111 | returns `ExpressionAt` of the cursor and leaves the cursor at its end |
| `Parsing.Parser.ParseForStmt` | src/compiler/parser/parser.ts:113-151 | returns `ForAt` of the cursor |
| `Parsing.Parser.ParseIfElse` | src/compiler/parser/parser.ts:153-207 | returns `IfAt` of the cursor |
| `Parsing.Parser.ParseIfTail` | src/compiler/parser/parser.ts:170-206 | returns `IfTailAt` of the cursor: the optional else branch and the mandatory close |
| `Parsing.Parser.ParseVariableExpr` | src/compiler/parser/parser.ts:209-223 | returns `VariableAt` of the cursor |
| `Parsing.Parser.ParseEventHandler` | src/compiler/parser/parser.ts:225-263 | returns `EventHandlerAt` of the cursor |
| `Parsing.Parser.ParseAttributePart` | src/compiler/parser/parser.ts:288-297 | returns `AttrPartAt` of the cursor |
| `Parsing.Parser.ParseAttributeValue` | src/compiler/parser/parser.ts:283-298 | returns `AttrValueAt` of the cursor |
| `Parsing.Parser.ParseAttribute` | src/compiler/parser/parser.ts:269-305 | returns `AttrRoundAt` of the cursor |
| `Parsing.Parser.ParseAttributes` | src/compiler/parser/parser.ts:265-308 | returns `AttributesAt` of the cursor |
| `Parsing.Parser.ParseOpenTag` | src/compiler/parser/parser.ts:310-316 | returns `OpenTagAt` of the cursor |
| `Parsing.Parser.ParseCloseTag` | src/compiler/parser/parser.ts:318-327 | returns `CloseTagAt` of the cursor |
| `Parsing.Parser.ParseElementNode` | src/compiler/parser/parser.ts:329-350 | returns `ElementAt` of the cursor |
| `Parsing.Parser.ParseChildren` | src/compiler/parser/parser.ts:333-337 | returns `ChildrenAt` of the cursor |
| `Parsing.Parser.Parse` | src/compiler/parser/parser.ts:354-361 | returns `ParseTokens` of the token list |
| `ParserProps.ExpressionShaped` | src/compiler/parser/parser.ts:74-111 | every expression result, and every template nested in it, holds at most one node; with no at-sign ahead no element has a handler |
| `ParserProps.ElementShaped` | src/compiler/parser/parser.ts:329-350 | a parsed element is well shaped, and has no handlers when no at-sign follows |
| `ParserProps.ChildrenShaped` | src/compiler/parser/parser.ts:334-337 | every child slot holds at most one node |
| `ParserProps.IfShaped` | src/compiler/parser/parser.ts:153-207 | both branches of a parsed if are well shaped |
| `ParserProps.ForShaped` | src/compiler/parser/parser.ts:113-151 | the body of a parsed for is well shaped |
| `ParserProps.AttributesShaped` | src/compiler/parser/parser.ts:265-308 | every parsed attribute value is well shaped |
| `ParserProps.AttrRoundShaped` | src/compiler/parser/parser.ts:269-305 | one attribute round yields well-shaped attributes |
| `ParserProps.AttrValueShaped` | src/compiler/parser/parser.ts:283-298 | value fragments are literals, variables or ifs, each well shaped |
| `ParserProps.AttrPartShaped` | src/compiler/parser/parser.ts:288-297 | one value fragment is well shaped |
| `ParserProps.ExpressionKinds` | src/compiler/parser/parser.ts:74-111 | a tag opener gives an element, `{{` a variable, `{%` with `if`/`for` an if/for; `{%` with anything else gives nothing and consumes one token; any other token gives a text node of its lexeme |
| `ParserProps.IfFrame` | src/compiler/parser/parser.ts:153-207 | a parsed if is `{% if name %}`, the branch, an else part exactly when `{% else` follows, and `{% endif %}` |
| `ParserProps.IfErrors` | src/compiler/parser/parser.ts:162-201 | a wrong opening frame, `{% else` without `%}`, or a missing `{% endif %}` is an error |
| `ParserProps.ForFrame` | src/compiler/parser/parser.ts:113-151 | a parsed for is `{% for x in xs %}`, the body and `{% endfor %}`, with names taken at offsets 2 and 4 |
| `ParserProps.ForErrors` | src/compiler/parser/parser.ts:124-147 | a wrong opening frame or a missing `{% endfor %}` is an error |
| `ParserProps.ElementNameCheck` | src/compiler/parser/parser.ts:344-349 | an element is built exactly when the close-tag name equals the open-tag name |
| `ParserProps.ValueLiteralStep` | src/compiler/parser/parser.ts:288-289 | in an attribute value, a value token is kept as a literal fragment |
| `ParserProps.ValueVariableStep` | src/compiler/parser/parser.ts:290-297 | in an attribute value, a nested `{{ name }}` becomes one variable fragment, and the following step passes over the token after the closing `}}` |
| `ParserProps.ValueSkipStep` | src/compiler/parser/parser.ts:283-297 | in an attribute value, any other token that does not end the value adds nothing |
| `ParserProps.ClassAttributeValue` | src/compiler/parser/parser.ts:283-298 | the two-variable class attribute parses to `["class-1", customClass1, customClass2]` |
| `ParserProps.ParseShaped` | src/compiler/parser/parser.ts:354-361 | `parse()` is `null` exactly when the first expression throws, and never gives part of a tree |
| `TextUtil.TrimEnd` | src/compiler/parser/parser.ts:221 | removes exactly the trailing whitespace run |
| `TextUtil.Trim` | src/tokenizerValidator.ts:13 | the result is a whitespace-free-ended infix with only whitespace around it |
| `TextUtil.Split` | src/v2/stringInterpreter.ts:15 | pieces hold no separator and join back to the input |
| `Context.Get` | src/v2/stringInterpreter.ts:45 | a flat key lookup: present exactly when the key is in the record |
| `Context.Truthy` | src/v2/stringInterpreter.ts:45 | `!!v`: a missing key, `null`, `false`, `0` and `""` are falsy, every object and array is truthy; also the test of src/interpreters/domInterpreter.ts:103 |
| `Context.IsIndexKey` | src/v2/stringInterpreter.ts:19 | the keys `prop in` finds on an array: decimal digits without a leading zero; `IndexKeyCanonical` proves each spells its number |
| `Context.IndexKey` | src/v2/stringInterpreter.ts:19 | the key of an array index is always a canonical index key |
| `Context.Walk` | src/v2/stringInterpreter.ts:18-24 | the `for...of` over the property chain, one `Member` step per property, a miss ends it; `WalkAppend` and `WalkMissStops` prove how walks compose |
| `Context.VariableText` | src/v2/stringInterpreter.ts:14-26 | the walked value when it is a string, else `""`; `VariableTextFlat`, `VariableTextDotted` and the loop `LookupVariable` are proved about it |
| `Context.Member` | src/v2/stringInterpreter.ts:19-20 | `prop in v` for objects (own keys) and arrays (index keys below the length, and `length`); any other value misses |
| `Context.IndexKeyCanonical` | src/v2/stringInterpreter.ts:19 | every canonical index key is the decimal key of the number it spells |
| `Context.WalkAppend` | src/v2/stringInterpreter.ts:18-24 | walking a path in two pieces is walking the first, then the second |
| `Context.WalkMissStops` | src/v2/stringInterpreter.ts:21-22 | once a step misses, the walk misses whatever follows |
| `Context.VariableTextFlat` | src/v2/stringInterpreter.ts:14-26 | a dot-free name reads a string key of the record, and anything else as `""` |
| `Context.VariableTextDotted` | src/v2/stringInterpreter.ts:14-26 | `a.rest` descends into `a` when it holds an object or array, else gives `""` |
| `Context.LookupVariable` | src/v2/stringInterpreter.ts:15-26 | the `for...of` walk returns the dotted-walk text |
| `StringInterp.DropLineBreaks` | src/v2/stringInterpreter.ts:30 | `replace(/[\r\n]+/g, '')`: carriage returns and line feeds removed; `DropLineBreaksShape` proves none is left and the rest is kept |
| `StringInterp.CollapseWhitespace` | src/v2/stringInterpreter.ts:30 | `replace(/\s+/g, ' ')`: each maximal whitespace run becomes one space; `CollapseShape`, `CollapseIsScan` and `CollapseOfCollapsed` are proved about it |
| `StringInterp.Normalize` | src/v2/stringInterpreter.ts:29-31 | `visitTextNode`: line breaks dropped, then whitespace collapsed; `NormalizeShape` and `NormalizeIdempotent` are proved about it |
| `StringInterp.CollapseShape` | src/v2/stringInterpreter.ts:30 | whitespace collapsing leaves single spaces only and keeps the other characters in order |
| `StringInterp.CollapseIsScan` | src/v2/stringInterpreter.ts:30 | collapsing runs equals reading one character at a time |
| `StringInterp.CollapseOfCollapsed` | src/v2/stringInterpreter.ts:30 | collapsing a collapsed string changes nothing |
| `StringInterp.DropLineBreaksShape` | src/v2/stringInterpreter.ts:30 | no CR or LF is left, other non-whitespace is kept, and text without them is unchanged |
| `StringInterp.NormalizeShape` | src/v2/stringInterpreter.ts:29-31 | normalised text has no line breaks, only single spaces, and the same non-whitespace |
| `StringInterp.NormalizeIdempotent` | src/v2/stringInterpreter.ts:29-31 | normalising twice is normalising once |
| `StringInterp.VisitVariable` | src/v2/stringInterpreter.ts:14-27 | the looked-up string, trimmed |
| `StringInterp.FormatAttribute` | src/v2/stringInterpreter.ts:33-41 | `name="a b"` from the fragments joined by spaces, the bare name for an empty join; `FormatAttributeShape` proves both cases |
| `StringInterp.FormatElement` | src/v2/stringInterpreter.ts:56-68 | the element text from its tag, attributes and children; `FormatElementShape` and `FormatSingleChild` are proved about it |
| `StringInterp.Render` | src/v2/stringInterpreter.ts:14-85 | the string visitor over a tree, `None` where `child[0].accept` throws; `RenderTotal`, `EmptySlotFails`, `IfRender`, `ForRender` and `ChildElementRender` are proved about it |
| `StringInterp.RenderFirst` | src/v2/stringInterpreter.ts:46-51 | the first node of the chosen branch, or `""` for an empty branch; `IfRender` is proved about it |
| `StringInterp.RenderSeq` | src/v2/stringInterpreter.ts:82 | a loop body rendered node by node and concatenated; `RenderItemsEmptyBody` and `ForRender` use it |
| `StringInterp.RenderSlots` | src/v2/stringInterpreter.ts:61-62 | `child[0].accept` per child slot, failing on an empty slot; `EmptySlotFails` and `SingleSlotRender` are proved about it |
| `StringInterp.RenderItems` | src/v2/stringInterpreter.ts:76-84 | the body once per item against the context extended with the loop variable, concatenated; `RenderItemsAppend` and `RenderItemsEmptyBody` are proved about it |
| `StringInterp.RenderTotal` | src/v2/stringInterpreter.ts:56-68 | a tree whose child slots all hold a node renders in every context |
| `StringInterp.EmptySlotFails` | src/v2/stringInterpreter.ts:61-62 | a child slot with no node makes the element throw |
| `StringInterp.RenderItemsAppend` | src/v2/stringInterpreter.ts:76-84 | a loop over `xs + ys` renders `xs`'s items, then `ys`'s |
| `StringInterp.RenderItemsEmptyBody` | src/v2/stringInterpreter.ts:82 | an empty body renders `""` for any number of items |
| `StringInterp.ForRender` | src/v2/stringInterpreter.ts:70-85 | `""` unless the collection key holds an array; a one-item array renders the body against the context with the loop name bound to the item |
| `StringInterp.IfRender` | src/v2/stringInterpreter.ts:43-54 | the first node of the branch the flat truthiness test picks, or `""` when that branch is empty |
| `StringInterp.FormatAttributeShape` | src/v2/stringInterpreter.ts:33-41 | the bare name exactly when the fragments join to `""`, else `name="joined"` |
| `StringInterp.FormatElementShape` | src/v2/stringInterpreter.ts:56-68 | `<tag`, a space only before non-empty attributes, `>`, the trimmed children, `</tag>` |
| `StringInterp.UserNameText` | src/interpreters/stringInterpreter.test.ts:124-141 | `user.name` reads the string under `name` of the object bound to `user` |
| `StringInterp.SingleSlotRender` | src/v2/stringInterpreter.ts:61-62 | one slot holding one node renders as that node alone |
| `StringInterp.FormatSingleChild` | src/v2/stringInterpreter.ts:66-67 | an element with no attributes shows its one child trimmed between the tags |
| `StringInterp.ChildElementRender` | src/v2/stringInterpreter.ts:56-68 | an element with one child renders as the child's trimmed output between the tags |
| `DomInterp.TextContent` | src/interpreters/domInterpreter.ts:40 | `textContent`: a text node's data, else the texts of the children in order; `TextContentsAppend`, `Append` and `ForEval` are stated through it |
| `DomInterp.TextContentsAppend` | src/interpreters/domInterpreter.ts:40 | the text of `a + b` is the text of `a`, then of `b` |
| `DomInterp.Append` | src/interpreters/domInterpreter.ts:59-61 | appending keeps the old children as a prefix, adds the node's text, and splices a fragment's children in |
| `DomInterp.AppendAll` | src/interpreters/domInterpreter.ts:59 | appending many nodes adds their texts in order, and keeps children fragment-free |
| `DomInterp.Lookup` | src/interpreters/domInterpreter.ts:51 | absent exactly when no attribute has the name; a found value belongs to an attribute of that name |
| `DomInterp.SetAttr` | src/interpreters/domInterpreter.ts:51 | replaces the value of an existing name in place, or appends a new attribute |
| `DomInterp.SetAttrLookup` | src/interpreters/domInterpreter.ts:51 | after setting, the name reads the new value and every other name reads what it did before |
| `DomInterp.SetAttrUnique` | src/interpreters/domInterpreter.ts:51 | setting keeps attribute names distinct |
| `DomInterp.SetAllLookup` | src/interpreters/domInterpreter.ts:50-52 | after the `forEach`, the last value set under a name wins and unset names keep their values |
| `DomInterp.SetAllUnique` | src/interpreters/domInterpreter.ts:50-52 | no element ends with two attributes of one name |
| `DomInterp.SetAll` | src/interpreters/domInterpreter.ts:50-52 | the attributes after one `setAttribute` per entry in order; `SetAllLookup`, `SetAllUnique` and the loop `SetAttributes` are proved about it |
| `DomInterp.Bind` | src/interpreters/domInterpreter.ts:63-70 | every listener names a handler in the table and captures the interpreter's context |
| `DomInterp.BindAppend` | src/interpreters/domInterpreter.ts:63-70 | binding `a + b` binds `a`'s handlers, then `b`'s |
| `DomInterp.BindExactly` | src/interpreters/domInterpreter.ts:63-70 | a handler is bound exactly when its name is in the table; unknown names are skipped |
| `DomInterp.Eval` | src/interpreters/domInterpreter.ts:22-126 | the DOM visitor over a tree, `None` where `child[0].accept` throws; `ElementEval`, `IfEval`, `ForEval`, `EvalTidy`, `VariableBackends` and the in-place `VisitElementNode` are proved about it |
| `DomInterp.EvalFirst` | src/interpreters/domInterpreter.ts:104-108 | the first node of the chosen branch, or an empty fragment; `IfEval` is proved about it |
| `DomInterp.EvalSlots` | src/interpreters/domInterpreter.ts:54-56 | `child[0].accept` per child slot, failing on an empty slot; `EvalSlotsMeaning` is proved about it |
| `DomInterp.EvalItems` | src/interpreters/domInterpreter.ts:86-95 | per item, the first body node built against the extended context; `EvalItemsMeaning` and `ForItemListeners` are proved about it |
| `DomInterp.PartText` | src/interpreters/domInterpreter.ts:31-40 | a literal fragment as it is, a nested node built and read by `textContent`; `ElementEval` is stated through it |
| `DomInterp.AttributeEntry` | src/interpreters/domInterpreter.ts:44-47 | one attribute as name and fragments joined by spaces; `ElementEval` is stated through it |
| `DomInterp.AttributeEntries` | src/interpreters/domInterpreter.ts:29-48 | the entries of all attributes in order; `ElementEval` is stated through it |
| `DomInterp.EvalAll` | src/interpreters/domInterpreter.ts:94 | the body map builds one node per body node, the first built from the first |
| `DomInterp.ItemResult` | src/interpreters/domInterpreter.ts:94 | an item contributes the first body node, or nothing for an empty body |
| `DomInterp.DomElement.constructor` | src/interpreters/domInterpreter.ts:27 | a created element has its tag and no attributes, children or listeners |
| `DomInterp.DomElement.SetAttribute` | src/interpreters/domInterpreter.ts:51 | updates the attributes as `SetAttr` says, nothing else |
| `DomInterp.DomElement.AppendChild` | src/interpreters/domInterpreter.ts:61 | appends to the children as `Append` says, nothing else |
| `DomInterp.DomElement.AddEventListener` | src/interpreters/domInterpreter.ts:66-68 | appends one listener capturing the context, nothing else |
| `DomInterp.SetAttributes` | src/interpreters/domInterpreter.ts:50-52 | the loop of `setAttribute` calls leaves the attributes `SetAll` gives |
| `DomInterp.AddListeners` | src/interpreters/domInterpreter.ts:63-70 | the loop adds exactly the listeners `Bind` gives |
| `DomInterp.VisitElementNode` | src/interpreters/domInterpreter.ts:26-73 | the element filled in place equals `Eval` of the element node |
| `DomInterp.VisitVariable` | src/interpreters/domInterpreter.ts:111-126 | a text node holding the dotted-walk text, untrimmed |
| `DomInterp.VariableBackends` | src/interpreters/domInterpreter.ts:111-126 | the string backend gives the trimmed text of the DOM backend's variable node |
| `DomInterp.EvalTidy` | src/interpreters/domInterpreter.ts:54-61 | no built node has a fragment among the children at any depth |
| `DomInterp.EvalSlotsMeaning` | src/interpreters/domInterpreter.ts:54-56 | the children are the first nodes of the slots, built in order; it fails exactly when a slot is empty or a build fails |
| `DomInterp.ElementEval` | src/interpreters/domInterpreter.ts:26-73 | the built element has the tag, each attribute reads the last value computed for its name, names are distinct, the children's text comes from the slots, and the listeners are those `Bind` gives |
| `DomInterp.IfEval` | src/interpreters/domInterpreter.ts:101-109 | the same branch choice as the string backend; the first node of the branch, or an empty fragment |
| `DomInterp.EvalItemsMeaning` | src/interpreters/domInterpreter.ts:86-95 | each item contributes the first body node built under the context with the loop name bound to it |
| `DomInterp.ForEval` | src/interpreters/domInterpreter.ts:80-99 | an empty fragment unless the collection is an array; the fragment's text is the items' texts; an empty body gives an empty fragment |
| `DomInterp.ForItemListeners` | src/interpreters/domInterpreter.ts:86-94 | a listener bound inside a loop body captures the item's context |
| `DomInterp.EmptyBodyAsWritten` | src/interpreters/domInterpreter.ts:94-97 | as written, an empty loop body yields one `"undefined"` text node per item |
| `DomInterp.EmptyBodyAsWrittenText` | src/interpreters/domInterpreter.ts:94-97 | as written, a one-item loop with an empty body reads `"undefined"` |
| `DomInterp.AsWrittenAgreesOnNonEmptyBody` | src/interpreters/domInterpreter.ts:94 | for a non-empty body the as-written loop and the model agree |
| `TokenizerValidation.IsForbidden` | src/tokenizerValidator.ts:6 | the fifteen characters of `FORBIDDEN_CHARS`; `FirstForbidden` and `CheckName` are stated through it |
| `TokenizerValidation.CauseMessage` | src/tokenizerValidator.ts:17-26 | the two validation messages, with the match position in decimal; `CheckName` is stated through it |
| `TokenizerValidation.FirstForbidden` | src/tokenizerValidator.ts:22-27 | the leftmost forbidden character, or none exactly when there is none |
| `TokenizerValidation.CheckName` | src/tokenizerValidator.ts:16-32 | passes exactly for a non-empty name without forbidden characters; an empty name throws with its position; otherwise the leftmost offender is named |
| `TokenizerValidation.ValidateVariableMatch` | src/tokenizerValidator.ts:13-32 | passes exactly when the trimmed name is non-empty and free of forbidden characters, and every throw has the message `Validation Error` |
| `TokenizerValidation.ChecksTrimmedName` | src/tokenizerValidator.ts:13 | only the trimmed name is checked: trimming first changes nothing |
| `TokenizerValidation.PositionOnlyForEmpty` | src/tokenizerValidator.ts:16-20 | the match position makes a difference only for an empty name |
| `PlainTokenizer.TextEnd` | src/tokenizer.ts:23 | `[^{]+` is the maximal run without `{` |
| `PlainTokenizer.WsEnd` | src/tokenizer.ts:24 | `\s*` is the maximal whitespace run |
| `PlainTokenizer.LazyName` | src/tokenizer.ts:24 | a lazy name ends where `\s*}}` follows |
| `PlainTokenizer.LazyNameShortest` | src/tokenizer.ts:24 | the lazy name fits, and no shorter name fits |
| `PlainTokenizer.LeadName` | src/tokenizer.ts:24 | the name start lies within the leading whitespace, and its end is the lazy name from that start |
| `PlainTokenizer.LeadNameFits` | src/tokenizer.ts:24 | the chosen name fits and is the shortest at its start |
| `PlainTokenizer.LeadNameSkipped` | src/tokenizer.ts:24 | every start that backtracking passes over has no lazy name |
| `PlainTokenizer.LeadNameGreedy` | src/tokenizer.ts:24 | no start with more leading whitespace admits a name; with no name chosen, no start does |
| `PlainTokenizer.VarAt` | src/tokenizer.ts:24 | a variable match starts at its `{{`, and its name lies after the `{{` and at least two characters before the end of the match, which is within the text |
| `PlainTokenizer.VarAtShape` | src/tokenizer.ts:24 | a variable match is `{{`, whitespace, the name the backtracking search picks, the whitespace after it and `}}`, ending just after that `}}`; there is one whenever the search finds a name |
| `PlainTokenizer.VarAtName` | src/tokenizer.ts:24 | the captured name fits, is the shortest at its start, and starts after the greediest leading whitespace that admits one |
| `PlainTokenizer.VarAtNone` | src/tokenizer.ts:24 | after `{{` no variable matches exactly when no start in the leading whitespace admits a name |
| `PlainTokenizer.Exec` | src/tokenizer.ts:25-28 | a match lies after `lastIndex`; a text match is a maximal run |
| `PlainTokenizer.ExecLeftmost` | src/tokenizer.ts:25-28 | every position passed over is a `{` where no variable matches |
| `PlainTokenizer.ExecAlternative` | src/tokenizer.ts:23-25 | where the match starts, text is taken for a non-`{` and the variable alternative for `{` |
| `PlainTokenizer.Tokenize` | src/tokenizer.ts:27-54 | the tokens of the `exec` loop, or the first validation error; `TokenizeShapes`, `TokenizeFailure`, `TextOnly`, `SingleVariable` and the loop `Parse` are proved about it |
| `PlainTokenizer.TokenizeShapes` | src/tokenizer.ts:28-51 | text tokens are non-empty runs without `{`; variable tokens are 1 to 50 characters without line terminators that passed validation |
| `PlainTokenizer.TokenizeFailure` | src/tokenizer.ts:33-44 | every failure carries the `Validation Error` message |
| `PlainTokenizer.TextOnly` | src/tokenizer.ts:49-51 | a non-empty text without `{` gives one text token |
| `PlainTokenizer.SingleVariable` | src/tokenizer.test.ts:23-61 | `{{`, whitespace, a name, whitespace and `}}` gives that name as the only token when it validates, and the validation error otherwise |
| `PlainTokenizer.Parse` | src/tokenizer.ts:21-54 | the `exec` loop returns `Tokenize` of the text: tokens in source order, or the first validation failure and no tokens |

## Left out

- Positions and lengths are counted in code points. `openBracketsMatchIndex` in the source is a UTF-16 code-unit index, and so is `source.slice` in the scanner. They differ only for text outside the Basic Multilingual Plane before the position.
- JavaScript property lookup through the prototype chain is not modelled. Keys such as `toString` are not found in a context or a handler table. The other prototype keys of arrays and strings are not modelled either.
- Context values are strings, integers, booleans, `null`, plain objects and dense arrays. Floating point, `NaN`, functions, `undefined` stored under a key, and sparse arrays are not modelled.
- Host DOM behaviour is abstract. `createElement` neither uppercases the tag name (a real element reports `H1` for `h1`, src/interpreters/domInterpreter.test.ts:25) nor throws on an invalid name such as `a/b`, which the tag-name run can produce: the model builds an element whose tag name is the lexeme. `setAttribute` does not lowercase names or reject invalid ones, real listeners are not dispatched, and a listener is recorded by its handler name and context instead of a closure.
- `console.error` in `parse()` and the text of the parser's error messages are not modelled. Every throw is one `Error` outcome, because `parse()` turns any of them into `null`.
- Where the source loops forever, the model returns `Stuck` (parser) or `Hangs` (scanner) instead of diverging.
- The `inputText` argument of `validateVariableMatch` is unused by the source and is not modelled.
- `Tokenize` reads a match's name as it was captured, untrimmed, and that is the token name, as in the source.
- The catch branch `unknown error occurred` of `parse` in the tokenizer is unreachable, because the validator only throws errors. It is not modelled.
- Parsing.Parser.Advance: requires that a step from inside the token list stays within it, which every call in the source satisfies. Moving the cursor beyond the end is therefore not modelled.
- Scanning.Scanner.StartScan: requires a freshly positioned scanner (`startPos == currentPos`), as `startScan` is only called on a new one.
- PlainTokenizer.SingleVariable: stated only for names without `}` that start and end with a non-whitespace character. Other names are covered by the general contracts of `VarAt` and `VarAtName`.
- StringInterp.ForRender: states the one-item case explicitly. The general case follows from `RenderItemsAppend`.
- `src/v2/scanner.ts`, `src/v2/parser.ts`, `src/v2/interpreter.ts` and `src/v2/printVisitor.ts` are not part of this model. They are drafts and mock printers outside the shipped pipeline.

## Findings

| source | as written | input that shows it | evidently intended | confidence | as-written member | corrected member |
|---|---|---|---|---|---|---|
| src/interpreters/domInterpreter.ts:94-97 | each loop item contributes `bodyTemplate.map(...)[0]`, which is `undefined` for an empty body, and `fragment.append(undefined)` inserts a text node `"undefined"` | a for node with an empty body over a non-empty array, e.g. parsed from `{% for x in xs %}{%{% endfor %}` with `xs = [1]` | an empty body contributes nothing, as in the string backend, which renders `""` | not executed; medium | `DomInterp.EmptyBodyAsWritten` | `DomInterp.ForEval` |
