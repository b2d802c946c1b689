/** The mode-stack scanner: one left-to-right pass over the template that turns it into
    `(kind, lexeme, line)` tokens, with a stack of lexical modes deciding what a character means. */
module Scanning {
  import opened Wrappers
  import opened Tokens
  import KeywordTable = Tokens

  /** Where a token's lexeme sits in the source: `source[lo..hi]`. */
  datatype Span = Span(lo: nat, hi: nat)

  /** What `startScan` does: return the tokens, or spin forever in `scanTagEnd`. */
  datatype ScanResult = Scanned(tokens: seq<Token>) | Hangs

  /** `/^[a-zA-Z]$/`. */
  predicate IsAsciiLetter(c: char) {
    ('a' <= c <= 'z') || ('A' <= c <= 'Z')
  }

  function Top(s: seq<Mode>): Option<Mode> {
    if s == [] then None else Some(s[|s| - 1])
  }

  /** `Array.prototype.pop`: removes the last mode, and does nothing on an empty stack. */
  function Pop(s: seq<Mode>): seq<Mode> {
    if s == [] then s else s[..|s| - 1]
  }

  /** The shape every reachable stack has: `TextMode` at the bottom and nowhere else, or (once a stray
      `}}` or `%}` has popped the base mode) no `TextMode` at all. */
  predicate StackShape(s: seq<Mode>) {
    (s != [] && s[0] == TextMode && TextMode !in s[1..]) || TextMode !in s
  }

  /** The stop sets of the run scans (the `advanceWhile` predicates, negated). */
  const TagNameStops: set<char> := {'>', ' '}
  const AttrNameStops: set<char> := {'=', '>', ' '}
  const AttrValueStops: set<char> := {'"', ' ', '{'}
  const IdentifierStops: set<char> := {'}'}
  const StatementStops: set<char> := {' '}
  const TextStops: set<char> := {'<', '{'}

  /** The characters at which a run scan in the given mode stops. */
  function RunStops(m: Option<Mode>): set<char> {
    match m
    case Some(AttrNameMode) => AttrNameStops
    case Some(AttrValueMode) => AttrValueStops
    case Some(VarIdentifierMode) => IdentifierStops
    case Some(OpenTagMode) => TagNameStops
    case Some(CloseTagMode) => TagNameStops
    case Some(StatementMode) => StatementStops
    case _ => TextStops
  }

  /** The kind of the token a run scan in the given mode emits for `lexeme`. */
  function RunKind(m: Option<Mode>, lexeme: string): TokenKind {
    match m
    case Some(AttrNameMode) => AttrName
    case Some(AttrValueMode) => AttrValue
    case Some(VarIdentifierMode) => Identifier
    case Some(OpenTagMode) => TagName
    case Some(CloseTagMode) => TagName
    case Some(StatementMode) => KeywordTable.KeywordKind(lexeme)
    case _ => Text
  }

  /** The characters `scanByChar` handles itself; every other character starts a run scan. */
  predicate IsStructural(c: char) {
    c in {'<', '>', '"', '=', ' ', '{', '}', '%', '\n', '\t', '\r'}
  }

  /** The scanner's state as a value: the position, the line, the tokens so far and the mode stack. */
  datatype ScanState = ScanState(pos: nat, line: nat, tokens: seq<Token>, stack: seq<Mode>)

  /** What one dispatch does: it moves to a new state, or it spins forever in `scanTagEnd`. */
  datatype StepResult = Moved(next: ScanState) | Spins

  /** `advanceWhile` on values: the first position from `from` on that is the end or a stop. */
  function RunEnd(s: string, from: nat, stops: set<char>): (e: nat)
    requires from <= |s|
    ensures from <= e <= |s|
    ensures forall k :: from <= k < e ==> s[k] !in stops
    ensures e == |s| || s[e] in stops
    decreases |s| - from
  {
    if from == |s| || s[from] in stops then from else RunEnd(s, from + 1, stops)
  }

  /** A run that stops where `RunEnd` says is the run `RunEnd` measures. */
  lemma RunEndUnique(s: string, from: nat, stops: set<char>, e: nat)
    requires from <= e <= |s|
    requires forall k :: from <= k < e ==> s[k] !in stops
    requires e == |s| || s[e] in stops
    ensures e == RunEnd(s, from, stops)
  {
  }

  /** The stack `scanTagEnd`'s loop leaves behind: popped until `TextMode` is on top, or `None` when
      the loop would go on popping an empty stack. */
  function PopToText(s: seq<Mode>): (r: Option<seq<Mode>>)
    ensures r.Some? <==> TextMode in s
    ensures r.Some? ==> Top(r.value) == Some(TextMode) && r.value <= s
    decreases |s|
  {
    if s == [] then None
    else if s[|s| - 1] == TextMode then Some(s)
    else PopToText(s[..|s| - 1])
  }

  /** On a stack of the reachable shape, popping to the text mode leaves the base mode alone. */
  lemma PopToTextShaped(s: seq<Mode>)
    requires StackShape(s) && TextMode in s
    ensures PopToText(s) == Some([TextMode])
  {
    var v := PopToText(s).value;
    var i := |v| - 1;
    assert s[i] == TextMode;
    assert i == 0;
    assert v == s[..1] == [s[0]];
  }

  /** `matchChar` on values: `p` is inside `s` and holds `c`. */
  predicate NextIs(s: string, p: nat, c: char) {
    p < |s| && s[p] == c
  }

  /** `matchAlphabetChar` on values. */
  predicate NextIsLetter(s: string, p: nat) {
    p < |s| && IsAsciiLetter(s[p])
  }

  /** `scanTagStart` on values: `<` before a letter opens a tag, `</` a closing tag. */
  function TagStartStep(s: string, st: ScanState): StepResult
    requires st.pos < |s|
  {
    var p := st.pos + 1;
    if NextIsLetter(s, p) then
      Moved(ScanState(p, st.line, st.tokens + [Token(TagOpen, "<", st.line)], st.stack + [OpenTagMode]))
    else if NextIs(s, p, '/') then
      Moved(ScanState(p + 1, st.line, st.tokens + [Token(TagEndClose, "</", st.line)], st.stack + [CloseTagMode]))
    else
      Moved(st.(pos := p))
  }

  /** `scanTagEnd` on values: the tag closer, then the stack popped to the text mode. */
  function TagEndStep(s: string, st: ScanState): StepResult
    requires st.pos < |s|
  {
    match PopToText(st.stack)
    case Some(rest) => Moved(ScanState(st.pos + 1, st.line, st.tokens + [Token(TagClose, ">", st.line)], rest))
    case None => Spins
  }

  /** `scanQuote` on values. */
  function QuoteStep(s: string, st: ScanState): StepResult
    requires st.pos < |s|
  {
    var stack :=
      if Top(st.stack) == Some(AttrValueMode) then Pop(Pop(st.stack))
      else if Top(st.stack) == Some(AttrNameMode) then st.stack + [AttrValueMode]
      else st.stack;
    Moved(ScanState(st.pos + 1, st.line, st.tokens + [Token(Quote, "\"", st.line)], stack))
  }

  lemma QuoteStepIs(s: string, st: ScanState, next: ScanState)
    requires st.pos < |s|
    requires next.pos == st.pos + 1 && next.line == st.line
    requires next.tokens == st.tokens + [Token(Quote, "\"", st.line)]
    requires next.stack == if Top(st.stack) == Some(AttrValueMode) then Pop(Pop(st.stack))
                           else if Top(st.stack) == Some(AttrNameMode) then st.stack + [AttrValueMode]
                           else st.stack
    ensures QuoteStep(s, st) == Moved(next)
  {
  }

  /** `scanSpace` on values. */
  function SpaceStep(s: string, st: ScanState): StepResult
    requires st.pos < |s|
  {
    var p := st.pos + 1;
    if Top(st.stack) == Some(OpenTagMode) && NextIsLetter(s, p) then
      Moved(st.(pos := p, stack := st.stack + [AttrNameMode]))
    else
      Moved(st.(pos := p))
  }

  lemma TagStartStepIs(s: string, st: ScanState, next: ScanState)
    requires st.pos < |s| && next.line == st.line
    requires if NextIsLetter(s, st.pos + 1) then
               && next.pos == st.pos + 1
               && next.tokens == st.tokens + [Token(TagOpen, "<", st.line)]
               && next.stack == st.stack + [OpenTagMode]
             else if NextIs(s, st.pos + 1, '/') then
               && next.pos == st.pos + 2
               && next.tokens == st.tokens + [Token(TagEndClose, "</", st.line)]
               && next.stack == st.stack + [CloseTagMode]
             else
               next.pos == st.pos + 1 && next.tokens == st.tokens && next.stack == st.stack
    ensures TagStartStep(s, st) == Moved(next)
  {
  }

  lemma SpaceStepIs(s: string, st: ScanState, next: ScanState)
    requires st.pos < |s|
    requires next.pos == st.pos + 1 && next.line == st.line && next.tokens == st.tokens
    requires next.stack == if Top(st.stack) == Some(OpenTagMode) && NextIsLetter(s, st.pos + 1)
                           then st.stack + [AttrNameMode] else st.stack
    ensures SpaceStep(s, st) == Moved(next)
  {
  }

  lemma OpenBracketStepIs(s: string, st: ScanState, next: ScanState)
    requires st.pos < |s| && next.line == st.line
    requires if NextIs(s, st.pos + 1, '{') then
               && next.pos == st.pos + 2
               && next.tokens == st.tokens + [Token(VarOpen, "{{", st.line)]
               && next.stack == st.stack + [VarIdentifierMode]
             else if NextIs(s, st.pos + 1, '%') then
               && next.pos == st.pos + 2
               && next.tokens == st.tokens + [Token(StmtOpen, "{%", st.line)]
               && next.stack == st.stack + [StatementMode]
             else
               next.pos == st.pos + 1 && next.tokens == st.tokens && next.stack == st.stack
    ensures OpenBracketStep(s, st) == Moved(next)
  {
  }

  lemma CloserStepIs(s: string, st: ScanState, kind: TokenKind, closer: string, next: ScanState)
    requires st.pos < |s| && next.line == st.line
    requires if NextIs(s, st.pos + 1, '}') then
               && next.pos == st.pos + 2
               && next.tokens == st.tokens + [Token(kind, closer, st.line)]
               && next.stack == Pop(st.stack)
             else
               next.pos == st.pos + 1 && next.tokens == st.tokens && next.stack == st.stack
    ensures CloserStep(s, st, kind, closer) == Moved(next)
  {
  }

  /** `scanOpenBracket` on values. */
  function OpenBracketStep(s: string, st: ScanState): StepResult
    requires st.pos < |s|
  {
    var p := st.pos + 1;
    if NextIs(s, p, '{') then
      Moved(ScanState(p + 1, st.line, st.tokens + [Token(VarOpen, "{{", st.line)], st.stack + [VarIdentifierMode]))
    else if NextIs(s, p, '%') then
      Moved(ScanState(p + 1, st.line, st.tokens + [Token(StmtOpen, "{%", st.line)], st.stack + [StatementMode]))
    else
      Moved(st.(pos := p))
  }

  /** `scanCloseBracket` (`closer` is `"}}"`) and `scanPercent` (`closer` is `"%}"`) on values. */
  function CloserStep(s: string, st: ScanState, kind: TokenKind, closer: string): StepResult
    requires st.pos < |s|
  {
    var p := st.pos + 1;
    if NextIs(s, p, '}') then
      Moved(ScanState(p + 1, st.line, st.tokens + [Token(kind, closer, st.line)], Pop(st.stack)))
    else
      Moved(st.(pos := p))
  }

  /** `scanByMode` on values: a run in the mode on top of the stack. */
  function RunStep(s: string, st: ScanState): StepResult
    requires st.pos < |s|
  {
    var mode := Top(st.stack);
    var e := RunEnd(s, st.pos + 1, RunStops(mode));
    Moved(ScanState(e, st.line, st.tokens + [Token(RunKind(mode, s[st.pos..e]), s[st.pos..e], st.line)], st.stack))
  }

  /** The state a run scan from `st` ends in is the one `RunStep` gives. */
  lemma RunStepIs(s: string, st: ScanState, next: ScanState)
    requires st.pos < |s|
    requires next.pos == RunEnd(s, st.pos + 1, RunStops(Top(st.stack)))
    requires next.line == st.line && next.stack == st.stack
    requires next.tokens == st.tokens +
               [Token(RunKind(Top(st.stack), s[st.pos..next.pos]), s[st.pos..next.pos], st.line)]
    ensures RunStep(s, st) == Moved(next)
  {
  }

  /** One turn of `startScan`'s loop on values: consume `s[st.pos]` and do what `scanByChar` does
      with it. */
  function Step(s: string, st: ScanState): (r: StepResult)
    requires st.pos < |s|
    ensures r.Spins? <==> s[st.pos] == '>' && TextMode !in st.stack
    ensures r.Moved? ==> st.pos < r.next.pos <= |s|
    ensures r.Moved? ==> st.tokens <= r.next.tokens && |r.next.tokens| <= |st.tokens| + 1
    ensures r.Moved? ==> r.next.line == if s[st.pos] == '\n' then st.line + 1 else st.line
  {
    match s[st.pos]
    case '<' => TagStartStep(s, st)
    case '>' => TagEndStep(s, st)
    case '"' => QuoteStep(s, st)
    case '=' => Moved(ScanState(st.pos + 1, st.line, st.tokens + [Token(Equal, "=", st.line)], st.stack))
    case ' ' => SpaceStep(s, st)
    case '{' => OpenBracketStep(s, st)
    case '}' => CloserStep(s, st, VarClose, "}}")
    case '%' => CloserStep(s, st, StmtClose, "%}")
    case '\n' => Moved(st.(pos := st.pos + 1, line := st.line + 1))
    case '\t' => Moved(st.(pos := st.pos + 1))
    case '\r' => Moved(st.(pos := st.pos + 1))
    case _ => RunStep(s, st)
  }

  /** `startScan`'s loop on values, from a given state: step until the end of the source. */
  function ScanFrom(s: string, st: ScanState): (r: ScanResult)
    requires st.pos <= |s|
    ensures r.Scanned? ==> st.tokens <= r.tokens
    decreases |s| - st.pos
  {
    if st.pos == |s| then Scanned(st.tokens)
    else
      match Step(s, st)
      case Spins => Hangs
      case Moved(next) => ScanFrom(s, next)
  }

  /** What `new Scanner(s).startScan()` does. */
  function Scan(s: string): ScanResult {
    ScanFrom(s, ScanState(0, 0, [], [TextMode]))
  }

  /** Every token a step emits is exactly the text it consumed, on the line it started on, and is
      never an at-sign. */
  lemma StepToken(s: string, st: ScanState)
    requires st.pos < |s| && Step(s, st).Moved? && |Step(s, st).next.tokens| == |st.tokens| + 1
    ensures var next := Step(s, st).next;
            && next.tokens[|st.tokens|].lexeme == s[st.pos..next.pos]
            && next.tokens[|st.tokens|].line == st.line
            && next.tokens[|st.tokens|].kind != AtSign
  {
    var next := Step(s, st).next;
    match s[st.pos]
    case '<' =>
      if NextIsLetter(s, st.pos + 1) {
        assert s[st.pos..next.pos] == [s[st.pos]];
      } else {
        assert s[st.pos..next.pos] == [s[st.pos], s[st.pos + 1]];
      }
    case '>' => assert s[st.pos..next.pos] == [s[st.pos]];
    case '"' => assert s[st.pos..next.pos] == [s[st.pos]];
    case '=' => assert s[st.pos..next.pos] == [s[st.pos]];
    case '{' => assert s[st.pos..next.pos] == [s[st.pos], s[st.pos + 1]];
    case '}' => assert s[st.pos..next.pos] == [s[st.pos], s[st.pos + 1]];
    case '%' => assert s[st.pos..next.pos] == [s[st.pos], s[st.pos + 1]];
    case _ =>
  }

  /** What every token list a scan builds satisfies: no at-sign, and lines that never decrease. */
  predicate InOrder(tokens: seq<Token>) {
    && (forall i :: 0 <= i < |tokens| ==> tokens[i].kind != AtSign)
    && (forall i, j :: 0 <= i < j < |tokens| ==> tokens[i].line <= tokens[j].line)
  }

  /** No token is on a line beyond `line`. */
  predicate UpTo(tokens: seq<Token>, line: nat) {
    forall i :: 0 <= i < |tokens| ==> tokens[i].line <= line
  }

  /** A step keeps the token list in order and within the current line. */
  lemma StepInOrder(s: string, st: ScanState)
    requires st.pos < |s| && Step(s, st).Moved? && InOrder(st.tokens) && UpTo(st.tokens, st.line)
    ensures InOrder(Step(s, st).next.tokens) && UpTo(Step(s, st).next.tokens, Step(s, st).next.line)
  {
    var next := Step(s, st).next;
    if |next.tokens| == |st.tokens| + 1 {
      StepToken(s, st);
      assert next.tokens == st.tokens + [next.tokens[|st.tokens|]];
    } else {
      assert next.tokens == st.tokens;
    }
  }

  lemma {:induction false} ScanFromInOrder(s: string, st: ScanState)
    requires st.pos <= |s| && InOrder(st.tokens) && UpTo(st.tokens, st.line)
    ensures ScanFrom(s, st).Scanned? ==> InOrder(ScanFrom(s, st).tokens)
    decreases |s| - st.pos
  {
    if st.pos < |s| && Step(s, st).Moved? {
      StepInOrder(s, st);
      ScanFromInOrder(s, Step(s, st).next);
    }
  }

  /** A finished scan emits no at-sign, and its token lines never decrease. */
  lemma ScanInOrder(s: string)
    ensures Scan(s).Scanned? ==> InOrder(Scan(s).tokens)
  {
    ScanFromInOrder(s, ScanState(0, 0, [], [TextMode]));
  }

  /** The stacks a scan reaches while no closer has popped anything: the text mode at the bottom and
      nowhere else, and every attribute-value mode directly over an attribute-name mode that is not
      the bottom. */
  predicate Nested(m: seq<Mode>) {
    && m != [] && m[0] == TextMode && TextMode !in m[1..]
    && (forall i :: 0 <= i < |m| && m[i] == AttrValueMode ==> 2 <= i && m[i - 1] == AttrNameMode)
  }

  /** Pushing a mode other than the text and attribute-value modes keeps a stack nested. */
  lemma NestedPush(m: seq<Mode>, x: Mode)
    requires Nested(m) && x != TextMode && x != AttrValueMode
    ensures Nested(m + [x])
  {
    assert (m + [x])[1..] == m[1..] + [x];
  }

  /** What a quote does to the stack keeps it nested. */
  lemma NestedQuote(m: seq<Mode>)
    requires Nested(m)
    ensures Nested(if Top(m) == Some(AttrValueMode) then Pop(Pop(m))
                   else if Top(m) == Some(AttrNameMode) then m + [AttrValueMode]
                   else m)
  {
    if Top(m) == Some(AttrValueMode) {
      var i := |m| - 1;
      assert 2 <= i;
      var r := Pop(Pop(m));
      assert r == m[..i - 1];
      assert r[1..] == m[1..i - 1];
      assert forall x :: x in r[1..] ==> x in m[1..];
    } else if Top(m) == Some(AttrNameMode) {
      assert |m| >= 2;
      assert (m + [AttrValueMode])[1..] == m[1..] + [AttrValueMode];
    }
  }

  /** Without a `}` ahead, a step never spins and keeps the stack nested. */
  lemma StepNested(s: string, st: ScanState)
    requires st.pos < |s| && Nested(st.stack)
    requires forall k :: st.pos <= k < |s| ==> s[k] != '}'
    ensures Step(s, st).Moved? && Nested(Step(s, st).next.stack)
  {
    var m := st.stack;
    match s[st.pos]
    case '>' => PopToTextShaped(m);
    case '"' => NestedQuote(m);
    case '<' =>
      NestedPush(m, OpenTagMode);
      NestedPush(m, CloseTagMode);
    case ' ' => NestedPush(m, AttrNameMode);
    case '{' =>
      NestedPush(m, VarIdentifierMode);
      NestedPush(m, StatementMode);
    case '%' => assert !NextIs(s, st.pos + 1, '}');
    case _ =>
  }

  lemma {:induction false} ScanFromNeverHangs(s: string, st: ScanState)
    requires st.pos <= |s| && Nested(st.stack)
    requires forall k :: st.pos <= k < |s| ==> s[k] != '}'
    ensures ScanFrom(s, st).Scanned?
    decreases |s| - st.pos
  {
    if st.pos < |s| {
      StepNested(s, st);
      ScanFromNeverHangs(s, Step(s, st).next);
    }
  }

  /** Only a closer (`}}` or `%}`) can pop the base mode, so a template without `}` always scans to
      the end. */
  lemma ScanWithoutCloserFinishes(s: string)
    requires '}' !in s
    ensures Scan(s).Scanned?
  {
    ScanFromNeverHangs(s, ScanState(0, 0, [], [TextMode]));
  }

  /** A stray `}}` pops the base mode, and the `>` after it makes the scan spin. */
  lemma StrayCloserHangs()
    ensures Scan("}}>") == Hangs
  {
  }

  /** The opening tag `<b>` of the element used below. */
  const ElementOpenTokens := [Token(TagOpen, "<", 0), Token(TagName, "b", 0), Token(TagClose, ">", 0)]

  lemma ElementOpenScan()
    ensures ScanFrom("<b>x</b>", ScanState(0, 0, [], [TextMode]))
         == ScanFrom("<b>x</b>", ScanState(3, 0, ElementOpenTokens, [TextMode]))
  {
    var s := "<b>x</b>";
    var t1 := [Token(TagOpen, "<", 0)];
    var t2 := t1 + [Token(TagName, "b", 0)];
    var st1 := ScanState(1, 0, t1, [TextMode, OpenTagMode]);
    var st2 := ScanState(2, 0, t2, [TextMode, OpenTagMode]);
    assert Step(s, ScanState(0, 0, [], [TextMode])) == Moved(st1);
    assert RunEnd(s, 2, TagNameStops) == 2;
    assert s[1..2] == "b";
    assert Step(s, st1) == Moved(st2);
    assert PopToText(st2.stack) == Some([TextMode]);
    assert t2 + [Token(TagClose, ">", 0)] == ElementOpenTokens;
  }

  lemma ElementRestScan()
    ensures ScanFrom("<b>x</b>", ScanState(3, 0, ElementOpenTokens, [TextMode]))
         == Scanned(ElementOpenTokens + [Token(Text, "x", 0),
                    Token(TagEndClose, "</", 0), Token(TagName, "b", 0), Token(TagClose, ">", 0)])
  {
    var s := "<b>x</b>";
    var t4 := ElementOpenTokens + [Token(Text, "x", 0)];
    var t5 := t4 + [Token(TagEndClose, "</", 0)];
    var t6 := t5 + [Token(TagName, "b", 0)];
    var st4 := ScanState(4, 0, t4, [TextMode]);
    var st6 := ScanState(6, 0, t5, [TextMode, CloseTagMode]);
    var st7 := ScanState(7, 0, t6, [TextMode, CloseTagMode]);
    assert RunEnd(s, 4, TextStops) == 4;
    assert s[3..4] == "x";
    assert Step(s, ScanState(3, 0, ElementOpenTokens, [TextMode])) == Moved(st4);
    assert Step(s, st4) == Moved(st6);
    assert RunEnd(s, 7, TagNameStops) == 7;
    assert s[6..7] == "b";
    assert Step(s, st6) == Moved(st7);
    assert PopToText(st7.stack) == Some([TextMode]);
  }

  /** A small element scans to its tag, name, text and closing-tag tokens, all on line 0. */
  lemma ElementTokens()
    ensures Scan("<b>x</b>") == Scanned([
              Token(TagOpen, "<", 0), Token(TagName, "b", 0), Token(TagClose, ">", 0),
              Token(Text, "x", 0),
              Token(TagEndClose, "</", 0), Token(TagName, "b", 0), Token(TagClose, ">", 0)])
  {
    ElementOpenScan();
    ElementRestScan();
  }

  class Scanner {
    const source: string
    var startPos: nat
    var currentPos: nat
    var line: nat
    var tokens: seq<Token>
    var modeStack: seq<Mode>
    /** The source range of each token, in emission order. */
    ghost var spans: seq<Span>

    /** The tokens emitted so far and their spans: each lexeme is exactly its span's text, spans are
        disjoint and in source order, token lines never decrease, and no token is an at-sign. */
    ghost predicate Emitted()
      reads this`tokens, this`spans
    {
      && |spans| == |tokens|
      && (forall i :: 0 <= i < |spans| ==> spans[i].lo < spans[i].hi <= |source|)
      && (forall i :: 0 <= i < |spans| ==> tokens[i].lexeme == source[spans[i].lo..spans[i].hi])
      && (forall i, j :: 0 <= i < j < |spans| ==> spans[i].hi <= spans[j].lo)
      && (forall i, j :: 0 <= i < j < |tokens| ==> tokens[i].line <= tokens[j].line)
      && (forall i :: 0 <= i < |tokens| ==> tokens[i].kind != AtSign)
    }

    /** Every span ends at or before the current position. */
    ghost predicate SpansConsumed()
      reads this`spans, this`currentPos
    {
      forall i :: 0 <= i < |spans| ==> spans[i].hi <= currentPos
    }

    /** No token is on a line beyond the current one. */
    ghost predicate LinesReached()
      reads this`tokens, this`line
    {
      forall i :: 0 <= i < |tokens| ==> tokens[i].line <= line
    }

    ghost predicate Valid()
      reads this
    {
      && startPos <= currentPos <= |source|
      && Emitted() && SpansConsumed() && LinesReached()
      && StackShape(modeStack)
    }

    /** The state `scanByChar` runs in: the character at `startPos` has just been consumed and no token
        emitted so far reaches it. */
    ghost predicate Dispatching()
      reads this
    {
      && Valid()
      && currentPos == startPos + 1
      && (forall i :: 0 <= i < |spans| ==> spans[i].hi <= startPos)
    }

    constructor (source: string)
      ensures this.source == source
      ensures startPos == 0 && currentPos == 0 && line == 0
      ensures tokens == [] && modeStack == [TextMode]
      ensures Valid()
    {
      this.source := source;
      startPos, currentPos, line := 0, 0, 0;
      tokens := [];
      modeStack := [TextMode];
      spans := [];
    }

    /** The state as a value. */
    function State(): ScanState
      reads this
    {
      ScanState(currentPos, line, tokens, modeStack)
    }

    /** The state as a value, with the character at `startPos` not yet consumed. */
    function Pending(): ScanState
      reads this
    {
      ScanState(startPos, line, tokens, modeStack)
    }

    function GetMode(): Option<Mode>
      reads this
    {
      Top(modeStack)
    }

    method PushMode(m: Mode)
      requires m != TextMode && Valid()
      modifies this`modeStack
      ensures modeStack == old(modeStack) + [m] && Valid()
    {
      modeStack := modeStack + [m];
    }

    method PopMode()
      requires Valid()
      modifies this`modeStack
      ensures modeStack == Pop(old(modeStack)) && Valid()
    {
      if modeStack != [] {
        modeStack := modeStack[..|modeStack| - 1];
      }
    }

    predicate IsEnd()
      reads this
    {
      currentPos >= |source|
    }

    /** `matchChar`: the next unconsumed character is `c`. */
    predicate MatchChar(c: char)
      reads this
    {
      currentPos < |source| && source[currentPos] == c
    }

    /** `matchAlphabetChar`: the next unconsumed character is an ASCII letter. */
    predicate MatchAlphabetChar()
      reads this
    {
      currentPos < |source| && IsAsciiLetter(source[currentPos])
    }

    method Advance() returns (c: char)
      requires Valid() && currentPos < |source|
      modifies this`currentPos
      ensures c == source[old(currentPos)] && currentPos == old(currentPos) + 1
      ensures Valid()
    {
      c := source[currentPos];
      currentPos := currentPos + 1;
    }

    method IncrementCurrPos()
      requires Valid() && currentPos < |source|
      modifies this`currentPos
      ensures currentPos == old(currentPos) + 1 && Valid()
    {
      currentPos := currentPos + 1;
    }

    /** Emits `source[startPos..currentPos]` as a token of the given kind on the current line. */
    method AddToken(kind: TokenKind)
      requires Valid() && startPos < currentPos && kind != AtSign
      requires forall i :: 0 <= i < |spans| ==> spans[i].hi <= startPos
      modifies this`tokens, this`spans
      ensures tokens == old(tokens) + [Token(kind, source[startPos..currentPos], line)]
      ensures spans == old(spans) + [Span(startPos, currentPos)]
      ensures Valid()
    {
      tokens := tokens + [Token(kind, source[startPos..currentPos], line)];
      spans := spans + [Span(startPos, currentPos)];
    }

    /** `advanceWhile`: consumes the longest run of characters outside `stops`. */
    method AdvanceWhile(stops: set<char>)
      requires Valid()
      modifies this`currentPos
      ensures old(currentPos) <= currentPos <= |source|
      ensures forall k :: old(currentPos) <= k < currentPos ==> source[k] !in stops
      ensures currentPos == |source| || source[currentPos] in stops
      ensures currentPos == RunEnd(source, old(currentPos), stops)
      ensures Valid()
    {
      while !IsEnd() && source[currentPos] !in stops
        invariant old(currentPos) <= currentPos <= |source|
        invariant forall k :: old(currentPos) <= k < currentPos ==> source[k] !in stops
        invariant Valid()
        decreases |source| - currentPos
      {
        currentPos := currentPos + 1;
      }
      RunEndUnique(source, old(currentPos), stops, currentPos);
    }

    /** `<`: a letter next makes a one-character tag opener and enters the open tag; `/` next makes `</`
        and enters the close tag; anything else is dropped. */
    method ScanTagStart()
      requires Dispatching() && source[startPos] == '<'
      modifies this
      ensures Valid() && startPos == old(startPos) && line == old(line)
      ensures if old(MatchAlphabetChar()) then
                && currentPos == old(currentPos)
                && tokens == old(tokens) + [Token(TagOpen, "<", line)]
                && modeStack == old(modeStack) + [OpenTagMode]
              else if old(MatchChar('/')) then
                && currentPos == old(currentPos) + 1
                && tokens == old(tokens) + [Token(TagEndClose, "</", line)]
                && modeStack == old(modeStack) + [CloseTagMode]
              else
                currentPos == old(currentPos) && tokens == old(tokens) && modeStack == old(modeStack)
      ensures Moved(State()) == TagStartStep(source, old(Pending()))
    {
      ghost var before := Pending();
      if MatchAlphabetChar() {
        assert source[startPos..currentPos] == "<";
        AddToken(TagOpen);
        PushMode(OpenTagMode);
      } else if MatchChar('/') {
        IncrementCurrPos();
        assert source[startPos..currentPos] == "</";
        AddToken(TagEndClose);
        PushMode(CloseTagMode);
      }
      TagStartStepIs(source, before, State());
    }

    /** `>`: emits the tag closer and pops modes until `TextMode` is on top. When no `TextMode` is left
        the source's loop pops an empty stack forever; that is reported as `hang`. */
    method ScanTagEnd() returns (hang: bool)
      requires Dispatching() && source[startPos] == '>'
      modifies this
      ensures Valid() && startPos == old(startPos) && line == old(line) && currentPos == old(currentPos)
      ensures tokens == old(tokens) + [Token(TagClose, ">", line)]
      ensures hang <==> TextMode !in old(modeStack)
      ensures hang ==> modeStack == []
      ensures !hang ==> modeStack == [TextMode]
      ensures TagEndStep(source, old(Pending())) == if hang then Spins else Moved(State())
    {
      assert source[startPos..currentPos] == ">";
      AddToken(TagClose);
      ghost var s0 := modeStack;
      while GetMode() != Some(TextMode)
        invariant Valid() && startPos == old(startPos) && line == old(line) && currentPos == old(currentPos)
        invariant tokens == old(tokens) + [Token(TagClose, ">", line)]
        invariant |modeStack| <= |s0| && modeStack == s0[..|modeStack|]
        invariant TextMode in s0 ==> modeStack != [] && modeStack[0] == TextMode
        decreases |modeStack|
      {
        if modeStack == [] {
          hang := true;
          return;
        }
        PopMode();
      }
      hang := false;
      assert s0[|modeStack| - 1] == TextMode;
      assert forall k :: 1 <= k < |s0| ==> s0[k] == s0[1..][k - 1];
    }

    method ScanOpenOrCloseTagName()
      requires Dispatching()
      modifies this
      ensures Valid() && startPos == old(startPos) && line == old(line) && modeStack == old(modeStack)
      ensures tokens == old(tokens) + [Token(TagName, source[startPos..currentPos], line)]
      ensures old(currentPos) <= currentPos
      ensures forall k :: old(currentPos) <= k < currentPos ==> source[k] !in {'>', ' '}
      ensures currentPos == |source| || source[currentPos] in {'>', ' '}
      ensures currentPos == RunEnd(source, old(currentPos), TagNameStops)
    {
      AdvanceWhile(TagNameStops);
      AddToken(TagName);
    }

    /** `"`: always a quote token; it opens a value after an attribute name and, inside a value, leaves
        both the value and the attribute name. */
    method ScanQuote()
      requires Dispatching() && source[startPos] == '"'
      modifies this
      ensures Valid() && startPos == old(startPos) && line == old(line) && currentPos == old(currentPos)
      ensures tokens == old(tokens) + [Token(Quote, "\"", line)]
      ensures modeStack == if Top(old(modeStack)) == Some(AttrValueMode) then Pop(Pop(old(modeStack)))
                           else if Top(old(modeStack)) == Some(AttrNameMode) then old(modeStack) + [AttrValueMode]
                           else old(modeStack)
      ensures Moved(State()) == QuoteStep(source, old(Pending()))
    {
      ghost var before := Pending();
      assert source[startPos..currentPos] == "\"";
      AddToken(Quote);
      if GetMode() == Some(AttrValueMode) {
        PopMode();
        PopMode();
      } else if GetMode() == Some(AttrNameMode) {
        PushMode(AttrValueMode);
      }
      QuoteStepIs(source, before, State());
    }

    method ScanEqual()
      requires Dispatching() && source[startPos] == '='
      modifies this
      ensures Valid() && startPos == old(startPos) && line == old(line) && currentPos == old(currentPos)
      ensures tokens == old(tokens) + [Token(Equal, "=", line)] && modeStack == old(modeStack)
    {
      assert source[startPos..currentPos] == "=";
      AddToken(Equal);
    }

    /** A space emits nothing; inside an open tag and before a letter it starts an attribute name. */
    method ScanSpace()
      requires Dispatching() && source[startPos] == ' '
      modifies this
      ensures Valid() && startPos == old(startPos) && line == old(line) && currentPos == old(currentPos)
      ensures tokens == old(tokens)
      ensures modeStack == if Top(old(modeStack)) == Some(OpenTagMode) && old(MatchAlphabetChar())
                           then old(modeStack) + [AttrNameMode] else old(modeStack)
      ensures Moved(State()) == SpaceStep(source, old(Pending()))
    {
      ghost var before := Pending();
      var mode := GetMode();
      if mode == Some(OpenTagMode) && MatchAlphabetChar() {
        PushMode(AttrNameMode);
      }
      SpaceStepIs(source, before, State());
    }

    /** `{`: `{{` opens a variable, `{%` a statement; a lone `{` is dropped. */
    method ScanOpenBracket()
      requires Dispatching() && source[startPos] == '{'
      modifies this
      ensures Valid() && startPos == old(startPos) && line == old(line)
      ensures if old(MatchChar('{')) then
                && currentPos == old(currentPos) + 1
                && tokens == old(tokens) + [Token(VarOpen, "{{", line)]
                && modeStack == old(modeStack) + [VarIdentifierMode]
              else if old(MatchChar('%')) then
                && currentPos == old(currentPos) + 1
                && tokens == old(tokens) + [Token(StmtOpen, "{%", line)]
                && modeStack == old(modeStack) + [StatementMode]
              else
                currentPos == old(currentPos) && tokens == old(tokens) && modeStack == old(modeStack)
      ensures Moved(State()) == OpenBracketStep(source, old(Pending()))
    {
      ghost var before := Pending();
      if MatchChar('{') {
        IncrementCurrPos();
        assert source[startPos..currentPos] == "{{";
        AddToken(VarOpen);
        PushMode(VarIdentifierMode);
      } else if MatchChar('%') {
        IncrementCurrPos();
        assert source[startPos..currentPos] == "{%";
        AddToken(StmtOpen);
        PushMode(StatementMode);
      }
      OpenBracketStepIs(source, before, State());
    }

    /** `}`: `}}` closes a variable and pops one mode, whatever is on top; a lone `}` is dropped. */
    method ScanCloseBracket()
      requires Dispatching() && source[startPos] == '}'
      modifies this
      ensures Valid() && startPos == old(startPos) && line == old(line)
      ensures if old(MatchChar('}')) then
                && currentPos == old(currentPos) + 1
                && tokens == old(tokens) + [Token(VarClose, "}}", line)]
                && modeStack == Pop(old(modeStack))
              else
                currentPos == old(currentPos) && tokens == old(tokens) && modeStack == old(modeStack)
      ensures Moved(State()) == CloserStep(source, old(Pending()), VarClose, "}}")
    {
      ghost var before := Pending();
      if MatchChar('}') {
        IncrementCurrPos();
        assert source[startPos..currentPos] == "}}";
        AddToken(VarClose);
        PopMode();
      }
      CloserStepIs(source, before, VarClose, "}}", State());
    }

    /** `%`: `%}` closes a statement and pops one mode, whatever is on top; a lone `%` is dropped. */
    method ScanPercent()
      requires Dispatching() && source[startPos] == '%'
      modifies this
      ensures Valid() && startPos == old(startPos) && line == old(line)
      ensures if old(MatchChar('}')) then
                && currentPos == old(currentPos) + 1
                && tokens == old(tokens) + [Token(StmtClose, "%}", line)]
                && modeStack == Pop(old(modeStack))
              else
                currentPos == old(currentPos) && tokens == old(tokens) && modeStack == old(modeStack)
      ensures Moved(State()) == CloserStep(source, old(Pending()), StmtClose, "%}")
    {
      ghost var before := Pending();
      if MatchChar('}') {
        IncrementCurrPos();
        assert source[startPos..currentPos] == "%}";
        AddToken(StmtClose);
        PopMode();
      }
      CloserStepIs(source, before, StmtClose, "%}", State());
    }

    method ScanAttrName()
      requires Dispatching()
      modifies this
      ensures Valid() && startPos == old(startPos) && line == old(line) && modeStack == old(modeStack)
      ensures tokens == old(tokens) + [Token(AttrName, source[startPos..currentPos], line)]
      ensures old(currentPos) <= currentPos
      ensures forall k :: old(currentPos) <= k < currentPos ==> source[k] !in {'=', '>', ' '}
      ensures currentPos == |source| || source[currentPos] in {'=', '>', ' '}
      ensures currentPos == RunEnd(source, old(currentPos), AttrNameStops)
    {
      AdvanceWhile(AttrNameStops);
      AddToken(AttrName);
    }

    method ScanAttrValue()
      requires Dispatching()
      modifies this
      ensures Valid() && startPos == old(startPos) && line == old(line) && modeStack == old(modeStack)
      ensures tokens == old(tokens) + [Token(AttrValue, source[startPos..currentPos], line)]
      ensures old(currentPos) <= currentPos
      ensures forall k :: old(currentPos) <= k < currentPos ==> source[k] !in {'"', ' ', '{'}
      ensures currentPos == |source| || source[currentPos] in {'"', ' ', '{'}
      ensures currentPos == RunEnd(source, old(currentPos), AttrValueStops)
    {
      AdvanceWhile(AttrValueStops);
      AddToken(AttrValue);
    }

    method ScanVarIdentifier()
      requires Dispatching()
      modifies this
      ensures Valid() && startPos == old(startPos) && line == old(line) && modeStack == old(modeStack)
      ensures tokens == old(tokens) + [Token(Identifier, source[startPos..currentPos], line)]
      ensures old(currentPos) <= currentPos
      ensures forall k :: old(currentPos) <= k < currentPos ==> source[k] != '}'
      ensures currentPos == |source| || source[currentPos] == '}'
      ensures currentPos == RunEnd(source, old(currentPos), IdentifierStops)
    {
      AdvanceWhile(IdentifierStops);
      AddToken(Identifier);
    }

    method ScanText()
      requires Dispatching()
      modifies this
      ensures Valid() && startPos == old(startPos) && line == old(line) && modeStack == old(modeStack)
      ensures tokens == old(tokens) + [Token(Text, source[startPos..currentPos], line)]
      ensures old(currentPos) <= currentPos
      ensures forall k :: old(currentPos) <= k < currentPos ==> source[k] !in {'<', '{'}
      ensures currentPos == |source| || source[currentPos] in {'<', '{'}
      ensures currentPos == RunEnd(source, old(currentPos), TextStops)
    {
      AdvanceWhile(TextStops);
      AddToken(Text);
    }

    /** A statement word: a keyword of the table becomes its keyword kind, anything else an identifier. */
    method ScanStatement()
      requires Dispatching()
      modifies this
      ensures Valid() && startPos == old(startPos) && line == old(line) && modeStack == old(modeStack)
      ensures tokens == old(tokens) +
                [Token(KeywordTable.KeywordKind(source[startPos..currentPos]), source[startPos..currentPos], line)]
      ensures old(currentPos) <= currentPos
      ensures forall k :: old(currentPos) <= k < currentPos ==> source[k] != ' '
      ensures currentPos == |source| || source[currentPos] == ' '
      ensures currentPos == RunEnd(source, old(currentPos), StatementStops)
    {
      AdvanceWhile(StatementStops);
      var keyWord := source[startPos..currentPos];
      var kind := KeywordTable.KeywordKind(keyWord);
      AddToken(kind);
    }

    /** A run scan: the mode on top of the stack picks the stop set and the token kind. */
    method ScanByMode()
      requires Dispatching()
      modifies this
      ensures Valid() && startPos == old(startPos) && line == old(line) && modeStack == old(modeStack)
      ensures old(currentPos) <= currentPos
      ensures tokens == old(tokens) +
                [Token(RunKind(Top(modeStack), source[startPos..currentPos]), source[startPos..currentPos], line)]
      ensures forall k :: old(currentPos) <= k < currentPos ==> source[k] !in RunStops(Top(modeStack))
      ensures currentPos == |source| || source[currentPos] in RunStops(Top(modeStack))
      ensures currentPos == RunEnd(source, old(currentPos), RunStops(Top(modeStack)))
    {
      match GetMode() {
        case Some(AttrNameMode) => ScanAttrName();
        case Some(AttrValueMode) => ScanAttrValue();
        case Some(VarIdentifierMode) => ScanVarIdentifier();
        case Some(OpenTagMode) => ScanOpenOrCloseTagName();
        case Some(CloseTagMode) => ScanOpenOrCloseTagName();
        case Some(StatementMode) => ScanStatement();
        case _ => ScanText();
      }
    }

    /** Dispatches on the character just consumed. A newline only moves to the next line, tab and
        carriage return are dropped, and every non-structural character starts a run scan. */
    method ScanByChar(c: char) returns (hang: bool)
      requires Dispatching() && source[startPos] == c
      modifies this
      ensures Valid() && startPos == old(startPos) && currentPos >= old(currentPos)
      ensures line == if c == '\n' then old(line) + 1 else old(line)
      ensures |old(tokens)| <= |tokens| <= |old(tokens)| + 1 && tokens[..|old(tokens)|] == old(tokens)
      ensures hang <==> c == '>' && TextMode !in old(modeStack)
      ensures hang ==> modeStack == [] && currentPos == old(currentPos)
      ensures c in {'\n', '\t', '\r', ' '} ==> tokens == old(tokens) && currentPos == old(currentPos)
      ensures !IsStructural(c) ==>
                && modeStack == old(modeStack)
                && tokens == old(tokens) +
                   [Token(RunKind(Top(modeStack), source[startPos..currentPos]), source[startPos..currentPos], line)]
      ensures hang <==> Step(source, old(Pending())).Spins?
      ensures !hang ==> Step(source, old(Pending())) == Moved(State())
    {
      hang := false;
      match c
      case '<' => ScanTagStart();
      case '>' => hang := ScanTagEnd();
      case '"' => ScanQuote();
      case '=' => ScanEqual();
      case ' ' => ScanSpace();
      case '{' => ScanOpenBracket();
      case '}' => ScanCloseBracket();
      case '%' => ScanPercent();
      case '\n' => line := line + 1;
      case '\t' =>
      case '\r' =>
      case _ =>
        ghost var before := Pending();
        ScanByMode();
        RunStepIs(source, before, State());
    }

    /** The main loop. On return every character has been consumed, the tokens are in source order
        with disjoint spans, each lexeme is its span's text, lines never decrease, and no token is an
        at-sign (the scanner has no case for `@`). */
    method StartScan() returns (r: ScanResult)
      requires Valid() && startPos == currentPos
      modifies this
      ensures Valid() && line >= old(line)
      ensures |old(tokens)| <= |tokens| && tokens[..|old(tokens)|] == old(tokens)
      ensures r.Scanned? ==> r.tokens == tokens && currentPos == |source|
      ensures r.Hangs? ==> 0 < currentPos && source[currentPos - 1] == '>' && modeStack == []
      ensures r == ScanFrom(source, old(State()))
    {
      while !IsEnd()
        invariant Valid() && line >= old(line)
        invariant ScanFrom(source, State()) == ScanFrom(source, old(State()))
        invariant |old(tokens)| <= |tokens| && tokens[..|old(tokens)|] == old(tokens)
        decreases |source| - currentPos
      {
        ghost var st := State();
        startPos := currentPos;
        var c := Advance();
        var hang := ScanByChar(c);
        if hang {
          assert ScanFrom(source, st) == Hangs;
          return Hangs;
        }
        assert ScanFrom(source, st) == ScanFrom(source, State());
      }
      r := Scanned(tokens);
    }
  }
}
