/** `Tokenizer.parse`: the plain-text tokenizer. A global, Unicode-mode search with the pattern
    "text run, or `{{ name }}`" is written out as an explicit matcher: `Exec` is one `exec` call from
    a `lastIndex`, and `Tokenize` is the loop that consumes its matches. */
module PlainTokenizer {
  import opened Wrappers
  import TextUtil
  import opened TokenizerValidation

  datatype PlainToken = TextToken(value: string) | VarToken(name: string)

  /** `{ success: true, value }` or `{ success: false, error }`. */
  datatype ParseResult = Success(value: seq<PlainToken>) | Failure(error: ParseError)

  /** One match: the text alternative, or the variable alternative with the span of its captured
      name. `end` is where the match stops, the next `lastIndex`. */
  datatype Match =
    | TextMatch(index: nat, end: nat)
    | VarMatch(index: nat, nameStart: nat, nameEnd: nat, end: nat)

  /** The longest name `.{1,50}?` may capture. */
  const MAX_NAME: nat := 50

  /** `[^{]+` from `p`, greedy: the end of the run of characters other than `{`. */
  function TextEnd(s: string, p: nat): (q: nat)
    requires p <= |s|
    ensures p <= q <= |s|
    ensures forall k :: p <= k < q ==> s[k] != '{'
    ensures q == |s| || s[q] == '{'
    decreases |s| - p
  {
    if p < |s| && s[p] != '{' then TextEnd(s, p + 1) else p
  }

  /** `\s*` from `p`, greedy: the end of the whitespace run. */
  function WsEnd(s: string, p: nat): (q: nat)
    requires p <= |s|
    ensures p <= q <= |s|
    ensures forall k :: p <= k < q ==> TextUtil.IsWhitespace(s[k])
    ensures q == |s| || !TextUtil.IsWhitespace(s[q])
    decreases |s| - p
  {
    if p < |s| && TextUtil.IsWhitespace(s[p]) then WsEnd(s, p + 1) else p
  }

  /** `\s*\}\}` matches at `e`. The `}` that must follow the whitespace is not whitespace, so only
      the greedy whitespace run can be followed by it. */
  predicate ClosesAt(s: string, e: nat)
    requires e <= |s|
  {
    var q := WsEnd(s, e);
    q + 2 <= |s| && s[q] == '}' && s[q + 1] == '}'
  }

  /** `s[a..e]` is a name the pattern accepts in that place: 1 to 50 characters, none a line
      terminator, followed by the closing part. */
  predicate NameFits(s: string, a: nat, e: nat) {
    && a < e <= |s| && e - a <= MAX_NAME
    && (forall k :: a <= k < e ==> !TextUtil.IsLineTerminator(s[k]))
    && ClosesAt(s, e)
  }

  /** The lazy `.{1,50}?` from `a`, trying name lengths `n`, `n + 1`, ... up to 50. */
  function LazyName(s: string, a: nat, n: nat): (r: Option<nat>)
    requires 1 <= n && a <= |s|
    ensures r.Some? ==> a + n <= r.value <= |s| && ClosesAt(s, r.value)
    decreases MAX_NAME + 1 - n
  {
    if n > MAX_NAME || a + n > |s| || TextUtil.IsLineTerminator(s[a + n - 1]) then None
    else if ClosesAt(s, a + n) then Some(a + n)
    else LazyName(s, a, n + 1)
  }

  /** The lazy name is the shortest name from `a` of at least `n` characters, given that the first
      `n - 1` characters are not line terminators. */
  lemma {:induction false} LazyNameShortest(s: string, a: nat, n: nat)
    requires 1 <= n && a <= |s|
    requires forall k :: a <= k < a + n - 1 && k < |s| ==> !TextUtil.IsLineTerminator(s[k])
    ensures LazyName(s, a, n).Some? ==> NameFits(s, a, LazyName(s, a, n).value)
    ensures forall e: nat :: a + n <= e && (LazyName(s, a, n).None? || e < LazyName(s, a, n).value) ==> !NameFits(s, a, e)
    decreases MAX_NAME + 1 - n
  {
    if n > MAX_NAME || a + n > |s| || TextUtil.IsLineTerminator(s[a + n - 1]) {
    } else if ClosesAt(s, a + n) {
    } else {
      LazyNameShortest(s, a, n + 1);
    }
  }

  /** The greedy `\s*` after `{{` with backtracking: with the leading whitespace starting at `lo`,
      the name may start at `a`, `a - 1`, ..., `lo`, tried in that order. */
  function LeadName(s: string, lo: nat, a: nat): (r: Option<(nat, nat)>)
    requires lo <= a <= |s|
    ensures r.Some? ==> lo <= r.value.0 <= a && r.value.0 < r.value.1 <= |s|
    ensures r.Some? ==> LazyName(s, r.value.0, 1) == Some(r.value.1)
    decreases a
  {
    match LazyName(s, a, 1)
    case Some(e) => Some((a, e))
    case None => if a == lo then None else LeadName(s, lo, a - 1)
  }

  /** No name can end at or before its start. */
  lemma NoEmptyName(s: string, a: nat)
    ensures forall e: nat :: e <= a ==> !NameFits(s, a, e)
  {
  }

  /** The name `LeadName` picks fits and is the shortest at its start. */
  lemma LeadNameFits(s: string, lo: nat, a: nat)
    requires lo <= a <= |s|
    requires LeadName(s, lo, a).Some?
    ensures var r := LeadName(s, lo, a).value;
            NameFits(s, r.0, r.1) && forall e: nat :: e < r.1 ==> !NameFits(s, r.0, e)
  {
    var r := LeadName(s, lo, a).value;
    NoEmptyName(s, r.0);
    LazyNameShortest(s, r.0, 1);
  }

  /** No name at all starts at `a`. */
  ghost predicate NoNameFrom(s: string, a: nat) {
    forall e: nat :: !NameFits(s, a, e)
  }

  lemma LazyNameNone(s: string, a: nat)
    requires a <= |s| && LazyName(s, a, 1).None?
    ensures NoNameFrom(s, a)
  {
    NoEmptyName(s, a);
    LazyNameShortest(s, a, 1);
  }

  /** The backtracking search from `a` down to `lo` picks no start at `b` or above. */
  predicate PicksBelow(s: string, lo: nat, a: nat, b: nat)
    requires lo <= a <= |s|
  {
    LeadName(s, lo, a).None? || LeadName(s, lo, a).value.0 < b
  }

  /** Each start `LeadName` passes over, from `a` down to the one it picks, has no lazy name;
      when it picks none, no start has one. */
  lemma {:induction false} LeadNameSkipped(s: string, lo: nat, a: nat, b: nat)
    requires lo <= b <= a <= |s| && PicksBelow(s, lo, a, b)
    ensures LazyName(s, b, 1).None?
    decreases a
  {
    if b == a {
      LeadNameTop(s, lo, a);
    } else {
      LeadNameDown(s, lo, a, b);
      LeadNameSkipped(s, lo, a - 1, b);
    }
  }

  /** The first start tried has no lazy name unless it is the one picked. */
  lemma LeadNameTop(s: string, lo: nat, a: nat)
    requires lo <= a <= |s| && PicksBelow(s, lo, a, a)
    ensures LazyName(s, a, 1).None?
  {
  }

  /** When the first start tried is not the one picked, the search goes on from the next one. */
  lemma LeadNameDown(s: string, lo: nat, a: nat, b: nat)
    requires lo <= b < a <= |s| && PicksBelow(s, lo, a, b)
    ensures PicksBelow(s, lo, a - 1, b)
  {
    LeadNameTop(s, lo, a);
  }

  /** The leading whitespace is greedy: no start with more whitespace before it than the one
      `LeadName` picks admits a name, and when it picks none, no start does. */
  lemma LeadNameGreedy(s: string, lo: nat, a: nat)
    requires lo <= a <= |s|
    ensures forall b: nat :: lo <= b <= a && (LeadName(s, lo, a).None? || LeadName(s, lo, a).value.0 < b) ==>
              NoNameFrom(s, b)
  {
    forall b: nat | lo <= b <= a && (LeadName(s, lo, a).None? || LeadName(s, lo, a).value.0 < b)
      ensures NoNameFrom(s, b)
    {
      assert PicksBelow(s, lo, a, b);
      LeadNameSkipped(s, lo, a, b);
      LazyNameNone(s, b);
    }
  }

  /** `\{\{\s*(?<varName>.{1,50}?)\s*\}\}` at `p`: `{{`, the leading whitespace, the name the
      backtracking search picks, the whitespace after it and `}}`. */
  function VarAt(s: string, p: nat): (r: Option<Match>)
    requires p <= |s|
    ensures r.Some? ==> r.value.VarMatch? && r.value.index == p
    ensures r.Some? ==> p + 2 <= r.value.nameStart < r.value.nameEnd && r.value.nameEnd + 2 <= r.value.end <= |s|
  {
    if p + 2 <= |s| && s[p] == '{' && s[p + 1] == '{' then
      var name := LeadName(s, p + 2, WsEnd(s, p + 2));
      if name.None? then None
      else Some(VarMatch(p, name.value.0, name.value.1, WsEnd(s, name.value.1) + 2))
    else None
  }

  /** `VarAt` in terms of the whitespace end `q` and the search result `name`, both given by name
      so that the solver does not unfold those functions again. */
  lemma VarAtIs(s: string, p: nat, q: nat, name: Option<(nat, nat)>)
    requires p + 2 <= |s| && s[p] == '{' && s[p + 1] == '{'
    requires q == WsEnd(s, p + 2) && name == LeadName(s, p + 2, q)
    ensures name.None? ==> VarAt(s, p).None?
    ensures name.Some? ==> VarAt(s, p) == Some(VarMatch(p, name.value.0, name.value.1, WsEnd(s, name.value.1) + 2))
  {
  }

  /** `\s*\}\}` matching at `e`: the whitespace run from `e`, then `}}`. */
  lemma ClosingAfter(s: string, e: nat)
    requires e <= |s| && ClosesAt(s, e)
    ensures var q := WsEnd(s, e);
            && q + 2 <= |s|
            && (forall k :: e <= k < q ==> TextUtil.IsWhitespace(s[k]))
            && s[q] == '}' && s[q + 1] == '}'
  {
  }

  /** A variable match at `p` is `{{`, leading whitespace, the name, the trailing whitespace and
      `}}`. */
  lemma VarAtShape(s: string, p: nat)
    requires p <= |s| && VarAt(s, p).Some?
    ensures var m := VarAt(s, p).value;
            && s[p] == '{' && s[p + 1] == '{'
            && m.nameStart <= WsEnd(s, p + 2)
            && (forall k :: p + 2 <= k < m.nameStart ==> TextUtil.IsWhitespace(s[k]))
            && m.end == WsEnd(s, m.nameEnd) + 2
            && (forall k :: m.nameEnd <= k < m.end - 2 ==> TextUtil.IsWhitespace(s[k]))
            && s[m.end - 2] == '}' && s[m.end - 1] == '}'
  {
    var q := WsEnd(s, p + 2);
    var name := LeadName(s, p + 2, q);
    VarAtIs(s, p, q, name);
    var e := name.value.1;
    ClosingAfter(s, e);
  }

  /** The name of a variable match fits and is the shortest one at its start; no start further into
      the leading whitespace admits a name, because `\s*` is tried greedily first. */
  lemma VarAtName(s: string, p: nat)
    requires p <= |s| && VarAt(s, p).Some?
    ensures var m := VarAt(s, p).value;
            && NameFits(s, m.nameStart, m.nameEnd)
            && (forall e: nat :: e < m.nameEnd ==> !NameFits(s, m.nameStart, e))
            && (forall a: nat :: m.nameStart < a <= WsEnd(s, p + 2) ==> NoNameFrom(s, a))
  {
    var q := WsEnd(s, p + 2);
    LeadNameFits(s, p + 2, q);
    LeadNameGreedy(s, p + 2, q);
  }

  /** After `{{`, no variable matches exactly when no start within the leading whitespace admits
      a name. */
  lemma VarAtNone(s: string, p: nat)
    requires p + 2 <= |s| && s[p] == '{' && s[p + 1] == '{'
    ensures VarAt(s, p).None? <==> forall a: nat :: p + 2 <= a <= WsEnd(s, p + 2) ==> NoNameFrom(s, a)
  {
    var q := WsEnd(s, p + 2);
    LeadNameGreedy(s, p + 2, q);
    if VarAt(s, p).Some? {
      LeadNameFits(s, p + 2, q);
      var m := LeadName(s, p + 2, q).value;
      assert !NoNameFrom(s, m.0);
    }
  }

  /** One `exec` with `lastIndex` at `from`: the leftmost position at or after `from` where the
      pattern matches, the text alternative tried first; `None` once no position matches. */
  function Exec(s: string, from: nat): (r: Option<Match>)
    requires from <= |s|
    ensures r.Some? ==> from <= r.value.index < r.value.end <= |s|
    ensures r.Some? && r.value.TextMatch? ==> r.value.end == TextEnd(s, r.value.index)
    ensures r.Some? && r.value.VarMatch? ==>
              r.value.index + 2 <= r.value.nameStart < r.value.nameEnd && r.value.nameEnd + 2 <= r.value.end
    decreases |s| - from
  {
    if from == |s| then None
    else if s[from] != '{' then Some(TextMatch(from, TextEnd(s, from)))
    else
      match VarAt(s, from)
      case Some(m) => Some(m)
      case None => Exec(s, from + 1)
  }

  /** `Exec` returns the leftmost match: every position it passes over is a `{` at which no
      variable matches. */
  lemma ExecLeftmost(s: string, from: nat)
    requires from <= |s|
    ensures var r := Exec(s, from);
            forall q :: from <= q < (if r.Some? then r.value.index else |s|) ==> s[q] == '{' && VarAt(s, q).None?
  {
    var r := Exec(s, from);
    forall q | from <= q < (if r.Some? then r.value.index else |s|)
      ensures s[q] == '{' && VarAt(s, q).None?
    {
      ExecPasses(s, from, q);
    }
  }

  /** One position `Exec` passes over is a `{` where no variable matches. */
  lemma {:induction false} ExecPasses(s: string, from: nat, q: nat)
    requires from <= q < |s|
    requires Exec(s, from).None? || q < Exec(s, from).value.index
    ensures s[q] == '{' && VarAt(s, q).None?
    decreases q - from
  {
    if s[from] == '{' && VarAt(s, from).None? {
      if from < q {
        ExecSkips(s, from);
        ExecPasses(s, from + 1, q);
      }
    } else {
      ExecStops(s, from);
      assert false;
    }
  }

  /** A `{` where no variable matches is passed over. */
  lemma ExecSkips(s: string, from: nat)
    requires from < |s| && s[from] == '{' && VarAt(s, from).None?
    ensures Exec(s, from) == Exec(s, from + 1)
  {
  }

  /** Anywhere else `Exec` matches on the spot. */
  lemma ExecStops(s: string, from: nat)
    requires from < |s| && !(s[from] == '{' && VarAt(s, from).None?)
    ensures Exec(s, from).Some? && Exec(s, from).value.index == from
  {
  }

  /** Where `Exec` stops, the text alternative is taken when the character is not `{`, and the
      variable alternative otherwise. */
  lemma {:induction false} ExecAlternative(s: string, from: nat)
    requires from <= |s| && Exec(s, from).Some?
    ensures var m := Exec(s, from).value;
            if s[m.index] != '{' then m == TextMatch(m.index, TextEnd(s, m.index)) else VarAt(s, m.index) == Some(m)
    decreases |s| - from
  {
    if s[from] == '{' && VarAt(s, from).None? {
      ExecAlternative(s, from + 1);
    }
  }

  /** What `parse` returns for the text from `from` on: the matches' tokens in order, or the error
      of the first variable whose name fails validation. */
  function Tokenize(s: string, from: nat): ParseResult
    requires from <= |s|
    decreases |s| - from
  {
    match Exec(s, from)
    case None => Success([])
    case Some(TextMatch(i, e)) => Prepend([TextToken(s[i..e])], Tokenize(s, e))
    case Some(VarMatch(i, a, e, end)) =>
      match ValidateVariableMatch(i, s[a..e])
      case Threw(err) => Failure(err)
      case Passed => Prepend([VarToken(s[a..e])], Tokenize(s, end))
  }

  function Prepend(ts: seq<PlainToken>, r: ParseResult): ParseResult {
    match r
    case Success(value) => Success(ts + value)
    case Failure(e) => Failure(e)
  }

  lemma PrependTwice(a: seq<PlainToken>, b: seq<PlainToken>, r: ParseResult)
    ensures Prepend(a, Prepend(b, r)) == Prepend(a + b, r)
  {
    if r.Success? {
      assert a + (b + r.value) == (a + b) + r.value;
    }
  }

  /** What every token of a successful `parse` satisfies: a text token is a non-empty run without
      `{`; a variable token holds the name as captured, untrimmed, of 1 to 50 characters with no line
      terminator, whose trimmed form is non-empty and free of forbidden characters. */
  predicate TokenShape(t: PlainToken) {
    match t
    case TextToken(v) => v != [] && forall k :: 0 <= k < |v| ==> v[k] != '{'
    case VarToken(n) =>
      && 1 <= |n| <= MAX_NAME
      && (forall k :: 0 <= k < |n| ==> !TextUtil.IsLineTerminator(n[k]))
      && TextUtil.Trim(n) != []
      && forall k :: 0 <= k < |TextUtil.Trim(n)| ==> !IsForbidden(TextUtil.Trim(n)[k])
  }

  /** The name of a variable match that passes validation makes a token of that shape. */
  lemma VarTokenShape(s: string, p: nat)
    requires p <= |s| && VarAt(s, p).Some?
    requires var m := VarAt(s, p).value; ValidateVariableMatch(p, s[m.nameStart..m.nameEnd]).Passed?
    ensures var m := VarAt(s, p).value; TokenShape(VarToken(s[m.nameStart..m.nameEnd]))
  {
    VarAtName(s, p);
  }

  /** The text of a text match makes a token of that shape. */
  lemma TextTokenShape(s: string, i: nat)
    requires i < |s| && s[i] != '{'
    ensures TokenShape(TextToken(s[i..TextEnd(s, i)]))
  {
  }

  /** Every token of a successful `parse` has its shape. */
  lemma {:induction false} TokenizeShapes(s: string, from: nat)
    requires from <= |s|
    ensures Tokenize(s, from).Success? ==> forall t :: t in Tokenize(s, from).value ==> TokenShape(t)
    decreases |s| - from
  {
    match Exec(s, from)
    case None =>
    case Some(TextMatch(i, e)) =>
      TokenizeShapes(s, e);
      ExecAlternative(s, from);
      TextTokenShape(s, i);
    case Some(VarMatch(i, a, e, end)) =>
      TokenizeShapes(s, end);
      ExecAlternative(s, from);
      if ValidateVariableMatch(i, s[a..e]).Passed? {
        VarTokenShape(s, i);
      }
  }

  /** Every failure of `parse` carries the validation message. */
  lemma {:induction false} TokenizeFailure(s: string, from: nat)
    requires from <= |s|
    ensures Tokenize(s, from).Failure? ==> Tokenize(s, from).error.message == VALIDATION_ERROR_MESSAGE
    decreases |s| - from
  {
    match Exec(s, from)
    case None =>
    case Some(TextMatch(i, e)) =>
      TokenizeFailure(s, e);
    case Some(VarMatch(i, a, e, end)) =>
      TokenizeFailure(s, end);
  }

  /** A non-empty text without `{` is one text token. */
  lemma TextOnly(s: string)
    requires s != [] && '{' !in s
    ensures Tokenize(s, 0) == Success([TextToken(s)])
  {
    assert TextEnd(s, 0) == |s|;
    assert Exec(s, |s|).None?;
    assert s[0..|s|] == s;
  }

  /** The lazy name from `a` ends at `e` when every shorter candidate is followed by a character that
      is neither whitespace nor `}`. */
  lemma {:induction false} LazyNameReaches(s: string, a: nat, n: nat, e: nat)
    requires 1 <= n && a + n <= e <= |s| && e - a <= MAX_NAME
    requires forall k :: a <= k < e ==> !TextUtil.IsLineTerminator(s[k]) && s[k] != '}'
    requires !TextUtil.IsWhitespace(s[e - 1]) && ClosesAt(s, e)
    ensures LazyName(s, a, n) == Some(e)
    decreases e - (a + n)
  {
    if a + n < e {
      var q := WsEnd(s, a + n);
      assert q < e;
      assert !ClosesAt(s, a + n);
      LazyNameReaches(s, a, n + 1, e);
    }
  }

  /** A whitespace run from `p` that ends at `q` is the greedy one. */
  lemma WsEndAt(s: string, p: nat, q: nat)
    requires p <= q <= |s|
    requires forall k :: p <= k < q ==> TextUtil.IsWhitespace(s[k])
    requires q == |s| || !TextUtil.IsWhitespace(s[q])
    ensures WsEnd(s, p) == q
  {
  }

  /** A text that is `{{`, whitespace up to `a`, a name from `a` to `e`, whitespace and a closing
      `}}` that ends it is the variable match of that name. */
  lemma VariableSpan(s: string, a: nat, e: nat)
    requires 2 <= a < e && e - a <= MAX_NAME && e + 2 <= |s|
    requires s[0] == '{' && s[1] == '{'
    requires forall k :: 2 <= k < a ==> TextUtil.IsWhitespace(s[k])
    requires forall k :: a <= k < e ==> !TextUtil.IsLineTerminator(s[k]) && s[k] != '}'
    requires !TextUtil.IsWhitespace(s[a]) && !TextUtil.IsWhitespace(s[e - 1])
    requires forall k :: e <= k < |s| - 2 ==> TextUtil.IsWhitespace(s[k])
    requires s[|s| - 2] == '}' && s[|s| - 1] == '}'
    ensures Exec(s, 0) == Some(VarMatch(0, a, e, |s|))
  {
    WsEndAt(s, 2, a);
    WsEndAt(s, e, |s| - 2);
    LazyNameReaches(s, a, 1, e);
    assert LeadName(s, 2, a) == Some((a, e));
  }

  /** A text that is one variable match is its one token, or its validation error. */
  lemma OneVariableMatch(s: string, a: nat, e: nat)
    requires a <= e <= |s| && Exec(s, 0) == Some(VarMatch(0, a, e, |s|))
    ensures Tokenize(s, 0) ==
            match ValidateVariableMatch(0, s[a..e])
            case Passed => Success([VarToken(s[a..e])])
            case Threw(err) => Failure(err)
  {
    TokenizeAtVar(s, 0, 0, a, e, |s|);
    TokenizeAtEnd(s);
    assert [VarToken(s[a..e])] + [] == [VarToken(s[a..e])];
  }

  /** `Tokenize` at a variable match. */
  lemma TokenizeAtVar(s: string, from: nat, i: nat, a: nat, e: nat, end: nat)
    requires from <= |s| && Exec(s, from) == Some(VarMatch(i, a, e, end))
    ensures Tokenize(s, from) ==
            match ValidateVariableMatch(i, s[a..e])
            case Threw(err) => Failure(err)
            case Passed => Prepend([VarToken(s[a..e])], Tokenize(s, end))
  {
  }

  /** Nothing is left at the end of the text. */
  lemma TokenizeAtEnd(s: string)
    ensures Tokenize(s, |s|) == Success([])
  {
    assert Exec(s, |s|).None?;
  }

  /** A text given by the positions of its parts is its one token, or its validation error. */
  lemma SpanTokens(s: string, a: nat, e: nat, name: string)
    requires 2 <= a < e && e - a <= MAX_NAME && e + 2 <= |s| && s[a..e] == name
    requires s[0] == '{' && s[1] == '{'
    requires forall k :: 2 <= k < a ==> TextUtil.IsWhitespace(s[k])
    requires forall k :: a <= k < e ==> !TextUtil.IsLineTerminator(s[k]) && s[k] != '}'
    requires !TextUtil.IsWhitespace(s[a]) && !TextUtil.IsWhitespace(s[e - 1])
    requires forall k :: e <= k < |s| - 2 ==> TextUtil.IsWhitespace(s[k])
    requires s[|s| - 2] == '}' && s[|s| - 1] == '}'
    ensures Tokenize(s, 0) ==
            match ValidateVariableMatch(0, name)
            case Passed => Success([VarToken(name)])
            case Threw(err) => Failure(err)
  {
    VariableSpan(s, a, e);
    OneVariableMatch(s, a, e);
  }

  /** The text made of `{{`, whitespace, a name, whitespace and `}}` is that name's one token, or its
      validation error. */
  lemma VariableOfParts(w1: string, name: string, w2: string)
    requires TextUtil.AllWhitespace(w1) && TextUtil.AllWhitespace(w2)
    requires 1 <= |name| <= MAX_NAME
    requires forall k :: 0 <= k < |name| ==> !TextUtil.IsLineTerminator(name[k]) && name[k] != '}'
    requires !TextUtil.IsWhitespace(name[0]) && !TextUtil.IsWhitespace(name[|name| - 1])
    ensures Tokenize("{{" + w1 + name + w2 + "}}", 0) ==
            match ValidateVariableMatch(0, name)
            case Passed => Success([VarToken(name)])
            case Threw(err) => Failure(err)
  {
    var s := "{{" + w1 + name + w2 + "}}";
    PartsPositions(w1, name, w2, s);
    SpanTokens(s, 2 + |w1|, 2 + |w1| + |name|, name);
  }

  /** Where the parts of `{{`, whitespace, a name, whitespace and `}}` lie in the text. */
  lemma PartsPositions(w1: string, name: string, w2: string, s: string)
    requires TextUtil.AllWhitespace(w1) && TextUtil.AllWhitespace(w2)
    requires 1 <= |name| <= MAX_NAME
    requires forall k :: 0 <= k < |name| ==> !TextUtil.IsLineTerminator(name[k]) && name[k] != '}'
    requires !TextUtil.IsWhitespace(name[0]) && !TextUtil.IsWhitespace(name[|name| - 1])
    requires s == "{{" + w1 + name + w2 + "}}"
    ensures var a := 2 + |w1|;
            var e := 2 + |w1| + |name|;
            && 2 <= a < e && e - a <= MAX_NAME && e + 2 <= |s| && s[a..e] == name
            && s[0] == '{' && s[1] == '{'
            && (forall k :: 2 <= k < a ==> TextUtil.IsWhitespace(s[k]))
            && (forall k :: a <= k < e ==> !TextUtil.IsLineTerminator(s[k]) && s[k] != '}')
            && !TextUtil.IsWhitespace(s[a]) && !TextUtil.IsWhitespace(s[e - 1])
            && (forall k :: e <= k < |s| - 2 ==> TextUtil.IsWhitespace(s[k]))
            && s[|s| - 2] == '}' && s[|s| - 1] == '}'
  {
    var a := 2 + |w1|;
    var e := a + |name|;
    assert forall k :: 2 <= k < a ==> s[k] == w1[k - 2];
    assert forall k :: a <= k < e ==> s[k] == name[k - a];
    assert forall k :: e <= k < |s| - 2 ==> s[k] == w2[k - e];
    assert s[a..e] == name;
  }

  /** `{{`, whitespace, a name and whitespace, then `}}`: the name is the one variable token when it
      passes validation, and its error is the result otherwise. The name must start and end with
      characters other than whitespace and hold no `}`; its length is 1 to 50. */
  lemma SingleVariable(w1: string, name: string, w2: string)
    requires TextUtil.AllWhitespace(w1) && TextUtil.AllWhitespace(w2)
    requires 1 <= |name| <= MAX_NAME
    requires forall k :: 0 <= k < |name| ==> !TextUtil.IsLineTerminator(name[k]) && name[k] != '}'
    requires !TextUtil.IsWhitespace(name[0]) && !TextUtil.IsWhitespace(name[|name| - 1])
    ensures CheckName(0, name).Passed? ==> Tokenize("{{" + w1 + name + w2 + "}}", 0) == Success([VarToken(name)])
    ensures CheckName(0, name).Threw? ==> Tokenize("{{" + w1 + name + w2 + "}}", 0) == Failure(CheckName(0, name).error)
  {
    VariableOfParts(w1, name, w2);
    TextUtil.TrimOfTrimmed(name);
    assert ValidateVariableMatch(0, name) == CheckName(0, name);
  }

  /** `parse`: the `while ((result = regex.exec(text)))` loop. */
  method Parse(text: string) returns (r: ParseResult)
    ensures r == Tokenize(text, 0)
  {
    var tokens: seq<PlainToken> := [];
    var lastIndex := 0;
    var result := Exec(text, lastIndex);
    while result.Some?
      invariant lastIndex <= |text|
      invariant result == Exec(text, lastIndex)
      invariant Tokenize(text, 0) == Prepend(tokens, Tokenize(text, lastIndex))
      decreases |text| - lastIndex
    {
      var m := result.value;
      if m.VarMatch? {
        var varName := text[m.nameStart..m.nameEnd];
        var check := ValidateVariableMatch(m.index, varName);
        if check.Threw? {
          return Failure(check.error);
        }
        PrependTwice(tokens, [VarToken(varName)], Tokenize(text, m.end));
        tokens := tokens + [VarToken(varName)];
      } else {
        PrependTwice(tokens, [TextToken(text[m.index..m.end])], Tokenize(text, m.end));
        tokens := tokens + [TextToken(text[m.index..m.end])];
      }
      lastIndex := m.end;
      result := Exec(text, lastIndex);
    }
    assert tokens + [] == tokens;
    r := Success(tokens);
  }
}
