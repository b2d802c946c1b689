/** The recursive-descent parser as functions of the token list and a cursor position. Each `XAt(t, p)`
    is what the parser's method for X does when called with the cursor at `p`: it returns the value
    built and the cursor position afterwards, `Error` when the method throws (an explicit `throw`, or a
    read of a token past the last one), or `Stuck` when it never returns. */
module ParserSpec {
  import opened Wrappers
  import opened Tokens
  import opened Ast
  import TextUtil

  datatype Res<T> = Ok(value: T, next: nat) | Error | Stuck

  /** The attributes and event handlers of one open tag, each in source order. */
  datatype AttrList = AttrList(attributes: seq<Attribute>, eventHandlers: seq<EventHandler>)

  datatype OpenTag = OpenTag(name: string, attrs: AttrList)

  /** What `parse()` returns: the nodes, or `null` once anything threw; or it never returns. */
  datatype ParseOutcome = Parsed(nodes: seq<Node>) | Null | Hangs

  /** `match(k)`: not at the end, and the current token has kind `k`. */
  predicate Is(t: seq<Token>, p: nat, k: TokenKind) {
    p < |t| && t[p].kind == k
  }

  /** `{{ identifier }}`. */
  predicate VariableShapeAt(t: seq<Token>, p: nat) {
    Is(t, p, VarOpen) && Is(t, p + 1, Identifier) && Is(t, p + 2, VarClose)
  }

  /** `{% if name %}`. */
  predicate IfOpenAt(t: seq<Token>, p: nat) {
    Is(t, p, StmtOpen) && Is(t, p + 1, If) && Is(t, p + 2, Identifier) && Is(t, p + 3, StmtClose)
  }

  /** `{% else`: the start that commits an if to an else branch. */
  predicate ElseStartAt(t: seq<Token>, p: nat) {
    Is(t, p, StmtOpen) && Is(t, p + 1, TokenKind.Else)
  }

  /** `{% else %}`. */
  predicate ElseOpenAt(t: seq<Token>, p: nat) {
    ElseStartAt(t, p) && Is(t, p + 2, StmtClose)
  }

  /** `{% endif %}`. */
  predicate EndIfAt(t: seq<Token>, p: nat) {
    Is(t, p, StmtOpen) && Is(t, p + 1, EndIf) && Is(t, p + 2, StmtClose)
  }

  /** `{% for x in xs %}`. */
  predicate ForOpenAt(t: seq<Token>, p: nat) {
    && Is(t, p, StmtOpen) && Is(t, p + 1, For) && Is(t, p + 2, Identifier)
    && Is(t, p + 3, In) && Is(t, p + 4, Identifier) && Is(t, p + 5, StmtClose)
  }

  /** `{% endfor %}`. */
  predicate EndForAt(t: seq<Token>, p: nat) {
    Is(t, p, StmtOpen) && Is(t, p + 1, EndFor) && Is(t, p + 2, StmtClose)
  }

  /** `@ name = " handler "`. */
  predicate HandlerShapeAt(t: seq<Token>, p: nat) {
    && Is(t, p, AtSign) && Is(t, p + 1, AttrName) && Is(t, p + 2, Equal)
    && Is(t, p + 3, Quote) && Is(t, p + 4, AttrValue) && Is(t, p + 5, Quote)
  }

  /** `advance()`: one step forwards, except at the end. */
  function Adv(t: seq<Token>, p: nat): nat {
    if p < |t| then p + 1 else p
  }

  /** No at-sign token from `p` on. */
  predicate NoAtSign(t: seq<Token>, p: nat) {
    forall i :: p <= i < |t| ==> t[i].kind != AtSign
  }

  /** Carries a failure on unchanged. */
  function Fail<T, U>(r: Res<T>): (f: Res<U>)
    requires !r.Ok?
    ensures f.Error? <==> r.Error?
  {
    if r.Error? then Error else Stuck
  }

  function One(r: Res<Node>): (s: Res<seq<Node>>)
    ensures s.Ok? <==> r.Ok?
    ensures r.Ok? ==> s.value == [r.value] && s.next == r.next
    ensures s.Error? <==> r.Error?
  {
    match r
    case Ok(n, next) => Ok([n], next)
    case Error => Error
    case Stuck => Stuck
  }

  /** Puts `xs` in front of a successful list result. */
  function PrependAll<T>(xs: seq<T>, r: Res<seq<T>>): (s: Res<seq<T>>)
    ensures s.Ok? <==> r.Ok?
    ensures r.Ok? ==> s.value == xs + r.value && s.next == r.next
    ensures s.Error? <==> r.Error?
  {
    match r
    case Ok(v, next) => Ok(xs + v, next)
    case Error => Error
    case Stuck => Stuck
  }

  /** Puts attributes and handlers in front of a successful attribute-list result. */
  function PrependAttrs(attrs: seq<Attribute>, handlers: seq<EventHandler>, r: Res<AttrList>): (s: Res<AttrList>)
    ensures s.Ok? <==> r.Ok?
    ensures r.Ok? ==> s.value == AttrList(attrs + r.value.attributes, handlers + r.value.eventHandlers)
                      && s.next == r.next
    ensures s.Error? <==> r.Error?
  {
    match r
    case Ok(v, next) => Ok(AttrList(attrs + v.attributes, handlers + v.eventHandlers), next)
    case Error => Error
    case Stuck => Stuck
  }

  lemma PrependAllNothing<T>(r: Res<seq<T>>)
    ensures PrependAll([], r) == r
  {
    if r.Ok? {
      assert [] + r.value == r.value;
    }
  }

  lemma PrependAllTwice<T>(xs: seq<T>, ys: seq<T>, r: Res<seq<T>>)
    ensures PrependAll(xs, PrependAll(ys, r)) == PrependAll(xs + ys, r)
  {
    if r.Ok? {
      assert xs + (ys + r.value) == (xs + ys) + r.value;
    }
  }

  lemma PrependAttrsNothing(r: Res<AttrList>)
    ensures PrependAttrs([], [], r) == r
  {
    if r.Ok? {
      assert [] + r.value.attributes == r.value.attributes;
      assert [] + r.value.eventHandlers == r.value.eventHandlers;
    }
  }

  lemma PrependAttrsTwice(a1: seq<Attribute>, h1: seq<EventHandler>, a2: seq<Attribute>, h2: seq<EventHandler>,
                          r: Res<AttrList>)
    ensures PrependAttrs(a1, h1, PrependAttrs(a2, h2, r)) == PrependAttrs(a1 + a2, h1 + h2, r)
  {
    if r.Ok? {
      assert a1 + (a2 + r.value.attributes) == (a1 + a2) + r.value.attributes;
      assert h1 + (h2 + r.value.eventHandlers) == (h1 + h2) + r.value.eventHandlers;
    }
  }

  /** `expression()`: at most one node, chosen by the current token. */
  function ExpressionAt(t: seq<Token>, p: nat): (r: Res<seq<Node>>)
    requires p <= |t|
    ensures r.Ok? ==> p < r.next <= |t|
    ensures p == |t| ==> r.Error?
    decreases |t| - p, 4
  {
    if p >= |t| then Error  // peek() is undefined at the end
    else match t[p].kind
      case TagOpen => One(ElementAt(t, p))
      case VarOpen => One(VariableAt(t, p))
      case StmtOpen =>
        if p + 1 >= |t| then Error  // matchNext reads past the last token
        else if t[p + 1].kind == If then One(IfAt(t, p))
        else if t[p + 1].kind == For then One(ForAt(t, p))
        else Ok([], p + 1)
      case _ => Ok([TextNode(t[p].lexeme)], p + 1)
  }

  /** `parseVariableExpr()`: exactly `{{ identifier }}`; the name loses its trailing whitespace. */
  function VariableAt(t: seq<Token>, p: nat): (r: Res<Node>)
    ensures r.Ok? <==> VariableShapeAt(t, p)
    ensures r.Ok? ==> r.next == p + 3 && r.value == VariableNode(TextUtil.TrimEnd(t[p + 1].lexeme))
    ensures !r.Stuck?
  {
    if !VariableShapeAt(t, p) then Error
    else Ok(VariableNode(TextUtil.TrimEnd(t[p + 1].lexeme)), p + 3)
  }

  /** The close check shared by both paths of `parseIfElse`. */
  function CloseIfAt(t: seq<Token>, q: nat, n: Node): (r: Res<Node>)
    ensures r.Ok? <==> EndIfAt(t, q)
    ensures r.Ok? ==> r.value == n && r.next == q + 3
    ensures !r.Stuck?
  {
    if EndIfAt(t, q) then Ok(n, q + 3) else Error
  }

  /** `parseIfElse()`: `{% if name %}`, one branch expression, an optional `{% else %}` and one else
      expression, then the mandatory `{% endif %}`. */
  function IfAt(t: seq<Token>, p: nat): (r: Res<Node>)
    requires p <= |t|
    ensures r.Ok? ==> p + 8 <= r.next <= |t|
    decreases |t| - p, 0
  {
    if !IfOpenAt(t, p) then Error
    else
      match ExpressionAt(t, p + 4)
      case Ok(branch, q) => IfTailAt(t, q, t[p + 2].lexeme, branch)
      case Error => Error
      case Stuck => Stuck
  }

  /** The part of `parseIfElse()` after the first branch, which ends at `q`: the optional else
      branch and the closing `{% endif %}`. */
  function IfTailAt(t: seq<Token>, q: nat, name: string, branch: seq<Node>): (r: Res<Node>)
    requires q <= |t|
    ensures r.Ok? ==> q + 3 <= r.next <= |t|
    decreases |t| - q, 1
  {
    if !ElseStartAt(t, q) then CloseIfAt(t, q, IfNode(name, branch, NoElse))
    else if !ElseOpenAt(t, q) then Error
    else
      match ExpressionAt(t, q + 3)
      case Ok(elseBranch, q2) => CloseIfAt(t, q2, IfNode(name, branch, WithElse(elseBranch)))
      case Error => Error
      case Stuck => Stuck
  }

  /** `parseForStmt()`: `{% for x in xs %}`, one body expression, then `{% endfor %}`. */
  function ForAt(t: seq<Token>, p: nat): (r: Res<Node>)
    requires p <= |t|
    ensures r.Ok? ==> p + 10 <= r.next <= |t|
    decreases |t| - p, 0
  {
    if !ForOpenAt(t, p) then Error
    else
      match ExpressionAt(t, p + 6)
      case Ok(body, q) =>
        if EndForAt(t, q)
        then Ok(ForNode(t[p + 2].lexeme, t[p + 4].lexeme, body), q + 3)
        else Error
      case Error => Error
      case Stuck => Stuck
  }

  /** `parseEventHandler()`: no handler unless the current token is an at-sign; then exactly
      `@ name = " handler "`, with the handler name trimmed. */
  function EventHandlerAt(t: seq<Token>, p: nat): (r: Res<Option<EventHandler>>)
    ensures r.Ok? ==> (r.value.None? <==> !Is(t, p, AtSign))
    ensures r.Ok? && r.value.None? ==> r.next == p
    ensures Is(t, p, AtSign) ==>
              (r.Ok? <==> HandlerShapeAt(t, p))
    ensures r.Ok? && r.value.Some? ==>
              r.next == p + 6 && r.value.value == EventHandler(t[p + 1].lexeme, TextUtil.Trim(t[p + 4].lexeme))
    ensures !r.Stuck?
  {
    if !Is(t, p, AtSign) then Ok(None, p)
    else if HandlerShapeAt(t, p)
    then Ok(Some(EventHandler(t[p + 1].lexeme, TextUtil.Trim(t[p + 4].lexeme))), p + 6)
    else Error
  }

  /** The stop tokens of an attribute value. */
  predicate EndsValue(k: TokenKind) {
    k == AttrName || k == TagClose || k == AtSign
  }

  /** One round of the value loop of `parseAttributes()`, entered at a token that does not end the
      value: a literal, a nested variable or a nested if (any other token contributes nothing), and
      then one more step. */
  function AttrPartAt(t: seq<Token>, p: nat): (r: Res<seq<AttrPart>>)
    requires p < |t|
    ensures r.Ok? ==> p < r.next <= |t| && |r.value| <= 1
    decreases |t| - p, 1
  {
    if t[p].kind == AttrValue then Ok([Literal(t[p].lexeme)], p + 1)
    else if t[p].kind == VarOpen then
      match VariableAt(t, p)
      case Ok(v, n) => Ok([Nested(v)], Adv(t, n))
      case Error => Error
      case Stuck => Stuck
    else if t[p].kind == StmtOpen then
      match IfAt(t, p)
      case Ok(v, n) => Ok([Nested(v)], Adv(t, n))
      case Error => Error
      case Stuck => Stuck
    else Ok([], p + 1)
  }

  /** The value loop of `parseAttributes()`: rounds up to the next attribute name, tag close or
      at-sign. At the end of the tokens the loop spins. */
  function AttrValueAt(t: seq<Token>, p: nat): (r: Res<seq<AttrPart>>)
    requires p <= |t|
    ensures r.Ok? ==> p <= r.next < |t| && EndsValue(t[r.next].kind)
    decreases |t| - p, 2
  {
    if p >= |t| then Stuck
    else if EndsValue(t[p].kind) then Ok([], p)
    else
      match AttrPartAt(t, p)
      case Ok(parts, n) => PrependAll(parts, AttrValueAt(t, n))
      case Error => Error
      case Stuck => Stuck
  }

  /** One round of the loop in `parseAttributes()`, entered at a token other than the tag close: an
      event handler, or a named attribute and its value (a nameless one contributes nothing). Any
      other token makes the loop spin without advancing. */
  function AttrRoundAt(t: seq<Token>, p: nat): (r: Res<AttrList>)
    requires p <= |t|
    ensures r.Ok? ==> p < r.next <= |t|
    ensures r.Ok? ==> |r.value.attributes| + |r.value.eventHandlers| <= 1
    decreases |t| - p, 1
  {
    match EventHandlerAt(t, p)
    case Ok(Some(h), n) => Ok(AttrList([], [h]), n)
    case Ok(None, _) =>
      if !Is(t, p, AttrName) then Stuck
      else (
        match AttrValueAt(t, p + 1)
        case Ok(parts, n) =>
          Ok(if t[p].lexeme == "" then AttrList([], []) else AttrList([Attribute(t[p].lexeme, parts)], []), n)
        case Error => Error
        case Stuck => Stuck)
    case Error => Error
    case Stuck => Stuck
  }

  /** `parseAttributes()`: rounds of event handlers and named attributes up to the tag close. */
  function AttributesAt(t: seq<Token>, p: nat): (r: Res<AttrList>)
    requires p <= |t|
    ensures r.Ok? ==> p <= r.next < |t| && t[r.next].kind == TagClose
    ensures p == |t| ==> r.Stuck?
    decreases |t| - p, 2
  {
    if Is(t, p, TagClose) then Ok(AttrList([], []), p)
    else
      match AttrRoundAt(t, p)
      case Ok(l, n) => PrependAttrs(l.attributes, l.eventHandlers, AttributesAt(t, n))
      case Error => Error
      case Stuck => Stuck
  }

  /** `parseOpenTag()`, entered just after the tag opener: the tag name, the attributes, and one step
      past the tag close. At the end of the tokens the cursor stays put and the attribute loop spins. */
  function OpenTagAt(t: seq<Token>, p: nat): (r: Res<OpenTag>)
    requires p <= |t|
    ensures r.Ok? ==> p < r.next <= |t| && t[r.next - 1].kind == TagClose && r.value.name == t[p].lexeme
    decreases |t| - p, 3
  {
    if p >= |t| then Stuck
    else
      match AttributesAt(t, p + 1)
      case Ok(attrs, n) => Ok(OpenTag(t[p].lexeme, attrs), n + 1)
      case Error => Error
      case Stuck => Stuck
  }

  /** The inner loop of `parseCloseTag()`: steps forwards to the next tag close, spinning at the end. */
  function SkipToTagCloseAt(t: seq<Token>, p: nat): (r: Res<()>)
    requires p <= |t|
    ensures r.Ok? ==> p <= r.next < |t| && t[r.next].kind == TagClose
    ensures r.Ok? ==> forall i :: p <= i < r.next ==> t[i].kind != TagClose
    ensures !r.Error?
    decreases |t| - p
  {
    if p >= |t| then Stuck
    else if t[p].kind == TagClose then Ok((), p)
    else SkipToTagCloseAt(t, p + 1)
  }

  /** `parseCloseTag()`, entered just after `</`: the close-tag name, then one step past the next tag
      close. */
  function CloseTagAt(t: seq<Token>, p: nat): (r: Res<string>)
    requires p <= |t|
    ensures r.Ok? ==> p < r.next <= |t| && t[r.next - 1].kind == TagClose && r.value == t[p].lexeme
    ensures !r.Error?
  {
    if p >= |t| then Stuck
    else
      match SkipToTagCloseAt(t, p + 1)
      case Ok(_, n) => Ok(t[p].lexeme, n + 1)
      case Error => Error
      case Stuck => Stuck
  }

  /** The children loop of `parseElementNode()`: one expression per slot up to the `</`. */
  function ChildrenAt(t: seq<Token>, p: nat): (r: Res<seq<Slot>>)
    requires p <= |t|
    ensures r.Ok? ==> p <= r.next < |t| && t[r.next].kind == TagEndClose
    decreases |t| - p, 5
  {
    if Is(t, p, TagEndClose) then Ok([], p)
    else
      match ExpressionAt(t, p)
      case Ok(e, n) => PrependAll([Slot(e)], ChildrenAt(t, n))
      case Error => Error
      case Stuck => Stuck
  }

  /** `parseElementNode()`, entered at the tag opener: open tag, children, close tag; a close-tag name
      other than the open-tag name is an error. */
  function ElementAt(t: seq<Token>, p: nat): (r: Res<Node>)
    requires p < |t|
    ensures r.Ok? ==> p < r.next <= |t|
    decreases |t| - p, 3
  {
    match OpenTagAt(t, p + 1)
    case Ok(tag, n) =>
      (match ChildrenAt(t, n)
       case Ok(children, q) =>
         (match CloseTagAt(t, q + 1)
          case Ok(closeName, e) =>
            if closeName != tag.name then Error
            else Ok(ElementNode(tag.name, children, tag.attrs.attributes, tag.attrs.eventHandlers), e)
          case Error => Error
          case Stuck => Stuck)
       case Error => Error
       case Stuck => Stuck)
    case Error => Error
    case Stuck => Stuck
  }

  /** `parse()`: the first expression only; every throw becomes `null`. */
  function ParseTokens(t: seq<Token>): (r: ParseOutcome)
    ensures t == [] ==> r.Null?
  {
    match ExpressionAt(t, 0)
    case Ok(nodes, _) => Parsed(nodes)
    case Error => Null
    case Stuck => Hangs
  }
}
