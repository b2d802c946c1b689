/** The parser itself: a cursor `current` over the token list, advanced step by step. Every parse
    method returns exactly what its `ParserSpec` function says for the position it was called at,
    and leaves the cursor where that function says. Where the source would loop forever the method
    returns `Stuck` instead. */
module Parsing {
  import opened Wrappers
  import opened Tokens
  import opened Ast
  import opened ParserSpec
  import TextUtil

  class Parser {
    const tokens: seq<Token>
    var current: nat

    constructor (tokens: seq<Token>)
      ensures this.tokens == tokens && current == 0
    {
      this.tokens := tokens;
      current := 0;
    }

    /** `isAtEnd()`: the cursor is past the last token. */
    predicate IsAtEnd()
      reads this
    {
      current >= |tokens|
    }

    /** `match(k)`. */
    predicate Match(k: TokenKind)
      reads this
    {
      Is(tokens, current, k)
    }

    /** `advance(step)`: moves only when not at the end. */
    method Advance(step: nat)
      requires current <= |tokens| && (current < |tokens| ==> current + step <= |tokens|)
      modifies this
      ensures current == if old(current) < |tokens| then old(current) + step else old(current)
    {
      if !IsAtEnd() {
        current := current + step;
      }
    }

    /** `expression()`. */
    method Expression() returns (r: Res<seq<Node>>)
      requires current <= |tokens|
      modifies this
      ensures r == ExpressionAt(tokens, old(current))
      ensures r.Ok? ==> current == r.next
      decreases |tokens| - current, 4
    {
      if IsAtEnd() {
        return Error;
      }
      match tokens[current].kind
      case TagOpen =>
        var e := ParseElementNode();
        r := One(e);
      case VarOpen =>
        var v := ParseVariableExpr();
        r := One(v);
      case StmtOpen =>
        if current + 1 >= |tokens| {
          return Error;
        }
        if tokens[current + 1].kind == If {
          var n := ParseIfElse();
          r := One(n);
        } else if tokens[current + 1].kind == For {
          var n := ParseForStmt();
          r := One(n);
        } else {
          Advance(1);
          r := Ok([], current);
        }
      case _ =>
        var lexeme := tokens[current].lexeme;
        Advance(1);
        r := Ok([TextNode(lexeme)], current);
    }

    /** `parseForStmt()`. */
    method ParseForStmt() returns (r: Res<Node>)
      requires current <= |tokens|
      modifies this
      ensures r == ForAt(tokens, old(current))
      ensures r.Ok? ==> current == r.next
      decreases |tokens| - current, 0
    {
      var pos := current;
      if !ForOpenAt(tokens, pos) {
        return Error;
      }
      var iterateVariable := tokens[pos + 2].lexeme;
      var collectionVariable := tokens[pos + 4].lexeme;
      Advance(6);
      var body := Expression();
      if !body.Ok? {
        return Fail(body);
      }
      pos := current;
      if !EndForAt(tokens, pos) {
        return Error;
      }
      Advance(3);
      r := Ok(ForNode(iterateVariable, collectionVariable, body.value), current);
    }

    /** `parseIfElse()`. */
    method ParseIfElse() returns (r: Res<Node>)
      requires current <= |tokens|
      modifies this
      ensures r == IfAt(tokens, old(current))
      ensures r.Ok? ==> current == r.next
      decreases |tokens| - current, 0
    {
      var pos := current;
      if !IfOpenAt(tokens, pos) {
        return Error;
      }
      var ifMatchVariable := tokens[pos + 2].lexeme;
      Advance(4);
      var ifBranch := Expression();
      if !ifBranch.Ok? {
        return Fail(ifBranch);
      }
      r := ParseIfTail(ifMatchVariable, ifBranch.value);
    }

    /** The rest of `parseIfElse()` once the first branch is parsed: the optional `{% else %}`
        branch, then the mandatory `{% endif %}`. */
    method ParseIfTail(ifMatchVariable: string, ifBranch: seq<Node>) returns (r: Res<Node>)
      requires current <= |tokens|
      modifies this
      ensures r == IfTailAt(tokens, old(current), ifMatchVariable, ifBranch)
      ensures r.Ok? ==> current == r.next
      decreases |tokens| - current, 1
    {
      var pos := current;
      var elseBranch := NoElse;
      var hasElseBranchStatement := ElseStartAt(tokens, pos);
      var isValidElseStatement := ElseOpenAt(tokens, pos);
      if hasElseBranchStatement && !isValidElseStatement {
        return Error;
      }
      if hasElseBranchStatement {
        Advance(3);
        var e := Expression();
        if !e.Ok? {
          return Fail(e);
        }
        elseBranch := WithElse(e.value);
      }
      pos := current;
      if !EndIfAt(tokens, pos) {
        return Error;
      }
      Advance(3);
      r := Ok(IfNode(ifMatchVariable, ifBranch, elseBranch), current);
    }

    /** `parseVariableExpr()`. */
    method ParseVariableExpr() returns (r: Res<Node>)
      requires current <= |tokens|
      modifies this
      ensures r == VariableAt(tokens, old(current))
      ensures r.Ok? ==> current == r.next
    {
      var pos := current;
      if !VariableShapeAt(tokens, pos) {
        return Error;
      }
      Advance(3);
      var variableName := TextUtil.TrimEnd(tokens[pos + 1].lexeme);
      r := Ok(VariableNode(variableName), current);
    }

    /** `parseEventHandler()`: `Ok(None)` stands for its `null`. */
    method ParseEventHandler() returns (r: Res<Option<EventHandler>>)
      requires current <= |tokens|
      modifies this
      ensures r == EventHandlerAt(tokens, old(current))
      ensures r.Ok? ==> current == r.next
    {
      ghost var p := current;
      if !Match(AtSign) {
        return Ok(None, current);
      }
      Advance(1);
      if !Match(AttrName) {
        return Error;
      }
      var eventName := tokens[current].lexeme;
      Advance(1);
      if !Match(Equal) {
        return Error;
      }
      Advance(1);
      if !Match(Quote) {
        return Error;
      }
      Advance(1);
      if !Match(AttrValue) {
        return Error;
      }
      var handlerName := TextUtil.Trim(tokens[current].lexeme);
      Advance(1);
      if !Match(Quote) {
        return Error;
      }
      Advance(1);
      assert HandlerShapeAt(tokens, p);
      r := Ok(Some(EventHandler(eventName, handlerName)), current);
    }

    /** The body of the value loop inside `parseAttributes()`, with its closing step. */
    method ParseAttributePart() returns (r: Res<seq<AttrPart>>)
      requires current < |tokens|
      modifies this
      ensures r == AttrPartAt(tokens, old(current))
      ensures r.Ok? ==> current == r.next
      decreases |tokens| - current, 1
    {
      var part: seq<AttrPart> := [];
      if Match(AttrValue) {
        part := [Literal(tokens[current].lexeme)];
      } else if Match(VarOpen) {
        var variableExpr := ParseVariableExpr();
        if !variableExpr.Ok? {
          return Fail(variableExpr);
        }
        part := [Nested(variableExpr.value)];
      } else if Match(StmtOpen) {
        var ifNodeExpr := ParseIfElse();
        if !ifNodeExpr.Ok? {
          return Fail(ifNodeExpr);
        }
        part := [Nested(ifNodeExpr.value)];
      }
      Advance(1);
      r := Ok(part, current);
    }

    /** The value loop inside `parseAttributes()`. */
    method ParseAttributeValue() returns (r: Res<seq<AttrPart>>)
      requires current <= |tokens|
      modifies this
      ensures r == AttrValueAt(tokens, old(current))
      ensures r.Ok? ==> current == r.next
      decreases |tokens| - current, 2
    {
      var attrValue: seq<AttrPart> := [];
      ghost var p0 := current;
      PrependAllNothing(AttrValueAt(tokens, current));
      while !Match(AttrName) && !Match(TagClose) && !Match(AtSign)
        invariant p0 <= current <= |tokens|
        invariant AttrValueAt(tokens, p0) == PrependAll(attrValue, AttrValueAt(tokens, current))
        decreases |tokens| - current
      {
        if IsAtEnd() {
          // advance() does not move at the end: the loop spins
          return Stuck;
        }
        var part := ParseAttributePart();
        if !part.Ok? {
          return Fail(part);
        }
        PrependAllTwice(attrValue, part.value, AttrValueAt(tokens, current));
        attrValue := attrValue + part.value;
      }
      assert AttrValueAt(tokens, current) == Ok([], current);
      assert attrValue + [] == attrValue;
      r := Ok(attrValue, current);
    }

    /** The body of the loop in `parseAttributes()`: one event handler, or one named attribute. */
    method ParseAttribute() returns (r: Res<AttrList>)
      requires current <= |tokens|
      modifies this
      ensures r == AttrRoundAt(tokens, old(current))
      ensures r.Ok? ==> current == r.next
      decreases |tokens| - current, 1
    {
      var eventHandler := ParseEventHandler();
      if !eventHandler.Ok? {
        return Fail(eventHandler);
      }
      if eventHandler.value.Some? {
        return Ok(AttrList([], [eventHandler.value.value]), current);
      }
      if !Match(AttrName) {
        // nothing is consumed: the enclosing loop spins
        return Stuck;
      }
      var attrName := tokens[current].lexeme;
      Advance(1);
      var attrValue := ParseAttributeValue();
      if !attrValue.Ok? {
        return Fail(attrValue);
      }
      if attrName != "" {
        r := Ok(AttrList([Attribute(attrName, attrValue.value)], []), current);
      } else {
        r := Ok(AttrList([], []), current);
      }
    }

    /** `parseAttributes()`. */
    method ParseAttributes() returns (r: Res<AttrList>)
      requires current <= |tokens|
      modifies this
      ensures r == AttributesAt(tokens, old(current))
      ensures r.Ok? ==> current == r.next
      decreases |tokens| - current, 2
    {
      var attributes: seq<Attribute> := [];
      var eventHandlers: seq<EventHandler> := [];
      ghost var p0 := current;
      PrependAttrsNothing(AttributesAt(tokens, current));
      while !Match(TagClose)
        invariant p0 <= current <= |tokens|
        invariant AttributesAt(tokens, p0) == PrependAttrs(attributes, eventHandlers, AttributesAt(tokens, current))
        decreases |tokens| - current
      {
        var round := ParseAttribute();
        if !round.Ok? {
          return Fail(round);
        }
        PrependAttrsTwice(attributes, eventHandlers, round.value.attributes, round.value.eventHandlers,
                          AttributesAt(tokens, current));
        attributes := attributes + round.value.attributes;
        eventHandlers := eventHandlers + round.value.eventHandlers;
      }
      assert AttributesAt(tokens, current) == Ok(AttrList([], []), current);
      assert attributes + [] == attributes && eventHandlers + [] == eventHandlers;
      r := Ok(AttrList(attributes, eventHandlers), current);
    }

    /** `parseOpenTag()`, called just after the tag opener. */
    method ParseOpenTag() returns (r: Res<OpenTag>)
      requires current <= |tokens|
      modifies this
      ensures r == OpenTagAt(tokens, old(current))
      ensures r.Ok? ==> current == r.next
      decreases |tokens| - current, 3
    {
      if IsAtEnd() {
        // advance() does not move, so parseAttributes() starts at the end and spins
        return Stuck;
      }
      var tagName := tokens[current].lexeme;
      Advance(1);
      var attrs := ParseAttributes();
      if !attrs.Ok? {
        return Fail(attrs);
      }
      Advance(1);
      r := Ok(OpenTag(tagName, attrs.value), current);
    }

    /** `parseCloseTag()`, called just after `</`. */
    method ParseCloseTag() returns (r: Res<string>)
      requires current <= |tokens|
      modifies this
      ensures r == CloseTagAt(tokens, old(current))
      ensures r.Ok? ==> current == r.next
    {
      if IsAtEnd() {
        // advance() does not move and the skip loop below spins at the end
        return Stuck;
      }
      var tagName := tokens[current].lexeme;
      Advance(1);
      ghost var p1 := current;
      while !Match(TagClose)
        invariant p1 <= current <= |tokens|
        invariant SkipToTagCloseAt(tokens, p1) == SkipToTagCloseAt(tokens, current)
        decreases |tokens| - current
      {
        if IsAtEnd() {
          return Stuck;
        }
        Advance(1);
      }
      Advance(1);
      r := Ok(tagName, current);
    }

    /** `parseElementNode()`. */
    method ParseElementNode() returns (r: Res<Node>)
      requires current < |tokens|
      modifies this
      ensures r == ElementAt(tokens, old(current))
      ensures r.Ok? ==> current == r.next
      decreases |tokens| - current, 3
    {
      Advance(1);
      var tag := ParseOpenTag();
      if !tag.Ok? {
        return Fail(tag);
      }
      var children := ParseChildren();
      if !children.Ok? {
        return Fail(children);
      }
      Advance(1);
      var closeTagName := ParseCloseTag();
      if !closeTagName.Ok? {
        return Fail(closeTagName);
      }
      if closeTagName.value != tag.value.name {
        return Error;
      }
      r := Ok(ElementNode(tag.value.name, children.value, tag.value.attrs.attributes, tag.value.attrs.eventHandlers),
              current);
    }

    /** The children loop of `parseElementNode()`: one expression per slot up to the `</`. */
    method ParseChildren() returns (r: Res<seq<Slot>>)
      requires current <= |tokens|
      modifies this
      ensures r == ChildrenAt(tokens, old(current))
      ensures r.Ok? ==> current == r.next
      decreases |tokens| - current, 5
    {
      var children: seq<Slot> := [];
      ghost var c0 := current;
      PrependAllNothing(ChildrenAt(tokens, current));
      while !Match(TagEndClose)
        invariant c0 <= current <= |tokens|
        invariant ChildrenAt(tokens, c0) == PrependAll(children, ChildrenAt(tokens, current))
        decreases |tokens| - current
      {
        var expression := Expression();
        if !expression.Ok? {
          return Fail(expression);
        }
        PrependAllTwice(children, [Slot(expression.value)], ChildrenAt(tokens, current));
        children := children + [Slot(expression.value)];
      }
      assert ChildrenAt(tokens, current) == Ok([], current);
      assert children + [] == children;
      r := Ok(children, current);
    }

    /** `parse()`: the first expression, or `null` once anything threw. */
    method Parse() returns (r: ParseOutcome)
      requires current == 0
      modifies this
      ensures r == ParseTokens(tokens)
    {
      var e := Expression();
      match e
      case Ok(nodes, _) => r := Parsed(nodes);
      case Error => r := Null;
      case Stuck => r := Hangs;
    }
  }
}
