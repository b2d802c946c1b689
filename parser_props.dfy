/** Properties of the parser's reference functions: the shape of every tree it builds, the fixed
    token frames of variables, ifs and fors, the tag-name check of elements, and the rule that a
    token list without at-signs yields a tree without event handlers. */
module ParserProps {
  import opened Wrappers
  import opened Tokens
  import opened Ast
  import opened ParserSpec
  import TextUtil

  predicate SlotsShaped(s: seq<Slot>) {
    forall c :: c in s ==> ExprShaped(c.nodes)
  }

  predicate SlotsHandlerFree(s: seq<Slot>) {
    forall c :: c in s ==> ExprHandlerFree(c.nodes)
  }

  predicate PartsShaped(ps: seq<AttrPart>) {
    forall part :: part in ps ==> PartShaped(part)
  }

  predicate PartsHandlerFree(ps: seq<AttrPart>) {
    forall part :: part in ps ==> (part.Nested? ==> HandlerFree(part.node))
  }

  predicate ListShaped(l: AttrList) {
    forall a :: a in l.attributes ==> AttrShaped(a)
  }

  predicate ListHandlerFree(l: AttrList) {
    l.eventHandlers == [] && forall a :: a in l.attributes ==> AttrHandlerFree(a)
  }

  /** Every `expression()` result holds at most one node, and so does every nested template; with no
      at-sign ahead, no element in it has an event handler. */
  lemma {:induction false} ExpressionShaped(t: seq<Token>, p: nat)
    requires p <= |t|
    ensures ExpressionAt(t, p).Ok? ==> ExprShaped(ExpressionAt(t, p).value)
    ensures ExpressionAt(t, p).Ok? && NoAtSign(t, p) ==> ExprHandlerFree(ExpressionAt(t, p).value)
    decreases |t| - p, 4
  {
    if p < |t| {
      if t[p].kind == TagOpen {
        ElementShaped(t, p);
      } else if t[p].kind == StmtOpen && p + 1 < |t| {
        if t[p + 1].kind == If {
          IfShaped(t, p);
        } else if t[p + 1].kind == For {
          ForShaped(t, p);
        }
      }
    }
  }

  lemma {:induction false} ElementShaped(t: seq<Token>, p: nat)
    requires p < |t|
    ensures ElementAt(t, p).Ok? ==> ElementAt(t, p).value.ElementNode? && NodeShaped(ElementAt(t, p).value)
    ensures ElementAt(t, p).Ok? && NoAtSign(t, p) ==> HandlerFree(ElementAt(t, p).value)
    decreases |t| - p, 3
  {
    var tag := OpenTagAt(t, p + 1);
    if tag.Ok? {
      AttributesShaped(t, p + 2);
      ChildrenShaped(t, tag.next);
      var children := ChildrenAt(t, tag.next);
      if children.Ok? && ElementAt(t, p).Ok? {
        var attrs := AttributesAt(t, p + 2).value;
        assert tag.value.attrs == attrs;
        assert ElementAt(t, p).value == ElementNode(tag.value.name, children.value, attrs.attributes, attrs.eventHandlers);
        ElementOfShaped(tag.value.name, children.value, attrs);
        if NoAtSign(t, p) {
          assert NoAtSign(t, p + 2) && NoAtSign(t, tag.next);
          ElementOfHandlerFree(tag.value.name, children.value, attrs);
        }
      }
    }
  }

  lemma ElementOfShaped(name: string, children: seq<Slot>, attrs: AttrList)
    requires SlotsShaped(children) && ListShaped(attrs)
    ensures NodeShaped(ElementNode(name, children, attrs.attributes, attrs.eventHandlers))
  {
  }

  lemma ElementOfHandlerFree(name: string, children: seq<Slot>, attrs: AttrList)
    requires SlotsHandlerFree(children) && ListHandlerFree(attrs)
    ensures HandlerFree(ElementNode(name, children, attrs.attributes, attrs.eventHandlers))
  {
  }

  lemma {:induction false} ChildrenShaped(t: seq<Token>, p: nat)
    requires p <= |t|
    ensures ChildrenAt(t, p).Ok? ==> SlotsShaped(ChildrenAt(t, p).value)
    ensures ChildrenAt(t, p).Ok? && NoAtSign(t, p) ==> SlotsHandlerFree(ChildrenAt(t, p).value)
    decreases |t| - p, 5
  {
    if !Is(t, p, TagEndClose) {
      ExpressionShaped(t, p);
      var e := ExpressionAt(t, p);
      if e.Ok? {
        ChildrenShaped(t, e.next);
      }
    }
  }

  lemma {:induction false} IfShaped(t: seq<Token>, p: nat)
    requires p <= |t|
    ensures IfAt(t, p).Ok? ==> IfAt(t, p).value.IfNode? && NodeShaped(IfAt(t, p).value)
    ensures IfAt(t, p).Ok? && NoAtSign(t, p) ==> HandlerFree(IfAt(t, p).value)
    decreases |t| - p, 0
  {
    if IfOpenAt(t, p) {
      ExpressionShaped(t, p + 4);
      var b := ExpressionAt(t, p + 4);
      if b.Ok? && ElseOpenAt(t, b.next) {
        ExpressionShaped(t, b.next + 3);
      }
    }
  }

  lemma {:induction false} ForShaped(t: seq<Token>, p: nat)
    requires p <= |t|
    ensures ForAt(t, p).Ok? ==> ForAt(t, p).value.ForNode? && NodeShaped(ForAt(t, p).value)
    ensures ForAt(t, p).Ok? && NoAtSign(t, p) ==> HandlerFree(ForAt(t, p).value)
    decreases |t| - p, 0
  {
    if ForOpenAt(t, p) {
      ExpressionShaped(t, p + 6);
    }
  }

  lemma {:induction false} AttributesShaped(t: seq<Token>, p: nat)
    requires p <= |t|
    ensures AttributesAt(t, p).Ok? ==> ListShaped(AttributesAt(t, p).value)
    ensures AttributesAt(t, p).Ok? && NoAtSign(t, p) ==> ListHandlerFree(AttributesAt(t, p).value)
    decreases |t| - p, 2
  {
    if !Is(t, p, TagClose) {
      AttrRoundShaped(t, p);
      var round := AttrRoundAt(t, p);
      if round.Ok? {
        AttributesShaped(t, round.next);
      }
    }
  }

  lemma {:induction false} AttrRoundShaped(t: seq<Token>, p: nat)
    requires p <= |t|
    ensures AttrRoundAt(t, p).Ok? ==> ListShaped(AttrRoundAt(t, p).value)
    ensures AttrRoundAt(t, p).Ok? && NoAtSign(t, p) ==> ListHandlerFree(AttrRoundAt(t, p).value)
    decreases |t| - p, 1
  {
    if EventHandlerAt(t, p) == Ok(None, p) && Is(t, p, AttrName) {
      AttrValueShaped(t, p + 1);
    }
  }

  lemma {:induction false} AttrValueShaped(t: seq<Token>, p: nat)
    requires p <= |t|
    ensures AttrValueAt(t, p).Ok? ==> PartsShaped(AttrValueAt(t, p).value)
    ensures AttrValueAt(t, p).Ok? && NoAtSign(t, p) ==> PartsHandlerFree(AttrValueAt(t, p).value)
    decreases |t| - p, 2
  {
    if p < |t| && !EndsValue(t[p].kind) {
      AttrPartShaped(t, p);
      var part := AttrPartAt(t, p);
      if part.Ok? {
        AttrValueShaped(t, part.next);
      }
    }
  }

  lemma {:induction false} AttrPartShaped(t: seq<Token>, p: nat)
    requires p < |t|
    ensures AttrPartAt(t, p).Ok? ==> PartsShaped(AttrPartAt(t, p).value)
    ensures AttrPartAt(t, p).Ok? && NoAtSign(t, p) ==> PartsHandlerFree(AttrPartAt(t, p).value)
    decreases |t| - p, 1
  {
    if t[p].kind == StmtOpen {
      IfShaped(t, p);
    }
  }

  /** What `expression()` builds is chosen by the current token: an element at a tag opener, a
      variable at `{{`, an if or a for at `{%` followed by the keyword, nothing (one token consumed)
      at `{%` with anything else, and otherwise a text node holding the token's lexeme. */
  lemma ExpressionKinds(t: seq<Token>, p: nat)
    requires p < |t| && ExpressionAt(t, p).Ok?
    ensures var e := ExpressionAt(t, p).value;
            && (e == [] <==> t[p].kind == StmtOpen && p + 1 < |t| && t[p + 1].kind != If && t[p + 1].kind != For)
            && (e == [] ==> ExpressionAt(t, p).next == p + 1)
            && (e != [] && e[0].ElementNode? <==> t[p].kind == TagOpen)
            && (e != [] && e[0].VariableNode? <==> t[p].kind == VarOpen)
            && (e != [] && e[0].IfNode? <==> t[p].kind == StmtOpen && t[p + 1].kind == If)
            && (e != [] && e[0].ForNode? <==> t[p].kind == StmtOpen && t[p + 1].kind == For)
            && (e != [] && e[0].TextNode? <==> t[p].kind !in {TagOpen, VarOpen, StmtOpen})
            && (e != [] && e[0].TextNode? ==> e == [TextNode(t[p].lexeme)] && ExpressionAt(t, p).next == p + 1)
  {
    if t[p].kind == TagOpen {
      ElementShaped(t, p);
    } else if t[p].kind == StmtOpen {
      if t[p + 1].kind == If {
        IfShaped(t, p);
      } else if t[p + 1].kind == For {
        ForShaped(t, p);
      }
    }
  }

  /** A parsed if is the frame `{% if name %}`, the branch expression, an else part exactly when
      `{% else` follows the branch, and the closing `{% endif %}`. */
  lemma IfFrame(t: seq<Token>, p: nat)
    requires p <= |t| && IfAt(t, p).Ok?
    ensures IfOpenAt(t, p)
    ensures var n := IfAt(t, p).value;
            var b := ExpressionAt(t, p + 4);
            && b.Ok? && n.IfNode? && n.matchVariable == t[p + 2].lexeme && n.ifBranch == b.value
            && (n.elseBranch.WithElse? <==> ElseStartAt(t, b.next))
            && (n.elseBranch.NoElse? ==> EndIfAt(t, b.next) && IfAt(t, p).next == b.next + 3)
            && (n.elseBranch.WithElse? ==>
                  && ElseOpenAt(t, b.next)
                  && ExpressionAt(t, b.next + 3).Ok?
                  && n.elseBranch.nodes == ExpressionAt(t, b.next + 3).value
                  && EndIfAt(t, ExpressionAt(t, b.next + 3).next)
                  && IfAt(t, p).next == ExpressionAt(t, b.next + 3).next + 3)
  {
  }

  /** The ways an if fails: a wrong opening frame, a `{% else` without its `%}`, or no `{% endif %}`
      after the last branch. */
  lemma IfErrors(t: seq<Token>, p: nat)
    requires p <= |t|
    ensures !IfOpenAt(t, p) ==> IfAt(t, p).Error?
    ensures IfOpenAt(t, p) && ExpressionAt(t, p + 4).Ok? ==>
              var q := ExpressionAt(t, p + 4).next;
              && (ElseStartAt(t, q) && !ElseOpenAt(t, q) ==> IfAt(t, p).Error?)
              && (!ElseStartAt(t, q) && !EndIfAt(t, q) ==> IfAt(t, p).Error?)
  {
  }

  /** A parsed for is `{% for x in xs %}`, the body expression and `{% endfor %}`; its names are the
      lexemes two and four tokens in. */
  lemma ForFrame(t: seq<Token>, p: nat)
    requires p <= |t| && ForAt(t, p).Ok?
    ensures ForOpenAt(t, p)
    ensures var n := ForAt(t, p).value;
            var b := ExpressionAt(t, p + 6);
            && b.Ok? && n.ForNode? && n.iterVariable == t[p + 2].lexeme && n.collectionVariable == t[p + 4].lexeme
            && n.body == b.value && EndForAt(t, b.next) && ForAt(t, p).next == b.next + 3
  {
  }

  lemma ForErrors(t: seq<Token>, p: nat)
    requires p <= |t|
    ensures !ForOpenAt(t, p) ==> ForAt(t, p).Error?
    ensures ForOpenAt(t, p) && ExpressionAt(t, p + 6).Ok? && !EndForAt(t, ExpressionAt(t, p + 6).next) ==>
              ForAt(t, p).Error?
  {
  }

  /** Once the open tag, the children and the close tag are read, the element is built exactly when
      the close-tag name equals the open-tag name, and is an error otherwise. */
  lemma ElementNameCheck(t: seq<Token>, p: nat)
    requires p < |t| && OpenTagAt(t, p + 1).Ok?
    requires ChildrenAt(t, OpenTagAt(t, p + 1).next).Ok?
    requires CloseTagAt(t, ChildrenAt(t, OpenTagAt(t, p + 1).next).next + 1).Ok?
    ensures var closeName := CloseTagAt(t, ChildrenAt(t, OpenTagAt(t, p + 1).next).next + 1).value;
            && (ElementAt(t, p).Ok? <==> closeName == t[p + 1].lexeme)
            && (closeName != t[p + 1].lexeme ==> ElementAt(t, p).Error?)
            && (ElementAt(t, p).Ok? ==>
                  ElementAt(t, p).value == ElementNode(t[p + 1].lexeme, ChildrenAt(t, OpenTagAt(t, p + 1).next).value,
                                                       OpenTagAt(t, p + 1).value.attrs.attributes,
                                                       OpenTagAt(t, p + 1).value.attrs.eventHandlers))
  {
  }

  /** The tokens of `<h1 class="class-1 {{customClass1}} class-2 {{customClass2}}">`. */
  function ClassAttributeTokens(): (t: seq<Token>)
    ensures |t| == 15
  {
    [ Token(TagOpen, "<", 1), Token(TagName, "h1", 1), Token(AttrName, "class", 1), Token(Equal, "=", 1),
      Token(Quote, "\"", 1), Token(AttrValue, "class-1", 1),
      Token(VarOpen, "{{", 1), Token(Identifier, "customClass1", 1), Token(VarClose, "}}", 1),
      Token(AttrValue, "class-2", 1),
      Token(VarOpen, "{{", 1), Token(Identifier, "customClass2", 1), Token(VarClose, "}}", 1),
      Token(Quote, "\"", 1), Token(TagClose, ">", 1) ]
  }

  /** The step after each nested variable swallows the next token, so `class-2` and the closing quote
      are lost and the value keeps three fragments. */
  lemma ClassAttributeValue()
    ensures AttributesAt(ClassAttributeTokens(), 2) ==
            Ok(AttrList([Attribute("class", [Literal("class-1"), Nested(VariableNode("customClass1")),
                                             Nested(VariableNode("customClass2"))])], []), 14)
  {
    var t := ClassAttributeTokens();
    ClassAttributeTokensAre(t);
    ClassAttributeOf(t);
  }

  /** The facts about the class-attribute tokens used by the parse below. */
  predicate ClassTokenFacts(t: seq<Token>) {
    && |t| == 15
    && t[2] == Token(AttrName, "class", 1) && t[3].kind == Equal && t[4].kind == Quote
    && t[5] == Token(AttrValue, "class-1", 1)
    && t[6].kind == VarOpen && t[7] == Token(Identifier, "customClass1", 1) && t[8].kind == VarClose
    && t[9].kind == AttrValue
    && t[10].kind == VarOpen && t[11] == Token(Identifier, "customClass2", 1) && t[12].kind == VarClose
    && t[13].kind == Quote && t[14].kind == TagClose
  }

  lemma ClassAttributeTokensAre(t: seq<Token>)
    requires t == ClassAttributeTokens()
    ensures ClassTokenFacts(t)
  {
  }

  /** `ClassAttributeValue` from the facts alone, so that each step is taken once. */
  lemma ClassAttributeOf(t: seq<Token>)
    requires ClassTokenFacts(t)
    ensures AttributesAt(t, 2) ==
            Ok(AttrList([Attribute("class", [Literal("class-1"), Nested(VariableNode("customClass1")),
                                             Nested(VariableNode("customClass2"))])], []), 14)
  {
    var v1 := VariableNode("customClass1");
    var v2 := VariableNode("customClass2");
    var parts := [Literal("class-1"), Nested(v1), Nested(v2)];
    assert TextUtil.TrimEnd(t[7].lexeme) == "customClass1";
    assert TextUtil.TrimEnd(t[11].lexeme) == "customClass2";
    assert AttrValueAt(t, 14) == Ok([], 14);
    ValueVariableStep(t, 10);
    ValueVariableStep(t, 6);
    ValueLiteralStep(t, 5);
    ValueSkipStep(t, 4);
    ValueSkipStep(t, 3);
    assert [Nested(v2)] + [] == [Nested(v2)];
    assert [Nested(v1)] + [Nested(v2)] == [Nested(v1), Nested(v2)];
    assert [Literal("class-1")] + [Nested(v1), Nested(v2)] == parts;
    assert AttrValueAt(t, 3) == Ok(parts, 14);
    var attr := Attribute("class", parts);
    assert AttributesAt(t, 14) == Ok(AttrList([], []), 14);
    assert EventHandlerAt(t, 2) == Ok(None, 2);
    assert AttrRoundAt(t, 2) == Ok(AttrList([attr], []), 14);
    assert AttributesAt(t, 2) == PrependAttrs([attr], [], AttributesAt(t, 14));
    assert [attr] + [] == [attr];
    var none: seq<EventHandler> := [];
    assert none + [] == none;
  }

  /** In an attribute value, a value token is kept as a literal fragment. */
  lemma ValueLiteralStep(t: seq<Token>, p: nat)
    requires p < |t| && t[p].kind == AttrValue
    ensures AttrValueAt(t, p) == PrependAll([Literal(t[p].lexeme)], AttrValueAt(t, p + 1))
  {
  }

  /** In an attribute value, a nested `{{ name }}` becomes a variable fragment, and the step after
      it passes over the token that follows the closing `}}`. */
  lemma ValueVariableStep(t: seq<Token>, p: nat)
    requires VariableShapeAt(t, p) && p + 3 < |t|
    ensures AttrValueAt(t, p) ==
            PrependAll([Nested(VariableNode(TextUtil.TrimEnd(t[p + 1].lexeme)))], AttrValueAt(t, p + 4))
  {
  }

  /** In an attribute value, a token that is neither a fragment nor a value end adds nothing. */
  lemma ValueSkipStep(t: seq<Token>, p: nat)
    requires p < |t| && !EndsValue(t[p].kind)
    requires t[p].kind != AttrValue && t[p].kind != VarOpen && t[p].kind != StmtOpen
    ensures AttrValueAt(t, p) == AttrValueAt(t, p + 1)
  {
    PrependAllNothing(AttrValueAt(t, p + 1));
  }

  /** `parse()` returns the whole tree of the first expression or `null`, never part of a tree: it is
      `null` exactly when that expression throws, and anything it returns is well shaped. */
  lemma ParseShaped(t: seq<Token>)
    ensures ParseTokens(t).Null? <==> ExpressionAt(t, 0).Error?
    ensures ParseTokens(t).Parsed? ==> ParseTokens(t).nodes == ExpressionAt(t, 0).value
    ensures ParseTokens(t).Parsed? ==> ExprShaped(ParseTokens(t).nodes)
    ensures ParseTokens(t).Parsed? && NoAtSign(t, 0) ==> ExprHandlerFree(ParseTokens(t).nodes)
  {
    ExpressionShaped(t, 0);
  }
}
