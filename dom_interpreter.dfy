/** The tree-building backend (`DomInterpreter`): the same control flow as the string backend, but
    producing render nodes with attributes and event bindings. Render nodes are an abstract
    datatype; `textContent`, `setAttribute` and `append` follow the DOM Standard's definitions on it. */
module DomInterp {
  import opened Wrappers
  import opened Ast
  import opened Context
  import TextUtil
  import StringInterp

  /** One attribute of an element, as `setAttribute` stores it. */
  datatype AttrEntry = AttrEntry(name: string, value: string)

  /** A bound listener: the event, the handler's name in the table, and the context the handler
      will be called with. */
  datatype Listener = Listener(eventName: string, handlerName: string, ctx: Ctx)

  /** A render node: a text node, an element, or a document fragment. */
  datatype DomNode =
    | Text(data: string)
    | Element(tagName: string, attributes: seq<AttrEntry>, childNodes: seq<DomNode>, listeners: seq<Listener>)
    | Fragment(childNodes: seq<DomNode>)

  /** The names the interpreter's handler table maps to a function. */
  type HandlerTable = set<string>

  /** `node.textContent` (DOM Standard, section 4.4): the data of a text node, and otherwise the
      concatenation of the text of all descendant text nodes in tree order. */
  function TextContent(d: DomNode): string
    decreases d
  {
    match d
    case Text(data) => data
    case Element(_, _, kids, _) => TextContents(kids)
    case Fragment(kids) => TextContents(kids)
  }

  function TextContents(ds: seq<DomNode>): string
    decreases ds
  {
    if ds == [] then "" else TextContent(ds[0]) + TextContents(ds[1..])
  }

  lemma {:induction false} TextContentsAppend(a: seq<DomNode>, b: seq<DomNode>)
    ensures TextContents(a + b) == TextContents(a) + TextContents(b)
  {
    if a == [] {
      assert a + b == b;
    } else {
      assert (a + b)[0] == a[0] && (a + b)[1..] == a[1..] + b;
      TextContentsAppend(a[1..], b);
    }
  }

  /** No fragment occurs as a child anywhere below `d`. */
  predicate Tidy(d: DomNode)
    decreases d
  {
    match d
    case Text(_) => true
    case Element(_, _, kids, _) => forall i :: 0 <= i < |kids| ==> !kids[i].Fragment? && Tidy(kids[i])
    case Fragment(kids) => forall i :: 0 <= i < |kids| ==> !kids[i].Fragment? && Tidy(kids[i])
  }

  predicate TidyChildren(ds: seq<DomNode>) {
    forall i :: 0 <= i < |ds| ==> !ds[i].Fragment? && Tidy(ds[i])
  }

  /** `parent.append(node)` and `parent.appendChild(node)` on a parent whose children are `kids`:
      a fragment hands over its children, any other node is added at the end. */
  function Append(kids: seq<DomNode>, node: DomNode): (r: seq<DomNode>)
    ensures TextContents(r) == TextContents(kids) + TextContent(node)
    ensures TidyChildren(kids) && Tidy(node) ==> TidyChildren(r)
    ensures |kids| <= |r| && r[..|kids|] == kids
  {
    if node.Fragment? then
      TextContentsAppend(kids, node.childNodes);
      kids + node.childNodes
    else
      TextContentsAppend(kids, [node]);
      kids + [node]
  }

  /** `parent.append(...nodes)`: each node appended in turn. */
  function AppendAll(kids: seq<DomNode>, nodes: seq<DomNode>): (r: seq<DomNode>)
    ensures TextContents(r) == TextContents(kids) + TextContents(nodes)
    ensures TidyChildren(kids) && (forall i :: 0 <= i < |nodes| ==> Tidy(nodes[i])) ==> TidyChildren(r)
    decreases nodes
  {
    if nodes == [] then kids
    else
      var r := AppendAll(Append(kids, nodes[0]), nodes[1..]);
      assert TextContents(nodes) == TextContent(nodes[0]) + TextContents(nodes[1..]);
      r
  }

  /** `getAttribute(name)`: the value of the first attribute with that name. */
  function Lookup(attrs: seq<AttrEntry>, name: string): (r: Option<string>)
    ensures r.None? <==> forall i :: 0 <= i < |attrs| ==> attrs[i].name != name
    ensures r.Some? ==> exists i :: 0 <= i < |attrs| && attrs[i] == AttrEntry(name, r.value)
  {
    if attrs == [] then None
    else if attrs[0].name == name then Some(attrs[0].value)
    else Lookup(attrs[1..], name)
  }

  predicate UniqueNames(attrs: seq<AttrEntry>) {
    forall i, j :: 0 <= i < j < |attrs| ==> attrs[i].name != attrs[j].name
  }

  /** `setAttribute(name, value)`: the first attribute with that name gets the new value in place;
      when there is none, a new attribute is appended. */
  function SetAttr(attrs: seq<AttrEntry>, name: string, value: string): (r: seq<AttrEntry>)
    ensures |r| == if Lookup(attrs, name).Some? then |attrs| else |attrs| + 1
    ensures forall i :: 0 <= i < |attrs| ==> r[i].name == attrs[i].name
    ensures Lookup(attrs, name).None? ==> r[|attrs|] == AttrEntry(name, value)
  {
    if attrs == [] then [AttrEntry(name, value)]
    else if attrs[0].name == name then [AttrEntry(name, value)] + attrs[1..]
    else [attrs[0]] + SetAttr(attrs[1..], name, value)
  }

  /** After `setAttribute(name, value)`, `getAttribute(name)` is `value` and every other name reads
      as before. */
  lemma {:induction false} SetAttrLookup(attrs: seq<AttrEntry>, name: string, value: string, other: string)
    ensures Lookup(SetAttr(attrs, name, value), other) == if other == name then Some(value) else Lookup(attrs, other)
  {
    if attrs != [] && attrs[0].name != name {
      SetAttrLookup(attrs[1..], name, value, other);
    }
  }

  /** `setAttribute` keeps attribute names distinct. */
  lemma SetAttrUnique(attrs: seq<AttrEntry>, name: string, value: string)
    requires UniqueNames(attrs)
    ensures UniqueNames(SetAttr(attrs, name, value))
  {
    var r := SetAttr(attrs, name, value);
    if Lookup(attrs, name).None? {
      forall i, j | 0 <= i < j < |r|
        ensures r[i].name != r[j].name
      {
        if j == |attrs| {
          assert attrs[i].name != name;
        }
      }
    }
  }

  /** The attributes after the `forEach` of `setAttribute` calls, one per entry in order. */
  function SetAll(attrs: seq<AttrEntry>, entries: seq<AttrEntry>): seq<AttrEntry>
    decreases |entries|
  {
    if entries == [] then attrs
    else
      var last := entries[|entries| - 1];
      SetAttr(SetAll(attrs, entries[..|entries| - 1]), last.name, last.value)
  }

  /** The value the last entry with a given name carries. */
  function LastValue(entries: seq<AttrEntry>, name: string): Option<string>
    decreases |entries|
  {
    if entries == [] then None
    else if entries[|entries| - 1].name == name then Some(entries[|entries| - 1].value)
    else LastValue(entries[..|entries| - 1], name)
  }

  /** Setting attributes in order: the last value set under a name wins, and a name never set keeps
      what it had. */
  lemma {:induction false} SetAllLookup(attrs: seq<AttrEntry>, entries: seq<AttrEntry>, name: string)
    ensures Lookup(SetAll(attrs, entries), name) ==
            if LastValue(entries, name).Some? then LastValue(entries, name) else Lookup(attrs, name)
    decreases |entries|
  {
    if entries != [] {
      var last := entries[|entries| - 1];
      SetAllLookup(attrs, entries[..|entries| - 1], name);
      SetAttrLookup(SetAll(attrs, entries[..|entries| - 1]), last.name, last.value, name);
    }
  }

  /** An element never ends up with two attributes of the same name. */
  lemma {:induction false} SetAllUnique(attrs: seq<AttrEntry>, entries: seq<AttrEntry>)
    requires UniqueNames(attrs)
    ensures UniqueNames(SetAll(attrs, entries))
    decreases |entries|
  {
    if entries != [] {
      var last := entries[|entries| - 1];
      SetAllUnique(attrs, entries[..|entries| - 1]);
      SetAttrUnique(SetAll(attrs, entries[..|entries| - 1]), last.name, last.value);
    }
  }

  /** The `forEach` over the element's event handlers: a listener for each handler whose name the
      table holds, in order, each capturing the context; other names are skipped. */
  function Bind(ctx: Ctx, table: HandlerTable, hs: seq<EventHandler>): (r: seq<Listener>)
    ensures |r| <= |hs|
    ensures forall i :: 0 <= i < |r| ==> r[i].handlerName in table && r[i].ctx == ctx
  {
    if hs == [] then []
    else
      (if hs[0].handlerName in table then [Listener(hs[0].eventName, hs[0].handlerName, ctx)] else [])
      + Bind(ctx, table, hs[1..])
  }

  lemma {:induction false} BindAppend(ctx: Ctx, table: HandlerTable, a: seq<EventHandler>, b: seq<EventHandler>)
    ensures Bind(ctx, table, a + b) == Bind(ctx, table, a) + Bind(ctx, table, b)
  {
    if a == [] {
      assert a + b == b;
    } else {
      assert (a + b)[0] == a[0] && (a + b)[1..] == a[1..] + b;
      BindAppend(ctx, table, a[1..], b);
    }
  }

  /** A handler is bound exactly when its name is in the table, and every listener comes from one
      of the element's handlers. */
  lemma {:induction false} BindExactly(ctx: Ctx, table: HandlerTable, hs: seq<EventHandler>)
    ensures forall h :: h in hs && h.handlerName in table ==> Listener(h.eventName, h.handlerName, ctx) in Bind(ctx, table, hs)
    ensures forall l :: l in Bind(ctx, table, hs) ==> EventHandler(l.eventName, l.handlerName) in hs
  {
    if hs != [] {
      BindExactly(ctx, table, hs[1..]);
      assert hs == [hs[0]] + hs[1..];
    }
  }

  /** The DOM visitor. `None` is a thrown error: a child slot with no node (`child[0]` is
      `undefined`), anywhere in the tree. */
  function Eval(ctx: Ctx, table: HandlerTable, n: Node): Option<DomNode>
    decreases n
  {
    match n
    case TextNode(v) => Some(Text(v))
    case VariableNode(name) => Some(Text(VariableText(ctx, name)))
    case ElementNode(tag, slots, attrs, hs) =>
      (match AttributeEntries(ctx, table, attrs)
       case None => None
       case Some(entries) =>
         match EvalSlots(ctx, table, slots)
         case None => None
         case Some(kids) => Some(Element(tag, SetAll([], entries), AppendAll([], kids), Bind(ctx, table, hs))))
    case IfNode(name, b, e) =>
      if Truthy(Get(ctx, name)) then EvalFirst(ctx, table, b)
      else if e.WithElse? then EvalFirst(ctx, table, e.nodes)
      else Some(Fragment([]))
    case ForNode(iter, coll, body) =>
      if Get(ctx, coll).Some? && Get(ctx, coll).value.Arr? then
        match EvalItems(ctx, table, iter, Get(ctx, coll).value.items, body)
        case None => None
        case Some(ds) => Some(Fragment(AppendAll([], ds)))
      else Some(Fragment([]))
  }

  /** The first node of a chosen if-branch, or an empty fragment when the branch is empty. */
  function EvalFirst(ctx: Ctx, table: HandlerTable, nodes: seq<Node>): Option<DomNode>
    decreases nodes, 0
  {
    if nodes == [] then Some(Fragment([])) else Eval(ctx, table, nodes[0])
  }

  /** `bodyTemplate.map(expr => expr.accept(nested))`: every node is built. */
  function EvalAll(ctx: Ctx, table: HandlerTable, nodes: seq<Node>): (r: Option<seq<DomNode>>)
    ensures r.Some? ==> |r.value| == |nodes|
    ensures r.Some? && nodes != [] ==> Eval(ctx, table, nodes[0]) == Some(r.value[0])
    decreases nodes, 0
  {
    if nodes == [] then Some([])
    else
      match Eval(ctx, table, nodes[0])
      case None => None
      case Some(d) =>
        match EvalAll(ctx, table, nodes[1..])
        case None => None
        case Some(ds) => Some([d] + ds)
  }

  /** `elementNode.children.map(child => child[0].accept(this))`. */
  function EvalSlots(ctx: Ctx, table: HandlerTable, slots: seq<Slot>): Option<seq<DomNode>>
    decreases slots
  {
    if slots == [] then Some([])
    else if slots[0].nodes == [] then None
    else
      match Eval(ctx, table, slots[0].nodes[0])
      case None => None
      case Some(d) =>
        match EvalSlots(ctx, table, slots[1..])
        case None => None
        case Some(ds) => Some([d] + ds)
  }

  /** What one loop item contributes: the first body result. An empty body contributes nothing
      (the source contributes `undefined`; see `ItemResultAsWritten`). */
  function ItemResult(ds: seq<DomNode>): (r: seq<DomNode>)
    ensures |r| <= 1 && (r == [] <==> ds == []) && (ds != [] ==> r[0] == ds[0])
  {
    if ds == [] then [] else [ds[0]]
  }

  /** `collection.map(item => ...)`: each item built by a fresh interpreter over the context with
      the loop variable bound to the item, sharing the handler table. */
  function EvalItems(ctx: Ctx, table: HandlerTable, iter: string, items: seq<Value>, body: seq<Node>): Option<seq<DomNode>>
    decreases body, 1, items
  {
    if items == [] then Some([])
    else
      match EvalAll(ctx[iter := items[0]], table, body)
      case None => None
      case Some(ds) =>
        match EvalItems(ctx, table, iter, items[1..], body)
        case None => None
        case Some(rest) => Some(ItemResult(ds) + rest)
  }

  /** `attributeValue`'s fragments: a literal as it is; a nested node built and read as text. */
  function PartText(ctx: Ctx, table: HandlerTable, part: AttrPart): Option<string>
    decreases part
  {
    match part
    case Literal(text) => Some(text)
    case Nested(m) =>
      match Eval(ctx, table, m)
      case None => None
      case Some(d) => Some(TextContent(d))
  }

  function PartTexts(ctx: Ctx, table: HandlerTable, parts: seq<AttrPart>): Option<seq<string>>
    decreases parts
  {
    if parts == [] then Some([])
    else
      match PartText(ctx, table, parts[0])
      case None => None
      case Some(s) =>
        match PartTexts(ctx, table, parts[1..])
        case None => None
        case Some(ss) => Some([s] + ss)
  }

  /** `{ name, value }` of one attribute, with the fragments joined by single spaces. */
  function AttributeEntry(ctx: Ctx, table: HandlerTable, a: Attribute): Option<AttrEntry>
    decreases a
  {
    match PartTexts(ctx, table, a.value)
    case None => None
    case Some(ss) => Some(AttrEntry(a.name, TextUtil.Join(ss, " ")))
  }

  function AttributeEntries(ctx: Ctx, table: HandlerTable, attrs: seq<Attribute>): Option<seq<AttrEntry>>
    decreases attrs
  {
    if attrs == [] then Some([])
    else
      match AttributeEntry(ctx, table, attrs[0])
      case None => None
      case Some(e) =>
        match AttributeEntries(ctx, table, attrs[1..])
        case None => None
        case Some(es) => Some([e] + es)
  }

  /** The element `visitElementNode` creates and then fills in place. */
  class DomElement {
    const tagName: string
    var attributes: seq<AttrEntry>
    var childNodes: seq<DomNode>
    var listeners: seq<Listener>

    /** `document.createElement(tag)`: no attributes, children or listeners yet. */
    constructor (tag: string)
      ensures tagName == tag && attributes == [] && childNodes == [] && listeners == []
    {
      tagName := tag;
      attributes := [];
      childNodes := [];
      listeners := [];
    }

    method SetAttribute(name: string, value: string)
      modifies this
      ensures attributes == SetAttr(old(attributes), name, value)
      ensures childNodes == old(childNodes) && listeners == old(listeners)
    {
      attributes := SetAttr(attributes, name, value);
    }

    method AppendChild(node: DomNode)
      modifies this
      ensures childNodes == Append(old(childNodes), node)
      ensures attributes == old(attributes) && listeners == old(listeners)
    {
      childNodes := Append(childNodes, node);
    }

    /** `addEventListener(eventName, event => handler(event, ctx))`: the handler is named, the
        context is the one the closure captures. */
    method AddEventListener(eventName: string, handlerName: string, ctx: Ctx)
      modifies this
      ensures listeners == old(listeners) + [Listener(eventName, handlerName, ctx)]
      ensures attributes == old(attributes) && childNodes == old(childNodes)
    {
      listeners := listeners + [Listener(eventName, handlerName, ctx)];
    }

    /** The element as a render node. */
    function Snapshot(): DomNode
      reads this
    {
      Element(tagName, attributes, childNodes, listeners)
    }
  }

  /** `attributes.forEach(({ name, value }) => element.setAttribute(name, value.join(' ')))`. */
  method SetAttributes(element: DomElement, entries: seq<AttrEntry>)
    modifies element
    ensures element.attributes == SetAll(old(element.attributes), entries)
    ensures element.childNodes == old(element.childNodes) && element.listeners == old(element.listeners)
  {
    var i := 0;
    while i < |entries|
      invariant 0 <= i <= |entries|
      invariant element.attributes == SetAll(old(element.attributes), entries[..i])
      invariant element.childNodes == old(element.childNodes) && element.listeners == old(element.listeners)
    {
      assert entries[..i + 1][..i] == entries[..i];
      element.SetAttribute(entries[i].name, entries[i].value);
      i := i + 1;
    }
    assert entries[..i] == entries;
  }

  /** `elementNode.eventHandlers.forEach(...)`: a listener for each handler the table holds. */
  method AddListeners(element: DomElement, ctx: Ctx, table: HandlerTable, handlers: seq<EventHandler>)
    modifies element
    ensures element.listeners == old(element.listeners) + Bind(ctx, table, handlers)
    ensures element.attributes == old(element.attributes) && element.childNodes == old(element.childNodes)
  {
    var k := 0;
    while k < |handlers|
      invariant 0 <= k <= |handlers|
      invariant element.listeners == old(element.listeners) + Bind(ctx, table, handlers[..k])
      invariant element.attributes == old(element.attributes) && element.childNodes == old(element.childNodes)
    {
      BindAppend(ctx, table, handlers[..k], [handlers[k]]);
      assert handlers[..k + 1] == handlers[..k] + [handlers[k]];
      if handlers[k].handlerName in table {
        element.AddEventListener(handlers[k].eventName, handlers[k].handlerName, ctx);
      }
      k := k + 1;
    }
    assert handlers[..k] == handlers;
  }

  /** `visitElementNode`: the attribute values are computed and set one by one, the first node of
      each child slot is built and appended through a fragment, then a listener is added for each
      handler the table holds. */
  method VisitElementNode(ctx: Ctx, table: HandlerTable, n: Node) returns (r: Option<DomNode>)
    requires n.ElementNode?
    ensures r == Eval(ctx, table, n)
  {
    var element := new DomElement(n.tagName);
    var attributes := AttributeEntries(ctx, table, n.attributes);
    if attributes.None? {
      return None;
    }
    SetAttributes(element, attributes.value);
    var children := EvalSlots(ctx, table, n.children);
    if children.None? {
      return None;
    }
    var fragment := AppendAll([], children.value);
    element.AppendChild(Fragment(fragment));
    assert element.childNodes == fragment;
    AddListeners(element, ctx, table, n.eventHandlers);
    assert element.listeners == Bind(ctx, table, n.eventHandlers);
    assert element.attributes == SetAll([], attributes.value);
    assert Eval(ctx, table, n) == Some(Element(n.tagName, SetAll([], attributes.value), fragment, Bind(ctx, table, n.eventHandlers)));
    r := Some(element.Snapshot());
  }

  /** `visitVariable`: the dotted walk of the string backend, as an untrimmed text node. */
  method VisitVariable(ctx: Ctx, name: string) returns (d: DomNode)
    ensures d.Text? && d.data == VariableText(ctx, name)
  {
    var value := LookupVariable(ctx, name);
    d := Text(value);
  }

  /** The two backends read a variable the same way; the string backend then trims. */
  lemma VariableBackends(ctx: Ctx, table: HandlerTable, name: string)
    ensures Eval(ctx, table, VariableNode(name)).Some?
    ensures StringInterp.Render(ctx, VariableNode(name)) ==
            Some(TextUtil.Trim(TextContent(Eval(ctx, table, VariableNode(name)).value)))
  {
  }

  /** A render node built by the visitor never has a fragment among the children of any of its
      nodes: every fragment is spliced into its parent when appended. */
  lemma {:induction false} EvalTidy(ctx: Ctx, table: HandlerTable, n: Node)
    ensures Eval(ctx, table, n).Some? ==> Tidy(Eval(ctx, table, n).value)
    decreases n
  {
    match n
    case TextNode(_) =>
    case VariableNode(_) =>
    case ElementNode(_, slots, _, _) =>
      EvalSlotsTidy(ctx, table, slots);
    case IfNode(_, b, e) =>
      EvalFirstTidy(ctx, table, b);
      if e.WithElse? {
        EvalFirstTidy(ctx, table, e.nodes);
      }
    case ForNode(iter, coll, body) =>
      if Get(ctx, coll).Some? && Get(ctx, coll).value.Arr? {
        EvalItemsTidy(ctx, table, iter, Get(ctx, coll).value.items, body);
      }
  }

  lemma {:induction false} EvalFirstTidy(ctx: Ctx, table: HandlerTable, nodes: seq<Node>)
    ensures EvalFirst(ctx, table, nodes).Some? ==> Tidy(EvalFirst(ctx, table, nodes).value)
    decreases nodes, 0
  {
    if nodes != [] {
      EvalTidy(ctx, table, nodes[0]);
    }
  }

  lemma {:induction false} EvalSlotsTidy(ctx: Ctx, table: HandlerTable, slots: seq<Slot>)
    ensures EvalSlots(ctx, table, slots).Some? ==>
              forall i :: 0 <= i < |EvalSlots(ctx, table, slots).value| ==> Tidy(EvalSlots(ctx, table, slots).value[i])
    decreases slots
  {
    if slots != [] && slots[0].nodes != [] {
      EvalTidy(ctx, table, slots[0].nodes[0]);
      EvalSlotsTidy(ctx, table, slots[1..]);
    }
  }

  lemma {:induction false} EvalAllTidy(ctx: Ctx, table: HandlerTable, nodes: seq<Node>)
    ensures EvalAll(ctx, table, nodes).Some? ==>
              forall i :: 0 <= i < |EvalAll(ctx, table, nodes).value| ==> Tidy(EvalAll(ctx, table, nodes).value[i])
    decreases nodes, 0
  {
    if nodes != [] {
      EvalTidy(ctx, table, nodes[0]);
      EvalAllTidy(ctx, table, nodes[1..]);
    }
  }

  lemma {:induction false} EvalItemsTidy(ctx: Ctx, table: HandlerTable, iter: string, items: seq<Value>, body: seq<Node>)
    ensures EvalItems(ctx, table, iter, items, body).Some? ==>
              forall i :: 0 <= i < |EvalItems(ctx, table, iter, items, body).value| ==>
                Tidy(EvalItems(ctx, table, iter, items, body).value[i])
    decreases body, 1, items
  {
    if items != [] {
      EvalAllTidy(ctx[iter := items[0]], table, body);
      EvalItemsTidy(ctx, table, iter, items[1..], body);
    }
  }

  /** The children are the first nodes of the slots, each built in order; any empty slot, or any
      failure below, fails the element. */
  lemma {:induction false} EvalSlotsMeaning(ctx: Ctx, table: HandlerTable, slots: seq<Slot>)
    ensures EvalSlots(ctx, table, slots).Some? <==>
              forall i :: 0 <= i < |slots| ==> slots[i].nodes != [] && Eval(ctx, table, slots[i].nodes[0]).Some?
    ensures EvalSlots(ctx, table, slots).Some? ==>
              && |EvalSlots(ctx, table, slots).value| == |slots|
              && forall i :: 0 <= i < |slots| ==> Eval(ctx, table, slots[i].nodes[0]) == Some(EvalSlots(ctx, table, slots).value[i])
    decreases slots
  {
    if slots != [] {
      EvalSlotsMeaning(ctx, table, slots[1..]);
      assert forall i :: 1 <= i < |slots| ==> slots[i] == slots[1..][i - 1];
    }
  }

  /** The element built for an element node: its tag; each attribute name reads as the value of
      the last attribute of that name, with names distinct; the text of the slots' first nodes in
      order; and the listeners of the handlers the table holds, capturing the context. */
  lemma ElementEval(ctx: Ctx, table: HandlerTable, tag: string, slots: seq<Slot>, attrs: seq<Attribute>, hs: seq<EventHandler>, name: string)
    requires Eval(ctx, table, ElementNode(tag, slots, attrs, hs)).Some?
    ensures var d := Eval(ctx, table, ElementNode(tag, slots, attrs, hs)).value;
            && d.Element? && d.tagName == tag
            && AttributeEntries(ctx, table, attrs).Some?
            && Lookup(d.attributes, name) == LastValue(AttributeEntries(ctx, table, attrs).value, name)
            && UniqueNames(d.attributes)
            && EvalSlots(ctx, table, slots).Some?
            && TextContent(d) == TextContents(EvalSlots(ctx, table, slots).value)
            && d.listeners == Bind(ctx, table, hs)
  {
    var entries := AttributeEntries(ctx, table, attrs).value;
    SetAllLookup([], entries, name);
    SetAllUnique([], entries);
  }

  /** `visitIfNode` chooses the branch exactly as the string backend does, and builds its first
      node, or an empty fragment. */
  lemma IfEval(ctx: Ctx, table: HandlerTable, n: Node)
    requires n.IfNode?
    ensures var branch := StringInterp.ChosenBranch(ctx, n);
            Eval(ctx, table, n) == if branch == [] then Some(Fragment([])) else Eval(ctx, table, branch[0])
  {
  }

  /** Each loop item contributes the first node its body builds under the context with the loop
      variable bound to the item; the loop fails when any body node fails for any item. */
  lemma {:induction false} EvalItemsMeaning(ctx: Ctx, table: HandlerTable, iter: string, items: seq<Value>, body: seq<Node>)
    ensures EvalItems(ctx, table, iter, items, body).Some? <==>
              forall i :: 0 <= i < |items| ==> EvalAll(ctx[iter := items[i]], table, body).Some?
    ensures body == [] ==> EvalItems(ctx, table, iter, items, body) == Some([])
    ensures EvalItems(ctx, table, iter, items, body).Some? && body != [] ==>
              && |EvalItems(ctx, table, iter, items, body).value| == |items|
              && forall i :: 0 <= i < |items| ==>
                   Eval(ctx[iter := items[i]], table, body[0]) == Some(EvalItems(ctx, table, iter, items, body).value[i])
    decreases items
  {
    if items != [] {
      EvalItemsMeaning(ctx, table, iter, items[1..], body);
      assert forall i :: 1 <= i < |items| ==> items[i] == items[1..][i - 1];
      if body == [] {
        assert EvalAll(ctx[iter := items[0]], table, body) == Some([]);
        assert ItemResult([]) + [] == [];
      }
    }
  }

  /** `visitForNode`: an empty fragment unless the collection is an array; otherwise the items'
      nodes, whose text is the items' texts in order. An empty body builds an empty fragment, as
      the string backend renders the empty string. */
  lemma ForEval(ctx: Ctx, table: HandlerTable, iter: string, coll: string, body: seq<Node>)
    ensures !(Get(ctx, coll).Some? && Get(ctx, coll).value.Arr?) ==>
              Eval(ctx, table, ForNode(iter, coll, body)) == Some(Fragment([]))
    ensures Get(ctx, coll).Some? && Get(ctx, coll).value.Arr? ==>
              match EvalItems(ctx, table, iter, Get(ctx, coll).value.items, body)
              case None => Eval(ctx, table, ForNode(iter, coll, body)).None?
              case Some(ds) => TextContent(Eval(ctx, table, ForNode(iter, coll, body)).value) == TextContents(ds)
    ensures body == [] ==> Eval(ctx, table, ForNode(iter, coll, body)) == Some(Fragment([]))
    ensures body == [] ==> StringInterp.Render(ctx, ForNode(iter, coll, body)) == Some("")
  {
    if Get(ctx, coll).Some? && Get(ctx, coll).value.Arr? {
      EvalItemsMeaning(ctx, table, iter, Get(ctx, coll).value.items, body);
      StringInterp.RenderItemsEmptyBody(ctx, iter, Get(ctx, coll).value.items);
    }
  }

  /** A listener bound inside a loop body captures the item's context, not the outer one. */
  lemma ForItemListeners(ctx: Ctx, table: HandlerTable, iter: string, items: seq<Value>, body: seq<Node>, i: nat)
    requires EvalItems(ctx, table, iter, items, body).Some? && body != [] && body[0].ElementNode?
    requires i < |items|
    ensures |EvalItems(ctx, table, iter, items, body).value| == |items|
    ensures var d := EvalItems(ctx, table, iter, items, body).value[i];
            d.Element? && forall l :: l in d.listeners ==> l.ctx == ctx[iter := items[i]] && l.handlerName in table
  {
    EvalItemsMeaning(ctx, table, iter, items, body);
  }

  /** As written, one loop item contributes `bodyTemplate.map(...)[0]`, which is `undefined` for an
      empty body; `fragment.append` turns `undefined` into a text node reading "undefined". */
  function ItemResultAsWritten(ds: seq<DomNode>): seq<DomNode> {
    if ds == [] then [Text("undefined")] else [ds[0]]
  }

  /** `collection.map(...)` with the item result as written. */
  function EvalItemsAsWritten(ctx: Ctx, table: HandlerTable, iter: string, items: seq<Value>, body: seq<Node>): Option<seq<DomNode>>
    decreases items
  {
    if items == [] then Some([])
    else
      match EvalAll(ctx[iter := items[0]], table, body)
      case None => None
      case Some(ds) =>
        match EvalItemsAsWritten(ctx, table, iter, items[1..], body)
        case None => None
        case Some(rest) => Some(ItemResultAsWritten(ds) + rest)
  }

  /** As written, `{% for x in xs %}{% endfor %}` builds one "undefined" text node per item. */
  lemma {:induction false} EmptyBodyAsWritten(ctx: Ctx, table: HandlerTable, iter: string, items: seq<Value>)
    ensures EvalItemsAsWritten(ctx, table, iter, items, []) == Some(seq(|items|, _ => Text("undefined")))
    decreases items
  {
    if items != [] {
      EmptyBodyAsWritten(ctx, table, iter, items[1..]);
      assert [Text("undefined")] + seq(|items| - 1, _ => Text("undefined")) == seq(|items|, _ => Text("undefined"));
    }
  }

  /** For a one-item array the as-written loop reads "undefined", where the string backend renders
      the empty string. */
  lemma EmptyBodyAsWrittenText(ctx: Ctx, table: HandlerTable, iter: string, x: Value)
    ensures EvalItemsAsWritten(ctx, table, iter, [x], []).Some?
    ensures TextContents(AppendAll([], EvalItemsAsWritten(ctx, table, iter, [x], []).value)) == "undefined"
  {
    EmptyBodyAsWritten(ctx, table, iter, [x]);
    var ds := EvalItemsAsWritten(ctx, table, iter, [x], []).value;
    assert ds == [Text("undefined")];
    assert TextContents(ds) == "undefined" + TextContents([]);
  }

  /** With a non-empty body the as-written loop and the model agree. */
  lemma {:induction false} AsWrittenAgreesOnNonEmptyBody(ctx: Ctx, table: HandlerTable, iter: string, items: seq<Value>, body: seq<Node>)
    requires body != []
    ensures EvalItemsAsWritten(ctx, table, iter, items, body) == EvalItems(ctx, table, iter, items, body)
    decreases items
  {
    if items != [] {
      AsWrittenAgreesOnNonEmptyBody(ctx, table, iter, items[1..], body);
    }
  }
}
