/** The template syntax tree the parser builds and both evaluators walk. A template ("expression")
    is a sequence of nodes; every sequence the parser builds holds at most one node. */
module Ast {

  datatype Node =
    | TextNode(value: string)
      /** `children` holds one slot per `expression()` call made for the element's content. */
    | ElementNode(tagName: string, children: seq<Slot>, attributes: seq<Attribute>,
                  eventHandlers: seq<EventHandler>)
    | VariableNode(name: string)
      /** `matchVariable` and the names of a `for` are the names of their variable expressions. */
    | IfNode(matchVariable: string, ifBranch: seq<Node>, elseBranch: ElseBranch)
    | ForNode(iterVariable: string, collectionVariable: string, body: seq<Node>)

  /** The node sequence one `expression()` call returned, kept as one entry of an element's children. */
  datatype Slot = Slot(nodes: seq<Node>)

  /** An if's optional else template (`undefined` when no else was matched). */
  datatype ElseBranch = NoElse | WithElse(nodes: seq<Node>)

  /** An attribute's value is a sequence of literal fragments and nested variables or ifs. */
  datatype Attribute = Attribute(name: string, value: seq<AttrPart>)

  datatype AttrPart = Literal(text: string) | Nested(node: Node)

  datatype EventHandler = EventHandler(eventName: string, handlerName: string)

  /** The shape of every tree the parser returns: each node sequence holds at most one node, and an
      attribute fragment is a literal, a variable or an if. */
  predicate ExprShaped(e: seq<Node>) {
    |e| <= 1 && forall n :: n in e ==> NodeShaped(n)
  }

  predicate NodeShaped(n: Node) {
    match n
    case TextNode(_) => true
    case VariableNode(_) => true
    case ElementNode(_, children, attrs, _) =>
      && (forall c :: c in children ==> |c.nodes| <= 1)
      && (forall c, m :: c in children && m in c.nodes ==> NodeShaped(m))
      && (forall a :: a in attrs ==> AttrShaped(a))
    case IfNode(_, b, e) =>
      && |b| <= 1 && (forall m :: m in b ==> NodeShaped(m))
      && (e.WithElse? ==> |e.nodes| <= 1 && forall m :: m in e.nodes ==> NodeShaped(m))
    case ForNode(_, _, b) => |b| <= 1 && forall m :: m in b ==> NodeShaped(m)
  }

  predicate AttrShaped(a: Attribute) {
    forall part :: part in a.value ==> PartShaped(part)
  }

  predicate PartShaped(part: AttrPart) {
    match part
    case Literal(_) => true
    case Nested(n) => (n.VariableNode? || n.IfNode?) && NodeShaped(n)
  }

  /** No element anywhere in the tree carries an event handler. */
  predicate ExprHandlerFree(e: seq<Node>) {
    forall n :: n in e ==> HandlerFree(n)
  }

  predicate HandlerFree(n: Node) {
    match n
    case TextNode(_) => true
    case VariableNode(_) => true
    case ElementNode(_, children, attrs, handlers) =>
      && handlers == []
      && (forall c, m :: c in children && m in c.nodes ==> HandlerFree(m))
      && (forall a :: a in attrs ==> AttrHandlerFree(a))
    case IfNode(_, b, e) =>
      && (forall m :: m in b ==> HandlerFree(m))
      && (e.WithElse? ==> forall m :: m in e.nodes ==> HandlerFree(m))
    case ForNode(_, _, b) => forall m :: m in b ==> HandlerFree(m)
  }

  predicate AttrHandlerFree(a: Attribute) {
    forall part :: part in a.value ==> (part.Nested? ==> HandlerFree(part.node))
  }
}
