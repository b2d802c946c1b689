/** The string interpreter: renders a template tree to markup against a context. A render is `None`
    exactly where the interpreter throws, which is when an element has a child slot with no node. */
module StringInterp {
  import opened Wrappers
  import opened Ast
  import opened Context
  import TextUtil

  predicate IsLineBreak(c: char) {
    c == '\r' || c == '\n'
  }

  /** `replace(/[\r\n]+/g, '')`: every carriage return and line feed removed. */
  function DropLineBreaks(s: string): string {
    if s == [] then ""
    else (if IsLineBreak(s[0]) then "" else [s[0]]) + DropLineBreaks(s[1..])
  }

  /** `replace(/\s+/g, ' ')`: every maximal whitespace run becomes one space. */
  function CollapseWhitespace(s: string): string
    decreases |s|
  {
    if s == [] then ""
    else if TextUtil.IsWhitespace(s[0]) then " " + CollapseWhitespace(TextUtil.TrimStart(s))
    else [s[0]] + CollapseWhitespace(s[1..])
  }

  /** `visitTextNode`. */
  function Normalize(s: string): string {
    CollapseWhitespace(DropLineBreaks(s))
  }

  predicate NoLineBreaks(s: string) {
    forall k :: 0 <= k < |s| ==> !IsLineBreak(s[k])
  }

  /** Every whitespace character is a space, and no two of them are adjacent. */
  predicate Collapsed(s: string) {
    forall k :: 0 <= k < |s| && TextUtil.IsWhitespace(s[k]) ==>
      s[k] == ' ' && (k + 1 < |s| ==> !TextUtil.IsWhitespace(s[k + 1]))
  }

  /** The characters of `s` that are not whitespace, in order. */
  function NonWhitespace(s: string): string {
    if s == [] then ""
    else (if TextUtil.IsWhitespace(s[0]) then "" else [s[0]]) + NonWhitespace(s[1..])
  }

  lemma {:induction false} NonWhitespaceAppend(a: string, b: string)
    ensures NonWhitespace(a + b) == NonWhitespace(a) + NonWhitespace(b)
  {
    if a == [] {
      assert a + b == b;
    } else {
      assert (a + b)[1..] == a[1..] + b;
      NonWhitespaceAppend(a[1..], b);
    }
  }

  lemma {:induction false} NonWhitespaceOfWhitespace(s: string)
    requires TextUtil.AllWhitespace(s)
    ensures NonWhitespace(s) == ""
  {
    if s != [] {
      NonWhitespaceOfWhitespace(s[1..]);
    }
  }

  /** The collapsed string is collapsed, empty only for the empty string, starts with the same
      non-whitespace character, and keeps every non-whitespace character in order. */
  lemma CollapseShape(s: string)
    ensures Collapsed(CollapseWhitespace(s))
    ensures CollapseWhitespace(s) == [] <==> s == []
    ensures s != [] && !TextUtil.IsWhitespace(s[0]) ==> CollapseWhitespace(s)[0] == s[0]
    ensures NonWhitespace(CollapseWhitespace(s)) == NonWhitespace(s)
  {
    CollapseIsCollapsed(s);
    CollapseHead(s);
    CollapseKeeps(s);
  }

  /** The first character of a collapsed string: a space for a leading run, else the same one. */
  lemma CollapseHead(s: string)
    ensures CollapseWhitespace(s) == [] <==> s == []
    ensures s != [] && !TextUtil.IsWhitespace(s[0]) ==> CollapseWhitespace(s)[0] == s[0]
    ensures s != [] && TextUtil.IsWhitespace(s[0]) ==> CollapseWhitespace(s)[0] == ' '
  {
  }

  lemma {:induction false} CollapseIsCollapsed(s: string)
    ensures Collapsed(CollapseWhitespace(s))
    decreases |s|
  {
    if s != [] {
      if TextUtil.IsWhitespace(s[0]) {
        var rest := TextUtil.TrimStart(s);
        CollapseIsCollapsed(rest);
        CollapseHead(rest);
        ConsCollapsed(' ', CollapseWhitespace(rest));
      } else {
        CollapseIsCollapsed(s[1..]);
        ConsCollapsed(s[0], CollapseWhitespace(s[1..]));
      }
    }
  }

  /** A character in front of a collapsed string keeps it collapsed when it is not whitespace, or
      when it is a space and the string does not start with whitespace. */
  lemma ConsCollapsed(c: char, tail: string)
    requires Collapsed(tail)
    requires TextUtil.IsWhitespace(c) ==> c == ' ' && (tail != [] ==> !TextUtil.IsWhitespace(tail[0]))
    ensures Collapsed([c] + tail)
  {
    var r := [c] + tail;
    forall k | 0 <= k < |r| && TextUtil.IsWhitespace(r[k])
      ensures r[k] == ' ' && (k + 1 < |r| ==> !TextUtil.IsWhitespace(r[k + 1]))
    {
      if k > 0 {
        assert r[k] == tail[k - 1];
      }
      if k + 1 < |r| {
        assert r[k + 1] == tail[k];
      }
    }
  }

  lemma {:induction false} CollapseKeeps(s: string)
    ensures NonWhitespace(CollapseWhitespace(s)) == NonWhitespace(s)
    decreases |s|
  {
    if s != [] {
      var r := CollapseWhitespace(s);
      if TextUtil.IsWhitespace(s[0]) {
        var rest := TextUtil.TrimStart(s);
        CollapseKeeps(rest);
        var tail := CollapseWhitespace(rest);
        assert r == " " + tail;
        NonWhitespaceAppend(" ", tail);
        assert s == s[..|s| - |rest|] + rest;
        NonWhitespaceAppend(s[..|s| - |rest|], rest);
        NonWhitespaceOfWhitespace(s[..|s| - |rest|]);
      } else {
        CollapseKeeps(s[1..]);
        var tail := CollapseWhitespace(s[1..]);
        assert r == [s[0]] + tail;
        NonWhitespaceAppend([s[0]], tail);
        assert s == [s[0]] + s[1..];
        NonWhitespaceAppend([s[0]], s[1..]);
      }
    }
  }

  /** A one-character-at-a-time reading of whitespace collapsing: a whitespace character becomes a
      space when the character before it is not whitespace, and disappears otherwise. */
  function CollapseScan(s: string, afterWhitespace: bool): string {
    if s == [] then ""
    else if TextUtil.IsWhitespace(s[0]) then (if afterWhitespace then "" else " ") + CollapseScan(s[1..], true)
    else [s[0]] + CollapseScan(s[1..], false)
  }

  lemma {:induction false} CollapseScanSkipsRun(s: string)
    ensures CollapseScan(s, true) == CollapseScan(TextUtil.TrimStart(s), true)
  {
    if s != [] && TextUtil.IsWhitespace(s[0]) {
      CollapseScanSkipsRun(s[1..]);
    }
  }

  /** Collapsing runs is the same as the character-by-character reading. */
  lemma {:induction false} CollapseIsScan(s: string)
    ensures CollapseWhitespace(s) == CollapseScan(s, false)
    decreases |s|
  {
    if s != [] {
      if TextUtil.IsWhitespace(s[0]) {
        var rest := TextUtil.TrimStart(s);
        CollapseIsScan(rest);
        CollapseScanSkipsRun(s[1..]);
        assert rest == TextUtil.TrimStart(s[1..]);
        if rest != [] {
          assert !TextUtil.IsWhitespace(rest[0]);
        }
        assert CollapseScan(rest, true) == CollapseScan(rest, false);
      } else {
        CollapseIsScan(s[1..]);
      }
    }
  }

  /** Collapsing a collapsed string changes nothing. */
  lemma {:induction false} CollapseOfCollapsed(s: string)
    requires Collapsed(s)
    ensures CollapseWhitespace(s) == s
    decreases |s|
  {
    if s != [] {
      CollapsedTail(s);
      CollapseOfCollapsed(s[1..]);
      if TextUtil.IsWhitespace(s[0]) {
        TrimStartOfSingle(s);
        assert CollapseWhitespace(s) == " " + s[1..];
      } else {
        assert CollapseWhitespace(s) == [s[0]] + s[1..];
      }
      assert s == [s[0]] + s[1..];
    }
  }

  lemma CollapsedTail(s: string)
    requires s != [] && Collapsed(s)
    ensures Collapsed(s[1..])
  {
    forall k | 0 <= k < |s[1..]| && TextUtil.IsWhitespace(s[1..][k])
      ensures s[1..][k] == ' ' && (k + 1 < |s[1..]| ==> !TextUtil.IsWhitespace(s[1..][k + 1]))
    {
      assert s[1..][k] == s[k + 1];
      if k + 1 < |s[1..]| {
        assert s[1..][k + 1] == s[k + 2];
      }
    }
  }

  /** A collapsed string that starts with whitespace starts with a single space. */
  lemma TrimStartOfSingle(s: string)
    requires s != [] && Collapsed(s) && TextUtil.IsWhitespace(s[0])
    ensures s[0] == ' ' && TextUtil.TrimStart(s) == s[1..]
  {
    assert TextUtil.TrimStart(s) == TextUtil.TrimStart(s[1..]);
    if |s| > 1 {
      assert s[1..][0] == s[1];
      assert !TextUtil.IsWhitespace(s[1..][0]);
    }
  }

  /** Dropping line breaks leaves none, keeps every non-whitespace character in order, and changes
      nothing in a string without line breaks. */
  lemma DropLineBreaksShape(s: string)
    ensures NoLineBreaks(DropLineBreaks(s))
    ensures NonWhitespace(DropLineBreaks(s)) == NonWhitespace(s)
    ensures NoLineBreaks(s) ==> DropLineBreaks(s) == s
  {
    DropLineBreaksClean(s);
    DropLineBreaksKeeps(s);
    if NoLineBreaks(s) {
      DropLineBreaksNothing(s);
    }
  }

  lemma {:induction false} DropLineBreaksClean(s: string)
    ensures NoLineBreaks(DropLineBreaks(s))
  {
    if s != [] {
      DropLineBreaksClean(s[1..]);
      var head := if IsLineBreak(s[0]) then "" else [s[0]];
      var tail := DropLineBreaks(s[1..]);
      var r := DropLineBreaks(s);
      assert r == head + tail;
      forall k | 0 <= k < |r|
        ensures !IsLineBreak(r[k])
      {
        if k >= |head| {
          assert r[k] == tail[k - |head|];
        }
      }
    }
  }

  lemma {:induction false} DropLineBreaksKeeps(s: string)
    ensures NonWhitespace(DropLineBreaks(s)) == NonWhitespace(s)
  {
    if s != [] {
      DropLineBreaksKeeps(s[1..]);
      var head := if IsLineBreak(s[0]) then "" else [s[0]];
      assert DropLineBreaks(s) == head + DropLineBreaks(s[1..]);
      NonWhitespaceAppend(head, DropLineBreaks(s[1..]));
      assert s == [s[0]] + s[1..];
      NonWhitespaceAppend([s[0]], s[1..]);
      if IsLineBreak(s[0]) {
        assert TextUtil.IsWhitespace(s[0]);
      }
    }
  }

  lemma {:induction false} DropLineBreaksNothing(s: string)
    requires NoLineBreaks(s)
    ensures DropLineBreaks(s) == s
  {
    if s != [] {
      assert NoLineBreaks(s[1..]) by {
        assert forall k :: 0 <= k < |s[1..]| ==> s[1..][k] == s[k + 1];
      }
      DropLineBreaksNothing(s[1..]);
      assert s == [s[0]] + s[1..];
    }
  }

  /** A normalised text has no line breaks, only single spaces as whitespace, and the same
      non-whitespace characters in the same order. */
  lemma NormalizeShape(s: string)
    ensures NoLineBreaks(Normalize(s)) && Collapsed(Normalize(s))
    ensures NonWhitespace(Normalize(s)) == NonWhitespace(s)
  {
    DropLineBreaksShape(s);
    CollapseShape(DropLineBreaks(s));
    CollapsedHasNoLineBreaks(Normalize(s));
  }

  lemma CollapsedHasNoLineBreaks(s: string)
    requires Collapsed(s)
    ensures NoLineBreaks(s)
  {
    forall k | 0 <= k < |s|
      ensures !IsLineBreak(s[k])
    {
      if IsLineBreak(s[k]) {
        assert TextUtil.IsWhitespace(s[k]);
      }
    }
  }

  /** Normalising twice is normalising once. */
  lemma NormalizeIdempotent(s: string)
    ensures Normalize(Normalize(s)) == Normalize(s)
  {
    NormalizeShape(s);
    DropLineBreaksShape(Normalize(s));
    CollapseOfCollapsed(Normalize(s));
  }

  /** `visitVariable`: the looked-up string, trimmed. */
  method VisitVariable(ctx: Ctx, name: string) returns (s: string)
    ensures s == TextUtil.Trim(VariableText(ctx, name))
  {
    var value := LookupVariable(ctx, name);
    s := TextUtil.Trim(value);
  }

  /** `visitAttribute`'s formatting: the fragments joined by single spaces; an empty join leaves the
      bare name. */
  function FormatAttribute(name: string, parts: seq<string>): string {
    var joined := TextUtil.Join(parts, " ");
    if joined == "" then name else name + "=\"" + joined + "\""
  }

  /** `visitElementNode`'s formatting: the tag, a space only when the joined attributes are not empty,
      the attributes, and the children's concatenation trimmed as a whole. */
  function FormatElement(tag: string, attrs: seq<string>, children: seq<string>): string {
    var attributesString := TextUtil.Join(attrs, " ");
    var space := if attributesString == "" then "" else " ";
    "<" + tag + space + attributesString + ">" + TextUtil.Trim(TextUtil.Concat(children)) + "</" + tag + ">"
  }

  function Cat(a: Option<string>, b: Option<string>): Option<string> {
    if a.Some? && b.Some? then Some(a.value + b.value) else None
  }

  /** `accept` of one node. */
  function Render(ctx: Ctx, n: Node): Option<string>
    decreases n
  {
    match n
    case TextNode(v) => Some(Normalize(v))
    case VariableNode(name) => Some(TextUtil.Trim(VariableText(ctx, name)))
    case ElementNode(tag, children, attrs, _) =>
      (match RenderAttributes(ctx, attrs)
       case None => None
       case Some(a) =>
         match RenderSlots(ctx, children)
         case None => None
         case Some(c) => Some(FormatElement(tag, a, c)))
    case IfNode(name, b, e) =>
      if Truthy(Get(ctx, name)) then RenderFirst(ctx, b)
      else if e.WithElse? then RenderFirst(ctx, e.nodes)
      else Some("")
    case ForNode(iter, coll, body) =>
      if Get(ctx, coll).Some? && Get(ctx, coll).value.Arr?
      then RenderItems(ctx, iter, Get(ctx, coll).value.items, body)
      else Some("")
  }

  /** The first node of a branch, or the empty string when there is none. */
  function RenderFirst(ctx: Ctx, nodes: seq<Node>): Option<string>
    decreases nodes, 0
  {
    if nodes == [] then Some("") else Render(ctx, nodes[0])
  }

  /** Every node of a sequence, concatenated. */
  function RenderSeq(ctx: Ctx, nodes: seq<Node>): Option<string>
    decreases nodes, 0
  {
    if nodes == [] then Some("") else Cat(Render(ctx, nodes[0]), RenderSeq(ctx, nodes[1..]))
  }

  /** `child[0].accept` for each slot; a slot with no node throws. */
  function RenderSlots(ctx: Ctx, slots: seq<Slot>): Option<seq<string>>
    decreases slots
  {
    if slots == [] then Some([])
    else if slots[0].nodes == [] then None
    else
      match Render(ctx, slots[0].nodes[0])
      case None => None
      case Some(r) =>
        match RenderSlots(ctx, slots[1..])
        case None => None
        case Some(rs) => Some([r] + rs)
  }

  function RenderAttributes(ctx: Ctx, attrs: seq<Attribute>): Option<seq<string>>
    decreases attrs
  {
    if attrs == [] then Some([])
    else
      match RenderAttribute(ctx, attrs[0])
      case None => None
      case Some(r) =>
        match RenderAttributes(ctx, attrs[1..])
        case None => None
        case Some(rs) => Some([r] + rs)
  }

  /** `visitAttribute`. */
  function RenderAttribute(ctx: Ctx, a: Attribute): Option<string>
    decreases a
  {
    match RenderParts(ctx, a.value)
    case None => None
    case Some(parts) => Some(FormatAttribute(a.name, parts))
  }

  /** A literal fragment as it is, a nested node through the visitor. */
  function RenderPart(ctx: Ctx, part: AttrPart): Option<string>
    decreases part
  {
    match part
    case Literal(text) => Some(text)
    case Nested(m) => Render(ctx, m)
  }

  function RenderParts(ctx: Ctx, parts: seq<AttrPart>): Option<seq<string>>
    decreases parts
  {
    if parts == [] then Some([])
    else
      match RenderPart(ctx, parts[0])
      case None => None
      case Some(r) =>
        match RenderParts(ctx, parts[1..])
        case None => None
        case Some(rs) => Some([r] + rs)
  }

  /** `visitForNode` over an array: the body rendered once per item, each time against the context
      with the iteration name bound to the item, concatenated in item order. */
  function RenderItems(ctx: Ctx, iter: string, items: seq<Value>, body: seq<Node>): Option<string>
    decreases body, 1, items
  {
    if items == [] then Some("")
    else Cat(RenderSeq(ctx[iter := items[0]], body), RenderItems(ctx, iter, items[1..], body))
  }

  /** No element anywhere in the tree has a child slot without a node. */
  predicate Filled(n: Node)
    decreases n
  {
    match n
    case TextNode(_) => true
    case VariableNode(_) => true
    case ElementNode(_, children, attrs, _) =>
      && (forall c :: c in children ==> c.nodes != [])
      && (forall c, m :: c in children && m in c.nodes ==> Filled(m))
      && (forall a :: a in attrs ==> PartsFilled(a.value))
    case IfNode(_, b, e) => AllFilled(b) && (e.WithElse? ==> AllFilled(e.nodes))
    case ForNode(_, _, body) => AllFilled(body)
  }

  predicate AllFilled(nodes: seq<Node>)
    decreases nodes
  {
    forall m :: m in nodes ==> Filled(m)
  }

  predicate PartsFilled(parts: seq<AttrPart>)
    decreases parts
  {
    forall part :: part in parts ==> PartFilled(part)
  }

  predicate PartFilled(part: AttrPart)
    decreases part
  {
    match part
    case Literal(_) => true
    case Nested(m) => Filled(m)
  }

  /** A tree whose element slots all hold a node renders in every context. */
  lemma {:induction false} RenderTotal(ctx: Ctx, n: Node)
    requires Filled(n)
    ensures Render(ctx, n).Some?
    decreases n
  {
    match n
    case TextNode(_) =>
    case VariableNode(_) =>
    case ElementNode(_, children, attrs, _) =>
      RenderAttributesTotal(ctx, attrs);
      RenderSlotsTotal(ctx, children);
    case IfNode(_, b, e) =>
      RenderFirstTotal(ctx, b);
      if e.WithElse? {
        RenderFirstTotal(ctx, e.nodes);
      }
    case ForNode(iter, coll, body) =>
      if Get(ctx, coll).Some? && Get(ctx, coll).value.Arr? {
        RenderItemsTotal(ctx, iter, Get(ctx, coll).value.items, body);
      }
  }

  lemma {:induction false} RenderFirstTotal(ctx: Ctx, nodes: seq<Node>)
    requires AllFilled(nodes)
    ensures RenderFirst(ctx, nodes).Some?
    decreases nodes, 0
  {
    if nodes != [] {
      RenderTotal(ctx, nodes[0]);
    }
  }

  lemma {:induction false} RenderSeqTotal(ctx: Ctx, nodes: seq<Node>)
    requires AllFilled(nodes)
    ensures RenderSeq(ctx, nodes).Some?
    decreases nodes, 0
  {
    if nodes != [] {
      RenderTotal(ctx, nodes[0]);
      RenderSeqTotal(ctx, nodes[1..]);
    }
  }

  lemma {:induction false} RenderSlotsTotal(ctx: Ctx, slots: seq<Slot>)
    requires forall c :: c in slots ==> c.nodes != []
    requires forall c, m :: c in slots && m in c.nodes ==> Filled(m)
    ensures RenderSlots(ctx, slots).Some?
    ensures RenderSlots(ctx, slots).Some? ==> |RenderSlots(ctx, slots).value| == |slots|
    decreases slots
  {
    if slots != [] {
      assert slots[0] in slots && slots[0].nodes[0] in slots[0].nodes;
      RenderTotal(ctx, slots[0].nodes[0]);
      RenderSlotsTotal(ctx, slots[1..]);
    }
  }

  lemma {:induction false} RenderAttributesTotal(ctx: Ctx, attrs: seq<Attribute>)
    requires forall a :: a in attrs ==> PartsFilled(a.value)
    ensures RenderAttributes(ctx, attrs).Some?
    decreases attrs
  {
    if attrs != [] {
      RenderPartsTotal(ctx, attrs[0].value);
      RenderAttributesTotal(ctx, attrs[1..]);
    }
  }

  lemma {:induction false} RenderPartsTotal(ctx: Ctx, parts: seq<AttrPart>)
    requires PartsFilled(parts)
    ensures RenderParts(ctx, parts).Some?
    decreases parts
  {
    if parts != [] {
      RenderPartTotal(ctx, parts[0]);
      RenderPartsTotal(ctx, parts[1..]);
    }
  }

  lemma {:induction false} RenderPartTotal(ctx: Ctx, part: AttrPart)
    requires PartFilled(part)
    ensures RenderPart(ctx, part).Some?
    decreases part
  {
    if part.Nested? {
      RenderTotal(ctx, part.node);
    }
  }

  lemma {:induction false} RenderItemsTotal(ctx: Ctx, iter: string, items: seq<Value>, body: seq<Node>)
    requires AllFilled(body)
    ensures RenderItems(ctx, iter, items, body).Some?
    decreases body, 1, items
  {
    if items != [] {
      RenderSeqTotal(ctx[iter := items[0]], body);
      RenderItemsTotal(ctx, iter, items[1..], body);
    }
  }

  /** An element with a child slot that holds no node fails to render, whatever the context. */
  lemma {:induction false} EmptySlotFails(ctx: Ctx, slots: seq<Slot>, i: nat)
    requires i < |slots| && slots[i].nodes == []
    ensures RenderSlots(ctx, slots).None?
    decreases slots
  {
    if i > 0 && slots[0].nodes != [] {
      EmptySlotFails(ctx, slots[1..], i - 1);
    }
  }

  /** Rendering a loop over `xs + ys` renders the items of `xs`, then those of `ys`. */
  lemma {:induction false} RenderItemsAppend(ctx: Ctx, iter: string, xs: seq<Value>, ys: seq<Value>, body: seq<Node>)
    ensures RenderItems(ctx, iter, xs + ys, body) == Cat(RenderItems(ctx, iter, xs, body), RenderItems(ctx, iter, ys, body))
    decreases xs
  {
    if xs == [] {
      assert xs + ys == ys;
      var r := RenderItems(ctx, iter, ys, body);
      if r.Some? {
        assert "" + r.value == r.value;
      }
    } else {
      assert (xs + ys)[0] == xs[0] && (xs + ys)[1..] == xs[1..] + ys;
      RenderItemsAppend(ctx, iter, xs[1..], ys, body);
      var a := RenderSeq(ctx[iter := xs[0]], body);
      var b := RenderItems(ctx, iter, xs[1..], body);
      var c := RenderItems(ctx, iter, ys, body);
      if a.Some? && b.Some? && c.Some? {
        assert a.value + (b.value + c.value) == (a.value + b.value) + c.value;
      }
    }
  }

  /** A loop with an empty body renders the empty string, however many items there are. */
  lemma {:induction false} RenderItemsEmptyBody(ctx: Ctx, iter: string, items: seq<Value>)
    ensures RenderItems(ctx, iter, items, []) == Some("")
    decreases items
  {
    if items != [] {
      RenderItemsEmptyBody(ctx, iter, items[1..]);
      assert RenderSeq(ctx[iter := items[0]], []) == Some("");
      assert "" + "" == "";
    }
  }

  /** A `for` renders nothing unless the collection key holds an array; over an array it renders the
      body once per item against the context extended with the item, in item order. */
  lemma ForRender(ctx: Ctx, iter: string, coll: string, body: seq<Node>)
    ensures !(Get(ctx, coll).Some? && Get(ctx, coll).value.Arr?) ==> Render(ctx, ForNode(iter, coll, body)) == Some("")
    ensures Get(ctx, coll) == Some(Arr([])) ==> Render(ctx, ForNode(iter, coll, body)) == Some("")
    ensures forall x :: Get(ctx, coll) == Some(Arr([x])) ==>
              Render(ctx, ForNode(iter, coll, body)) == RenderSeq(ctx[iter := x], body)
  {
    forall x | Get(ctx, coll) == Some(Arr([x]))
      ensures Render(ctx, ForNode(iter, coll, body)) == RenderSeq(ctx[iter := x], body)
    {
      var r := RenderSeq(ctx[iter := x], body);
      assert [x][1..] == [];
      assert RenderItems(ctx, iter, [x], body) == Cat(r, Some(""));
      if r.Some? {
        assert r.value + "" == r.value;
      }
    }
  }

  /** The branch an `if` picks: the if branch when the flat key is truthy, otherwise the else branch,
      or none. */
  function ChosenBranch(ctx: Ctx, n: Node): seq<Node>
    requires n.IfNode?
  {
    if Truthy(Get(ctx, n.matchVariable)) then n.ifBranch
    else if n.elseBranch.WithElse? then n.elseBranch.nodes else []
  }

  /** An `if` renders the first node of the chosen branch, or the empty string; for a well-shaped if
      that is the whole chosen branch. */
  lemma IfRender(ctx: Ctx, n: Node)
    requires n.IfNode?
    ensures ChosenBranch(ctx, n) == [] ==> Render(ctx, n) == Some("")
    ensures ChosenBranch(ctx, n) != [] ==> Render(ctx, n) == Render(ctx, ChosenBranch(ctx, n)[0])
    ensures NodeShaped(n) ==> Render(ctx, n) == RenderSeq(ctx, ChosenBranch(ctx, n))
  {
    var branch := ChosenBranch(ctx, n);
    if NodeShaped(n) && |branch| == 1 {
      assert branch[0] in branch;
      assert branch[1..] == [];
      var r := Render(ctx, branch[0]);
      if r.Some? {
        assert r.value + "" == r.value;
      }
    }
  }

  /** An attribute shows its bare name exactly when its fragments join to the empty string. */
  lemma FormatAttributeShape(name: string, parts: seq<string>)
    ensures TextUtil.Join(parts, " ") == "" ==> FormatAttribute(name, parts) == name
    ensures TextUtil.Join(parts, " ") != "" ==>
              FormatAttribute(name, parts) == name + "=\"" + TextUtil.Join(parts, " ") + "\""
    ensures parts == [] || parts == [""] ==> FormatAttribute(name, parts) == name
  {
  }

  /** An element opens with its tag, separates the attributes by one space only when there are some
      to show, and closes with the same tag around the trimmed children. */
  lemma FormatElementShape(tag: string, attrs: seq<string>, children: seq<string>)
    ensures attrs == [] ==>
              (FormatElement(tag, attrs, children) ==
               "<" + tag + ">" + TextUtil.Trim(TextUtil.Concat(children)) + "</" + tag + ">")
    ensures attrs != [] && attrs[0] != "" ==>
              (FormatElement(tag, attrs, children) ==
               "<" + tag + " " + TextUtil.Join(attrs, " ") + ">" + TextUtil.Trim(TextUtil.Concat(children)) + "</" + tag + ">")
  {
    if attrs != [] && attrs[0] != "" {
      JoinNonEmpty(attrs, " ");
    }
  }

  lemma JoinNonEmpty(parts: seq<string>, sep: string)
    requires parts != [] && parts[0] != ""
    ensures TextUtil.Join(parts, sep) != ""
  {
    if |parts| > 1 {
      assert TextUtil.Join(parts, sep) == parts[0] + sep + TextUtil.Join(parts[1..], sep);
      assert |TextUtil.Join(parts, sep)| >= |parts[0]|;
    }
  }

  /** `user.name` with `user` bound to an object whose `name` is the string `s`. */
  lemma UserNameText(ctx: Ctx, s: string)
    ensures VariableText(ctx["user" := Obj(map["name" := Str(s)])], "user.name") == s
  {
    var user := Obj(map["name" := Str(s)]);
    VariableTextDotted(ctx["user" := user], "user", "name");
    VariableTextFlat(user.fields, "name");
    assert "user" + "." + "name" == "user.name";
  }

  /** One slot holding one node renders as that node's output alone. */
  lemma SingleSlotRender(ctx: Ctx, n: Node)
    ensures RenderSlots(ctx, [Slot([n])]) == match Render(ctx, n) case None => None case Some(r) => Some([r])
  {
    var slots := [Slot([n])];
    assert |slots| == 1 && slots[0] == Slot([n]);
    OneSlotRender(ctx, slots, n);
  }

  lemma OneSlotRender(ctx: Ctx, slots: seq<Slot>, n: Node)
    requires |slots| == 1 && slots[0] == Slot([n])
    ensures RenderSlots(ctx, slots) == match Render(ctx, n) case None => None case Some(r) => Some([r])
  {
    assert slots[0].nodes[0] == n;
    assert slots[1..] == [];
    assert RenderSlots(ctx, slots[1..]) == Some([]);
    if Render(ctx, n).Some? {
      assert [Render(ctx, n).value] + [] == [Render(ctx, n).value];
    }
  }

  /** The markup of an element with no attributes and one rendered child. */
  lemma FormatSingleChild(tag: string, r: string)
    ensures FormatElement(tag, [], [r]) == "<" + tag + ">" + TextUtil.Trim(r) + "</" + tag + ">"
  {
    FormatElementShape(tag, [], [r]);
    assert TextUtil.Concat([r]) == r by {
      assert [r][1..] == [];
      assert r + "" == r;
    }
  }

  /** An element with no attributes and one child: the child's trimmed output between the tags. */
  lemma ChildElementRender(ctx: Ctx, tag: string, n: Node, r: string)
    requires Render(ctx, n) == Some(r)
    ensures Render(ctx, ElementNode(tag, [Slot([n])], [], [])) == Some("<" + tag + ">" + TextUtil.Trim(r) + "</" + tag + ">")
  {
    SingleSlotRender(ctx, n);
    assert RenderSlots(ctx, [Slot([n])]) == Some([r]);
    assert RenderAttributes(ctx, []) == Some([]);
    assert Render(ctx, ElementNode(tag, [Slot([n])], [], [])) == Some(FormatElement(tag, [], [r]));
    FormatSingleChild(tag, r);
  }
}
