/** The render context both interpreters read: a record of JavaScript values, the `!!` truthiness
    rule, and the dotted-path lookup of `visitVariable`. */
module Context {
  import opened Wrappers
  import TextUtil

  /** The JavaScript values a context holds. */
  datatype Value =
    | Str(s: string)
    | Int(i: int)
    | Bool(b: bool)
    | Null
    | Obj(fields: map<string, Value>)
    | Arr(items: seq<Value>)

  /** The context record; a key not in it reads as `undefined`. */
  type Ctx = map<string, Value>

  /** `ctx[name]` on the record itself, with no dotted walk. */
  function Get(ctx: Ctx, name: string): (r: Option<Value>)
    ensures r.Some? <==> name in ctx
    ensures r.Some? ==> r.value == ctx[name]
  {
    if name in ctx then Some(ctx[name]) else None
  }

  /** `!!v`: `undefined`, `null`, `false`, `0` and `""` are falsy; objects and arrays are truthy. */
  predicate Truthy(v: Option<Value>) {
    match v
    case None => false
    case Some(Str(s)) => s != ""
    case Some(Int(i)) => i != 0
    case Some(Bool(b)) => b
    case Some(Null) => false
    case Some(Obj(_)) => true
    case Some(Arr(_)) => true
  }

  predicate IsDigit(c: char) {
    '0' <= c <= '9'
  }

  /** A canonical array-index property key: decimal digits, with no leading zero. */
  predicate IsIndexKey(s: string) {
    && |s| >= 1
    && (forall k :: 0 <= k < |s| ==> IsDigit(s[k]))
    && (s[0] == '0' ==> |s| == 1)
  }

  function DigitChar(d: nat): (c: char)
    requires d < 10
    ensures IsDigit(c) && (c == '0' <==> d == 0)
  {
    ('0' as int + d) as char
  }

  function DigitValue(c: char): (d: nat)
    requires IsDigit(c)
    ensures d < 10
  {
    c as int - '0' as int
  }

  /** The number a string of digits spells. */
  function NumberValue(s: string): nat
    requires forall k :: 0 <= k < |s| ==> IsDigit(s[k])
  {
    if s == [] then 0 else NumberValue(s[..|s| - 1]) * 10 + DigitValue(s[|s| - 1])
  }

  /** The property key of array index `n`: its decimal digits. */
  function IndexKey(n: nat): (s: string)
    ensures IsIndexKey(s)
  {
    if n < 10 then [DigitChar(n)] else IndexKey(n / 10) + [DigitChar(n % 10)]
  }

  lemma {:induction false} IndexKeyValue(n: nat)
    ensures NumberValue(IndexKey(n)) == n
  {
    if n >= 10 {
      var s := IndexKey(n);
      assert s[..|s| - 1] == IndexKey(n / 10);
      IndexKeyValue(n / 10);
    }
  }

  /** Every canonical index key is the key of the number it spells. */
  lemma {:induction false} IndexKeyCanonical(s: string)
    requires IsIndexKey(s)
    ensures IndexKey(NumberValue(s)) == s
  {
    if |s| > 1 {
      var init := s[..|s| - 1];
      assert IsIndexKey(init);
      IndexKeyCanonical(init);
      NumberValueLeadingDigit(init);
      assert s == init + [s[|s| - 1]];
    }
  }

  lemma {:induction false} NumberValueLeadingDigit(s: string)
    requires IsIndexKey(s) && s[0] != '0'
    ensures NumberValue(s) >= 1
    decreases |s|
  {
    if |s| >= 2 {
      NumberValueLeadingDigit(s[..|s| - 1]);
    }
  }

  /** `prop in v ? v[prop] : <miss>` for a truthy object `v`: its own keys for a plain object, and
      the index keys below the length and `length` itself for an array. Other values are not walked. */
  function Member(v: Value, prop: string): (r: Option<Value>)
    ensures v.Obj? ==> (r.Some? <==> prop in v.fields) && (r.Some? ==> r.value == v.fields[prop])
    ensures v.Arr? ==> (prop == "length" ==> r == Some(Int(|v.items|)))
    ensures v.Arr? && prop != "length" ==>
              (r.Some? <==> exists i :: 0 <= i < |v.items| && prop == IndexKey(i))
    ensures v.Arr? ==> forall i :: 0 <= i < |v.items| && prop == IndexKey(i) ==> r == Some(v.items[i])
    ensures !v.Obj? && !v.Arr? ==> r.None?
  {
    match v
    case Obj(fields) => if prop in fields then Some(fields[prop]) else None
    case Arr(items) =>
      if prop == "length" then Some(Int(|items|))
      else if IsIndexKey(prop) && NumberValue(prop) < |items| then
        IndexKeyCanonical(prop);
        IndexKeysSpellTheirIndex(items, prop);
        Some(items[NumberValue(prop)])
      else
        IndexKeysSpellTheirIndex(items, prop);
        None
    case _ => None
  }

  lemma IndexKeysSpellTheirIndex(items: seq<Value>, prop: string)
    ensures forall i :: 0 <= i < |items| && prop == IndexKey(i) ==> IsIndexKey(prop) && NumberValue(prop) == i
  {
    forall i | 0 <= i < |items| && prop == IndexKey(i)
      ensures IsIndexKey(prop) && NumberValue(prop) == i
    {
      IndexKeyValue(i);
    }
  }

  /** The for-loop of `visitVariable`: one `Member` step per property; any miss ends the walk. */
  function Walk(v: Value, props: seq<string>): Option<Value>
    decreases props
  {
    if props == [] then Some(v)
    else
      match Member(v, props[0])
      case None => None
      case Some(w) => Walk(w, props[1..])
  }

  /** The string a variable name denotes: the dotted walk from the record, kept only when it ends at
      a string; any miss, or a non-string result, gives the empty string. */
  function VariableText(ctx: Ctx, name: string): string {
    match Walk(Obj(ctx), TextUtil.Split(name, '.'))
    case Some(Str(s)) => s
    case _ => ""
  }

  /** Walking a path in two pieces is walking the first and then the second from where it ended. */
  lemma {:induction false} WalkAppend(v: Value, a: seq<string>, b: seq<string>)
    ensures Walk(v, a + b) == match Walk(v, a) case None => None case Some(w) => Walk(w, b)
    decreases a
  {
    if a != [] {
      assert (a + b)[0] == a[0] && (a + b)[1..] == a[1..] + b;
      match Member(v, a[0])
      case None =>
      case Some(w) => WalkAppend(w, a[1..], b);
    } else {
      assert a + b == b;
    }
  }

  /** A walk that misses at some step misses, whatever follows. */
  lemma {:induction false} WalkMissStops(v: Value, a: seq<string>, b: seq<string>)
    requires Walk(v, a).None?
    ensures Walk(v, a + b).None?
  {
    WalkAppend(v, a, b);
  }

  /** A name without dots is looked up as a single key of the record. */
  lemma VariableTextFlat(ctx: Ctx, name: string)
    requires '.' !in name
    ensures VariableText(ctx, name) == if name in ctx && ctx[name].Str? then ctx[name].s else ""
  {
    assert TextUtil.Split(name, '.') == [name];
    assert [name][1..] == [];
    assert Walk(Obj(ctx), [name]) == Member(Obj(ctx), name);
  }

  /** `a.rest` descends into the value under `a` when that is an object or an array, and misses
      (the empty string) when `a` is absent or holds anything else. */
  lemma VariableTextDotted(ctx: Ctx, a: string, rest: string)
    requires '.' !in a
    ensures VariableText(ctx, a + "." + rest) ==
            if a in ctx && ctx[a].Obj? then VariableText(ctx[a].fields, rest)
            else if a in ctx && ctx[a].Arr? then
              match Walk(ctx[a], TextUtil.Split(rest, '.')) case Some(Str(s)) => s case _ => ""
            else ""
  {
    TextUtil.SplitCons(a, rest, '.');
    var props := TextUtil.Split(rest, '.');
    assert TextUtil.Split(a + "." + rest, '.') == [a] + props;
    assert ([a] + props)[1..] == props;
    assert Walk(Obj(ctx), [a] + props) == if a in ctx then Walk(ctx[a], props) else None;
    if a in ctx && ctx[a].Obj? {
      assert Walk(Obj(ctx[a].fields), props) == Walk(ctx[a], props);
    }
  }

  /** The for-loop of `visitVariable` (both interpreters): `ctxValue` starts at the record and takes
      one member per dotted part; the first miss gives the empty string, and so does a final
      non-string. */
  method LookupVariable(ctx: Ctx, name: string) returns (s: string)
    ensures s == VariableText(ctx, name)
  {
    var propertyChain := TextUtil.Split(name, '.');
    var ctxValue := Obj(ctx);
    var i := 0;
    while i < |propertyChain|
      invariant 0 <= i <= |propertyChain|
      invariant Walk(Obj(ctx), propertyChain) == Walk(ctxValue, propertyChain[i..])
    {
      var member := Member(ctxValue, propertyChain[i]);
      assert propertyChain[i..][1..] == propertyChain[i + 1..];
      if member.None? {
        return "";
      }
      ctxValue := member.value;
      i := i + 1;
    }
    assert propertyChain[i..] == [];
    s := if ctxValue.Str? then ctxValue.s else "";
  }
}
