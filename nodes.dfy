/**
  * The node model of the renderer (`VNode` and its builders in src/vdom.ts).
  *
  * A node is a value. Everything the source compares by reference carries
  * an identity token (`id`, `arrayId`): two records are the same object
  * exactly when they are equal, token included. The source's flag word is
  * not stored: `Flags` derives it from the node's variant, its children
  * shape and whether `key()` was called, so that a node always has exactly
  * one kind and at most one children shape.
  */
module Nodes {

  /** An optional value; `None` also stands for a computation that ran out of fuel. */
  datatype Option<+T> = None | Some(value: T) {
    predicate IsFailure() {
      None?
    }

    function PropagateFailure<U>(): Option<U>
      requires None?
    {
      None
    }

    function Extract(): T
      requires Some?
    {
      value
    }
  }

  /** A scalar property value; numbers are carried as their decimal text. */
  datatype Value = Null | Bool(b: bool) | Str(s: string)

  /** A plain object: its identity token and its own properties in `Object.keys` order. */
  datatype Obj = Obj(id: nat, fields: seq<(string, Value)>)

  /** A style object: declaration names and values in `Object.keys` order. */
  datatype StyleObj = StyleObj(id: nat, fields: seq<(string, string)>)

  /** A sibling key: the default and positional keys are numbers, user keys may be strings. */
  datatype Key = Num(n: int) | Name(s: string)

  /** The `_tag` slot: an element name, a component or descriptor object, or null. */
  datatype Tag = NoTag | TagName(name: string) | Callable(ref: nat)

  /** An ambient context: the properties of the merged context object. */
  type Context = map<string, Value>

  type Flags = bv16

  const FlagText: Flags := 1
  const FlagElement: Flags := 2
  const FlagComponentFunction: Flags := 4
  const FlagComponentClass: Flags := 8
  const FlagChildrenBasic: Flags := 16
  const FlagChildrenVNode: Flags := 32
  const FlagChildrenArray: Flags := 64
  const FlagKey: Flags := 128
  const FlagConnect: Flags := 256
  const FlagUpdateContext: Flags := 512
  const FlagDeepConnect: Flags := 1024
  const FlagComponent: Flags := FlagComponentFunction | FlagComponentClass
  const Syncable: Flags := FlagText | FlagElement | FlagComponent | FlagKey | FlagConnect | FlagUpdateContext
  const ShapeMask: Flags := FlagChildrenBasic | FlagChildrenVNode | FlagChildrenArray

  /**
    * A node. `keyed` is the Key flag (set by `key()`); `key` is 0 until
    * `key()` or `children()` of a parent assigns one. Text content, class
    * names and style values are strings.
    */
  datatype VNode =
    | Text(id: nat, key: Key, keyed: bool, content: string)
    | Element(id: nat, key: Key, keyed: bool, tag: string, props: Option<Obj>,
              style: Option<StyleObj>, className: Option<string>, children: Children)
    | ClassComponent(id: nat, key: Key, keyed: bool, cls: nat, props: Option<Obj>)
    | FunctionComponent(id: nat, key: Key, keyed: bool, fn: nat, props: Option<Obj>)
    | Connect(id: nat, key: Key, keyed: bool, descriptor: nat, props: Option<Obj>)
    | UpdateContext(id: nat, key: Key, keyed: bool, props: Option<Obj>, child: VNode)

  /** The `_children` slot of an element: null, a plain value, one node, or an array of nodes. */
  datatype Children =
    | NoChildren
    | Basic(text: string)
    | Single(node: VNode)
    | Many(arrayId: nat, nodes: seq<VNode>)

  /** The `{in, out}` pair a selector returns, with its identity token. */
  datatype SelectorData = SelectorData(id: nat, input: Obj, output: Obj)

  /** A component instance: its class and the props it was constructed with. */
  datatype Instance = Instance(cls: nat, props: Option<Obj>)

  /**
    * The user code the renderer calls, as functions of the identity token of
    * the component or descriptor: rendering a class instance, the class's
    * own `shouldUpdate` (when it overrides the base one), calling a component
    * function and its optional `shouldUpdate`, and a connect descriptor's
    * `select` and `render`.
    *
    * `pass` names the render pass (`createBlueprint`, or one `render` call)
    * the code runs in. A node or selector result that user code returns is
    * a new object unless the code caches it, so the functions that return
    * one take the pass: called again in a later pass with the same inputs,
    * they may return a node with a new identity token, or the cached one.
    */
  datatype Env = Env(
    pass: nat,
    classRender: (nat, nat, Option<Obj>) -> VNode,
    classOverridesShouldUpdate: nat -> bool,
    classShouldUpdate: (Instance, Option<Obj>, Option<Obj>) -> bool,
    functionRender: (nat, nat, Option<Obj>) -> VNode,
    functionHasShouldUpdate: nat -> bool,
    functionShouldUpdate: (nat, Option<Obj>, Option<Obj>) -> bool,
    select: (nat, nat, Option<SelectorData>, Option<Obj>, Context) -> SelectorData,
    connectRender: (nat, nat, Obj) -> VNode)

  /** `Component.shouldUpdate` unless the class overrides it: props changed by reference. */
  function ClassShouldUpdate(env: Env, instance: Instance, oldProps: Option<Obj>, newProps: Option<Obj>): (r: bool)
    ensures !env.classOverridesShouldUpdate(instance.cls) ==> (r <==> oldProps != newProps)
  {
    if env.classOverridesShouldUpdate(instance.cls) then env.classShouldUpdate(instance, oldProps, newProps)
    else oldProps != newProps
  }

  /** The props of a node; text nodes have none. */
  function PropsOf(n: VNode): Option<Obj> {
    if n.Text? then None else n.props
  }

  /** The `_tag` slot of a node. */
  function TagOf(n: VNode): Tag {
    match n
    case Text(_, _, _, _) => NoTag
    case Element(_, _, _, tag, _, _, _, _) => TagName(tag)
    case ClassComponent(_, _, _, cls, _) => Callable(cls)
    case FunctionComponent(_, _, _, fn, _) => Callable(fn)
    case Connect(_, _, _, descriptor, _) => Callable(descriptor)
    case UpdateContext(_, _, _, _, _) => NoTag
  }

  function ShapeFlags(c: Children): Flags {
    match c
    case NoChildren => 0
    case Basic(_) => FlagChildrenBasic
    case Single(_) => FlagChildrenVNode
    case Many(_, _) => FlagChildrenArray
  }

  /** The kind bits of a node. */
  function KindFlags(n: VNode): Flags {
    match n
    case Text(_, _, _, _) => FlagText
    case Element(_, _, _, _, _, _, _, _) => FlagElement
    case ClassComponent(_, _, _, _, _) => FlagComponentClass
    case FunctionComponent(_, _, _, _, _) => FlagComponentFunction
    case Connect(_, _, _, _, _) => FlagComponentFunction | FlagConnect
    case UpdateContext(_, _, _, _, _) => FlagComponentFunction | FlagUpdateContext
  }

  function KeyFlag(keyed: bool): Flags {
    if keyed then FlagKey else 0
  }

  /** The `_flags` word of a node. */
  function FlagsOf(n: VNode): (f: Flags)
    ensures f & ShapeMask == (if n.Element? then ShapeFlags(n.children) else 0)
    ensures (f & FlagKey != 0) == n.keyed
  {
    KindFlags(n) | KeyFlag(n.keyed) | (if n.Element? then ShapeFlags(n.children) else 0)
  }

  /** At most one of the three children-shape bits is ever set. */
  lemma ShapeBitsExclusive(n: VNode)
    ensures var s := FlagsOf(n) & ShapeMask;
            s == 0 || s == FlagChildrenBasic || s == FlagChildrenVNode || s == FlagChildrenArray
  {
  }

  // ---------------------------------------------------------------------
  // Builders. Each takes the identity token of the object it allocates.
  // ---------------------------------------------------------------------

  /** `$t(content)`: a text node. */
  function TextNode(id: nat, content: string): (n: VNode)
    ensures FlagsOf(n) == FlagText && TagOf(n) == NoTag && PropsOf(n) == None
    ensures n.key == Num(0) && n.content == content
  {
    Text(id, Num(0), false, content)
  }

  /** `$h(tagName, className?)`: an element with no props, style or children. */
  function ElementNode(id: nat, tagName: string, className: Option<string>): (n: VNode)
    ensures FlagsOf(n) == FlagElement && TagOf(n) == TagName(tagName)
    ensures n.key == Num(0) && n.className == className && n.children == NoChildren
    ensures n.props == None && n.style == None
  {
    Element(id, Num(0), false, tagName, None, None, className, NoChildren)
  }

  /** `$c(c, props?)`: a class or function component, as `isClass` says. */
  function ComponentNode(id: nat, ref: nat, isClass: bool, props: Option<Obj>): (n: VNode)
    ensures FlagsOf(n) == if isClass then FlagComponentClass else FlagComponentFunction
    ensures TagOf(n) == Callable(ref) && PropsOf(n) == props && n.key == Num(0)
  {
    if isClass then ClassComponent(id, Num(0), false, ref, props)
    else FunctionComponent(id, Num(0), false, ref, props)
  }

  /** `$connect(descriptor, props)`. */
  function ConnectNode(id: nat, descriptor: nat, props: Option<Obj>): (n: VNode)
    ensures FlagsOf(n) == FlagComponentFunction | FlagConnect
    ensures TagOf(n) == Callable(descriptor) && PropsOf(n) == props && n.key == Num(0)
  {
    Connect(id, Num(0), false, descriptor, props)
  }

  /** `$context(context, child)`: a scope whose props are the context values it adds. */
  function ContextNode(id: nat, context: Obj, child: VNode): (n: VNode)
    ensures FlagsOf(n) == FlagComponentFunction | FlagUpdateContext
    ensures TagOf(n) == NoTag && PropsOf(n) == Some(context) && n.child == child && n.key == Num(0)
  {
    UpdateContext(id, Num(0), false, Some(context), child)
  }

  /** `VNode.key(key)`: sets the Key flag and the key; the node keeps its identity. */
  function WithKey(n: VNode, k: Key): (r: VNode)
    ensures FlagsOf(r) == FlagsOf(n) | FlagKey
    ensures r.key == k && r.id == n.id && TagOf(r) == TagOf(n) && PropsOf(r) == PropsOf(n)
    ensures r.(key := n.key, keyed := n.keyed) == n
  {
    n.(key := k, keyed := true)
  }

  /**
    * `VNode.props(props)`. A text node's props slot is never read, so the
    * model keeps no such slot and setting it changes nothing observable.
    */
  function WithProps(n: VNode, props: Option<Obj>): (r: VNode)
    ensures FlagsOf(r) == FlagsOf(n) && r.id == n.id && TagOf(r) == TagOf(n) && r.key == n.key
    ensures !n.Text? ==> PropsOf(r) == props && r.(props := n.props) == n
    ensures n.Text? ==> r == n
  {
    if n.Text? then n else n.(props := props)
  }

  /** `VNode.style(style)`: only elements read the style slot; on other nodes it changes nothing. */
  function WithStyle(n: VNode, style: Option<StyleObj>): (r: VNode)
    ensures FlagsOf(r) == FlagsOf(n) && r.id == n.id
    ensures n.Element? ==> r.Element? && r.style == style && r.(style := n.style) == n
    ensures !n.Element? ==> r == n
  {
    if n.Element? then n.(style := style) else n
  }

  /** `VNode.className(className)`: only elements read the class name; on other nodes it changes nothing. */
  function WithClassName(n: VNode, className: Option<string>): (r: VNode)
    ensures FlagsOf(r) == FlagsOf(n) && r.id == n.id
    ensures n.Element? ==> r.Element? && r.className == className && r.(className := n.className) == n
    ensures !n.Element? ==> r == n
  {
    if n.Element? then n.(className := className) else n
  }

  /**
    * Each setter writes one slot: setting it again overrides the first
    * call, setting the old value back restores the node, and setters of
    * different slots commute.
    */
  lemma SettersWriteOneSlot(n: VNode, k1: Key, k2: Key, p1: Option<Obj>, p2: Option<Obj>,
                            s1: Option<StyleObj>, s2: Option<StyleObj>, c1: Option<string>, c2: Option<string>)
    ensures WithKey(WithKey(n, k1), k2) == WithKey(n, k2)
    ensures WithProps(WithProps(n, p1), p2) == WithProps(n, p2)
    ensures WithStyle(WithStyle(n, s1), s2) == WithStyle(n, s2)
    ensures WithClassName(WithClassName(n, c1), c2) == WithClassName(n, c2)
    ensures WithProps(WithProps(n, p1), PropsOf(n)) == n
    ensures n.Element? ==> WithStyle(WithStyle(n, s1), n.style) == n
    ensures n.Element? ==> WithClassName(WithClassName(n, c1), n.className) == n
    ensures WithStyle(WithProps(n, p1), s1) == WithProps(WithStyle(n, s1), p1)
    ensures WithClassName(WithStyle(n, s1), c1) == WithStyle(WithClassName(n, c1), s1)
    ensures WithKey(WithClassName(n, c1), k1) == WithClassName(WithKey(n, k1), c1)
  {
  }

  /** `selectorData(i, o?)`: the output defaults to the input. */
  function MakeSelectorData(id: nat, input: Obj, output: Option<Obj>): (d: SelectorData)
    ensures d.input == input && d.id == id
    ensures output.None? ==> d.output == input
    ensures output.Some? ==> d.output == output.value
  {
    SelectorData(id, input, if output.None? then input else output.value)
  }

  // ---------------------------------------------------------------------
  // `children(...)`: the variadic argument list and its normal form.
  // ---------------------------------------------------------------------

  /** One argument of `children(...)`: null, a node, an array of nodes, or a scalar. */
  datatype ChildArg =
    | NullArg
    | NodeArg(node: VNode)
    | ArrayArg(arrayId: nat, items: seq<VNode>)
    | ScalarArg(text: string)

  /** The number of entries an argument adds once arrays are flattened one level. */
  function Width(a: ChildArg): nat {
    match a
    case NullArg => 0
    case NodeArg(_) => 1
    case ArrayArg(_, items) => |items|
    case ScalarArg(_) => 1
  }

  /** Whether an argument adds any entry (it is not null and not an empty array). */
  predicate Contributes(a: ChildArg) {
    Width(a) > 0
  }

  /** `j` of the source's first loop: contributing arguments among the first `n`. */
  function CountUpTo(args: seq<ChildArg>, n: nat): (j: nat)
    requires n <= |args|
    ensures j <= WidthUpTo(args, n)
    ensures j == 0 <==> WidthUpTo(args, n) == 0
  {
    if n == 0 then 0 else CountUpTo(args, n - 1) + (if Contributes(args[n - 1]) then 1 else 0)
  }

  /** `k` of the source's first loop: entries added by the first `n` arguments. */
  function WidthUpTo(args: seq<ChildArg>, n: nat): nat
    requires n <= |args|
  {
    if n == 0 then 0 else WidthUpTo(args, n - 1) + Width(args[n - 1])
  }

  /** `r` of the source's first loop: the last contributing argument among the first `n`. */
  function LastUpTo(args: seq<ChildArg>, n: nat): (r: ChildArg)
    requires n <= |args|
    ensures CountUpTo(args, n) > 0 ==> Contributes(r)
    ensures CountUpTo(args, n) == 1 ==> Width(r) == WidthUpTo(args, n)
  {
    if n == 0 then NullArg
    else if Contributes(args[n - 1]) then args[n - 1]
    else LastUpTo(args, n - 1)
  }

  /** The text node that wraps the scalar argument at index `i`. */
  function WrappedScalar(token: nat, i: nat, s: string): VNode {
    Text(token + 1 + i, Num(i), false, s)
  }

  /**
    * The entries argument `i` adds to a new children array: an unkeyed node
    * gets its argument index as key, a scalar is wrapped in a text node keyed
    * the same way, and an array's items are copied as they are.
    */
  function Entries(a: ChildArg, i: nat, token: nat): (r: seq<VNode>)
    ensures |r| == Width(a)
  {
    match a
    case NullArg => []
    case NodeArg(c) => [if c.keyed then c else c.(key := Num(i))]
    case ArrayArg(_, items) => items
    case ScalarArg(s) => [WrappedScalar(token, i, s)]
  }

  /** The new children array after the first `n` arguments of the source's second loop. */
  function FlatUpTo(args: seq<ChildArg>, n: nat, token: nat): (r: seq<VNode>)
    requires n <= |args|
    ensures |r| == WidthUpTo(args, n)
  {
    if n == 0 then [] else FlatUpTo(args, n - 1, token) + Entries(args[n - 1], n - 1, token)
  }

  /**
    * The children `children(...args)` stores. A lone argument is taken as it
    * is (an array of two or more entries becomes the children array itself,
    * a one-entry array is unwrapped, an empty one is dropped). Otherwise a
    * single contributing argument of width one is unwrapped, and anything
    * more is flattened into a new array whose identity token is `token`.
    */
  function ChildrenOf(args: seq<ChildArg>, token: nat): Children {
    if |args| == 1 then
      match args[0]
      case NullArg => NoChildren
      case NodeArg(c) => Single(c)
      case ArrayArg(id, items) =>
        if |items| > 1 then Many(id, items) else if |items| == 1 then Single(items[0]) else NoChildren
      case ScalarArg(s) => Basic(s)
    else
      var j, k := CountUpTo(args, |args|), WidthUpTo(args, |args|);
      if j == 0 then NoChildren
      else if j == 1 && k == 1 then
        match LastUpTo(args, |args|)
        case NodeArg(c) => Single(c)
        case ArrayArg(_, items) => Single(items[0])
        case ScalarArg(s) => Basic(s)
        case NullArg => NoChildren
      else Many(token, FlatUpTo(args, |args|, token))
  }

  /**
    * `VNode.children(...args)` on a freshly built element. The first loop
    * counts the contributing arguments (`j`), the entries (`k`) and keeps the
    * last contributing argument; the second fills a new array of `k` entries.
    * (`(j | k) === 1` in the source is `j == 1 && k == 1`, since `k >= j >= 1`
    * there.)
    */
  method SetChildren(n: VNode, args: seq<ChildArg>, token: nat) returns (r: VNode)
    requires n.Element? && n.children == NoChildren
    ensures r == n.(children := ChildrenOf(args, token))
    ensures FlagsOf(r) == FlagsOf(n) | ShapeFlags(r.children)
    ensures var s := FlagsOf(r) & ShapeMask;
            s == 0 || s == FlagChildrenBasic || s == FlagChildrenVNode || s == FlagChildrenArray
  {
    var c: Children := NoChildren;
    if |args| == 1 {
      match args[0]
      case NullArg =>
      case NodeArg(node) => c := Single(node);
      case ArrayArg(id, items) =>
        if |items| > 1 {
          c := Many(id, items);
        } else if |items| == 1 {
          c := Single(items[0]);
        }
      case ScalarArg(s) => c := Basic(s);
    } else {
      var i, j, k := 0, 0, 0;
      var last: ChildArg := NullArg;
      while i < |args|
        invariant 0 <= i <= |args|
        invariant j == CountUpTo(args, i) && k == WidthUpTo(args, i) && last == LastUpTo(args, i)
      {
        if Contributes(args[i]) {
          k := k + Width(args[i]);
          j := j + 1;
          last := args[i];
        }
        i := i + 1;
      }
      if j > 0 {
        if j == 1 && k == 1 {
          match last
          case NodeArg(node) => c := Single(node);
          case ArrayArg(_, items) => c := Single(items[0]);
          case ScalarArg(s) => c := Basic(s);
          case NullArg =>
        } else {
          var entries := Flatten(args, k, token);
          c := Many(token, entries);
        }
      }
    }
    r := n.(children := c);
  }

  /** The source's second loop: fills a new array of `k` entries, argument by argument. */
  method Flatten(args: seq<ChildArg>, k: nat, token: nat) returns (entries: seq<VNode>)
    requires k == WidthUpTo(args, |args|)
    ensures entries == FlatUpTo(args, |args|, token)
  {
    var a := new VNode[k](_ => Text(0, Num(0), false, ""));
    var i, pos := 0, 0;
    while i < |args|
      invariant 0 <= i <= |args|
      invariant pos == WidthUpTo(args, i) <= k
      invariant a[..pos] == FlatUpTo(args, i, token)
    {
      WidthMonotone(args, i + 1, |args|);
      PlaceEntries(a, pos, args[i], i, token);
      pos := pos + Width(args[i]);
      i := i + 1;
    }
    entries := a[..pos];
  }

  /** One iteration of the second loop: writes argument `i`'s entries at `pos`. */
  method PlaceEntries(a: array<VNode>, pos: nat, arg: ChildArg, i: nat, token: nat)
    requires pos + Width(arg) <= a.Length
    modifies a
    ensures a[..pos + Width(arg)] == old(a[..pos]) + Entries(arg, i, token)
    ensures a[pos + Width(arg)..] == old(a[pos + Width(arg)..])
  {
    match arg {
      case NullArg =>
      case NodeArg(c) =>
        a[pos] := if c.keyed then c else c.(key := Num(i));
      case ScalarArg(s) =>
        a[pos] := WrappedScalar(token, i, s);
      case ArrayArg(_, items) =>
        var m := 0;
        while m < |items|
          invariant 0 <= m <= |items|
          invariant a[..pos + m] == old(a[..pos]) + items[..m]
          invariant a[pos + |items|..] == old(a[pos + |items|..])
        {
          a[pos + m] := items[m];
          m := m + 1;
        }
    }
  }

  lemma {:induction false} WidthMonotone(args: seq<ChildArg>, m: nat, n: nat)
    requires m <= n <= |args|
    ensures WidthUpTo(args, m) <= WidthUpTo(args, n)
  {
    if m < n {
      WidthMonotone(args, m, n - 1);
    }
  }

  lemma {:induction false} CountBelowWidth(args: seq<ChildArg>, n: nat)
    requires n <= |args|
    ensures CountUpTo(args, n) <= WidthUpTo(args, n)
    ensures CountUpTo(args, n) == 0 <==> forall i :: 0 <= i < n ==> !Contributes(args[i])
    ensures CountUpTo(args, n) > 0 ==> Contributes(LastUpTo(args, n))
  {
    if n > 0 {
      CountBelowWidth(args, n - 1);
    }
  }

  /** Without a contributing argument there are no children, and only then. */
  lemma NoChildrenIff(args: seq<ChildArg>, token: nat)
    ensures ChildrenOf(args, token) == NoChildren <==> forall i :: 0 <= i < |args| ==> !Contributes(args[i])
  {
    CountBelowWidth(args, |args|);
    if |args| != 1 && CountUpTo(args, |args|) > 0 {
      var k := WidthUpTo(args, |args|);
      if CountUpTo(args, |args|) == 1 && k == 1 {
        var last := LastUpTo(args, |args|);
        assert Contributes(last);
      }
    }
  }

  /**
    * A children array always has at least two entries; when it was built
    * from several arguments it has exactly as many entries as the arguments
    * have after one-level flattening.
    */
  lemma ManyHasTwoOrMore(args: seq<ChildArg>, token: nat)
    requires ChildrenOf(args, token).Many?
    ensures |ChildrenOf(args, token).nodes| >= 2
    ensures |args| != 1 ==> |ChildrenOf(args, token).nodes| == WidthUpTo(args, |args|)
    ensures |args| == 1 ==> ChildrenOf(args, token) == Many(args[0].arrayId, args[0].items)
  {
    if |args| != 1 {
      CountBelowWidth(args, |args|);
      var j, k := CountUpTo(args, |args|), WidthUpTo(args, |args|);
      assert j >= 1 && k >= j && !(j == 1 && k == 1);
      if j == 1 {
        assert k != 1;
      }
    }
  }

  /** A single contributing argument that is a one-entry array is unwrapped to that entry. */
  lemma OneEntryArrayUnwrapped(args: seq<ChildArg>, token: nat, p: nat)
    requires p < |args| && args[p].ArrayArg? && |args[p].items| == 1
    requires forall i :: 0 <= i < |args| && i != p ==> !Contributes(args[i])
    ensures ChildrenOf(args, token) == Single(args[p].items[0])
  {
    if |args| != 1 {
      OnlyContributor(args, |args|, p);
    }
  }

  lemma {:induction false} OnlyContributor(args: seq<ChildArg>, n: nat, p: nat)
    requires p < n <= |args| && Contributes(args[p])
    requires forall i :: 0 <= i < |args| && i != p ==> !Contributes(args[i])
    ensures CountUpTo(args, n) == 1 && WidthUpTo(args, n) == Width(args[p]) && LastUpTo(args, n) == args[p]
  {
    if n - 1 != p {
      OnlyContributor(args, n - 1, p);
    } else {
      NoneBefore(args, p);
    }
  }

  lemma {:induction false} NoneBefore(args: seq<ChildArg>, n: nat)
    requires n <= |args|
    requires forall i :: 0 <= i < n ==> !Contributes(args[i])
    ensures CountUpTo(args, n) == 0 && WidthUpTo(args, n) == 0
  {
    if n > 0 {
      NoneBefore(args, n - 1);
    }
  }

  /**
    * Where each argument's entries sit in a flattened children array:
    * argument `i` starts at `WidthUpTo(args, i)`; an unkeyed node is keyed
    * by `i`, a scalar becomes a text node keyed by `i`, an array's items are
    * copied unchanged.
    */
  lemma {:induction false} FlattenedEntryAt(args: seq<ChildArg>, token: nat, n: nat, i: nat)
    requires i < n <= |args|
    ensures WidthUpTo(args, i) + Width(args[i]) <= |FlatUpTo(args, n, token)|
    ensures var p := WidthUpTo(args, i);
            FlatUpTo(args, n, token)[p..p + Width(args[i])] == Entries(args[i], i, token)
  {
    WidthMonotone(args, i + 1, n);
    var prefix, last := FlatUpTo(args, n - 1, token), Entries(args[n - 1], n - 1, token);
    var p, q := WidthUpTo(args, i), WidthUpTo(args, i) + Width(args[i]);
    if i < n - 1 {
      FlattenedEntryAt(args, token, n - 1, i);
      SliceOfLeft(prefix, last, p, q);
    } else {
      SliceOfRight(prefix, last);
    }
  }

  lemma SliceOfLeft<T>(a: seq<T>, b: seq<T>, p: nat, q: nat)
    requires p <= q <= |a|
    ensures (a + b)[p..q] == a[p..q]
  {
  }

  lemma SliceOfRight<T>(a: seq<T>, b: seq<T>)
    ensures (a + b)[|a|..|a| + |b|] == b
  {
  }

  /** Positional keys: in a flattened array an unkeyed node argument and a scalar argument carry their index. */
  lemma PositionalKeys(args: seq<ChildArg>, token: nat, i: nat)
    requires |args| != 1 && ChildrenOf(args, token).Many? && i < |args|
    requires args[i].NodeArg? || args[i].ScalarArg?
    ensures WidthUpTo(args, i) < |ChildrenOf(args, token).nodes|
    ensures var e := ChildrenOf(args, token).nodes[WidthUpTo(args, i)];
            (args[i].NodeArg? && args[i].node.keyed ==> e == args[i].node)
            && (args[i].NodeArg? && !args[i].node.keyed ==> e == args[i].node.(key := Num(i)))
            && (args[i].ScalarArg? ==> e == Text(token + 1 + i, Num(i), false, args[i].text))
  {
    ManyHasTwoOrMore(args, token);
    FlattenedEntryAt(args, token, |args|, i);
    var p := WidthUpTo(args, i);
    var flat := FlatUpTo(args, |args|, token);
    assert flat[p] == flat[p..p + 1][0];
    assert flat[p..p + 1] == Entries(args[i], i, token);
  }
}
