/**
  * Blueprints: the cache tree a first render leaves behind. Each node keeps
  * the VNode it was built from, its precomputed open and close strings,
  * the blueprints of its children (or, for components, of the root the
  * component rendered), and for an element with an array of children two
  * indices of those children by key.
  *
  * `Build` is `createBlueprintNode`; `Optimize` is `optimizeBlueprint`,
  * which folds every static fragment into the enclosing component's open
  * string and marks the components that sit above a Connect node.
  */
module Blueprints {
  import opened Escape
  import opened Nodes
  import opened Markup
  import opened Fresh

  /**
    * A blueprint node. A text node keeps its raw content (its `_children`)
    * next to the escaped open string. `deep` is the DeepConnect flag; `instance`,
    * `selected` and `context` are the `_data` slot of a class component,
    * a Connect node and an UpdateContext node.
    */
  datatype Blueprint =
    | BText(vnode: VNode, content: string, open: string)
    | BElement(vnode: VNode, open: string, close: string, children: BChildren,
               keyIndex: Index, posIndex: Index)
    | BClass(vnode: VNode, open: string, deep: bool, instance: Instance, root: Blueprint)
    | BFunction(vnode: VNode, open: string, deep: bool, root: Blueprint)
    | BConnect(vnode: VNode, open: string, deep: bool, selected: SelectorData, root: Blueprint)
    | BContext(vnode: VNode, open: string, context: Context, root: Blueprint)

  /** A child index: null, or a map from key to child. */
  datatype Index = NoIndex | Index(entries: map<Key, Blueprint>)

  /** The `_children` slot of an element blueprint; `BBasic` holds the escaped text. */
  datatype BChildren =
    | BNone
    | BBasic(escaped: string)
    | BOne(child: Blueprint)
    | BMany(nodes: seq<Blueprint>)

  predicate IsComponent(a: Blueprint) {
    a.BClass? || a.BFunction? || a.BConnect?
  }

  /** The DeepConnect bit. */
  predicate DeepConnect(a: Blueprint) {
    IsComponent(a) && a.deep
  }

  /** The `_flags` word: the VNode's flags plus DeepConnect. */
  function BlueprintFlags(a: Blueprint): (f: Flags)
    ensures f & Syncable == FlagsOf(a.vnode) & Syncable
    ensures (f & FlagDeepConnect != 0) == DeepConnect(a)
  {
    FlagsOf(a.vnode) | (if DeepConnect(a) then FlagDeepConnect else 0)
  }

  // ---------------------------------------------------------------------
  // The two child indices built by the BlueprintNode constructor.
  // ---------------------------------------------------------------------

  /**
    * The index over the first `n` children whose Key flag equals `keyed`:
    * null until the first such child, then each child's key maps to it,
    * later children replacing earlier ones with the same key.
    */
  function IndexUpTo(kids: seq<Blueprint>, n: nat, keyed: bool): Index
    requires n <= |kids|
  {
    if n == 0 then NoIndex
    else
      var prev := IndexUpTo(kids, n - 1, keyed);
      var c := kids[n - 1];
      if c.vnode.keyed != keyed then prev
      else Index((if prev.NoIndex? then map[] else prev.entries)[c.vnode.key := c])
  }

  function KeyIndex(kids: seq<Blueprint>): Index {
    IndexUpTo(kids, |kids|, true)
  }

  function PosIndex(kids: seq<Blueprint>): Index {
    IndexUpTo(kids, |kids|, false)
  }

  /** Child `i` is the last of the first `n` children of its kind with key `k`. */
  predicate LastWithKey(kids: seq<Blueprint>, n: nat, keyed: bool, k: Key, i: nat)
    requires n <= |kids|
  {
    i < n && kids[i].vnode.keyed == keyed && kids[i].vnode.key == k &&
    forall j :: i < j < n ==> !(kids[j].vnode.keyed == keyed && kids[j].vnode.key == k)
  }

  /**
    * An index is null exactly when no child of its kind exists; it holds a
    * key exactly when a child of its kind has that key; and it maps the key
    * to the last such child.
    */
  lemma {:induction false} IndexEntries(kids: seq<Blueprint>, n: nat, keyed: bool, k: Key)
    requires n <= |kids|
    ensures IndexUpTo(kids, n, keyed).NoIndex? <==> forall i :: 0 <= i < n ==> kids[i].vnode.keyed != keyed
    ensures IndexUpTo(kids, n, keyed).Index? ==>
              (k in IndexUpTo(kids, n, keyed).entries <==>
               exists i :: 0 <= i < n && kids[i].vnode.keyed == keyed && kids[i].vnode.key == k)
    ensures forall i: nat :: LastWithKey(kids, n, keyed, k, i) ==>
              IndexUpTo(kids, n, keyed).Index? && k in IndexUpTo(kids, n, keyed).entries &&
              IndexUpTo(kids, n, keyed).entries[k] == kids[i]
  {
    if n > 0 {
      IndexEntries(kids, n - 1, keyed, k);
      forall i: nat | LastWithKey(kids, n, keyed, k, i)
        ensures IndexUpTo(kids, n, keyed).Index? && k in IndexUpTo(kids, n, keyed).entries &&
                IndexUpTo(kids, n, keyed).entries[k] == kids[i]
      {
        if i < n - 1 {
          assert LastWithKey(kids, n - 1, keyed, k, i);
        }
      }
    }
  }

  /** Every entry of an index is one of the children, of the index's kind, under its own key. */
  lemma {:induction false} IndexSound(kids: seq<Blueprint>, n: nat, keyed: bool, k: Key)
    requires n <= |kids|
    requires IndexUpTo(kids, n, keyed).Index? && k in IndexUpTo(kids, n, keyed).entries
    ensures exists i :: 0 <= i < n && kids[i] == IndexUpTo(kids, n, keyed).entries[k]
    ensures IndexUpTo(kids, n, keyed).entries[k].vnode.keyed == keyed
    ensures IndexUpTo(kids, n, keyed).entries[k].vnode.key == k
  {
    var prev := IndexUpTo(kids, n - 1, keyed);
    var c := kids[n - 1];
    if c.vnode.keyed == keyed && c.vnode.key == k {
      assert kids[n - 1] == IndexUpTo(kids, n, keyed).entries[k];
    } else {
      IndexSound(kids, n - 1, keyed, k);
    }
  }

  /** The constructor's loop over an array of children, filling the two indices. */
  method IndexChildren(kids: seq<Blueprint>) returns (keyIndex: Index,
                                                     posIndex: Index)
    ensures keyIndex == KeyIndex(kids) && posIndex == PosIndex(kids)
  {
    keyIndex := NoIndex;
    posIndex := NoIndex;
    for i := 0 to |kids|
      invariant keyIndex == IndexUpTo(kids, i, true)
      invariant posIndex == IndexUpTo(kids, i, false)
    {
      var c := kids[i];
      if c.vnode.keyed {
        if keyIndex == NoIndex {
          keyIndex := Index(map[]);
        }
        keyIndex := Index(keyIndex.entries[c.vnode.key := c]);
      } else {
        if posIndex == NoIndex {
          posIndex := Index(map[]);
        }
        posIndex := Index(posIndex.entries[c.vnode.key := c]);
      }
    }
  }

  /** `new BlueprintNode(...)` for an element: only an array of children is indexed. */
  function ElementBlueprint(v: VNode, open: string, close: string, kids: BChildren): Blueprint {
    if kids.BMany? then BElement(v, open, close, kids, KeyIndex(kids.nodes), PosIndex(kids.nodes))
    else BElement(v, open, close, kids, NoIndex, NoIndex)
  }

  // ---------------------------------------------------------------------
  // createBlueprintNode
  // ---------------------------------------------------------------------

  /** `createBlueprintNode(n, ctx)`; component roots are rendered by the user code in `env`. */
  function Build(env: Env, fuel: nat, n: VNode, ctx: Context): Option<Blueprint>
    decreases fuel, n
  {
    match n
    case Text(_, _, _, content) => Some(BText(n, content, Escaped(TextContent, content)))
    case Element(_, _, _, tag, _, _, _, children) =>
      var kids :- BuildChildren(env, fuel, children, ctx);
      Some(ElementBlueprint(n, RenderOpenElement(n), CloseTag(tag), kids))
    case ClassComponent(_, _, _, cls, props) =>
      if fuel == 0 then None
      else
        var root :- Build(env, fuel - 1, env.classRender(env.pass, cls, props), ctx);
        Some(BClass(n, "", false, Instance(cls, props), root))
    case FunctionComponent(_, _, _, fn, props) =>
      if fuel == 0 then None
      else
        var root :- Build(env, fuel - 1, env.functionRender(env.pass, fn, props), ctx);
        Some(BFunction(n, "", false, root))
    case Connect(_, _, _, descriptor, props) =>
      if fuel == 0 then None
      else
        var selected := env.select(env.pass, descriptor, None, props, ctx);
        var root :- Build(env, fuel - 1, env.connectRender(env.pass, descriptor, selected.output), ctx);
        Some(BConnect(n, "", false, selected, root))
    case UpdateContext(_, _, _, props, child) =>
      var inner := Merge(ctx, props);
      var root :- Build(env, fuel, child, inner);
      Some(BContext(n, "", inner, root))
  }

  function BuildChildren(env: Env, fuel: nat, c: Children, ctx: Context): Option<BChildren>
    decreases fuel, c
  {
    match c
    case NoChildren => Some(BNone)
    case Basic(text) => Some(BBasic(Escaped(TextContent, text)))
    case Single(node) =>
      var b :- Build(env, fuel, node, ctx);
      Some(BOne(b))
    case Many(_, nodes) =>
      var bs :- BuildUpTo(env, fuel, nodes, |nodes|, ctx);
      Some(BMany(bs))
  }

  function BuildUpTo(env: Env, fuel: nat, nodes: seq<VNode>, n: nat, ctx: Context): (r: Option<seq<Blueprint>>)
    requires n <= |nodes|
    ensures r.Some? ==> |r.value| == n
    decreases fuel, nodes, n
  {
    if n == 0 then Some([])
    else
      var init :- BuildUpTo(env, fuel, nodes, n - 1, ctx);
      var last :- Build(env, fuel, nodes[n - 1], ctx);
      Some(init + [last])
  }

  // ---------------------------------------------------------------------
  // The static content of a blueprint
  // ---------------------------------------------------------------------

  /** Every open, text and close string of the tree, in document order. */
  function Content(a: Blueprint): string
    decreases a
  {
    match a
    case BText(_, _, open) => open
    case BElement(_, open, close, kids, _, _) => open + KidsContent(kids) + close
    case BClass(_, open, _, _, root) => open + Content(root)
    case BFunction(_, open, _, root) => open + Content(root)
    case BConnect(_, open, _, _, root) => open + Content(root)
    case BContext(_, _, _, root) => Content(root)
  }

  function KidsContent(k: BChildren): string
    decreases k
  {
    match k
    case BNone => ""
    case BBasic(escaped) => escaped
    case BOne(child) => Content(child)
    case BMany(nodes) => ContentUpTo(nodes, |nodes|)
  }

  function ContentUpTo(nodes: seq<Blueprint>, n: nat): string
    requires n <= |nodes|
    decreases nodes, n
  {
    if n == 0 then "" else ContentUpTo(nodes, n - 1) + Content(nodes[n - 1])
  }

  /**
    * A blueprint stores what a fresh render produces: building succeeds
    * exactly when rendering does, and the tree's content is the markup.
    */
  lemma {:induction false} BuildRenders(env: Env, fuel: nat, n: VNode, ctx: Context)
    ensures Build(env, fuel, n, ctx).Some? <==> Fresh.Render(env, fuel, n, ctx).Some?
    ensures Build(env, fuel, n, ctx).Some? ==>
              Fresh.Render(env, fuel, n, ctx).value == Content(Build(env, fuel, n, ctx).value)
    decreases fuel, n
  {
    match n
    case Text(_, _, _, _) =>
    case Element(_, _, _, _, _, _, _, children) =>
      BuildChildrenRenders(env, fuel, children, ctx);
    case ClassComponent(_, _, _, cls, props) =>
      if fuel > 0 {
        BuildRenders(env, fuel - 1, env.classRender(env.pass, cls, props), ctx);
      }
    case FunctionComponent(_, _, _, fn, props) =>
      if fuel > 0 {
        BuildRenders(env, fuel - 1, env.functionRender(env.pass, fn, props), ctx);
      }
    case Connect(_, _, _, descriptor, props) =>
      if fuel > 0 {
        var selected := env.select(env.pass, descriptor, None, props, ctx);
        BuildRenders(env, fuel - 1, env.connectRender(env.pass, descriptor, selected.output), ctx);
      }
    case UpdateContext(_, _, _, props, child) =>
      BuildRenders(env, fuel, child, Merge(ctx, props));
  }

  lemma {:induction false} BuildChildrenRenders(env: Env, fuel: nat, c: Children, ctx: Context)
    ensures BuildChildren(env, fuel, c, ctx).Some? <==> RenderChildren(env, fuel, c, ctx).Some?
    ensures BuildChildren(env, fuel, c, ctx).Some? ==>
              RenderChildren(env, fuel, c, ctx).value == KidsContent(BuildChildren(env, fuel, c, ctx).value)
    decreases fuel, c
  {
    match c
    case NoChildren =>
    case Basic(_) =>
    case Single(node) => BuildRenders(env, fuel, node, ctx);
    case Many(_, nodes) => BuildUpToRenders(env, fuel, nodes, |nodes|, ctx);
  }

  lemma {:induction false} BuildUpToRenders(env: Env, fuel: nat, nodes: seq<VNode>, n: nat, ctx: Context)
    requires n <= |nodes|
    ensures BuildUpTo(env, fuel, nodes, n, ctx).Some? <==> RenderUpTo(env, fuel, nodes, n, ctx).Some?
    ensures BuildUpTo(env, fuel, nodes, n, ctx).Some? ==>
              RenderUpTo(env, fuel, nodes, n, ctx).value == ContentUpTo(BuildUpTo(env, fuel, nodes, n, ctx).value, n)
    decreases fuel, nodes, n
  {
    if n > 0 {
      BuildUpToRenders(env, fuel, nodes, n - 1, ctx);
      BuildRenders(env, fuel, nodes[n - 1], ctx);
      var r := BuildUpTo(env, fuel, nodes, n, ctx);
      if r.Some? {
        var init := BuildUpTo(env, fuel, nodes, n - 1, ctx).value;
        ContentUpToPrefix(init, r.value, n - 1);
      }
    }
  }

  /** The content of the first `n` nodes depends only on those nodes. */
  lemma {:induction false} ContentUpToPrefix(a: seq<Blueprint>, b: seq<Blueprint>, n: nat)
    requires n <= |a| && n <= |b| && a[..n] == b[..n]
    ensures ContentUpTo(a, n) == ContentUpTo(b, n)
  {
    if n > 0 {
      assert a[n - 1] == a[..n][n - 1] == b[..n][n - 1] == b[n - 1];
      assert a[..n - 1] == a[..n][..n - 1];
      assert b[..n - 1] == b[..n][..n - 1];
      ContentUpToPrefix(a, b, n - 1);
    }
  }

  // ---------------------------------------------------------------------
  // optimizeBlueprint
  // ---------------------------------------------------------------------

  /** A subtree holds a Connect node. */
  predicate HasConnect(a: Blueprint)
    decreases a
  {
    match a
    case BText(_, _, _) => false
    case BElement(_, _, _, kids, _, _) => KidsHaveConnect(kids)
    case BClass(_, _, _, _, root) => HasConnect(root)
    case BFunction(_, _, _, root) => HasConnect(root)
    case BConnect(_, _, _, _, _) => true
    case BContext(_, _, _, root) => HasConnect(root)
  }

  predicate KidsHaveConnect(k: BChildren)
    decreases k
  {
    match k
    case BNone => false
    case BBasic(_) => false
    case BOne(child) => HasConnect(child)
    case BMany(nodes) => SomeHaveConnect(nodes, |nodes|)
  }

  predicate SomeHaveConnect(nodes: seq<Blueprint>, n: nat)
    requires n <= |nodes|
    decreases nodes, n
  {
    n > 0 && (SomeHaveConnect(nodes, n - 1) || HasConnect(nodes[n - 1]))
  }

  /**
    * The outcome of optimizing a subtree: the updated subtree, the text it
    * appends to the enclosing component's open string, and the returned flag.
    */
  datatype Optimized = Optimized(node: Blueprint, fragment: string, connected: bool)
  datatype OptimizedKids = OptimizedKids(kids: BChildren, fragment: string, connected: bool)
  datatype OptimizedSeq = OptimizedSeq(nodes: seq<Blueprint>, fragment: string, connected: bool)

  /**
    * `optimizeBlueprint(a, componentNode)`. A component collects its
    * subtree's fragments into its own open string, passes that string on to
    * the enclosing component, and takes DeepConnect when its subtree held a
    * Connect node; UpdateContext nodes pass everything through.
    */
  function Optimize(a: Blueprint): Optimized
    decreases a
  {
    match a
    case BText(_, _, open) => Optimized(a, open, false)
    case BElement(v, open, close, kids, _, _) =>
      var k := OptimizeKids(kids);
      Optimized(ElementBlueprint(v, open, close, k.kids), open + k.fragment + close, k.connected)
    case BClass(v, open, deep, instance, root) =>
      var r := Optimize(root);
      Optimized(BClass(v, open + r.fragment, deep || r.connected, instance, r.node), open + r.fragment, r.connected)
    case BFunction(v, open, deep, root) =>
      var r := Optimize(root);
      Optimized(BFunction(v, open + r.fragment, deep || r.connected, r.node), open + r.fragment, r.connected)
    case BConnect(v, open, deep, selected, root) =>
      var r := Optimize(root);
      Optimized(BConnect(v, open + r.fragment, deep || r.connected, selected, r.node), open + r.fragment, true)
    case BContext(v, open, ctx, root) =>
      var r := Optimize(root);
      Optimized(BContext(v, open, ctx, r.node), r.fragment, r.connected)
  }

  function OptimizeKids(k: BChildren): OptimizedKids
    decreases k
  {
    match k
    case BNone => OptimizedKids(BNone, "", false)
    case BBasic(escaped) => OptimizedKids(k, escaped, false)
    case BOne(child) =>
      var r := Optimize(child);
      OptimizedKids(BOne(r.node), r.fragment, r.connected)
    case BMany(nodes) =>
      var r := OptimizeUpTo(nodes, |nodes|);
      OptimizedKids(BMany(r.nodes), r.fragment, r.connected)
  }

  /** The loop over an array of children: every child is optimized, in order. */
  function OptimizeUpTo(nodes: seq<Blueprint>, n: nat): (r: OptimizedSeq)
    requires n <= |nodes|
    ensures |r.nodes| == n
    decreases nodes, n
  {
    if n == 0 then OptimizedSeq([], "", false)
    else
      var init := OptimizeUpTo(nodes, n - 1);
      var last := Optimize(nodes[n - 1]);
      OptimizedSeq(init.nodes + [last.node], init.fragment + last.fragment, init.connected || last.connected)
  }

  /** `createBlueprint`: build in the empty context, then optimize. */
  function CreateBlueprint(env: Env, fuel: nat, n: VNode): Option<Blueprint> {
    var a :- Build(env, fuel, n, map[]);
    Some(Optimize(a).node)
  }

  /** The pass returns true exactly when the subtree holds a Connect node. */
  lemma {:induction false} OptimizeConnected(a: Blueprint)
    ensures Optimize(a).connected == HasConnect(a)
    ensures HasConnect(Optimize(a).node) == HasConnect(a)
    decreases a
  {
    match a
    case BText(_, _, _) =>
    case BElement(_, _, _, kids, _, _) => OptimizeKidsConnected(kids);
    case BClass(_, _, _, _, root) => OptimizeConnected(root);
    case BFunction(_, _, _, root) => OptimizeConnected(root);
    case BConnect(_, _, _, _, root) => OptimizeConnected(root);
    case BContext(_, _, _, root) => OptimizeConnected(root);
  }

  lemma {:induction false} OptimizeKidsConnected(k: BChildren)
    ensures OptimizeKids(k).connected == KidsHaveConnect(k)
    ensures KidsHaveConnect(OptimizeKids(k).kids) == KidsHaveConnect(k)
    decreases k
  {
    match k
    case BNone =>
    case BBasic(_) =>
    case BOne(child) => OptimizeConnected(child);
    case BMany(nodes) => OptimizeUpToConnected(nodes, |nodes|);
  }

  lemma {:induction false} OptimizeUpToConnected(nodes: seq<Blueprint>, n: nat)
    requires n <= |nodes|
    ensures OptimizeUpTo(nodes, n).connected == SomeHaveConnect(nodes, n)
    ensures SomeHaveConnect(OptimizeUpTo(nodes, n).nodes, n) == SomeHaveConnect(nodes, n)
    decreases nodes, n
  {
    if n > 0 {
      OptimizeUpToConnected(nodes, n - 1);
      OptimizeConnected(nodes[n - 1]);
      var init := OptimizeUpTo(nodes, n - 1).nodes;
      var all := OptimizeUpTo(nodes, n).nodes;
      SomeHaveConnectPrefix(init, all, n - 1);
    }
  }

  lemma {:induction false} SomeHaveConnectPrefix(a: seq<Blueprint>, b: seq<Blueprint>, n: nat)
    requires n <= |a| && n <= |b| && a[..n] == b[..n]
    ensures SomeHaveConnect(a, n) == SomeHaveConnect(b, n)
  {
    if n > 0 {
      assert a[n - 1] == a[..n][n - 1] == b[..n][n - 1] == b[n - 1];
      assert a[..n - 1] == a[..n][..n - 1];
      assert b[..n - 1] == b[..n][..n - 1];
      SomeHaveConnectPrefix(a, b, n - 1);
    }
  }

  /**
    * The fragment a subtree hands to the enclosing component is its whole
    * static content in document order: open strings, text and close strings.
    */
  lemma {:induction false} OptimizeFragment(a: Blueprint)
    ensures Optimize(a).fragment == Content(a)
    decreases a
  {
    match a
    case BText(_, _, _) =>
    case BElement(_, _, _, kids, _, _) => OptimizeKidsFragment(kids);
    case BClass(_, _, _, _, root) => OptimizeFragment(root);
    case BFunction(_, _, _, root) => OptimizeFragment(root);
    case BConnect(_, _, _, _, root) => OptimizeFragment(root);
    case BContext(_, _, _, root) => OptimizeFragment(root);
  }

  lemma {:induction false} OptimizeKidsFragment(k: BChildren)
    ensures OptimizeKids(k).fragment == KidsContent(k)
    decreases k
  {
    match k
    case BNone =>
    case BBasic(_) =>
    case BOne(child) => OptimizeFragment(child);
    case BMany(nodes) => OptimizeUpToFragment(nodes, |nodes|);
  }

  lemma {:induction false} OptimizeUpToFragment(nodes: seq<Blueprint>, n: nat)
    requires n <= |nodes|
    ensures OptimizeUpTo(nodes, n).fragment == ContentUpTo(nodes, n)
    decreases nodes, n
  {
    if n > 0 {
      OptimizeUpToFragment(nodes, n - 1);
      OptimizeFragment(nodes[n - 1]);
    }
  }

  /**
    * A component's open string grows by exactly the static content of the
    * subtree it rendered, and it takes DeepConnect exactly when that
    * subtree holds a Connect node (or already had it).
    */
  lemma ComponentCollectsContent(a: Blueprint)
    requires IsComponent(a)
    ensures Optimize(a).node.open == a.open + Content(a.root)
    ensures Optimize(a).node.deep == (a.deep || HasConnect(a.root))
  {
    OptimizeFragment(a.root);
    OptimizeConnected(a.root);
  }

  /** An UpdateContext node adds nothing of its own and passes its child's result through. */
  lemma ContextTransparent(a: Blueprint)
    requires a.BContext?
    ensures Optimize(a).fragment == Content(a.root)
    ensures Optimize(a).connected == HasConnect(a.root)
    ensures Optimize(a).node.open == a.open
  {
    OptimizeFragment(a.root);
    OptimizeConnected(a.root);
  }

  /** The pass is not idempotent: a second run appends the cached fragments again. */
  lemma OptimizeTwiceRepeats(v: VNode, t: VNode)
    ensures var once := Optimize(BFunction(v, "", false, BText(t, "x", "x"))).node;
            once.open == "x" && Optimize(once).node.open == "xx"
  {
  }
}
