/**
  * What patching promises, and where it departs from a fresh render: a
  * blueprint without Connect nodes replays exactly the markup it was built
  * from, an unchanged memoized component re-emits it, the keyed pass pairs
  * a new child only with an old child of the same key, and the two quirks
  * of `patchVNode` (an unchanged node emitted twice, unchanged children
  * dropped) shown on small trees.
  */
module PatchFacts {
  import opened Escape
  import opened Nodes
  import opened Markup
  import opened Fresh
  import opened Blueprints
  import opened Patch

  // ---------------------------------------------------------------------
  // Replaying a blueprint
  // ---------------------------------------------------------------------

  /** No component of the tree carries DeepConnect yet, as `createBlueprintNode` leaves it. */
  predicate Unmarked(a: Blueprint)
    decreases a
  {
    match a
    case BText(_, _, _) => true
    case BElement(_, _, _, kids, _, _) => KidsUnmarked(kids)
    case BClass(_, _, deep, _, root) => !deep && Unmarked(root)
    case BFunction(_, _, deep, root) => !deep && Unmarked(root)
    case BConnect(_, _, deep, _, root) => !deep && Unmarked(root)
    case BContext(_, _, _, root) => Unmarked(root)
  }

  predicate KidsUnmarked(k: BChildren)
    decreases k
  {
    match k
    case BNone => true
    case BBasic(_) => true
    case BOne(child) => Unmarked(child)
    case BMany(nodes) => AllUnmarked(nodes, |nodes|)
  }

  predicate AllUnmarked(nodes: seq<Blueprint>, n: nat)
    requires n <= |nodes|
    decreases nodes, n
  {
    n == 0 || (AllUnmarked(nodes, n - 1) && Unmarked(nodes[n - 1]))
  }

  lemma {:induction false} AllUnmarkedPrefix(a: seq<Blueprint>, b: seq<Blueprint>, n: nat)
    requires n <= |a| && n <= |b| && a[..n] == b[..n]
    ensures AllUnmarked(a, n) == AllUnmarked(b, n)
  {
    if n > 0 {
      assert a[n - 1] == a[..n][n - 1] == b[..n][n - 1] == b[n - 1];
      assert a[..n - 1] == a[..n][..n - 1];
      assert b[..n - 1] == b[..n][..n - 1];
      AllUnmarkedPrefix(a, b, n - 1);
    }
  }

  /** A freshly built blueprint has no DeepConnect marks: components start with `deep` false. */
  lemma {:induction false} BuildUnmarked(env: Env, fuel: nat, n: VNode, ctx: Context)
    requires Build(env, fuel, n, ctx).Some?
    ensures Unmarked(Build(env, fuel, n, ctx).value)
    decreases fuel, n
  {
    match n
    case Text(_, _, _, _) =>
    case Element(_, _, _, _, _, _, _, children) =>
      BuildChildrenUnmarked(env, fuel, children, ctx);
    case ClassComponent(_, _, _, cls, props) =>
      BuildUnmarked(env, fuel - 1, env.classRender(env.pass, cls, props), ctx);
    case FunctionComponent(_, _, _, fn, props) =>
      BuildUnmarked(env, fuel - 1, env.functionRender(env.pass, fn, props), ctx);
    case Connect(_, _, _, descriptor, props) =>
      var selected := env.select(env.pass, descriptor, None, props, ctx);
      BuildUnmarked(env, fuel - 1, env.connectRender(env.pass, descriptor, selected.output), ctx);
    case UpdateContext(_, _, _, props, child) =>
      BuildUnmarked(env, fuel, child, Merge(ctx, props));
  }

  lemma {:induction false} BuildChildrenUnmarked(env: Env, fuel: nat, c: Children, ctx: Context)
    requires BuildChildren(env, fuel, c, ctx).Some?
    ensures KidsUnmarked(BuildChildren(env, fuel, c, ctx).value)
    decreases fuel, c
  {
    match c
    case NoChildren =>
    case Basic(_) =>
    case Single(node) => BuildUnmarked(env, fuel, node, ctx);
    case Many(_, nodes) => BuildUpToUnmarked(env, fuel, nodes, |nodes|, ctx);
  }

  lemma {:induction false} BuildUpToUnmarked(env: Env, fuel: nat, nodes: seq<VNode>, n: nat, ctx: Context)
    requires n <= |nodes| && BuildUpTo(env, fuel, nodes, n, ctx).Some?
    ensures AllUnmarked(BuildUpTo(env, fuel, nodes, n, ctx).value, n)
    decreases fuel, nodes, n
  {
    if n > 0 {
      var init := BuildUpTo(env, fuel, nodes, n - 1, ctx).value;
      var all := BuildUpTo(env, fuel, nodes, n, ctx).value;
      BuildUpToUnmarked(env, fuel, nodes, n - 1, ctx);
      BuildUnmarked(env, fuel, nodes[n - 1], ctx);
      assert all == init + [Build(env, fuel, nodes[n - 1], ctx).value];
      assert all[..n - 1] == init[..n - 1];
      AllUnmarkedPrefix(init, all, n - 1);
    }
  }

  /** The replay of the first `n` blueprints depends only on those blueprints. */
  lemma {:induction false} CheckDeepUpToSamePrefix(env: Env, fuel: nat, a: seq<Blueprint>, b: seq<Blueprint>, n: nat, ctx: Context)
    requires n <= |a| && n <= |b| && a[..n] == b[..n]
    ensures CheckDeepUpTo(env, fuel, a, n, ctx) == CheckDeepUpTo(env, fuel, b, n, ctx)
  {
    if n > 0 {
      assert a[n - 1] == a[..n][n - 1] == b[..n][n - 1] == b[n - 1];
      assert a[..n - 1] == a[..n][..n - 1];
      assert b[..n - 1] == b[..n][..n - 1];
      CheckDeepUpToSamePrefix(env, fuel, a, b, n - 1, ctx);
    }
  }

  /**
    * `patchCheckDeepChanges` on an optimized tree without Connect nodes
    * emits the tree's whole static content: every component's open string
    * already holds its subtree's markup, so nothing below it is visited.
    */
  lemma {:induction false} StaticReplay(env: Env, fuel: nat, a: Blueprint, ctx: Context)
    requires Unmarked(a) && !HasConnect(a)
    ensures CheckDeep(env, fuel, Optimize(a).node, ctx) == Some(Content(a))
    decreases a
  {
    match a
    case BText(_, _, _) =>
    case BElement(_, _, _, kids, _, _) =>
      StaticReplayKids(env, fuel, kids, ctx);
    case BClass(_, _, _, _, root) =>
      OptimizeFragment(root);
      OptimizeConnected(root);
    case BFunction(_, _, _, root) =>
      OptimizeFragment(root);
      OptimizeConnected(root);
    case BContext(_, _, _, root) =>
      StaticReplay(env, fuel, root, ctx);
  }

  lemma {:induction false} StaticReplayKids(env: Env, fuel: nat, k: BChildren, ctx: Context)
    requires KidsUnmarked(k) && !KidsHaveConnect(k)
    ensures CheckDeepKids(env, fuel, OptimizeKids(k).kids, ctx) == Some(KidsContent(k))
    decreases k
  {
    match k
    case BNone =>
    case BBasic(_) =>
    case BOne(child) => StaticReplay(env, fuel, child, ctx);
    case BMany(nodes) => StaticReplayUpTo(env, fuel, nodes, |nodes|, ctx);
  }

  lemma {:induction false} StaticReplayUpTo(env: Env, fuel: nat, nodes: seq<Blueprint>, n: nat, ctx: Context)
    requires n <= |nodes| && AllUnmarked(nodes, n) && !SomeHaveConnect(nodes, n)
    ensures CheckDeepUpTo(env, fuel, OptimizeUpTo(nodes, n).nodes, n, ctx) == Some(ContentUpTo(nodes, n))
    decreases nodes, n
  {
    if n > 0 {
      var init := OptimizeUpTo(nodes, n - 1).nodes;
      var all := OptimizeUpTo(nodes, n).nodes;
      StaticReplayUpTo(env, fuel, nodes, n - 1, ctx);
      StaticReplay(env, fuel, nodes[n - 1], ctx);
      assert all == init + [Optimize(nodes[n - 1]).node];
      assert all[..n - 1] == init[..n - 1];
      CheckDeepUpToSamePrefix(env, fuel, init, all, n - 1, ctx);
    }
  }

  /**
    * `createBlueprint` followed by `patchCheckDeepChanges`, for a tree
    * without Connect nodes, replays the markup of a fresh render of the
    * node, whatever the fuel and context of the replay.
    */
  lemma CreateBlueprintReplays(env: Env, fuel: nat, more: nat, n: VNode, ctx: Context)
    requires CreateBlueprint(env, fuel, n).Some? && !HasConnect(CreateBlueprint(env, fuel, n).value)
    ensures Fresh.Render(env, fuel, n, map[]).Some?
    ensures CheckDeep(env, more, CreateBlueprint(env, fuel, n).value, ctx) == Fresh.Render(env, fuel, n, map[])
  {
    var built := Build(env, fuel, n, map[]).value;
    BuildRenders(env, fuel, n, map[]);
    BuildUnmarked(env, fuel, n, map[]);
    OptimizeConnected(built);
    StaticReplay(env, more, built, ctx);
  }

  /**
    * A function component re-rendered with the same props and no
    * `shouldUpdate` hook is not called again: the patch re-emits the
    * markup its first render produced, from the component's open string.
    */
  lemma UnchangedFunctionReplays(env: Env, fuel: nat, more: nat, n: VNode, b: VNode, ctx: Context)
    requires n.FunctionComponent? && b.FunctionComponent? && n != b
    requires b.fn == n.fn && b.key == n.key && b.keyed == n.keyed && b.props == n.props
    requires !env.functionHasShouldUpdate(b.fn)
    requires CreateBlueprint(env, fuel, n).Some? && !HasConnect(CreateBlueprint(env, fuel, n).value)
    ensures Fresh.Render(env, fuel, n, map[]).Some?
    ensures Patch.Patch(env, more, CreateBlueprint(env, fuel, n).value, b, ctx) == Fresh.Render(env, fuel, n, map[])
  {
    var built := Build(env, fuel, n, map[]).value;
    var a := CreateBlueprint(env, fuel, n).value;
    BuildRenders(env, fuel, n, map[]);
    assert built.BFunction? && !built.deep && built.open == "";
    OptimizeFragment(built.root);
    OptimizeConnected(built);
    OptimizeConnected(built.root);
    assert a == BFunction(n, Content(built.root), false, Optimize(built.root).node);
    CanSyncIff(a, b);
    assert Sync(env, more, a, b, ctx) == Some(Content(built.root));
  }

  // ---------------------------------------------------------------------
  // Pairing old and new children
  // ---------------------------------------------------------------------

  /** A node that cannot be synced with the blueprint is rendered from scratch, and nothing is replayed. */
  lemma NotSyncableRendersFresh(env: Env, fuel: nat, a: Blueprint, b: VNode, ctx: Context)
    requires !CanSync(a, b)
    ensures Patch.Patch(env, fuel, a, b, ctx) == Fresh.Render(env, fuel, b, ctx)
  {
    CanSyncIff(a, a.vnode);
    assert a.vnode != b;
    if Fresh.Render(env, fuel, b, ctx).Some? {
      var r := Fresh.Render(env, fuel, b, ctx).value;
      assert "" + r == r;
    }
  }

  /**
    * With the indices the constructor builds, every new child of the keyed
    * pass is paired only with an old child of the same key and Key flag.
    */
  lemma PartnerSound(a: Blueprint, nodes: seq<VNode>, j: nat)
    requires a.BElement? && a.children.BMany? && j < |nodes|
    requires a.keyIndex == KeyIndex(a.children.nodes) && a.posIndex == PosIndex(a.children.nodes)
    requires Partner(a, nodes, ScanLength(a.children.nodes, nodes, 0), j).Some?
    ensures Partner(a, nodes, ScanLength(a.children.nodes, nodes, 0), j).value in a.children.nodes
    ensures Partner(a, nodes, ScanLength(a.children.nodes, nodes, 0), j).value.vnode.key == nodes[j].key
    ensures Partner(a, nodes, ScanLength(a.children.nodes, nodes, 0), j).value.vnode.keyed == nodes[j].keyed
  {
    var kids := a.children.nodes;
    var m := ScanLength(kids, nodes, 0);
    if j < m {
      ScanLengthKeys(kids, nodes, 0);
      EqualKeysIff(kids[j], nodes[j]);
    } else {
      IndexSound(kids, |kids|, nodes[j].keyed, nodes[j].key);
    }
  }

  /**
    * After the scanned prefix, a new child whose key and Key flag some old
    * child shares is paired with the last such old child.
    */
  lemma PartnerComplete(a: Blueprint, nodes: seq<VNode>, j: nat, i: nat)
    requires a.BElement? && a.children.BMany? && j < |nodes|
    requires a.keyIndex == KeyIndex(a.children.nodes) && a.posIndex == PosIndex(a.children.nodes)
    requires ScanLength(a.children.nodes, nodes, 0) <= j
    requires LastWithKey(a.children.nodes, |a.children.nodes|, nodes[j].keyed, nodes[j].key, i)
    ensures Partner(a, nodes, ScanLength(a.children.nodes, nodes, 0), j) == Some(a.children.nodes[i])
  {
    IndexEntries(a.children.nodes, |a.children.nodes|, nodes[j].keyed, nodes[j].key);
  }

  /** After the scanned prefix, a new child whose key no old child of its kind has is rendered from scratch. */
  lemma UnmatchedRendersFresh(env: Env, fuel: nat, a: Blueprint, nodes: seq<VNode>, j: nat, ctx: Context)
    requires a.BElement? && a.children.BMany? && j < |nodes|
    requires a.keyIndex == KeyIndex(a.children.nodes) && a.posIndex == PosIndex(a.children.nodes)
    requires ScanLength(a.children.nodes, nodes, 0) <= j
    requires forall i :: 0 <= i < |a.children.nodes| ==>
               !(a.children.nodes[i].vnode.keyed == nodes[j].keyed && a.children.nodes[i].vnode.key == nodes[j].key)
    ensures Visit(env, fuel, a, nodes, ScanLength(a.children.nodes, nodes, 0), j, ctx) == Fresh.Render(env, fuel, nodes[j], ctx)
  {
    IndexEntries(a.children.nodes, |a.children.nodes|, nodes[j].keyed, nodes[j].key);
  }

  // ---------------------------------------------------------------------
  // Quirks of patchVNode
  // ---------------------------------------------------------------------

  /**
    * A text node patched against the blueprint built from that very node
    * is emitted twice: once by the replay for an unchanged node, once by
    * the sync that follows it.
    */
  lemma UnchangedTextTwice(env: Env, fuel: nat, t: VNode, ctx: Context)
    requires t.Text?
    ensures Build(env, fuel, t, ctx).Some? && Fresh.Render(env, fuel, t, ctx).Some?
    ensures Patch.Patch(env, fuel, Build(env, fuel, t, ctx).value, t, ctx).Some?
    ensures Patch.Patch(env, fuel, Build(env, fuel, t, ctx).value, t, ctx).value
            == Fresh.Render(env, fuel, t, ctx).value + Fresh.Render(env, fuel, t, ctx).value
  {
    CanSyncIff(Build(env, fuel, t, ctx).value, t);
  }

  /**
    * An element re-created with the same props, style, class name and
    * children value keeps only its tags: the children comparison skips
    * them, and nothing else emits them.
    */
  lemma UnchangedChildrenDropped(env: Env, fuel: nat, a: Blueprint, b: VNode, ctx: Context)
    requires a.BElement? && a.vnode.Element? && b.Element? && a.vnode != b
    requires a.vnode.key == b.key && a.vnode.keyed == b.keyed && a.vnode.tag == b.tag
    requires a.vnode.props == b.props && a.vnode.style == b.style && a.vnode.className == b.className
    requires a.vnode.children == b.children
    ensures Patch.Patch(env, fuel, a, b, ctx) == Some(a.open + a.close)
  {
    CanSyncIff(a, b);
    assert CanSync(a, b);
    assert Sync(env, fuel, a, b, ctx) == Some(a.open + "" + a.close);
    assert "" + (a.open + "" + a.close) == a.open + a.close;
  }

  // ---------------------------------------------------------------------
  // Identity of re-rendered roots
  // ---------------------------------------------------------------------

  /**
    * User code whose component function 7 answers every call with a new
    * `<div>x</div>` node, identified by the pass it runs in, and whose
    * `shouldUpdate` always says yes.
    */
  function AllocatingEnv(pass: nat): Env {
    Env(pass,
        (p, cls, props) => Text(0, Num(0), false, ""),
        cls => false,
        (i, o, n) => false,
        (p: nat, fn: nat, props: Option<Obj>) => Element(p + 1, Num(0), false, "div", None, None, None, Basic("x")),
        fn => true,
        (fn, o, n) => true,
        (p, d, prev, props, ctx) => SelectorData(0, Obj(0, []), Obj(0, [])),
        (p, d, out) => Text(0, Num(0), false, ""))
  }

  /** The root `AllocatingEnv` returns in pass `p`. */
  function DivRoot(p: nat): VNode {
    Element(p + 1, Num(0), false, "div", None, None, None, Basic("x"))
  }

  /** The blueprint of the first root. */
  function DivBlueprint(): Blueprint {
    BElement(DivRoot(0), "<div>", "</div>", BBasic("x"), NoIndex, NoIndex)
  }

  lemma DivBuilt()
    ensures Build(AllocatingEnv(0), 0, DivRoot(0), map[]) == Some(DivBlueprint())
  {
    assert RenderOpenElement(DivRoot(0)) == "<div>";
    assert CloseTag("div") == "</div>";
    assert Escaped(TextContent, "x") == "x";
  }

  lemma ComponentBuilt(n: VNode)
    requires n == FunctionComponent(100, Num(0), false, 7, None)
    ensures CreateBlueprint(AllocatingEnv(0), 1, n) == Some(BFunction(n, "<div>x</div>", false, DivBlueprint()))
  {
    DivBuilt();
    assert AllocatingEnv(0).functionRender(0, 7, None) == DivRoot(0);
    assert Build(AllocatingEnv(0), 1, n, map[]) == Some(BFunction(n, "", false, DivBlueprint()));
    assert Optimize(DivBlueprint()) == Optimized(DivBlueprint(), "<div>" + "x" + "</div>", false);
    assert "" + "<div>x</div>" == "<div>x</div>";
    assert Optimize(BFunction(n, "", false, DivBlueprint())).node == BFunction(n, "<div>x</div>", false, DivBlueprint());
  }

  /** The component is re-rendered in pass `p`, and its root patched against the cached one. */
  lemma ComponentReRendered(p: nat, n: VNode, next: VNode)
    requires n == FunctionComponent(100, Num(0), false, 7, None) && next == FunctionComponent(101, Num(0), false, 7, None)
    ensures Patch.Patch(AllocatingEnv(p), 1, BFunction(n, "<div>x</div>", false, DivBlueprint()), next, map[])
            == Patch.Patch(AllocatingEnv(p), 0, DivBlueprint(), DivRoot(p), map[])
  {
    var top := BFunction(n, "<div>x</div>", false, DivBlueprint());
    CanSyncIff(top, next);
    assert AllocatingEnv(p).functionRender(p, 7, None) == DivRoot(p);
    var r := Patch.Patch(AllocatingEnv(p), 0, DivBlueprint(), DivRoot(p), map[]);
    assert Sync(AllocatingEnv(p), 1, top, next, map[]) == r;
    if r.Some? {
      assert "" + r.value == r.value;
    }
  }

  /** The cached root replays its cached strings. */
  lemma DivReplayed()
    ensures CheckDeep(AllocatingEnv(0), 0, DivBlueprint(), map[]) == Some("<div>x</div>")
  {
    assert "<div>" + "x" + "</div>" == "<div>x</div>";
  }

  /** A root equal to the cached one by value syncs to its tags only. */
  lemma DivSynced(p: nat)
    ensures CanSync(DivBlueprint(), DivRoot(p))
    ensures Sync(AllocatingEnv(p), 0, DivBlueprint(), DivRoot(p), map[]) == Some("<div></div>")
  {
    CanSyncIff(DivBlueprint(), DivRoot(p));
    assert "<div>" + "" + "</div>" == "<div></div>";
  }

  /** A new root equal in all but identity: synced, and its unchanged children skipped. */
  lemma NewRootSynced()
    ensures Patch.Patch(AllocatingEnv(1), 0, DivBlueprint(), DivRoot(1), map[]) == Some("<div></div>")
  {
    DivSynced(1);
    assert DivBlueprint().vnode != DivRoot(1);
    assert "" + "<div></div>" == "<div></div>";
  }

  /** The cached root itself: replayed, then synced as well. */
  lemma SameRootTwice()
    ensures Patch.Patch(AllocatingEnv(0), 0, DivBlueprint(), DivRoot(0), map[]) == Some("<div>x</div><div></div>")
  {
    DivReplayed();
    DivSynced(0);
    assert "<div>x</div>" + "<div></div>" == "<div>x</div><div></div>";
  }

  /**
    * A component re-rendered in a later pass returns a new root: it is synced
    * against the cached one, and the children it shares by value are skipped.
    * Only when user code hands back the very root it returned before (here:
    * the same pass) is the cached tree emitted first.
    */
  lemma ReRenderedRootIsNewNode()
    ensures var built := CreateBlueprint(AllocatingEnv(0), 1, FunctionComponent(100, Num(0), false, 7, None));
            var next := FunctionComponent(101, Num(0), false, 7, None);
            built.Some?
            && Patch.Patch(AllocatingEnv(1), 1, built.value, next, map[]) == Some("<div></div>")
            && Patch.Patch(AllocatingEnv(0), 1, built.value, next, map[]) == Some("<div>x</div><div></div>")
  {
    var n := FunctionComponent(100, Num(0), false, 7, None);
    var next := FunctionComponent(101, Num(0), false, 7, None);
    ComponentBuilt(n);
    ComponentReRendered(1, n, next);
    ComponentReRendered(0, n, next);
    NewRootSynced();
    SameRootTwice();
  }
}
