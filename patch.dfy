/**
  * Re-rendering against a blueprint (`patchVNode` and its helpers). The
  * blueprint is the cache of an earlier render; where a part of the new
  * tree is known to be unchanged, its cached strings are emitted instead
  * of rendering it again.
  *
  * The patch functions recurse on the blueprint, so they need no fuel of
  * their own; they pass their fuel to the fresh renderer and spend one unit
  * each time they ask user code for a new component root. `None` means the
  * fuel ran out, or that a blueprint node does not have the kind of the
  * VNode it was built from (which `Build` never produces).
  *
  * The source threads a `syncFlags` word whose only bit, DirtyContext, is
  * never set (its one assignment is commented out), so the model leaves it
  * out and every test of that bit is false.
  */
module Patch {
  import opened Escape
  import opened Nodes
  import opened Markup
  import opened Fresh
  import opened Blueprints

  /** `vNodeCanSync`: same Syncable flag bits, same tag, same key. */
  predicate CanSync(a: Blueprint, b: VNode) {
    (BlueprintFlags(a) ^ FlagsOf(b)) & Syncable == 0 && TagOf(a.vnode) == TagOf(b) && a.vnode.key == b.key
  }

  /** `vNodeEqualKeys`: same key and same Key flag. */
  predicate EqualKeys(a: Blueprint, b: VNode) {
    a.vnode.key == b.key && (BlueprintFlags(a) ^ FlagsOf(b)) & FlagKey == 0
  }

  /** Both nodes are of the same kind. */
  predicate SameKind(x: VNode, y: VNode) {
    (x.Text? && y.Text?) || (x.Element? && y.Element?) ||
    (x.ClassComponent? && y.ClassComponent?) || (x.FunctionComponent? && y.FunctionComponent?) ||
    (x.Connect? && y.Connect?) || (x.UpdateContext? && y.UpdateContext?)
  }

  /** The Syncable bits agree exactly when the kinds and the Key flags agree. */
  lemma SyncableBits(x: VNode, y: VNode, deep: Flags)
    requires deep == 0 || deep == FlagDeepConnect
    ensures ((FlagsOf(x) | deep) ^ FlagsOf(y)) & Syncable == 0 <==> SameKind(x, y) && x.keyed == y.keyed
  {
  }

  /** `vNodeCanSync` in plain terms. */
  lemma CanSyncIff(a: Blueprint, b: VNode)
    ensures CanSync(a, b) <==>
              SameKind(a.vnode, b) && a.vnode.keyed == b.keyed && TagOf(a.vnode) == TagOf(b) && a.vnode.key == b.key
  {
    SyncableBits(a.vnode, b, if DeepConnect(a) then FlagDeepConnect else 0);
  }

  /** `vNodeEqualKeys` in plain terms: it ignores the kind of node. */
  lemma EqualKeysIff(a: Blueprint, b: VNode)
    ensures EqualKeys(a, b) <==> a.vnode.key == b.key && a.vnode.keyed == b.keyed
  {
  }

  /** Nodes that can be synced have equal keys. */
  lemma CanSyncHasEqualKeys(a: Blueprint, b: VNode)
    requires CanSync(a, b)
    ensures EqualKeys(a, b)
  {
    CanSyncIff(a, b);
    EqualKeysIff(a, b);
  }

  // ---------------------------------------------------------------------
  // patchVNode
  // ---------------------------------------------------------------------

  /**
    * `patchVNode(a, b)`: when `b` is the very node `a` was built from, the
    * cached tree is emitted first (and the function goes on); then either
    * the synced update of `a` or a fresh render of `b`.
    */
  function Patch(env: Env, fuel: nat, a: Blueprint, b: VNode, ctx: Context): Option<string>
    decreases a, 4
  {
    var repeated :- if a.vnode == b then CheckDeep(env, fuel, a, ctx) else Some("");
    var rest :- if CanSync(a, b) then Sync(env, fuel, a, b, ctx) else Fresh.Render(env, fuel, b, ctx);
    Some(repeated + rest)
  }

  /** The `vNodeCanSync` branch of `patchVNode`, by kind of node. */
  function Sync(env: Env, fuel: nat, a: Blueprint, b: VNode, ctx: Context): Option<string>
    decreases a, 3
  {
    match a
    case BText(_, content, open) =>
      if !b.Text? then None
      else Some(if content == b.content then open else Escaped(TextContent, b.content))
    case BElement(v, open, close, _, _, _) =>
      if !(v.Element? && b.Element?) then None
      else
        var start := if v.props != b.props || v.style != b.style || v.className != b.className
                     then RenderOpenElement(b) else open;
        var inner :- if v.children != b.children then PatchChildren(env, fuel, a, b, ctx) else Some("");
        Some(start + inner + close)
    case BClass(v, open, deep, instance, root) =>
      if !(v.ClassComponent? && b.ClassComponent?) then None
      else if ClassShouldUpdate(env, instance, v.props, b.props) then
        if fuel == 0 then None else Patch(env, fuel - 1, root, env.classRender(env.pass, b.cls, b.props), ctx)
      else if !deep then Some(open)
      else CheckDeep(env, fuel, root, ctx)
    case BConnect(_, _, _, selected, root) =>
      if !b.Connect? then None
      else
        var next := env.select(env.pass, b.descriptor, Some(selected), b.props, ctx);
        if next == selected then CheckDeep(env, fuel, root, ctx)
        else if fuel == 0 then None
        else Patch(env, fuel - 1, root, env.connectRender(env.pass, b.descriptor, next.output), ctx)
    case BContext(v, _, context, root) =>
      if !(v.UpdateContext? && b.UpdateContext?) then None
      else
        var inner := if v.props != b.props then Merge(ctx, b.props) else context;
        Patch(env, fuel, root, b.child, inner)
    case BFunction(v, open, deep, root) =>
      if !(v.FunctionComponent? && b.FunctionComponent?) then None
      else
        var update := if env.functionHasShouldUpdate(b.fn) then env.functionShouldUpdate(b.fn, v.props, b.props)
                      else v.props != b.props;
        if update then
          if fuel == 0 then None else Patch(env, fuel - 1, root, env.functionRender(env.pass, b.fn, b.props), ctx)
        else if !deep then Some(open)
        else CheckDeep(env, fuel, root, ctx)
  }

  // ---------------------------------------------------------------------
  // patchCheckDeepChanges
  // ---------------------------------------------------------------------

  /**
    * `patchCheckDeepChanges(a)`: replay the cached tree, descending only
    * into components marked DeepConnect and re-running every Connect
    * node's selector. UpdateContext nodes keep the outer context, because
    * DirtyContext is never set.
    */
  function CheckDeep(env: Env, fuel: nat, a: Blueprint, ctx: Context): Option<string>
    decreases a, 0
  {
    match a
    case BText(_, _, open) => Some(open)
    case BElement(_, open, close, kids, _, _) =>
      var inner :- CheckDeepKids(env, fuel, kids, ctx);
      Some(open + inner + close)
    case BClass(_, open, deep, _, root) =>
      if !deep then Some(open) else CheckDeep(env, fuel, root, ctx)
    case BConnect(v, open, deep, selected, root) =>
      if !v.Connect? then None
      else
        var next := env.select(env.pass, v.descriptor, Some(selected), v.props, ctx);
        if next == selected then
          if !deep then Some(open) else CheckDeep(env, fuel, root, ctx)
        else if fuel == 0 then None
        else Patch(env, fuel - 1, root, env.connectRender(env.pass, v.descriptor, next.output), ctx)
    case BContext(_, _, _, root) => CheckDeep(env, fuel, root, ctx)
    case BFunction(_, open, deep, root) =>
      if !deep then Some(open) else CheckDeep(env, fuel, root, ctx)
  }

  function CheckDeepKids(env: Env, fuel: nat, k: BChildren, ctx: Context): Option<string>
    decreases k, 0
  {
    match k
    case BNone => Some("")
    case BBasic(escaped) => Some(escaped)
    case BOne(child) => CheckDeep(env, fuel, child, ctx)
    case BMany(nodes) => CheckDeepUpTo(env, fuel, nodes, |nodes|, ctx)
  }

  function CheckDeepUpTo(env: Env, fuel: nat, nodes: seq<Blueprint>, n: nat, ctx: Context): Option<string>
    requires n <= |nodes|
    decreases nodes, n
  {
    if n == 0 then Some("")
    else
      var init :- CheckDeepUpTo(env, fuel, nodes, n - 1, ctx);
      var last :- CheckDeep(env, fuel, nodes[n - 1], ctx);
      Some(init + last)
  }

  // ---------------------------------------------------------------------
  // patchChildren
  // ---------------------------------------------------------------------

  /** `patchChildren`: the old children shape against the new one. */
  function PatchChildren(env: Env, fuel: nat, a: Blueprint, b: VNode, ctx: Context): Option<string>
    requires a.BElement? && b.Element?
    decreases a, 2
  {
    match a.children
    case BNone => RenderChildren(env, fuel, b.children, ctx)
    case BBasic(_) => RenderChildren(env, fuel, b.children, ctx)
    case BMany(kids) =>
      (match b.children
       case NoChildren => Some("")
       case Basic(text) => Some(Escaped(TextContent, text))
       case Many(_, nodes) => TrackUpTo(env, fuel, a, nodes, ScanLength(kids, nodes, 0), |nodes|, ctx)
       case Single(node) =>
         var i := FirstEqualKey(kids, node, 0);
         if i < |kids| then Patch(env, fuel, kids[i], node, ctx) else Fresh.Render(env, fuel, node, ctx))
    case BOne(child) =>
      match b.children
      case NoChildren => Some("")
      case Basic(text) => Some(Escaped(TextContent, text))
      case Many(_, nodes) => EachUpTo(env, fuel, a, nodes, |nodes|, ctx)
      case Single(node) => Patch(env, fuel, child, node, ctx)
  }

  /** The first old child from `i` on whose key equals `b`'s, or `|kids|` when there is none. */
  function FirstEqualKey(kids: seq<Blueprint>, b: VNode, i: nat): (r: nat)
    requires i <= |kids|
    ensures i <= r <= |kids|
    ensures r < |kids| ==> EqualKeys(kids[r], b)
    ensures forall j :: i <= j < r ==> !EqualKeys(kids[j], b)
    decreases |kids| - i
  {
    if i == |kids| then i
    else if EqualKeys(kids[i], b) then i
    else FirstEqualKey(kids, b, i + 1)
  }

  /** A single old child against new children: each new child with its key is patched, the rest rendered. */
  function EachUpTo(env: Env, fuel: nat, a: Blueprint, nodes: seq<VNode>, n: nat, ctx: Context): Option<string>
    requires a.BElement? && a.children.BOne? && n <= |nodes|
    decreases a, 1, n
  {
    if n == 0 then Some("")
    else
      var init :- EachUpTo(env, fuel, a, nodes, n - 1, ctx);
      var last :- VisitOne(env, fuel, a.children.child, nodes[n - 1], ctx);
      Some(init + last)
  }

  /** A new child against the one old child: patched when their keys agree, rendered afresh otherwise. */
  function VisitOne(env: Env, fuel: nat, child: Blueprint, b: VNode, ctx: Context): Option<string>
    decreases child, 5
  {
    if EqualKeys(child, b) then Patch(env, fuel, child, b, ctx) else Fresh.Render(env, fuel, b, ctx)
  }

  // ---------------------------------------------------------------------
  // patchChildrenTrackByKeys
  // ---------------------------------------------------------------------

  /** Where the forward scan from `i` stops: the first position whose keys differ, or the end of either array. */
  function ScanLength(kids: seq<Blueprint>, nodes: seq<VNode>, i: nat): (m: nat)
    requires i <= |kids| && i <= |nodes|
    ensures i <= m <= |kids| && m <= |nodes|
    decreases |nodes| - i
  {
    if i < |kids| && i < |nodes| && EqualKeys(kids[i], nodes[i]) then ScanLength(kids, nodes, i + 1) else i
  }

  /** From `i`, the scan covers exactly the positions whose keys agree, up to the first that does not. */
  lemma {:induction false} ScanLengthKeys(kids: seq<Blueprint>, nodes: seq<VNode>, i: nat)
    requires i <= |kids| && i <= |nodes|
    ensures forall j :: i <= j < ScanLength(kids, nodes, i) ==> EqualKeys(kids[j], nodes[j])
    ensures ScanLength(kids, nodes, i) < |kids| && ScanLength(kids, nodes, i) < |nodes| ==>
              !EqualKeys(kids[ScanLength(kids, nodes, i)], nodes[ScanLength(kids, nodes, i)])
    decreases |nodes| - i
  {
    if i < |kids| && i < |nodes| && EqualKeys(kids[i], nodes[i]) {
      ScanLengthKeys(kids, nodes, i + 1);
    }
  }

  /** The index lookup for a new child: the key index for a keyed child, the position index otherwise. */
  function Lookup(keyIndex: Index, posIndex: Index, b: VNode): Option<Blueprint> {
    var index := if b.keyed then keyIndex else posIndex;
    if index.Index? && b.key in index.entries then Some(index.entries[b.key]) else None
  }

  /**
    * The old child new child `j` is patched against: its forward-scan
    * partner when `j` is inside the scanned prefix, else the index hit.
    */
  function Partner(a: Blueprint, nodes: seq<VNode>, m: nat, j: nat): Option<Blueprint>
    requires a.BElement? && a.children.BMany? && m <= |a.children.nodes| && m <= |nodes| && j < |nodes|
  {
    if j < m then Some(a.children.nodes[j]) else Lookup(a.keyIndex, a.posIndex, nodes[j])
  }

  /** The output for new child `j`: patched against its partner, or rendered afresh. */
  function Visit(env: Env, fuel: nat, a: Blueprint, nodes: seq<VNode>, m: nat, j: nat, ctx: Context): Option<string>
    requires a.BElement? && a.children.BMany? && m <= |a.children.nodes| && m <= |nodes| && j < |nodes|
    decreases a, 0
  {
    if j < m then Patch(env, fuel, a.children.nodes[j], nodes[j], ctx)
    else
      var index := if nodes[j].keyed then a.keyIndex else a.posIndex;
      if index.Index? && nodes[j].key in index.entries then Patch(env, fuel, index.entries[nodes[j].key], nodes[j], ctx)
      else Fresh.Render(env, fuel, nodes[j], ctx)
  }

  /** A new child with a partner is patched against it; one without is rendered from scratch. */
  lemma VisitPartner(env: Env, fuel: nat, a: Blueprint, nodes: seq<VNode>, m: nat, j: nat, ctx: Context)
    requires a.BElement? && a.children.BMany? && m <= |a.children.nodes| && m <= |nodes| && j < |nodes|
    ensures Partner(a, nodes, m, j).None? ==> Visit(env, fuel, a, nodes, m, j, ctx) == Fresh.Render(env, fuel, nodes[j], ctx)
    ensures Partner(a, nodes, m, j).Some? ==>
              Visit(env, fuel, a, nodes, m, j, ctx) == Patch(env, fuel, Partner(a, nodes, m, j).value, nodes[j], ctx)
  {
  }

  /**
    * `patchChildrenTrackByKeys` over the first `n` new children: each is
    * visited once, in order, and the outputs follow one another.
    */
  function TrackUpTo(env: Env, fuel: nat, a: Blueprint, nodes: seq<VNode>, m: nat, n: nat, ctx: Context): Option<string>
    requires a.BElement? && a.children.BMany? && m <= |a.children.nodes| && m <= |nodes| && n <= |nodes|
    decreases a, 1, n
  {
    if n == 0 then Some("")
    else
      var init :- TrackUpTo(env, fuel, a, nodes, m, n - 1, ctx);
      var last :- Visit(env, fuel, a, nodes, m, n - 1, ctx);
      Some(init + last)
  }

  /** When all `n` children replay, so does every prefix of them. */
  lemma {:induction false} CheckDeepUpToPrefix(env: Env, fuel: nat, nodes: seq<Blueprint>, i: nat, n: nat, ctx: Context)
    requires i <= n <= |nodes| && CheckDeepUpTo(env, fuel, nodes, n, ctx).Some?
    ensures CheckDeepUpTo(env, fuel, nodes, i, ctx).Some?
    decreases n
  {
    if i < n {
      CheckDeepUpToPrefix(env, fuel, nodes, i, n - 1, ctx);
    }
  }

  lemma {:induction false} EachUpToPrefix(env: Env, fuel: nat, a: Blueprint, nodes: seq<VNode>, i: nat, n: nat, ctx: Context)
    requires a.BElement? && a.children.BOne?
    requires i <= n <= |nodes| && EachUpTo(env, fuel, a, nodes, n, ctx).Some?
    ensures EachUpTo(env, fuel, a, nodes, i, ctx).Some?
    decreases n
  {
    if i < n {
      EachUpToPrefix(env, fuel, a, nodes, i, n - 1, ctx);
    }
  }

  lemma {:induction false} TrackUpToPrefix(env: Env, fuel: nat, a: Blueprint, nodes: seq<VNode>, m: nat, i: nat, n: nat, ctx: Context)
    requires a.BElement? && a.children.BMany? && m <= |a.children.nodes| && m <= |nodes|
    requires i <= n <= |nodes| && TrackUpTo(env, fuel, a, nodes, m, n, ctx).Some?
    ensures TrackUpTo(env, fuel, a, nodes, m, i, ctx).Some?
    decreases n
  {
    if i < n {
      TrackUpToPrefix(env, fuel, a, nodes, m, i, n - 1, ctx);
    }
  }

  /** Child `j` adds exactly its own visit to the output of the children before it. */
  lemma TrackUpToStep(env: Env, fuel: nat, a: Blueprint, nodes: seq<VNode>, m: nat, j: nat, ctx: Context)
    requires a.BElement? && a.children.BMany? && m <= |a.children.nodes| && m <= |nodes| && j < |nodes|
    requires TrackUpTo(env, fuel, a, nodes, m, |nodes|, ctx).Some?
    ensures TrackUpTo(env, fuel, a, nodes, m, j, ctx).Some? && Visit(env, fuel, a, nodes, m, j, ctx).Some?
    ensures TrackUpTo(env, fuel, a, nodes, m, j + 1, ctx).value
            == TrackUpTo(env, fuel, a, nodes, m, j, ctx).value + Visit(env, fuel, a, nodes, m, j, ctx).value
  {
    TrackUpToPrefix(env, fuel, a, nodes, m, j + 1, |nodes|, ctx);
  }

  /** New child `j` adds exactly its own output to the output of the new children before it. */
  lemma EachUpToStep(env: Env, fuel: nat, a: Blueprint, nodes: seq<VNode>, j: nat, ctx: Context)
    requires a.BElement? && a.children.BOne? && j < |nodes|
    requires EachUpTo(env, fuel, a, nodes, |nodes|, ctx).Some?
    ensures EachUpTo(env, fuel, a, nodes, j, ctx).Some? && VisitOne(env, fuel, a.children.child, nodes[j], ctx).Some?
    ensures EachUpTo(env, fuel, a, nodes, j + 1, ctx).value
            == EachUpTo(env, fuel, a, nodes, j, ctx).value + VisitOne(env, fuel, a.children.child, nodes[j], ctx).value
  {
    EachUpToPrefix(env, fuel, a, nodes, j + 1, |nodes|, ctx);
  }

  /** The scan stops at the first position whose keys differ, or at the end of either sequence. */
  lemma ScanLengthStep(kids: seq<Blueprint>, nodes: seq<VNode>, i: nat)
    requires i <= ScanLength(kids, nodes, 0)
    ensures i < ScanLength(kids, nodes, 0) <==> i < |kids| && i < |nodes| && EqualKeys(kids[i], nodes[i])
  {
    ScanLengthKeys(kids, nodes, 0);
  }

  /** An element's sync output is its open tag, then its patched children when they changed, then its close tag. */
  lemma SyncElementParts(env: Env, fuel: nat, a: Blueprint, b: VNode, ctx: Context)
    requires a.BElement? && Sync(env, fuel, a, b, ctx).Some?
    ensures a.vnode.Element? && b.Element?
    ensures a.vnode.children != b.children ==> PatchChildren(env, fuel, a, b, ctx).Some?
    ensures Sync(env, fuel, a, b, ctx).value
            == (if a.vnode.props != b.props || a.vnode.style != b.style || a.vnode.className != b.className
                then RenderOpenElement(b) else a.open)
               + (if a.vnode.children != b.children then PatchChildren(env, fuel, a, b, ctx).value else "")
               + a.close
  {
  }
}
