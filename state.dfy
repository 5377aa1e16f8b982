/**
  * The renderer as the source runs it: a `RenderState` whose `result`
  * string every operation appends to. Each method is proved to append
  * exactly the output its specification function in `Fresh` or `Patch`
  * describes, given that the fuel suffices.
  */
module Renderer {
  import opened Escape
  import opened Nodes
  import opened Markup
  import opened Fresh
  import opened Blueprints
  import opened Patch

  /** The output of `render(state, node, blueprint?)`. */
  function Output(env: Env, fuel: nat, node: VNode, blueprint: Option<Blueprint>): Option<string> {
    if blueprint.None? then Fresh.Render(env, fuel, node, map[])
    else Patch.Patch(env, fuel, blueprint.value, node, map[])
  }

  lemma Append2(s: string, x: string, y: string)
    ensures s + x + y == s + (x + y)
  {
  }

  lemma Append3(s: string, x: string, y: string, z: string)
    ensures s + x + y + z == s + (x + y + z)
  {
  }

  /** The guard of the first loop of `patchChildrenTrackByKeys`: both sides have a child at `i` and their keys agree. */
  method KeysAgree(kids: seq<Blueprint>, nodes: seq<VNode>, i: nat) returns (r: bool)
    requires i <= ScanLength(kids, nodes, 0)
    ensures r <==> i < ScanLength(kids, nodes, 0)
  {
    ScanLengthStep(kids, nodes, i);
    r := i < |kids| && i < |nodes| && EqualKeys(kids[i], nodes[i]);
  }

  class RenderState {
    var result: string

    constructor()
      ensures result == ""
    {
      result := "";
    }

    /** `renderVNode`. */
    method RenderVNode(env: Env, fuel: nat, b: VNode, ctx: Context)
      requires Fresh.Render(env, fuel, b, ctx).Some?
      modifies this
      ensures result == old(result) + Fresh.Render(env, fuel, b, ctx).value
      decreases fuel, b, 2
    {
      match b {
        case Text(_, _, _, content) =>
          var s := EscapeText(content);
          result := result + s;
        case Element(_, _, _, _, _, _, _, _) =>
          RenderElement(env, fuel, b, ctx);
        case ClassComponent(_, _, _, cls, props) =>
          RenderVNode(env, fuel - 1, env.classRender(env.pass, cls, props), ctx);
        case FunctionComponent(_, _, _, fn, props) =>
          RenderVNode(env, fuel - 1, env.functionRender(env.pass, fn, props), ctx);
        case Connect(_, _, _, descriptor, props) =>
          var selected := env.select(env.pass, descriptor, None, props, ctx);
          RenderVNode(env, fuel - 1, env.connectRender(env.pass, descriptor, selected.output), ctx);
        case UpdateContext(_, _, _, props, child) =>
          RenderVNode(env, fuel, child, Merge(ctx, props));
      }
    }

    /** The element branch of `renderVNode`: open tag, children, close tag. */
    method RenderElement(env: Env, fuel: nat, b: VNode, ctx: Context)
      requires b.Element? && Fresh.Render(env, fuel, b, ctx).Some?
      modifies this
      ensures result == old(result) + Fresh.Render(env, fuel, b, ctx).value
      decreases fuel, b, 1
    {
      ghost var inner := RenderChildren(env, fuel, b.children, ctx).value;
      result := result + RenderOpenElement(b);
      RenderNew(env, fuel, b.children, ctx);
      result := result + CloseTag(b.tag);
      Append3(old(result), RenderOpenElement(b), inner, CloseTag(b.tag));
    }

    /** Children rendered from scratch: escaped text, one node, or each node of an array in turn. */
    method RenderNew(env: Env, fuel: nat, c: Children, ctx: Context)
      requires RenderChildren(env, fuel, c, ctx).Some?
      modifies this
      ensures result == old(result) + RenderChildren(env, fuel, c, ctx).value
      decreases fuel, c, 0
    {
      match c {
        case NoChildren =>
        case Basic(text) =>
          var s := EscapeText(text);
          result := result + s;
        case Many(_, nodes) =>
          RenderEach(env, fuel, nodes, ctx);
        case Single(node) =>
          RenderVNode(env, fuel, node, ctx);
      }
    }

    /** The loop `for (i = 0; i < children.length; i++) renderVNode(children[i])`. */
    method RenderEach(env: Env, fuel: nat, nodes: seq<VNode>, ctx: Context)
      requires RenderUpTo(env, fuel, nodes, |nodes|, ctx).Some?
      modifies this
      ensures result == old(result) + RenderUpTo(env, fuel, nodes, |nodes|, ctx).value
      decreases fuel, nodes, 0
    {
      for i := 0 to |nodes|
        invariant RenderUpTo(env, fuel, nodes, i, ctx).Some?
        invariant result == old(result) + RenderUpTo(env, fuel, nodes, i, ctx).value
      {
        RenderUpToPrefix(env, fuel, nodes, i + 1, |nodes|, ctx);
        ghost var before := result;
        RenderVNode(env, fuel, nodes[i], ctx);
        Append2(old(result), RenderUpTo(env, fuel, nodes, i, ctx).value, Fresh.Render(env, fuel, nodes[i], ctx).value);
      }
    }

    /** `patchCheckDeepChanges`. */
    method CheckDeepChanges(env: Env, fuel: nat, a: Blueprint, ctx: Context)
      requires CheckDeep(env, fuel, a, ctx).Some?
      modifies this
      ensures result == old(result) + CheckDeep(env, fuel, a, ctx).value
      decreases a, 1
    {
      match a {
        case BText(_, _, open) =>
          result := result + open;
        case BElement(_, open, close, kids, _, _) =>
          ghost var inner := CheckDeepKids(env, fuel, kids, ctx).value;
          result := result + open;
          match kids {
            case BNone =>
            case BBasic(escaped) =>
              result := result + escaped;
            case BOne(child) =>
              CheckDeepChanges(env, fuel, child, ctx);
            case BMany(nodes) =>
              CheckDeepEach(env, fuel, a, nodes, ctx);
          }
          result := result + close;
          Append3(old(result), open, inner, close);
        case BClass(_, open, deep, _, root) =>
          if !deep {
            result := result + open;
          } else {
            CheckDeepChanges(env, fuel, root, ctx);
          }
        case BConnect(v, open, deep, selected, root) =>
          var next := env.select(env.pass, v.descriptor, Some(selected), v.props, ctx);
          if next == selected {
            if !deep {
              result := result + open;
            } else {
              CheckDeepChanges(env, fuel, root, ctx);
            }
          } else {
            PatchVNode(env, fuel - 1, root, env.connectRender(env.pass, v.descriptor, next.output), ctx);
          }
        case BContext(_, _, _, root) =>
          CheckDeepChanges(env, fuel, root, ctx);
        case BFunction(_, open, deep, root) =>
          if !deep {
            result := result + open;
          } else {
            CheckDeepChanges(env, fuel, root, ctx);
          }
      }
    }

    /** The loop over an element's array of child blueprints in `patchCheckDeepChanges`. */
    method CheckDeepEach(env: Env, fuel: nat, a: Blueprint, nodes: seq<Blueprint>, ctx: Context)
      requires a.BElement? && a.children == BMany(nodes)
      requires CheckDeepUpTo(env, fuel, nodes, |nodes|, ctx).Some?
      modifies this
      ensures result == old(result) + CheckDeepUpTo(env, fuel, nodes, |nodes|, ctx).value
      decreases a, 0
    {
      for i := 0 to |nodes|
        invariant CheckDeepUpTo(env, fuel, nodes, i, ctx).Some?
        invariant result == old(result) + CheckDeepUpTo(env, fuel, nodes, i, ctx).value
      {
        CheckDeepUpToPrefix(env, fuel, nodes, i + 1, |nodes|, ctx);
        CheckDeepChanges(env, fuel, nodes[i], ctx);
        Append2(old(result), CheckDeepUpTo(env, fuel, nodes, i, ctx).value, CheckDeep(env, fuel, nodes[i], ctx).value);
      }
    }

    /** `patchVNode`. */
    method PatchVNode(env: Env, fuel: nat, a: Blueprint, b: VNode, ctx: Context)
      requires Patch.Patch(env, fuel, a, b, ctx).Some?
      modifies this
      ensures result == old(result) + Patch.Patch(env, fuel, a, b, ctx).value
      decreases a, 9
    {
      ghost var repeated := if a.vnode == b then CheckDeep(env, fuel, a, ctx).value else "";
      ghost var rest := if CanSync(a, b) then Sync(env, fuel, a, b, ctx).value else Fresh.Render(env, fuel, b, ctx).value;
      assert Patch.Patch(env, fuel, a, b, ctx).value == repeated + rest;
      if a.vnode == b {
        CheckDeepChanges(env, fuel, a, ctx);
      }
      assert result == old(result) + repeated;
      if CanSync(a, b) {
        SyncVNode(env, fuel, a, b, ctx);
      } else {
        RenderVNode(env, fuel, b, ctx);
      }
      Append2(old(result), repeated, rest);
    }

    /** The `vNodeCanSync` branch of `patchVNode`. */
    method SyncVNode(env: Env, fuel: nat, a: Blueprint, b: VNode, ctx: Context)
      requires Sync(env, fuel, a, b, ctx).Some?
      modifies this
      ensures result == old(result) + Sync(env, fuel, a, b, ctx).value
      decreases a, 8
    {
      match a {
        case BText(_, content, open) =>
          if content == b.content {
            result := result + open;
          } else {
            var s := EscapeText(b.content);
            result := result + s;
          }
        case BElement(_, _, _, _, _, _) =>
          SyncElement(env, fuel, a, b, ctx);
        case BClass(_, _, _, _, _) =>
          SyncClass(env, fuel, a, b, ctx);
        case BConnect(_, _, _, selected, root) =>
          var next := env.select(env.pass, b.descriptor, Some(selected), b.props, ctx);
          if next == selected {
            CheckDeepChanges(env, fuel, root, ctx);
          } else {
            PatchVNode(env, fuel - 1, root, env.connectRender(env.pass, b.descriptor, next.output), ctx);
          }
        case BContext(v, _, context, root) =>
          var inner := if v.props != b.props then Merge(ctx, b.props) else context;
          PatchVNode(env, fuel, root, b.child, inner);
        case BFunction(_, _, _, _) =>
          SyncFunction(env, fuel, a, b, ctx);
      }
    }

    /** An element against an element of the same tag and key. */
    method SyncElement(env: Env, fuel: nat, a: Blueprint, b: VNode, ctx: Context)
      requires a.BElement? && Sync(env, fuel, a, b, ctx).Some?
      modifies this
      ensures result == old(result) + Sync(env, fuel, a, b, ctx).value
      decreases a, 7
    {
      SyncElementParts(env, fuel, a, b, ctx);
      var v := a.vnode;
      var start := if v.props != b.props || v.style != b.style || v.className != b.className
                   then RenderOpenElement(b) else a.open;
      result := result + start;
      ghost var inner := if v.children != b.children then Patch.PatchChildren(env, fuel, a, b, ctx).value else "";
      if v.children != b.children {
        PatchChildren(env, fuel, a, b, ctx);
      }
      result := result + a.close;
      Append3(old(result), start, inner, a.close);
    }

    /** A class component: re-rendered when `shouldUpdate` says so, else replayed. */
    method SyncClass(env: Env, fuel: nat, a: Blueprint, b: VNode, ctx: Context)
      requires a.BClass? && Sync(env, fuel, a, b, ctx).Some?
      modifies this
      ensures result == old(result) + Sync(env, fuel, a, b, ctx).value
      decreases a, 7
    {
      if ClassShouldUpdate(env, a.instance, a.vnode.props, b.props) {
        var newRoot := env.classRender(env.pass, b.cls, b.props);
        PatchVNode(env, fuel - 1, a.root, newRoot, ctx);
      } else if !a.deep {
        result := result + a.open;
      } else {
        CheckDeepChanges(env, fuel, a.root, ctx);
      }
    }

    /** A component function: re-rendered when its props changed or its `shouldUpdate` says so, else replayed. */
    method SyncFunction(env: Env, fuel: nat, a: Blueprint, b: VNode, ctx: Context)
      requires a.BFunction? && Sync(env, fuel, a, b, ctx).Some?
      modifies this
      ensures result == old(result) + Sync(env, fuel, a, b, ctx).value
      decreases a, 7
    {
      var update := if env.functionHasShouldUpdate(b.fn) then env.functionShouldUpdate(b.fn, a.vnode.props, b.props)
                    else a.vnode.props != b.props;
      if update {
        PatchVNode(env, fuel - 1, a.root, env.functionRender(env.pass, b.fn, b.props), ctx);
      } else if !a.deep {
        result := result + a.open;
      } else {
        CheckDeepChanges(env, fuel, a.root, ctx);
      }
    }

    /** `patchChildren`: dispatch on the old and the new children shapes. */
    method PatchChildren(env: Env, fuel: nat, a: Blueprint, b: VNode, ctx: Context)
      requires a.BElement? && b.Element?
      requires Patch.PatchChildren(env, fuel, a, b, ctx).Some?
      modifies this
      ensures result == old(result) + Patch.PatchChildren(env, fuel, a, b, ctx).value
      decreases a, 6
    {
      match a.children {
        case BNone =>
          RenderNew(env, fuel, b.children, ctx);
        case BBasic(_) =>
          RenderNew(env, fuel, b.children, ctx);
        case BMany(_) =>
          PatchFromMany(env, fuel, a, b, ctx);
        case BOne(_) =>
          PatchFromOne(env, fuel, a, b, ctx);
      }
    }

    /** Old children in an array: escaped text, keyed reconciliation, or a search for the one new child's key. */
    method PatchFromMany(env: Env, fuel: nat, a: Blueprint, b: VNode, ctx: Context)
      requires a.BElement? && a.children.BMany? && b.Element?
      requires Patch.PatchChildren(env, fuel, a, b, ctx).Some?
      modifies this
      ensures result == old(result) + Patch.PatchChildren(env, fuel, a, b, ctx).value
      decreases a, 5
    {
      var kids := a.children.nodes;
      match b.children {
        case NoChildren =>
        case Basic(text) =>
          var s := EscapeText(text);
          result := result + s;
        case Many(_, nodes) =>
          TrackByKeys(env, fuel, a, nodes, ctx);
        case Single(node) =>
          var i := 0;
          while i < |kids| && !EqualKeys(kids[i], node)
            invariant i <= |kids|
            invariant forall j :: 0 <= j < i ==> !EqualKeys(kids[j], node)
          {
            i := i + 1;
          }
          assert i == FirstEqualKey(kids, node, 0);
          if i < |kids| {
            PatchVNode(env, fuel, kids[i], node, ctx);
          } else {
            RenderVNode(env, fuel, node, ctx);
          }
      }
    }

    /** One old child: escaped text, the child against each new child with its key, or against the one new child. */
    method PatchFromOne(env: Env, fuel: nat, a: Blueprint, b: VNode, ctx: Context)
      requires a.BElement? && a.children.BOne? && b.Element?
      requires Patch.PatchChildren(env, fuel, a, b, ctx).Some?
      modifies this
      ensures result == old(result) + Patch.PatchChildren(env, fuel, a, b, ctx).value
      decreases a, 5
    {
      var child := a.children.child;
      match b.children {
        case NoChildren =>
        case Basic(text) =>
          var s := EscapeText(text);
          result := result + s;
        case Many(_, nodes) =>
          PatchEachAgainst(env, fuel, a, nodes, ctx);
        case Single(node) =>
          PatchVNode(env, fuel, child, node, ctx);
      }
    }

    /** The loop patching the one old child against each new child with an equal key, rendering the others. */
    method PatchEachAgainst(env: Env, fuel: nat, a: Blueprint, nodes: seq<VNode>, ctx: Context)
      requires a.BElement? && a.children.BOne?
      requires EachUpTo(env, fuel, a, nodes, |nodes|, ctx).Some?
      modifies this
      ensures result == old(result) + EachUpTo(env, fuel, a, nodes, |nodes|, ctx).value
      decreases a, 4
    {
      for i := 0 to |nodes|
        invariant EachUpTo(env, fuel, a, nodes, i, ctx).Some?
        invariant result == old(result) + EachUpTo(env, fuel, a, nodes, i, ctx).value
      {
        EachUpToStep(env, fuel, a, nodes, i, ctx);
        ghost var t := EachUpTo(env, fuel, a, nodes, i, ctx).value;
        PatchOrRender(env, fuel, a.children.child, nodes[i], ctx);
        ghost var v := VisitOne(env, fuel, a.children.child, nodes[i], ctx).value;
        assert result == old(result) + t + v;
        Append2(old(result), t, v);
      }
    }

    /** The body of that loop: one new child against the old child. */
    method PatchOrRender(env: Env, fuel: nat, child: Blueprint, b: VNode, ctx: Context)
      requires VisitOne(env, fuel, child, b, ctx).Some?
      modifies this
      ensures result == old(result) + VisitOne(env, fuel, child, b, ctx).value
      decreases child, 10
    {
      if EqualKeys(child, b) {
        PatchVNode(env, fuel, child, b, ctx);
      } else {
        RenderVNode(env, fuel, b, ctx);
      }
    }

    /**
      * `patchChildrenTrackByKeys`: patch the common prefix of equal keys
      * pairwise, then look every remaining new child up in the old
      * children's key or position index.
      */
    method TrackByKeys(env: Env, fuel: nat, a: Blueprint, nodes: seq<VNode>, ctx: Context)
      requires a.BElement? && a.children.BMany?
      requires TrackUpTo(env, fuel, a, nodes, ScanLength(a.children.nodes, nodes, 0), |nodes|, ctx).Some?
      modifies this
      ensures result == old(result) + TrackUpTo(env, fuel, a, nodes, ScanLength(a.children.nodes, nodes, 0), |nodes|, ctx).value
      decreases a, 4
    {
      var m := ScanLength(a.children.nodes, nodes, 0);
      var start := PatchCommonPrefix(env, fuel, a, nodes, m, ctx);
      PatchRemaining(env, fuel, a, nodes, m, start, old(result), ctx);
    }

    /** The first loop of `patchChildrenTrackByKeys`: old and new children in step while their keys agree. */
    method PatchCommonPrefix(env: Env, fuel: nat, a: Blueprint, nodes: seq<VNode>, m: nat, ctx: Context) returns (start: nat)
      requires a.BElement? && a.children.BMany? && m == ScanLength(a.children.nodes, nodes, 0)
      requires TrackUpTo(env, fuel, a, nodes, m, |nodes|, ctx).Some?
      modifies this
      ensures start == m
      ensures TrackUpTo(env, fuel, a, nodes, m, m, ctx).Some?
      ensures result == old(result) + TrackUpTo(env, fuel, a, nodes, m, m, ctx).value
      decreases a, 3
    {
      var aStart := 0;
      start := 0;
      var agree := KeysAgree(a.children.nodes, nodes, 0);
      while agree
        invariant aStart == start <= m && agree == (start < m)
        invariant TrackUpTo(env, fuel, a, nodes, m, start, ctx).Some?
        invariant result == old(result) + TrackUpTo(env, fuel, a, nodes, m, start, ctx).value
        decreases m - start
      {
        TrackUpToStep(env, fuel, a, nodes, m, start, ctx);
        ghost var t := TrackUpTo(env, fuel, a, nodes, m, start, ctx).value;
        VisitNext(env, fuel, a, nodes, m, start, ctx);
        ghost var v := Visit(env, fuel, a, nodes, m, start, ctx).value;
        assert result == old(result) + t + v;
        Append2(old(result), t, v);
        aStart := aStart + 1;
        start := start + 1;
        agree := KeysAgree(a.children.nodes, nodes, aStart);
      }
    }

    /** The second loop of `patchChildrenTrackByKeys`: every remaining new child through the indices. */
    method PatchRemaining(env: Env, fuel: nat, a: Blueprint, nodes: seq<VNode>, m: nat, start: nat, ghost done: string, ctx: Context)
      requires a.BElement? && a.children.BMany? && m <= |a.children.nodes| && m <= start <= |nodes|
      requires TrackUpTo(env, fuel, a, nodes, m, |nodes|, ctx).Some?
      requires TrackUpTo(env, fuel, a, nodes, m, start, ctx).Some?
      requires result == done + TrackUpTo(env, fuel, a, nodes, m, start, ctx).value
      modifies this
      ensures result == done + TrackUpTo(env, fuel, a, nodes, m, |nodes|, ctx).value
      decreases a, 3
    {
      var bStart := start;
      while bStart < |nodes|
        invariant m <= bStart <= |nodes|
        invariant TrackUpTo(env, fuel, a, nodes, m, bStart, ctx).Some?
        invariant result == done + TrackUpTo(env, fuel, a, nodes, m, bStart, ctx).value
      {
        TrackUpToStep(env, fuel, a, nodes, m, bStart, ctx);
        ghost var t := TrackUpTo(env, fuel, a, nodes, m, bStart, ctx).value;
        VisitNext(env, fuel, a, nodes, m, bStart, ctx);
        ghost var v := Visit(env, fuel, a, nodes, m, bStart, ctx).value;
        assert result == done + t + v;
        Append2(done, t, v);
        bStart := bStart + 1;
      }
    }

    /**
      * One step of either loop of `patchChildrenTrackByKeys`: new child `j`
      * against its partner, or rendered afresh.
      */
    method VisitNext(env: Env, fuel: nat, a: Blueprint, nodes: seq<VNode>, m: nat, j: nat, ctx: Context)
      requires a.BElement? && a.children.BMany? && m <= |a.children.nodes| && m <= |nodes| && j < |nodes|
      requires Visit(env, fuel, a, nodes, m, j, ctx).Some?
      modifies this
      ensures result == old(result) + Visit(env, fuel, a, nodes, m, j, ctx).value
      decreases a, 2
    {
      if j < m {
        PatchVNode(env, fuel, a.children.nodes[j], nodes[j], ctx);
      } else {
        var bNode := nodes[j];
        var index := if bNode.keyed then a.keyIndex else a.posIndex;
        if index.Index? && bNode.key in index.entries {
          PatchVNode(env, fuel, index.entries[bNode.key], bNode, ctx);
        } else {
          RenderVNode(env, fuel, bNode, ctx);
        }
      }
    }
  }

  /** `render(state, node, blueprint?)`: a fresh render, or a patch against the blueprint, in the empty context. */
  method Render(state: RenderState, env: Env, fuel: nat, node: VNode, blueprint: Option<Blueprint>)
    requires Output(env, fuel, node, blueprint).Some?
    modifies state
    ensures state.result == old(state.result) + Output(env, fuel, node, blueprint).value
  {
    if blueprint.None? {
      state.RenderVNode(env, fuel, node, map[]);
    } else {
      state.PatchVNode(env, fuel, blueprint.value, node, map[]);
    }
  }
}
