/**
  * Rendering a node tree from scratch (`renderVNode`), as a function of the
  * user code in `Env`. Component expansion is not bounded by the tree, so
  * every renderer takes `fuel`: one unit per component whose root it asks
  * for, and `None` when it runs out.
  */
module Fresh {
  import opened Escape
  import opened Nodes
  import opened Markup

  /** `Object.assign({}, context, props)` over the first `n` fields: later fields win. */
  function Assign(ctx: Context, fields: seq<(string, Value)>, n: nat): Context
    requires n <= |fields|
  {
    if n == 0 then ctx else Assign(ctx, fields, n - 1)[fields[n - 1].0 := fields[n - 1].1]
  }

  /** The context seen below an UpdateContext node; null props leave it as it is. */
  function Merge(ctx: Context, props: Option<Obj>): Context {
    if props.None? then ctx else Assign(ctx, props.value.fields, |props.value.fields|)
  }

  /** `k` is in the merged context exactly when some field names it or the context had it. */
  lemma {:induction false} AssignDomain(ctx: Context, fields: seq<(string, Value)>, n: nat, k: string)
    requires n <= |fields|
    ensures k in Assign(ctx, fields, n) <==> k in ctx || exists i :: 0 <= i < n && fields[i].0 == k
  {
    if n > 0 {
      AssignDomain(ctx, fields, n - 1, k);
    }
  }

  /** The last field named `k` sets `k`. */
  lemma {:induction false} AssignLastWins(ctx: Context, fields: seq<(string, Value)>, n: nat, i: nat)
    requires i < n <= |fields|
    requires forall j :: i < j < n ==> fields[j].0 != fields[i].0
    ensures fields[i].0 in Assign(ctx, fields, n) && Assign(ctx, fields, n)[fields[i].0] == fields[i].1
  {
    if i < n - 1 {
      AssignLastWins(ctx, fields, n - 1, i);
    }
  }

  /** A key no field names keeps the context's entry. */
  lemma {:induction false} AssignKeeps(ctx: Context, fields: seq<(string, Value)>, n: nat, k: string)
    requires n <= |fields| && k in ctx
    requires forall i :: 0 <= i < n ==> fields[i].0 != k
    ensures k in Assign(ctx, fields, n) && Assign(ctx, fields, n)[k] == ctx[k]
  {
    if n > 0 {
      AssignKeeps(ctx, fields, n - 1, k);
    }
  }

  /** `renderVNode`: the markup of `b` in context `ctx`. */
  function Render(env: Env, fuel: nat, b: VNode, ctx: Context): Option<string>
    decreases fuel, b
  {
    match b
    case Text(_, _, _, content) => Some(Escaped(TextContent, content))
    case Element(_, _, _, tag, _, _, _, children) =>
      var inner :- RenderChildren(env, fuel, children, ctx);
      Some(RenderOpenElement(b) + inner + CloseTag(tag))
    case ClassComponent(_, _, _, cls, props) =>
      if fuel == 0 then None else Render(env, fuel - 1, env.classRender(env.pass, cls, props), ctx)
    case FunctionComponent(_, _, _, fn, props) =>
      if fuel == 0 then None else Render(env, fuel - 1, env.functionRender(env.pass, fn, props), ctx)
    case Connect(_, _, _, descriptor, props) =>
      if fuel == 0 then None
      else
        var selected := env.select(env.pass, descriptor, None, props, ctx);
        Render(env, fuel - 1, env.connectRender(env.pass, descriptor, selected.output), ctx)
    case UpdateContext(_, _, _, props, child) =>
      Render(env, fuel, child, Merge(ctx, props))
  }

  /** The markup between an element's open and close tags. */
  function RenderChildren(env: Env, fuel: nat, c: Children, ctx: Context): Option<string>
    decreases fuel, c
  {
    match c
    case NoChildren => Some("")
    case Basic(text) => Some(Escaped(TextContent, text))
    case Single(node) => Render(env, fuel, node, ctx)
    case Many(_, nodes) => RenderUpTo(env, fuel, nodes, |nodes|, ctx)
  }

  /** The markup of the first `n` nodes, one after the other. */
  function RenderUpTo(env: Env, fuel: nat, nodes: seq<VNode>, n: nat, ctx: Context): Option<string>
    requires n <= |nodes|
    decreases fuel, nodes, n
  {
    if n == 0 then Some("")
    else
      var init :- RenderUpTo(env, fuel, nodes, n - 1, ctx);
      var last :- Render(env, fuel, nodes[n - 1], ctx);
      Some(init + last)
  }

  /** A tree that renders within some fuel renders the same with more. */
  lemma {:induction false} RenderMonotone(env: Env, fuel: nat, more: nat, b: VNode, ctx: Context)
    requires fuel <= more && Render(env, fuel, b, ctx).Some?
    ensures Render(env, more, b, ctx) == Render(env, fuel, b, ctx)
    decreases fuel, b
  {
    match b
    case Text(_, _, _, _) =>
    case Element(_, _, _, _, _, _, _, children) =>
      RenderChildrenMonotone(env, fuel, more, children, ctx);
    case ClassComponent(_, _, _, cls, props) =>
      RenderMonotone(env, fuel - 1, more - 1, env.classRender(env.pass, cls, props), ctx);
    case FunctionComponent(_, _, _, fn, props) =>
      RenderMonotone(env, fuel - 1, more - 1, env.functionRender(env.pass, fn, props), ctx);
    case Connect(_, _, _, descriptor, props) =>
      var selected := env.select(env.pass, descriptor, None, props, ctx);
      RenderMonotone(env, fuel - 1, more - 1, env.connectRender(env.pass, descriptor, selected.output), ctx);
    case UpdateContext(_, _, _, props, child) =>
      RenderMonotone(env, fuel, more, child, Merge(ctx, props));
  }

  lemma {:induction false} RenderChildrenMonotone(env: Env, fuel: nat, more: nat, c: Children, ctx: Context)
    requires fuel <= more && RenderChildren(env, fuel, c, ctx).Some?
    ensures RenderChildren(env, more, c, ctx) == RenderChildren(env, fuel, c, ctx)
    decreases fuel, c
  {
    match c
    case NoChildren =>
    case Basic(_) =>
    case Single(node) => RenderMonotone(env, fuel, more, node, ctx);
    case Many(_, nodes) => RenderUpToMonotone(env, fuel, more, nodes, |nodes|, ctx);
  }

  lemma {:induction false} RenderUpToMonotone(env: Env, fuel: nat, more: nat, nodes: seq<VNode>, n: nat, ctx: Context)
    requires n <= |nodes|
    requires fuel <= more && RenderUpTo(env, fuel, nodes, n, ctx).Some?
    ensures RenderUpTo(env, more, nodes, n, ctx) == RenderUpTo(env, fuel, nodes, n, ctx)
    decreases fuel, nodes, n
  {
    if n > 0 {
      RenderUpToMonotone(env, fuel, more, nodes, n - 1, ctx);
      RenderMonotone(env, fuel, more, nodes[n - 1], ctx);
    }
  }

  /** When all `n` nodes render, so does every prefix of them. */
  lemma {:induction false} RenderUpToPrefix(env: Env, fuel: nat, nodes: seq<VNode>, i: nat, n: nat, ctx: Context)
    requires i <= n <= |nodes| && RenderUpTo(env, fuel, nodes, n, ctx).Some?
    ensures RenderUpTo(env, fuel, nodes, i, ctx).Some?
    decreases n
  {
    if i < n {
      RenderUpToPrefix(env, fuel, nodes, i, n - 1, ctx);
    }
  }
}
