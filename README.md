# ivi-ssr-poc renderer, modelled in Dafny

The model covers the server-side renderer in `src/vdom.ts`. User code builds a tree of virtual nodes (`VNode`):
- text nodes;
- elements with props, a style object, a class name and children;
- class and function components;
- Connect nodes (a selector plus a render function);
- UpdateContext nodes that extend the ambient context.

`renderVNode` turns the tree into an HTML string. It appends the pieces to `state.result`, escaping text and attribute values as it goes.

`createBlueprint` keeps a cache of one render: a tree of `BlueprintNode`s holding each node's precomputed open and close strings. For an element with an array of children, the cache also holds two indices of those children by key. `optimizeBlueprint` then folds every static fragment under a component into that component's open string. It marks the components that sit above a Connect node as DeepConnect.

`patchVNode` renders a new tree against such a blueprint. It replays cached strings where the new tree is known to be unchanged. It re-runs selectors of Connect nodes. It falls back to a fresh render where nodes cannot be synced.

## Layout

Each file is one module. Modules import only earlier ones.

| file | module | what it holds |
|---|---|---|
| `escape.dfy` | `Escape` | `escapeText` and `escapeAttributeValue`, the intended escape and the loop as written |
| `nodes.dfy` | `Nodes` | the node values, the flag word, the `$t`/`$h`/`$c`/`$connect`/`$context` builders, the setters, `children(...)` |
| `markup.dfy` | `Markup` | attribute names, props and style markup, open and close tags, the close-tag cache |
| `fresh.dfy` | `Fresh` | `renderVNode` as a function of the user code |
| `blueprint.dfy` | `Blueprints` | blueprint nodes, their child indices, `createBlueprintNode`, `optimizeBlueprint`, `createBlueprint` |
| `patch.dfy` | `Patch` | `vNodeCanSync`, `vNodeEqualKeys`, `patchVNode`, `patchCheckDeepChanges`, `patchChildren`, `patchChildrenTrackByKeys` as functions |
| `state.dfy` | `Renderer` | a `RenderState` class whose methods append to `result`, each proved against the function above, and `render` |
| `patch_facts.dfy` | `PatchFacts` | what patching promises: static replays, unsyncable nodes rendered afresh, the keyed pass, the kept quirks |

### How the model represents the source

**User code.** Component classes and functions, `shouldUpdate` hooks and connect descriptors are opaque code. They become the fields of an `Env` value that every operation takes as a parameter. They are looked up by the identity token of the component or descriptor.

**Object identity.** Where the source compares objects with `===`, the model gives each object an identity token (`id`, `arrayId`). Records with equal fields are treated as one object. One object can also become several records that share its token: `children()` re-keys a node it places, and the setters return the changed node. The model then compares whole records, so a node re-keyed after a blueprint was built counts as a different object.

**Render passes.** User code allocates the nodes and selector results it returns, unless it caches them. So `Env` carries the `pass` it runs in (`createBlueprint`, or one `render` call), and the user functions that return nodes or selector results take it. Called again in a later pass with the same inputs, they may hand back a node with a new identity, as a fresh `fn(props)` does, or the cached one. `PatchFacts.ReRenderedRootIsNewNode` shows both outcomes.

**Flags.** The flag word is derived from a node's variant and its children shape. Its constants are those of `VNodeFlags`.

**Fuel.** Component expansion is not bounded by the tree, so the renderers take `fuel`. They spend one unit for each component root they ask user code for, and yield `None` when the fuel runs out. The patch functions recurse on the blueprint and pass their fuel on.

**Methods and functions.** The operations that append to `state.result` are methods of `Renderer.RenderState`. Each method's `ensures` says it appends exactly the string its specification function yields.

**Kept quirks.** The model keeps four behaviours of the code as written, each stated as a lemma:
- `patchVNode` emits the whole cached tree first when the new node is the very node the blueprint was built from. It then goes on to emit the synced output as well (`PatchFacts.UnchangedTextTwice`).
- An element whose children reference did not change gets no children in its patched output (`PatchFacts.UnchangedChildrenDropped`).
- A `false` boolean prop is rendered as `name="false"` (`Markup.BooleanAttributes`).
- The class name is inserted without escaping (`Markup.ClassNameNotEscaped`).

**Escaper bug.** The one behaviour corrected is the escapers' handling of a leading special character (see Findings).

## Model

| member | source | states |
|---|---|---|
| Escape.Escaped | src/vdom.ts:5-76 | the intended escape: every special character replaced by its entity, every other kept; its meaning is stated by `Escape.UnescapeEscaped`, `Escape.EscapedIsSafe` and `Escape.EscapedUnchangedIff` |
| Escape.AsWritten | src/vdom.ts:25-38 | the escape as the loop computes it, with the whole input kept before a leading entity; related to `Escape.Escaped` by `Escape.AsWrittenAgreesIff` |
| Escape.Replacement | src/vdom.ts:12-24 | a character is replaced exactly when it is special for the escaping (`&`, `<`, `>` for text; `"`, `&` for attribute values), and every replacement is an entity starting with `&` |
| Escape.EscapedAppend | src/vdom.ts:5-41 | escaping a concatenation is the concatenation of the two escapes |
| Escape.EscapedLength | src/vdom.ts:5-41 | the escape is never shorter than the input, and is longer when the input holds a special character |
| Escape.EscapedUnchangedIff | src/vdom.ts:5-41 | the escape equals the input exactly when the input holds no special character |
| Escape.NoSpecialUnchanged | src/vdom.ts:35-38 | text with nothing to escape is returned as it is |
| Escape.EscapedIsSafe | src/vdom.ts:5-76 | escaped text holds no `<` or `>`; an escaped attribute value holds no `"` |
| Escape.UnescapeEscaped | src/vdom.ts:5-76 | decoding the entities of an escape gives back the input |
| Escape.EscapedInjective | src/vdom.ts:5-76 | different inputs never escape to the same string |
| Escape.TextEscapingExample | src/vdom.ts:13-21 | `<&>` escapes to `&lt;&amp;&gt;` |
| Escape.TextEscapingKeepsQuotes | src/vdom.ts:12-24 | text escaping leaves `"` alone |
| Escape.AttributeEscapingExample | src/vdom.ts:50-56 | `"&` escapes to `&quot;&amp;` in an attribute value |
| Escape.AttributeEscapingKeepsBrackets | src/vdom.ts:50-59 | attribute escaping leaves `<` and `>` alone |
| Escape.SpliceAsWritten | src/vdom.ts:5-41 | the escape loop as written computes `AsWritten` |
| Escape.AsWrittenAgreesIff | src/vdom.ts:25-38 | the loop as written gives the intended escape exactly when the input is empty or does not start with a special character |
| Escape.LeadingSpecialRepeatsInput | src/vdom.ts:25-32 | as written, `&` becomes `&&amp;` and `"x` becomes `"x&quot;x` |
| Escape.Splice | src/vdom.ts:5-41 | the corrected loop computes the intended escape |
| Escape.SpliceAt | src/vdom.ts:25-33 | one special character: the run before it is copied and its entity appended |
| Escape.SpliceRest | src/vdom.ts:35-38 | the trailing run is copied and the result is the whole escape |
| Escape.EscapeText | src/vdom.ts:5-41 | the result is the text escape of the input, holds no `<` or `>`, and equals the input when nothing needs escaping |
| Escape.EscapeAttributeValue | src/vdom.ts:43-76 | the result is the attribute escape of the input, holds no `"`, and equals the input when nothing needs escaping |
| Nodes.ClassShouldUpdate | src/vdom.ts:127-129 | without an override, a class component updates exactly when its props changed by reference |
| Nodes.FlagsOf | src/vdom.ts:90-104 | the shape bits of the flag word are those of the element's children; the Key bit is set exactly when `key()` was called |
| Nodes.ShapeBitsExclusive | src/vdom.ts:238-331 | at most one of ChildrenBasic, ChildrenVNode and ChildrenArray is ever set |
| Nodes.TextNode | src/vdom.ts:977-979 | `$t` makes a Text node with key 0, no tag, no props and the given content |
| Nodes.ElementNode | src/vdom.ts:981-988 | `$h` makes an Element with key 0, the tag and class name given, and no props, style or children |
| Nodes.ComponentNode | src/vdom.ts:990-997 | `$c` makes a class or function component with key 0, the component as tag and the props given |
| Nodes.ConnectNode | src/vdom.ts:999-1010 | `$connect` makes a node flagged ComponentFunction and Connect, with the descriptor as tag |
| Nodes.ContextNode | src/vdom.ts:1012-1019 | `$context` makes a node flagged ComponentFunction and UpdateContext, with the context as props and the child as its only node |
| Nodes.WithKey | src/vdom.ts:217-221 | `key()` sets the Key flag and the key; writing the old key and Key bit back gives the original node, so no other field changes |
| Nodes.WithClassName | src/vdom.ts:223-226 | `className()` sets an element's class name; writing the old class name back gives the original node, so no other field changes; on any other kind of node it changes nothing |
| Nodes.WithStyle | src/vdom.ts:228-231 | `style()` sets an element's style; writing the old style back gives the original node, so no other field changes; on any other kind of node it changes nothing |
| Nodes.WithProps | src/vdom.ts:233-236 | `props()` sets the props and keeps the flags, tag, key and identity; writing the old props back gives the original node, so no other field changes |
| Nodes.SettersWriteOneSlot | src/vdom.ts:217-236 | each setter writes one slot: a second call overrides the first, writing the old value back restores the node, and setters of different slots commute |
| Nodes.MakeSelectorData | src/vdom.ts:1045-1050 | the output defaults to the input |
| Nodes.ChildrenOf | src/vdom.ts:238-331 | the children `children(...)` stores: a lone argument as it is (arrays of one entry unwrapped, empty ones dropped), a single entry unwrapped, anything more flattened one level; stated by `Nodes.NoChildrenIff`, `Nodes.ManyHasTwoOrMore`, `Nodes.OneEntryArrayUnwrapped` and `Nodes.PositionalKeys` |
| Nodes.CountUpTo | src/vdom.ts:269-284 | the count of contributing arguments never exceeds the count of entries, and is zero exactly when the count of entries is zero |
| Nodes.CountBelowWidth | src/vdom.ts:269-284 | no argument contributes exactly when the count is zero; the remembered last argument contributes |
| Nodes.SetChildren | src/vdom.ts:238-331 | the element gets the normal form of the arguments as children and exactly one matching shape bit |
| Nodes.Flatten | src/vdom.ts:300-325 | the second loop fills the new array with the flattened entries |
| Nodes.PlaceEntries | src/vdom.ts:308-321 | one argument's entries are written after those already placed, and the slots after them are left as they were |
| Nodes.NoChildrenIff | src/vdom.ts:238-331 | the children are null exactly when no argument contributes |
| Nodes.ManyHasTwoOrMore | src/vdom.ts:243-256 | an array of children has two or more entries; a lone array argument is kept as it is, otherwise the array holds every flattened entry |
| Nodes.OneEntryArrayUnwrapped | src/vdom.ts:285-297 | a sole one-entry array argument among null arguments gives its entry as the single child |
| Nodes.OnlyContributor | src/vdom.ts:269-286 | with one contributing argument, the counts are that argument's and it is the one remembered |
| Nodes.FlattenedEntryAt | src/vdom.ts:305-325 | each argument's entries sit, in order, after those of the arguments before it |
| Nodes.PositionalKeys | src/vdom.ts:312-321 | in a flattened array, an unkeyed node argument gets its argument position as key, a keyed one keeps its key, and a scalar becomes a text node keyed by its position; this matches the program when each node object appears once |
| Markup.AttributeName | src/vdom.ts:334-342 | `acceptCharset` becomes `accept-charset`, `htmlFor` becomes `for`, every other name is kept |
| Markup.Attribute | src/vdom.ts:351-356 | one property: nothing for null, the bare name for `true`, otherwise the renamed name with the escaped value in quotes; stated by `Markup.AttributeQuotes` and `Markup.BooleanAttributes` |
| Markup.PropsMarkup | src/vdom.ts:344-361 | the attributes of all properties in key order; stated by `Markup.PropsMarkupAppend`, `Markup.NullPropsEmitNothing` and `Markup.AttributeQuotesBalanced` |
| Markup.RenderElementProps | src/vdom.ts:344-361 | the loop appends the markup of every property in key order |
| Markup.PropsMarkupAppend | src/vdom.ts:344-361 | the markup of two property lists is the concatenation of their markups |
| Markup.NullPropsEmitNothing | src/vdom.ts:351 | dropping the null-valued properties does not change the markup |
| Markup.AttributeQuotesBalanced | src/vdom.ts:344-361 | with quote-free names, the markup holds exactly two `"` per valued attribute |
| Markup.AttributeQuotes | src/vdom.ts:351-356 | a null or `true` property adds no quote; any other adds two |
| Markup.BooleanAttributes | src/vdom.ts:352-356 | `true` renders the bare name, `false` renders `name="false"`, null renders nothing |
| Markup.OnePropertyMarkup | src/vdom.ts:344-361 | a one-property object renders as that one attribute |
| Markup.RenamedOnlyWithValue | src/vdom.ts:352-355 | the name is translated only for valued attributes: `htmlFor: true` stays `htmlFor` |
| Markup.StyleMarkup | src/vdom.ts:363-383 | nothing for an empty style, else ` style="` and the declarations joined by `;`; stated by `Markup.StyleSemicolons` |
| Markup.RenderElementStyle | src/vdom.ts:363-383 | the loop builds the style attribute of the declarations in key order |
| Markup.StyleSemicolons | src/vdom.ts:369-382 | n plain declarations are separated by exactly n - 1 semicolons, with none trailing |
| Markup.RenderOpenElement | src/vdom.ts:385-399 | the open tag starts with `<` and the tag and ends with `>`; with no class, props or style it is exactly `<tag>` |
| Markup.ClassNameNotEscaped | src/vdom.ts:388-390 | a class name holding `" onclick="y` renders the same open tag as a real `onclick` property |
| Markup.CloseTag | src/vdom.ts:401-403 | the close tag is `</`, the tag, `>` |
| Markup.CloseTagInjective | src/vdom.ts:401-403 | different tags have different close tags |
| Markup.CloseTagCache.constructor | src/vdom.ts:415 | the cache starts empty |
| Markup.CloseTagCache.Get | src/vdom.ts:437-441 | the cached close string of a tag is its close tag, and the cache then holds it |
| Fresh.Assign | src/vdom.ts:617 | `Object.assign({}, context, props)`: the context with the props written over it in order; stated by `Fresh.AssignDomain`, `Fresh.AssignLastWins` and `Fresh.AssignKeeps` |
| Fresh.Merge | src/vdom.ts:616-617 | the context below an UpdateContext node; null props leave it as it is |
| Fresh.Render | src/vdom.ts:581-626 | `renderVNode`'s output: escaped text, an element's open tag, children and close tag, a component's rendered root; related to the blueprint by `Blueprints.BuildRenders` and appended by `Renderer.RenderState.RenderVNode` |
| Fresh.RenderChildren | src/vdom.ts:588-599 | the markup between an element's tags for each children shape |
| Fresh.AssignDomain | src/vdom.ts:617 | a key is in the merged context exactly when the context or some prop has it |
| Fresh.AssignLastWins | src/vdom.ts:617 | the last prop with a name sets that name |
| Fresh.AssignKeeps | src/vdom.ts:617 | a context entry no prop names is kept |
| Fresh.RenderMonotone | src/vdom.ts:581-626 | a tree that renders within some fuel renders the same with more |
| Fresh.RenderChildrenMonotone | src/vdom.ts:588-599 | children that render within some fuel render the same with more |
| Fresh.RenderUpToMonotone | src/vdom.ts:591-595 | an array of children that renders within some fuel renders the same with more |
| Blueprints.BlueprintFlags | src/vdom.ts:160 | the blueprint's Syncable bits are its VNode's; its DeepConnect bit (set at lines 530 and 542) is set exactly for a marked component |
| Blueprints.ElementBlueprint | src/vdom.ts:149-190 | an element blueprint indexes its children only when they are an array; the indices are stated by `Blueprints.IndexEntries` and `Blueprints.IndexSound` |
| Blueprints.IndexEntries | src/vdom.ts:168-189 | an index is null exactly when no child of its kind exists, and maps each key to the last child of its kind with that key |
| Blueprints.IndexSound | src/vdom.ts:168-189 | every index entry is a child of the right kind with that key |
| Blueprints.IndexChildren | src/vdom.ts:168-189 | the constructor's loop builds exactly the key index and the position index |
| Blueprints.Build | src/vdom.ts:405-491 | `createBlueprintNode`: the blueprint of a node, with component roots rendered by user code; stated by `Blueprints.BuildRenders` and `PatchFacts.BuildUnmarked` |
| Blueprints.BuildChildren | src/vdom.ts:422-435 | the blueprint of an element's children for each shape |
| Blueprints.BuildUpTo | src/vdom.ts:426-431 | one blueprint per child |
| Blueprints.BuildRenders | src/vdom.ts:405-491 | building succeeds exactly when a fresh render does, and the blueprint's content is the rendered markup |
| Blueprints.BuildChildrenRenders | src/vdom.ts:422-435 | the same for an element's children |
| Blueprints.BuildUpToRenders | src/vdom.ts:426-431 | the same for an array of children |
| Blueprints.Optimize | src/vdom.ts:493-558 | `optimizeBlueprint`: the optimized tree, the fragment appended to the enclosing component and the returned flag; stated by `Blueprints.OptimizeConnected`, `Blueprints.OptimizeFragment`, `Blueprints.ComponentCollectsContent` and `Blueprints.ContextTransparent` |
| Blueprints.CreateBlueprint | src/vdom.ts:560-564 | build in the empty context, then optimize; stated by `PatchFacts.CreateBlueprintReplays` |
| Blueprints.OptimizeConnected | src/vdom.ts:493-558 | the pass returns true exactly when the subtree holds a Connect node, and keeps which subtrees do |
| Blueprints.OptimizeKidsConnected | src/vdom.ts:501-512 | the same for an element's children |
| Blueprints.OptimizeUpToConnected | src/vdom.ts:503-509 | the same for an array of children |
| Blueprints.OptimizeFragment | src/vdom.ts:493-558 | the text appended to the enclosing component is the subtree's content in document order |
| Blueprints.OptimizeKidsFragment | src/vdom.ts:501-517 | the same for an element's children |
| Blueprints.OptimizeUpToFragment | src/vdom.ts:503-509 | the same for an array of children, in order |
| Blueprints.ComponentCollectsContent | src/vdom.ts:524-548 | a component's open string grows by its subtree's content, and it is DeepConnect exactly when its subtree holds a Connect node |
| Blueprints.ContextTransparent | src/vdom.ts:534-535 | an UpdateContext node passes its child's fragment and flag through and keeps its own open string |
| Blueprints.OptimizeTwiceRepeats | src/vdom.ts:493-558 | the pass is not idempotent: a second run appends the fragments again |
| Patch.CanSync | src/vdom.ts:566-572 | `vNodeCanSync`; stated in plain terms by `Patch.CanSyncIff` |
| Patch.EqualKeys | src/vdom.ts:574-579 | `vNodeEqualKeys`; stated in plain terms by `Patch.EqualKeysIff` |
| Patch.Patch | src/vdom.ts:703-822 | `patchVNode`'s output: the cached tree first when the node is the one the blueprint holds, then the sync or a fresh render; stated by `PatchFacts.NotSyncableRendersFresh`, `PatchFacts.UnchangedTextTwice` and `PatchFacts.ReRenderedRootIsNewNode` |
| Patch.Sync | src/vdom.ts:709-818 | the sync of each kind of node; stated by `Patch.SyncElementParts` and `PatchFacts.UnchangedChildrenDropped` |
| Patch.CheckDeep | src/vdom.ts:628-701 | `patchCheckDeepChanges`: cached strings, descending only into marked components, selectors re-run; stated by `PatchFacts.StaticReplay` |
| Patch.PatchChildren | src/vdom.ts:824-918 | the old children shape against the new one, branch by branch |
| Patch.EachUpTo | src/vdom.ts:903-912 | each new child against the one old child, in order; stated by `Patch.EachUpToStep` |
| Patch.Partner | src/vdom.ts:938-960 | the old child a new child is patched against in the keyed pass; stated by `PatchFacts.PartnerSound` and `PatchFacts.PartnerComplete` |
| Patch.TrackUpTo | src/vdom.ts:920-967 | `patchChildrenTrackByKeys` over the first new children; stated by `Patch.TrackUpToStep` and `Patch.VisitPartner` |
| Patch.SyncableBits | src/vdom.ts:566-572 | the Syncable bits agree exactly when the nodes have the same kind and the same Key flag |
| Patch.CanSyncIff | src/vdom.ts:566-572 | syncable exactly when kind, Key flag, tag and key agree |
| Patch.EqualKeysIff | src/vdom.ts:574-579 | equal keys exactly when key and Key flag agree |
| Patch.CanSyncHasEqualKeys | src/vdom.ts:566-579 | syncable nodes have equal keys |
| Patch.FirstEqualKey | src/vdom.ts:884-893 | the search stops at the first old child with an equal key, or past the end when there is none |
| Patch.ScanLength | src/vdom.ts:938-947 | the forward scan stays within both arrays |
| Patch.ScanLengthKeys | src/vdom.ts:938-947 | every pair in the scanned prefix has equal keys, and the pair after it, when there is one, does not |
| Patch.ScanLengthStep | src/vdom.ts:938-947 | inside the scan, the loop guard holds exactly before the scan's end |
| Patch.VisitPartner | src/vdom.ts:949-966 | a new child with a partner is patched against it, one without is rendered afresh |
| Patch.TrackUpToStep | src/vdom.ts:949-966 | the keyed pass's output grows by one visit per new child, in order |
| Patch.EachUpToStep | src/vdom.ts:905-912 | the one-to-many pass's output grows by one patch-or-render per new child, in order |
| Patch.SyncElementParts | src/vdom.ts:717-737 | a synced element is its open tag, then its patched children when the reference changed, then its close string |
| Renderer.Output | src/vdom.ts:969-975 | `render`'s output: a fresh render without a blueprint, a patch with one, in the empty context |
| Renderer.KeysAgree | src/vdom.ts:938-946 | the guard holds exactly while the scan goes on |
| Renderer.RenderState.constructor | src/vdom.ts:1-3 | the result starts empty |
| Renderer.RenderState.RenderVNode | src/vdom.ts:581-626 | appends exactly the fresh markup of the node |
| Renderer.RenderState.RenderElement | src/vdom.ts:586-601 | appends exactly an element's markup |
| Renderer.RenderState.RenderNew | src/vdom.ts:588-599 | appends exactly the markup of an element's children |
| Renderer.RenderState.RenderEach | src/vdom.ts:591-595 | appends the children's markup one after the other |
| Renderer.RenderState.CheckDeepChanges | src/vdom.ts:628-701 | appends exactly the replay of the cached tree |
| Renderer.RenderState.CheckDeepEach | src/vdom.ts:642-646 | appends the replays of an array of children in order |
| Renderer.RenderState.PatchVNode | src/vdom.ts:703-822 | appends exactly the patch output |
| Renderer.RenderState.SyncVNode | src/vdom.ts:709-818 | appends exactly the synced output |
| Renderer.RenderState.SyncElement | src/vdom.ts:717-738 | appends the open tag, the patched children and the close string |
| Renderer.RenderState.SyncClass | src/vdom.ts:740-756 | appends the class component's synced output |
| Renderer.RenderState.SyncFunction | src/vdom.ts:757-817 | appends the output of a function, Connect or UpdateContext node |
| Renderer.RenderState.PatchChildren | src/vdom.ts:824-918 | appends exactly the patched children |
| Renderer.RenderState.PatchFromMany | src/vdom.ts:867-898 | an array of old children against new children |
| Renderer.RenderState.PatchFromOne | src/vdom.ts:899-916 | one old child against new children |
| Renderer.RenderState.PatchEachAgainst | src/vdom.ts:903-912 | each new child is patched against the one old child when their keys are equal, else rendered |
| Renderer.RenderState.PatchOrRender | src/vdom.ts:907-911 | one new child: patched when the keys are equal, else rendered |
| Renderer.RenderState.TrackByKeys | src/vdom.ts:920-967 | appends exactly the keyed pass's output |
| Renderer.RenderState.PatchCommonPrefix | src/vdom.ts:938-947 | the first loop patches exactly the scanned prefix and stops at its end |
| Renderer.RenderState.PatchRemaining | src/vdom.ts:949-966 | the second loop visits every remaining new child in order |
| Renderer.RenderState.VisitNext | src/vdom.ts:950-965 | one new child: patched against its index hit or rendered |
| Renderer.Render | src/vdom.ts:969-975 | appends a fresh render, or the patch against the blueprint, in the empty context |
| PatchFacts.BuildUnmarked | src/vdom.ts:452-479 | a freshly built blueprint has no DeepConnect mark |
| PatchFacts.StaticReplay | src/vdom.ts:628-701 | an optimized unmarked tree without Connect nodes replays exactly its content |
| PatchFacts.StaticReplayKids | src/vdom.ts:638-654 | the same for an element's children |
| PatchFacts.StaticReplayUpTo | src/vdom.ts:642-646 | the same for an array of children |
| PatchFacts.CreateBlueprintReplays | src/vdom.ts:560-564 | a blueprint without Connect nodes replays exactly the fresh markup it was created from, with any fuel and context |
| PatchFacts.UnchangedFunctionReplays | src/vdom.ts:800-815 | a function component with unchanged props and no `shouldUpdate` patches to its first render's markup |
| PatchFacts.NotSyncableRendersFresh | src/vdom.ts:703-822 | a node that cannot be synced is rendered afresh |
| PatchFacts.PartnerSound | src/vdom.ts:949-966 | a keyed-pass partner is an old child with the new child's key and Key flag |
| PatchFacts.PartnerComplete | src/vdom.ts:949-960 | past the scan, the partner is the last old child with that key and Key flag |
| PatchFacts.UnmatchedRendersFresh | src/vdom.ts:961-962 | a new child that no old child matches is rendered afresh |
| PatchFacts.UnchangedTextTwice | src/vdom.ts:703-716 | patching a text node against its own blueprint emits its markup twice |
| PatchFacts.UnchangedChildrenDropped | src/vdom.ts:717-737 | an element whose children reference is unchanged patches to its open and close strings only |
| PatchFacts.ReRenderedRootIsNewNode | src/vdom.ts:703-808 | a function component whose `shouldUpdate` says yes, re-rendered in a later pass to a new `<div>x</div>` root, patches to `<div></div>`; only if user code returns the cached root is `<div>x</div>` emitted first |

## Left out

- Escape.EscapeText, Escape.EscapeAttributeValue: these, and every renderer built on them (`Markup.ValueText`, `Markup.Declaration`, `Blueprints.Build`, `Fresh.Render`, `Patch.Sync`), compute the intended escape, not the loop as written. For text whose first character is special (`&`, `<`, `>` in text; `"`, `&` in attribute values) the program's markup differs: it repeats the input before the first entity (see Findings).
- Non-string text, values and style values: numbers and booleans are carried as their text, so `toString()` on a non-string is not modelled.
- User code (component constructors and `render`, `shouldUpdate`, connect `select` and `render`) is a parameter, `Env`. Whatever it does besides returning a value is not modelled. Within one pass, a user function called twice with the same inputs returns the same record. Identity is only compared across passes, so this does not change any output.
- `isComponentClass`, `$c`'s check of `c.prototype.render` and `connect`'s wrapping of a component class are reflection on user code. `$c` takes the answer as a parameter. `connect`'s descriptor is the `Env` pair `select`/`connectRender`.
- Props and context objects are ordered lists of scalar properties; nested objects, prototype properties and getters are not modelled.
- `Nodes.WithProps`: a text node has no props slot in the model, so `props()` on a text node changes nothing. The source stores the value but never reads it.
- Nodes.ChildrenOf: an unkeyed node object passed to `children()` more than once is one object in the program. Its `_key` ends up as the last argument index written (src/vdom.ts:312-317), so every occurrence carries that key. The model keys each occurrence by its own position. With `x` passed twice, the program's blueprint indexes only position 1. The model indexes positions 0 and 1, so patching can pair a new child with the first occurrence where the program renders it fresh.
- Nodes.SetChildren: the same gap as `Nodes.ChildrenOf`. Also, a node placed under two parents keeps, in the program, the key written by the later `children()` call in both parents. The model keeps each parent's own key.
- Nodes.PlaceEntries: writes a re-keyed copy of an unkeyed node into the array, where the program writes `_key` on the shared object. Other references to that object do not see the new key.
- Nodes.PositionalKeys: states per-position keys, which is what the program gives only when each node object appears once among the flattened entries and in no other parent.
- Mutating a node after it was built into a blueprint is not modelled. The blueprint's `a._vnode === b` test is equality of the identity token and contents.
- `optimizeBlueprint` mutates the blueprint in place. The model returns the optimized tree as a value and recomputes the child indices over the optimized children. Those indices are what the mutated nodes in the source's maps amount to.
- The children loops of `createBlueprintElementNode` and `optimizeBlueprint` are recursive functions.
- `renderOpenElement` is a function over its three parts, not a string built step by step.
- `closeElementCache` is a process-wide map. `Markup.CloseTagCache` models it as a class. The builders use `CloseTag` directly, which is what the cache returns.
- The do-while loops of `patchChildren` read `b[0]` before testing the length. They are modelled for arrays of two or more entries, which is all `children()` produces; the empty-array case cannot arise.
- `SyncFlags` is left out. Its only bit, DirtyContext, is never set because its one assignment is commented out, so every test of it is false.
- Fuel bounds the number of component roots a render asks user code for; a tree that needs more yields `None`. Unbounded component recursion is not modelled.
- `src/benchmark.ts` is not part of this model.

## Findings

| source | as written | input that shows it | evidently intended | confidence | as-written member | corrected member |
|---|---|---|---|---|---|---|
| src/vdom.ts:25-32 | when the first character is special, `result` still holds the whole input and the entity is appended to it | `escapeText("&")` gives `&&amp;`; `escapeAttributeValue("\"x")` gives `"x&quot;x` | `&amp;` and `&quot;x`: drop the input before appending the first entity | not executed | Escape.LeadingSpecialRepeatsInput | Escape.Splice |
