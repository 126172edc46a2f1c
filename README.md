# A verified model of a small virtual-DOM diff engine

This project models `src/index.js` of a small virtual-DOM library in Dafny.
That file contains the vnode constructor and `createElement`, the identity
test `sameVnode`, the dispatcher `patch`, the single-node patch `patchVnode`
with its attribute diff `updateProps`, and the keyed child-list reconciler:
`updateChildren`, `createKeyToIndex`, `addNodes` and `removeNodes`.

The model keeps the code's behaviour as written, quirks included. Each
exception the model covers becomes an explicit error outcome: reads through
`undefined` or `null`, and the DOM's `NotFoundError` and
`HierarchyRequestError` on tree mutations. The exceptions it does not cover
are listed under "Left out". A throw keeps every host mutation made before it,
because JavaScript does not roll them back.

Modules:

- `Base` holds the shared vocabulary. It has `Option` and `Result`, the JavaScript values the core inspects (`undefined`, `null`, strings), `String(v)`, and the exceptions a pass can raise.
- `Vnodes` is the vnode datatype. A vnode is a text node or an element. An `id` stands for object identity (`===`), and `el` for the host binding. List children carry a `listId` for the `oldCh !== newCh` test. The module also holds the constructor, `createElement` and `sameVnode`.
- `HostModel` is an abstract host tree standing in for the DOM. Nodes are named by handles. Each has ordered children, attributes and text. The module has a parent map, a handle allocator for `render`, a log of renders and counters of every mutation. Each DOM call the core makes (`appendChild`, `insertBefore`, `removeChild`, `replaceChild`, `setAttribute`, `removeAttribute`, `textContent`) is a function. The tree mutations carry the DOM's `NotFoundError` and `HierarchyRequestError` cases. The attribute and text writes never fail.
- `Dom` holds `Document`, the host tree as a mutable object. Each method is one DOM call, and its contract ties the new state to the `HostModel` function.
- `Reconcile` is the reference semantics. These are pure functions giving what each operation of the core does to a host state: which exception it throws and what it has done by then.
  - The `while` loop of `updateChildren` is `Loop` over a `Scan` value. A `Scan` holds the blanked old slots, the four indices and the lazily built key map.
  - One iteration is `Step`. `Pick` says which branch the iteration takes, in the source's order.
- `Patcher` holds the imperative core, written like the source. `updateChildren` is a `while` loop over the four indices. `createKeyToIndex`, `addNodes` and `removeNodes` are loops. `updateProps` is two loops over the prop names, mutating the `Document`. Each method is proved to leave the `Document` in the state, and return the exception, that `Reconcile` prescribes.
- `Properties` holds what the source promises about those functions, proved as lemmas.
- `Scenarios` proves worked examples of the reconciler over abstract vnodes. They include the three worked reorderings below and the three quirks of the key-map fallback.

## Model

| member | source | states |
|---|---|---|
| Vnodes.MakeVnode | src/index.js:4-20 | A tag outside the recognised list gives a text node: null tag, props and children, and text and key equal to the tag. Otherwise tag, props, children and key are the arguments, with text set to string children. `el` is always null. |
| Vnodes.CreateElement | src/index.js:69-71 | The key is `props.key`: null for null props, `undefined` when the entry is missing. A text tag still gives a text node keyed by its string. |
| Vnodes.SameVnode | src/index.js:73-78 | Two vnodes are the same exactly when their keys are equal and their tags are equal, with `null` tags matching only each other. `SameVnodeReflexive`, `SameVnodeSymmetric`, `SameVnodeTransitive` and `SameConstructed` prove it is an equivalence and what it means on constructed vnodes. |
| Vnodes.SameVnodeReflexive | src/index.js:73-78 | Every vnode is the same as itself. |
| Vnodes.SameVnodeSymmetric | src/index.js:73-78 | `sameVnode(a, b)` equals `sameVnode(b, a)`. |
| Vnodes.SameVnodeTransitive | src/index.js:73-78 | Two vnodes each the same as a third are the same as each other. |
| Vnodes.SameConstructed | src/index.js:73-78 | For constructed vnodes, two text nodes are the same exactly when their strings are equal, and two elements exactly when their tags and keys are. A text node is never the same as an element. |
| Reconcile.KeyToIndex | src/index.js:145-152 | The key map of `createKeyToIndex`, built slot by slot, or a read through `undefined` at the first missing slot. `Properties.KeyToIndexFails`, `KeyToIndexExtends`, `KeyToIndexCovers` and `KeyToIndexLast` prove what it contains. |
| Reconcile.RemoveStale | src/index.js:123-130 | The first attribute loop: each old name whose new value is null or undefined is removed. It throws on null new props when there are old props to visit, and on an unbound element when there is a name to remove. `Properties.UpdatePropsAttributes` and `UpdatePropsNullProps` give its effect. |
| Reconcile.WriteChanged | src/index.js:131-141 | The second attribute loop: each new name whose old value is null, undefined or different is written with `String` of its new value. It throws on null old props when there are new props to visit, and on an unbound element when there is a name to write. `Properties.UpdatePropsAttributes` and `UpdatePropsNullProps` give its effect. |
| Reconcile.UpdateProps | src/index.js:118-143 | Nothing for a vnode without a tag. Otherwise the first loop, then the second one from its result, stopping at the first throw. Its properties are the `Properties.UpdateProps*` lemmas below. |
| Reconcile.PatchContent | src/index.js:100-115 | The child and text half of `patchVnode`. Different child arrays are reconciled. Old array children against new non-empty string children throw. A changed non-empty old text is written to `textContent`. `Properties.ChildrenKept`, `ChildrenReconciled` and `TextPatch` state each case. |
| Reconcile.PatchVnode | src/index.js:95-116 | Nothing for the same object. Otherwise `PatchContent`, then `UpdateProps` unless it threw. Its lemmas are `Properties.PatchVnodeSameObject`, `TextPatch`, `TwinPatchNoop` and the two children lemmas. |
| Reconcile.Patch | src/index.js:80-93 | The four cases of `patch`: append a render, remove, `patchVnode`, or replace with a render. A missing parent or element throws, after the render in the two cases that render. `Properties.PatchCreates`, `PatchRemoves`, `PatchUpdates`, `PatchReplaces`, `PatchReplacesInPlace` and `PatchNothing` state each case. |
| Reconcile.Loop | src/index.js:166-231 | The `while` loop: `Step` repeated until an index pair crosses or a step throws. It terminates by `Step`'s measure. The `Scenarios` lemmas apply it to concrete lists. |
| Reconcile.UpdateChildren | src/index.js:154-232 | The loop from the initial indices, then `addNodes` for the leftover new range when the old range is used up, or else `removeNodes` for the leftover old range. |
| Reconcile.AddNodes | src/index.js:234-239 | Renders and appends `children[s..e]` in order, and throws when a parent or slot is missing. `Properties.AddNodesRun` and `AddNodesAppends` give its effect. |
| Reconcile.RemoveNodes | src/index.js:241-246 | Removes the nodes of `children[s..e]` from the parent in order, and throws at a blanked slot or an unbound node. `Properties.RemoveNodesDetaches` gives its effect. |
| Reconcile.MoveAfter | src/index.js:177-180 | `insertBefore(x.el, y.el.nextSibling)`: a null parent or element throws, and the DOM's own errors pass through. |
| Reconcile.MoveBefore | src/index.js:185-188 | `insertBefore(x.el, ref.el)`, with the same error cases. |
| Reconcile.RenderBefore | src/index.js:199-202 | A null parent throws before anything is rendered. Otherwise it renders once, then calls `insertBefore(node, ref.el)`, and the render stays done even when the insert throws. |
| Reconcile.Pick | src/index.js:166-191 | Which branch an iteration takes: start/start, end/end, old start/new end, old end/new start, else the key fallback, each tried only when every earlier pair differs. It throws exactly when a compared old slot is blanked. |
| Reconcile.Step | src/index.js:166-224 | One iteration. Each branch moves exactly the indices the source moves. The fallback moves only the new start index and keeps the key map once built. Only the fallback blanks a slot, and never a cached one. The measure `(oldEnd - oldStart) + (newEnd - newStart)` strictly decreases, so the loop terminates. |
| Reconcile.KeyedStep | src/index.js:191-224 | The key fallback advances only the new start index, records the key map and blanks neither the old start slot nor the old end slot. |
| Patcher.CreateKeyToIndex | src/index.js:145-152 | The `for` loop computes the key map, or the exception of reading a missing slot. |
| Patcher.KeyToIndexErrorPersists | src/index.js:147-149 | Once a read of a missing slot throws, building over any longer range throws the same. |
| Properties.UnmappedInit | src/index.js:155-158 | At the loop's start no slot is blanked and the new start index equals the old start index. |
| Properties.UnmappedStep | src/index.js:166-224 | Until the key map is built, every completed iteration keeps the slots unblanked and the new start index at most as far ahead of the old start index as the old end index has retreated. |
| Properties.UnmappedBuild | src/index.js:192-194 | So the first build of the key map reads only filled slots inside the array and cannot throw, and the fallback always leaves the map built. |
| Properties.KeyToIndexFails | src/index.js:145-152 | Building the map succeeds exactly when every index of the range holds a vnode, and fails with a read of `undefined` otherwise. |
| Properties.KeyToIndexExtends | src/index.js:147-150 | Adding slot `e` to the range sets that vnode's key to `e` over the map of the shorter range. |
| Properties.KeyToIndexCovers | src/index.js:145-152 | Every key in the range is in the map. |
| Properties.KeyToIndexLast | src/index.js:145-152 | Every stored index lies in the range and holds a vnode with that key, and no later index of the range carries the key, so the last occurrence wins. |
| Patcher.RemoveStale | src/index.js:123-130 | The first attribute loop leaves the `Document` as `Reconcile.RemoveStale` prescribes. |
| Patcher.RemoveStaleNullProps | src/index.js:124-125 | An old prop read against null new props throws. |
| Patcher.RemoveStaleNullElement | src/index.js:126-127 | A removal through an unbound element throws. |
| Patcher.WriteChanged | src/index.js:131-141 | The second attribute loop leaves the `Document` as `Reconcile.WriteChanged` prescribes. |
| Patcher.WriteChangedNullProps | src/index.js:132-133 | A new prop read against null old props throws. |
| Patcher.WriteChangedNullElement | src/index.js:135-138 | A write through an unbound element throws. |
| Patcher.UpdateProps | src/index.js:118-143 | `updateProps` runs both loops, and only for elements. |
| Properties.UpdatePropsAttributes | src/index.js:118-143 | With both props present and a bound element, `updateProps` succeeds. Each name whose old value is null, undefined or different is written with `String` of its new value. Each old name whose new value is null or undefined, and which is not written back, is removed. Every other attribute is unchanged. There is one call per removal and per write, and no other node changes. |
| Properties.UpdatePropsBulk | src/index.js:118-143 | With both props present and a bound element, `updateProps` is one bulk removal then one bulk write. |
| Properties.UpdatePropsNullProps | src/index.js:118-143 | `updateProps` throws on null props exactly when the node is an element and the other side has at least one prop to visit. |
| Properties.EqualPropsNoop | src/index.js:118-143 | Equal props with no null values make no attribute call at all. |
| Patcher.PatchVnode | src/index.js:95-116 | `patchVnode` leaves the `Document` as `Reconcile.PatchVnode` prescribes. |
| Properties.PatchVnodeSameObject | src/index.js:96-98 | Patching a vnode with itself changes nothing. |
| Properties.TextNodePatch | src/index.js:111-113 | Between text nodes, `textContent` is written only when the texts differ and the old text is not empty, and throws for an unbound node. |
| Properties.TextPatch | src/index.js:111-115 | For any old vnode with non-empty text, text node or element: equal texts leave only the props update. Different texts throw for an unbound node, or write the new text (the empty string for none) and then update the props. |
| Properties.ChildrenKept | src/index.js:103-110 | Old array children are not reconciled when the new children are the same array, absent, or the empty string. Only the props are updated. |
| Properties.OldNoListKept | src/index.js:103-110 | When the old vnode has no text and its children are absent or the empty string, nothing is reconciled, whatever the new children are. Only the props are updated. |
| Properties.ChildrenReconciled | src/index.js:103-115 | Different old and new arrays are reconciled against the old node's element, before the props. |
| Properties.TwinPatchNoop | src/index.js:95-116 | Patching a vnode against a fresh copy of itself touches nothing in the host, at any depth. |
| Properties.TwinLoopNoop | src/index.js:166-170 | Two copies of the same child list are matched pair by pair at the starts, with no host call. |
| Patcher.Patch | src/index.js:80-93 | `patch` leaves the `Document` as `Reconcile.Patch` prescribes. |
| Properties.PatchCreates | src/index.js:82-84 | With no old vnode, the new one is rendered once and appended as the parent's last child. |
| Properties.PatchRemoves | src/index.js:85-86 | With no new vnode, the old node is removed from the parent's children, and nothing is rendered. |
| Properties.PatchUpdates | src/index.js:87-88 | For the same vnode, `patch` is exactly `patchVnode`. |
| Properties.PatchReplaces | src/index.js:89-92 | For a different vnode, the new one is rendered once and becomes a child of the parent, and the old node is detached and counted as one replacement. |
| Properties.PatchReplacesInPlace | src/index.js:89-92 | When the parent's child list is consistent, the new node sits exactly at the old node's index, and every other child keeps its place. |
| Properties.PatchNothing | src/index.js:82-83 | With neither vnode, `undefined.render` throws before anything happens. |
| Patcher.UpdateChildren | src/index.js:154-232 | The `while` loop and what follows it leave the `Document` as `Reconcile.UpdateChildren` prescribes. |
| Patcher.Iteration | src/index.js:166-224 | One pass of the loop body performs `Reconcile.Step`. |
| Patcher.Crossed | src/index.js:175-190 | The two crossed matches patch, then move the node after the old end or before the old start. |
| Patcher.KeyedStep | src/index.js:191-224 | The key fallback performs `Reconcile.KeyedStep` and returns its blanked slots and key map. |
| Patcher.MoveAfter | src/index.js:177-180 | `insertBefore(x.el, y.el.nextSibling)`. |
| Patcher.MoveBefore | src/index.js:185-188 | `insertBefore(x.el, ref.el)`. |
| Patcher.RenderBefore | src/index.js:199-202 | `insertBefore(v.render(), ref.el)`. |
| Patcher.AddNodes | src/index.js:234-239 | The `for` loop of `addNodes` leaves the `Document` as `Reconcile.AddNodes` prescribes. |
| Properties.AddNodesAppends | src/index.js:234-239 | Under a bound parent, `addNodes` succeeds. It renders `children[s..e]` in order, one after the other, and appends them at the parent's end with one insert each. |
| Properties.AddNodesRun | src/index.js:234-239 | `addNodes` is the run of single appends, one per index. |
| Patcher.RemoveNodes | src/index.js:241-246 | The `for` loop of `removeNodes` leaves the `Document` as `Reconcile.RemoveNodes` prescribes. |
| Properties.RemoveNodesDetaches | src/index.js:241-246 | When the range's vnodes are bound to distinct children of the parent, exactly those are detached, with one call each. No other parent link changes and nothing is rendered. |
| Scenarios.LoopStartStart | src/index.js:167-170 | A start match whose patch does nothing advances both starts. |
| Scenarios.LoopEndEnd | src/index.js:171-174 | An end match whose patch does nothing retreats both ends. |
| Scenarios.LoopStartEnd | src/index.js:175-182 | An old start/new end match moves the node after the old end's. |
| Scenarios.LoopEndStart | src/index.js:183-190 | An old end/new start match moves the node before the old start's. |
| Scenarios.LoopKeyedMove | src/index.js:204-214 | A key found at a non-zero index is patched, moved before the old start's node and blanked, and the map is kept. |
| Scenarios.LoopKeyedRender | src/index.js:196-202 | A key that is missing, or found at index 0, renders the new vnode before the old start's node. |
| Scenarios.LoopKeyedBlank | src/index.js:204-208 | A key whose slot was already blanked throws. |
| Scenarios.LoopStuck | src/index.js:166-171 | Comparing a blanked slot throws. |
| Scenarios.DropMiddle | src/index.js:227-231 | [A,B,C] to [A,C] removes only B's node, which is left detached, with no move and no render. |
| Scenarios.Prepend | src/index.js:171-228 | [A,B] to [Z,A,B] matches B and A at the ends, then renders Z and appends it, so the host ends as [A,B,Z]. |
| Scenarios.AppendLast | src/index.js:227-228 | [A,B] to [A,B,C] renders C once and appends it, with no move and no removal. |
| Scenarios.RotateFirst | src/index.js:175-182 | [A,B,C,D] to [B,C,D,A] makes exactly one move, A after D, giving [B,C,D,A], with no render and no removal. |
| Scenarios.KeyRangeMiss | src/index.js:193 | [A,B,C] to [B] builds the key map over old indices 0..0 only, so B is not found. A new node is rendered for B and all three old nodes are removed. |
| Scenarios.BlankedSlotThrows | src/index.js:166-170 | [A,B,C,D] to [D,B,A,E]: after B is blanked, the old start index reaches its slot and the pass throws, keeping the two moves made. |
| Scenarios.RematchedKey | src/index.js:183-231 | [A,B,C,D] to [D',C',X,Y], with X keyed and tagged like C. D and C match the old end and move to the front. The key map over old indices 0..2 still finds C's filled slot, so C's node is moved a second time, for X. Y is rendered, A and B are removed, and the pass succeeds with the host [D,C,Y]. |
| Scenarios.DuplicateKeyThrows | src/index.js:204-208 | [A,B,C,D] to [D,B,B',X] with B' keyed like B: the second lookup of that key finds the slot blanked and the pass throws. |

## Behaviour as written

The code differs from what a reader of its documentation would expect in
these places. The model follows the code.

- `patchVnode` never copies `el` from the old vnode to the new one (src/index.js:95-116). Nor does it write the new text into the vnode. A patched vnode of the new tree stays unbound, so a later patch from it throws at its first host call through it. Vnodes that were rendered are bound by `render` in the source.
- The key map is built over old indices `oldStartIndex..newStartIndex`, not `..oldEndIndex` (src/index.js:193). Keys beyond that range are never found. The range can reach past `oldEndIndex` into slots already matched by the four pointer comparisons, but never past the end of the array and never into a blanked slot, so this build never throws (`Properties.UnmappedBuild`).
- An index of 0 in the key map counts as "not found" (src/index.js:198). The vnode is rendered anew instead of being moved.
- A blanked old slot is never skipped. When an index reaches one, `sameVnode(undefined, …)` throws (src/index.js:166-175).
- A duplicate key whose earlier vnode was matched by the key lookup does not make the vnode count as new. The lookup finds the slot blanked, and after the warning `sameVnode(undefined, …)` throws (src/index.js:204-208). Only the key lookup blanks a slot.
- A duplicate key whose earlier vnode was matched by one of the four pointer comparisons finds that old vnode again. Nothing blanked its slot, so it is patched and moved a second time, with no throw. [A,B,C,D] to [D',C',X,Y], with X keyed like C, ends with three host children [D,C,Y] for four new vnodes (`Scenarios.RematchedKey`, src/index.js:183-214).
- `updateProps` indexes a null props object when only one side has props, and throws (src/index.js:125, 133).
- A prop whose value is null or undefined is written again on every patch, as the string `"null"` or `"undefined"` (src/index.js:135-136).
- An empty old text is falsy, so it is never updated. An element whose string children are empty is treated like one without text (src/index.js:103, 111).
- `addNodes` ignores its `refEl` parameter and always appends (src/index.js:234-237). Prepending Z to [A,B] ends as [A,B,Z] (`Scenarios.Prepend`).
- Old array children against new non-empty string children reach `updateChildren` with a string, and the pass throws (src/index.js:104-106).
- A new empty children array is truthy, so old array children are reconciled against it, and every old child is removed (src/index.js:104-106, 227-230).
- With no children before and an array after, nothing is reconciled, so the new children are never rendered (src/index.js:103-104, `Properties.OldNoListKept`).
- With no children before and string children after, the text is never written: the old text is empty, so the text branch is skipped (src/index.js:103-104, 111).

## Left out

- The DOM backend (`render`, `_createElement`, `_createAttrs`, src/index.js:23-66) is replaced by the `HostModel` tree. `render` allocates a fresh handle and logs which vnode it rendered. The rendered subtree's content, its text nodes and the `key` attribute it writes are not modelled.
- The demo and its timer (src/index.js:248-280) are not part of this model.
- `console.warn` at src/index.js:206 is output only and is left out. The throw that follows it is modelled.
- The vnode constructor's field assignments are modelled as one value construction, because nothing in the core changes a vnode's fields afterwards. `render` is the only writer of `el`, and it is outside the core.
- Blanking `oldCh[indexInOld]` mutates the caller's children array in place, which stays visible to later patches. The model blanks a local sequence of slots and does not capture that aliasing.
- Arrays with holes that did not come from blanking, JavaScript prototype properties reached through `obj[key]` (`"constructor"`, `"__proto__"` and the like), and the iteration order of `Object.keys` are not modelled. The key map and the props are plain maps, and the attribute lemmas hold in any order.
- Vnodes.CreateElement: its `props` argument is `null` or an object. Leaving the argument out, as in `createElement('div')`, gives the key `undefined` (src/index.js:70), which is not `===` to the `null` key of `createElement('div', null)`. The call with the argument left out is not expressed through this function; its vnode is `MakeVnode(id, tag, None, children, Undefined)`.
- Reconcile.UpdateChildren: no lemma states that each old node is matched to at most one new vnode. The source breaks that rule when new keys repeat: `Scenarios.RematchedKey` matches C's node twice. A general statement for distinct new keys would need a trace of the matches beside the host state. It is not stated.
- A child that is a bare string inside a children array is not modelled: children arrays hold vnodes only.
- Keys, tags and prop values that are numbers, booleans or objects are not modelled: a `JsValue` is `undefined`, `null` or a string. So a non-string tag, which fails the `typeof tag === 'string'` tests (src/index.js:12, 18), cannot be expressed. Nor can a key `1`, which the key map stores under the name `"1"` (src/index.js:149, 196) but which is not `===` to the string `"1"` (src/index.js:75).
- `setAttribute` throwing `InvalidCharacterError` for an invalid attribute name (src/index.js:136, 138) is not modelled: `HostModel.SetAttribute` accepts every name.
- The binding of `vnode.el` by `render` (src/index.js:52) is not modelled: vnodes are values, and a rendered vnode stays unbound in the model.
- Properties.AddNodesAppends: stated only for a bound parent and a range with `s <= e + 1` inside the array. The other cases, which throw or do nothing, are given by `Reconcile.AddNodes` itself.
- Properties.RemoveNodesDetaches: stated only when the range's vnodes are bound to distinct children of the parent. The throwing cases are given by `Reconcile.RemoveNodes` itself.
- Properties.UpdatePropsAttributes: stated for two present props objects and a bound element. The null-props case is `Properties.UpdatePropsNullProps`, and an unbound element throws as `Reconcile.UpdateProps` gives.
- Properties.TwinPatchNoop: stated for a copy without null or undefined prop values, since such values are written again on every patch.
- The `Scenarios` lemmas are stated for vnodes bound to host nodes 1 to 4 under root 0. They cover the listed examples, not every list.
