/** What the functions of `Reconcile` guarantee: the key map, termination and
    order of the loop, the text, props and children rules of `patchVnode`,
    the four actions of `patch`, and the effect of `addNodes` and `removeNodes`. */
module Properties {
  import opened Base
  import opened Vnodes
  import opened HostModel
  import opened Reconcile

  /** The property name a vnode's key is stored under in the key map. */
  function KeyName(v: Vnode): string
  {
    ToJsString(KeyOf(v))
  }

  // ---------------------------------------------------------------------------
  // createKeyToIndex

  /** Slot `i` of the old array holds a vnode. */
  predicate Filled(children: seq<Option<Vnode>>, i: int)
  {
    0 <= i < |children| && children[i].Some?
  }

  /** Building the key map throws exactly when one of the slots it reads is empty
      or past the end of the array. */
  lemma {:induction false} KeyToIndexFails(children: seq<Option<Vnode>>, s: nat, e: int)
    ensures KeyToIndex(children, s, e).Ok? <==> forall i :: s <= i <= e ==> Filled(children, i)
    ensures KeyToIndex(children, s, e).Err? ==> KeyToIndex(children, s, e).error == UndefinedVnode
    decreases e - s
  {
    if e >= s {
      KeyToIndexFails(children, s, e - 1);
      if !Filled(children, e) {
        assert !(forall i :: s <= i <= e ==> Filled(children, i));
      }
    }
  }

  /** One more slot: the map over `s..e` is the map over `s..e-1` with the key
      of slot `e` set to `e`. */
  lemma KeyToIndexExtends(children: seq<Option<Vnode>>, s: nat, e: int)
    requires s <= e && KeyToIndex(children, s, e).Ok?
    ensures KeyToIndex(children, s, e - 1).Ok? && Filled(children, e)
    ensures KeyToIndex(children, s, e).value ==
            KeyToIndex(children, s, e - 1).value[KeyName(children[e].value) := e]
  {
  }

  /** Every key in `children[s..e]` is in the map. */
  lemma {:induction false} KeyToIndexCovers(children: seq<Option<Vnode>>, s: nat, e: int)
    requires KeyToIndex(children, s, e).Ok?
    ensures var m := KeyToIndex(children, s, e).value;
      forall i :: s <= i <= e ==> Filled(children, i) && KeyName(children[i].value) in m
    decreases e - s
  {
    if e >= s {
      KeyToIndexExtends(children, s, e);
      KeyToIndexCovers(children, s, e - 1);
    }
  }

  /** Each key in the map maps to the last index in `children[s..e]` whose vnode
      carries it. */
  lemma {:induction false} KeyToIndexLast(children: seq<Option<Vnode>>, s: nat, e: int)
    requires KeyToIndex(children, s, e).Ok?
    ensures var m := KeyToIndex(children, s, e).value;
      forall name :: name in m ==>
        s <= m[name] <= e && Filled(children, m[name]) && KeyName(children[m[name]].value) == name &&
        forall j :: m[name] < j <= e ==> Filled(children, j) && KeyName(children[j].value) != name
    decreases e - s
  {
    if e >= s {
      KeyToIndexExtends(children, s, e);
      KeyToIndexLast(children, s, e - 1);
      var m0 := KeyToIndex(children, s, e - 1).value;
      var m := KeyToIndex(children, s, e).value;
      var top := KeyName(children[e].value);
      forall name | name in m
        ensures s <= m[name] <= e && Filled(children, m[name]) && KeyName(children[m[name]].value) == name &&
                forall j :: m[name] < j <= e ==> Filled(children, j) && KeyName(children[j].value) != name
      {
        if name != top {
          assert name in m0 && m[name] == m0[name];
        }
      }
    }
  }

  // ---------------------------------------------------------------------------
  // Patching against an identical copy

  /** `b` is a fresh copy of `a`: same kind, tag, props, key, text and, child by
      child, the same children, with no null or undefined prop values. Object
      identities may differ. */
  predicate Twin(a: Vnode, b: Vnode)
    decreases Size(a), 1
  {
    match (a, b)
    case (TextNode(_, t1, _), TextNode(_, t2, _)) => t1 == t2
    case (Element(_, g1, p1, c1, k1, _), Element(_, g2, p2, c2, k2, _)) =>
      g1 == g2 && p1 == p2 && k1 == k2 && NoNullProps(p1) &&
      (match (c1, c2)
       case (NoChildren, NoChildren) => true
       case (TextChildren(s1), TextChildren(s2)) => s1 == s2
       case (ListChildren(_, xs), ListChildren(_, ys)) => TwinList(xs, ys)
       case _ => false)
    case _ => false
  }

  predicate TwinList(xs: seq<Vnode>, ys: seq<Vnode>)
    decreases ListSize(xs), 2
  {
    |xs| == |ys| && (xs == [] || (Twin(xs[0], ys[0]) && TwinList(xs[1..], ys[1..])))
  }

  predicate NoNullProps(p: Option<Props>)
  {
    p.Some? ==> forall k :: k in p.value ==> !Nullish(p.value[k])
  }

  lemma {:induction false} TwinListAt(xs: seq<Vnode>, ys: seq<Vnode>, i: int)
    requires TwinList(xs, ys) && 0 <= i < |xs|
    ensures |ys| == |xs| && Twin(xs[i], ys[i])
    decreases i
  {
    if i > 0 {
      TwinListAt(xs[1..], ys[1..], i - 1);
    }
  }

  /** Equal props without null values cause no attribute call. */
  lemma EqualPropsNoop(o: Vnode, n: Vnode, h: HostState)
    requires PropsOf(o) == PropsOf(n) && NoNullProps(PropsOf(o))
    ensures UpdateProps(o, n, h) == Done(h)
  {
    if PropsOf(o).Some? {
      var p := PropsOf(o).value;
      assert StaleNames(p, p) == {};
      assert Changed(p, p) == map[];
    }
  }

  /** Twins are the same vnode in the loop's sense and have equal props. */
  lemma TwinSame(a: Vnode, b: Vnode)
    requires Twin(a, b)
    ensures SameVnode(a, b) && PropsOf(a) == PropsOf(b) && NoNullProps(PropsOf(a)) && TextOf(a) == TextOf(b)
  {
  }

  /** Patching a vnode against a fresh copy of itself touches nothing in the host. */
  lemma {:induction false} TwinPatchNoop(o: Vnode, n: Vnode, h: HostState)
    requires Twin(o, n)
    ensures PatchVnode(o, n, h) == Done(h)
    decreases Size(o), 0
  {
    if o.id != n.id {
      TwinSame(o, n);
      EqualPropsNoop(o, n, h);
      match (ChildrenOf(o), ChildrenOf(n))
      case (ListChildren(a, xs), ListChildren(b, ys)) =>
        assert TwinList(xs, ys);
        if a != b {
          TwinLoopNoop(xs, ys, o.el, 0, h);
          assert UpdateChildren(xs, ys, o.el, h) == Done(h);
        }
        assert PatchContent(o, n, h) == Done(h);
      case _ =>
    }
  }

  /** The loop over two twin child lists matches them pair by pair from the start. */
  lemma {:induction false} TwinLoopNoop(xs: seq<Vnode>, ys: seq<Vnode>, p: Option<Handle>, i: nat, h: HostState)
    requires TwinList(xs, ys) && i <= |xs|
    ensures Loop(xs, ys, p, Scan(Wrap(xs), i, |xs| - 1, i, |ys| - 1, None), h) == Done(h)
    decreases ListSize(xs), 1, |xs| - i
  {
    var s := Scan(Wrap(xs), i, |xs| - 1, i, |ys| - 1, None);
    if i < |xs| {
      TwinListAt(xs, ys, i);
      TwinSame(xs[i], ys[i]);
      ListSizeBound(xs, i);
      TwinPatchNoop(xs[i], ys[i], h);
      assert Pick(ys, s) == Ok(StartStart);
      TwinLoopNoop(xs, ys, p, i + 1, h);
    }
  }

  // ---------------------------------------------------------------------------
  // The key map inside updateChildren

  /** Until the key map is built, no slot is blanked, and the new start index is
      ahead of the old start index by no more than the old end has retreated. */
  ghost predicate Unmapped(oldCh0: seq<Vnode>, s: Scan)
  {
    s.keyToIndex.None? ==> s.oldCh == Wrap(oldCh0) && s.newStart - s.oldStart <= |oldCh0| - 1 - s.oldEnd
  }

  /** It holds when the loop starts. */
  lemma UnmappedInit(oldCh: seq<Vnode>, newCh: seq<Vnode>)
    ensures Unmapped(oldCh, InitScan(oldCh, newCh))
  {
  }

  /** Every iteration that completes keeps it: the four pointer branches move one
      old and one new index and blank nothing, and the fallback builds the map. */
  lemma UnmappedStep(oldCh0: seq<Vnode>, newCh: seq<Vnode>, p: Option<Handle>, s: Scan, h: HostState)
    requires InRange(oldCh0, newCh, s) && Running(s) && Unmapped(oldCh0, s)
    requires Step(oldCh0, newCh, p, s, h).Stepped? && Step(oldCh0, newCh, p, s, h).out.thrown.None?
    ensures Unmapped(oldCh0, Step(oldCh0, newCh, p, s, h).scan)
  {
  }

  /** So the first fallback reads only filled slots inside the array: building the
      map over `oldStart..newStart` never throws in `updateChildren`, and the
      fallback always leaves the map built. */
  lemma UnmappedBuild(oldCh0: seq<Vnode>, newCh: seq<Vnode>, p: Option<Handle>, s: Scan, h: HostState)
    requires InRange(oldCh0, newCh, s) && Running(s) && Unmapped(oldCh0, s)
    ensures s.keyToIndex.None? ==> KeyToIndex(s.oldCh, s.oldStart, s.newStart).Ok?
    ensures Pick(newCh, s) == Ok(Keyed) ==> KeyedStep(oldCh0, newCh, p, s, h).scan.keyToIndex.Some?
  {
    KeyToIndexFails(s.oldCh, s.oldStart, s.newStart);
  }

  // ---------------------------------------------------------------------------
  // updateProps

  /** Name `k` gets a `setAttribute`: it is a new prop whose old value is null,
      undefined or different. */
  predicate Rewritten(op: Props, np: Props, k: string)
  {
    k in np && (Nullish(PropGet(op, k)) || PropGet(op, k) != np[k])
  }

  /** Name `k` is removed and not written back: an old prop whose new value is
      null or undefined and which the second loop leaves alone. */
  predicate Dropped(op: Props, np: Props, k: string)
  {
    k in op && Nullish(PropGet(np, k)) && !Rewritten(op, np, k)
  }

  /** With both props objects present and the element bound, `updateProps`
      succeeds; afterwards each rewritten name holds the string of its new value,
      each dropped name is gone, every other attribute is as it was, and one call
      is counted per removal and per write. Nothing but that element changes. */
  lemma UpdatePropsAttributes(o: Vnode, n: Vnode, h: HostState)
    requires Truthy(TagOf(o)) && PropsOf(o).Some? && PropsOf(n).Some? && o.el.Some?
    ensures var op, np, x := PropsOf(o).value, PropsOf(n).value, o.el.value;
      var r := UpdateProps(o, n, h);
      var before, after := AttrsOf(h, x), AttrsOf(r.host, x);
      r.thrown.None? &&
      (forall k :: Rewritten(op, np, k) ==> k in after && after[k] == ToJsString(np[k])) &&
      (forall k :: Dropped(op, np, k) ==> k !in after) &&
      (forall k :: !Rewritten(op, np, k) && !Dropped(op, np, k) ==>
         (k in after <==> k in before) && (k in before ==> after[k] == before[k])) &&
      r.host.count == h.count.(attrRemovals := h.count.attrRemovals + |StaleNames(op, np)|,
                               attrWrites := h.count.attrWrites + |Changed(op, np)|) &&
      r.host.parent == h.parent && r.host.next == h.next && r.host.rendered == h.rendered &&
      (forall y :: y != x ==> NodeAt(r.host, y) == NodeAt(h, y))
  {
    var op, np, x := PropsOf(o).value, PropsOf(n).value, o.el.value;
    var gone, writes := StaleNames(op, np), Changed(op, np);
    UpdatePropsBulk(o, n, h);
    BulkAttributes(h, x, gone, writes);
    var before, after := AttrsOf(h, x), AttrsOf(UpdateProps(o, n, h).host, x);
    forall k | Rewritten(op, np, k)
      ensures k in after && after[k] == ToJsString(np[k])
    {
      assert k in writes;
    }
    forall k | !Rewritten(op, np, k) && !Dropped(op, np, k)
      ensures (k in after <==> k in before) && (k in before ==> after[k] == before[k])
    {
      assert k !in gone && k !in writes;
    }
  }

  /** `updateProps` on two props objects and a bound element is one bulk removal
      followed by one bulk write. */
  lemma UpdatePropsBulk(o: Vnode, n: Vnode, h: HostState)
    requires Truthy(TagOf(o)) && PropsOf(o).Some? && PropsOf(n).Some? && o.el.Some?
    ensures var op, np, x := PropsOf(o).value, PropsOf(n).value, o.el.value;
      UpdateProps(o, n, h) ==
        Done(SetAttributes(RemoveAttributes(h, x, StaleNames(op, np)), x, Changed(op, np)))
  {
  }

  lemma BulkAttributes(h: HostState, x: Handle, gone: set<string>, writes: map<string, string>)
    ensures var h' := SetAttributes(RemoveAttributes(h, x, gone), x, writes);
      AttrsOf(h', x) == (AttrsOf(h, x) - gone) + writes &&
      h'.count == h.count.(attrRemovals := h.count.attrRemovals + |gone|,
                           attrWrites := h.count.attrWrites + |writes|) &&
      h'.parent == h.parent && h'.next == h.next && h'.rendered == h.rendered &&
      (forall y :: y != x ==> NodeAt(h', y) == NodeAt(h, y))
  {
    var h1 := RemoveAttributes(h, x, gone);
    RemovedAttributes(h, x, gone);
    WrittenAttributes(h1, x, writes);
  }

  lemma RemovedAttributes(h: HostState, x: Handle, gone: set<string>)
    ensures var h' := RemoveAttributes(h, x, gone);
      AttrsOf(h', x) == AttrsOf(h, x) - gone &&
      h'.count == h.count.(attrRemovals := h.count.attrRemovals + |gone|) &&
      h'.parent == h.parent && h'.next == h.next && h'.rendered == h.rendered &&
      (forall y :: y != x ==> NodeAt(h', y) == NodeAt(h, y))
  {
    if gone == {} {
      assert AttrsOf(h, x) - gone == AttrsOf(h, x);
    }
  }

  lemma WrittenAttributes(h: HostState, x: Handle, writes: map<string, string>)
    ensures var h' := SetAttributes(h, x, writes);
      AttrsOf(h', x) == AttrsOf(h, x) + writes &&
      h'.count == h.count.(attrWrites := h.count.attrWrites + |writes|) &&
      h'.parent == h.parent && h'.next == h.next && h'.rendered == h.rendered &&
      (forall y :: y != x ==> NodeAt(h', y) == NodeAt(h, y))
  {
    if writes == map[] {
      assert AttrsOf(h, x) + writes == AttrsOf(h, x);
    }
  }

  /** `updateProps` throws on a null props object exactly when the other side has
      at least one prop to visit. */
  lemma UpdatePropsNullProps(o: Vnode, n: Vnode, h: HostState)
    ensures UpdateProps(o, n, h).thrown == Some(NullProps) <==>
      Truthy(TagOf(o)) &&
      ((PropsOf(o).Some? && PropsOf(o).value.Keys != {} && PropsOf(n).None?) ||
       (PropsOf(o).None? && PropsOf(n).Some? && PropsOf(n).value.Keys != {}))
  {
  }

  // ---------------------------------------------------------------------------
  // patchVnode

  /** Patching a vnode with itself does nothing. */
  lemma PatchVnodeSameObject(v: Vnode, h: HostState)
    ensures PatchVnode(v, v, h) == Done(h)
  {
  }

  /** Two text nodes: the text is written only when it changed, and never when the
      old text is empty, since an empty string is falsy. */
  lemma TextNodePatch(o: Vnode, n: Vnode, h: HostState)
    requires o.TextNode? && n.TextNode? && o.id != n.id
    ensures PatchVnode(o, n, h) ==
      if o.text == "" || o.text == n.text then Done(h)
      else if o.el.None? then Threw(h, NullElement)
      else Done(SetTextContent(h, o.el.value, n.text))
  {
  }

  /** Any vnode with text (a text node, or an element with non-empty string
      children): `textContent` is written only when the texts differ, and then
      the props are updated as usual. */
  lemma TextPatch(o: Vnode, n: Vnode, h: HostState)
    requires o.id != n.id && Truthy(TextOf(o))
    ensures PatchVnode(o, n, h) ==
      if TextOf(o) == TextOf(n) then UpdateProps(o, n, h)
      else if o.el.None? then Threw(h, NullElement)
      else UpdateProps(o, n, SetTextContent(h, o.el.value, TextContent(TextOf(n))))
  {
  }

  /** Old array children are left untouched, apart from the props update, when
      the new vnode's children are the same array object, absent, or the empty string. */
  lemma ChildrenKept(o: Vnode, n: Vnode, h: HostState)
    requires o.id != n.id && ChildrenOf(o).ListChildren?
    requires ChildrenOf(n) == NoChildren || ChildrenOf(n) == TextChildren("") ||
             (ChildrenOf(n).ListChildren? && ChildrenOf(n).listId == ChildrenOf(o).listId)
    ensures PatchVnode(o, n, h) == UpdateProps(o, n, h)
  {
  }

  /** Old children absent or the empty string: nothing is reconciled, whatever
      the new children are, so new array children are never rendered. */
  lemma OldNoListKept(o: Vnode, n: Vnode, h: HostState)
    requires o.id != n.id && !Truthy(TextOf(o)) && !ChildrenOf(o).ListChildren?
    ensures PatchVnode(o, n, h) == UpdateProps(o, n, h)
  {
  }

  /** Different old and new arrays are reconciled before the props are. */
  lemma ChildrenReconciled(o: Vnode, n: Vnode, h: HostState)
    requires o.id != n.id && ChildrenOf(o).ListChildren? && ChildrenOf(n).ListChildren?
    requires ChildrenOf(n).listId != ChildrenOf(o).listId
    ensures var r := UpdateChildren(ChildrenOf(o).items, ChildrenOf(n).items, o.el, h);
      PatchVnode(o, n, h) == if r.thrown.Some? then r else UpdateProps(o, n, r.host)
  {
  }

  // ---------------------------------------------------------------------------
  // patch

  /** No old vnode: the new one is rendered and appended to the parent. */
  lemma PatchCreates(n: Vnode, p: Handle, h: HostState)
    requires Allocated(h) && p < h.next
    ensures var r := Patch(None, Some(n), Some(p), h);
      r.thrown.None? &&
      r.host.rendered == h.rendered + [Rendered(n.id, h.next)] &&
      ChildNodes(r.host, p) == ChildNodes(h, p) + [h.next] &&
      r.host.count == h.count.(inserts := h.count.inserts + 1)
  {
    AppendRendered(h, p, n.id);
  }

  /** No new vnode: the old one's host node is removed from the parent, and nothing is rendered. */
  lemma PatchRemoves(o: Vnode, p: Handle, h: HostState)
    requires o.el.Some? && ParentNode(h, o.el.value) == Some(p) && o.el.value in ChildNodes(h, p)
    ensures var r := Patch(Some(o), None, Some(p), h);
      var cs := ChildNodes(h, p);
      var i := IndexOf(cs, o.el.value);
      r.thrown.None? &&
      ChildNodes(r.host, p) == cs[..i] + cs[i + 1..] &&
      ParentNode(r.host, o.el.value) == None &&
      r.host.count == h.count.(removals := h.count.removals + 1) &&
      r.host.rendered == h.rendered
  {
    RemoveChildExact(h, p, o.el.value);
  }

  /** The same vnode in the `sameVnode` sense: patched in place, nothing rendered by `patch` itself. */
  lemma PatchUpdates(o: Vnode, n: Vnode, p: Option<Handle>, h: HostState)
    requires SameVnode(o, n)
    ensures Patch(Some(o), Some(n), p, h) == PatchVnode(o, n, h)
  {
  }

  /** A different vnode: the new one is rendered and replaces the old host node. */
  lemma PatchReplaces(o: Vnode, n: Vnode, p: Handle, h: HostState)
    requires !SameVnode(o, n) && Allocated(h) && p < h.next
    requires o.el.Some? && ParentNode(h, o.el.value) == Some(p)
    ensures var r := Patch(Some(o), Some(n), Some(p), h);
      r.thrown.None? &&
      r.host.rendered == h.rendered + [Rendered(n.id, h.next)] &&
      ParentNode(r.host, h.next) == Some(p) && ParentNode(r.host, o.el.value) == None &&
      r.host.count == h.count.(replacements := h.count.replacements + 1)
  {
    ReplaceRendered(h, p, o.el.value, n.id);
  }

  /** A different vnode under a parent whose child list is consistent: the new
      node takes exactly the old node's position among the parent's children. */
  lemma PatchReplacesInPlace(o: Vnode, n: Vnode, p: Handle, h: HostState)
    requires !SameVnode(o, n) && Allocated(h) && p < h.next
    requires o.el.Some? && ParentNode(h, o.el.value) == Some(p) && o.el.value in ChildNodes(h, p)
    requires Distinct(ChildNodes(h, p)) && forall y :: y in ChildNodes(h, p) ==> ParentNode(h, y) == Some(p)
    ensures var r := Patch(Some(o), Some(n), Some(p), h);
      var cs := ChildNodes(h, p);
      var i := IndexOf(cs, o.el.value);
      r.thrown.None? && ChildNodes(r.host, p) == cs[..i] + [h.next] + cs[i + 1..]
  {
    var (h1, x) := Render(h, n.id);
    assert Patch(Some(o), Some(n), Some(p), h) == Commit(h1, ReplaceChild(h1, p, x, o.el.value));
    ReplaceInPlace(h, p, o.el.value, n.id);
  }

  /** Neither vnode: reading `undefined.render` throws before anything happens. */
  lemma PatchNothing(p: Option<Handle>, h: HostState)
    ensures Patch(None, None, p, h) == Threw(h, UndefinedVnode)
  {
  }

  // ---------------------------------------------------------------------------
  // addNodes and removeNodes

  /** The renders `addNodes` performs: `children[s..e]` in order, bound to
      consecutive handles from `first`. */
  function RenderedRun(children: seq<Vnode>, s: int, e: int, first: Handle): (r: seq<Rendered>)
    requires 0 <= s && e < |children|
    ensures |r| == (if e < s then 0 else e - s + 1)
    decreases e - s
  {
    if e < s then [] else [Rendered(children[s].id, first)] + RenderedRun(children, s + 1, e, first + 1)
  }

  /** The handles `first`, `first + 1`, ..., `first + count - 1`. */
  function Handles(first: Handle, count: nat): (r: seq<Handle>)
    ensures |r| == count
    decreases count
  {
    if count == 0 then [] else [first] + Handles(first + 1, count - 1)
  }

  /** The host after one vnode is rendered and appended to `p`, written out:
      the fresh handle becomes `p`'s last child. */
  function Appended(h: HostState, p: Handle, vnode: nat): (r: HostState)
    ensures r.next == h.next + 1
  {
    var x := h.next;
    var node := NodeAt(h, p);
    h.(nodes := h.nodes[x := Blank][p := node.(children := node.children + [x])],
       parent := h.parent[x := p], next := x + 1,
       rendered := h.rendered + [Rendered(vnode, x)],
       count := h.count.(inserts := h.count.inserts + 1))
  }

  /** The host after `children[s..e]` are each appended in turn. */
  function AppendedRun(children: seq<Vnode>, s: int, e: int, p: Handle, h: HostState): HostState
    requires 0 <= s && e < |children|
    decreases e - s
  {
    if e < s then h else AppendedRun(children, s + 1, e, p, Appended(h, p, children[s].id))
  }

  lemma AppendedStep(h: HostState, p: Handle, vnode: nat)
    requires Allocated(h) && p < h.next
    ensures var (h1, x) := Render(h, vnode);
      AppendChild(h1, p, x) == Ok(Appended(h, p, vnode))
    ensures Allocated(Appended(h, p, vnode))
    ensures ChildNodes(Appended(h, p, vnode), p) == ChildNodes(h, p) + [h.next]
  {
    var (h1, x) := Render(h, vnode);
    assert Allocated(h1);
    AncestorBelow(h1, x, p, |h1.parent|);
    assert ParentNode(h1, x) == None;
    assert NodeAt(h1, p) == NodeAt(h, p);
  }

  /** Under an allocated parent, `addNodes` never throws: it ends in the
      appended-run host. */
  lemma {:induction false} AddNodesRun(children: seq<Vnode>, s: int, e: int, p: Handle, h: HostState)
    requires Allocated(h) && p < h.next && 0 <= s && e < |children|
    ensures AddNodes(children, s, e, Some(p), h) == Done(AppendedRun(children, s, e, p, h))
    ensures Allocated(AppendedRun(children, s, e, p, h))
    decreases e - s
  {
    if s <= e {
      AddNodesOnce(children, s, e, p, h);
      AddNodesRun(children, s + 1, e, p, Appended(h, p, children[s].id));
    }
  }

  lemma AddNodesOnce(children: seq<Vnode>, s: int, e: int, p: Handle, h: HostState)
    requires Allocated(h) && p < h.next && 0 <= s <= e < |children|
    ensures AddNodes(children, s, e, Some(p), h) ==
            AddNodes(children, s + 1, e, Some(p), Appended(h, p, children[s].id))
    ensures Allocated(Appended(h, p, children[s].id))
  {
    AppendedStep(h, p, children[s].id);
  }

  lemma {:induction false} AppendedRunChildren(children: seq<Vnode>, s: int, e: int, p: Handle, h: HostState)
    requires Allocated(h) && p < h.next && 0 <= s <= e + 1 && e < |children|
    ensures var r := AppendedRun(children, s, e, p, h);
      r.next == h.next + (e - s + 1) &&
      ChildNodes(r, p) == ChildNodes(h, p) + Handles(h.next, e - s + 1)
    decreases e - s
  {
    if s <= e {
      var h2 := Appended(h, p, children[s].id);
      AppendedStep(h, p, children[s].id);
      AppendedRunChildren(children, s + 1, e, p, h2);
      SeqAssoc(ChildNodes(h, p), [h.next], Handles(h2.next, e - s));
    } else {
      assert ChildNodes(h, p) + [] == ChildNodes(h, p);
    }
  }

  lemma {:induction false} AppendedRunRecords(children: seq<Vnode>, s: int, e: int, p: Handle, h: HostState)
    requires 0 <= s <= e + 1 && e < |children|
    ensures var r := AppendedRun(children, s, e, p, h);
      r.rendered == h.rendered + RenderedRun(children, s, e, h.next) &&
      r.count == h.count.(inserts := h.count.inserts + (e - s + 1))
    decreases e - s
  {
    if s <= e {
      var h2 := Appended(h, p, children[s].id);
      AppendedRunRecords(children, s + 1, e, p, h2);
      SeqAssoc(h.rendered, [Rendered(children[s].id, h.next)], RenderedRun(children, s + 1, e, h2.next));
    } else {
      assert h.rendered + [] == h.rendered;
    }
  }

  /** Under an allocated parent, `addNodes` over a range renders each vnode of
      it in order and appends it, so the parent's children gain the fresh handles
      at the end, one insertion counted per vnode and nothing thrown. */
  lemma AddNodesAppends(children: seq<Vnode>, s: int, e: int, p: Handle, h: HostState)
    requires Allocated(h) && p < h.next && 0 <= s <= e + 1 && e < |children|
    ensures var r := AddNodes(children, s, e, Some(p), h);
      var k := e - s + 1;
      r.thrown.None? && Allocated(r.host) && r.host.next == h.next + k &&
      ChildNodes(r.host, p) == ChildNodes(h, p) + Handles(h.next, k) &&
      r.host.rendered == h.rendered + RenderedRun(children, s, e, h.next) &&
      r.host.count == h.count.(inserts := h.count.inserts + k)
  {
    AddNodesRun(children, s, e, p, h);
    AppendedRunChildren(children, s, e, p, h);
    AppendedRunRecords(children, s, e, p, h);
  }

  lemma SeqAssoc<T>(a: seq<T>, b: seq<T>, c: seq<T>)
    ensures (a + b) + c == a + (b + c)
  {}

  /** The host node of a slot. */
  function ElOf(v: Option<Vnode>): Option<Handle>
  {
    if v.Some? then v.value.el else None
  }

  /** When every vnode of the range is bound to a distinct child of the parent,
      `removeNodes` detaches exactly those nodes, in one call each. */
  lemma {:induction false} RemoveNodesDetaches(children: seq<Option<Vnode>>, s: int, e: int, p: Handle, h: HostState)
    requires 0 <= s && e < |children|
    requires forall i :: s <= i <= e ==> ElOf(children[i]).Some? && ParentNode(h, ElOf(children[i]).value) == Some(p)
    requires forall i, j :: s <= i < j <= e ==> ElOf(children[i]) != ElOf(children[j])
    ensures var r := RemoveNodes(children, s, e, Some(p), h);
      r.thrown.None? &&
      (forall i :: s <= i <= e ==> ParentNode(r.host, ElOf(children[i]).value) == None) &&
      (forall y: Handle :: (forall i :: s <= i <= e ==> ElOf(children[i]) != Some(y)) ==>
         ParentNode(r.host, y) == ParentNode(h, y)) &&
      (forall y: Handle :: y != p ==> ChildNodes(r.host, y) == ChildNodes(h, y)) &&
      r.host.count == h.count.(removals := h.count.removals + (if e < s then 0 else e - s + 1)) &&
      r.host.rendered == h.rendered && r.host.next == h.next
    decreases e - s
  {
    if s <= e {
      var c := ElOf(children[s]).value;
      var h1 := RemoveChild(h, p, c).value;
      assert forall y: Handle :: y != c ==> ParentNode(h1, y) == ParentNode(h, y);
      RemoveNodesDetaches(children, s + 1, e, p, h1);
    }
  }
}
