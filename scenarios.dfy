/** Worked passes of `updateChildren` over keyed lists, computed through the
    model: the reorderings it handles with few host calls, and the inputs on
    which the code as written throws or re-renders. */
module Scenarios {
  import opened Base
  import opened Vnodes
  import opened HostModel
  import opened Reconcile
  import opened Properties

  /** `createElement('p', {key: k})`, bound to host node `el`. */
  function Item(id: nat, k: string, el: Option<Handle>): Vnode
  {
    Element(id, "p", Some(map["key" := Str(k)]), NoChildren, Str(k), el)
  }

  /** Node 0 is the parent of exactly `cs`, in that order. */
  predicate HoldsList(h: HostState, cs: seq<Handle>)
  {
    0 !in h.parent && ChildNodes(h, 0) == cs && forall i :: 0 <= i < |cs| ==> ParentNode(h, cs[i]) == Some(0)
  }

  /** Two items of the same key are twins, whatever their host nodes: the
      scenarios below can be read with items for their vnodes. */
  lemma ItemsTwin(i: nat, j: nat, k: string, el: Option<Handle>, el2: Option<Handle>)
    ensures Twin(Item(i, k, el), Item(j, k, el2))
  {
  }

  /** Items of different keys are never the same vnode. */
  lemma ItemsDiffer(i: nat, j: nat, k1: string, k2: string, el: Option<Handle>, el2: Option<Handle>)
    requires k1 != k2
    ensures !SameVnode(Item(i, k1, el), Item(j, k2, el2))
  {
    assert KeyOf(Item(i, k1, el)) != KeyOf(Item(j, k2, el2));
  }

  /** A start/start match whose patch changes nothing advances both starts. */
  lemma LoopStartStart(oldCh0: seq<Vnode>, newCh: seq<Vnode>, p: Option<Handle>, s: Scan, h: HostState)
    requires InRange(oldCh0, newCh, s) && Running(s) && Pick(newCh, s) == Ok(StartStart)
    requires PatchVnode(s.oldCh[s.oldStart].value, newCh[s.newStart], h) == Done(h)
    ensures Loop(oldCh0, newCh, p, s, h) ==
            Loop(oldCh0, newCh, p, s.(oldStart := s.oldStart + 1, newStart := s.newStart + 1), h)
  {
    assert Step(oldCh0, newCh, p, s, h) ==
           Stepped(StartStart, s.(oldStart := s.oldStart + 1, newStart := s.newStart + 1), Done(h));
    LoopStepped(oldCh0, newCh, p, s, h);
  }

  /** An end/end match whose patch changes nothing retreats both ends. */
  lemma LoopEndEnd(oldCh0: seq<Vnode>, newCh: seq<Vnode>, p: Option<Handle>, s: Scan, h: HostState)
    requires InRange(oldCh0, newCh, s) && Running(s) && Pick(newCh, s) == Ok(EndEnd)
    requires PatchVnode(s.oldCh[s.oldEnd].value, newCh[s.newEnd], h) == Done(h)
    ensures Loop(oldCh0, newCh, p, s, h) ==
            Loop(oldCh0, newCh, p, s.(oldEnd := s.oldEnd - 1, newEnd := s.newEnd - 1), h)
  {
    assert Step(oldCh0, newCh, p, s, h) ==
           Stepped(EndEnd, s.(oldEnd := s.oldEnd - 1, newEnd := s.newEnd - 1), Done(h));
    LoopStepped(oldCh0, newCh, p, s, h);
  }

  /** An old start/new end match: after a no-op patch, the old start's node moves
      after the old end's. */
  lemma LoopStartEnd(oldCh0: seq<Vnode>, newCh: seq<Vnode>, p: Option<Handle>, s: Scan, h: HostState)
    requires InRange(oldCh0, newCh, s) && Running(s) && Pick(newCh, s) == Ok(StartEnd)
    requires PatchVnode(s.oldCh[s.oldStart].value, newCh[s.newEnd], h) == Done(h)
    requires MoveAfter(h, p, s.oldCh[s.oldStart].value.el, s.oldCh[s.oldEnd].value.el).thrown.None?
    ensures Loop(oldCh0, newCh, p, s, h) ==
            Loop(oldCh0, newCh, p, s.(oldStart := s.oldStart + 1, newEnd := s.newEnd - 1),
                 MoveAfter(h, p, s.oldCh[s.oldStart].value.el, s.oldCh[s.oldEnd].value.el).host)
  {
    assert Step(oldCh0, newCh, p, s, h) ==
           Stepped(StartEnd, s.(oldStart := s.oldStart + 1, newEnd := s.newEnd - 1),
                   MoveAfter(h, p, s.oldCh[s.oldStart].value.el, s.oldCh[s.oldEnd].value.el));
    LoopStepped(oldCh0, newCh, p, s, h);
  }

  /** An old end/new start match: after a no-op patch, the old end's node moves
      before the old start's. */
  lemma LoopEndStart(oldCh0: seq<Vnode>, newCh: seq<Vnode>, p: Option<Handle>, s: Scan, h: HostState)
    requires InRange(oldCh0, newCh, s) && Running(s) && Pick(newCh, s) == Ok(EndStart)
    requires PatchVnode(s.oldCh[s.oldEnd].value, newCh[s.newStart], h) == Done(h)
    requires MoveBefore(h, p, s.oldCh[s.oldEnd].value.el, s.oldCh[s.oldStart].value.el).thrown.None?
    ensures Loop(oldCh0, newCh, p, s, h) ==
            Loop(oldCh0, newCh, p, s.(oldEnd := s.oldEnd - 1, newStart := s.newStart + 1),
                 MoveBefore(h, p, s.oldCh[s.oldEnd].value.el, s.oldCh[s.oldStart].value.el).host)
  {
    assert Step(oldCh0, newCh, p, s, h) ==
           Stepped(EndStart, s.(oldEnd := s.oldEnd - 1, newStart := s.newStart + 1),
                   MoveBefore(h, p, s.oldCh[s.oldEnd].value.el, s.oldCh[s.oldStart].value.el));
    LoopStepped(oldCh0, newCh, p, s, h);
  }

  /** The key map a fallback iteration uses: the cached one, or one built over
      old indices `oldStart..newStart`. */
  function MapFor(s: Scan): Result<map<string, int>>
    requires 0 <= s.oldStart
  {
    if s.keyToIndex.Some? then Ok(s.keyToIndex.value) else KeyToIndex(s.oldCh, s.oldStart, s.newStart)
  }

  /** A fallback iteration that finds a matching vnode at index `k`: after a
      no-op patch its node moves before the old start's and its slot is blanked. */
  lemma LoopKeyedMove(oldCh0: seq<Vnode>, newCh: seq<Vnode>, p: Option<Handle>, s: Scan, h: HostState,
                      m: map<string, int>, k: int)
    requires InRange(oldCh0, newCh, s) && Running(s) && Pick(newCh, s) == Ok(Keyed) && MapFor(s) == Ok(m)
    requires KeyName(newCh[s.newStart]) in m && m[KeyName(newCh[s.newStart])] == k && k != 0
    requires 0 <= k < |s.oldCh| && s.oldCh[k].Some? && SameVnode(s.oldCh[k].value, newCh[s.newStart])
    requires PatchVnode(s.oldCh[k].value, newCh[s.newStart], h) == Done(h)
    requires MoveBefore(h, p, s.oldCh[k].value.el, s.oldCh[s.oldStart].value.el).thrown.None?
    ensures Loop(oldCh0, newCh, p, s, h) ==
            Loop(oldCh0, newCh, p, s.(oldCh := s.oldCh[k := None], newStart := s.newStart + 1, keyToIndex := Some(m)),
                 MoveBefore(h, p, s.oldCh[k].value.el, s.oldCh[s.oldStart].value.el).host)
  {
    var s1 := s.(oldCh := s.oldCh[k := None], newStart := s.newStart + 1, keyToIndex := Some(m));
    var out := MoveBefore(h, p, s.oldCh[k].value.el, s.oldCh[s.oldStart].value.el);
    assert KeyedStep(oldCh0, newCh, p, s, h) == Stepped(Keyed, s1, out);
    assert Step(oldCh0, newCh, p, s, h) == Stepped(Keyed, s1, out);
    LoopStepped(oldCh0, newCh, p, s, h);
  }

  /** A fallback iteration whose key is not found (or found at index 0) renders
      the new vnode before the old start's node. */
  lemma LoopKeyedRender(oldCh0: seq<Vnode>, newCh: seq<Vnode>, p: Option<Handle>, s: Scan, h: HostState,
                        m: map<string, int>)
    requires InRange(oldCh0, newCh, s) && Running(s) && Pick(newCh, s) == Ok(Keyed) && MapFor(s) == Ok(m)
    requires KeyName(newCh[s.newStart]) !in m || m[KeyName(newCh[s.newStart])] == 0
    requires RenderBefore(h, p, newCh[s.newStart].id, s.oldCh[s.oldStart].value.el).thrown.None?
    ensures Loop(oldCh0, newCh, p, s, h) ==
            Loop(oldCh0, newCh, p, s.(newStart := s.newStart + 1, keyToIndex := Some(m)),
                 RenderBefore(h, p, newCh[s.newStart].id, s.oldCh[s.oldStart].value.el).host)
  {
    var s1 := s.(newStart := s.newStart + 1, keyToIndex := Some(m));
    var out := RenderBefore(h, p, newCh[s.newStart].id, s.oldCh[s.oldStart].value.el);
    assert KeyedStep(oldCh0, newCh, p, s, h) == Stepped(Keyed, s1, out);
    assert Step(oldCh0, newCh, p, s, h) == Stepped(Keyed, s1, out);
    LoopStepped(oldCh0, newCh, p, s, h);
  }

  /** A fallback iteration whose key points at a blanked slot throws. */
  lemma LoopKeyedBlank(oldCh0: seq<Vnode>, newCh: seq<Vnode>, p: Option<Handle>, s: Scan, h: HostState,
                       m: map<string, int>, k: int)
    requires InRange(oldCh0, newCh, s) && Running(s) && Pick(newCh, s) == Ok(Keyed) && MapFor(s) == Ok(m)
    requires KeyName(newCh[s.newStart]) in m && m[KeyName(newCh[s.newStart])] == k && k != 0
    requires 0 <= k < |s.oldCh| && s.oldCh[k].None?
    ensures Loop(oldCh0, newCh, p, s, h) == Threw(h, DuplicateKey)
  {
    assert KeyedStep(oldCh0, newCh, p, s, h).out == Threw(h, DuplicateKey);
  }

  /** An iteration that compares a blanked slot throws. */
  lemma LoopStuck(oldCh0: seq<Vnode>, newCh: seq<Vnode>, p: Option<Handle>, s: Scan, h: HostState)
    requires InRange(oldCh0, newCh, s) && Running(s) && Pick(newCh, s).Err?
    ensures Loop(oldCh0, newCh, p, s, h) == Threw(h, UndefinedVnode)
  {
  }

  /** A move of an attached child of the root `p` before `ref`, with the
      resulting child list given as `after`. */
  lemma Moved(h: HostState, p: Handle, x: Handle, ref: Option<Handle>, after: seq<Handle>) returns (h1: HostState)
    requires p !in h.parent && x != p && ParentNode(h, x) == Some(p)
    requires ref.Some? ==> ref != Some(x) && ParentNode(h, ref.value) == Some(p)
    requires after == Placed(RemoveFirst(ChildNodes(h, p), x), x, ref)
    ensures MoveBefore(h, Some(p), Some(x), ref) == Done(h1)
    ensures ChildNodes(h1, p) == after && p !in h1.parent
    ensures forall y :: ParentNode(h1, y) == ParentNode(h, y)
    ensures h1.count == h.count.(moves := h.count.moves + 1) && h1.rendered == h.rendered && h1.next == h.next
  {
    RootNotBelow(h, x, p);
    InsertMoves(h, p, x, ref);
    h1 := InsertBefore(h, p, x, ref).value;
    assert forall y :: ParentNode(h1, y) == ParentNode(h, y) by {
      forall y ensures ParentNode(h1, y) == ParentNode(h, y) {
        if y != x {
        }
      }
    }
  }

  /** Removing a one-slot range is one `removeChild` of that slot's node. */
  lemma RemoveOne(slots: seq<Option<Vnode>>, i: nat, p: Handle, h: HostState)
    requires i < |slots| && slots[i].Some? && slots[i].value.el.Some?
    requires ParentNode(h, slots[i].value.el.value) == Some(p)
    ensures RemoveChild(h, p, slots[i].value.el.value).Ok?
    ensures RemoveNodes(slots, i, i, Some(p), h) == Done(RemoveChild(h, p, slots[i].value.el.value).value)
  {
  }

  /** [A,B,C] to [A,C]: A and C match at the ends and B's node is removed;
      nothing is moved or rendered. */
  lemma DropMiddle(a: Vnode, b: Vnode, c: Vnode, a2: Vnode, c2: Vnode, h: HostState)
    requires Twin(a, a2) && Twin(c, c2) && !SameVnode(b, c2)
    requires a.el == Some(1) && b.el == Some(2) && c.el == Some(3) && HoldsList(h, [1, 2, 3])
    ensures var r := UpdateChildren([a, b, c], [a2, c2], Some(0), h);
      r.thrown.None? && ChildNodes(r.host, 0) == [1, 3] && ParentNode(r.host, 2) == None &&
      r.host.count == h.count.(removals := h.count.removals + 1) && r.host.rendered == h.rendered
  {
    var slots := [Some(a), Some(b), Some(c)];
    DropMiddleLoop(a, b, c, a2, c2, h);
    assert ParentNode(h, 2) == Some(0) by { assert [1, 2, 3][1] == 2; }
    RemoveOne(slots, 1, 0, h);
    RemoveChildExact(h, 0, 2);
    assert IndexOf([1, 2, 3], 2) == 1;
  }

  lemma DropMiddleLoop(a: Vnode, b: Vnode, c: Vnode, a2: Vnode, c2: Vnode, h: HostState)
    requires Twin(a, a2) && Twin(c, c2) && !SameVnode(b, c2)
    ensures UpdateChildren([a, b, c], [a2, c2], Some(0), h) == RemoveNodes([Some(a), Some(b), Some(c)], 1, 2 - 1, Some(0), h)
  {
    var olds, news := [a, b, c], [a2, c2];
    var slots := [Some(a), Some(b), Some(c)];
    assert Wrap(olds) == slots;
    TwinSame(a, a2);
    TwinPatchNoop(a, a2, h);
    LoopStartStart(olds, news, Some(0), Scan(slots, 0, 2, 0, 1, None), h);
    TwinSame(c, c2);
    TwinPatchNoop(c, c2, h);
    LoopEndEnd(olds, news, Some(0), Scan(slots, 1, 2, 1, 1, None), h);
  }

  /** [A,B] to [A,B,C]: both old vnodes match in place and C is rendered and
      appended; nothing is moved or removed. */
  lemma AppendLast(a: Vnode, b: Vnode, a2: Vnode, b2: Vnode, c2: Vnode, h: HostState)
    requires Twin(a, a2) && Twin(b, b2)
    requires a.el == Some(1) && b.el == Some(2) && HoldsList(h, [1, 2]) && Allocated(h) && 0 < h.next
    ensures var r := UpdateChildren([a, b], [a2, b2, c2], Some(0), h);
      r.thrown.None? && ChildNodes(r.host, 0) == [1, 2, h.next] &&
      r.host.rendered == h.rendered + [Rendered(c2.id, h.next)] &&
      r.host.count == h.count.(inserts := h.count.inserts + 1)
  {
    AppendLastLoop(a, b, a2, b2, c2, h);
    AddNodesAppends([a2, b2, c2], 2, 2, 0, h);
  }

  lemma AppendLastLoop(a: Vnode, b: Vnode, a2: Vnode, b2: Vnode, c2: Vnode, h: HostState)
    requires Twin(a, a2) && Twin(b, b2)
    ensures UpdateChildren([a, b], [a2, b2, c2], Some(0), h) == AddNodes([a2, b2, c2], 2, 2, Some(0), h)
  {
    var olds, news := [a, b], [a2, b2, c2];
    var slots := [Some(a), Some(b)];
    assert Wrap(olds) == slots;
    TwinSame(a, a2);
    TwinPatchNoop(a, a2, h);
    LoopStartStart(olds, news, Some(0), Scan(slots, 0, 1, 0, 2, None), h);
    TwinSame(b, b2);
    TwinPatchNoop(b, b2, h);
    LoopStartStart(olds, news, Some(0), Scan(slots, 1, 1, 1, 2, None), h);
  }

  /** [A,B] to [Z,A,B]: B and then A match at the ends, and Z is rendered and
      appended, since `addNodes` always appends: the host ends as [A,B,Z]. */
  lemma Prepend(a: Vnode, b: Vnode, z2: Vnode, a2: Vnode, b2: Vnode, h: HostState)
    requires Twin(a, a2) && Twin(b, b2) && !SameVnode(a, z2)
    requires a.el == Some(1) && b.el == Some(2) && HoldsList(h, [1, 2]) && Allocated(h) && 0 < h.next
    ensures var r := UpdateChildren([a, b], [z2, a2, b2], Some(0), h);
      r.thrown.None? && ChildNodes(r.host, 0) == [1, 2, h.next] &&
      r.host.rendered == h.rendered + [Rendered(z2.id, h.next)] &&
      r.host.count == h.count.(inserts := h.count.inserts + 1)
  {
    PrependLoop(a, b, z2, a2, b2, h);
    AddNodesAppends([z2, a2, b2], 0, 0, 0, h);
  }

  lemma PrependLoop(a: Vnode, b: Vnode, z2: Vnode, a2: Vnode, b2: Vnode, h: HostState)
    requires Twin(a, a2) && Twin(b, b2) && !SameVnode(a, z2)
    ensures UpdateChildren([a, b], [z2, a2, b2], Some(0), h) == AddNodes([z2, a2, b2], 0, 0, Some(0), h)
  {
    var olds, news := [a, b], [z2, a2, b2];
    var slots := [Some(a), Some(b)];
    assert Wrap(olds) == slots;
    TwinSame(b, b2);
    TwinPatchNoop(b, b2, h);
    LoopEndEnd(olds, news, Some(0), Scan(slots, 0, 1, 0, 2, None), h);
    TwinSame(a, a2);
    TwinPatchNoop(a, a2, h);
    LoopEndEnd(olds, news, Some(0), Scan(slots, 0, 0, 0, 1, None), h);
  }

  /** [A,B,C,D] to [B,C,D,A]: one move (A after D), then three matches in place. */
  lemma RotateFirst(a: Vnode, b: Vnode, c: Vnode, d: Vnode, a2: Vnode, b2: Vnode, c2: Vnode, d2: Vnode, h: HostState)
    requires Twin(a, a2) && Twin(b, b2) && Twin(c, c2) && Twin(d, d2)
    requires !SameVnode(a, b2) && !SameVnode(d, a2)
    requires a.el == Some(1) && b.el == Some(2) && c.el == Some(3) && d.el == Some(4) && HoldsList(h, [1, 2, 3, 4])
    ensures var r := UpdateChildren([a, b, c, d], [b2, c2, d2, a2], Some(0), h);
      r.thrown.None? && ChildNodes(r.host, 0) == [2, 3, 4, 1] &&
      r.host.count == h.count.(moves := h.count.moves + 1) && r.host.rendered == h.rendered
  {
    var h1 := RotateFirstMove(h);
    RotateFirstLoop(a, b, c, d, a2, b2, c2, d2, h, h1);
  }

  /** The move of [A,B,C,D] to [B,C,D,A]: node 1 goes after node 4, the last child. */
  lemma RotateFirstMove(h: HostState) returns (h1: HostState)
    requires HoldsList(h, [1, 2, 3, 4])
    ensures MoveAfter(h, Some(0), Some(1), Some(4)) == Done(h1)
    ensures ChildNodes(h1, 0) == [2, 3, 4, 1]
    ensures h1.count == h.count.(moves := h.count.moves + 1) && h1.rendered == h.rendered
  {
    assert ParentNode(h, 4) == Some(0) by { assert [1, 2, 3, 4][3] == 4; }
    assert ParentNode(h, 1) == Some(0) by { assert [1, 2, 3, 4][0] == 1; }
    LastHasNoSibling(h, [1, 2, 3], 4);
    RotateSeq();
    h1 := Moved(h, 0, 1, None, [2, 3, 4, 1]);
  }

  lemma LastHasNoSibling(h: HostState, front: seq<Handle>, x: Handle)
    requires ChildNodes(h, 0) == front + [x] && ParentNode(h, x) == Some(0) && x !in front
    ensures NextSibling(h, x) == None
  {
    assert IndexOf(front + [x], x) == |front| by {
      assert (front + [x])[|front|] == x;
      assert (front + [x])[..|front|] == front;
    }
  }

  lemma RotateSeq()
    ensures Placed(RemoveFirst([1, 2, 3, 4], 1), 1, None) == [2, 3, 4, 1]
  {
    assert RemoveFirst([1, 2, 3, 4], 1) == [2, 3, 4];
  }

  lemma RotateFirstLoop(a: Vnode, b: Vnode, c: Vnode, d: Vnode, a2: Vnode, b2: Vnode, c2: Vnode, d2: Vnode,
                        h: HostState, h1: HostState)
    requires Twin(a, a2) && Twin(b, b2) && Twin(c, c2) && Twin(d, d2)
    requires !SameVnode(a, b2) && !SameVnode(d, a2)
    requires a.el == Some(1) && d.el == Some(4) && MoveAfter(h, Some(0), Some(1), Some(4)) == Done(h1)
    ensures UpdateChildren([a, b, c, d], [b2, c2, d2, a2], Some(0), h) == Done(h1)
  {
    var olds, news := [a, b, c, d], [b2, c2, d2, a2];
    var slots := [Some(a), Some(b), Some(c), Some(d)];
    assert Wrap(olds) == slots;
    TwinSame(a, a2); TwinSame(b, b2); TwinSame(d, d2);
    TwinPatchNoop(a, a2, h);
    assert Pick(news, Scan(slots, 0, 3, 0, 3, None)) == Ok(StartEnd);
    LoopStartEnd(olds, news, Some(0), Scan(slots, 0, 3, 0, 3, None), h);
    RotateFirstTail(a, b, c, d, a2, b2, c2, d2, h1);
  }

  /** After the move, B, C and D match at the starts with nothing to do. */
  lemma RotateFirstTail(a: Vnode, b: Vnode, c: Vnode, d: Vnode, a2: Vnode, b2: Vnode, c2: Vnode, d2: Vnode,
                        h1: HostState)
    requires Twin(b, b2) && Twin(c, c2) && Twin(d, d2)
    ensures Loop([a, b, c, d], [b2, c2, d2, a2], Some(0), Scan([Some(a), Some(b), Some(c), Some(d)], 1, 3, 0, 2, None), h1)
            == Done(h1)
  {
    var olds, news := [a, b, c, d], [b2, c2, d2, a2];
    var slots := [Some(a), Some(b), Some(c), Some(d)];
    TwinSame(b, b2); TwinSame(c, c2); TwinSame(d, d2);
    TwinPatchNoop(b, b2, h1);
    LoopStartStart(olds, news, Some(0), Scan(slots, 1, 3, 0, 2, None), h1);
    TwinPatchNoop(c, c2, h1);
    LoopStartStart(olds, news, Some(0), Scan(slots, 2, 3, 1, 2, None), h1);
    TwinPatchNoop(d, d2, h1);
    LoopStartStart(olds, news, Some(0), Scan(slots, 3, 3, 2, 2, None), h1);
  }

  /** [A,B,C] to [B]: no end matches, and the key map is built over old indices
      0..0 only, so B is not found: a new node is rendered for it and all three
      old nodes, B's included, are removed. */
  lemma KeyRangeMiss(a: Vnode, b: Vnode, c: Vnode, b2: Vnode, h: HostState)
    requires !SameVnode(a, b2) && !SameVnode(c, b2)
    requires a.el == Some(1) && b.el == Some(2) && c.el == Some(3) && HoldsList(h, [1, 2, 3])
    requires Allocated(h)
    ensures var r := UpdateChildren([a, b, c], [b2], Some(0), h);
      r.thrown.None? && ParentNode(r.host, h.next) == Some(0) &&
      ParentNode(r.host, 1) == None && ParentNode(r.host, 2) == None && ParentNode(r.host, 3) == None &&
      r.host.rendered == h.rendered + [Rendered(b2.id, h.next)] &&
      r.host.count == h.count.(inserts := h.count.inserts + 1, removals := h.count.removals + 3)
  {
    var h1 := KeyRangeMissRender(b2.id, h);
    KeyRangeMissLoop(a, b, c, b2, h, h1);
    RemoveThree(a, b, c, h.next, h1);
  }

  /** Removing old nodes 1, 2 and 3 detaches exactly those. */
  lemma RemoveThree(a: Vnode, b: Vnode, c: Vnode, x: Handle, h: HostState)
    requires a.el == Some(1) && b.el == Some(2) && c.el == Some(3) && x != 1 && x != 2 && x != 3
    requires ParentNode(h, 1) == Some(0) && ParentNode(h, 2) == Some(0) && ParentNode(h, 3) == Some(0)
    ensures var r := RemoveNodes([Some(a), Some(b), Some(c)], 0, 2, Some(0), h);
      r.thrown.None? && ParentNode(r.host, x) == ParentNode(h, x) &&
      ParentNode(r.host, 1) == None && ParentNode(r.host, 2) == None && ParentNode(r.host, 3) == None &&
      r.host.count == h.count.(removals := h.count.removals + 3) && r.host.rendered == h.rendered
  {
    var slots := [Some(a), Some(b), Some(c)];
    assert ElOf(slots[0]) == Some(1) && ElOf(slots[1]) == Some(2) && ElOf(slots[2]) == Some(3);
    RemoveNodesDetaches(slots, 0, 2, 0, h);
  }

  /** The render of [A,B,C] to [B]: the new node goes before node 1. */
  lemma KeyRangeMissRender(id: nat, h: HostState) returns (h1: HostState)
    requires HoldsList(h, [1, 2, 3]) && Allocated(h)
    ensures RenderBefore(h, Some(0), id, Some(1)) == Done(h1)
    ensures 3 < h.next && ParentNode(h1, h.next) == Some(0)
    ensures ParentNode(h1, 1) == Some(0) && ParentNode(h1, 2) == Some(0) && ParentNode(h1, 3) == Some(0)
    ensures h1.rendered == h.rendered + [Rendered(id, h.next)]
    ensures h1.count == h.count.(inserts := h.count.inserts + 1)
  {
    assert ParentNode(h, 1) == Some(0) by { assert [1, 2, 3][0] == 1; }
    assert ParentNode(h, 2) == Some(0) by { assert [1, 2, 3][1] == 2; }
    assert ParentNode(h, 3) == Some(0) by { assert [1, 2, 3][2] == 3; }
    var (h0, x) := Render(h, id);
    assert 1 in h.parent && 2 in h.parent && 3 in h.parent;
    RootNotBelow(h0, x, 0);
    InsertFresh(h0, 0, x, Some(1));
    h1 := RenderBefore(h, Some(0), id, Some(1)).host;
  }

  lemma KeyRangeMissLoop(a: Vnode, b: Vnode, c: Vnode, b2: Vnode, h: HostState, h1: HostState)
    requires !SameVnode(a, b2) && !SameVnode(c, b2) && a.el == Some(1)
    requires RenderBefore(h, Some(0), b2.id, Some(1)) == Done(h1)
    ensures UpdateChildren([a, b, c], [b2], Some(0), h) == RemoveNodes([Some(a), Some(b), Some(c)], 0, 2, Some(0), h1)
  {
    var olds, news := [a, b, c], [b2];
    var slots := [Some(a), Some(b), Some(c)];
    assert Wrap(olds) == slots;
    var s0 := Scan(slots, 0, 2, 0, 0, None);
    assert Pick(news, s0) == Ok(Keyed);
    var m := map[KeyName(a) := 0];
    assert MapFor(s0) == Ok(m);
    LoopKeyedRender(olds, news, Some(0), s0, h, m);
  }

  /** The two moves shared by [A,B,C,D] to [D,B,..]: D goes before A (an end
      match), then B, found through the key map, goes before A. */
  lemma TwoMoves(h: HostState) returns (h1: HostState, h2: HostState)
    requires HoldsList(h, [1, 2, 3, 4])
    ensures MoveBefore(h, Some(0), Some(4), Some(1)) == Done(h1)
    ensures MoveBefore(h1, Some(0), Some(2), Some(1)) == Done(h2)
    ensures ChildNodes(h2, 0) == [4, 2, 1, 3]
    ensures h2.count == h.count.(moves := h.count.moves + 2) && h2.rendered == h.rendered
  {
    assert ParentNode(h, 1) == Some(0) by { assert [1, 2, 3, 4][0] == 1; }
    assert ParentNode(h, 2) == Some(0) by { assert [1, 2, 3, 4][1] == 2; }
    assert ParentNode(h, 4) == Some(0) by { assert [1, 2, 3, 4][3] == 4; }
    TwoMovesSeq();
    h1 := Moved(h, 0, 4, Some(1), [4, 1, 2, 3]);
    h2 := Moved(h1, 0, 2, Some(1), [4, 2, 1, 3]);
  }

  lemma TwoMovesSeq()
    ensures Placed(RemoveFirst([1, 2, 3, 4], 4), 4, Some(1)) == [4, 1, 2, 3]
    ensures Placed(RemoveFirst([4, 1, 2, 3], 2), 2, Some(1)) == [4, 2, 1, 3]
  {
    FirstMoveSeq();
    SecondMoveSeq();
  }

  lemma FirstMoveSeq()
    ensures Placed(RemoveFirst([1, 2, 3, 4], 4), 4, Some(1)) == [4, 1, 2, 3]
  {
    assert [1, 2, 3, 4] == [1, 2, 3] + [4];
    RemoveLast([1, 2, 3], 4);
    PlacedFront([1, 2, 3], 4, 1);
  }

  lemma SecondMoveSeq()
    ensures Placed(RemoveFirst([4, 1, 2, 3], 2), 2, Some(1)) == [4, 2, 1, 3]
  {
    assert RemoveFirst([4, 1, 2, 3], 2) == [4] + RemoveFirst([1, 2, 3], 2);
    assert RemoveFirst([1, 2, 3], 2) == [1] + RemoveFirst([2, 3], 2);
    assert RemoveFirst([4, 1, 2, 3], 2) == [4, 1, 3];
    assert IndexOf([4, 1, 3], 1) == 1 by { assert IndexOf([1, 3], 1) == 0; }
  }

  /** Removing the last child, which occurs nowhere before it. */
  lemma RemoveLast(front: seq<Handle>, x: Handle)
    requires x !in front
    ensures RemoveFirst(front + [x], x) == front
  {
    assert IndexOf(front + [x], x) == |front| by {
      assert (front + [x])[|front|] == x;
      assert (front + [x])[..|front|] == front;
    }
    assert (front + [x])[..|front|] == front;
    assert (front + [x])[|front| + 1..] == [];
  }

  /** Placing before the first child puts `x` at the front. */
  lemma PlacedFront(cs: seq<Handle>, x: Handle, r: Handle)
    requires |cs| > 0 && cs[0] == r
    ensures Placed(cs, x, Some(r)) == [x] + cs
  {
    assert IndexOf(cs, r) == 0;
    assert cs[..0] == [];
  }

  /** The first two iterations of [A,B,C,D] to [D,B,x,y]: D matches the old end
      and moves; then the key map over old indices 0..1 finds B at index 1, which
      is patched, moved and blanked. */
  lemma TwoMovesLoop(a: Vnode, b: Vnode, c: Vnode, d: Vnode, d2: Vnode, b2: Vnode, x: Vnode, y: Vnode,
                     h: HostState, h1: HostState, h2: HostState)
    requires Twin(d, d2) && Twin(b, b2)
    requires !SameVnode(a, d2) && !SameVnode(d, y) && !SameVnode(a, y)
    requires !SameVnode(a, b2) && !SameVnode(c, y) && !SameVnode(c, b2)
    requires a.el == Some(1) && b.el == Some(2) && d.el == Some(4)
    requires MoveBefore(h, Some(0), Some(4), Some(1)) == Done(h1)
    requires MoveBefore(h1, Some(0), Some(2), Some(1)) == Done(h2)
    ensures UpdateChildren([a, b, c, d], [d2, b2, x, y], Some(0), h) ==
            Loop([a, b, c, d], [d2, b2, x, y], Some(0),
                 Scan([Some(a), None, Some(c), Some(d)], 0, 2, 2, 3, Some(map[KeyName(a) := 0, KeyName(b) := 1])), h2)
  {
    FirstMove(a, b, c, d, d2, b2, x, y, h, h1);
    SecondMove(a, b, c, d, d2, b2, x, y, h1, h2);
  }

  lemma FirstMove(a: Vnode, b: Vnode, c: Vnode, d: Vnode, d2: Vnode, b2: Vnode, x: Vnode, y: Vnode,
                  h: HostState, h1: HostState)
    requires Twin(d, d2) && !SameVnode(a, d2) && !SameVnode(d, y) && !SameVnode(a, y)
    requires a.el == Some(1) && d.el == Some(4) && MoveBefore(h, Some(0), Some(4), Some(1)) == Done(h1)
    ensures UpdateChildren([a, b, c, d], [d2, b2, x, y], Some(0), h) ==
            Loop([a, b, c, d], [d2, b2, x, y], Some(0), Scan([Some(a), Some(b), Some(c), Some(d)], 0, 2, 1, 3, None), h1)
  {
    var olds, news := [a, b, c, d], [d2, b2, x, y];
    var slots := [Some(a), Some(b), Some(c), Some(d)];
    assert Wrap(olds) == slots;
    TwinSame(d, d2);
    var s0 := Scan(slots, 0, 3, 0, 3, None);
    assert Pick(news, s0) == Ok(EndStart);
    TwinPatchNoop(d, d2, h);
    LoopEndStart(olds, news, Some(0), s0, h);
  }

  lemma SecondMove(a: Vnode, b: Vnode, c: Vnode, d: Vnode, d2: Vnode, b2: Vnode, x: Vnode, y: Vnode,
                   h1: HostState, h2: HostState)
    requires Twin(b, b2) && !SameVnode(a, b2) && !SameVnode(c, y) && !SameVnode(c, b2) && !SameVnode(a, y)
    requires a.el == Some(1) && b.el == Some(2) && MoveBefore(h1, Some(0), Some(2), Some(1)) == Done(h2)
    ensures Loop([a, b, c, d], [d2, b2, x, y], Some(0), Scan([Some(a), Some(b), Some(c), Some(d)], 0, 2, 1, 3, None), h1) ==
            Loop([a, b, c, d], [d2, b2, x, y], Some(0),
                 Scan([Some(a), None, Some(c), Some(d)], 0, 2, 2, 3, Some(map[KeyName(a) := 0, KeyName(b) := 1])), h2)
  {
    var olds, news := [a, b, c, d], [d2, b2, x, y];
    var slots := [Some(a), Some(b), Some(c), Some(d)];
    var s1 := Scan(slots, 0, 2, 1, 3, None);
    var m := map[KeyName(a) := 0, KeyName(b) := 1];
    SecondMovePick(a, b, c, d, d2, b2, x, y);
    SecondMoveFound(a, b, c, d, b2, h1, h2);
    LoopKeyedMove(olds, news, Some(0), s1, h1, m, 1);
    assert slots[1 := None] == [Some(a), None, Some(c), Some(d)];
  }

  lemma SecondMovePick(a: Vnode, b: Vnode, c: Vnode, d: Vnode, d2: Vnode, b2: Vnode, x: Vnode, y: Vnode)
    requires Twin(b, b2) && !SameVnode(a, b2) && !SameVnode(c, y) && !SameVnode(c, b2) && !SameVnode(a, y)
    ensures var s1 := Scan([Some(a), Some(b), Some(c), Some(d)], 0, 2, 1, 3, None);
      InRange([a, b, c, d], [d2, b2, x, y], s1) && Running(s1) && Pick([d2, b2, x, y], s1) == Ok(Keyed)
  {
  }

  lemma SecondMoveFound(a: Vnode, b: Vnode, c: Vnode, d: Vnode, b2: Vnode, h1: HostState, h2: HostState)
    requires Twin(b, b2) && a.el == Some(1) && b.el == Some(2) && MoveBefore(h1, Some(0), Some(2), Some(1)) == Done(h2)
    ensures var s1 := Scan([Some(a), Some(b), Some(c), Some(d)], 0, 2, 1, 3, None);
      var m := map[KeyName(a) := 0, KeyName(b) := 1];
      MapFor(s1) == Ok(m) && KeyName(b2) in m && m[KeyName(b2)] == 1 &&
      SameVnode(b, b2) && PatchVnode(b, b2, h1) == Done(h1)
  {
    TwinSame(b, b2);
    KeyMapAB([Some(a), Some(b), Some(c), Some(d)], a, b);
    TwinPatchNoop(b, b2, h1);
  }

  lemma KeyMapAB(slots: seq<Option<Vnode>>, a: Vnode, b: Vnode)
    requires |slots| >= 2 && slots[0] == Some(a) && slots[1] == Some(b)
    ensures KeyToIndex(slots, 0, 1) == Ok(map[KeyName(a) := 0, KeyName(b) := 1])
  {
    assert KeyToIndex(slots, 0, 0) == Ok(map[KeyName(a) := 0]);
  }

  /** [A,B,C,D] to [D,B,A,E]: after the two moves and a start match on A, the
      old start index reaches B's blanked slot and comparing it throws. E is never
      rendered; the host keeps the moves: [D,B,A,C]. */
  lemma BlankedSlotThrows(a: Vnode, b: Vnode, c: Vnode, d: Vnode, d2: Vnode, b2: Vnode, a2: Vnode, e2: Vnode,
                          h: HostState)
    requires Twin(a, a2) && Twin(b, b2) && Twin(d, d2)
    requires !SameVnode(a, d2) && !SameVnode(d, e2) && !SameVnode(a, e2)
    requires !SameVnode(a, b2) && !SameVnode(c, e2) && !SameVnode(c, b2)
    requires a.el == Some(1) && b.el == Some(2) && c.el == Some(3) && d.el == Some(4) && HoldsList(h, [1, 2, 3, 4])
    ensures var r := UpdateChildren([a, b, c, d], [d2, b2, a2, e2], Some(0), h);
      r.thrown == Some(UndefinedVnode) && ChildNodes(r.host, 0) == [4, 2, 1, 3] &&
      r.host.count == h.count.(moves := h.count.moves + 2) && r.host.rendered == h.rendered
  {
    var h1, h2 := TwoMoves(h);
    TwoMovesLoop(a, b, c, d, d2, b2, a2, e2, h, h1, h2);
    var olds, news := [a, b, c, d], [d2, b2, a2, e2];
    var slots := [Some(a), None, Some(c), Some(d)];
    var m := map[KeyName(a) := 0, KeyName(b) := 1];
    BlankedTail(a, b, c, d, d2, b2, a2, e2, h2);
  }

  lemma BlankedTail(a: Vnode, b: Vnode, c: Vnode, d: Vnode, d2: Vnode, b2: Vnode, a2: Vnode, e2: Vnode, h2: HostState)
    requires Twin(a, a2)
    ensures Loop([a, b, c, d], [d2, b2, a2, e2], Some(0),
                 Scan([Some(a), None, Some(c), Some(d)], 0, 2, 2, 3, Some(map[KeyName(a) := 0, KeyName(b) := 1])), h2)
            == Threw(h2, UndefinedVnode)
  {
    var olds, news := [a, b, c, d], [d2, b2, a2, e2];
    var slots := [Some(a), None, Some(c), Some(d)];
    var m := map[KeyName(a) := 0, KeyName(b) := 1];
    BlankedPick(a, b, c, d, d2, b2, a2, e2);
    TwinPatchNoop(a, a2, h2);
    LoopStartStart(olds, news, Some(0), Scan(slots, 0, 2, 2, 3, Some(m)), h2);
    LoopStuck(olds, news, Some(0), Scan(slots, 1, 2, 3, 3, Some(m)), h2);
  }

  lemma BlankedPick(a: Vnode, b: Vnode, c: Vnode, d: Vnode, d2: Vnode, b2: Vnode, a2: Vnode, e2: Vnode)
    requires Twin(a, a2)
    ensures var slots, m := [Some(a), None, Some(c), Some(d)], map[KeyName(a) := 0, KeyName(b) := 1];
      var s2, s3 := Scan(slots, 0, 2, 2, 3, Some(m)), Scan(slots, 1, 2, 3, 3, Some(m));
      InRange([a, b, c, d], [d2, b2, a2, e2], s2) && Running(s2) && Pick([d2, b2, a2, e2], s2) == Ok(StartStart) &&
      InRange([a, b, c, d], [d2, b2, a2, e2], s3) && Running(s3) && Pick([d2, b2, a2, e2], s3).Err?
  {
    TwinSame(a, a2);
  }

  /** [A,B,C,D] to [D',C',X,Y] with X keyed and tagged like C: D and then C match
      the old end and move to the front, which blanks nothing; the key map, built
      over old indices 0..2, still finds C at index 2, so C's node is patched and
      moved a second time, for X. Y is rendered, A and B are removed, and the pass
      ends without a throw with three host children for four new vnodes. */
  lemma RematchedKey(a: Vnode, b: Vnode, c: Vnode, d: Vnode, d2: Vnode, c2: Vnode, x: Vnode, y: Vnode,
                     h: HostState)
    requires Twin(d, d2) && Twin(c, c2) && Twin(c, x)
    requires !SameVnode(a, d2) && !SameVnode(d, y) && !SameVnode(a, y)
    requires !SameVnode(a, c) && !SameVnode(b, c) && !SameVnode(b, y) && !SameVnode(c, y)
    requires KeyName(y) != KeyName(a) && KeyName(y) != KeyName(b) && KeyName(y) != KeyName(c)
    requires a.el == Some(1) && b.el == Some(2) && c.el == Some(3) && d.el == Some(4) && HoldsList(h, [1, 2, 3, 4])
    requires Allocated(h)
    ensures var r := UpdateChildren([a, b, c, d], [d2, c2, x, y], Some(0), h);
      r.thrown.None? && ChildNodes(r.host, 0) == [4, 3, h.next] &&
      r.host.rendered == h.rendered + [Rendered(y.id, h.next)] &&
      r.host.count == h.count.(inserts := h.count.inserts + 1, moves := h.count.moves + 3,
                               removals := h.count.removals + 2)
  {
    var h1, h2, h3, h4 := RematchedHosts(h, y.id);
    RematchedLoop(a, b, c, d, d2, c2, x, y, h, h1, h2, h3, h4);
    RematchedRemove(a, b, d, h.next, h4);
  }

  /** The host calls of the pass before the removals: three moves and a render. */
  lemma RematchedHosts(h: HostState, id: nat) returns (h1: HostState, h2: HostState, h3: HostState, h4: HostState)
    requires HoldsList(h, [1, 2, 3, 4]) && Allocated(h)
    ensures MoveBefore(h, Some(0), Some(4), Some(1)) == Done(h1)
    ensures MoveBefore(h1, Some(0), Some(3), Some(1)) == Done(h2)
    ensures MoveBefore(h2, Some(0), Some(3), Some(1)) == Done(h3)
    ensures RenderBefore(h3, Some(0), id, Some(1)) == Done(h4)
    ensures ChildNodes(h4, 0) == [4, 3, h.next, 1, 2] && 4 < h.next
    ensures ParentNode(h4, 1) == Some(0) && ParentNode(h4, 2) == Some(0)
    ensures h4.rendered == h.rendered + [Rendered(id, h.next)]
    ensures h4.count == h.count.(inserts := h.count.inserts + 1, moves := h.count.moves + 3)
  {
    h1, h2, h3 := RematchedMoves(h);
    RematchedFresh(h, h3);
    h4 := RematchedRender(h3, id);
  }

  /** After the moves, nodes 1 and 2 are still children of the root and the next
      handle is still unattached. */
  lemma RematchedFresh(h: HostState, h3: HostState)
    requires HoldsList(h, [1, 2, 3, 4]) && Allocated(h)
    requires forall z :: ParentNode(h3, z) == ParentNode(h, z)
    requires h3.next == h.next
    ensures ParentNode(h3, 1) == Some(0) && ParentNode(h3, 2) == Some(0)
    ensures 4 < h3.next && h3.next !in h3.parent
  {
    assert ParentNode(h, 1) == Some(0) by { assert [1, 2, 3, 4][0] == 1; }
    assert ParentNode(h, 2) == Some(0) by { assert [1, 2, 3, 4][1] == 2; }
    assert ParentNode(h, 4) == Some(0) by { assert [1, 2, 3, 4][3] == 4; }
    assert ParentNode(h3, h3.next) == ParentNode(h, h.next);
  }

  /** The three moves: node 4 before node 1, then node 3 before node 1 twice. */
  lemma RematchedMoves(h: HostState) returns (h1: HostState, h2: HostState, h3: HostState)
    requires HoldsList(h, [1, 2, 3, 4])
    ensures MoveBefore(h, Some(0), Some(4), Some(1)) == Done(h1)
    ensures MoveBefore(h1, Some(0), Some(3), Some(1)) == Done(h2)
    ensures MoveBefore(h2, Some(0), Some(3), Some(1)) == Done(h3)
    ensures ChildNodes(h3, 0) == [4, 3, 1, 2] && 0 !in h3.parent
    ensures forall z :: ParentNode(h3, z) == ParentNode(h, z)
    ensures h3.count == h.count.(moves := h.count.moves + 3) && h3.rendered == h.rendered && h3.next == h.next
  {
    assert ParentNode(h, 1) == Some(0) by { assert [1, 2, 3, 4][0] == 1; }
    assert ParentNode(h, 3) == Some(0) by { assert [1, 2, 3, 4][2] == 3; }
    assert ParentNode(h, 4) == Some(0) by { assert [1, 2, 3, 4][3] == 4; }
    FirstMoveSeq();
    RematchedSeq();
    h1 := Moved(h, 0, 4, Some(1), [4, 1, 2, 3]);
    h2 := Moved(h1, 0, 3, Some(1), [4, 3, 1, 2]);
    h3 := Moved(h2, 0, 3, Some(1), [4, 3, 1, 2]);
  }

  lemma RematchedSeq()
    ensures Placed(RemoveFirst([4, 1, 2, 3], 3), 3, Some(1)) == [4, 3, 1, 2]
    ensures Placed(RemoveFirst([4, 3, 1, 2], 3), 3, Some(1)) == [4, 3, 1, 2]
  {
    MoveLastSecond(4, 1, 2, 3);
    MoveSecondSecond(4, 3, 1, 2);
  }

  lemma MoveLastSecond(w: Handle, x: Handle, y: Handle, z: Handle)
    requires w != x && z != w && z != x && z != y
    ensures Placed(RemoveFirst([w, x, y, z], z), z, Some(x)) == [w, z, x, y]
  {
    assert [w, x, y, z] == [w, x, y] + [z];
    RemoveLast([w, x, y], z);
    PlacedSecond([w, x, y], z);
  }

  lemma MoveSecondSecond(w: Handle, z: Handle, x: Handle, y: Handle)
    requires w != x && w != z
    ensures Placed(RemoveFirst([w, z, x, y], z), z, Some(x)) == [w, z, x, y]
  {
    RemoveSecond([w, z, x, y]);
    assert [w, z, x, y][..1] + [w, z, x, y][2..] == [w, x, y];
    PlacedSecond([w, x, y], z);
  }

  /** Removing the second of four distinct children. */
  lemma RemoveSecond(cs: seq<Handle>)
    requires |cs| == 4 && cs[0] != cs[1]
    ensures RemoveFirst(cs, cs[1]) == cs[..1] + cs[2..]
  {
    assert IndexOf(cs, cs[1]) == 1;
  }

  /** Placing before the second child of three distinct ones. */
  lemma PlacedSecond(cs: seq<Handle>, x: Handle)
    requires |cs| == 3 && cs[0] != cs[1]
    ensures Placed(cs, x, Some(cs[1])) == [cs[0], x] + cs[1..]
  {
    assert IndexOf(cs, cs[1]) == 1;
  }

  /** Y's render goes before node 1. */
  lemma RematchedRender(h3: HostState, id: nat) returns (h4: HostState)
    requires ChildNodes(h3, 0) == [4, 3, 1, 2] && 0 !in h3.parent && 0 < h3.next && h3.next !in h3.parent
    requires ParentNode(h3, 1) == Some(0) && ParentNode(h3, 2) == Some(0) && 4 < h3.next
    ensures RenderBefore(h3, Some(0), id, Some(1)) == Done(h4)
    ensures ChildNodes(h4, 0) == [4, 3, h3.next, 1, 2]
    ensures ParentNode(h4, 1) == Some(0) && ParentNode(h4, 2) == Some(0)
    ensures h4.rendered == h3.rendered + [Rendered(id, h3.next)]
    ensures h4.count == h3.count.(inserts := h3.count.inserts + 1)
  {
    var (h0, n) := Render(h3, id);
    RootNotBelow(h0, n, 0);
    InsertFresh(h0, 0, n, Some(1));
    h4 := RenderBefore(h3, Some(0), id, Some(1)).host;
    assert IndexOf([4, 3, 1, 2], 1) == 2 by { assert IndexOf([3, 1, 2], 1) == 1 by { assert IndexOf([1, 2], 1) == 0; } }
    assert [4, 3, 1, 2][..2] + [n] + [4, 3, 1, 2][2..] == [4, 3, n, 1, 2];
  }

  /** Removing A's and B's nodes, the last two of [4,3,n,1,2]. */
  lemma RematchedRemove(a: Vnode, b: Vnode, d: Vnode, n: Handle, h4: HostState)
    requires a.el == Some(1) && b.el == Some(2)
    requires ChildNodes(h4, 0) == [4, 3, n, 1, 2] && n > 4
    requires ParentNode(h4, 1) == Some(0) && ParentNode(h4, 2) == Some(0)
    ensures var r := RemoveNodes([Some(a), Some(b), None, Some(d)], 0, 1, Some(0), h4);
      r.thrown.None? && ChildNodes(r.host, 0) == [4, 3, n] &&
      r.host.rendered == h4.rendered && r.host.count == h4.count.(removals := h4.count.removals + 2)
  {
    var slots := [Some(a), Some(b), None, Some(d)];
    var h5 := RemoveA(h4, n);
    RemoveB(h5, n);
    assert RemoveNodes(slots, 0, 1, Some(0), h4) == RemoveNodes(slots, 1, 1, Some(0), h5);
    RemoveOne(slots, 1, 0, h5);
  }

  lemma RemoveA(h4: HostState, n: Handle) returns (h5: HostState)
    requires ChildNodes(h4, 0) == [4, 3, n, 1, 2] && n > 4
    requires ParentNode(h4, 1) == Some(0) && ParentNode(h4, 2) == Some(0)
    ensures RemoveChild(h4, 0, 1) == Ok(h5)
    ensures ChildNodes(h5, 0) == [4, 3, n, 2] && ParentNode(h5, 2) == Some(0)
    ensures h5.rendered == h4.rendered && h5.count == h4.count.(removals := h4.count.removals + 1)
  {
    RemoveChildExact(h4, 0, 1);
    h5 := RemoveChild(h4, 0, 1).value;
    assert IndexOf([4, 3, n, 1, 2], 1) == 3;
    assert [4, 3, n, 1, 2][..3] + [4, 3, n, 1, 2][4..] == [4, 3, n, 2];
  }

  lemma RemoveB(h5: HostState, n: Handle)
    requires ChildNodes(h5, 0) == [4, 3, n, 2] && n > 4 && ParentNode(h5, 2) == Some(0)
    ensures RemoveChild(h5, 0, 2).Ok?
    ensures var h6 := RemoveChild(h5, 0, 2).value;
      ChildNodes(h6, 0) == [4, 3, n] && h6.rendered == h5.rendered &&
      h6.count == h5.count.(removals := h5.count.removals + 1)
  {
    RemoveChildExact(h5, 0, 2);
    assert IndexOf([4, 3, n, 2], 2) == 3;
    assert [4, 3, n, 2][..3] + [4, 3, n, 2][4..] == [4, 3, n];
  }

  /** The four iterations: two end matches, a key match on C's slot, a render. */
  lemma RematchedLoop(a: Vnode, b: Vnode, c: Vnode, d: Vnode, d2: Vnode, c2: Vnode, x: Vnode, y: Vnode,
                      h: HostState, h1: HostState, h2: HostState, h3: HostState, h4: HostState)
    requires Twin(d, d2) && Twin(c, c2) && Twin(c, x)
    requires !SameVnode(a, d2) && !SameVnode(d, y) && !SameVnode(a, y)
    requires !SameVnode(a, c) && !SameVnode(b, c) && !SameVnode(b, y) && !SameVnode(c, y)
    requires KeyName(y) != KeyName(a) && KeyName(y) != KeyName(b) && KeyName(y) != KeyName(c)
    requires a.el == Some(1) && c.el == Some(3) && d.el == Some(4)
    requires MoveBefore(h, Some(0), Some(4), Some(1)) == Done(h1)
    requires MoveBefore(h1, Some(0), Some(3), Some(1)) == Done(h2)
    requires MoveBefore(h2, Some(0), Some(3), Some(1)) == Done(h3)
    requires RenderBefore(h3, Some(0), y.id, Some(1)) == Done(h4)
    ensures UpdateChildren([a, b, c, d], [d2, c2, x, y], Some(0), h) ==
            RemoveNodes([Some(a), Some(b), None, Some(d)], 0, 1, Some(0), h4)
  {
    RematchedEnds(a, b, c, d, d2, c2, x, y, h, h1, h2);
    RematchedKeyed(a, b, c, d, d2, c2, x, y, h2, h3, h4);
  }

  lemma RematchedEnds(a: Vnode, b: Vnode, c: Vnode, d: Vnode, d2: Vnode, c2: Vnode, x: Vnode, y: Vnode,
                      h: HostState, h1: HostState, h2: HostState)
    requires Twin(d, d2) && Twin(c, c2)
    requires !SameVnode(a, d2) && !SameVnode(d, y) && !SameVnode(a, y) && !SameVnode(a, c) && !SameVnode(c, y)
    requires a.el == Some(1) && c.el == Some(3) && d.el == Some(4)
    requires MoveBefore(h, Some(0), Some(4), Some(1)) == Done(h1)
    requires MoveBefore(h1, Some(0), Some(3), Some(1)) == Done(h2)
    ensures UpdateChildren([a, b, c, d], [d2, c2, x, y], Some(0), h) ==
            Loop([a, b, c, d], [d2, c2, x, y], Some(0), Scan([Some(a), Some(b), Some(c), Some(d)], 0, 1, 2, 3, None), h2)
  {
    var olds, news := [a, b, c, d], [d2, c2, x, y];
    var s1 := Scan([Some(a), Some(b), Some(c), Some(d)], 0, 2, 1, 3, None);
    FirstMove(a, b, c, d, d2, c2, x, y, h, h1);
    TwinSame(c, c2);
    assert Pick(news, s1) == Ok(EndStart);
    TwinPatchNoop(c, c2, h1);
    LoopEndStart(olds, news, Some(0), s1, h1);
  }

  lemma RematchedKeyed(a: Vnode, b: Vnode, c: Vnode, d: Vnode, d2: Vnode, c2: Vnode, x: Vnode, y: Vnode,
                       h2: HostState, h3: HostState, h4: HostState)
    requires Twin(c, x)
    requires !SameVnode(a, y) && !SameVnode(a, c) && !SameVnode(b, c) && !SameVnode(b, y)
    requires KeyName(y) != KeyName(a) && KeyName(y) != KeyName(b) && KeyName(y) != KeyName(c)
    requires a.el == Some(1) && c.el == Some(3)
    requires MoveBefore(h2, Some(0), Some(3), Some(1)) == Done(h3)
    requires RenderBefore(h3, Some(0), y.id, Some(1)) == Done(h4)
    ensures Loop([a, b, c, d], [d2, c2, x, y], Some(0), Scan([Some(a), Some(b), Some(c), Some(d)], 0, 1, 2, 3, None), h2) ==
            RemoveNodes([Some(a), Some(b), None, Some(d)], 0, 1, Some(0), h4)
  {
    var olds, news := [a, b, c, d], [d2, c2, x, y];
    var slots := [Some(a), Some(b), Some(c), Some(d)];
    var m := map[KeyName(a) := 0, KeyName(b) := 1, KeyName(c) := 2];
    var s2 := Scan(slots, 0, 1, 2, 3, None);
    var s3 := Scan(slots[2 := None], 0, 1, 3, 3, Some(m));
    RematchedPick(a, b, c, d, d2, c2, x, y);
    RematchedFound(a, b, c, d, x, h2);
    LoopKeyedMove(olds, news, Some(0), s2, h2, m, 2);
    assert slots[2 := None] == [Some(a), Some(b), None, Some(d)];
    LoopKeyedRender(olds, news, Some(0), s3, h3, m);
  }

  lemma RematchedPick(a: Vnode, b: Vnode, c: Vnode, d: Vnode, d2: Vnode, c2: Vnode, x: Vnode, y: Vnode)
    requires Twin(c, x) && !SameVnode(a, y) && !SameVnode(a, c) && !SameVnode(b, c) && !SameVnode(b, y)
    ensures var s2 := Scan([Some(a), Some(b), Some(c), Some(d)], 0, 1, 2, 3, None);
      var s3 := Scan([Some(a), Some(b), None, Some(d)], 0, 1, 3, 3, Some(map[KeyName(a) := 0, KeyName(b) := 1, KeyName(c) := 2]));
      InRange([a, b, c, d], [d2, c2, x, y], s2) && Running(s2) && Pick([d2, c2, x, y], s2) == Ok(Keyed) &&
      InRange([a, b, c, d], [d2, c2, x, y], s3) && Running(s3) && Pick([d2, c2, x, y], s3) == Ok(Keyed)
  {
    TwinSame(c, x);
  }

  lemma RematchedFound(a: Vnode, b: Vnode, c: Vnode, d: Vnode, x: Vnode, h2: HostState)
    requires Twin(c, x)
    ensures var s2 := Scan([Some(a), Some(b), Some(c), Some(d)], 0, 1, 2, 3, None);
      var m := map[KeyName(a) := 0, KeyName(b) := 1, KeyName(c) := 2];
      MapFor(s2) == Ok(m) && KeyName(x) in m && m[KeyName(x)] == 2 &&
      SameVnode(c, x) && PatchVnode(c, x, h2) == Done(h2)
  {
    var slots := [Some(a), Some(b), Some(c), Some(d)];
    TwinSame(c, x);
    KeyMapAB(slots, a, b);
    assert KeyToIndex(slots, 0, 2) == Ok(map[KeyName(a) := 0, KeyName(b) := 1][KeyName(c) := 2]);
    TwinPatchNoop(c, x, h2);
  }

  /** [A,B,C,D] to [D,B,B',X] with B' keyed like B: the second lookup of B's key
      finds its slot blanked and the pass throws, keeping both moves. */
  lemma DuplicateKeyThrows(a: Vnode, b: Vnode, c: Vnode, d: Vnode, d2: Vnode, b2: Vnode, b3: Vnode, x: Vnode,
                           h: HostState)
    requires Twin(b, b2) && Twin(d, d2) && KeyOf(b3) == KeyOf(b)
    requires !SameVnode(a, d2) && !SameVnode(d, x) && !SameVnode(a, x)
    requires !SameVnode(a, b2) && !SameVnode(c, x) && !SameVnode(c, b2)
    requires !SameVnode(a, b3) && !SameVnode(c, b3)
    requires a.el == Some(1) && b.el == Some(2) && c.el == Some(3) && d.el == Some(4) && HoldsList(h, [1, 2, 3, 4])
    ensures var r := UpdateChildren([a, b, c, d], [d2, b2, b3, x], Some(0), h);
      r.thrown == Some(DuplicateKey) && ChildNodes(r.host, 0) == [4, 2, 1, 3] &&
      r.host.count == h.count.(moves := h.count.moves + 2) && r.host.rendered == h.rendered
  {
    var h1, h2 := TwoMoves(h);
    TwoMovesLoop(a, b, c, d, d2, b2, b3, x, h, h1, h2);
    var olds, news := [a, b, c, d], [d2, b2, b3, x];
    var slots := [Some(a), None, Some(c), Some(d)];
    var m := map[KeyName(a) := 0, KeyName(b) := 1];
    var s2 := Scan(slots, 0, 2, 2, 3, Some(m));
    DuplicatePick(a, b, c, d, d2, b2, b3, x);
    LoopKeyedBlank(olds, news, Some(0), s2, h2, m, 1);
  }

  lemma DuplicatePick(a: Vnode, b: Vnode, c: Vnode, d: Vnode, d2: Vnode, b2: Vnode, b3: Vnode, x: Vnode)
    requires KeyOf(b3) == KeyOf(b) && !SameVnode(a, b3) && !SameVnode(c, b3) && !SameVnode(c, x) && !SameVnode(a, x)
    ensures var s2 := Scan([Some(a), None, Some(c), Some(d)], 0, 2, 2, 3, Some(map[KeyName(a) := 0, KeyName(b) := 1]));
      InRange([a, b, c, d], [d2, b2, b3, x], s2) && Running(s2) && Pick([d2, b2, b3, x], s2) == Ok(Keyed) &&
      MapFor(s2) == Ok(map[KeyName(a) := 0, KeyName(b) := 1]) && KeyName(b3) == KeyName(b)
  {
  }
}
