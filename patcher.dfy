/** The core as the program runs it: each function of the source as a method
    that issues its DOM calls one at a time on a live `Document`, with the loops
    of the source. Every method is proved to leave the document, and to throw,
    exactly as the matching function of `Reconcile` says. */
module Patcher {
  import opened Base
  import opened Vnodes
  import opened HostModel
  import Reconcile
  import Dom

  /** `createKeyToIndex(children, start, end)`: one property write per index. */
  method CreateKeyToIndex(children: seq<Option<Vnode>>, start: nat, end: int) returns (r: Result<map<string, int>>)
    ensures r == Reconcile.KeyToIndex(children, start, end)
  {
    var res: map<string, int> := map[];
    var i := start;
    while i <= end
      invariant start <= i && (i <= end + 1 || i == start)
      invariant Reconcile.KeyToIndex(children, start, i - 1) == Ok(res)
    {
      if i >= |children| || children[i].None? {
        KeyToIndexErrorPersists(children, start, i, end);
        return Err(UndefinedVnode);
      }
      res := res[ToJsString(KeyOf(children[i].value)) := i];
      i := i + 1;
    }
    r := Ok(res);
  }

  /** Once reading a slot has thrown, reading further slots cannot undo it. */
  lemma {:induction false} KeyToIndexErrorPersists(children: seq<Option<Vnode>>, s: nat, i: int, e: int)
    requires s <= i <= e
    requires i >= |children| || children[i].None?
    requires Reconcile.KeyToIndex(children, s, i - 1).Ok?
    ensures Reconcile.KeyToIndex(children, s, e) == Err(UndefinedVnode)
    decreases e - i
  {
    if e > i {
      KeyToIndexErrorPersists(children, s, i, e - 1);
    }
  }

  /** `addNodes(children, start, end, parentEl)`. */
  method AddNodes(doc: Dom.Document, children: seq<Vnode>, start: int, end: int, p: Option<Handle>)
    returns (thrown: Option<Error>)
    modifies doc
    ensures Outcome(doc.State(), thrown) == Reconcile.AddNodes(children, start, end, p, old(doc.State()))
  {
    var i := start;
    while i <= end
      invariant start <= i && (i <= end + 1 || i == start)
      invariant Reconcile.AddNodes(children, i, end, p, doc.State()) ==
                Reconcile.AddNodes(children, start, end, p, old(doc.State()))
    {
      if p.None? {
        return Some(NullElement);
      }
      if !(0 <= i < |children|) {
        return Some(UndefinedVnode);
      }
      var x := doc.Render(children[i].id);
      thrown := doc.AppendChild(p.value, x);
      if thrown.Some? {
        return;
      }
      i := i + 1;
    }
    thrown := None;
  }

  /** `removeNodes(children, start, end, parentEl)`. */
  method RemoveNodes(doc: Dom.Document, children: seq<Option<Vnode>>, start: int, end: int, p: Option<Handle>)
    returns (thrown: Option<Error>)
    modifies doc
    ensures Outcome(doc.State(), thrown) == Reconcile.RemoveNodes(children, start, end, p, old(doc.State()))
  {
    var i := start;
    while i <= end
      invariant start <= i && (i <= end + 1 || i == start)
      invariant Reconcile.RemoveNodes(children, i, end, p, doc.State()) ==
                Reconcile.RemoveNodes(children, start, end, p, old(doc.State()))
    {
      if p.None? {
        return Some(NullElement);
      }
      if !(0 <= i < |children|) || children[i].None? {
        return Some(UndefinedVnode);
      }
      if children[i].value.el.None? {
        return Some(NullElement);
      }
      thrown := doc.RemoveChild(p.value, children[i].value.el.value);
      if thrown.Some? {
        return;
      }
      i := i + 1;
    }
    thrown := None;
  }

  /** The first loop of `updateProps`: each old name whose new value is null or
      undefined is removed from the element. */
  method RemoveStale(doc: Dom.Document, o: Vnode, n: Vnode) returns (thrown: Option<Error>)
    modifies doc
    ensures Outcome(doc.State(), thrown) == Reconcile.RemoveStale(o, n, old(doc.State()))
  {
    var oldProps, newProps := PropsOf(o), PropsOf(n);
    if oldProps.None? {
      return None;
    }
    var op := oldProps.value;
    var keys := op.Keys;
    ghost var h0 := doc.State();
    if newProps.None? {
      // the first name read from the missing new props throws
      if keys != {} {
        var key :| key in keys;
        RemoveStaleNullProps(o, n, h0, key);
        return Some(NullProps);
      }
      RemoveStaleDone(o, n, h0, {});
      return None;
    }
    var np := newProps.value;
    ghost var done: set<string> := {};
    ghost var removed: set<string> := {};
    while keys != {}
      invariant keys == op.Keys - done && done <= op.Keys
      invariant removed == Reconcile.StaleOn(op, np, done)
      invariant o.el.None? ==> removed == {}
      invariant doc.State() == Stripped(h0, o.el, removed)
      decreases keys
    {
      var key :| key in keys;
      StaleOnStep(op, np, done, key);
      var newVal := Reconcile.PropGet(np, key);
      if Nullish(newVal) {
        if o.el.None? {
          RemoveStaleNullElement(o, n, h0, key);
          return Some(NullElement);
        }
        RemoveAttributesStep(h0, o.el.value, removed, key);
        doc.RemoveAttribute(o.el.value, key);
        removed := removed + {key};
      }
      keys := keys - {key};
      done := done + {key};
    }
    RemoveStaleDone(o, n, h0, removed);
    thrown := None;
  }

  /** The host after removing `ks` from the element `el`, when there is anything to remove. */
  function Stripped(h: HostState, el: Option<Handle>, ks: set<string>): HostState
  {
    if el.None? then h else RemoveAttributes(h, el.value, ks)
  }

  /** Visiting one more name adds it to the removals if its new value is null or undefined. */
  lemma StaleOnStep(op: Props, np: Props, done: set<string>, key: string)
    requires key in op && key !in done
    ensures key !in Reconcile.StaleOn(op, np, done)
    ensures Reconcile.StaleOn(op, np, done + {key}) ==
      if Nullish(Reconcile.PropGet(np, key)) then Reconcile.StaleOn(op, np, done) + {key}
      else Reconcile.StaleOn(op, np, done)
  {
  }

  lemma RemoveStaleNullProps(o: Vnode, n: Vnode, h: HostState, key: string)
    requires PropsOf(o).Some? && key in PropsOf(o).value && PropsOf(n).None?
    ensures Reconcile.RemoveStale(o, n, h) == Outcome(h, Some(NullProps))
  {
  }

  lemma RemoveStaleNullElement(o: Vnode, n: Vnode, h: HostState, key: string)
    requires PropsOf(o).Some? && key in PropsOf(o).value && PropsOf(n).Some?
    requires Nullish(Reconcile.PropGet(PropsOf(n).value, key)) && o.el.None?
    ensures Reconcile.RemoveStale(o, n, h) == Outcome(h, Some(NullElement))
  {
    assert key in Reconcile.StaleNames(PropsOf(o).value, PropsOf(n).value);
  }

  lemma RemoveStaleDone(o: Vnode, n: Vnode, h: HostState, removed: set<string>)
    requires PropsOf(o).Some?
    requires PropsOf(n).None? ==> PropsOf(o).value.Keys == {} && removed == {}
    requires PropsOf(n).Some? ==> removed == Reconcile.StaleOn(PropsOf(o).value, PropsOf(n).value, PropsOf(o).value.Keys)
    requires o.el.None? ==> removed == {}
    ensures Reconcile.RemoveStale(o, n, h) == Outcome(Stripped(h, o.el, removed), None)
  {
    if PropsOf(n).Some? {
      assert removed == Reconcile.StaleNames(PropsOf(o).value, PropsOf(n).value);
    }
  }

  /** The second loop of `updateProps`: each new entry whose old value is null,
      undefined or different is written to the element. */
  method WriteChanged(doc: Dom.Document, o: Vnode, n: Vnode) returns (thrown: Option<Error>)
    modifies doc
    ensures Outcome(doc.State(), thrown) == Reconcile.WriteChanged(o, n, old(doc.State()))
  {
    var oldProps, newProps := PropsOf(o), PropsOf(n);
    if newProps.None? {
      return None;
    }
    var np := newProps.value;
    var keys := np.Keys;
    ghost var h0 := doc.State();
    if oldProps.None? {
      // the first name read from the missing old props throws
      if keys != {} {
        var key :| key in keys;
        WriteChangedNullProps(o, n, h0, key);
        return Some(NullProps);
      }
      WriteChangedDone(o, n, h0, map[]);
      return None;
    }
    var op := oldProps.value;
    ghost var done: set<string> := {};
    ghost var written: map<string, string> := map[];
    while keys != {}
      invariant keys == np.Keys - done && done <= np.Keys
      invariant written == Reconcile.ChangedOn(op, np, done)
      invariant o.el.None? ==> written == map[]
      invariant doc.State() == Written(h0, o.el, written)
      decreases keys
    {
      var key :| key in keys;
      ChangedOnStep(op, np, done, key);
      var oldVal := Reconcile.PropGet(op, key);
      var newVal := np[key];
      if Nullish(oldVal) || oldVal != newVal {
        if o.el.None? {
          WriteChangedNullElement(o, n, h0, key);
          return Some(NullElement);
        }
        SetAttributesStep(h0, o.el.value, written, key, ToJsString(newVal));
        doc.SetAttribute(o.el.value, key, ToJsString(newVal));
        written := written[key := ToJsString(newVal)];
      }
      keys := keys - {key};
      done := done + {key};
    }
    WriteChangedDone(o, n, h0, written);
    thrown := None;
  }

  /** The host after writing `m` to the element `el`. */
  function Written(h: HostState, el: Option<Handle>, m: map<string, string>): HostState
  {
    if el.None? then h else SetAttributes(h, el.value, m)
  }

  /** Visiting one more name adds its write, if it has one. */
  lemma ChangedOnStep(op: Props, np: Props, done: set<string>, key: string)
    requires key in np && key !in done
    ensures key !in Reconcile.ChangedOn(op, np, done)
    ensures Reconcile.ChangedOn(op, np, done + {key}) ==
      if Nullish(Reconcile.PropGet(op, key)) || Reconcile.PropGet(op, key) != np[key]
      then Reconcile.ChangedOn(op, np, done)[key := ToJsString(np[key])]
      else Reconcile.ChangedOn(op, np, done)
  {
  }

  lemma WriteChangedNullProps(o: Vnode, n: Vnode, h: HostState, key: string)
    requires PropsOf(n).Some? && key in PropsOf(n).value && PropsOf(o).None?
    ensures Reconcile.WriteChanged(o, n, h) == Outcome(h, Some(NullProps))
  {
  }

  lemma WriteChangedNullElement(o: Vnode, n: Vnode, h: HostState, key: string)
    requires PropsOf(n).Some? && key in PropsOf(n).value && PropsOf(o).Some? && o.el.None?
    requires var was := Reconcile.PropGet(PropsOf(o).value, key);
             Nullish(was) || was != PropsOf(n).value[key]
    ensures Reconcile.WriteChanged(o, n, h) == Outcome(h, Some(NullElement))
  {
    assert key in Reconcile.Changed(PropsOf(o).value, PropsOf(n).value);
  }

  lemma WriteChangedDone(o: Vnode, n: Vnode, h: HostState, written: map<string, string>)
    requires PropsOf(n).Some?
    requires PropsOf(o).None? ==> PropsOf(n).value.Keys == {} && written == map[]
    requires PropsOf(o).Some? ==> written == Reconcile.ChangedOn(PropsOf(o).value, PropsOf(n).value, PropsOf(n).value.Keys)
    requires o.el.None? ==> written == map[]
    ensures Reconcile.WriteChanged(o, n, h) == Outcome(Written(h, o.el, written), None)
  {
    if PropsOf(o).Some? {
      assert written == Reconcile.Changed(PropsOf(o).value, PropsOf(n).value);
    }
  }

  /** `updateProps(oldVnode, newVnode)`: only elements carry attributes. */
  method UpdateProps(doc: Dom.Document, o: Vnode, n: Vnode) returns (thrown: Option<Error>)
    modifies doc
    ensures Outcome(doc.State(), thrown) == Reconcile.UpdateProps(o, n, old(doc.State()))
  {
    if !Truthy(TagOf(o)) {
      return None;
    }
    thrown := RemoveStale(doc, o, n);
    if thrown.None? {
      thrown := WriteChanged(doc, o, n);
    }
  }

  /** `children[i]`: `undefined` outside the array or in a blanked slot. */
  function Slot(children: seq<Option<Vnode>>, i: int): Option<Vnode>
  {
    if 0 <= i < |children| then children[i] else None
  }

  /** `updateChildren(oldCh, newCh, parentEl)`. The loop state (the old array,
      whose moved entries are blanked, the four indices and the key map) is
      held in one `Scan`. */
  method UpdateChildren(doc: Dom.Document, oldCh: seq<Vnode>, newCh: seq<Vnode>, p: Option<Handle>)
    returns (thrown: Option<Error>)
    modifies doc
    ensures Outcome(doc.State(), thrown) == Reconcile.UpdateChildren(oldCh, newCh, p, old(doc.State()))
    decreases ListSize(oldCh), 2, 0
  {
    var scan := Reconcile.InitScan(oldCh, newCh);
    ghost var h0 := doc.State();
    while scan.oldStart <= scan.oldEnd && scan.newStart <= scan.newEnd
      invariant Reconcile.InRange(oldCh, newCh, scan)
      invariant Reconcile.Loop(oldCh, newCh, p, scan, doc.State()) == Reconcile.UpdateChildren(oldCh, newCh, p, h0)
      decreases Reconcile.Remaining(scan)
    {
      ghost var hb := doc.State();
      var next;
      thrown, next := Iteration(doc, oldCh, newCh, p, scan);
      if thrown.Some? {
        return;
      }
      Reconcile.LoopStepped(oldCh, newCh, p, scan, hb);
      scan := next;
    }
    if scan.oldStart > scan.oldEnd {
      thrown := AddNodes(doc, newCh, scan.newStart, scan.newEnd, p);
    } else {
      thrown := RemoveNodes(doc, scan.oldCh, scan.oldStart, scan.oldEnd, p);
    }
  }

  /** One pass of the `while` loop: compare start/start, end/end, old start with
      new end, old end with new start, else fall back on the keys. */
  method Iteration(doc: Dom.Document, oldCh: seq<Vnode>, newCh: seq<Vnode>, p: Option<Handle>, s: Reconcile.Scan)
    returns (thrown: Option<Error>, next: Reconcile.Scan)
    requires Reconcile.InRange(oldCh, newCh, s) && Reconcile.Running(s)
    modifies doc
    ensures var r := Reconcile.Step(oldCh, newCh, p, s, old(doc.State()));
      r.out == Outcome(doc.State(), thrown) && (r.Stepped? && thrown.None? ==> next == r.scan)
    decreases ListSize(oldCh), 1, 2
  {
    next := s;
    var oldStartVnode, oldEndVnode := s.oldCh[s.oldStart], s.oldCh[s.oldEnd];
    var newStartVnode, newEndVnode := newCh[s.newStart], newCh[s.newEnd];
    if oldStartVnode.None? {
      return Some(UndefinedVnode), next;
    }
    if SameVnode(oldStartVnode.value, newStartVnode) {
      assert Reconcile.Pick(newCh, s) == Ok(Reconcile.StartStart);
      ListSizeBound(oldCh, s.oldStart);
      thrown := PatchVnode(doc, oldStartVnode.value, newStartVnode);
      next := s.(oldStart := s.oldStart + 1, newStart := s.newStart + 1);
    } else if oldEndVnode.None? {
      return Some(UndefinedVnode), next;
    } else if SameVnode(oldEndVnode.value, newEndVnode) {
      assert Reconcile.Pick(newCh, s) == Ok(Reconcile.EndEnd);
      ListSizeBound(oldCh, s.oldEnd);
      thrown := PatchVnode(doc, oldEndVnode.value, newEndVnode);
      next := s.(oldEnd := s.oldEnd - 1, newEnd := s.newEnd - 1);
    } else {
      thrown, next := Crossed(doc, oldCh, newCh, p, s);
    }
  }

  /** The rest of the loop body, once neither end pair matches: old start with
      new end, old end with new start, else the keys. */
  method Crossed(doc: Dom.Document, oldCh: seq<Vnode>, newCh: seq<Vnode>, p: Option<Handle>, s: Reconcile.Scan)
    returns (thrown: Option<Error>, next: Reconcile.Scan)
    requires Reconcile.InRange(oldCh, newCh, s) && Reconcile.Running(s)
    requires Reconcile.Pick(newCh, s).Ok? && Reconcile.Pick(newCh, s).value != Reconcile.StartStart &&
             Reconcile.Pick(newCh, s).value != Reconcile.EndEnd
    modifies doc
    ensures var r := Reconcile.Step(oldCh, newCh, p, s, old(doc.State()));
      r.out == Outcome(doc.State(), thrown) && (r.Stepped? && thrown.None? ==> next == r.scan)
    decreases ListSize(oldCh), 1, 1
  {
    next := s;
    var oldStartVnode, oldEndVnode := s.oldCh[s.oldStart].value, s.oldCh[s.oldEnd].value;
    var newStartVnode, newEndVnode := newCh[s.newStart], newCh[s.newEnd];
    if SameVnode(oldStartVnode, newEndVnode) {
      assert Reconcile.Pick(newCh, s) == Ok(Reconcile.StartEnd);
      ListSizeBound(oldCh, s.oldStart);
      thrown := PatchVnode(doc, oldStartVnode, newEndVnode);
      if thrown.None? {
        thrown := MoveAfter(doc, p, oldStartVnode.el, oldEndVnode.el);
      }
      next := s.(oldStart := s.oldStart + 1, newEnd := s.newEnd - 1);
    } else if SameVnode(oldEndVnode, newStartVnode) {
      assert Reconcile.Pick(newCh, s) == Ok(Reconcile.EndStart);
      ListSizeBound(oldCh, s.oldEnd);
      thrown := PatchVnode(doc, oldEndVnode, newStartVnode);
      if thrown.None? {
        thrown := MoveBefore(doc, p, oldEndVnode.el, oldStartVnode.el);
      }
      next := s.(oldEnd := s.oldEnd - 1, newStart := s.newStart + 1);
    } else {
      assert Reconcile.Pick(newCh, s) == Ok(Reconcile.Keyed);
      var slots, oldKeyToIndex;
      thrown, slots, oldKeyToIndex := KeyedStep(doc, oldCh, newCh, p, s);
      next := s.(oldCh := slots, newStart := s.newStart + 1, keyToIndex := oldKeyToIndex);
    }
  }

  /** The fallback branch of the loop, on the loop state `s`: returns the
      exception it raised, the old array after blanking, and the key map. */
  method KeyedStep(doc: Dom.Document, oldCh: seq<Vnode>, newCh: seq<Vnode>, p: Option<Handle>, s: Reconcile.Scan)
    returns (thrown: Option<Error>, slots: seq<Option<Vnode>>, oldKeyToIndex: Option<map<string, int>>)
    requires Reconcile.InRange(oldCh, newCh, s) && Reconcile.Running(s) && Reconcile.Pick(newCh, s) == Ok(Reconcile.Keyed)
    modifies doc
    ensures var r := Reconcile.KeyedStep(oldCh, newCh, p, s, old(doc.State()));
      r.out == Outcome(doc.State(), thrown) &&
      (thrown.None? ==> r.scan.oldCh == slots && r.scan.keyToIndex == oldKeyToIndex)
    decreases ListSize(oldCh), 1, 0
  {
    slots, oldKeyToIndex := s.oldCh, s.keyToIndex;
    var oldStartVnode, newStartVnode := s.oldCh[s.oldStart].value, newCh[s.newStart];
    if oldKeyToIndex.None? {
      var built := CreateKeyToIndex(slots, s.oldStart, s.newStart);
      if built.Err? {
        return Some(built.error), slots, oldKeyToIndex;
      }
      oldKeyToIndex := Some(built.value);
    }
    var m := oldKeyToIndex.value;
    var name := ToJsString(KeyOf(newStartVnode));
    if name !in m || m[name] == 0 {
      thrown := RenderBefore(doc, p, newStartVnode.id, oldStartVnode.el);
      return;
    }
    var indexInOld := m[name];
    var vnodeToMove := Slot(slots, indexInOld);
    if vnodeToMove.None? {
      // the duplicate-key warning, then `sameVnode(undefined, ...)` throws
      return Some(DuplicateKey), slots, oldKeyToIndex;
    }
    if SameVnode(vnodeToMove.value, newStartVnode) {
      ListSizeBound(oldCh, indexInOld);
      thrown := PatchVnode(doc, vnodeToMove.value, newStartVnode);
      if thrown.Some? {
        return;
      }
      slots := slots[indexInOld := None];
      thrown := MoveBefore(doc, p, vnodeToMove.value.el, oldStartVnode.el);
    } else {
      thrown := RenderBefore(doc, p, newStartVnode.id, oldStartVnode.el);
    }
  }

  /** `parentEl.insertBefore(x.el, y.el.nextSibling)`. */
  method MoveAfter(doc: Dom.Document, p: Option<Handle>, x: Option<Handle>, y: Option<Handle>) returns (thrown: Option<Error>)
    modifies doc
    ensures Outcome(doc.State(), thrown) == Reconcile.MoveAfter(old(doc.State()), p, x, y)
  {
    if p.None? || x.None? || y.None? {
      return Some(NullElement);
    }
    thrown := doc.InsertBefore(p.value, x.value, NextSibling(doc.State(), y.value));
  }

  /** `parentEl.insertBefore(x.el, ref)`. */
  method MoveBefore(doc: Dom.Document, p: Option<Handle>, x: Option<Handle>, ref: Option<Handle>) returns (thrown: Option<Error>)
    modifies doc
    ensures Outcome(doc.State(), thrown) == Reconcile.MoveBefore(old(doc.State()), p, x, ref)
  {
    if p.None? || x.None? {
      return Some(NullElement);
    }
    thrown := doc.InsertBefore(p.value, x.value, ref);
  }

  /** `parentEl.insertBefore(vnode.render(), ref)`. */
  method RenderBefore(doc: Dom.Document, p: Option<Handle>, vnode: nat, ref: Option<Handle>) returns (thrown: Option<Error>)
    modifies doc
    ensures Outcome(doc.State(), thrown) == Reconcile.RenderBefore(old(doc.State()), p, vnode, ref)
  {
    if p.None? {
      return Some(NullElement);
    }
    var x := doc.Render(vnode);
    thrown := doc.InsertBefore(p.value, x, ref);
  }

  /** `patchVnode(oldVnode, newVnode)`. */
  method PatchVnode(doc: Dom.Document, o: Vnode, n: Vnode) returns (thrown: Option<Error>)
    modifies doc
    ensures Outcome(doc.State(), thrown) == Reconcile.PatchVnode(o, n, old(doc.State()))
    decreases Size(o), 0, 2
  {
    if o.id == n.id {
      return None;
    }
    var oldCh, newCh := ChildrenOf(o), ChildrenOf(n);
    if !Truthy(TextOf(o)) {
      if oldCh.ListChildren? && newCh.ListChildren? {
        if oldCh.listId != newCh.listId {
          thrown := UpdateChildren(doc, oldCh.items, newCh.items, o.el);
          if thrown.Some? {
            return;
          }
        }
      } else if oldCh.ListChildren? && newCh.TextChildren? && newCh.s != "" {
        return if o.el.None? then Some(NullElement) else Some(StringChildren);
      }
    } else if TextOf(o) != TextOf(n) {
      if o.el.None? {
        return Some(NullElement);
      }
      doc.SetTextContent(o.el.value, Reconcile.TextContent(TextOf(n)));
    }
    thrown := UpdateProps(doc, o, n);
  }

  /** `patch(oldVnode, newVnode, parentEl)`. */
  method Patch(doc: Dom.Document, o: Option<Vnode>, n: Option<Vnode>, p: Option<Handle>) returns (thrown: Option<Error>)
    modifies doc
    ensures Outcome(doc.State(), thrown) == Reconcile.Patch(o, n, p, old(doc.State()))
  {
    if o.None? {
      if n.None? {
        return Some(UndefinedVnode);
      }
      var node := doc.Render(n.value.id);
      if p.None? {
        return Some(NullElement);
      }
      thrown := doc.AppendChild(p.value, node);
    } else if n.None? {
      if p.None? || o.value.el.None? {
        return Some(NullElement);
      }
      thrown := doc.RemoveChild(p.value, o.value.el.value);
    } else if SameVnode(o.value, n.value) {
      thrown := PatchVnode(doc, o.value, n.value);
    } else {
      var node := doc.Render(n.value.id);
      if p.None? || o.value.el.None? {
        return Some(NullElement);
      }
      thrown := doc.ReplaceChild(p.value, node, o.value.el.value);
    }
  }
}
