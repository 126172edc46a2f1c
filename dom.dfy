/** The live host tree as a mutable object. Each method is one DOM call the
    core makes; its contract ties the new state to the matching operation of
    the host model. */
module Dom {
  import opened Base
  import HostModel

  class Document {
    var nodes: map<Handle, HostModel.HostNode>
    var parent: map<Handle, Handle>
    var next: Handle
    var rendered: seq<HostModel.Rendered>
    var count: HostModel.Counters

    function State(): HostModel.HostState
      reads this
    {
      HostModel.HostState(nodes, parent, next, rendered, count)
    }

    constructor (s: HostModel.HostState)
      ensures State() == s
    {
      nodes, parent, next, rendered, count := s.nodes, s.parent, s.next, s.rendered, s.count;
    }

    /** `vnode.render()`: allocate a fresh detached node bound to the vnode. */
    method Render(vnode: nat) returns (x: Handle)
      modifies this
      ensures (State(), x) == HostModel.Render(old(State()), vnode)
    {
      x := next;
      nodes := nodes[x := HostModel.Blank];
      next := next + 1;
      rendered := rendered + [HostModel.Rendered(vnode, x)];
    }

    method Detach(x: Handle)
      modifies this
      ensures State() == HostModel.Detach(old(State()), x)
    {
      if x in parent {
        var q := parent[x];
        var node := HostModel.NodeAt(State(), q);
        nodes := nodes[q := node.(children := HostModel.RemoveFirst(node.children, x))];
        parent := parent - {x};
      }
    }

    method InsertInto(p: Handle, x: Handle, ref: Option<Handle>)
      modifies this
      ensures State() == HostModel.InsertInto(old(State()), p, x, ref)
    {
      var node := HostModel.NodeAt(State(), p);
      var cs := node.children;
      var i := if ref.None? then -1 else HostModel.IndexOf(cs, ref.value);
      if i < 0 {
        cs := cs + [x];
      } else {
        cs := cs[..i] + [x] + cs[i..];
      }
      nodes := nodes[p := node.(children := cs)];
      parent := parent[x := p];
    }

    /** `p.insertBefore(x, ref)`. */
    method InsertBefore(p: Handle, x: Handle, ref: Option<Handle>) returns (thrown: Option<Error>)
      modifies this
      ensures HostModel.Outcome(State(), thrown) ==
              HostModel.Commit(old(State()), HostModel.InsertBefore(old(State()), p, x, ref))
    {
      if HostModel.IsInclusiveAncestor(State(), x, p) {
        return Some(HierarchyRequestError);
      }
      if ref.Some? && HostModel.ParentNode(State(), ref.value) != Some(p) {
        return Some(NotFoundError);
      }
      var before := if ref == Some(x) then HostModel.NextSibling(State(), x) else ref;
      var wasAttached := x in parent;
      var c := count;
      Detach(x);
      InsertInto(p, x, before);
      if wasAttached {
        count := c.(moves := c.moves + 1);
      } else {
        count := c.(inserts := c.inserts + 1);
      }
      thrown := None;
    }

    /** `p.appendChild(x)`. */
    method AppendChild(p: Handle, x: Handle) returns (thrown: Option<Error>)
      modifies this
      ensures HostModel.Outcome(State(), thrown) ==
              HostModel.Commit(old(State()), HostModel.AppendChild(old(State()), p, x))
    {
      thrown := InsertBefore(p, x, None);
    }

    /** `p.removeChild(x)`. */
    method RemoveChild(p: Handle, x: Handle) returns (thrown: Option<Error>)
      modifies this
      ensures HostModel.Outcome(State(), thrown) ==
              HostModel.Commit(old(State()), HostModel.RemoveChild(old(State()), p, x))
    {
      if HostModel.ParentNode(State(), x) != Some(p) {
        return Some(NotFoundError);
      }
      var c := count;
      Detach(x);
      count := c.(removals := c.removals + 1);
      thrown := None;
    }

    /** `p.replaceChild(x, child)`. */
    method ReplaceChild(p: Handle, x: Handle, child: Handle) returns (thrown: Option<Error>)
      modifies this
      ensures HostModel.Outcome(State(), thrown) ==
              HostModel.Commit(old(State()), HostModel.ReplaceChild(old(State()), p, x, child))
    {
      if HostModel.IsInclusiveAncestor(State(), x, p) {
        return Some(HierarchyRequestError);
      }
      if HostModel.ParentNode(State(), child) != Some(p) {
        return Some(NotFoundError);
      }
      var ref := HostModel.NextSibling(State(), child);
      var before := if ref == Some(x) then HostModel.NextSibling(State(), x) else ref;
      var c := count;
      Detach(x);
      Detach(child);
      InsertInto(p, x, before);
      count := c.(replacements := c.replacements + 1);
      thrown := None;
    }

    /** `x.setAttribute(k, v)`. */
    method SetAttribute(x: Handle, k: string, v: string)
      modifies this
      ensures State() == HostModel.SetAttribute(old(State()), x, k, v)
    {
      var node := HostModel.NodeAt(State(), x);
      nodes := nodes[x := node.(attrs := node.attrs[k := v])];
      count := count.(attrWrites := count.attrWrites + 1);
    }

    /** `x.removeAttribute(k)`. */
    method RemoveAttribute(x: Handle, k: string)
      modifies this
      ensures State() == HostModel.RemoveAttribute(old(State()), x, k)
    {
      var node := HostModel.NodeAt(State(), x);
      nodes := nodes[x := node.(attrs := node.attrs - {k})];
      count := count.(attrRemovals := count.attrRemovals + 1);
    }

    /** `x.textContent = s`. */
    method SetTextContent(x: Handle, s: string)
      modifies this
      ensures State() == HostModel.SetTextContent(old(State()), x, s)
    {
      var node := HostModel.NodeAt(State(), x);
      nodes := nodes[x := node.(text := s)];
      count := count.(textWrites := count.textWrites + 1);
    }
  }
}
