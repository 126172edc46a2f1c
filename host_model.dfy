/** An abstract host tree standing in for the DOM: nodes named by handles, each
    with ordered children, attributes and text, a parent relation, a handle
    allocator, and counters of the mutations the core performs. The operations
    are the DOM methods the core calls, with DOM's checks and error cases. */
module HostModel {
  import opened Base

  datatype HostNode = HostNode(children: seq<Handle>, attrs: map<string, string>, text: string)

  /** What a handle the map does not mention denotes: a detached, empty node. */
  const Blank: HostNode := HostNode([], map[], "")

  /** One call of `render`: which vnode was rendered and the handle it was bound to. */
  datatype Rendered = Rendered(vnode: nat, el: Handle)

  datatype Counters = Counters(
    inserts: nat,       // a detached node placed by insertBefore or appendChild
    moves: nat,         // an attached node moved by insertBefore or appendChild
    removals: nat,      // removeChild calls
    replacements: nat,  // replaceChild calls
    attrWrites: nat,    // setAttribute calls
    attrRemovals: nat,  // removeAttribute calls
    textWrites: nat)    // textContent assignments

  const NoCounts: Counters := Counters(0, 0, 0, 0, 0, 0, 0)

  datatype HostState = HostState(
    nodes: map<Handle, HostNode>,
    parent: map<Handle, Handle>,
    next: Handle,
    rendered: seq<Rendered>,
    count: Counters)

  /** The host after a (possibly interrupted) run, and the exception that ended it. */
  datatype Outcome = Outcome(host: HostState, thrown: Option<Error>)

  /** A DOM operation either fails before changing anything or succeeds. */
  function Commit(h: HostState, r: Result<HostState>): (o: Outcome)
    ensures r.Ok? ==> o == Outcome(r.value, None)
    ensures r.Err? ==> o == Outcome(h, Some(r.error))
  {
    match r
    case Ok(h') => Outcome(h', None)
    case Err(e) => Outcome(h, Some(e))
  }

  function NodeAt(h: HostState, x: Handle): HostNode
  {
    if x in h.nodes then h.nodes[x] else Blank
  }

  /** `childNodes` */
  function ChildNodes(h: HostState, x: Handle): seq<Handle>
  {
    NodeAt(h, x).children
  }

  /** `parentNode` */
  function ParentNode(h: HostState, x: Handle): Option<Handle>
  {
    if x in h.parent then Some(h.parent[x]) else None
  }

  function AttrsOf(h: HostState, x: Handle): map<string, string>
  {
    NodeAt(h, x).attrs
  }

  /** Position of the first `x` in `s`, or -1. */
  function IndexOf(s: seq<Handle>, x: Handle): (i: int)
    ensures -1 <= i < |s|
    ensures i == -1 <==> x !in s
    ensures 0 <= i ==> s[i] == x && x !in s[..i]
  {
    if s == [] then -1
    else if s[0] == x then 0
    else
      var j := IndexOf(s[1..], x);
      assert s[1..][..if j < 0 then 0 else j] == s[1..if j < 0 then 1 else j + 1];
      if j < 0 then -1 else j + 1
  }

  /** `s` without its first `x`. */
  function RemoveFirst(s: seq<Handle>, x: Handle): (r: seq<Handle>)
    ensures x !in s ==> r == s
    ensures x in s ==> r == s[..IndexOf(s, x)] + s[IndexOf(s, x) + 1..]
  {
    if s == [] then []
    else if s[0] == x then s[1..]
    else
      var r := [s[0]] + RemoveFirst(s[1..], x);
      assert x in s ==> s[..IndexOf(s, x)] == [s[0]] + s[1..][..IndexOf(s[1..], x)];
      r
  }

  /** `nextSibling`: null for a detached node or the last child. */
  function NextSibling(h: HostState, x: Handle): Option<Handle>
  {
    match ParentNode(h, x)
    case None => None
    case Some(q) =>
      var cs := ChildNodes(h, q);
      var i := IndexOf(cs, x);
      if 0 <= i && i + 1 < |cs| then Some(cs[i + 1]) else None
  }

  /** Is `a` the node `x` or one of its ancestors? The walk up the parent chain is
      bounded by the number of parent links, which an acyclic chain cannot exceed. */
  predicate IsInclusiveAncestor(h: HostState, a: Handle, x: Handle)
  {
    AncestorWithin(h, a, x, |h.parent|)
  }

  predicate AncestorWithin(h: HostState, a: Handle, x: Handle, fuel: nat)
    decreases fuel
  {
    a == x || (fuel > 0 && x in h.parent && AncestorWithin(h, a, h.parent[x], fuel - 1))
  }

  /** Take `x` out of its parent's child list, if it has a parent. */
  function Detach(h: HostState, x: Handle): HostState
  {
    match ParentNode(h, x)
    case None => h
    case Some(q) =>
      var node := NodeAt(h, q);
      h.(nodes := h.nodes[q := node.(children := RemoveFirst(node.children, x))],
         parent := h.parent - {x})
  }

  /** Put detached `x` into `p`'s children before `ref`, or at the end when `ref`
      is null (or, in an inconsistent tree, not found). */
  function InsertInto(h: HostState, p: Handle, x: Handle, ref: Option<Handle>): HostState
  {
    var node := NodeAt(h, p);
    h.(nodes := h.nodes[p := node.(children := Placed(node.children, x, ref))], parent := h.parent[x := p])
  }

  /** A child list with `x` put before `ref`, or at the end when `ref` is null or not in it. */
  function Placed(cs: seq<Handle>, x: Handle, ref: Option<Handle>): seq<Handle>
  {
    var i := if ref.None? then -1 else IndexOf(cs, ref.value);
    if i < 0 then cs + [x] else cs[..i] + [x] + cs[i..]
  }

  /** `p.insertBefore(x, ref)` (the DOM "pre-insert" steps). */
  function InsertBefore(h: HostState, p: Handle, x: Handle, ref: Option<Handle>): Result<HostState>
  {
    if IsInclusiveAncestor(h, x, p) then Err(HierarchyRequestError)
    else if ref.Some? && ParentNode(h, ref.value) != Some(p) then Err(NotFoundError)
    else
      var before := if ref == Some(x) then NextSibling(h, x) else ref;
      var h' := InsertInto(Detach(h, x), p, x, before);
      if x in h.parent then Ok(h'.(count := h.count.(moves := h.count.moves + 1)))
      else Ok(h'.(count := h.count.(inserts := h.count.inserts + 1)))
  }

  /** `p.appendChild(x)`. */
  function AppendChild(h: HostState, p: Handle, x: Handle): Result<HostState>
  {
    InsertBefore(h, p, x, None)
  }

  /** `p.removeChild(x)`. */
  function RemoveChild(h: HostState, p: Handle, x: Handle): Result<HostState>
  {
    if ParentNode(h, x) != Some(p) then Err(NotFoundError)
    else
      var h' := Detach(h, x);
      Ok(h'.(count := h.count.(removals := h.count.removals + 1)))
  }

  /** `p.replaceChild(x, c)`: `x` takes `c`'s place, `c` is detached. */
  function ReplaceChild(h: HostState, p: Handle, x: Handle, c: Handle): Result<HostState>
  {
    if IsInclusiveAncestor(h, x, p) then Err(HierarchyRequestError)
    else if ParentNode(h, c) != Some(p) then Err(NotFoundError)
    else
      var ref := NextSibling(h, c);
      var before := if ref == Some(x) then NextSibling(h, x) else ref;
      var h' := InsertInto(Detach(Detach(h, x), c), p, x, before);
      Ok(h'.(count := h.count.(replacements := h.count.replacements + 1)))
  }

  /** `x.setAttribute(k, v)`. */
  function SetAttribute(h: HostState, x: Handle, k: string, v: string): HostState
  {
    var node := NodeAt(h, x);
    h.(nodes := h.nodes[x := node.(attrs := node.attrs[k := v])],
       count := h.count.(attrWrites := h.count.attrWrites + 1))
  }

  /** `x.removeAttribute(k)`. */
  function RemoveAttribute(h: HostState, x: Handle, k: string): HostState
  {
    var node := NodeAt(h, x);
    h.(nodes := h.nodes[x := node.(attrs := node.attrs - {k})],
       count := h.count.(attrRemovals := h.count.attrRemovals + 1))
  }

  /** One `setAttribute` per entry of `m`, in any order. */
  function SetAttributes(h: HostState, x: Handle, m: map<string, string>): HostState
  {
    if m == map[] then h
    else
      var node := NodeAt(h, x);
      h.(nodes := h.nodes[x := node.(attrs := node.attrs + m)],
         count := h.count.(attrWrites := h.count.attrWrites + |m|))
  }

  /** One `removeAttribute` per name in `ks`, in any order. */
  function RemoveAttributes(h: HostState, x: Handle, ks: set<string>): HostState
  {
    if ks == {} then h
    else
      var node := NodeAt(h, x);
      h.(nodes := h.nodes[x := node.(attrs := node.attrs - ks)],
         count := h.count.(attrRemovals := h.count.attrRemovals + |ks|))
  }

  /** `x.textContent = s`. The element's replaced child nodes are not tracked. */
  function SetTextContent(h: HostState, x: Handle, s: string): HostState
  {
    var node := NodeAt(h, x);
    h.(nodes := h.nodes[x := node.(text := s)],
       count := h.count.(textWrites := h.count.textWrites + 1))
  }

  /** `vnode.render()`: a fresh, detached host node bound to the vnode. */
  function Render(h: HostState, vnode: nat): (r: (HostState, Handle))
    ensures r.1 == h.next && r.0.next == h.next + 1
    ensures r.0.rendered == h.rendered + [Rendered(vnode, h.next)]
  {
    (h.(nodes := h.nodes[h.next := Blank], next := h.next + 1,
        rendered := h.rendered + [Rendered(vnode, h.next)]), h.next)
  }

  // ---------------------------------------------------------------------------
  // Properties of the operations on a consistent tree.

  /** Every handle the tree mentions was allocated before `next`. */
  ghost predicate Allocated(h: HostState)
  {
    (forall x :: x in h.nodes ==> x < h.next) &&
    (forall x :: x in h.parent ==> x < h.next && h.parent[x] < h.next)
  }

  lemma {:induction false} AncestorBelow(h: HostState, a: Handle, x: Handle, fuel: nat)
    requires forall y :: y in h.parent ==> h.parent[y] < a
    requires x < a
    ensures !AncestorWithin(h, a, x, fuel)
    decreases fuel
  {
    if fuel > 0 && x in h.parent {
      AncestorBelow(h, a, h.parent[x], fuel - 1);
    }
  }

  /** Appending a freshly rendered node to an allocated parent succeeds, puts it
      last among the parent's children, and counts one insertion. */
  lemma AppendRendered(h: HostState, p: Handle, vnode: nat)
    requires Allocated(h) && p < h.next
    ensures var (h1, x) := Render(h, vnode);
      AppendChild(h1, p, x).Ok? &&
      var h2 := AppendChild(h1, p, x).value;
      ChildNodes(h2, p) == ChildNodes(h, p) + [x] &&
      ParentNode(h2, x) == Some(p) &&
      Allocated(h2) && h2.next == h.next + 1 &&
      h2.count == h.count.(inserts := h.count.inserts + 1) &&
      h2.rendered == h.rendered + [Rendered(vnode, x)] &&
      (forall y :: y != p ==> ChildNodes(h2, y) == ChildNodes(h, y))
  {
    var (h1, x) := Render(h, vnode);
    assert Allocated(h1);
    AncestorBelow(h1, x, p, |h1.parent|);
    assert ParentNode(h1, x) == None;
  }

  /** A freshly rendered node can always take the place of a child: the child is
      detached, the new node attached to the same parent, and one replacement counted. */
  lemma ReplaceRendered(h: HostState, p: Handle, c: Handle, vnode: nat)
    requires Allocated(h) && p < h.next && ParentNode(h, c) == Some(p)
    ensures var (h1, x) := Render(h, vnode);
      ReplaceChild(h1, p, x, c).Ok? &&
      var h2 := ReplaceChild(h1, p, x, c).value;
      ParentNode(h2, x) == Some(p) && ParentNode(h2, c) == None &&
      h2.count == h.count.(replacements := h.count.replacements + 1) &&
      h2.rendered == h.rendered + [Rendered(vnode, x)]
  {
    var (h1, x) := Render(h, vnode);
    AncestorBelow(h1, x, p, |h1.parent|);
  }

  /** No handle occurs twice in the list. */
  predicate Distinct(cs: seq<Handle>)
  {
    forall i, j :: 0 <= i < j < |cs| ==> cs[i] != cs[j]
  }

  /** A fresh node replacing a child of a consistent parent takes exactly that
      child's position. */
  lemma ReplaceInPlace(h: HostState, p: Handle, c: Handle, vnode: nat)
    requires Allocated(h) && p < h.next && ParentNode(h, c) == Some(p) && c in ChildNodes(h, p)
    requires Distinct(ChildNodes(h, p)) && forall y :: y in ChildNodes(h, p) ==> ParentNode(h, y) == Some(p)
    ensures var (h1, x) := Render(h, vnode);
      var cs := ChildNodes(h, p);
      var i := IndexOf(cs, c);
      ReplaceChild(h1, p, x, c).Ok? &&
      ChildNodes(ReplaceChild(h1, p, x, c).value, p) == cs[..i] + [x] + cs[i + 1..]
  {
    var (h1, x) := Render(h, vnode);
    var cs := ChildNodes(h, p);
    var i := IndexOf(cs, c);
    AncestorBelow(h1, x, p, |h1.parent|);
    assert ChildNodes(h1, p) == cs;
    assert x !in cs;
    assert NextSibling(h1, c) == (if i + 1 < |cs| then Some(cs[i + 1]) else None);
    assert ChildNodes(Detach(h1, c), p) == cs[..i] + cs[i + 1..];
    PlacedAtGap(cs, i, x);
  }

  /** Placing `x` before the successor of a removed element puts it in the gap. */
  lemma PlacedAtGap(cs: seq<Handle>, i: int, x: Handle)
    requires Distinct(cs) && 0 <= i < |cs|
    ensures Placed(cs[..i] + cs[i + 1..], x, if i + 1 < |cs| then Some(cs[i + 1]) else None) ==
            cs[..i] + [x] + cs[i + 1..]
  {
    var rest := cs[..i] + cs[i + 1..];
    if i + 1 < |cs| {
      var y := cs[i + 1];
      assert rest[i] == y;
      assert rest[..i] == cs[..i];
      assert rest[i..] == cs[i + 1..];
      assert IndexOf(rest, y) == i;
    } else {
      assert rest == cs[..i];
      assert cs[i + 1..] == [];
    }
  }

  /** Removing a child takes out exactly that child and leaves every other child list alone. */
  lemma RemoveChildExact(h: HostState, p: Handle, c: Handle)
    requires ParentNode(h, c) == Some(p) && c in ChildNodes(h, p)
    ensures RemoveChild(h, p, c).Ok?
    ensures var h' := RemoveChild(h, p, c).value;
      var cs := ChildNodes(h, p);
      var i := IndexOf(cs, c);
      ChildNodes(h', p) == cs[..i] + cs[i + 1..] &&
      ParentNode(h', c) == None &&
      h'.count == h.count.(removals := h.count.removals + 1) &&
      (forall y :: y != p ==> ChildNodes(h', y) == ChildNodes(h, y))
  {
  }

  /** A node with no parent is not below any other node. */
  lemma RootNotBelow(h: HostState, x: Handle, p: Handle)
    requires p !in h.parent && x != p
    ensures !IsInclusiveAncestor(h, x, p)
  {
  }

  /** `insertBefore` of an attached child of `p` moves it: it leaves its old
      place and enters before `ref` (at the end for a null or missing `ref`). */
  lemma InsertMoves(h: HostState, p: Handle, x: Handle, ref: Option<Handle>)
    requires ParentNode(h, x) == Some(p) && !IsInclusiveAncestor(h, x, p)
    requires ref.Some? ==> ref != Some(x) && ParentNode(h, ref.value) == Some(p)
    ensures InsertBefore(h, p, x, ref).Ok?
    ensures var h' := InsertBefore(h, p, x, ref).value;
      ChildNodes(h', p) == Placed(RemoveFirst(ChildNodes(h, p), x), x, ref) &&
      ParentNode(h', x) == Some(p) && (forall y :: y != x ==> ParentNode(h', y) == ParentNode(h, y)) &&
      h'.count == h.count.(moves := h.count.moves + 1) && h'.rendered == h.rendered && h'.next == h.next
  {
    assert NodeAt(Detach(h, x), p).children == RemoveFirst(ChildNodes(h, p), x);
  }

  /** `insertBefore` of a detached node puts it before `ref`, or at the end. */
  lemma InsertFresh(h: HostState, p: Handle, x: Handle, ref: Option<Handle>)
    requires x !in h.parent && !IsInclusiveAncestor(h, x, p)
    requires ref.Some? ==> ref != Some(x) && ParentNode(h, ref.value) == Some(p)
    ensures InsertBefore(h, p, x, ref).Ok?
    ensures var h' := InsertBefore(h, p, x, ref).value;
      ChildNodes(h', p) == Placed(ChildNodes(h, p), x, ref) &&
      ParentNode(h', x) == Some(p) && (forall y :: y != x ==> ParentNode(h', y) == ParentNode(h, y)) &&
      h'.count == h.count.(inserts := h.count.inserts + 1) && h'.rendered == h.rendered && h'.next == h.next
  {
  }

  /** Removing attributes one at a time builds up the bulk removal. */
  lemma RemoveAttributesStep(h: HostState, x: Handle, ks: set<string>, k: string)
    requires k !in ks
    ensures RemoveAttribute(RemoveAttributes(h, x, ks), x, k) == RemoveAttributes(h, x, ks + {k})
  {
    if ks != {} {
      var node := NodeAt(h, x);
      var n1 := node.(attrs := node.attrs - ks);
      var h1 := h.(nodes := h.nodes[x := n1], count := h.count.(attrRemovals := h.count.attrRemovals + |ks|));
      assert RemoveAttributes(h, x, ks) == h1;
      assert NodeAt(h1, x) == n1;
      assert |ks + {k}| == |ks| + 1;
      assert n1.(attrs := n1.attrs - {k}) == node.(attrs := node.attrs - (ks + {k}));
      Overwrite(h.nodes, x, n1, node.(attrs := node.attrs - (ks + {k})));
    }
  }

  /** Writing attributes one at a time builds up the bulk write. */
  lemma SetAttributesStep(h: HostState, x: Handle, m: map<string, string>, k: string, v: string)
    requires k !in m
    ensures SetAttribute(SetAttributes(h, x, m), x, k, v) == SetAttributes(h, x, m[k := v])
  {
    if m == map[] {
      SetAttributesFirst(h, x, k, v);
    } else {
      SetAttributesNext(h, x, m, k, v);
    }
  }

  lemma SetAttributesFirst(h: HostState, x: Handle, k: string, v: string)
    ensures SetAttribute(h, x, k, v) == SetAttributes(h, x, map[k := v])
  {
    assert NodeAt(h, x).attrs + map[k := v] == NodeAt(h, x).attrs[k := v];
  }

  lemma SetAttributesNext(h: HostState, x: Handle, m: map<string, string>, k: string, v: string)
    requires k !in m && m != map[]
    ensures SetAttribute(SetAttributes(h, x, m), x, k, v) == SetAttributes(h, x, m[k := v])
  {
    MapCardUpdate(m, k, v);
    MergeUpdate(NodeAt(h, x).attrs, m, k, v);
    var node := NodeAt(h, x);
    var n1 := node.(attrs := node.attrs + m);
    var h1 := h.(nodes := h.nodes[x := n1], count := h.count.(attrWrites := h.count.attrWrites + |m|));
    assert SetAttributes(h, x, m) == h1;
    assert NodeAt(h1, x) == n1;
    var n2 := node.(attrs := node.attrs + m[k := v]);
    assert n1.(attrs := n1.attrs[k := v]) == n2;
    Overwrite(h.nodes, x, n1, n2);
  }

  lemma Overwrite(nodes: map<Handle, HostNode>, x: Handle, a: HostNode, b: HostNode)
    ensures nodes[x := a][x := b] == nodes[x := b]
  {
  }

  /** The node a non-empty bulk write leaves behind. */
  lemma SetAttributesNode(h: HostState, x: Handle, m: map<string, string>)
    requires m != map[]
    ensures NodeAt(SetAttributes(h, x, m), x) == NodeAt(h, x).(attrs := NodeAt(h, x).attrs + m)
  {
  }

  lemma MergeUpdate(a: map<string, string>, m: map<string, string>, k: string, v: string)
    ensures (a + m)[k := v] == a + m[k := v]
  {
  }

  lemma MapCardUpdate(m: map<string, string>, k: string, v: string)
    requires k !in m
    ensures |m[k := v]| == |m| + 1
  {
    assert m[k := v].Keys == m.Keys + {k};
    assert |m.Keys + {k}| == |m.Keys| + 1;
  }
}
