/** The virtual-node data model: construction (`new Vnode`, `createElement`)
    and the identity test `sameVnode`. */
module Vnodes {
  import opened Base

  /** The element kinds the constructor recognises; any other tag string is text. */
  const ReversedTags: seq<string> :=
    ["div", "p", "h1", "h2", "h3", "h4", "h5", "h6", "span", "a", "i", "b", "img", "input", "button"]

  type Props = map<string, JsValue>

  /** The `children` argument: absent, a string, or an array object of vnodes.
      `listId` stands for the array's object identity. */
  datatype Children =
    | NoChildren
    | TextChildren(s: string)
    | ListChildren(listId: nat, items: seq<Vnode>)

  /** A vnode as the constructor leaves it. `id` stands for the object's identity
      (what `===` compares), `el` for its host binding (null until rendered).
      A text node has null `tag`, `props` and `children`; its `text` and `key` are its string. */
  datatype Vnode =
    | TextNode(id: nat, text: string, el: Option<Handle>)
    | Element(id: nat, tag: string, props: Option<Props>, children: Children, key: JsValue, el: Option<Handle>)

  /** The `tag` field. */
  function TagOf(v: Vnode): Option<string>
  {
    if v.TextNode? then None else Some(v.tag)
  }

  /** The `props` field. */
  function PropsOf(v: Vnode): Option<Props>
  {
    if v.TextNode? then None else v.props
  }

  /** The `children` field. */
  function ChildrenOf(v: Vnode): Children
  {
    if v.TextNode? then NoChildren else v.children
  }

  /** The `key` field. */
  function KeyOf(v: Vnode): JsValue
  {
    if v.TextNode? then Str(v.text) else v.key
  }

  /** The `text` field: a text node's string, or an element's string children. */
  function TextOf(v: Vnode): Option<string>
  {
    match v
    case TextNode(_, t, _) => Some(t)
    case Element(_, _, _, ch, _, _) => if ch.TextChildren? then Some(ch.s) else None
  }

  /** The `Vnode` constructor, with `id` the identity of the new object. */
  function MakeVnode(id: nat, tag: string, props: Option<Props>, children: Children, key: JsValue): (v: Vnode)
    ensures v.id == id && v.el == None
    ensures v.TextNode? <==> tag !in ReversedTags
    ensures tag !in ReversedTags ==>
      TagOf(v) == None && PropsOf(v) == None && ChildrenOf(v) == NoChildren &&
      TextOf(v) == Some(tag) && KeyOf(v) == Str(tag)
    ensures tag in ReversedTags ==>
      TagOf(v) == Some(tag) && PropsOf(v) == props && ChildrenOf(v) == children && KeyOf(v) == key &&
      TextOf(v) == (if children.TextChildren? then Some(children.s) else None)
  {
    if tag !in ReversedTags then TextNode(id, tag, None)
    else Element(id, tag, props, children, key, None)
  }

  /** `props && props.key`: null props give a null key, a missing entry `undefined`. */
  function PropsKey(props: Option<Props>): JsValue
  {
    match props
    case None => Null
    case Some(p) => if "key" in p then p["key"] else Undefined
  }

  /** `createElement(tag, props, children)`; the key comes from `props.key`. */
  function CreateElement(id: nat, tag: string, props: Option<Props>, children: Children): (v: Vnode)
    ensures v.id == id && v.el == None
    ensures tag in ReversedTags && props.None? ==> KeyOf(v) == Null
    ensures tag in ReversedTags && props.Some? ==>
      KeyOf(v) == (if "key" in props.value then props.value["key"] else Undefined)
    ensures tag !in ReversedTags ==> v.TextNode? && KeyOf(v) == Str(tag) && TextOf(v) == Some(tag)
  {
    MakeVnode(id, tag, props, children, PropsKey(props))
  }

  /** `sameVnode`: equal keys and equal tags (`===` on strings and null). */
  predicate SameVnode(a: Vnode, b: Vnode)
  {
    KeyOf(a) == KeyOf(b) && TagOf(a) == TagOf(b)
  }

  /** Nodes a vnode tree contains, for termination measures. */
  function Size(v: Vnode): nat
  {
    match v
    case TextNode(_, _, _) => 1
    case Element(_, _, _, ch, _, _) => 1 + (if ch.ListChildren? then ListSize(ch.items) else 0)
  }

  function ListSize(s: seq<Vnode>): nat
  {
    if s == [] then 0 else Size(s[0]) + ListSize(s[1..])
  }

  lemma {:induction false} ListSizeBound(s: seq<Vnode>, i: int)
    requires 0 <= i < |s|
    ensures Size(s[i]) <= ListSize(s)
  {
    if i > 0 {
      ListSizeBound(s[1..], i - 1);
    }
  }

  lemma SameVnodeReflexive(a: Vnode)
    ensures SameVnode(a, a)
  {
  }

  lemma SameVnodeSymmetric(a: Vnode, b: Vnode)
    ensures SameVnode(a, b) == SameVnode(b, a)
  {
  }

  lemma SameVnodeTransitive(a: Vnode, b: Vnode, c: Vnode)
    requires SameVnode(a, b) && SameVnode(b, c)
    ensures SameVnode(a, c)
  {
  }

  /** For constructed vnodes identity is decided by the constructor's arguments:
      two text nodes are the same exactly when their strings are, two elements when
      their tags and keys are, and a text node is never the same as an element. */
  lemma SameConstructed(i: nat, t1: string, p1: Option<Props>, c1: Children, k1: JsValue,
                        j: nat, t2: string, p2: Option<Props>, c2: Children, k2: JsValue)
    ensures SameVnode(MakeVnode(i, t1, p1, c1, k1), MakeVnode(j, t2, p2, c2, k2)) <==>
      if t1 !in ReversedTags then t2 !in ReversedTags && t1 == t2
      else t2 in ReversedTags && t1 == t2 && k1 == k2
  {
  }
}
