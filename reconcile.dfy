/** The core as functions of the host state: what `patch`, `patchVnode`,
    `updateProps`, `createKeyToIndex`, `updateChildren`, `addNodes` and
    `removeNodes` do to the host, step by step, including where they throw.
    A throw ends the pass and keeps every mutation made before it. */
module Reconcile {
  import opened Base
  import opened Vnodes
  import opened HostModel

  function Done(h: HostState): Outcome
  {
    Outcome(h, None)
  }

  function Threw(h: HostState, e: Error): Outcome
  {
    Outcome(h, Some(e))
  }

  // ---------------------------------------------------------------------------
  // updateProps

  /** `props[k]`: `undefined` for a missing name. */
  function PropGet(p: Props, k: string): JsValue
  {
    if k in p then p[k] else Undefined
  }

  /** Old names whose new value is null or undefined: each gets a `removeAttribute`. */
  function StaleNames(op: Props, np: Props): set<string>
  {
    set k | k in op && Nullish(PropGet(np, k))
  }

  /** New entries whose old value is null, undefined or different: each gets a `setAttribute`. */
  function Changed(op: Props, np: Props): map<string, string>
  {
    map k | k in np && (Nullish(PropGet(op, k)) || PropGet(op, k) != np[k]) :: ToJsString(np[k])
  }

  /** The names the first loop has removed once it has visited the names in `done`. */
  function StaleOn(op: Props, np: Props, done: set<string>): set<string>
  {
    set k | k in done && k in op && Nullish(PropGet(np, k))
  }

  /** The writes the second loop has made once it has visited the names in `done`. */
  function ChangedOn(op: Props, np: Props, done: set<string>): map<string, string>
  {
    map k | k in done && k in np && (Nullish(PropGet(op, k)) || PropGet(op, k) != np[k]) :: ToJsString(np[k])
  }

  /** The first loop of `updateProps`, over the old props. */
  function RemoveStale(o: Vnode, n: Vnode, h: HostState): Outcome
  {
    match PropsOf(o)
    case None => Done(h)
    case Some(op) =>
      if op.Keys == {} then Done(h)
      else if PropsOf(n).None? then Threw(h, NullProps)
      else
        var gone := StaleNames(op, PropsOf(n).value);
        if gone == {} then Done(h)
        else if o.el.None? then Threw(h, NullElement)
        else Done(RemoveAttributes(h, o.el.value, gone))
  }

  /** The second loop of `updateProps`, over the new props. */
  function WriteChanged(o: Vnode, n: Vnode, h: HostState): Outcome
  {
    match PropsOf(n)
    case None => Done(h)
    case Some(np) =>
      if np.Keys == {} then Done(h)
      else if PropsOf(o).None? then Threw(h, NullProps)
      else
        var writes := Changed(PropsOf(o).value, np);
        if writes == map[] then Done(h)
        else if o.el.None? then Threw(h, NullElement)
        else Done(SetAttributes(h, o.el.value, writes))
  }

  function UpdateProps(o: Vnode, n: Vnode, h: HostState): Outcome
  {
    if !Truthy(TagOf(o)) then Done(h)
    else
      var r := RemoveStale(o, n, h);
      if r.thrown.Some? then r else WriteChanged(o, n, r.host)
  }

  // ---------------------------------------------------------------------------
  // createKeyToIndex

  /** `createKeyToIndex(children, s, e)`: property name of each key in
      `children[s..e]` (both ends included) to its index, later indices winning.
      Reading an undefined slot throws. */
  function KeyToIndex(children: seq<Option<Vnode>>, s: nat, e: int): Result<map<string, int>>
    decreases e - s
  {
    if e < s then Ok(map[])
    else
      match KeyToIndex(children, s, e - 1)
      case Err(err) => Err(err)
      case Ok(m) =>
        if e < |children| && children[e].Some? then Ok(m[ToJsString(KeyOf(children[e].value)) := e])
        else Err(UndefinedVnode)
  }

  // ---------------------------------------------------------------------------
  // updateChildren

  /** The loop state of `updateChildren`: the old array (consumed slots blanked),
      the four indices and the lazily built key map. */
  datatype Scan = Scan(
    oldCh: seq<Option<Vnode>>,
    oldStart: int, oldEnd: int,
    newStart: int, newEnd: int,
    keyToIndex: Option<map<string, int>>)

  datatype Branch = StartStart | EndEnd | StartEnd | EndStart | Keyed

  /** One iteration: it throws while choosing its branch, or takes one. */
  datatype StepResult =
    | Stuck(out: Outcome)
    | Stepped(branch: Branch, scan: Scan, out: Outcome)

  function Wrap(s: seq<Vnode>): (r: seq<Option<Vnode>>)
    ensures |r| == |s| && forall i :: 0 <= i < |r| ==> r[i] == Some(s[i])
  {
    seq(|s|, i requires 0 <= i < |s| => Some(s[i]))
  }

  /** The slots of a scan hold the original old children, some of them blanked. */
  ghost predicate Slots(oldCh0: seq<Vnode>, oldCh: seq<Option<Vnode>>)
  {
    |oldCh| == |oldCh0| && forall i :: 0 <= i < |oldCh| ==> oldCh[i] == None || oldCh[i] == Some(oldCh0[i])
  }

  ghost predicate InRange(oldCh0: seq<Vnode>, newCh: seq<Vnode>, s: Scan)
  {
    Slots(oldCh0, s.oldCh) &&
    0 <= s.oldStart <= s.oldEnd + 1 <= |oldCh0| &&
    0 <= s.newStart <= s.newEnd + 1 <= |newCh|
  }

  /** The loop condition. */
  predicate Running(s: Scan)
  {
    s.oldStart <= s.oldEnd && s.newStart <= s.newEnd
  }

  function Remaining(s: Scan): int
  {
    (s.oldEnd - s.oldStart) + (s.newEnd - s.newStart)
  }

  function InitScan(oldCh: seq<Vnode>, newCh: seq<Vnode>): Scan
  {
    Scan(Wrap(oldCh), 0, |oldCh| - 1, 0, |newCh| - 1, None)
  }

  /** Which branch an iteration takes. The pairs are compared in the order
      start/start, end/end, old start/new end, old end/new start; comparing a
      blanked old slot throws. */
  function Pick(newCh: seq<Vnode>, s: Scan): (r: Result<Branch>)
    requires 0 <= s.oldStart <= s.oldEnd < |s.oldCh| && 0 <= s.newStart <= s.newEnd < |newCh|
    ensures r.Err? <==>
      s.oldCh[s.oldStart].None? ||
      (!SameVnode(s.oldCh[s.oldStart].value, newCh[s.newStart]) && s.oldCh[s.oldEnd].None?)
    ensures r.Err? ==> r.error == UndefinedVnode
    ensures r.Ok? ==> s.oldCh[s.oldStart].Some? && (r.value != StartStart ==> s.oldCh[s.oldEnd].Some?)
    ensures r == Ok(StartStart) <==>
      s.oldCh[s.oldStart].Some? && SameVnode(s.oldCh[s.oldStart].value, newCh[s.newStart])
    ensures r.Ok? && r.value != StartStart ==>
      var os, oe := s.oldCh[s.oldStart].value, s.oldCh[s.oldEnd].value;
      var ns, ne := newCh[s.newStart], newCh[s.newEnd];
      !SameVnode(os, ns) &&
      (r.value == EndEnd <==> SameVnode(oe, ne)) &&
      (r.value == StartEnd <==> !SameVnode(oe, ne) && SameVnode(os, ne)) &&
      (r.value == EndStart <==> !SameVnode(oe, ne) && !SameVnode(os, ne) && SameVnode(oe, ns)) &&
      (r.value == Keyed <==> !SameVnode(oe, ne) && !SameVnode(os, ne) && !SameVnode(oe, ns))
  {
    var ns, ne := newCh[s.newStart], newCh[s.newEnd];
    match s.oldCh[s.oldStart]
    case None => Err(UndefinedVnode)
    case Some(os) =>
      if SameVnode(os, ns) then Ok(StartStart)
      else
        match s.oldCh[s.oldEnd]
        case None => Err(UndefinedVnode)
        case Some(oe) =>
          if SameVnode(oe, ne) then Ok(EndEnd)
          else if SameVnode(os, ne) then Ok(StartEnd)
          else if SameVnode(oe, ns) then Ok(EndStart)
          else Ok(Keyed)
  }

  /** `parentEl.insertBefore(x.el, y.el.nextSibling)`. */
  function MoveAfter(h: HostState, p: Option<Handle>, x: Option<Handle>, y: Option<Handle>): Outcome
  {
    if p.None? || x.None? || y.None? then Threw(h, NullElement)
    else Commit(h, InsertBefore(h, p.value, x.value, NextSibling(h, y.value)))
  }

  /** `parentEl.insertBefore(x.el, ref)`; a null `ref` appends. */
  function MoveBefore(h: HostState, p: Option<Handle>, x: Option<Handle>, ref: Option<Handle>): Outcome
  {
    if p.None? || x.None? then Threw(h, NullElement)
    else Commit(h, InsertBefore(h, p.value, x.value, ref))
  }

  /** `parentEl.insertBefore(v.render(), ref)`: the render happens once `parentEl` is known to exist. */
  function RenderBefore(h: HostState, p: Option<Handle>, vnode: nat, ref: Option<Handle>): Outcome
  {
    if p.None? then Threw(h, NullElement)
    else
      var (h1, x) := Render(h, vnode);
      Commit(h1, InsertBefore(h1, p.value, x, ref))
  }

  /** One iteration of the `while` loop. */
  function Step(oldCh0: seq<Vnode>, newCh: seq<Vnode>, p: Option<Handle>, s: Scan, h: HostState): (r: StepResult)
    requires InRange(oldCh0, newCh, s) && Running(s)
    ensures r.Stuck? <==> Pick(newCh, s).Err?
    ensures r.Stuck? ==> r.out == Threw(h, UndefinedVnode)
    ensures r.Stepped? ==> Pick(newCh, s) == Ok(r.branch)
    ensures r.Stepped? ==> InRange(oldCh0, newCh, r.scan) && Remaining(r.scan) < Remaining(s)
    ensures r.Stepped? && r.branch == StartStart ==>
      r.scan == s.(oldStart := s.oldStart + 1, newStart := s.newStart + 1)
    ensures r.Stepped? && r.branch == EndEnd ==>
      r.scan == s.(oldEnd := s.oldEnd - 1, newEnd := s.newEnd - 1)
    ensures r.Stepped? && r.branch == StartEnd ==>
      r.scan == s.(oldStart := s.oldStart + 1, newEnd := s.newEnd - 1)
    ensures r.Stepped? && r.branch == EndStart ==>
      r.scan == s.(oldEnd := s.oldEnd - 1, newStart := s.newStart + 1)
    ensures r.Stepped? && r.branch == Keyed ==>
      r.scan.oldStart == s.oldStart && r.scan.oldEnd == s.oldEnd &&
      r.scan.newStart == s.newStart + 1 && r.scan.newEnd == s.newEnd &&
      (s.keyToIndex.Some? ==> r.scan.keyToIndex == s.keyToIndex) &&
      (r.out.thrown.None? ==> r.scan.keyToIndex.Some?) &&
      r.scan.oldCh[s.oldStart] == s.oldCh[s.oldStart] && r.scan.oldCh[s.oldEnd] == s.oldCh[s.oldEnd]
    ensures r.Stepped? && r.branch != Keyed ==> r.scan.oldCh == s.oldCh
    decreases ListSize(oldCh0), 1, 1
  {
    var os, oe, ns, ne := s.oldStart, s.oldEnd, s.newStart, s.newEnd;
    match Pick(newCh, s)
    case Err(e) => Stuck(Threw(h, e))
    case Ok(StartStart) =>
      ListSizeBound(oldCh0, os);
      Stepped(StartStart, s.(oldStart := os + 1, newStart := ns + 1),
              PatchVnode(s.oldCh[os].value, newCh[ns], h))
    case Ok(EndEnd) =>
      ListSizeBound(oldCh0, oe);
      Stepped(EndEnd, s.(oldEnd := oe - 1, newEnd := ne - 1),
              PatchVnode(s.oldCh[oe].value, newCh[ne], h))
    case Ok(StartEnd) =>
      ListSizeBound(oldCh0, os);
      var r := PatchVnode(s.oldCh[os].value, newCh[ne], h);
      Stepped(StartEnd, s.(oldStart := os + 1, newEnd := ne - 1),
              if r.thrown.Some? then r
              else MoveAfter(r.host, p, s.oldCh[os].value.el, s.oldCh[oe].value.el))
    case Ok(EndStart) =>
      ListSizeBound(oldCh0, oe);
      var r := PatchVnode(s.oldCh[oe].value, newCh[ns], h);
      Stepped(EndStart, s.(oldEnd := oe - 1, newStart := ns + 1),
              if r.thrown.Some? then r
              else MoveBefore(r.host, p, s.oldCh[oe].value.el, s.oldCh[os].value.el))
    case Ok(Keyed) =>
      KeyedStep(oldCh0, newCh, p, s, h)
  }

  /** The fallback branch: look the new start's key up in the key map (built on
      first use over old indices `oldStart..newStart`); index 0 and a missing key
      both count as "not found". */
  function KeyedStep(oldCh0: seq<Vnode>, newCh: seq<Vnode>, p: Option<Handle>, s: Scan, h: HostState): (r: StepResult)
    requires InRange(oldCh0, newCh, s) && Running(s) && Pick(newCh, s) == Ok(Keyed)
    ensures r.Stepped? && r.branch == Keyed
    ensures InRange(oldCh0, newCh, r.scan)
    // the slot it blanks is never one of the two the loop has cached
    ensures r.scan.oldCh[s.oldStart] == s.oldCh[s.oldStart] && r.scan.oldCh[s.oldEnd] == s.oldCh[s.oldEnd]
    ensures r.scan.oldStart == s.oldStart && r.scan.oldEnd == s.oldEnd
    ensures r.scan.newStart == s.newStart + 1 && r.scan.newEnd == s.newEnd
    ensures s.keyToIndex.Some? ==> r.scan.keyToIndex == s.keyToIndex
    ensures r.out.thrown.None? ==> r.scan.keyToIndex.Some?
    decreases ListSize(oldCh0), 1, 0
  {
    var os, ns := s.oldStart, s.newStart;
    var built := if s.keyToIndex.Some? then Ok(s.keyToIndex.value) else KeyToIndex(s.oldCh, os, ns);
    match built
    case Err(e) => Stepped(Keyed, s.(newStart := ns + 1), Threw(h, e))
    case Ok(m) =>
      var s1 := s.(newStart := ns + 1, keyToIndex := Some(m));
      var ref := s.oldCh[os].value.el;
      var name := ToJsString(KeyOf(newCh[ns]));
      if name !in m || m[name] == 0 then
        Stepped(Keyed, s1, RenderBefore(h, p, newCh[ns].id, ref))
      else
        var k := m[name];
        if !(0 <= k < |s.oldCh|) || s.oldCh[k].None? then
          Stepped(Keyed, s1, Threw(h, DuplicateKey))
        else
          var v := s.oldCh[k].value;
          if SameVnode(v, newCh[ns]) then
            ListSizeBound(oldCh0, k);
            var r := PatchVnode(v, newCh[ns], h);
            Stepped(Keyed, s1.(oldCh := s.oldCh[k := None]),
                    if r.thrown.Some? then r else MoveBefore(r.host, p, v.el, ref))
          else
            Stepped(Keyed, s1, RenderBefore(h, p, newCh[ns].id, ref))
  }

  /** The `while` loop and what follows it. */
  function Loop(oldCh0: seq<Vnode>, newCh: seq<Vnode>, p: Option<Handle>, s: Scan, h: HostState): Outcome
    requires InRange(oldCh0, newCh, s)
    decreases ListSize(oldCh0), 1, Remaining(s) + 4
  {
    if Running(s) then
      match Step(oldCh0, newCh, p, s, h)
      case Stuck(out) => out
      case Stepped(_, s', out) =>
        if out.thrown.Some? then out else Loop(oldCh0, newCh, p, s', out.host)
    else if s.oldStart > s.oldEnd then AddNodes(newCh, s.newStart, s.newEnd, p, h)
    else RemoveNodes(s.oldCh, s.oldStart, s.oldEnd, p, h)
  }

  /** An iteration that completes hands the rest of the pass to the next one. */
  lemma LoopStepped(oldCh0: seq<Vnode>, newCh: seq<Vnode>, p: Option<Handle>, s: Scan, h: HostState)
    requires InRange(oldCh0, newCh, s) && Running(s)
    requires Step(oldCh0, newCh, p, s, h).Stepped? && Step(oldCh0, newCh, p, s, h).out.thrown.None?
    ensures Loop(oldCh0, newCh, p, s, h) ==
      Loop(oldCh0, newCh, p, Step(oldCh0, newCh, p, s, h).scan, Step(oldCh0, newCh, p, s, h).out.host)
  {
  }

  /** `updateChildren(oldCh, newCh, parentEl)`. */
  function UpdateChildren(oldCh: seq<Vnode>, newCh: seq<Vnode>, p: Option<Handle>, h: HostState): Outcome
    decreases ListSize(oldCh), 2, 0
  {
    Loop(oldCh, newCh, p, InitScan(oldCh, newCh), h)
  }

  /** `addNodes(children, s, e, parentEl)`: render and append each, in order. */
  function AddNodes(children: seq<Vnode>, s: int, e: int, p: Option<Handle>, h: HostState): Outcome
    decreases e - s
  {
    if e < s then Done(h)
    else if p.None? then Threw(h, NullElement)
    else if !(0 <= s < |children|) then Threw(h, UndefinedVnode)
    else
      var (h1, x) := Render(h, children[s].id);
      var r := Commit(h1, AppendChild(h1, p.value, x));
      if r.thrown.Some? then r else AddNodes(children, s + 1, e, p, r.host)
  }

  /** `removeNodes(children, s, e, parentEl)`: remove each one's host node, in order. */
  function RemoveNodes(children: seq<Option<Vnode>>, s: int, e: int, p: Option<Handle>, h: HostState): Outcome
    decreases e - s
  {
    if e < s then Done(h)
    else if p.None? then Threw(h, NullElement)
    else if !(0 <= s < |children|) || children[s].None? then Threw(h, UndefinedVnode)
    else if children[s].value.el.None? then Threw(h, NullElement)
    else
      var r := Commit(h, RemoveChild(h, p.value, children[s].value.el.value));
      if r.thrown.Some? then r else RemoveNodes(children, s + 1, e, p, r.host)
  }

  // ---------------------------------------------------------------------------
  // patchVnode and patch

  /** `el.textContent = text`: a null text clears the content. */
  function TextContent(t: Option<string>): string
  {
    if t.None? then "" else t.value
  }

  /** The part of `patchVnode` before `updateProps`: text or children. */
  function PatchContent(o: Vnode, n: Vnode, h: HostState): Outcome
    decreases Size(o), 0, 1
  {
    if !Truthy(TextOf(o)) then
      match (ChildrenOf(o), ChildrenOf(n))
      case (ListChildren(a, xs), ListChildren(b, ys)) =>
        if a == b then Done(h) else UpdateChildren(xs, ys, o.el, h)
      case (ListChildren(_, _), TextChildren(t)) =>
        // `updateChildren` receives a string: its first host call through a null
        // `el` fails, otherwise rendering the first character does
        if t == "" then Done(h) else if o.el.None? then Threw(h, NullElement) else Threw(h, StringChildren)
      case _ => Done(h)
    else if TextOf(o) != TextOf(n) then
      if o.el.None? then Threw(h, NullElement)
      else Done(SetTextContent(h, o.el.value, TextContent(TextOf(n))))
    else Done(h)
  }

  /** `patchVnode(oldVnode, newVnode)`. */
  function PatchVnode(o: Vnode, n: Vnode, h: HostState): Outcome
    decreases Size(o), 0, 2
  {
    if o.id == n.id then Done(h)
    else
      var r := PatchContent(o, n, h);
      if r.thrown.Some? then r else UpdateProps(o, n, r.host)
  }

  /** `patch(oldVnode, newVnode, parentEl)`. */
  function Patch(o: Option<Vnode>, n: Option<Vnode>, p: Option<Handle>, h: HostState): Outcome
  {
    if o.None? then
      if n.None? then Threw(h, UndefinedVnode)
      else
        var (h1, x) := Render(h, n.value.id);
        if p.None? then Threw(h1, NullElement) else Commit(h1, AppendChild(h1, p.value, x))
    else if n.None? then
      if p.None? || o.value.el.None? then Threw(h, NullElement)
      else Commit(h, RemoveChild(h, p.value, o.value.el.value))
    else if SameVnode(o.value, n.value) then PatchVnode(o.value, n.value, h)
    else
      var (h1, x) := Render(h, n.value.id);
      if p.None? || o.value.el.None? then Threw(h1, NullElement)
      else Commit(h1, ReplaceChild(h1, p.value, x, o.value.el.value))
  }
}
