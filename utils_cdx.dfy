/** Component discovery in a CycloneDX document (internal/utils/cdx.go).

    The Go code returns pointers into the document. Here a pointer is a
    Handle: the root it starts from (the metadata component, or the i-th
    top-level component) and the index path through nested `components`
    lists. `At` reads the component a handle points to and `Write` replaces
    it, so an update through a handle lands in the document. */
module UtilsCdx {
  import opened Base
  import opened Cdx

  datatype Root = MetaRoot | TopRoot(index: nat)

  datatype Handle = Handle(root: Root, path: seq<nat>)

  // ----- addressing -----

  predicate ValidPath(c: Component, path: seq<nat>)
    decreases |path|
  {
    |path| == 0 || (path[0] < |Children(c)| && ValidPath(Children(c)[path[0]], path[1..]))
  }

  function AtPath(c: Component, path: seq<nat>): Component
    requires ValidPath(c, path)
    decreases |path|
  {
    if |path| == 0 then c else AtPath(Children(c)[path[0]], path[1..])
  }

  /** c with the subtree at path replaced by n. */
  function WritePath(c: Component, path: seq<nat>, n: Component): Component
    requires ValidPath(c, path)
    decreases |path|
  {
    if |path| == 0 then n
    else
      var ch := Children(c);
      c.(components := List(ch[path[0] := WritePath(ch[path[0]], path[1..], n)]))
  }

  /** The component a root names, if the document has it. */
  function RootOf(bom: Bom, root: Root): Option<Component> {
    match root
    case MetaRoot =>
      if bom.metadata.Some? && bom.metadata.value.component.Some? then bom.metadata.value.component else None
    case TopRoot(i) =>
      if bom.components.Some? && i < |bom.components.value| then Some(bom.components.value[i]) else None
  }

  predicate Valid(bom: Bom, h: Handle) {
    RootOf(bom, h.root).Some? && ValidPath(RootOf(bom, h.root).value, h.path)
  }

  /** The component a handle points to. */
  function At(bom: Bom, h: Handle): Component
    requires Valid(bom, h)
  {
    AtPath(RootOf(bom, h.root).value, h.path)
  }

  /** The document after a write through a handle. */
  function Write(bom: Bom, h: Handle, n: Component): Bom
    requires Valid(bom, h)
  {
    var r := WritePath(RootOf(bom, h.root).value, h.path, n);
    match h.root
    case MetaRoot => bom.(metadata := Some(bom.metadata.value.(component := Some(r))))
    case TopRoot(i) => bom.(components := Some(bom.components.value[i := r]))
  }

  // ----- the pre-order walk, as a specification -----

  /** Handles of c's subtree in depth-first pre-order, c itself first. */
  function PreOrder(c: Component, root: Root, path: seq<nat>): seq<Handle>
    decreases c, 1, 0
  {
    [Handle(root, path)] + ChildrenFrom(c, root, path, 0)
  }

  /** Pre-order handles of the subtrees of c's children k, k+1, ... */
  function ChildrenFrom(c: Component, root: Root, path: seq<nat>, k: nat): seq<Handle>
    decreases c, 0, |Children(c)| - k
  {
    if k >= |Children(c)| then []
    else PreOrder(c.components.items[k], root, path + [k]) + ChildrenFrom(c, root, path, k + 1)
  }

  /** Pre-order handles of the top-level subtrees k, k+1, ... */
  function TopFrom(bom: Bom, k: nat): seq<Handle>
    decreases |Elems(bom.components)| - k
  {
    if k >= |Elems(bom.components)| then []
    else PreOrder(Elems(bom.components)[k], TopRoot(k), []) + TopFrom(bom, k + 1)
  }

  function MetaPart(bom: Bom): seq<Handle> {
    match RootOf(bom, MetaRoot)
    case None => []
    case Some(m) => PreOrder(m, MetaRoot, [])
  }

  /** What DiscoverCDXComponents returns: the metadata subtree, then every
      top-level subtree in array order. */
  function Discover(bom: Bom): seq<Handle> {
    MetaPart(bom) + TopFrom(bom, 0)
  }

  // ----- the code -----

  /** traverseComponent: appends c and then, child by child, each child's
      subtree. */
  method TraverseComponent(comps: seq<Handle>, c: Component, root: Root, path: seq<nat>)
    returns (out: seq<Handle>)
    ensures out == comps + PreOrder(c, root, path)
    decreases c
  {
    out := comps + [Handle(root, path)];
    if c.components.NilList? {
      return;
    }
    var children := c.components.items;
    var i := 0;
    while i < |children|
      invariant 0 <= i <= |children|
      invariant out + ChildrenFrom(c, root, path, i) == comps + PreOrder(c, root, path)
    {
      out := TraverseComponent(out, c.components.items[i], root, path + [i]);
      i := i + 1;
    }
  }

  /** DiscoverCDXComponents */
  method DiscoverCDXComponents(bom: Bom) returns (comps: seq<Handle>)
    ensures comps == Discover(bom)
  {
    comps := [];
    if bom.metadata.Some? && bom.metadata.value.component.Some? {
      comps := TraverseComponent(comps, bom.metadata.value.component.value, MetaRoot, []);
    }
    if bom.components.Some? {
      var tops := bom.components.value;
      var i := 0;
      while i < |tops|
        invariant 0 <= i <= |tops|
        invariant comps + TopFrom(bom, i) == Discover(bom)
      {
        comps := TraverseComponent(comps, tops[i], TopRoot(i), []);
        i := i + 1;
      }
    }
  }

  // ----- size -----

  /** The number of components in c's subtree, c included. */
  function Size(c: Component): nat
    decreases c, 1, 0
  {
    1 + SizeFrom(c, 0)
  }

  function SizeFrom(c: Component, k: nat): nat
    decreases c, 0, |Children(c)| - k
  {
    if k >= |Children(c)| then 0 else Size(c.components.items[k]) + SizeFrom(c, k + 1)
  }

  function TopSizeFrom(bom: Bom, k: nat): nat
    decreases |Elems(bom.components)| - k
  {
    if k >= |Elems(bom.components)| then 0 else Size(Elems(bom.components)[k]) + TopSizeFrom(bom, k + 1)
  }

  /** The number of components in the whole document. */
  function TotalSize(bom: Bom): nat {
    (match RootOf(bom, MetaRoot) case None => 0 case Some(m) => Size(m)) + TopSizeFrom(bom, 0)
  }

  lemma {:induction false} PreOrderLength(c: Component, root: Root, path: seq<nat>)
    ensures |PreOrder(c, root, path)| == Size(c)
    decreases c, 1, 0
  {
    ChildrenFromLength(c, root, path, 0);
  }

  lemma {:induction false} ChildrenFromLength(c: Component, root: Root, path: seq<nat>, k: nat)
    ensures |ChildrenFrom(c, root, path, k)| == SizeFrom(c, k)
    decreases c, 0, |Children(c)| - k
  {
    if k < |Children(c)| {
      PreOrderLength(c.components.items[k], root, path + [k]);
      ChildrenFromLength(c, root, path, k + 1);
    }
  }

  lemma {:induction false} TopFromLength(bom: Bom, k: nat)
    ensures |TopFrom(bom, k)| == TopSizeFrom(bom, k)
    decreases |Elems(bom.components)| - k
  {
    if k < |Elems(bom.components)| {
      PreOrderLength(Elems(bom.components)[k], TopRoot(k), []);
      TopFromLength(bom, k + 1);
    }
  }

  /** One handle per component: the result is as long as the document has
      components (metadata subtree plus every top-level subtree). */
  lemma DiscoverLength(bom: Bom)
    ensures |Discover(bom)| == TotalSize(bom)
  {
    TopFromLength(bom, 0);
    if RootOf(bom, MetaRoot).Some? {
      PreOrderLength(RootOf(bom, MetaRoot).value, MetaRoot, []);
    }
  }

  /** A document with no metadata component and nil components has nothing
      to discover. */
  lemma DiscoverEmpty(bom: Bom)
    requires bom.metadata.None? || bom.metadata.value.component.None?
    requires bom.components.None?
    ensures Discover(bom) == []
  {
  }

  /** The metadata component with one nested child, plus one top-level
      component, gives three handles, in this order. */
  lemma DiscoverExample(leaf: Component, parent: Component, meta: Component)
    requires leaf.components.NilList? && meta.components.NilList?
    requires parent.components == List([leaf])
    ensures Discover(Bom(Some(Metadata(Some(meta))), Some([parent]), None))
      == [Handle(MetaRoot, []), Handle(TopRoot(0), []), Handle(TopRoot(0), [0])]
  {
    var bom := Bom(Some(Metadata(Some(meta))), Some([parent]), None);
    assert ChildrenFrom(meta, MetaRoot, [], 0) == [];
    assert ChildrenFrom(leaf, TopRoot(0), [0], 0) == [];
    assert [] + [0] == [0];
    assert PreOrder(leaf, TopRoot(0), [0]) == [Handle(TopRoot(0), [0])];
    assert ChildrenFrom(parent, TopRoot(0), [], 1) == [];
    assert ChildrenFrom(parent, TopRoot(0), [], 0) == [Handle(TopRoot(0), [0])];
    assert TopFrom(bom, 1) == [];
  }

  // ----- every handle is valid, and every component is found -----

  /** A handle lies in the subtree at path when path is a prefix of its own. */
  predicate Under(h: Handle, root: Root, path: seq<nat>) {
    h.root == root && |path| <= |h.path| && h.path[..|path|] == path
  }

  lemma {:induction false} PreOrderSound(c: Component, root: Root, path: seq<nat>)
    ensures forall h :: h in PreOrder(c, root, path) ==>
      Under(h, root, path) && ValidPath(c, h.path[|path|..])
    decreases c, 1, 0
  {
    ChildrenFromSound(c, root, path, 0);
    forall h | h in PreOrder(c, root, path)
      ensures Under(h, root, path) && ValidPath(c, h.path[|path|..])
    {
      if h != Handle(root, path) {
        assert h in ChildrenFrom(c, root, path, 0);
      } else {
        assert h.path[|path|..] == [];
      }
    }
  }

  lemma {:induction false} ChildrenFromSound(c: Component, root: Root, path: seq<nat>, k: nat)
    ensures forall h :: h in ChildrenFrom(c, root, path, k) ==>
      Under(h, root, path) && |h.path| > |path| && k <= h.path[|path|] && ValidPath(c, h.path[|path|..])
    decreases c, 0, |Children(c)| - k
  {
    if k < |Children(c)| {
      var child := c.components.items[k];
      PreOrderSound(child, root, path + [k]);
      ChildrenFromSound(c, root, path, k + 1);
      forall h | h in PreOrder(child, root, path + [k])
        ensures Under(h, root, path) && |h.path| > |path| && k <= h.path[|path|] && ValidPath(c, h.path[|path|..])
      {
        var rel := h.path[|path|..];
        assert h.path[..|path| + 1] == path + [k];
        assert h.path[..|path|] == (path + [k])[..|path|] == path;
        assert rel[0] == k;
        assert rel[1..] == h.path[|path + [k]|..];
      }
    }
  }

  /** Every discovered handle is valid in the document. */
  lemma DiscoverValid(bom: Bom)
    ensures forall h :: h in Discover(bom) ==> Valid(bom, h)
  {
    if RootOf(bom, MetaRoot).Some? {
      PreOrderSound(RootOf(bom, MetaRoot).value, MetaRoot, []);
      forall h | h in MetaPart(bom) ensures Valid(bom, h) {
        assert h.path[0..] == h.path;
      }
    }
    TopFromValid(bom, 0);
  }

  lemma {:induction false} TopFromValid(bom: Bom, k: nat)
    ensures forall h :: h in TopFrom(bom, k) ==> Valid(bom, h) && h.root.TopRoot? && k <= h.root.index
    decreases |Elems(bom.components)| - k
  {
    if k < |Elems(bom.components)| {
      PreOrderSound(Elems(bom.components)[k], TopRoot(k), []);
      TopFromValid(bom, k + 1);
      forall h | h in PreOrder(Elems(bom.components)[k], TopRoot(k), [])
        ensures Valid(bom, h)
      {
        assert h.path[0..] == h.path;
      }
    }
  }

  lemma {:induction false} PreOrderComplete(c: Component, root: Root, path: seq<nat>, rel: seq<nat>)
    requires ValidPath(c, rel)
    ensures Handle(root, path + rel) in PreOrder(c, root, path)
    decreases |rel|
  {
    if |rel| == 0 {
      assert path + rel == path;
    } else {
      var i := rel[0];
      PreOrderComplete(Children(c)[i], root, path + [i], rel[1..]);
      assert path + [i] + rel[1..] == path + rel;
      ChildrenFromContains(c, root, path, 0, i);
    }
  }

  lemma {:induction false} ChildrenFromContains(c: Component, root: Root, path: seq<nat>, k: nat, i: nat)
    requires k <= i < |Children(c)|
    ensures forall h :: h in PreOrder(Children(c)[i], root, path + [i]) ==> h in ChildrenFrom(c, root, path, k)
    decreases i - k
  {
    if k < i {
      ChildrenFromContains(c, root, path, k + 1, i);
    }
  }

  /** Every component of the document is discovered. */
  lemma DiscoverComplete(bom: Bom, h: Handle)
    requires Valid(bom, h)
    ensures h in Discover(bom)
  {
    assert [] + h.path == h.path;
    match h.root
    case MetaRoot =>
      PreOrderComplete(RootOf(bom, MetaRoot).value, MetaRoot, [], h.path);
    case TopRoot(i) =>
      PreOrderComplete(Elems(bom.components)[i], TopRoot(i), [], h.path);
      TopFromContains(bom, 0, i);
  }

  lemma {:induction false} TopFromContains(bom: Bom, k: nat, i: nat)
    requires k <= i < |Elems(bom.components)|
    ensures forall h :: h in PreOrder(Elems(bom.components)[i], TopRoot(i), []) ==> h in TopFrom(bom, k)
    decreases i - k
  {
    if k < i {
      TopFromContains(bom, k + 1, i);
    }
  }

  // ----- order: depth-first pre-order is the lexicographic order of paths -----

  /** p comes before q in lexicographic order, a prefix before its extensions. */
  predicate PathLess(p: seq<nat>, q: seq<nat>)
    decreases |p|
  {
    |q| > 0 && (|p| == 0 || p[0] < q[0] || (p[0] == q[0] && PathLess(p[1..], q[1..])))
  }

  predicate RootLess(a: Root, b: Root) {
    (a.MetaRoot? && b.TopRoot?) || (a.TopRoot? && b.TopRoot? && a.index < b.index)
  }

  /** The order in which DiscoverCDXComponents emits handles. */
  predicate HandleLess(a: Handle, b: Handle) {
    RootLess(a.root, b.root) || (a.root == b.root && PathLess(a.path, b.path))
  }

  predicate Sorted(s: seq<Handle>) {
    forall i, j :: 0 <= i < j < |s| ==> HandleLess(s[i], s[j])
  }

  lemma {:induction false} PathLessAsym(p: seq<nat>, q: seq<nat>)
    ensures !(PathLess(p, q) && PathLess(q, p))
    decreases |p|
  {
    if |p| > 0 && |q| > 0 && p[0] == q[0] {
      PathLessAsym(p[1..], q[1..]);
    }
  }

  lemma HandleLessAsym(a: Handle, b: Handle)
    ensures !(HandleLess(a, b) && HandleLess(b, a))
  {
    PathLessAsym(a.path, b.path);
  }

  lemma {:induction false} PathLessPrefix(pre: seq<nat>, p: seq<nat>, q: seq<nat>)
    requires PathLess(p, q)
    ensures PathLess(pre + p, pre + q)
    decreases |pre|
  {
    if |pre| > 0 {
      PathLessPrefix(pre[1..], p, q);
      assert (pre + p)[1..] == pre[1..] + p;
      assert (pre + q)[1..] == pre[1..] + q;
    } else {
      assert pre + p == p && pre + q == q;
    }
  }

  lemma {:induction false} PathLessExtension(p: seq<nat>, ext: seq<nat>)
    requires |ext| > 0
    ensures PathLess(p, p + ext)
    decreases |p|
  {
    if |p| > 0 {
      PathLessExtension(p[1..], ext);
      assert (p + ext)[1..] == p[1..] + ext;
    }
  }

  lemma SortedAppend(a: seq<Handle>, b: seq<Handle>)
    requires Sorted(a) && Sorted(b)
    requires forall x, y :: x in a && y in b ==> HandleLess(x, y)
    ensures Sorted(a + b)
  {
    forall i, j | 0 <= i < j < |a + b| ensures HandleLess((a + b)[i], (a + b)[j]) {
      if j < |a| {
      } else if i >= |a| {
        assert (a + b)[i] == b[i - |a|] && (a + b)[j] == b[j - |a|];
      } else {
        assert (a + b)[i] in a && (a + b)[j] in b;
      }
    }
  }

  lemma {:induction false} PreOrderSorted(c: Component, root: Root, path: seq<nat>)
    ensures Sorted(PreOrder(c, root, path))
    decreases c, 1, 0
  {
    ChildrenFromSorted(c, root, path, 0);
    ChildrenFromSound(c, root, path, 0);
    forall y | y in ChildrenFrom(c, root, path, 0) ensures HandleLess(Handle(root, path), y) {
      assert y.path == path + y.path[|path|..];
      PathLessExtension(path, y.path[|path|..]);
    }
    SortedAppend([Handle(root, path)], ChildrenFrom(c, root, path, 0));
  }

  lemma {:induction false} ChildrenFromSorted(c: Component, root: Root, path: seq<nat>, k: nat)
    ensures Sorted(ChildrenFrom(c, root, path, k))
    decreases c, 0, |Children(c)| - k
  {
    if k < |Children(c)| {
      var child := c.components.items[k];
      PreOrderSorted(child, root, path + [k]);
      ChildrenFromSorted(c, root, path, k + 1);
      PreOrderSound(child, root, path + [k]);
      ChildrenFromSound(c, root, path, k + 1);
      forall x, y | x in PreOrder(child, root, path + [k]) && y in ChildrenFrom(c, root, path, k + 1)
        ensures HandleLess(x, y)
      {
        var rx := x.path[|path|..];
        var ry := y.path[|path|..];
        assert x.path[..|path| + 1] == path + [k];
        assert rx[0] == x.path[|path|] == k;
        assert x.path == path + rx && y.path == path + ry;
        PathLessPrefix(path, rx, ry);
      }
      SortedAppend(PreOrder(child, root, path + [k]), ChildrenFrom(c, root, path, k + 1));
    }
  }

  lemma {:induction false} TopFromSorted(bom: Bom, k: nat)
    ensures Sorted(TopFrom(bom, k))
    decreases |Elems(bom.components)| - k
  {
    if k < |Elems(bom.components)| {
      PreOrderSorted(Elems(bom.components)[k], TopRoot(k), []);
      PreOrderSound(Elems(bom.components)[k], TopRoot(k), []);
      TopFromSorted(bom, k + 1);
      TopFromValid(bom, k + 1);
      SortedAppend(PreOrder(Elems(bom.components)[k], TopRoot(k), []), TopFrom(bom, k + 1));
    }
  }

  lemma DiscoverSorted(bom: Bom)
    ensures Sorted(Discover(bom))
  {
    TopFromSorted(bom, 0);
    TopFromValid(bom, 0);
    if RootOf(bom, MetaRoot).Some? {
      PreOrderSorted(RootOf(bom, MetaRoot).value, MetaRoot, []);
      PreOrderSound(RootOf(bom, MetaRoot).value, MetaRoot, []);
    }
    SortedAppend(MetaPart(bom), TopFrom(bom, 0));
  }

  /** Positions in the result follow the pre-order exactly: one handle comes
      before another in the list if and only if it comes first in depth-first
      pre-order. */
  lemma DiscoverOrder(bom: Bom, i: int, j: int)
    requires 0 <= i < |Discover(bom)| && 0 <= j < |Discover(bom)|
    ensures i < j <==> HandleLess(Discover(bom)[i], Discover(bom)[j])
  {
    var d := Discover(bom);
    DiscoverSorted(bom);
    HandleLessAsym(d[i], d[j]);
    if j < i {
      assert HandleLess(d[j], d[i]);
    }
  }

  /** No component is listed twice. */
  lemma DiscoverDistinct(bom: Bom, i: int, j: int)
    requires 0 <= i < j < |Discover(bom)|
    ensures Discover(bom)[i] != Discover(bom)[j]
  {
    DiscoverOrder(bom, i, j);
    HandleLessAsym(Discover(bom)[i], Discover(bom)[j]);
  }

  /** A component is listed before every component nested inside it. */
  lemma AncestorFirst(bom: Bom, i: int, j: int, ext: seq<nat>)
    requires 0 <= i < |Discover(bom)| && 0 <= j < |Discover(bom)|
    requires Discover(bom)[j] == Handle(Discover(bom)[i].root, Discover(bom)[i].path + ext)
    requires |ext| > 0
    ensures i < j
  {
    PathLessExtension(Discover(bom)[i].path, ext);
    DiscoverOrder(bom, i, j);
  }

  /** Siblings are listed in array order, and the whole subtree of a sibling
      is listed before the next sibling and its subtree. */
  lemma SiblingSubtreesInOrder(bom: Bom, i: int, j: int, root: Root, path: seq<nat>,
                               a: nat, b: nat, ra: seq<nat>, rb: seq<nat>)
    requires 0 <= i < |Discover(bom)| && 0 <= j < |Discover(bom)|
    requires Discover(bom)[i] == Handle(root, path + [a] + ra)
    requires Discover(bom)[j] == Handle(root, path + [b] + rb)
    requires a < b
    ensures i < j
  {
    assert path + [a] + ra == path + ([a] + ra);
    assert path + [b] + rb == path + ([b] + rb);
    PathLessPrefix(path, [a] + ra, [b] + rb);
    DiscoverOrder(bom, i, j);
  }

  /** The metadata component and its subtree come before every top-level
      component. */
  lemma MetaBeforeTop(bom: Bom, i: int, j: int)
    requires 0 <= i < |Discover(bom)| && 0 <= j < |Discover(bom)|
    requires Discover(bom)[i].root.MetaRoot? && Discover(bom)[j].root.TopRoot?
    ensures i < j
  {
    DiscoverOrder(bom, i, j);
  }

  // ----- writes through handles -----

  lemma {:induction false} WritePathAt(c: Component, p: seq<nat>, n: Component)
    requires ValidPath(c, p)
    ensures ValidPath(WritePath(c, p, n), p) && AtPath(WritePath(c, p, n), p) == n
    decreases |p|
  {
    if |p| > 0 {
      WritePathAt(Children(c)[p[0]], p[1..], n);
    }
  }

  /** Replacing a subtree by a node with the same children keeps every path
      valid and changes the own fields of that node only. */
  lemma {:induction false} WritePathOther(c: Component, p: seq<nat>, n: Component, q: seq<nat>)
    requires ValidPath(c, p) && n.components == AtPath(c, p).components
    ensures ValidPath(WritePath(c, p, n), q) <==> ValidPath(c, q)
    ensures ValidPath(c, q) ==>
      Own(AtPath(WritePath(c, p, n), q)) == if q == p then Own(n) else Own(AtPath(c, q))
    decreases |p|
  {
    var w := WritePath(c, p, n);
    if |p| == 0 {
      if |q| > 0 {
        assert Children(w) == Children(c);
      }
    } else if |q| > 0 {
      var i := p[0];
      if q[0] == i {
        WritePathOther(Children(c)[i], p[1..], n, q[1..]);
        if q == p {
        } else {
          assert q[1..] != p[1..];
        }
      } else if q[0] < |Children(c)| {
        assert Children(w)[q[0]] == Children(c)[q[0]];
      }
    }
  }

  /** A write through a handle is visible through that handle. */
  lemma WriteAt(bom: Bom, h: Handle, n: Component)
    requires Valid(bom, h)
    ensures Valid(Write(bom, h, n), h) && At(Write(bom, h, n), h) == n
  {
    WritePathAt(RootOf(bom, h.root).value, h.path, n);
  }

  /** A write through a handle that keeps the node's children keeps every
      handle valid, and changes the own fields of no other component. */
  lemma WriteOther(bom: Bom, h: Handle, n: Component, g: Handle)
    requires Valid(bom, h) && n.components == At(bom, h).components
    ensures Valid(Write(bom, h, n), g) <==> Valid(bom, g)
    ensures Valid(bom, g) ==> Own(At(Write(bom, h, n), g)) == if g == h then Own(n) else Own(At(bom, g))
    ensures Write(bom, h, n).vulnerabilities == bom.vulnerabilities
  {
    var w := Write(bom, h, n);
    if g.root == h.root {
      WritePathOther(RootOf(bom, h.root).value, h.path, n, g.path);
      assert RootOf(w, g.root).value == WritePath(RootOf(bom, h.root).value, h.path, n);
    } else {
      assert RootOf(w, g.root) == RootOf(bom, g.root);
    }
  }

  /** A write that keeps the node's children keeps, at every path, whether
      the component there has a nil nested list. */
  lemma {:induction false} WritePathKeepsNil(c: Component, p: seq<nat>, n: Component, q: seq<nat>)
    requires ValidPath(c, p) && n.components == AtPath(c, p).components && ValidPath(c, q)
    ensures ValidPath(WritePath(c, p, n), q)
    ensures AtPath(WritePath(c, p, n), q).components.NilList? == AtPath(c, q).components.NilList?
    decreases |p|
  {
    WritePathOther(c, p, n, q);
    var w := WritePath(c, p, n);
    if |p| == 0 {
      if |q| > 0 {
        assert Children(w) == Children(c);
      }
    } else if |q| > 0 {
      if q[0] == p[0] {
        WritePathKeepsNil(Children(c)[p[0]], p[1..], n, q[1..]);
      } else {
        assert Children(w)[q[0]] == Children(c)[q[0]];
      }
    }
  }

  /** A write through a handle that keeps the node's children keeps, for
      every component, whether its nested list is nil. */
  lemma WriteKeepsNil(bom: Bom, h: Handle, n: Component, g: Handle)
    requires Valid(bom, h) && n.components == At(bom, h).components && Valid(bom, g)
    ensures Valid(Write(bom, h, n), g)
    ensures At(Write(bom, h, n), g).components.NilList? == At(bom, g).components.NilList?
  {
    var w := Write(bom, h, n);
    if g.root == h.root {
      WritePathKeepsNil(RootOf(bom, h.root).value, h.path, n, g.path);
      assert RootOf(w, g.root).value == WritePath(RootOf(bom, h.root).value, h.path, n);
    } else {
      assert RootOf(w, g.root) == RootOf(bom, g.root);
    }
  }

  // ----- visiting every discovered component once -----

  /** After the first i discovered components of bom0 have been rewritten
      with update (which sees and sets the own fields only), the document has
      the same shape (the same handles, and every list nil exactly when it
      was), the first i components carry the update and the rest are as
      they were. */
  ghost predicate Progress(bom0: Bom, bom: Bom, i: nat, update: Component -> Component) {
    var d := Discover(bom0);
    i <= |d|
    && (forall g :: Valid(bom, g) <==> Valid(bom0, g))
    && KeepsNil(bom0, bom)
    && bom.vulnerabilities == bom0.vulnerabilities
    && (forall k :: 0 <= k < i ==> Valid(bom0, d[k]) && Own(At(bom, d[k])) == Own(update(Own(At(bom0, d[k])))))
    && (forall k :: i <= k < |d| ==> Valid(bom0, d[k]) && Own(At(bom, d[k])) == Own(At(bom0, d[k])))
  }

  /** bom has a nil metadata, a nil component list and a nil nested list
      at a handle of bom0 exactly where bom0 has one. */
  ghost predicate KeepsNil(bom0: Bom, bom: Bom) {
    (bom.metadata.None? <==> bom0.metadata.None?)
    && (bom.components.None? <==> bom0.components.None?)
    && (forall g :: Valid(bom0, g) ==>
          Valid(bom, g) && (At(bom, g).components.NilList? <==> At(bom0, g).components.NilList?))
  }

  lemma ProgressStart(bom0: Bom, update: Component -> Component)
    ensures Progress(bom0, bom0, 0, update)
  {
    DiscoverValid(bom0);
  }

  /** Rewriting the next discovered component keeps the progress invariant. */
  lemma ProgressStep(bom0: Bom, bom: Bom, i: nat, update: Component -> Component, n: Component)
    requires Progress(bom0, bom, i, update) && i < |Discover(bom0)|
    requires Valid(bom, Discover(bom0)[i])
    requires n.components == At(bom, Discover(bom0)[i]).components
    requires Own(n) == Own(update(Own(At(bom, Discover(bom0)[i]))))
    ensures Progress(bom0, Write(bom, Discover(bom0)[i], n), i + 1, update)
  {
    var d := Discover(bom0);
    var h := d[i];
    var w := Write(bom, h, n);
    forall g ensures Valid(w, g) <==> Valid(bom0, g) {
      WriteOther(bom, h, n, g);
    }
    forall g | Valid(bom0, g)
      ensures Valid(w, g) && (At(w, g).components.NilList? <==> At(bom0, g).components.NilList?)
    {
      WriteKeepsNil(bom, h, n, g);
    }
    WriteOther(bom, h, n, h);
    forall k | 0 <= k < |d| && k != i
      ensures Own(At(w, d[k])) == Own(At(bom, d[k]))
    {
      if k < i { DiscoverDistinct(bom0, k, i); } else { DiscoverDistinct(bom0, i, k); }
      WriteOther(bom, h, n, d[k]);
    }
  }

  /** Passing over the next discovered component without writing keeps the
      progress invariant when the update leaves it as it is. */
  lemma ProgressSkip(bom0: Bom, bom: Bom, i: nat, update: Component -> Component)
    requires Progress(bom0, bom, i, update) && i < |Discover(bom0)|
    requires Own(update(Own(At(bom0, Discover(bom0)[i])))) == Own(At(bom0, Discover(bom0)[i]))
    ensures Progress(bom0, bom, i + 1, update)
  {
  }

  /** When every discovered component has been visited, every component of
      the document carries the update. */
  lemma ProgressDone(bom0: Bom, bom: Bom, update: Component -> Component, g: Handle)
    requires Progress(bom0, bom, |Discover(bom0)|, update)
    requires Valid(bom0, g)
    ensures Valid(bom, g) && Own(At(bom, g)) == Own(update(Own(At(bom0, g))))
  {
    DiscoverComplete(bom0, g);
    var k :| 0 <= k < |Discover(bom0)| && Discover(bom0)[k] == g;
  }

  /** The progress invariant at the end, for every component at once. */
  lemma ProgressAll(bom0: Bom, bom: Bom, update: Component -> Component)
    requires Progress(bom0, bom, |Discover(bom0)|, update)
    ensures forall g :: Valid(bom0, g) ==> Valid(bom, g) && Own(At(bom, g)) == Own(update(Own(At(bom0, g))))
    ensures KeepsNil(bom0, bom)
  {
    forall g | Valid(bom0, g) ensures Valid(bom, g) && Own(At(bom, g)) == Own(update(Own(At(bom0, g)))) {
      ProgressDone(bom0, bom, update, g);
    }
  }

  /** Setting the vulnerability list leaves the components alone. */
  lemma VulnerabilitiesApart(bom: Bom, v: Option<seq<Vulnerability>>, g: Handle)
    ensures Valid(bom.(vulnerabilities := v), g) <==> Valid(bom, g)
    ensures Valid(bom, g) ==> At(bom.(vulnerabilities := v), g) == At(bom, g)
  {
  }
}
