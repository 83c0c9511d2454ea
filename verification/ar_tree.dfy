/**
 * The reader's SHORT-NAME index (`arTree`, `arParseTree`, `arGetPath`): the XML
 * document is flattened into a tree of index nodes keyed by SHORT-NAME, and
 * AUTOSAR reference paths such as "/ECU/Gateway" are resolved by walking it.
 */
module ArTree {
  import opened Wrappers
  import opened Text
  import opened SeqLemmas

  /**
   * An XML element, reduced to what the index reads: the text of its SHORT-NAME
   * child if it has one, an identity standing for the element object, and its
   * child elements in document order.
   */
  datatype Element = Element(shortName: Option<string>, id: nat, children: seq<Element>)

  /** The value of an index node: its name, the element it stands for, and its children in order. */
  datatype Index = Index(name: string, ref: Option<nat>, children: seq<Index>)

  /**
   * The index nodes one child element adds under the current node: a child with a
   * SHORT-NAME becomes one node holding the index of its own children; a child
   * without one adds the nodes of its children in its place.
   */
  function Contribution(c: Element): seq<Index>
    decreases c, |c.children| + 1
  {
    match c.shortName
    case Some(n) => [Index(n, Some(c.id), Attached(c, |c.children|))]
    case None => Attached(c, |c.children|)
  }

  /** The index nodes that parsing the first `k` children of `e` adds under the current node, in order. */
  function Attached(e: Element, k: nat): seq<Index>
    requires k <= |e.children|
    decreases e, k
  {
    if k == 0 then [] else Attached(e, k - 1) + Contribution(e.children[k - 1])
  }

  /** All index nodes `e`'s children contribute. */
  function AttachedAll(e: Element): seq<Index>
  {
    Attached(e, |e.children|)
  }

  /** An index node of the reader (`arTree`): a name, the element it stands for, and a list of children. */
  class ArTree {
    var name: string
    var ref: Option<nat>
    var children: seq<ArTree>
    ghost var Repr: set<object>
    ghost var Tree: Index

    /** The nodes below form a tree, with disjoint footprints, whose value is `Tree`. */
    ghost predicate Valid()
      reads this, Repr
      decreases Repr
    {
      && this in Repr
      && Tree.name == name && Tree.ref == ref && |Tree.children| == |children|
      && (forall i :: 0 <= i < |children| ==>
            && children[i] in Repr && children[i].Repr <= Repr && this !in children[i].Repr
            && children[i].Tree == Tree.children[i] && children[i].Valid())
      && (forall i, j :: 0 <= i < j < |children| ==> children[i].Repr !! children[j].Repr)
    }

    /** `arTree(name, ref)`: a node without children. */
    constructor (name: string, ref: Option<nat>)
      ensures Valid() && fresh(Repr) && Repr == {this}
      ensures Tree == Index(name, ref, [])
    {
      this.name := name;
      this.ref := ref;
      this.children := [];
      Repr := {this};
      Tree := Index(name, ref, []);
    }

    /**
     * `new`: appends exactly one fresh child for element `child`, keeps the
     * existing children in their order, and returns the new child.
     */
    method New(name: string, child: nat) returns (t: ArTree)
      requires Valid()
      modifies this
      ensures Valid() && fresh(t) && t.Valid()
      ensures t.Tree == Index(name, Some(child), []) && t.Repr == {t}
      ensures children == old(children) + [t]
      ensures Tree == Index(old(Tree.name), old(Tree.ref), old(Tree.children) + [t.Tree])
      ensures Repr == old(Repr) + {t}
    {
      t := new ArTree(name, Some(child));
      children := children + [t];
      Repr := Repr + {t};
      Tree := Index(Tree.name, Tree.ref, Tree.children + [t.Tree]);
    }

    /** `getChild`: the first child whose name is `path`, or null when no child has that name. */
    method GetChild(path: string) returns (r: ArTree?)
      requires Valid()
      ensures r == null <==> FindChild(Tree.children, path).None?
      ensures r != null ==> var k := FindChild(Tree.children, path).value;
        && r == children[k] && r.Valid() && r.Tree == Tree.children[k]
    {
      var i := 0;
      while i < |children|
        invariant 0 <= i <= |children|
        invariant forall j :: 0 <= j < i ==> Tree.children[j].name != path
      {
        if children[i].name == path {
          FindChildIsFirst(Tree.children, path, i);
          return children[i];
        }
        i := i + 1;
      }
      return null;
    }
  }

  /** The position of the first index node named `name`, if any. */
  function FindChild(cs: seq<Index>, name: string): (r: Option<nat>)
    ensures r.None? <==> forall j :: 0 <= j < |cs| ==> cs[j].name != name
    ensures r.Some? ==>
      && r.value < |cs| && cs[r.value].name == name
      && forall j :: 0 <= j < r.value ==> cs[j].name != name
  {
    if cs == [] then None
    else if cs[0].name == name then Some(0)
    else match FindChild(cs[1..], name)
      case None => None
      case Some(k) => Some(k + 1)
  }

  /** A match with no match before it is the one FindChild returns. */
  lemma FindChildIsFirst(cs: seq<Index>, name: string, i: nat)
    requires i < |cs| && cs[i].name == name
    requires forall j :: 0 <= j < i ==> cs[j].name != name
    ensures FindChild(cs, name) == Some(i)
  {
  }

  /**
   * `arParseTree`: every child of `tag` with a SHORT-NAME becomes a new index node
   * under `node`, filled from that child's own children; every child without one
   * is looked through, its children being attached to `node` itself.
   */
  method ParseTree(tag: Element, node: ArTree)
    requires node.Valid()
    modifies node.Repr
    ensures node.Valid() && fresh(node.Repr - old(node.Repr))
    ensures node.Tree == Index(old(node.Tree.name), old(node.Tree.ref), old(node.Tree.children) + AttachedAll(tag))
    decreases tag, 0
  {
    var i := 0;
    while i < |tag.children|
      invariant 0 <= i <= |tag.children|
      invariant node.Valid() && fresh(node.Repr - old(node.Repr))
      invariant node.Tree == Index(old(node.Tree.name), old(node.Tree.ref), old(node.Tree.children) + Attached(tag, i))
    {
      ParseChild(tag.children[i], node);
      AppendAssoc(old(node.Tree.children), Attached(tag, i), Contribution(tag.children[i]));
      i := i + 1;
    }
  }

  /** One pass of `arParseTree`'s loop: the index nodes for `child` are appended under `node`. */
  method ParseChild(child: Element, node: ArTree)
    requires node.Valid()
    modifies node.Repr
    ensures node.Valid() && fresh(node.Repr - old(node.Repr))
    ensures node.Tree == Index(old(node.Tree.name), old(node.Tree.ref), old(node.Tree.children) + Contribution(child))
    decreases child, 1
  {
    match child.shortName {
      case Some(n) =>
        ghost var orig := node.Tree.children;
        var sub := node.New(n, child.id);
        assert node.Tree.children[..|orig|] == orig;
        ParseTree(child, sub);
        assert [] + AttachedAll(child) == AttachedAll(child);
        AdoptGrownChild(node, sub);
      case None =>
        ParseTree(child, node);
    }
  }

  /**
   * After the last child of `node` has grown a subtree, extend `node`'s footprint
   * and value with it (bookkeeping only: the reader's own structure needs none).
   */
  ghost method AdoptGrownChild(node: ArTree, sub: ArTree)
    requires |node.children| >= 1 && node.children[|node.children| - 1] == sub
    requires sub.Valid() && node !in sub.Repr
    requires node in node.Repr && sub in node.Repr
    requires node.Tree.name == node.name && node.Tree.ref == node.ref && |node.Tree.children| == |node.children|
    requires forall i :: 0 <= i < |node.children| - 1 ==>
      && node.children[i] in node.Repr && node.children[i].Repr <= node.Repr && node !in node.children[i].Repr
      && node.children[i].Tree == node.Tree.children[i] && node.children[i].Valid()
      && node.children[i].Repr !! sub.Repr
    requires forall i, j :: 0 <= i < j < |node.children| - 1 ==> node.children[i].Repr !! node.children[j].Repr
    modifies node`Repr, node`Tree
    ensures node.Valid()
    ensures node.Repr == old(node.Repr) + sub.Repr
    ensures node.Tree == Index(old(node.Tree.name), old(node.Tree.ref), old(node.Tree.children)[..|node.children| - 1] + [sub.Tree])
  {
    node.Repr := node.Repr + sub.Repr;
    node.Tree := Index(node.Tree.name, node.Tree.ref, node.Tree.children[..|node.children| - 1] + [sub.Tree]);
  }

  /** `arTree()` filled by `arParseTree(top, ...)`: the index of a whole document. */
  method BuildIndex(top: Element) returns (root: ArTree)
    ensures root.Valid() && fresh(root.Repr)
    ensures root.Tree == Index("", None, AttachedAll(top))
  {
    root := new ArTree("", None);
    ParseTree(top, root);
  }

  /**
   * The node a sequence of path segments leads to: a segment that is empty or
   * only whitespace is skipped; any other segment, taken as written, selects the
   * first child of that name, and there is no node when no child has it.
   */
  function Lookup(t: Index, segs: seq<string>): Option<Index>
  {
    if segs == [] then Some(t)
    else if IsBlank(segs[0]) then Lookup(t, segs[1..])
    else match FindChild(t.children, segs[0])
      case None => None
      case Some(k) => Lookup(t.children[k], segs[1..])
  }

  /** What `arGetPath` answers for `path`: the element of the node the '/'-separated path leads to. */
  function PathRef(t: Index, path: string): Option<nat>
  {
    match Lookup(t, Split(path, '/'))
    case None => None
    case Some(u) => u.ref
  }

  /** `arGetPath`: resolves `path` segment by segment from `root`. */
  method GetPath(root: ArTree, path: string) returns (r: Option<nat>)
    requires root.Valid()
    ensures r == PathRef(root.Tree, path)
  {
    var parts := Split(path, '/');
    var ptr: ArTree? := root;
    var i := 0;
    while i < |parts|
      invariant 0 <= i <= |parts|
      invariant ptr != null ==> ptr.Valid() && Lookup(root.Tree, parts) == Lookup(ptr.Tree, parts[i..])
      invariant ptr == null ==> Lookup(root.Tree, parts) == None
    {
      var p := parts[i];
      assert parts[i..][1..] == parts[i + 1..];
      if !IsBlank(p) {
        if ptr != null {
          ptr := ptr.GetChild(p);
        } else {
          return None;
        }
      }
      i := i + 1;
    }
    if ptr != null {
      return ptr.ref;
    } else {
      return None;
    }
  }

  /** The segments of `segs` that are not blank, in order. */
  function NonBlank(segs: seq<string>): (r: seq<string>)
    ensures forall i :: 0 <= i < |r| ==> !IsBlank(r[i])
  {
    if segs == [] then []
    else if IsBlank(segs[0]) then NonBlank(segs[1..])
    else [segs[0]] + NonBlank(segs[1..])
  }

  /** Blank segments, wherever they stand (doubled, leading or trailing '/'), change nothing. */
  lemma {:induction false} BlankSegmentsIgnored(t: Index, segs: seq<string>)
    ensures Lookup(t, segs) == Lookup(t, NonBlank(segs))
    decreases |segs|
  {
    if segs == [] {
    } else if IsBlank(segs[0]) {
      BlankSegmentsIgnored(t, segs[1..]);
    } else {
      var rest := NonBlank(segs[1..]);
      assert ([segs[0]] + rest)[1..] == rest;
      match FindChild(t.children, segs[0])
      case None =>
      case Some(k) => BlankSegmentsIgnored(t.children[k], segs[1..]);
    }
  }

  /** Resolving `a + b` resolves `a` first, then `b` from where `a` led. */
  lemma {:induction false} LookupAppend(t: Index, a: seq<string>, b: seq<string>)
    ensures Lookup(t, a + b) == match Lookup(t, a) case None => None case Some(u) => Lookup(u, b)
    decreases |a|
  {
    if a == [] {
      assert a + b == b;
    } else {
      assert (a + b)[1..] == a[1..] + b;
      if IsBlank(a[0]) {
        LookupAppend(t, a[1..], b);
      } else {
        match FindChild(t.children, a[0])
        case None =>
        case Some(k) => LookupAppend(t.children[k], a[1..], b);
      }
    }
  }

  /** A path made by joining names with '/' is resolved by walking those names in turn. */
  lemma JoinedPathRef(t: Index, names: seq<string>)
    requires |names| >= 1
    requires forall i :: 0 <= i < |names| ==> '/' !in names[i]
    ensures PathRef(t, Join(names, '/')) == match Lookup(t, names) case None => None case Some(u) => u.ref
  {
    SplitJoin(names, '/');
  }

  /** A leading '/' does not change what a path resolves to. */
  lemma LeadingSlashIgnored(t: Index, path: string)
    ensures PathRef(t, "/" + path) == PathRef(t, path)
  {
    SplitAppend("", path, '/');
    assert "" + ['/'] + path == "/" + path;
    var parts := Split(path, '/');
    assert ([""] + parts)[1..] == parts;
    assert IsBlank("");
  }

  /** Doubling a '/' after the first segment does not change what a path resolves to. */
  lemma DoubledSlashIgnored(t: Index, first: string, rest: string)
    requires '/' !in first
    ensures PathRef(t, first + "//" + rest) == PathRef(t, first + "/" + rest)
  {
    SplitAppend(first, "/" + rest, '/');
    SplitAppend("", rest, '/');
    SplitAppend(first, rest, '/');
    assert first + ['/'] + ("/" + rest) == first + "//" + rest;
    assert first + ['/'] + rest == first + "/" + rest;
    assert "" + ['/'] + rest == "/" + rest;
    var parts := Split(rest, '/');
    var doubled := [first] + ([""] + parts);
    var single := [first] + parts;
    assert doubled[1..] == [""] + parts && ([""] + parts)[1..] == parts && single[1..] == parts;
    assert IsBlank("");
    BlankSegmentsIgnored(t, doubled);
    BlankSegmentsIgnored(t, single);
  }

  /** A path with no non-blank segment (such as "" or "/") names the root itself. */
  lemma BlankPathIsRoot(t: Index, path: string)
    requires forall i :: 0 <= i < |Split(path, '/')| ==> IsBlank(Split(path, '/')[i])
    ensures PathRef(t, path) == t.ref
  {
    var parts := Split(path, '/');
    BlankSegmentsIgnored(t, parts);
    NoNonBlank(parts);
  }

  lemma {:induction false} NoNonBlank(segs: seq<string>)
    requires forall i :: 0 <= i < |segs| ==> IsBlank(segs[i])
    ensures NonBlank(segs) == []
    decreases |segs|
  {
    if segs != [] {
      assert IsBlank(segs[0]);
      NoNonBlank(segs[1..]);
    }
  }

  /** The elements of the index nodes made from the first `k` child subtrees of `x`, in pre-order. */
  function SubRefs(x: Index, k: nat): seq<nat>
    requires k <= |x.children|
    decreases x, k
  {
    if k == 0 then []
    else
      var c := x.children[k - 1];
      SubRefs(x, k - 1) + (match c.ref case None => [] case Some(d) => [d]) + SubRefs(c, |c.children|)
  }

  /** The elements of all index nodes of a list of subtrees, in pre-order. */
  function ForestRefs(cs: seq<Index>): seq<nat>
  {
    SubRefs(Index("", None, cs), |cs|)
  }

  /** The identities of the elements below the first `k` children of `e` that have a SHORT-NAME, in document order. */
  function NamedIds(e: Element, k: nat): seq<nat>
    requires k <= |e.children|
    decreases e, k
  {
    if k == 0 then []
    else
      var c := e.children[k - 1];
      NamedIds(e, k - 1) + (match c.shortName case None => [] case Some(_) => [c.id]) + NamedIds(c, |c.children|)
  }

  lemma {:induction false} SubRefsOfPrefix(x: Index, y: Index, k: nat)
    requires k <= |x.children| && k <= |y.children| && x.children[..k] == y.children[..k]
    ensures SubRefs(x, k) == SubRefs(y, k)
    decreases k
  {
    if k > 0 {
      assert x.children[k - 1] == x.children[..k][k - 1] == y.children[k - 1];
      assert x.children[..k - 1] == x.children[..k][..k - 1];
      assert y.children[..k - 1] == y.children[..k][..k - 1];
      SubRefsOfPrefix(x, y, k - 1);
    }
  }

  lemma {:induction false} ForestRefsAppend(a: seq<Index>, b: seq<Index>)
    ensures ForestRefs(a + b) == ForestRefs(a) + ForestRefs(b)
    decreases |b|
  {
    if b == [] {
      assert a + b == a;
    } else {
      var b' := b[..|b| - 1];
      var c := b[|b| - 1];
      ForestRefsAppend(a, b');
      var x := Index("", None, a + b);
      var y := Index("", None, b);
      assert (a + b)[..|a + b| - 1] == a + b';
      SubRefsOfPrefix(x, Index("", None, a + b'), |a + b'|);
      SubRefsOfPrefix(y, Index("", None, b'), |b'|);
      assert x.children[|a + b| - 1] == c;
    }
  }

  lemma ForestRefsSingle(x: Index)
    ensures ForestRefs([x]) == (match x.ref case None => [] case Some(d) => [d]) + SubRefs(x, |x.children|)
  {
    assert SubRefs(Index("", None, [x]), 0) == [];
  }

  /**
   * The index holds exactly one node per element that has a SHORT-NAME, each
   * referring to its element, in document order: nothing is lost, duplicated or
   * reordered when unnamed elements are looked through.
   */
  lemma {:induction false} AttachedRefs(e: Element, k: nat)
    requires k <= |e.children|
    ensures ForestRefs(Attached(e, k)) == NamedIds(e, k)
    decreases e, k
  {
    if k > 0 {
      var c := e.children[k - 1];
      AttachedRefs(e, k - 1);
      AttachedRefs(c, |c.children|);
      var below := Attached(c, |c.children|);
      match c.shortName
      case Some(n) =>
        var x := Index(n, Some(c.id), below);
        ForestRefsAppend(Attached(e, k - 1), [x]);
        ForestRefsSingle(x);
        SubRefsOfPrefix(x, Index("", None, below), |below|);
      case None =>
        ForestRefsAppend(Attached(e, k - 1), below);
    }
  }
}
