/** The linked nodes of a document, and the two operations that relink them. */
module MxmlNode {
  import opened CStrings
  import opened XmlText
  import opened Forests

  datatype Value = Element(name: CStr, attrs: seq<Attr>) | TextValue(whitespace: bool, text: CStr)

  class Node {
    var value: Value
    var parent: Node?
    var child: Node?
    var lastChild: Node?
    var prev: Node?
    var next: Node?

    /** mxml_new without a parent. */
    constructor (v: Value)
      ensures value == v && parent == null && child == null && lastChild == null && prev == null && next == null
    {
      value := v;
      parent, child, lastChild, prev, next := null, null, null, null, null;
    }
  }

  // ---- the links of one node, and the forest they spell ----

  datatype NodeLinks = NodeLinks(parent: Node?, child: Node?, lastChild: Node?, prev: Node?, next: Node?)

  /** The links stored in a node. */
  ghost function LinksOf(n: Node): NodeLinks
    reads n`parent, n`child, n`lastChild, n`prev, n`next
  {
    NodeLinks(n.parent, n.child, n.lastChild, n.prev, n.next)
  }

  ghost function Ptr(o: Option<Node>): Node? {
    if o.Some? then o.value else null
  }

  /** The links that a forest gives a node: its parent, the ends of its children, and its neighbours
      among its siblings. A parentless node has no neighbours. */
  ghost function LinksIn(f: Forest<Node>, n: Node): NodeLinks
    requires n in f.kids
  {
    NodeLinks(Ptr(Parent(f, n)), Ptr(First(f.kids[n])), Ptr(Last(f.kids[n])), Ptr(Prev(f, n)), Ptr(Next(f, n)))
  }

  /** The nodes of the forest are linked as it says. */
  ghost predicate Represents(f: Forest<Node>)
    reads f.kids.Keys`parent, f.kids.Keys`child, f.kids.Keys`lastChild, f.kids.Keys`prev, f.kids.Keys`next
  {
    Links(f) && forall n {:trigger LinksOf(n)} | n in f.kids :: LinksOf(n) == LinksIn(f, n)
  }

  // ---- mxmlRemove ----

  /** The links of m, given before as q, after node with links r has been unlinked. */
  ghost function AfterUnlink(node: Node, r: NodeLinks, m: Node, q: NodeLinks): NodeLinks {
    NodeLinks(
      if m == node then null else q.parent,
      if m == r.parent && r.prev == null then r.next else q.child,
      if m == r.parent && r.next == null then r.prev else q.lastChild,
      if m == node then null else if m == r.next then r.prev else q.prev,
      if m == node then null else if m == r.prev then r.next else q.next)
  }

  /** The pointer assignments of mxmlRemove. */
  method Unlink(node: Node, ghost all: set<Node>)
    requires node.parent != null && node.prev != node && node.next != node
    requires node in all && node.parent in all && (node.prev != null ==> node.prev in all)
    requires node.next != null ==> node.next in all
    modifies all
    ensures forall m | m in all :: LinksOf(m) == AfterUnlink(node, old(LinksOf(node)), m, old(LinksOf(m)))
    ensures forall m | m in all :: m.value == old(m.value)
  {
    if node.prev != null {
      node.prev.next := node.next;
    } else {
      node.parent.child := node.next;
    }
    if node.next != null {
      node.next.prev := node.prev;
    } else {
      node.parent.lastChild := node.prev;
    }
    node.parent := null;
    node.prev := null;
    node.next := null;
  }

  /** They leave every node linked as the smaller forest says. */
  lemma UnlinkIsDetach(f: Forest<Node>, node: Node, m: Node)
    requires Links(f) && node in f.up && m in f.kids
    ensures m in Detach(f, node).kids
    ensures LinksIn(Detach(f, node), m) == AfterUnlink(node, LinksIn(f, node), m, LinksIn(f, m))
  {
    DetachEnds(f, node);
    DetachAt(f, node, m);
    NeighboursMirror(f, node, m);
  }

  method Remove(node: Node?, ghost f: Forest<Node>)
    requires Represents(f) && (node != null ==> node in f.kids)
    modifies f.kids.Keys
    ensures node == null ==> Represents(f)
    ensures node != null ==> Represents(Detach(f, node))
    ensures forall n | n in f.kids :: n.value == old(n.value)
  {
    if node == null {
      return;
    }
    assert LinksOf(node) == LinksIn(f, node);
    if node.parent == null {
      return;
    }
    NeighboursIn(f, node);
    DetachLinks(f, node);
    Unlink(node, f.kids.Keys);
    forall m | m in f.kids ensures LinksOf(m) == LinksIn(Detach(f, node), m) {
      UnlinkIsDetach(f, node, m);
    }
  }

  // ---- mxmlAdd ----

  /** MXML_ADD_BEFORE and MXML_ADD_AFTER. */
  datatype Where = AddBefore | AddAfter

  /** The links of m, given before as q, after an unlinked node has been put under parent between a and b. */
  ghost function AfterLink(node: Node, parent: Node, a: Node?, b: Node?, m: Node, q: NodeLinks): NodeLinks {
    NodeLinks(
      if m == node then parent else q.parent,
      if m == parent && a == null then node else q.child,
      if m == parent && b == null then node else q.lastChild,
      if m == node then a else if m == b then node else q.prev,
      if m == node then b else if m == a then node else q.next)
  }

  /** Links node as the first child. */
  method LinkFirst(parent: Node, node: Node, ghost all: set<Node>)
    requires parent in all && node in all && (parent.child != null ==> parent.child in all)
    requires node.prev == null && parent.child != node
    modifies all
    ensures forall m | m in all ::
      LinksOf(m) == AfterLink(node, parent, null, old(parent.child), m, old(LinksOf(m)))
    ensures forall m | m in all :: m.value == old(m.value)
  {
    node.parent := parent;
    node.next := parent.child;
    if parent.child != null {
      parent.child.prev := node;
    } else {
      parent.lastChild := node;
    }
    parent.child := node;
  }

  /** Links node in front of child; with child itself as node, links it to itself. */
  method LinkBefore(parent: Node, child: Node, node: Node, ghost all: set<Node>)
    requires parent in all && node in all && child in all
    requires child.prev != null ==> child.prev in all && child.prev != node
    requires node.prev == null
    modifies all
    ensures child != node ==> forall m | m in all ::
      LinksOf(m) == AfterLink(node, parent, old(child.prev), child, m, old(LinksOf(m)))
    ensures child == node ==> node.prev == node && node.next == node
    ensures forall m | m in all :: m.value == old(m.value)
  {
    node.parent := parent;
    node.next := child;
    node.prev := child.prev;
    if child.prev != null {
      child.prev.next := node;
    } else {
      parent.child := node;
    }
    child.prev := node;
  }

  /** Links node as the last child. */
  method LinkLast(parent: Node, node: Node, ghost all: set<Node>)
    requires parent in all && node in all && (parent.lastChild != null ==> parent.lastChild in all)
    requires node.next == null && parent.lastChild != node
    modifies all
    ensures forall m | m in all ::
      LinksOf(m) == AfterLink(node, parent, old(parent.lastChild), null, m, old(LinksOf(m)))
    ensures forall m | m in all :: m.value == old(m.value)
  {
    node.parent := parent;
    node.prev := parent.lastChild;
    if parent.lastChild != null {
      parent.lastChild.next := node;
    } else {
      parent.child := node;
    }
    parent.lastChild := node;
  }

  /** Links node behind child; with child itself as node, links it to itself. */
  method LinkAfter(parent: Node, child: Node, node: Node, ghost all: set<Node>)
    requires parent in all && node in all && child in all
    requires child.next != null ==> child.next in all && child.next != node
    requires node.next == null
    modifies all
    ensures child != node ==> forall m | m in all ::
      LinksOf(m) == AfterLink(node, parent, child, old(child.next), m, old(LinksOf(m)))
    ensures child == node ==> node.prev == node && node.next == node
    ensures forall m | m in all :: m.value == old(m.value)
  {
    node.parent := parent;
    node.prev := child;
    node.next := child.next;
    if child.next != null {
      child.next.prev := node;
    } else {
      parent.lastChild := node;
    }
    child.next := node;
  }

  /** Where among the parent's children the new node goes: next to the reference child when that is one
      of them, otherwise at the beginning or at the end. */
  function AddIndex(s: seq<Node>, where_: Where, child: Node?): (i: nat)
    ensures i <= |s|
  {
    if child != null && child in s then IndexOf(s, child) + (if where_.AddBefore? then 0 else 1)
    else if where_.AddBefore? then 0 else |s|
  }

  /** The forest after mxmlAdd. */
  ghost function Added(f: Forest<Node>, parent: Node, where_: Where, child: Node?, node: Node): Forest<Node>
    requires Links(f) && parent in f.kids
  {
    var g := Detach(f, node);
    DetachLinks(f, node);
    Attach(g, parent, AddIndex(g.kids[parent], where_, child), node)
  }

  lemma LinkIsAttach(f: Forest<Node>, p: Node, i: nat, n: Node, m: Node)
    requires Links(f) && p in f.kids && i <= |f.kids[p]| && n in f.kids && n !in f.up && m in f.kids
    ensures m in Attach(f, p, i, n).kids
    ensures var s := f.kids[p];
      LinksIn(Attach(f, p, i, n), m) ==
      AfterLink(n, p, if i > 0 then s[i - 1] else null, if i < |s| then s[i] else null, m, LinksIn(f, m))
  {
    AttachAt(f, p, i, n, m);
    AttachEnds(f, p, i, n);
  }

  /** The neighbours at the insertion point, as mxmlAdd finds them from the links. */
  lemma AddNeighbours(f: Forest<Node>, p: Node, where_: Where, child: Node)
    requires Links(f) && p in f.kids && child in f.kids && child in f.kids[p]
    ensures var s, i := f.kids[p], AddIndex(f.kids[p], where_, child);
      && (where_.AddBefore? ==> i < |s| && s[i] == child && Ptr(Prev(f, child)) == if i > 0 then s[i - 1] else null)
      && (where_.AddAfter? ==> i > 0 && s[i - 1] == child && Ptr(Next(f, child)) == if i < |s| then s[i] else null)
  {
  }

  /** With neighbours a and b linked around node, the nodes represent the larger forest. */
  lemma LinkedRepresents(g: Forest<Node>, parent: Node, i: nat, node: Node, a: Node?, b: Node?)
    requires Links(g) && parent in g.kids && i <= |g.kids[parent]| && node in g.kids && node !in g.up
    requires a == (if i > 0 then g.kids[parent][i - 1] else null)
    requires b == (if i < |g.kids[parent]| then g.kids[parent][i] else null)
    requires forall m | m in g.kids :: LinksOf(m) == AfterLink(node, parent, a, b, m, LinksIn(g, m))
    ensures Represents(Attach(g, parent, i, node))
  {
    AttachLinks(g, parent, i, node);
    forall m | m in g.kids ensures LinksOf(m) == LinksIn(Attach(g, parent, i, node), m) {
      LinkIsAttach(g, parent, i, node, m);
    }
  }

  method PlaceFirst(parent: Node, node: Node, ghost g: Forest<Node>)
    requires Represents(g) && parent in g.kids && node in g.kids && node !in g.up
    modifies g.kids.Keys
    ensures Represents(Attach(g, parent, 0, node))
    ensures forall n | n in g.kids :: n.value == old(n.value)
  {
    assert LinksOf(node) == LinksIn(g, node) && LinksOf(parent) == LinksIn(g, parent);
    ghost var b := parent.child;
    assert forall m | m in g.kids :: LinksOf(m) == LinksIn(g, m);
    LinkFirst(parent, node, g.kids.Keys);
    LinkedRepresents(g, parent, 0, node, null, b);
  }

  method PlaceLast(parent: Node, node: Node, ghost g: Forest<Node>)
    requires Represents(g) && parent in g.kids && node in g.kids && node !in g.up
    modifies g.kids.Keys
    ensures Represents(Attach(g, parent, |g.kids[parent]|, node))
    ensures forall n | n in g.kids :: n.value == old(n.value)
  {
    assert LinksOf(node) == LinksIn(g, node) && LinksOf(parent) == LinksIn(g, parent);
    ghost var a := parent.lastChild;
    LinkLast(parent, node, g.kids.Keys);
    LinkedRepresents(g, parent, |g.kids[parent]|, node, a, null);
  }

  method PlaceBefore(parent: Node, child: Node, node: Node, ghost g: Forest<Node>)
    requires Represents(g) && parent in g.kids && node in g.kids && node !in g.up
    requires child in g.kids[parent] || child == node
    modifies g.kids.Keys
    ensures child != node ==> Represents(Attach(g, parent, AddIndex(g.kids[parent], AddBefore, child), node))
    ensures child == node ==> node.prev == node && node.next == node
    ensures forall n | n in g.kids :: n.value == old(n.value)
  {
    assert LinksOf(node) == LinksIn(g, node);
    ghost var i := AddIndex(g.kids[parent], AddBefore, child);
    if child != node {
      assert LinksOf(child) == LinksIn(g, child);
      AddNeighbours(g, parent, AddBefore, child);
      NeighboursIn(g, child);
    }
    ghost var a := child.prev;
    LinkBefore(parent, child, node, g.kids.Keys);
    if child != node {
      LinkedRepresents(g, parent, i, node, a, child);
    }
  }

  method PlaceAfter(parent: Node, child: Node, node: Node, ghost g: Forest<Node>)
    requires Represents(g) && parent in g.kids && node in g.kids && node !in g.up
    requires child in g.kids[parent] || child == node
    modifies g.kids.Keys
    ensures child != node ==> Represents(Attach(g, parent, AddIndex(g.kids[parent], AddAfter, child), node))
    ensures child == node ==> node.prev == node && node.next == node
    ensures forall n | n in g.kids :: n.value == old(n.value)
  {
    assert LinksOf(node) == LinksIn(g, node);
    ghost var i := AddIndex(g.kids[parent], AddAfter, child);
    if child != node {
      assert LinksOf(child) == LinksIn(g, child);
      AddNeighbours(g, parent, AddAfter, child);
      NeighboursIn(g, child);
    }
    ghost var b := child.next;
    LinkAfter(parent, child, node, g.kids.Keys);
    if child != node {
      LinkedRepresents(g, parent, i, node, child, b);
    }
  }

  /** The tests of mxmlAdd choose the branch that the position asks for. */
  lemma BranchIndex(g: Forest<Node>, parent: Node, child: Node?)
    requires Represents(g) && parent in g.kids && (child != null ==> child in g.kids)
    ensures child != null && child in g.kids[parent] <==> child != null && child.parent == parent
    ensures child == parent.child ==> AddIndex(g.kids[parent], AddBefore, child) == 0
    ensures child == parent.lastChild ==> AddIndex(g.kids[parent], AddAfter, child) == |g.kids[parent]|
  {
    assert LinksOf(parent) == LinksIn(g, parent);
    if child != null {
      assert LinksOf(child) == LinksIn(g, child);
      if child in g.kids[parent] {
        IndexOfUnique(g.kids[parent], |g.kids[parent]| - 1);
      }
    }
  }

  /** mxmlAdd. */
  method Add(parent: Node?, where_: Where, child: Node?, node: Node?, ghost f: Forest<Node>)
    requires Represents(f) && (parent != null ==> parent in f.kids) && (node != null ==> node in f.kids)
    requires child != null ==> child in f.kids
    modifies f.kids.Keys
    ensures parent == null || node == null ==> Represents(f)
    ensures parent != null && node != null && child != node ==> Represents(Added(f, parent, where_, child, node))
    ensures parent != null && node != null && child == node ==> node.prev == node && node.next == node
    ensures forall n | n in f.kids :: n.value == old(n.value)
  {
    if parent == null || node == null {
      return;
    }
    assert LinksOf(node) == LinksIn(f, node);
    if node.parent != null {
      Remove(node, f);
    }
    ghost var g := Detach(f, node);
    DetachLinks(f, node);
    BranchIndex(g, parent, child);
    match where_ {
      case AddBefore =>
        if child != node && (child == null || child == parent.child || child.parent != parent) {
          PlaceFirst(parent, node, g);
        } else {
          PlaceBefore(parent, child, node, g);
        }
      case AddAfter =>
        if child != node && (child == null || child == parent.lastChild || child.parent != parent) {
          PlaceLast(parent, node, g);
        } else {
          PlaceAfter(parent, child, node, g);
        }
    }
  }

  /** A new node as the last child of parent. */
  ghost function Appended(f: Forest<Node>, parent: Node, node: Node): Forest<Node>
    requires parent in f.kids
  {
    Attach(Grow(f, node), parent, |Grow(f, node).kids[parent]|, node)
  }

  lemma GrowAt(f: Forest<Node>, node: Node, m: Node)
    requires Links(f) && node !in f.kids && (m in f.kids || m == node)
    ensures LinksIn(Grow(f, node), m) == if m == node then NodeLinks(null, null, null, null, null) else LinksIn(f, m)
  {
    assert node !in f.up;
  }

  lemma GrowRepresents(f: Forest<Node>, node: Node)
    requires Represents(f) && node !in f.kids
    requires LinksOf(node) == NodeLinks(null, null, null, null, null)
    ensures Represents(Grow(f, node)) && node !in Grow(f, node).up
  {
    var g := Grow(f, node);
    assert Links(g);
    forall m | m in g.kids ensures LinksOf(m) == LinksIn(g, m) {
      GrowAt(f, node, m);
      if m != node {
        assert LinksOf(m) == LinksIn(f, m);
      }
    }
  }

  /** mxml_new: a fresh node, added as the last child when there is a parent. */
  method NewNode(parent: Node?, v: Value, ghost f: Forest<Node>) returns (node: Node)
    requires Represents(f) && (parent != null ==> parent in f.kids)
    modifies f.kids.Keys
    ensures fresh(node) && node !in f.kids && node.value == v
    ensures Represents(if parent == null then Grow(f, node) else Appended(f, parent, node))
    ensures forall n | n in f.kids :: n.value == old(n.value)
  {
    node := new Node(v);
    ghost var g := Grow(f, node);
    GrowRepresents(f, node);
    if parent != null {
      Add(parent, AddAfter, null, node, g);
    }
  }

  // ---- when the result is again a forest ----

  /** Adding a node anywhere outside its own subtree creates no cycle. */
  lemma AddedRanked(f: Forest<Node>, r: map<Node, nat>, parent: Node, where_: Where, child: Node?, node: Node)
      returns (q: map<Node, nat>)
    requires Links(f) && Ranked(f, r) && parent in f.kids && node in f.kids && !Under(f, parent, node)
    ensures Ranked(Added(f, parent, where_, child, node), q)
  {
    var g := Detach(f, node);
    DetachLinks(f, node);
    DetachRanked(f, r, node);
    DetachUnder(f, node, parent);
    q := AttachRanked(g, r, parent, AddIndex(g.kids[parent], where_, child), node);
  }

  /** Adding a node under itself or under one of its descendants always creates one. */
  lemma AddedCycle(f: Forest<Node>, parent: Node, where_: Where, child: Node?, node: Node, q: map<Node, nat>)
    requires Links(f) && parent in f.kids && node in f.kids && Under(f, parent, node)
    ensures !Ranked(Added(f, parent, where_, child, node), q)
  {
    var g := Detach(f, node);
    DetachLinks(f, node);
    DetachUnder(f, node, parent);
    AttachCycle(g, parent, AddIndex(g.kids[parent], where_, child), node, q);
  }

  /** A node that is its own neighbour, as mxmlAdd leaves it when the reference child is the node itself,
      is part of no forest. */
  lemma SelfNeighbour(node: Node, f: Forest<Node>)
    requires node in f.kids && node.next == node
    ensures !Represents(f)
  {
    if Represents(f) {
      assert LinksOf(node) == LinksIn(f, node);
      if node in f.up {
        NeighboursIn(f, node);
      }
    }
  }
}
