/** Walking the linked nodes in document order, and searching them. */
module MxmlSearch {
  import opened CStrings
  import opened Attributes
  import opened Forests
  import opened Preorder
  import opened MxmlNode

  /** The nodes represent the cycle-free forest f. */
  ghost predicate Document(f: Forest<Node>, r: map<Node, nat>)
    reads f.kids.Keys
  {
    Represents(f) && Ranked(f, r)
  }

  /** node lies d levels below top; a null top stands for "up to the root". */
  ghost predicate Within(f: Forest<Node>, node: Node, top: Node?, d: nat) {
    && node in f.kids && Ancestor(f, node, d).Some?
    && if top == null then Ancestor(f, node, d).value !in f.up else Ancestor(f, node, d).value == top
  }

  /** next is the first node of s, and the nodes after it are those of s after its first. */
  ghost predicate Heads(f: Forest<Node>, r: map<Node, nat>, next: Node?, top: Node?, e: nat, s: seq<Node>)
    requires Ordered(f, r)
  {
    if next == null then s == [] else Within(f, next, top, e) && s == [next] + Rest(f, r, next, e)
  }

  lemma TopIsZero(f: Forest<Node>, r: map<Node, nat>, node: Node, top: Node, d: nat)
    requires Ordered(f, r) && Within(f, node, top, d)
    ensures node == top <==> d == 0
  {
    if d > 0 {
      AncestorRank(f, r, node, d);
    }
  }

  lemma NextWithin(f: Forest<Node>, r: map<Node, nat>, node: Node, top: Node?, d: nat)
    requires Ordered(f, r) && Within(f, node, top, d) && d > 0 && Next(f, node).Some?
    ensures Heads(f, r, Next(f, node).value, top, d, After(f, r, node, d))
  {
    AfterNext(f, r, node, d);
  }

  lemma ParentWithin(f: Forest<Node>, r: map<Node, nat>, node: Node, top: Node?, d: nat)
    requires Ordered(f, r) && Within(f, node, top, d) && d > 0 && Next(f, node).None?
    ensures Within(f, f.up[node], top, d - 1)
    ensures After(f, r, node, d) == After(f, r, f.up[node], d - 1)
  {
    AfterLast(f, r, node, d);
  }

  lemma ParentBelow(f: Forest<Node>, r: map<Node, nat>, node: Node, top: Node?, d: nat)
    requires Ordered(f, r) && Within(f, node, top, d) && Next(f, node).None? && (top != null ==> d > 0)
    requires Parent(f, node).Some? && Parent(f, node).value != top
    ensures d > 0 && Within(f, f.up[node], top, d - 1) && (top != null ==> d > 1)
    ensures After(f, r, node, d) == After(f, r, f.up[node], d - 1)
  {
    ParentWithin(f, r, node, top, d);
    if top != null {
      TopIsZero(f, r, f.up[node], top, d - 1);
    }
  }

  method Up(cur: Node, top: Node?, ghost f: Forest<Node>, ghost r: map<Node, nat>, ghost e: nat)
      returns (p: Node, ghost e': nat)
    requires Document(f, r) && Within(f, cur, top, e) && LinksOf(cur) == LinksIn(f, cur) && (top != null ==> e > 0)
    requires cur.next == null && cur.parent != null && cur.parent != top
    ensures e == e' + 1 && Within(f, p, top, e') && p != top && LinksOf(p) == LinksIn(f, p) && (top != null ==> e' > 0)
    ensures After(f, r, cur, e) == After(f, r, p, e')
  {
    ParentBelow(f, r, cur, top, e);
    p, e' := cur.parent, e - 1;
    assert LinksOf(p) == LinksIn(f, p);
  }

  lemma LastBelow(f: Forest<Node>, r: map<Node, nat>, node: Node, top: Node?, d: nat)
    requires Ordered(f, r) && Within(f, node, top, d) && Next(f, node).None?
    requires Parent(f, node).None? || Parent(f, node).value == top
    ensures After(f, r, node, d) == []
  {
    if d > 0 {
      ParentWithin(f, r, node, top, d);
      TopIsZero(f, r, f.up[node], top, d - 1);
    }
  }

  /** The part of mxmlWalkNext that leaves the subtree of node: its next sibling, or that of the nearest
      ancestor below top that has one. */
  method Climb(node: Node, top: Node?, ghost f: Forest<Node>, ghost r: map<Node, nat>, ghost d: nat)
      returns (next: Node?, ghost e: nat)
    requires Document(f, r) && Within(f, node, top, d) && node != top
    ensures Heads(f, r, next, top, e, After(f, r, node, d))
  {
    var cur: Node := node;
    e := d;
    assert LinksOf(cur) == LinksIn(f, cur);
    if top != null {
      TopIsZero(f, r, cur, top, e);
    }
    while cur.next == null
      invariant Within(f, cur, top, e) && cur != top && LinksOf(cur) == LinksIn(f, cur)
      invariant After(f, r, node, d) == After(f, r, cur, e)
      invariant top != null ==> e > 0
      decreases e
    {
      if cur.parent == top || cur.parent == null {
        LastBelow(f, r, cur, top, e);
        return null, 0;
      }
      cur, e := Up(cur, top, f, r, e);
    }
    NextWithin(f, r, cur, top, e);
    return cur.next, e;
  }

  /** mxmlWalkNext: the next node in document order below top; without descend, the next one outside
      the node's own subtree. */
  method WalkNext(node: Node?, top: Node?, descend: bool, ghost f: Forest<Node>, ghost r: map<Node, nat>, ghost d: nat)
      returns (next: Node?, ghost e: nat)
    requires Document(f, r) && (node != null ==> Within(f, node, top, d))
    ensures node == null ==> next == null
    ensures node != null && descend ==> Heads(f, r, next, top, e, Rest(f, r, node, d))
    ensures node != null && !descend ==> Heads(f, r, next, top, e, After(f, r, node, d))
  {
    e := d;
    if node == null {
      return null, 0;
    }
    assert LinksOf(node) == LinksIn(f, node);
    if node.child != null && descend {
      RestChild(f, r, node, d);
      return node.child, d + 1;
    }
    if node.child == null {
      RestLeaf(f, r, node, d);
    }
    if top != null {
      TopIsZero(f, r, node, top, d);
    }
    if node == top {
      return null, 0;
    }
    next, e := Climb(node, top, f, r, d);
  }

  /** The step back that stays outside the subtree before: the preceding sibling, or the parent below top. */
  ghost function Outside(f: Forest<Node>, node: Node, top: Node?): Node?
    requires Links(f) && node in f.kids
  {
    if node == top then null
    else if Prev(f, node).Some? then Prev(f, node).value
    else if Ptr(Parent(f, node)) != top then Ptr(Parent(f, node)) else null
  }

  lemma LastOfLeaf(f: Forest<Node>, r: map<Node, nat>, node: Node)
    requires Ordered(f, r) && node in f.kids
    ensures Last(f.kids[node]).None? ==> Pre(f, r, node) == [node]
  {
  }

  /** The last element, or null when that is top or there is none. */
  ghost function BeforeOf(front: seq<Node>, top: Node?): Node? {
    if front == [] || front[|front| - 1] == top then null else front[|front| - 1]
  }

  /** Nothing at or below a node that lies strictly below top is top. */
  lemma NotTop(f: Forest<Node>, r: map<Node, nat>, node: Node, top: Node?, d: nat)
    requires Ordered(f, r) && node in f.kids && Ancestor(f, node, d).Some? && d > 0
    requires top != null ==> Ancestor(f, node, d).value == top
    ensures forall m | m in Pre(f, r, node) :: m != top
  {
    if top != null && top in Pre(f, r, node) {
      PreMembers(f, r, node, top);
      var k: nat :| Ancestor(f, top, k) == Some(node);
      AncestorRank(f, r, node, d);
      AncestorRank(f, r, top, k);
    }
  }

  lemma BeforeSibling(f: Forest<Node>, r: map<Node, nat>, node: Node, top: Node?, d: nat)
    requires Ordered(f, r) && Within(f, node, top, d) && Prev(f, node).Some?
    requires node != top
    ensures Prev(f, node).value in f.kids && Pre(f, r, Prev(f, node).value) != []
    ensures var s := Pre(f, r, Prev(f, node).value); BeforeOf(Front(f, r, node, d), top) == s[|s| - 1]
  {
    assert d > 0;
    FrontPrev(f, r, node, d);
    var s := Prev(f, node).value;
    PreNonEmpty(f, r, s);
    NotTop(f, r, s, top, d);
    assert Pre(f, r, s)[|Pre(f, r, s)| - 1] in Pre(f, r, s);
  }

  lemma BeforeFirst(f: Forest<Node>, r: map<Node, nat>, node: Node, top: Node?, d: nat)
    requires Ordered(f, r) && Within(f, node, top, d) && Prev(f, node).None? && node != top
    ensures BeforeOf(Front(f, r, node, d), top) == if Ptr(Parent(f, node)) != top then Ptr(Parent(f, node)) else null
  {
    if d > 0 {
      FrontFirst(f, r, node, d);
    }
  }

  /** Down the last children to the last node of a subtree. */
  method Deepest(node: Node, ghost f: Forest<Node>, ghost r: map<Node, nat>) returns (last: Node)
    requires Document(f, r) && node in f.kids
    ensures last == Pre(f, r, node)[|Pre(f, r, node)| - 1]
  {
    last := node;
    assert LinksOf(last) == LinksIn(f, last);
    while last.lastChild != null
      invariant last in f.kids && LinksOf(last) == LinksIn(f, last)
      invariant Last(Pre(f, r, last)) == Last(Pre(f, r, node))
      decreases r[last]
    {
      PreLast(f, r, last);
      last := last.lastChild;
      assert LinksOf(last) == LinksIn(f, last);
    }
    PreNonEmpty(f, r, node);
    assert Pre(f, r, last) == [last];
  }

  /** mxmlWalkPrev: the node before in document order, unless that is top. */
  method WalkPrev(node: Node?, top: Node?, descend: bool, ghost f: Forest<Node>, ghost r: map<Node, nat>, ghost d: nat)
      returns (prev: Node?)
    requires Document(f, r) && (node != null ==> Within(f, node, top, d))
    ensures node == null ==> prev == null
    ensures node != null && descend ==> prev == BeforeOf(Front(f, r, node, d), top)
    ensures node != null && !descend ==> prev == Outside(f, node, top)
  {
    if node == null {
      return null;
    }
    assert LinksOf(node) == LinksIn(f, node);
    if top != null {
      TopIsZero(f, r, node, top, d);
    }
    if node == top {
      return null;
    }
    if node.prev != null {
      BeforeSibling(f, r, node, top, d);
      if node.prev.lastChild != null && descend {
        prev := Deepest(node.prev, f, r);
      } else {
        prev := node.prev;
        assert LinksOf(prev) == LinksIn(f, prev);
        LastOfLeaf(f, r, prev);
      }
    } else {
      BeforeFirst(f, r, node, top, d);
      prev := if node.parent != top then node.parent else null;
    }
  }

  /** A node has one parentless ancestor. */
  lemma {:induction false} RootUnique(f: Forest<Node>, r: map<Node, nat>, n: Node, k: nat, e: nat)
    requires Ordered(f, r) && n in f.kids && Ancestor(f, n, k).Some? && Ancestor(f, n, e).Some?
    requires Ancestor(f, n, k).value !in f.up && Ancestor(f, n, e).value !in f.up
    ensures Ancestor(f, n, k) == Ancestor(f, n, e)
    decreases k
  {
    if n in f.up && k > 0 && e > 0 {
      RootUnique(f, r, f.up[n], k - 1, e - 1);
    }
  }

  /** Nodes that follow each other share their root. */
  lemma SameRoot(f: Forest<Node>, r: map<Node, nat>, node: Node, next: Node, d: nat, e: nat)
    requires Ordered(f, r) && Within(f, node, null, d) && Within(f, next, null, e)
    requires Rest(f, r, node, d) != [] && Rest(f, r, node, d)[0] == next
    ensures Ancestor(f, next, e) == Ancestor(f, node, d)
  {
    var a := Ancestor(f, node, d).value;
    FrontRest(f, r, node, d);
    assert next in Pre(f, r, a) by {
      assert Pre(f, r, a)[|Front(f, r, node, d)| + 1] == next;
    }
    PreMembers(f, r, a, next);
    var k: nat :| Ancestor(f, next, k) == Some(a);
    RootUnique(f, r, next, k, e);
  }

  /** mxmlWalkPrev undoes mxmlWalkNext on every step that does not start at top. */
  lemma PrevInvertsNext(f: Forest<Node>, r: map<Node, nat>, node: Node, next: Node, top: Node?, d: nat, e: nat)
    requires Ordered(f, r) && Within(f, node, top, d) && node != top
    requires Heads(f, r, next, top, e, Rest(f, r, node, d))
    ensures BeforeOf(Front(f, r, next, e), top) == node
  {
    if top == null {
      SameRoot(f, r, node, next, d, e);
    }
    FrontOfNext(f, r, node, d, next, e);
  }

  // ---- mxmlFindElement ----

  /** What to look for: element name, attribute name, attribute value; None stands for a null pointer. */
  datatype Query = Query(name: Option<CStr>, attr: Option<CStr>, value: Option<CStr>)

  datatype Descend = NoDescend | DescendFirst | DescendAll

  /** The values of the nodes, as one map. */
  ghost predicate Labelled(f: Forest<Node>, vals: map<Node, Value>)
    reads f.kids.Keys
  {
    vals.Keys == f.kids.Keys && forall n | n in f.kids :: n.value == vals[n]
  }

  predicate Matches(v: Value, q: Query) {
    && v.Element?
    && (q.name.Some? ==> v.name == q.name.value)
    && (q.attr.Some? ==> GetAttr(v.attrs, q.attr.value).Some?)
    && (q.attr.Some? && q.value.Some? ==> GetAttr(v.attrs, q.attr.value) == q.value)
  }

  /** Told from the list of attributes, in which no name occurs twice. */
  lemma MatchesIs(v: Value, q: Query)
    requires v.Element? ==> DistinctNames(v.attrs)
    ensures Matches(v, q) <==>
      && v.Element? && (q.name.Some? ==> v.name == q.name.value)
      && (q.attr.Some? ==> exists i | 0 <= i < |v.attrs| ::
            v.attrs[i].name == q.attr.value && v.attrs[i].value.Some?
            && (q.value.Some? ==> v.attrs[i].value == q.value))
  {
    if v.Element? && q.attr.Some? {
      if i :| 0 <= i < |v.attrs| && v.attrs[i].name == q.attr.value {
        AttrAt(v.attrs, i, None);
        assert forall j | 0 <= j < |v.attrs| && v.attrs[j].name == q.attr.value :: j == i;
      } else {
        GetAttrMissing(v.attrs, q.attr.value);
      }
    }
  }

  /** The matching nodes of a sequence, in its order. */
  ghost function Filter(vals: map<Node, Value>, q: Query, s: seq<Node>): (r: seq<Node>)
    requires forall n | n in s :: n in vals
    ensures forall n | n in r :: n in s && Matches(vals[n], q)
    ensures forall n | n in s && Matches(vals[n], q) :: n in r
    ensures NoDup(s) ==> NoDup(r)
  {
    if s == [] then []
    else
      assert forall n | n in s[1..] :: n in s;
      assert forall n | n in s :: n == s[0] || n in s[1..];
      (if Matches(vals[s[0]], q) then [s[0]] else []) + Filter(vals, q, s[1..])
  }

  /** A node and its following siblings. */
  ghost function SiblingsFrom(f: Forest<Node>, n: Node): seq<Node>
    requires Links(f) && n in f.kids
  {
    if n in f.up then f.kids[f.up[n]][IndexOf(f.kids[f.up[n]], n)..] else [n]
  }

  lemma RestIn(f: Forest<Node>, r: map<Node, nat>, n: Node, d: nat)
    requires Ordered(f, r) && n in f.kids && Ancestor(f, n, d).Some?
    ensures forall m | m in Rest(f, r, n, d) :: m in f.kids
  {
    FrontRest(f, r, n, d);
    var a := Ancestor(f, n, d).value;
    forall m | m in Rest(f, r, n, d) ensures m in f.kids {
      assert m in Front(f, r, n, d) + [n] + Rest(f, r, n, d);
      PreMembers(f, r, a, m);
      UnderIn(f, m, a);
    }
  }

  /** mxmlElementGetAttr and the tests around it. */
  method Test(node: Node, q: Query) returns (b: bool)
    requires q.attr.None? ==> q.value.None?
    ensures b == Matches(node.value, q)
  {
    if node.value.Element? && (q.name.None? || node.value.name == q.name.value) {
      if q.attr.None? {
        return true;
      }
      var temp := FindAttr(node.value.attrs, q.attr.value);
      if temp.Some? && (q.value.None? || q.value == temp) {
        return true;
      }
    }
    return false;
  }

  /** mxmlFindElement through the whole tree: the next match in document order. */
  method FindDescending(node: Node, top: Node, q: Query, ghost f: Forest<Node>, ghost r: map<Node, nat>,
                        ghost vals: map<Node, Value>, ghost d: nat) returns (found: Node?, ghost e: nat)
    requires Document(f, r) && Labelled(f, vals) && Within(f, node, top, d)
    requires q.attr.None? ==> q.value.None?
    ensures forall m | m in Rest(f, r, node, d) :: m in vals
    ensures found == null ==> Filter(vals, q, Rest(f, r, node, d)) == []
    ensures found != null ==> Within(f, found, top, e) && forall m | m in Rest(f, r, found, e) :: m in vals
    ensures found != null ==>
      Filter(vals, q, Rest(f, r, node, d)) == [found] + Filter(vals, q, Rest(f, r, found, e))
  {
    RestIn(f, r, node, d);
    found, e := WalkNext(node, top, true, f, r, d);
    ghost var s := Rest(f, r, node, d);
    while found != null
      invariant forall m | m in s :: m in vals
      invariant Heads(f, r, found, top, e, s)
      invariant Filter(vals, q, s) == Filter(vals, q, Rest(f, r, node, d))
      decreases |s|
    {
      RestIn(f, r, found, e);
      assert s[0] == found && s[1..] == Rest(f, r, found, e);
      var b := Test(found, q);
      if b {
        return;
      }
      s := Rest(f, r, found, e);
      found, e := WalkNext(found, top, true, f, r, e);
    }
  }

  lemma NextSibling(f: Forest<Node>, n: Node)
    requires Links(f) && n in f.kids
    ensures SiblingsFrom(f, n) != [] && SiblingsFrom(f, n)[0] == n
    ensures Next(f, n).None? ==> SiblingsFrom(f, n)[1..] == []
    ensures Next(f, n).Some? ==>
      Next(f, n).value in f.kids && SiblingsFrom(f, n)[1..] == SiblingsFrom(f, Next(f, n).value)
  {
    if n in f.up {
      var s := f.kids[f.up[n]];
      var i := IndexOf(s, n);
      if i + 1 < |s| {
        assert s[i + 1] in s;
        IndexOfUnique(s, i + 1);
      }
    }
  }

  /** One step along the next links. */
  method Aside(node: Node, ghost f: Forest<Node>) returns (next: Node?)
    requires Represents(f) && node in f.kids
    ensures SiblingsFrom(f, node) != [] && SiblingsFrom(f, node)[0] == node
    ensures next != null ==> next in f.kids
    ensures SiblingsFrom(f, node)[1..] == if next == null then [] else SiblingsFrom(f, next)
  {
    assert LinksOf(node) == LinksIn(f, node);
    NextSibling(f, node);
    next := node.next;
  }

  lemma FilterFirst(vals: map<Node, Value>, q: Query, s: seq<Node>)
    requires s != [] && forall n | n in s :: n in vals
    ensures forall n | n in s[1..] :: n in vals
    ensures Filter(vals, q, s) == (if Matches(vals[s[0]], q) then [s[0]] else []) + Filter(vals, q, s[1..])
  {
  }

  /** The loop along the next links. */
  method FirstAmong(first: Node, q: Query, ghost f: Forest<Node>, ghost vals: map<Node, Value>) returns (found: Node?)
    requires Represents(f) && Labelled(f, vals) && first in f.kids
    requires forall m | m in SiblingsFrom(f, first) :: m in vals
    requires q.attr.None? ==> q.value.None?
    ensures found == Ptr(First(Filter(vals, q, SiblingsFrom(f, first))))
  {
    ghost var s := SiblingsFrom(f, first);
    found := first;
    while found != null
      invariant found == null ==> s == []
      invariant found != null ==> found in f.kids && s == SiblingsFrom(f, found)
      invariant forall m | m in s :: m in vals
      invariant Filter(vals, q, SiblingsFrom(f, first)) == Filter(vals, q, s)
      decreases |s|, found != null
    {
      var b := Test(found, q);
      var next := Aside(found, f);
      FilterFirst(vals, q, s);
      if b {
        return;
      }
      found, s := next, s[1..];
    }
  }

  lemma SiblingsIn(f: Forest<Node>, n: Node)
    requires Links(f) && n in f.kids
    ensures forall m | m in SiblingsFrom(f, n) :: m in f.kids
  {
    if n in f.up {
      forall m | m in SiblingsFrom(f, n) ensures m in f.kids {
        assert m in f.kids[f.up[n]];
      }
    }
  }

  /** mxmlFindElement among siblings: from the first node of the walk along its next links. */
  method FindSibling(node: Node, top: Node, q: Query, descend: bool, ghost f: Forest<Node>, ghost r: map<Node, nat>,
                     ghost vals: map<Node, Value>, ghost d: nat)
      returns (found: Node?, ghost first: Node?, ghost e: nat)
    requires Document(f, r) && Labelled(f, vals) && Within(f, node, top, d)
    requires q.attr.None? ==> q.value.None?
    ensures Heads(f, r, first, top, e, if descend then Rest(f, r, node, d) else After(f, r, node, d))
    ensures first == null ==> found == null
    ensures first != null ==> forall m | m in SiblingsFrom(f, first) :: m in vals
    ensures first != null ==> found == Ptr(First(Filter(vals, q, SiblingsFrom(f, first))))
  {
    found, e := WalkNext(node, top, descend, f, r, d);
    first := found;
    if found == null {
      return;
    }
    SiblingsIn(f, found);
    found := FirstAmong(found, q, f, vals);
  }

  /** mxmlFindElement. */
  method FindElement(node: Node?, top: Node?, q: Query, descend: Descend, ghost f: Forest<Node>,
                     ghost r: map<Node, nat>, ghost vals: map<Node, Value>, ghost d: nat)
      returns (found: Node?, ghost first: Node?, ghost e: nat)
    requires Document(f, r) && Labelled(f, vals) && (node != null && top != null ==> Within(f, node, top, d))
    ensures node == null || top == null || (q.attr.None? && q.value.Some?) ==> found == null
    ensures found != null ==> found in vals && Matches(vals[found], q)
    ensures node != null && top != null && (q.attr.None? ==> q.value.None?) && descend.DescendAll? ==>
      && (forall m | m in Rest(f, r, node, d) :: m in vals)
      && if found == null then Filter(vals, q, Rest(f, r, node, d)) == []
         else && Within(f, found, top, e) && (forall m | m in Rest(f, r, found, e) :: m in vals)
              && Filter(vals, q, Rest(f, r, node, d)) == [found] + Filter(vals, q, Rest(f, r, found, e))
    ensures node != null && top != null && (q.attr.None? ==> q.value.None?) && !descend.DescendAll? ==>
      && Heads(f, r, first, top, e, if descend.DescendFirst? then Rest(f, r, node, d) else After(f, r, node, d))
      && if first == null then found == null
         else && (forall m | m in SiblingsFrom(f, first) :: m in vals)
              && found == Ptr(First(Filter(vals, q, SiblingsFrom(f, first))))
  {
    first := null;
    if node == null || top == null || (q.attr.None? && q.value.Some?) {
      return null, null, 0;
    }
    if descend.DescendAll? {
      found, e := FindDescending(node, top, q, f, r, vals, d);
      if found != null {
        assert found in Filter(vals, q, Rest(f, r, node, d));
      }
    } else {
      found, first, e := FindSibling(node, top, q, descend.DescendFirst?, f, r, vals, d);
      if found != null {
        assert found in Filter(vals, q, SiblingsFrom(f, first));
      }
    }
  }
}
