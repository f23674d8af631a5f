/** Attribute indexes: built by a scan of the document, sorted in place, searched by bisection. */
module MxmlIndex {
  import opened CStrings
  import opened Attributes
  import opened Forests
  import opened Preorder
  import opened MxmlNode
  import opened MxmlSearch
  import opened IndexSort
  import opened IndexSearch

  class Index {
    var attr: Option<CStr>
    var numNodes: nat
    var curNode: nat
    var nodes: array<Node>

    constructor (a: Option<CStr>)
      ensures attr == a && numNodes == 0 && curNode == 0 && fresh(nodes) && nodes.Length == 0
    {
      attr, numNodes, curNode := a, 0, 0;
      nodes := new Node[0];
    }

    ghost predicate Valid()
      reads this
    {
      numNodes <= nodes.Length && curNode <= numNodes
    }

    /** The nodes of the index in its order. */
    ghost function Contents(): seq<Node>
      reads this, nodes
      requires Valid()
    {
      nodes[..numNodes]
    }

    /** Store one more node, growing the array by 64 entries when it is full. */
    method Append(node: Node)
      requires Valid()
      modifies this, nodes
      ensures Valid() && Contents() == old(Contents()) + [node]
      ensures attr == old(attr) && curNode == old(curNode)
      ensures nodes == old(nodes) || fresh(nodes)
    {
      if numNodes >= nodes.Length {
        var temp := new Node[nodes.Length + 64](_ => node);
        forall i | 0 <= i < nodes.Length {
          temp[i] := nodes[i];
        }
        assert temp[..numNodes] == nodes[..numNodes];
        nodes := temp;
      }
      nodes[numNodes] := node;
      numNodes := numNodes + 1;
      assert nodes[..numNodes] == nodes[..numNodes - 1] + [node];
    }

    /** mxmlIndexReset. */
    method Reset() returns (first: Node?)
      requires Valid()
      modifies this`curNode
      ensures Valid() && curNode == 0 && Contents() == old(Contents())
      ensures first == if Contents() == [] then null else Contents()[0]
    {
      curNode := 0;
      return if numNodes > 0 then nodes[0] else null;
    }

    /** mxmlIndexEnum. */
    method Enum() returns (next: Node?)
      requires Valid()
      modifies this`curNode
      ensures Valid() && Contents() == old(Contents())
      ensures if old(curNode) < numNodes then next == Contents()[old(curNode)] && curNode == old(curNode) + 1
              else next == null && curNode == old(curNode)
    {
      if curNode < numNodes {
        next := nodes[curNode];
        curNode := curNode + 1;
      } else {
        next := null;
      }
    }
  }

  // ---- mxmlIndexNew ----

  /** The nodes that go into an index of the subtree of top: top itself when neither an element nor an
      attribute is named, and the matching nodes below it. */
  ghost function Collected(f: Forest<Node>, r: map<Node, nat>, vals: map<Node, Value>, top: Node,
                           element: Option<CStr>, attr: Option<CStr>): seq<Node>
    requires Ordered(f, r) && top in f.kids && forall n | n in PreFrom(f, r, top, 0) :: n in vals
  {
    (if element.None? && attr.None? then [top] else [])
    + Filter(vals, Query(element, attr, None), PreFrom(f, r, top, 0))
  }

  /** The sort keys of the nodes that may go into the index. */
  ghost function Keys(vals: map<Node, Value>, attr: Option<CStr>): map<Node, Key> {
    map n | n in vals && Indexable(vals[n], attr) :: KeyOf(vals[n], attr)
  }

  lemma WithinSelf(f: Forest<Node>, r: map<Node, nat>, node: Node)
    requires Ordered(f, r) && node in f.kids
    ensures Within(f, node, node, 0) && Rest(f, r, node, 0) == PreFrom(f, r, node, 0)
    ensures forall m | m in PreFrom(f, r, node, 0) :: m in f.kids
  {
    assert PreFrom(f, r, node, 0) + [] == PreFrom(f, r, node, 0);
    RestIn(f, r, node, 0);
  }

  /** Appending to the index leaves the document alone. */
  method Take(ind: Index, node: Node, ghost f: Forest<Node>, ghost r: map<Node, nat>, ghost vals: map<Node, Value>)
    requires ind.Valid() && Document(f, r) && Labelled(f, vals)
    modifies ind, ind.nodes
    ensures ind.Valid() && ind.Contents() == old(ind.Contents()) + [node]
    ensures ind.attr == old(ind.attr) && ind.curNode == old(ind.curNode)
    ensures ind.nodes == old(ind.nodes) || fresh(ind.nodes)
    ensures Document(f, r) && Labelled(f, vals)
  {
    ind.Append(node);
  }

  /** What is still to come when current is the next node to append. */
  ghost function Pending(f: Forest<Node>, r: map<Node, nat>, vals: map<Node, Value>, q: Query, current: Node?,
                         d: nat): seq<Node>
    requires Ordered(f, r)
    requires current != null ==> current in f.kids && Ancestor(f, current, d).Some?
    requires current != null ==> forall m | m in Rest(f, r, current, d) :: m in vals
  {
    if current == null then [] else [current] + Filter(vals, q, Rest(f, r, current, d))
  }

  /** current is a node of the scan below top, or the scan is over. */
  ghost predicate Scanning(f: Forest<Node>, r: map<Node, nat>, vals: map<Node, Value>, top: Node, current: Node?,
                           d: nat) {
    && Ordered(f, r)
    && (current != null ==> Within(f, current, top, d) && forall m | m in Rest(f, r, current, d) :: m in vals)
  }

  /** The next node of the scan. */
  method Advance(current: Node, top: Node, q: Query, ghost f: Forest<Node>, ghost r: map<Node, nat>,
                 ghost vals: map<Node, Value>, ghost d: nat) returns (next: Node?, ghost e: nat)
    requires Document(f, r) && Labelled(f, vals) && Within(f, current, top, d) && (q.attr.None? ==> q.value.None?)
    ensures Scanning(f, r, vals, top, current, d) && Scanning(f, r, vals, top, next, e)
    ensures Pending(f, r, vals, q, next, e) == Filter(vals, q, Rest(f, r, current, d))
  {
    ghost var first;
    next, first, e := FindElement(current, top, q, DescendAll, f, r, vals, d);
  }

  lemma AppendPending(was: seq<Node>, current: Node, rest: seq<Node>)
    ensures was + ([current] + rest) == was + [current] + rest
  {
  }

  method CollectFrom(ind: Index, node: Node, q: Query, start: Node?, ghost f: Forest<Node>, ghost r: map<Node, nat>,
                     ghost vals: map<Node, Value>, ghost d0: nat)
    requires ind.Valid() && ind.Contents() == [] && ind.curNode == 0 && (q.attr.None? ==> q.value.None?)
    requires Document(f, r) && Labelled(f, vals) && Scanning(f, r, vals, node, start, d0)
    modifies ind, ind.nodes
    ensures ind.Valid() && ind.curNode == 0 && ind.attr == old(ind.attr)
    ensures ind.nodes == old(ind.nodes) || fresh(ind.nodes)
    ensures ind.Contents() == Pending(f, r, vals, q, start, d0)
    ensures Document(f, r) && Labelled(f, vals)
  {
    var current := start;
    ghost var d := d0;
    while current != null
      invariant ind.Valid() && ind.curNode == 0 && ind.attr == old(ind.attr)
      invariant ind.nodes == old(ind.nodes) || fresh(ind.nodes)
      invariant Document(f, r) && Labelled(f, vals)
      invariant Scanning(f, r, vals, node, current, d)
      invariant Pending(f, r, vals, q, start, d0) == ind.Contents() + Pending(f, r, vals, q, current, d)
      decreases |Pending(f, r, vals, q, current, d)|
    {
      ghost var was, rest := ind.Contents(), Filter(vals, q, Rest(f, r, current, d));
      Take(ind, current, f, r, vals);
      AppendPending(was, current, rest);
      current, d := Advance(current, node, q, f, r, vals, d);
    }
  }

  /** The scan: append top if asked to, then every match in document order. */
  method Collect(ind: Index, node: Node, element: Option<CStr>, ghost f: Forest<Node>, ghost r: map<Node, nat>,
                 ghost vals: map<Node, Value>)
    requires ind.Valid() && ind.Contents() == [] && ind.curNode == 0
    requires Document(f, r) && Labelled(f, vals) && node in f.kids
    modifies ind, ind.nodes
    ensures forall n | n in PreFrom(f, r, node, 0) :: n in vals
    ensures ind.Valid() && ind.curNode == 0 && ind.attr == old(ind.attr)
    ensures ind.nodes == old(ind.nodes) || fresh(ind.nodes)
    ensures ind.Contents() == Collected(f, r, vals, node, element, ind.attr)
    ensures Document(f, r) && Labelled(f, vals)
  {
    WithinSelf(f, r, node);
    var q := Query(element, ind.attr, None);
    ghost var all := Filter(vals, q, PreFrom(f, r, node, 0));
    assert Rest(f, r, node, 0) == PreFrom(f, r, node, 0);
    ghost var d;
    var current: Node?;
    if element.None? && ind.attr.None? {
      current, d := node, 0;
      assert Pending(f, r, vals, q, current, d) == [node] + all;
    } else {
      current, d := Advance(node, node, q, f, r, vals, 0);
      assert Pending(f, r, vals, q, current, d) == [] + all;
    }
    assert Collected(f, r, vals, node, element, ind.attr)
        == (if element.None? && ind.attr.None? then [node] else []) + all;
    CollectFrom(ind, node, q, current, f, r, vals, d);
  }

  /** Everything that was collected has a key. */
  lemma CollectedKeyed(f: Forest<Node>, r: map<Node, nat>, vals: map<Node, Value>, top: Node, element: Option<CStr>,
                       attr: Option<CStr>)
    requires Ordered(f, r) && top in f.kids && top in vals && forall n | n in PreFrom(f, r, top, 0) :: n in vals
    requires element.None? && attr.None? ==> vals[top].Element?
    ensures forall n | n in Collected(f, r, vals, top, element, attr) :: n in Keys(vals, attr)
  {
  }

  lemma NoDupTail(top: Node, s: seq<Node>)
    requires NoDup([top] + s)
    ensures NoDup(s) && top !in s
  {
    var t := [top] + s;
    assert forall i | 0 <= i < |s| :: s[i] == t[i + 1] && t[0] == top;
  }

  lemma CollectedNoDup(f: Forest<Node>, r: map<Node, nat>, vals: map<Node, Value>, top: Node, element: Option<CStr>,
                       attr: Option<CStr>)
    requires Ordered(f, r) && top in f.kids && forall n | n in PreFrom(f, r, top, 0) :: n in vals
    ensures NoDup(Collected(f, r, vals, top, element, attr))
  {
    PreNoDup(f, r, top);
    assert Pre(f, r, top) == [top] + PreFrom(f, r, top, 0);
    NoDupTail(top, PreFrom(f, r, top, 0));
    var found := Filter(vals, Query(element, attr, None), PreFrom(f, r, top, 0));
    assert NoDup(found);
  }

  /** The keys that are stored in the nodes. */
  lemma KeysKeyed(f: Forest<Node>, vals: map<Node, Value>, attr: Option<CStr>)
    requires Labelled(f, vals)
    ensures Keyed(Keys(vals, attr), attr)
  {
  }

  /** s holds the collected nodes in key order. */
  ghost predicate Arranged(attr: Option<CStr>, s: seq<Node>, f: Forest<Node>, r: map<Node, nat>,
                           vals: map<Node, Value>, top: Node, element: Option<CStr>)
  {
    && Ordered(f, r) && top in f.kids && (forall n | n in PreFrom(f, r, top, 0) :: n in vals)
    && multiset(s) == multiset(Collected(f, r, vals, top, element, attr))
    && SortedBy(Keys(vals, attr), s) && forall n | n in s :: n in Keys(vals, attr)
  }

  /** An index of the subtree of top: the collected nodes, each as often as it was collected, in key order. */
  ghost predicate Indexes(ind: Index, f: Forest<Node>, r: map<Node, nat>, vals: map<Node, Value>, top: Node,
                          element: Option<CStr>)
    reads ind, ind.nodes
  {
    ind.Valid() && Arranged(ind.attr, ind.Contents(), f, r, vals, top, element)
  }

  /** A new index with the collected nodes, still in document order. */
  method Gather(node: Node, element: Option<CStr>, attr: Option<CStr>, ghost f: Forest<Node>, ghost r: map<Node, nat>,
                ghost vals: map<Node, Value>) returns (ind: Index)
    requires Document(f, r) && Labelled(f, vals) && node in f.kids
    ensures fresh(ind) && fresh(ind.nodes) && ind.Valid() && ind.attr == attr && ind.curNode == 0
    ensures forall n | n in PreFrom(f, r, node, 0) :: n in vals
    ensures ind.Contents() == Collected(f, r, vals, node, element, attr)
    ensures Document(f, r) && Labelled(f, vals)
  {
    ind := new Index(attr);
    Collect(ind, node, element, f, r, vals);
  }

  lemma {:induction false} OnceOnly(s: seq<Node>, n: Node)
    requires NoDup(s)
    ensures multiset(s)[n] <= 1
  {
    if s != [] {
      assert s == [s[0]] + s[1..];
      NoDupTail(s[0], s[1..]);
      OnceOnly(s[1..], n);
    }
  }

  lemma SameMembers(s: seq<Node>, t: seq<Node>)
    requires multiset(s) == multiset(t)
    ensures forall n :: n in t <==> n in s
    ensures NoDup(s) ==> NoDup(t)
  {
    forall n ensures n in t <==> n in s {
      assert n in t <==> n in multiset(t);
      assert n in s <==> n in multiset(s);
    }
    if NoDup(s) && !NoDup(t) {
      var i, j :| 0 <= i < j < |t| && t[i] == t[j];
      assert t == t[..j] + [t[j]] + t[j + 1..];
      assert t[i] in t[..j];
      assert multiset(t)[t[i]] >= 2;
      OnceOnly(s, t[i]);
    }
  }

  method SortFront(a: array<Node>, n: nat, attr: Option<CStr>, ghost key: map<Node, Key>)
    requires 1 < n <= a.Length && Keyed(key, attr) && forall x | x in a[..n] :: x in key
    modifies a
    ensures multiset(a[..n]) == multiset(old(a[..n]))
    ensures SortedBy(key, a[..n]) && forall x | x in a[..n] :: x in key
  {
    ghost var s := a[..];
    assert forall k | 0 <= k < n :: s[k] == a[..n][k];
    Sort(a, 0, n - 1, attr, key);
    ghost var t := a[..];
    RearrangedSlice(s, t, 0, n - 1);
    assert s[0..n] == old(a[..n]) && t[0..n] == a[..n];
    SameMembers(old(a[..n]), a[..n]);
  }

  method SortIndex(ind: Index, ghost f: Forest<Node>, ghost r: map<Node, nat>, ghost vals: map<Node, Value>,
                   ghost key: map<Node, Key>)
    requires ind.Valid() && ind.numNodes > 1 && Document(f, r) && Labelled(f, vals) && key == Keys(vals, ind.attr)
    requires forall n | n in ind.Contents() :: n in key
    modifies ind.nodes
    ensures ind.Valid() && multiset(ind.Contents()) == multiset(old(ind.Contents()))
    ensures SortedBy(key, ind.Contents()) && forall n | n in ind.Contents() :: n in key
    ensures Document(f, r) && Labelled(f, vals)
  {
    KeysKeyed(f, vals, ind.attr);
    SortFront(ind.nodes, ind.numNodes, ind.attr, key);
  }

  method Order(ind: Index, node: Node, element: Option<CStr>, ghost f: Forest<Node>, ghost r: map<Node, nat>,
               ghost vals: map<Node, Value>)
    requires Document(f, r) && Labelled(f, vals) && node in f.kids
    requires element.None? && ind.attr.None? ==> vals[node].Element?
    requires ind.Valid() && forall n | n in PreFrom(f, r, node, 0) :: n in vals
    requires ind.Contents() == Collected(f, r, vals, node, element, ind.attr)
    modifies ind.nodes
    ensures Indexes(ind, f, r, vals, node, element)
    ensures Document(f, r) && Labelled(f, vals)
  {
    CollectedKeyed(f, r, vals, node, element, ind.attr);
    if ind.numNodes > 1 {
      SortIndex(ind, f, r, vals, Keys(vals, ind.attr));
    }
  }

  /** mxmlIndexNew. */
  method IndexNew(node: Node?, element: Option<CStr>, attr: Option<CStr>, ghost f: Forest<Node>,
                  ghost r: map<Node, nat>,
                  ghost vals: map<Node, Value>) returns (ind: Index?)
    requires Document(f, r) && Labelled(f, vals) && (node != null ==> node in f.kids)
    requires node != null && element.None? && attr.None? ==> node.value.Element?
    ensures node == null <==> ind == null
    ensures ind != null ==> fresh(ind) && fresh(ind.nodes)
    ensures ind != null ==> Indexes(ind, f, r, vals, node, element) && ind.attr == attr && ind.curNode == 0
    ensures Document(f, r) && Labelled(f, vals)
  {
    if node == null {
      return null;
    }
    ind := Gather(node, element, attr, f, r, vals);
    Order(ind, node, element, f, r, vals);
  }

  // ---- mxmlIndexFind ----

  ghost function KeySeq(key: map<Node, Key>, s: seq<Node>): (ks: seq<Key>)
    requires forall n | n in s :: n in key
  {
    seq(|s|, i requires 0 <= i < |s| => key[s[i]])
  }

  /** index_find. */
  method Probe(attr: Option<CStr>, q: Lookup, node: Node, ghost key: map<Node, Key>) returns (diff: int)
    requires Keyed(key, attr) && node in key && (q.value.Some? ==> attr.Some?)
    ensures diff == Sign(q, key[node])
  {
    if q.element.Some? {
      diff := StrCmp(q.element.value, node.value.name);
      if diff != 0 {
        return;
      }
    }
    if q.value.Some? {
      var a := FindAttr(node.value.attrs, attr.value);
      diff := StrCmp(q.value.value, a.value);
      if diff != 0 {
        return;
      }
    }
    return 0;
  }

  /** The index can be searched for q: its nodes carry their keys. */
  ghost predicate Searchable(ind: Index, q: Lookup, key: map<Node, Key>)
    reads ind, ind.nodes, key.Keys
  {
    && ind.Valid() && Keyed(key, ind.attr) && (q.value.Some? ==> ind.attr.Some?)
    && forall n | n in ind.Contents() :: n in key
  }

  method ProbeAt(ind: Index, q: Lookup, current: nat, ghost key: map<Node, Key>, ghost ks: seq<Key>) returns (diff: int)
    requires Searchable(ind, q, key) && current < ind.numNodes && ks == KeySeq(key, ind.Contents())
    ensures diff == Sign(q, ks[current])
  {
    assert ind.nodes[current] == ind.Contents()[current];
    diff := Probe(ind.attr, q, ind.nodes[current], key);
  }

  /** Back to the start of the run of matches. */
  method BackUp(ind: Index, q: Lookup, start: nat, ghost key: map<Node, Key>, ghost ks: seq<Key>) returns (current: nat)
    requires Searchable(ind, q, key) && start < ind.numNodes && ks == KeySeq(key, ind.Contents())
    ensures current == RunStart(ks, q, start)
  {
    current := start;
    while current > 0
      invariant current <= start
      invariant RunStart(ks, q, current) == RunStart(ks, q, start)
    {
      var diff := ProbeAt(ind, q, current - 1, key, ks);
      if diff != 0 {
        return;
      }
      current := current - 1;
    }
  }

  /** The last two candidates in turn. */
  method TryEach(ind: Index, q: Lookup, first: nat, last: nat, ghost key: map<Node, Key>, ghost ks: seq<Key>)
      returns (hit: Option<nat>)
    requires Searchable(ind, q, key) && first <= last < ind.numNodes && ks == KeySeq(key, ind.Contents())
    ensures hit == FirstHit(ks, q, first, last)
  {
    var current := first;
    while current <= last
      invariant first <= current <= last + 1
      invariant FirstHit(ks, q, first, last) == FirstHit(ks, q, current, last)
    {
      var diff := ProbeAt(ind, q, current, key, ks);
      if diff == 0 {
        return Some(current);
      }
      current := current + 1;
    }
    return None;
  }

  method SearchIn(ind: Index, q: Lookup, ghost key: map<Node, Key>, ghost ks: seq<Key>) returns (hit: Option<nat>)
    requires Searchable(ind, q, key) && ind.numNodes > 0 && ks == KeySeq(key, ind.Contents())
    ensures hit == Bisect(ks, q, 0, |ks| - 1)
  {
    var first, last := 0, ind.numNodes - 1;
    while last - first > 1
      invariant 0 <= first <= last < |ks|
      invariant Bisect(ks, q, first, last) == Bisect(ks, q, 0, |ks| - 1)
      decreases last - first
    {
      var current := (first + last) / 2;
      var diff := ProbeAt(ind, q, current, key, ks);
      if diff == 0 {
        current := BackUp(ind, q, current, key, ks);
        return Some(current);
      } else if diff < 0 {
        last := current;
      } else {
        first := current;
      }
    }
    hit := TryEach(ind, q, first, last, key, ks);
  }

  /** The modified binary search. */
  method Search(ind: Index, q: Lookup, ghost key: map<Node, Key>) returns (hit: Option<nat>)
    requires Searchable(ind, q, key) && ind.numNodes > 0
    ensures hit == Bisect(KeySeq(key, ind.Contents()), q, 0, ind.numNodes - 1)
  {
    ghost var ks := KeySeq(key, ind.Contents());
    hit := SearchIn(ind, q, key, ks);
  }

  /** The part of mxmlIndexFind that looks for something. */
  method FindKeyed(ind: Index, q: Lookup, ghost key: map<Node, Key>, ghost ks: seq<Key>) returns (found: Node?)
    requires Searchable(ind, q, key) && ks == KeySeq(key, ind.Contents())
    modifies ind`curNode
    ensures ind.Valid()
    ensures var r := FindFrom(ks, q, old(ind.curNode));
      found == (if r.0.None? then null else ind.Contents()[r.0.value]) && ind.curNode == r.1
  {
    if ind.numNodes == 0 {
      return null;
    }
    if ind.curNode == 0 {
      var hit := Search(ind, q, key);
      if hit.Some? {
        ind.curNode := hit.value + 1;
        return ind.nodes[hit.value];
      }
      ind.curNode := ind.numNodes;
      return null;
    }
    if ind.curNode < ind.numNodes {
      assert ind.nodes[ind.curNode] == ind.Contents()[ind.curNode];
      var diff := Probe(ind.attr, q, ind.nodes[ind.curNode], key);
      if diff == 0 {
        found := ind.nodes[ind.curNode];
        ind.curNode := ind.curNode + 1;
        return;
      }
    }
    ind.curNode := ind.numNodes;
    return null;
  }

  /** What mxmlIndexEnum returns and where it leaves off. */
  function NextOf(count: nat, cur: nat): (Option<nat>, nat) {
    if cur < count then (Some(cur), cur + 1) else (None, cur)
  }

  /** mxmlIndexFind. */
  method IndexFind(ind: Index?, q: Lookup, ghost key: map<Node, Key>) returns (found: Node?)
    requires ind != null ==> ind.Valid() && Keyed(key, ind.attr) && forall n | n in ind.Contents() :: n in key
    modifies ind
    ensures ind != null ==> ind.Valid() && ind.nodes == old(ind.nodes)
    ensures ind != null ==> ind.numNodes == old(ind.numNodes) && ind.attr == old(ind.attr)
    ensures ind == null ==> found == null
    ensures ind != null && ind.attr.None? && q.value.Some? ==> found == null && ind.curNode == old(ind.curNode)
    ensures ind != null && (ind.attr.None? ==> q.value.None?) ==>
      var r := if q == Lookup(None, None) then NextOf(ind.numNodes, old(ind.curNode))
               else FindFrom(KeySeq(key, ind.Contents()), q, old(ind.curNode));
      found == (if r.0.None? then null else ind.Contents()[r.0.value]) && ind.curNode == r.1
  {
    if ind == null || (ind.attr.None? && q.value.Some?) {
      return null;
    }
    if q.element.None? && q.value.None? {
      found := ind.Enum();
      return;
    }
    found := FindKeyed(ind, q, key, KeySeq(key, ind.Contents()));
  }

  // ---- the index agrees with a scan of the document ----

  function Picked(s: seq<Node>, ps: seq<nat>): (r: seq<Node>)
    requires forall p | p in ps :: p < |s|
    ensures |r| == |ps| && forall i | 0 <= i < |r| :: ps[i] in ps && r[i] == s[ps[i]]
  {
    seq(|ps|, i requires 0 <= i < |ps| => assert ps[i] in ps; s[ps[i]])
  }

  /** A lookup hits a key exactly when a scan for the same element, attribute and value hits the node. */
  lemma HitIsMatch(v: Value, attr: Option<CStr>, q: Lookup)
    requires Indexable(v, attr) && (q.value.Some? ==> attr.Some?)
    ensures Hits(q, KeyOf(v, attr)) <==> Matches(v, Query(q.element, attr, q.value))
  {
  }

  lemma PickedHits(s: seq<Node>, ks: seq<Key>, q: Lookup, n: Node)
    requires |s| == |ks|
    ensures n in Picked(s, HitsFrom(ks, q, 0)) <==> exists i :: 0 <= i < |s| && s[i] == n && Hits(q, ks[i])
  {
    var ps := HitsFrom(ks, q, 0);
    var h := Picked(s, ps);
    if n in h {
      var i :| 0 <= i < |h| && h[i] == n;
      assert ps[i] in ps;
    }
    if i :| 0 <= i < |s| && s[i] == n && Hits(q, ks[i]) {
      assert i in ps;
      var k :| 0 <= k < |ps| && ps[k] == i;
      assert h[k] == n;
    }
  }

  /** The hits of the sorted index are the matches of the scan, once each. */
  lemma HitsAreMatches(col: seq<Node>, s: seq<Node>, vals: map<Node, Value>, attr: Option<CStr>, q: Lookup)
    requires NoDup(col) && multiset(s) == multiset(col) && (q.value.Some? ==> attr.Some?)
    requires forall n | n in s :: n in Keys(vals, attr)
    ensures forall n | n in col :: n in vals
    ensures var h := Picked(s, HitsFrom(KeySeq(Keys(vals, attr), s), q, 0));
      NoDup(h) && forall n :: n in h <==> n in col && Matches(vals[n], Query(q.element, attr, q.value))
  {
    SameMembers(col, s);
    var ks := KeySeq(Keys(vals, attr), s);
    var ps := HitsFrom(ks, q, 0);
    var h := Picked(s, ps);
    forall n ensures n in h <==> n in col && Matches(vals[n], Query(q.element, attr, q.value)) {
      if n in col {
        HitIsMatch(vals[n], attr, q);
      }
      PickedHits(s, ks, q, n);
    }
    forall i, j | 0 <= i < j < |h| ensures h[i] != h[j] {
      assert ps[i] in ps && ps[j] in ps;
    }
  }

  /** In a sorted index, lookups that name the element, or that go to an index made for one element,
      find every hit. */
  lemma SortedFinds(key: map<Node, Key>, s: seq<Node>, q: Lookup)
    requires (forall n | n in s :: n in key) && SortedBy(key, s)
    requires q.element.Some? || forall m, n | m in s && n in s :: key[m].name == key[n].name
    ensures Found(KeySeq(key, s), q, 0) == HitsFrom(KeySeq(key, s), q, 0)
  {
    var ks := KeySeq(key, s);
    forall i, j | 0 <= i < j < |ks| ensures KeyCmp(ks[i], ks[j]) <= 0 {
      assert Le(key, s[i], s[j]);
    }
    if q.element.None? {
      forall i, j | 0 <= i < |ks| && 0 <= j < |ks| ensures ks[i].name == ks[j].name {
        assert s[i] in s && s[j] in s;
      }
    }
    FoundAll(ks, q);
  }

  /** The same for an index of a document. */
  lemma IndexFinds(ind: Index, f: Forest<Node>, r: map<Node, nat>, vals: map<Node, Value>, top: Node,
                   element: Option<CStr>, q: Lookup)
    requires Indexes(ind, f, r, vals, top, element) && (q.element.Some? || element.Some?)
    ensures var ks := KeySeq(Keys(vals, ind.attr), ind.Contents()); Found(ks, q, 0) == HitsFrom(ks, q, 0)
  {
    var key := Keys(vals, ind.attr);
    var col := Collected(f, r, vals, top, element, ind.attr);
    SameMembers(col, ind.Contents());
    if element.Some? {
      forall m, n | m in ind.Contents() && n in ind.Contents() ensures key[m].name == key[n].name {
        assert m in col && n in col;
      }
    }
    SortedFinds(key, ind.Contents(), q);
  }

  /** One lookup in an index that can be searched. */
  method FindNext(ind: Index, q: Lookup, ghost key: map<Node, Key>, ghost ks: seq<Key>) returns (found: Node?)
    requires Searchable(ind, q, key) && q != Lookup(None, None) && ks == KeySeq(key, ind.Contents())
    modifies ind
    ensures Searchable(ind, q, key) && ind.attr == old(ind.attr) && ind.Contents() == old(ind.Contents())
    ensures var r := FindFrom(ks, q, old(ind.curNode));
      ind.curNode == r.1 && found == if r.0.None? then null else ind.Contents()[r.0.value]
  {
    found := IndexFind(ind, q, key);
  }

  /** Every node of col that matches, once each, and nothing else. */
  ghost predicate Answers(found: seq<Node>, vals: map<Node, Value>, col: seq<Node>, query: Query) {
    && (forall n | n in col :: n in vals) && NoDup(found)
    && (forall n | n in found :: n in col && Matches(vals[n], query))
    && (forall n | n in col && Matches(vals[n], query) :: n in found)
  }

  lemma IndexAgrees(ind: Index, f: Forest<Node>, r: map<Node, nat>, vals: map<Node, Value>, top: Node,
                    element: Option<CStr>, q: Lookup)
    requires Indexes(ind, f, r, vals, top, element)
    requires element.None? && ind.attr.None? ==> top in vals && vals[top].Element?
    requires (q.element.Some? || element.Some?) && (q.value.Some? ==> ind.attr.Some?)
    ensures var h := Picked(ind.Contents(), Found(KeySeq(Keys(vals, ind.attr), ind.Contents()), q, 0));
      Answers(h, vals, Collected(f, r, vals, top, element, ind.attr), Query(q.element, ind.attr, q.value))
  {
    var col := Collected(f, r, vals, top, element, ind.attr);
    IndexFinds(ind, f, r, vals, top, element, q);
    CollectedNoDup(f, r, vals, top, element, ind.attr);
    HitsAreMatches(col, ind.Contents(), vals, ind.attr, q);
  }

  /** The nodes found so far, then the one at p, then those to be found from cur on are all there are. */
  ghost predicate Draining(c: seq<Node>, ks: seq<Key>, q: Lookup, found: seq<Node>, p: Option<nat>, cur: nat) {
    && |c| == |ks| && cur <= |ks| && (p.Some? ==> p.value < |c|)
    && Picked(c, Found(ks, q, 0)) == found + if p.None? then [] else [c[p.value]] + Picked(c, Found(ks, q, cur))
  }

  ghost predicate DrainingAt(c: seq<Node>, ks: seq<Key>, q: Lookup, found: seq<Node>, p: Option<nat>, cur: nat,
                             next: Node?) {
    Draining(c, ks, q, found, p, cur) && next == if p.None? then null else c[p.value]
  }

  lemma PickedNext(c: seq<Node>, ks: seq<Key>, q: Lookup, cur: nat)
    requires |c| == |ks| && cur <= |ks|
    ensures var r := FindFrom(ks, q, cur);
      Picked(c, Found(ks, q, cur)) == if r.0.None? then [] else [c[r.0.value]] + Picked(c, Found(ks, q, r.1))
  {
  }

  lemma DrainStep(c: seq<Node>, ks: seq<Key>, q: Lookup, found: seq<Node>, p: nat, cur: nat)
    requires Draining(c, ks, q, found, Some(p), cur)
    ensures var r := FindFrom(ks, q, cur); Draining(c, ks, q, found + [c[p]], r.0, r.1)
  {
    PickedNext(c, ks, q, cur);
    var rest := Picked(c, Found(ks, q, cur));
    assert found + ([c[p]] + rest) == found + [c[p]] + rest;
  }

  method DrainNext(ind: Index, q: Lookup, ghost key: map<Node, Key>, ghost c: seq<Node>, ghost ks: seq<Key>,
                   found: seq<Node>, ghost p: Option<nat>, next: Node)
      returns (more: seq<Node>, ghost p': Option<nat>, next': Node?)
    requires Searchable(ind, q, key) && q != Lookup(None, None)
    requires c == ind.Contents() && ks == KeySeq(key, c) && DrainingAt(c, ks, q, found, p, ind.curNode, next)
    modifies ind
    ensures Searchable(ind, q, key) && ind.Contents() == c && ind.attr == old(ind.attr)
    ensures DrainingAt(c, ks, q, more, p', ind.curNode, next')
    ensures old(ind.curNode) <= ind.curNode <= ind.numNodes == old(ind.numNodes)
    ensures next' != null ==> old(ind.curNode) < ind.curNode
  {
    DrainStep(c, ks, q, found, p.value, ind.curNode);
    more, p' := found + [next], FindFrom(ks, q, ind.curNode).0;
    next' := FindNext(ind, q, key, ks);
  }

  lemma DrainEnd(c: seq<Node>, ks: seq<Key>, q: Lookup, found: seq<Node>, p: Option<nat>, cur: nat)
    requires DrainingAt(c, ks, q, found, p, cur, null)
    ensures found == Picked(c, Found(ks, q, 0))
  {
    assert found + [] == found;
  }

  lemma DrainStart(c: seq<Node>, ks: seq<Key>, q: Lookup)
    requires |c| == |ks|
    ensures var r := FindFrom(ks, q, 0); Draining(c, ks, q, [], r.0, r.1)
  {
    PickedNext(c, ks, q, 0);
    var all := Picked(c, Found(ks, q, 0));
    assert [] + all == all;
  }

  method DrainFrom(ind: Index, q: Lookup, ghost key: map<Node, Key>, ghost c: seq<Node>, ghost ks: seq<Key>)
      returns (found: seq<Node>)
    requires Searchable(ind, q, key) && q != Lookup(None, None) && ind.curNode == 0
    requires c == ind.Contents() && ks == KeySeq(key, c)
    modifies ind
    ensures ind.Valid() && ind.attr == old(ind.attr) && ind.Contents() == c
    ensures forall p | p in Found(ks, q, 0) :: p < |c|
    ensures found == Picked(c, Found(ks, q, 0))
  {
    found := [];
    DrainStart(c, ks, q);
    ghost var p: Option<nat> := FindFrom(ks, q, 0).0;
    var next := FindNext(ind, q, key, ks);
    while next != null
      invariant Searchable(ind, q, key) && ind.Contents() == c && ind.attr == old(ind.attr)
      invariant DrainingAt(c, ks, q, found, p, ind.curNode, next)
      decreases ind.numNodes - ind.curNode, if next == null then 0 else 1
    {
      found, p, next := DrainNext(ind, q, key, c, ks, found, p, next);
    }
    DrainEnd(c, ks, q, found, p, ind.curNode);
  }

  /** The nodes that repeated lookups return, in index order. */
  method Drain(ind: Index, q: Lookup, ghost key: map<Node, Key>) returns (found: seq<Node>)
    requires Searchable(ind, q, key) && q != Lookup(None, None)
    modifies ind
    ensures ind.Valid() && ind.attr == old(ind.attr) && ind.Contents() == old(ind.Contents())
    ensures forall p | p in Found(KeySeq(key, old(ind.Contents())), q, 0) :: p < |old(ind.Contents())|
    ensures found == Picked(old(ind.Contents()), Found(KeySeq(key, old(ind.Contents())), q, 0))
  {
    ghost var c, ks := ind.Contents(), KeySeq(key, ind.Contents());
    var _ := ind.Reset();
    found := DrainFrom(ind, q, key, c, ks);
  }

  /** mxmlIndexReset and then mxmlIndexFind until it returns null: every node of the subtree that matches
      both what the index was made for and the lookup, once each, in index order. */
  method FindEach(ind: Index, q: Lookup, ghost top: Node, ghost element: Option<CStr>, ghost f: Forest<Node>,
                  ghost r: map<Node, nat>, ghost vals: map<Node, Value>) returns (found: seq<Node>)
    requires Document(f, r) && Labelled(f, vals) && Indexes(ind, f, r, vals, top, element)
    requires element.None? && ind.attr.None? ==> top in vals && vals[top].Element?
    requires (q.element.Some? || element.Some?) && q != Lookup(None, None) && (q.value.Some? ==> ind.attr.Some?)
    modifies ind
    ensures ind.Valid() && ind.attr == old(ind.attr) && ind.Contents() == old(ind.Contents())
    ensures Indexes(ind, f, r, vals, top, element)
    ensures var ks := KeySeq(Keys(vals, ind.attr), ind.Contents());
      (forall p | p in Found(ks, q, 0) :: p < |ind.Contents()|) && found == Picked(ind.Contents(), Found(ks, q, 0))
    ensures Answers(found, vals, Collected(f, r, vals, top, element, ind.attr), Query(q.element, ind.attr, q.value))
  {
    IndexAgrees(ind, f, r, vals, top, element, q);
    KeysKeyed(f, vals, ind.attr);
    found := Drain(ind, q, Keys(vals, ind.attr));
  }
}
