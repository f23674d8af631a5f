/** The open elements of the loader as a chain of last children, and what adding a node at its end does.
    From the root one comes to the innermost open element by going to the last child each time; a node that
    is added there changes the tree that the root stands for in that one place. */
module MxmlSpine {
  import opened CStrings
  import opened XmlText
  import opened XmlReader
  import opened Forests
  import opened Preorder
  import opened MxmlNode
  import opened MxmlTree

  /** The document so far if all open elements were closed here. */
  function Zip(open: seq<Frame>): Xml
    requires open != []
  {
    var outer := open[|open| - 1];
    Elem(outer.name, outer.attrs, outer.kids + if |open| == 1 then [] else [Zip(open[..|open| - 1])])
  }

  /** A finished node added to the innermost open element. */
  function Put(open: seq<Frame>, x: Xml): seq<Frame>
    requires open != []
  {
    [open[0].(kids := open[0].kids + [x])] + open[1..]
  }

  /** Closing the innermost element, or opening one, does not change the document so far. */
  lemma {:induction false} ZipPut(inner: Frame, open: seq<Frame>)
    requires open != []
    ensures Zip(Put(open, Close(inner))) == Zip([inner] + open)
  {
    var a, b := Put(open, Close(inner)), [inner] + open;
    var outer := open[|open| - 1];
    if |open| == 1 {
      assert b[..1] == [inner];
      assert inner.kids + [] == inner.kids;
    } else {
      ZipPut(inner, open[..|open| - 1]);
      assert a[..|a| - 1] == Put(open[..|open| - 1], Close(inner));
      assert b[..|b| - 1] == [inner] + open[..|open| - 1];
    }
  }

  /** p is reached from m by going k times to the last child. */
  ghost predicate Chain(f: Forest<Node>, m: Node, p: Node, k: nat)
    decreases k
  {
    m in f.kids && if k == 0 then m == p else f.kids[m] != [] && Chain(f, f.kids[m][|f.kids[m]| - 1], p, k - 1)
  }

  lemma {:induction false} ChainUnder(f: Forest<Node>, r: map<Node, nat>, m: Node, p: Node, k: nat)
    requires Ordered(f, r) && Chain(f, m, p, k)
    ensures p in f.kids && Under(f, p, m)
  {
    if k == 0 {
      UnderSelf(f, m);
    } else {
      KidRank(f, r, m, |f.kids[m]| - 1);
      ChainUnder(f, r, f.kids[m][|f.kids[m]| - 1], p, k - 1);
      UnderUp(f, p, f.kids[m][|f.kids[m]| - 1]);
    }
  }

  // ---- one more leaf ----

  /** g is f with a new childless node under p. */
  ghost predicate Longer(f: Forest<Node>, g: Forest<Node>, p: Node, leaf: Node) {
    p in f.kids && leaf !in f.kids && g.kids == f.kids[leaf := []][p := f.kids[p] + [leaf]]
  }

  /** The same with ranks and values. */
  ghost predicate OneMore(f: Forest<Node>, r: map<Node, nat>, vals: map<Node, Value>, g: Forest<Node>,
                          q: map<Node, nat>,
                          wals: map<Node, Value>, p: Node, leaf: Node)
  {
    && Ordered(f, r) && Typed(f, vals) && Ordered(g, q) && Typed(g, wals)
    && Longer(f, g, p, leaf)
    && leaf in wals && wals == vals[leaf := wals[leaf]]
  }

  lemma {:induction false} TreesKept(f: Forest<Node>, r: map<Node, nat>, vals: map<Node, Value>, g: Forest<Node>,
                                     q: map<Node, nat>, wals: map<Node, Value>, p: Node, leaf: Node, n: Node, i: nat)
    requires OneMore(f, r, vals, g, q, wals, p, leaf) && n in f.kids && !Under(f, p, n) && n != p && i <= |f.kids[n]|
    ensures TreesFrom(g, q, wals, n, i) == TreesFrom(f, r, vals, n, i)
    decreases r[n], |f.kids[n]| - i
  {
    if i < |f.kids[n]| {
      KidRank(f, r, n, i);
      if Under(f, p, f.kids[n][i]) {
        UnderUp(f, p, f.kids[n][i]);
      }
      TreeKept(f, r, vals, g, q, wals, p, leaf, f.kids[n][i]);
      TreesKept(f, r, vals, g, q, wals, p, leaf, n, i + 1);
    }
  }

  /** Subtrees without p stay as they are. */
  lemma {:induction false} TreeKept(f: Forest<Node>, r: map<Node, nat>, vals: map<Node, Value>, g: Forest<Node>,
                                    q: map<Node, nat>, wals: map<Node, Value>, p: Node, leaf: Node, n: Node)
    requires OneMore(f, r, vals, g, q, wals, p, leaf) && n in f.kids && !Under(f, p, n)
    ensures TreeOf(g, q, wals, n) == TreeOf(f, r, vals, n)
    decreases r[n], |f.kids[n]| + 1
  {
    UnderSelf(f, n);
    TreesKept(f, r, vals, g, q, wals, p, leaf, n, 0);
  }

  lemma TreesFirst(f: Forest<Node>, r: map<Node, nat>, vals: map<Node, Value>, n: Node, i: nat)
    requires Ordered(f, r) && Typed(f, vals) && n in f.kids && i < |f.kids[n]|
    ensures f.kids[n][i] in f.kids
    ensures TreesFrom(f, r, vals, n, i) == [TreeOf(f, r, vals, f.kids[n][i])] + TreesFrom(f, r, vals, n, i + 1)
  {
    KidRank(f, r, n, i);
  }

  lemma {:induction false} TreesAt(f: Forest<Node>, r: map<Node, nat>, vals: map<Node, Value>, n: Node, i: nat, k: nat)
    requires Ordered(f, r) && Typed(f, vals) && n in f.kids && i + k < |f.kids[n]|
    ensures f.kids[n][i + k] in f.kids && TreesFrom(f, r, vals, n, i)[k] == TreeOf(f, r, vals, f.kids[n][i + k])
    decreases k
  {
    TreesFirst(f, r, vals, n, i);
    if k > 0 {
      TreesAt(f, r, vals, n, i + 1, k - 1);
    }
  }

  /** A child of a node on the chain that is not itself on the chain does not lead to its end. */
  lemma SideOff(f: Forest<Node>, r: map<Node, nat>, p: Node, m: Node, d: nat, i: nat)
    requires Ordered(f, r) && Chain(f, m, p, d) && i < |f.kids[m]| && (d > 0 ==> i < |f.kids[m]| - 1)
    ensures f.kids[m][i] in f.kids && !Under(f, p, f.kids[m][i])
  {
    KidRank(f, r, m, i);
    var c := f.kids[m][i];
    if d == 0 {
      if Under(f, p, c) {
        var k: nat :| Ancestor(f, p, k) == Some(c);
        AncestorRank(f, r, p, k);
      }
    } else {
      var last := f.kids[m][|f.kids[m]| - 1];
      KidRank(f, r, m, |f.kids[m]| - 1);
      ChainUnder(f, r, last, p, d - 1);
      SiblingsDisjoint(f, r, p, last, c);
    }
  }

  lemma SideKept(f: Forest<Node>, r: map<Node, nat>, vals: map<Node, Value>, g: Forest<Node>, q: map<Node, nat>,
                 wals: map<Node, Value>, p: Node, leaf: Node, m: Node, d: nat, i: nat)
    requires OneMore(f, r, vals, g, q, wals, p, leaf) && Chain(f, m, p, d) && i < |f.kids[m]|
    requires d > 0 ==> i < |f.kids[m]| - 1
    ensures f.kids[m][i] in f.kids && TreeOf(g, q, wals, f.kids[m][i]) == TreeOf(f, r, vals, f.kids[m][i])
  {
    SideOff(f, r, p, m, d, i);
    TreeKept(f, r, vals, g, q, wals, p, leaf, f.kids[m][i]);
  }

  lemma TreeStays(f: Forest<Node>, r: map<Node, nat>, vals: map<Node, Value>, g: Forest<Node>, q: map<Node, nat>,
                  wals: map<Node, Value>, p: Node, leaf: Node, i: nat)
    requires OneMore(f, r, vals, g, q, wals, p, leaf) && i < |f.kids[p]|
    ensures i < |g.kids[p]| && TreesFrom(g, q, wals, p, 0)[i] == TreesFrom(f, r, vals, p, 0)[i]
  {
    TreesAt(f, r, vals, p, 0, i);
    TreesAt(g, q, wals, p, 0, i);
    SideKept(f, r, vals, g, q, wals, p, leaf, p, 0, i);
  }

  /** The children of the chain's last node: all as before, and the new one. */
  lemma TreesGrown(f: Forest<Node>, r: map<Node, nat>, vals: map<Node, Value>, g: Forest<Node>, q: map<Node, nat>,
                   wals: map<Node, Value>, p: Node, leaf: Node)
    requires OneMore(f, r, vals, g, q, wals, p, leaf)
    ensures leaf in g.kids && TreesFrom(g, q, wals, p, 0) == TreesFrom(f, r, vals, p, 0) + [TreeOf(g, q, wals, leaf)]
  {
    var a, b := TreesFrom(f, r, vals, p, 0), TreesFrom(g, q, wals, p, 0);
    forall i | 0 <= i < |a| ensures b[i] == a[i] {
      TreeStays(f, r, vals, g, q, wals, p, leaf, i);
    }
    TreesAt(g, q, wals, p, 0, |a|);
  }

  lemma SidesKept(f: Forest<Node>, r: map<Node, nat>, vals: map<Node, Value>, g: Forest<Node>, q: map<Node, nat>,
                  wals: map<Node, Value>, p: Node, leaf: Node, m: Node, d: nat)
    requires OneMore(f, r, vals, g, q, wals, p, leaf) && d > 0 && Chain(f, m, p, d) && m != p
    ensures m in g.kids && g.kids[m] == f.kids[m]
    ensures var n := |f.kids[m]| - 1; TreesFrom(g, q, wals, m, 0)[..n] == TreesFrom(f, r, vals, m, 0)[..n]
  {
    forall i | 0 <= i < |f.kids[m]| - 1 ensures TreesFrom(g, q, wals, m, 0)[i] == TreesFrom(f, r, vals, m, 0)[i] {
      TreesAt(f, r, vals, m, 0, i);
      TreesAt(g, q, wals, m, 0, i);
      SideKept(f, r, vals, g, q, wals, p, leaf, m, d, i);
    }
  }

  lemma ChainProper(f: Forest<Node>, r: map<Node, nat>, m: Node, p: Node, d: nat)
    requires Ordered(f, r) && d > 0 && Chain(f, m, p, d)
    ensures m != p
  {
    var c := f.kids[m][|f.kids[m]| - 1];
    KidRank(f, r, m, |f.kids[m]| - 1);
    ChainUnder(f, r, c, p, d - 1);
    var k: nat :| Ancestor(f, p, k) == Some(c);
    AncestorRank(f, r, p, k);
  }

  /** Along the chain the last child changes and nothing else. */
  lemma TreesBelow(f: Forest<Node>, r: map<Node, nat>, vals: map<Node, Value>, g: Forest<Node>, q: map<Node, nat>,
                   wals: map<Node, Value>, p: Node, leaf: Node, m: Node, d: nat) returns (c: Node, others: seq<Xml>)
    requires OneMore(f, r, vals, g, q, wals, p, leaf) && d > 0 && Chain(f, m, p, d)
    ensures c in f.kids && c in g.kids && f.kids[m] != [] && c == f.kids[m][|f.kids[m]| - 1]
    ensures TreesFrom(f, r, vals, m, 0) == others + [TreeOf(f, r, vals, c)]
    ensures TreesFrom(g, q, wals, m, 0) == others + [TreeOf(g, q, wals, c)]
  {
    ChainProper(f, r, m, p, d);
    var n := |f.kids[m]| - 1;
    c := f.kids[m][n];
    var a, b := TreesFrom(f, r, vals, m, 0), TreesFrom(g, q, wals, m, 0);
    others := a[..n];
    TreesAt(f, r, vals, m, 0, n);
    TreesAt(g, q, wals, m, 0, n);
    SidesKept(f, r, vals, g, q, wals, p, leaf, m, d);
    assert a == a[..n] + [a[n]] && b == b[..n] + [b[n]];
  }

  lemma PutLast(open: seq<Frame>, x: Xml)
    requires |open| > 1
    ensures var outer := open[|open| - 1];
      Zip(Put(open, x)) == Elem(outer.name, outer.attrs, outer.kids + [Zip(Put(open[..|open| - 1], x))])
  {
    assert Put(open, x)[..|open| - 1] == Put(open[..|open| - 1], x);
  }

  lemma SameLast(a: seq<Xml>, x: Xml, b: seq<Xml>, y: Xml)
    requires a + [x] == b + [y]
    ensures a == b && x == y
  {
    assert (a + [x])[..|a|] == a && (b + [y])[..|b|] == b;
    assert (a + [x])[|a|] == x && (b + [y])[|b|] == y;
  }

  /** A new leaf at the end of the chain is one more child of the innermost open element. */
  lemma {:induction false} GrowSpine(f: Forest<Node>, r: map<Node, nat>, vals: map<Node, Value>, g: Forest<Node>,
                                     q: map<Node, nat>, wals: map<Node, Value>, p: Node, leaf: Node, m: Node,
                                     open: seq<Frame>)
    requires OneMore(f, r, vals, g, q, wals, p, leaf) && open != [] && Chain(f, m, p, |open| - 1)
    requires TreeOf(f, r, vals, m) == Zip(open)
    ensures m in g.kids && leaf in g.kids && TreeOf(g, q, wals, m) == Zip(Put(open, TreeOf(g, q, wals, leaf)))
    decreases |open|
  {
    var x := TreeOf(g, q, wals, leaf);
    var outer := open[|open| - 1];
    if |open| == 1 {
      TreesGrown(f, r, vals, g, q, wals, p, leaf);
      assert TreesFrom(f, r, vals, m, 0) == outer.kids + [];
    } else {
      var c, others := TreesBelow(f, r, vals, g, q, wals, p, leaf, m, |open| - 1);
      var inner := open[..|open| - 1];
      SameLast(others, TreeOf(f, r, vals, c), outer.kids, Zip(inner));
      GrowSpine(f, r, vals, g, q, wals, p, leaf, c, inner);
      PutLast(open, x);
    }
  }

  lemma {:induction false} GrowChain(f: Forest<Node>, r: map<Node, nat>, g: Forest<Node>, p: Node, leaf: Node, m: Node,
                                     d: nat)
    requires Ordered(f, r) && Longer(f, g, p, leaf) && Chain(f, m, p, d)
    ensures Chain(g, m, p, d) && Chain(g, m, leaf, d + 1)
    decreases d
  {
    if d > 0 {
      ChainProper(f, r, m, p, d);
      GrowChain(f, r, g, p, leaf, f.kids[m][|f.kids[m]| - 1], d - 1);
    }
  }

  /** The end of the chain is the innermost open element. */
  lemma {:induction false} SpineEnd(f: Forest<Node>, r: map<Node, nat>, vals: map<Node, Value>, m: Node, p: Node,
                                    open: seq<Frame>)
    requires Ordered(f, r) && Typed(f, vals) && open != [] && Chain(f, m, p, |open| - 1)
    requires TreeOf(f, r, vals, m) == Zip(open)
    ensures p in f.kids && TreeOf(f, r, vals, p) == Close(open[0])
    decreases |open|
  {
    var outer := open[|open| - 1];
    if |open| == 1 {
      assert outer.kids + [] == outer.kids;
    } else {
      var n := |f.kids[m]| - 1;
      TreesAt(f, r, vals, m, 0, n);
      var c, inner := f.kids[m][n], open[..|open| - 1];
      var a := TreesFrom(f, r, vals, m, 0);
      assert a == a[..n] + [a[n]];
      SameLast(a[..n], TreeOf(f, r, vals, c), outer.kids, Zip(inner));
      SpineEnd(f, r, vals, c, p, inner);
      assert inner[0] == open[0];
    }
  }

  /** One step back from the end of the chain is the parent. */
  lemma {:induction false} ChainParent(f: Forest<Node>, r: map<Node, nat>, m: Node, p: Node, d: nat)
    requires Ordered(f, r) && d > 0 && Chain(f, m, p, d)
    ensures p in f.up && Chain(f, m, f.up[p], d - 1)
    decreases d
  {
    var n := |f.kids[m]| - 1;
    KidRank(f, r, m, n);
    if d > 1 {
      ChainParent(f, r, f.kids[m][n], p, d - 1);
    }
  }

  // ---- the loader's variables and the state they stand for ----

  /** parent is the innermost open element of st and first the root node, if there is one. */
  ghost predicate Spells(f: Forest<Node>, r: map<Node, nat>, vals: map<Node, Value>, parent: Node?, first: Node?,
                         st: State) {
    && Ordered(f, r) && Typed(f, vals)
    && (first == null <==> st.open == [] && st.root.None?)
    && (parent == null <==> st.open == [])
    && (first != null ==> first in f.kids && first !in f.up)
    && (st.root.Some? ==> st.open == [] && TreeOf(f, r, vals, first) == st.root.value)
    && (st.open != [] ==>
         && st.textMode && Chain(f, first, parent, |st.open| - 1) && parent in f.kids
         && TreeOf(f, r, vals, first) == Zip(st.open))
  }

  lemma AppendOpen(st: State, x: Xml)
    requires st.open != []
    ensures Append(st, x) == st.(open := Put(st.open, x)) && |Put(st.open, x)| == |st.open|
  {
  }

  lemma AppendSpells(f: Forest<Node>, r: map<Node, nat>, vals: map<Node, Value>, g: Forest<Node>, q: map<Node, nat>,
                     wals: map<Node, Value>, p: Node, leaf: Node, first: Node?, st: State)
    requires Spells(f, r, vals, p, first, st) && OneMore(f, r, vals, g, q, wals, p, leaf) && first !in g.up
    ensures leaf in g.kids && Spells(g, q, wals, p, first, Append(st, TreeOf(g, q, wals, leaf)))
  {
    var x := TreeOf(g, q, wals, leaf);
    AppendOpen(st, x);
    GrowSpine(f, r, vals, g, q, wals, p, leaf, first, st.open);
    GrowChain(f, r, g, p, leaf, first, |st.open| - 1);
  }

  lemma OpenSpells(f: Forest<Node>, r: map<Node, nat>, vals: map<Node, Value>, g: Forest<Node>, q: map<Node, nat>,
                   wals: map<Node, Value>, p: Node, leaf: Node, first: Node?, st: State, frame: Frame)
    requires Spells(f, r, vals, p, first, st) && OneMore(f, r, vals, g, q, wals, p, leaf) && first !in g.up
    requires leaf in g.kids && TreeOf(g, q, wals, leaf) == Close(frame)
    ensures Spells(g, q, wals, leaf, first, st.(open := [frame] + st.open, textMode := true))
  {
    GrowSpine(f, r, vals, g, q, wals, p, leaf, first, st.open);
    GrowChain(f, r, g, p, leaf, first, |st.open| - 1);
    ZipPut(frame, st.open);
  }

  /** The first element becomes the root. */
  lemma RootSpells(g: Forest<Node>, q: map<Node, nat>, wals: map<Node, Value>, leaf: Node, st: State, frame: Frame)
    requires Ordered(g, q) && Typed(g, wals) && leaf in g.kids && leaf !in g.up && st.open == [] && st.root.None?
    requires TreeOf(g, q, wals, leaf) == Close(frame)
    ensures Spells(g, q, wals, null, leaf, Append(st, Close(frame)))
    ensures Spells(g, q, wals, leaf, leaf, st.(open := [frame] + st.open, textMode := true))
  {
    assert frame.kids + [] == frame.kids;
    assert [frame] + [] == [frame];
  }

  lemma ClosePut(st: State)
    requires |st.open| > 1
    ensures var t := Append(st.(open := st.open[1..]), Close(st.open[0]));
      t.root == st.root && t.textMode == st.textMode && |t.open| == |st.open| - 1 && Zip(t.open) == Zip(st.open)
  {
    AppendOpen(st.(open := st.open[1..]), Close(st.open[0]));
    ZipPut(st.open[0], st.open[1..]);
    assert [st.open[0]] + st.open[1..] == st.open;
  }

  /** The innermost element is finished: its parent is the innermost one now. */
  lemma CloseSpells(f: Forest<Node>, r: map<Node, nat>, vals: map<Node, Value>, p: Node, first: Node?, st: State)
    requires Spells(f, r, vals, p, first, st) && st.open != []
    ensures Spells(f, r, vals, Ptr(Parent(f, p)), first, Append(st.(open := st.open[1..]), Close(st.open[0])))
  {
    if |st.open| == 1 {
      assert st.open[0].kids + [] == st.open[0].kids;
    } else {
      ClosePut(st);
      ChainParent(f, r, first, p, |st.open| - 1);
    }
  }

  /** The new leaf itself. */
  lemma LeafTree(g: Forest<Node>, q: map<Node, nat>, wals: map<Node, Value>, leaf: Node)
    requires Ordered(g, q) && Typed(g, wals) && leaf in g.kids && g.kids[leaf] == []
    ensures TreeOf(g, q, wals, leaf) == match wals[leaf]
      case Element(name, attrs) => Elem(name, attrs, [])
      case TextValue(whitespace, text) => Text(whitespace, text)
  {
  }

  lemma AppendedKids(f: Forest<Node>, p: Node, leaf: Node)
    requires p in f.kids && leaf !in f.kids
    ensures Appended(f, p, leaf).kids == f.kids[leaf := []][p := f.kids[p] + [leaf]]
    ensures Appended(f, p, leaf).up == f.up[leaf := p]
  {
    var s := Grow(f, leaf).kids[p];
    assert s == f.kids[p];
    assert InsertAt(s, |s|, leaf) == s + [leaf];
  }

  lemma AppendedRanked(f: Forest<Node>, r: map<Node, nat>, p: Node, leaf: Node, q: map<Node, nat>)
    requires Ordered(f, r) && p in f.kids && leaf !in f.kids
    requires q == map n | n in f.kids || n == leaf :: if n in f.kids then r[n] + 1 else 0
    ensures Ranked(Appended(f, p, leaf), q)
  {
    AppendedKids(f, p, leaf);
  }

  /** A new node added below p by mxmlAdd is one more leaf. */
  lemma AppendedIsOneMore(f: Forest<Node>, r: map<Node, nat>, vals: map<Node, Value>, p: Node, leaf: Node, v: Value)
      returns (q: map<Node, nat>)
    requires Ordered(f, r) && Typed(f, vals) && p in f.kids && leaf !in f.kids && vals[p].Element?
    requires Links(Appended(f, p, leaf))
    ensures OneMore(f, r, vals, Appended(f, p, leaf), q, vals[leaf := v], p, leaf)
    ensures Appended(f, p, leaf).up == f.up[leaf := p]
  {
    AppendedKids(f, p, leaf);
    q := map n | n in f.kids || n == leaf :: if n in f.kids then r[n] + 1 else 0;
    AppendedRanked(f, r, p, leaf, q);
  }

  lemma GrowIsOrdered(f: Forest<Node>, r: map<Node, nat>, vals: map<Node, Value>, leaf: Node, v: Value)
    requires Ordered(f, r) && Typed(f, vals) && leaf !in f.kids && Links(Grow(f, leaf))
    ensures Ordered(Grow(f, leaf), r[leaf := 0]) && Typed(Grow(f, leaf), vals[leaf := v])
    ensures leaf !in Grow(f, leaf).up
  {
  }

  /** A new text node under the innermost open element. */
  lemma TextSpells(f: Forest<Node>, r: map<Node, nat>, vals: map<Node, Value>, p: Node, leaf: Node, first: Node?,
                   st: State,
                   v: Value) returns (q: map<Node, nat>)
    requires Spells(f, r, vals, p, first, st) && leaf !in f.kids && Links(Appended(f, p, leaf)) && v.TextValue?
    ensures Spells(Appended(f, p, leaf), q, vals[leaf := v], p, first, Append(st, Text(v.whitespace, v.text)))
  {
    SpineEnd(f, r, vals, first, p, st.open);
    q := AppendedIsOneMore(f, r, vals, p, leaf, v);
    LeafTree(Appended(f, p, leaf), q, vals[leaf := v], leaf);
    AppendSpells(f, r, vals, Appended(f, p, leaf), q, vals[leaf := v], p, leaf, first, st);
  }

  /** A new element under the innermost open element: finished, or open itself. */
  lemma ElementSpells(f: Forest<Node>, r: map<Node, nat>, vals: map<Node, Value>, p: Node, leaf: Node, first: Node?,
                      st: State, v: Value) returns (q: map<Node, nat>)
    requires Spells(f, r, vals, p, first, st) && leaf !in f.kids && Links(Appended(f, p, leaf)) && v.Element?
    ensures Spells(Appended(f, p, leaf), q, vals[leaf := v], p, first, Append(st, Elem(v.name, v.attrs, [])))
    ensures Spells(Appended(f, p, leaf), q, vals[leaf := v], leaf, first,
                   st.(open := [Frame(v.name, v.attrs, [])] + st.open, textMode := true))
  {
    SpineEnd(f, r, vals, first, p, st.open);
    q := AppendedIsOneMore(f, r, vals, p, leaf, v);
    LeafTree(Appended(f, p, leaf), q, vals[leaf := v], leaf);
    AppendSpells(f, r, vals, Appended(f, p, leaf), q, vals[leaf := v], p, leaf, first, st);
    OpenSpells(f, r, vals, Appended(f, p, leaf), q, vals[leaf := v], p, leaf, first, st, Frame(v.name, v.attrs, []));
  }

  /** A new element without a parent: the root, finished or open. */
  lemma RootElementSpells(f: Forest<Node>, r: map<Node, nat>, vals: map<Node, Value>, leaf: Node, st: State, v: Value)
      returns (q: map<Node, nat>)
    requires Spells(f, r, vals, null, null, st) && leaf !in f.kids && Links(Grow(f, leaf)) && v.Element?
    ensures Spells(Grow(f, leaf), q, vals[leaf := v], null, leaf, Append(st, Elem(v.name, v.attrs, [])))
    ensures Spells(Grow(f, leaf), q, vals[leaf := v], leaf, leaf,
                   st.(open := [Frame(v.name, v.attrs, [])] + st.open, textMode := true))
  {
    q := r[leaf := 0];
    GrowIsOrdered(f, r, vals, leaf, v);
    LeafTree(Grow(f, leaf), q, vals[leaf := v], leaf);
    RootSpells(Grow(f, leaf), q, vals[leaf := v], leaf, st, Frame(v.name, v.attrs, []));
  }
}
