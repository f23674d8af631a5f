/** The document value that linked nodes stand for. */
module MxmlTree {
  import opened CStrings
  import opened XmlText
  import opened Forests
  import opened Preorder
  import opened MxmlNode

  /** Every node has a value, and only elements have children. */
  ghost predicate Typed(f: Forest<Node>, vals: map<Node, Value>) {
    && vals.Keys == f.kids.Keys
    && forall n | n in f.kids && f.kids[n] != [] :: vals[n].Element?
  }

  /** The subtrees of the children of n from the i-th on. */
  ghost function TreesFrom(f: Forest<Node>, r: map<Node, nat>, vals: map<Node, Value>, n: Node, i: nat): (s: seq<Xml>)
    requires Ordered(f, r) && Typed(f, vals) && n in f.kids && i <= |f.kids[n]|
    ensures |s| == |f.kids[n]| - i
    decreases r[n], |f.kids[n]| - i
  {
    if i == |f.kids[n]| then []
    else
      KidRank(f, r, n, i);
      [TreeOf(f, r, vals, f.kids[n][i])] + TreesFrom(f, r, vals, n, i + 1)
  }

  /** The subtree of a node as a value. */
  ghost function TreeOf(f: Forest<Node>, r: map<Node, nat>, vals: map<Node, Value>, n: Node): Xml
    requires Ordered(f, r) && Typed(f, vals) && n in f.kids
    decreases r[n], |f.kids[n]| + 1
  {
    match vals[n]
    case Element(name, attrs) => Elem(name, attrs, TreesFrom(f, r, vals, n, 0))
    case TextValue(whitespace, text) => Text(whitespace, text)
  }

  // ---- where a node is in the tree ----

  /** What follows a node: nothing, or its following siblings under an element and what follows that. */
  datatype Place = Top | Below(name: CStr, after: seq<Xml>, above: Place)

  /** The place of n in the subtree of its d-th ancestor. */
  ghost function PlaceOf(f: Forest<Node>, r: map<Node, nat>, vals: map<Node, Value>, n: Node, d: nat): Place
    requires Ordered(f, r) && Typed(f, vals) && n in f.kids && Ancestor(f, n, d).Some?
    decreases d
  {
    if d == 0 then Top
    else
      var p := f.up[n];
      Below(vals[p].name, TreesFrom(f, r, vals, p, IndexOf(f.kids[p], n) + 1), PlaceOf(f, r, vals, p, d - 1))
  }

  lemma NextIs(f: Forest<Node>, n: Node) returns (p: Node, i: nat)
    requires Links(f) && n in f.kids && Next(f, n).Some?
    ensures n in f.up && p == f.up[n] && p in f.kids && i == IndexOf(f.kids[p], n) + 1
    ensures i < |f.kids[p]| && f.kids[p][i] == Next(f, n).value
  {
    p, i := f.up[n], IndexOf(f.kids[f.up[n]], n) + 1;
  }

  /** Down to the first child. */
  lemma ChildPlace(f: Forest<Node>, r: map<Node, nat>, vals: map<Node, Value>, n: Node, d: nat)
      returns (c: Node, x: Xml, xs: seq<Xml>)
    requires Ordered(f, r) && Typed(f, vals) && n in f.kids && Ancestor(f, n, d).Some? && f.kids[n] != []
    ensures c == f.kids[n][0] && c in f.kids && Ancestor(f, c, d + 1) == Ancestor(f, n, d)
    ensures x == TreeOf(f, r, vals, c)
    ensures TreeOf(f, r, vals, n) == Elem(vals[n].name, vals[n].attrs, [x] + xs)
    ensures PlaceOf(f, r, vals, c, d + 1) == Below(vals[n].name, xs, PlaceOf(f, r, vals, n, d))
  {
    c := f.kids[n][0];
    KidRank(f, r, n, 0);
    x, xs := TreeOf(f, r, vals, c), TreesFrom(f, r, vals, n, 1);
  }

  /** On to the next sibling. */
  lemma NextPlace(f: Forest<Node>, r: map<Node, nat>, vals: map<Node, Value>, n: Node, d: nat)
      returns (name: CStr, m: Node, x: Xml, xs: seq<Xml>, above: Place)
    requires Ordered(f, r) && Typed(f, vals) && n in f.kids && Ancestor(f, n, d).Some? && d > 0 && Next(f, n).Some?
    ensures Next(f, n) == Some(m) && m in f.kids && Ancestor(f, m, d) == Ancestor(f, n, d)
    ensures x == TreeOf(f, r, vals, m)
    ensures PlaceOf(f, r, vals, n, d) == Below(name, [x] + xs, above)
    ensures PlaceOf(f, r, vals, m, d) == Below(name, xs, above)
  {
    var p, i := NextIs(f, n);
    KidRank(f, r, p, i);
    m, name, above := f.kids[p][i], vals[p].name, PlaceOf(f, r, vals, p, d - 1);
    x, xs := TreeOf(f, r, vals, m), TreesFrom(f, r, vals, p, i + 1);
  }

  /** Up to the parent, after the last child. */
  lemma LastPlace(f: Forest<Node>, r: map<Node, nat>, vals: map<Node, Value>, n: Node, d: nat) returns (p: Node)
    requires Ordered(f, r) && Typed(f, vals) && n in f.kids && Ancestor(f, n, d).Some? && d > 0 && Next(f, n).None?
    ensures n in f.up && p == f.up[n] && p in f.kids && Ancestor(f, p, d - 1) == Ancestor(f, n, d) && vals[p].Element?
    ensures PlaceOf(f, r, vals, n, d) == Below(vals[p].name, [], PlaceOf(f, r, vals, p, d - 1))
  {
    p := f.up[n];
  }
}
