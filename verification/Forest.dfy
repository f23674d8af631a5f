/** Ordered forests over a type of node identities: the abstract state behind the linked nodes.
    A forest gives every node its children in order, and every node that has one its parent. Neighbours are
    computed from positions, so that inserting and removing can be related to the links. */
module Forests {
  import opened CStrings

  // ---- duplicate-free sequences and their neighbours ----

  ghost predicate NoDup<T>(s: seq<T>) {
    forall i, j | 0 <= i < j < |s| :: s[i] != s[j]
  }

  function IndexOf<T(==)>(s: seq<T>, x: T): (i: nat)
    ensures i <= |s|
    ensures i < |s| ==> s[i] == x
    ensures i < |s| <==> x in s
    ensures forall j | 0 <= j < i :: s[j] != x
  {
    if s == [] then 0 else if s[0] == x then 0 else
      var i := IndexOf(s[1..], x) + 1;
      assert forall j | 1 <= j < i :: s[j] == s[1..][j - 1];
      i
  }

  function PrevOf<T(==)>(s: seq<T>, x: T): Option<T> {
    var i := IndexOf(s, x);
    if 0 < i < |s| then Some(s[i - 1]) else None
  }

  function NextOf<T(==)>(s: seq<T>, x: T): Option<T> {
    var i := IndexOf(s, x);
    if i + 1 < |s| then Some(s[i + 1]) else None
  }

  function First<T>(s: seq<T>): Option<T> {
    if s == [] then None else Some(s[0])
  }

  function Last<T>(s: seq<T>): Option<T> {
    if s == [] then None else Some(s[|s| - 1])
  }

  function InsertAt<T>(s: seq<T>, i: nat, x: T): (r: seq<T>)
    requires i <= |s|
    ensures |r| == |s| + 1 && r[i] == x
    ensures forall j | 0 <= j < i :: r[j] == s[j]
    ensures forall j | i <= j < |s| :: r[j + 1] == s[j]
  {
    s[..i] + [x] + s[i..]
  }

  function RemoveAt<T>(s: seq<T>, i: nat): (r: seq<T>)
    requires i < |s|
    ensures |r| == |s| - 1
    ensures forall j | 0 <= j < i :: r[j] == s[j]
    ensures forall j | i < j < |s| :: r[j - 1] == s[j]
  {
    s[..i] + s[i + 1..]
  }

  lemma IndexOfUnique<T>(s: seq<T>, i: nat)
    requires NoDup(s) && i < |s|
    ensures IndexOf(s, s[i]) == i
  {
  }

  lemma NeighboursAt<T>(s: seq<T>, i: nat)
    requires NoDup(s) && i < |s|
    ensures PrevOf(s, s[i]) == if i > 0 then Some(s[i - 1]) else None
    ensures NextOf(s, s[i]) == if i + 1 < |s| then Some(s[i + 1]) else None
  {
    IndexOfUnique(s, i);
  }

  /** Where an element of s is found after x has been put at position i. */
  function Shifted(j: nat, i: nat): nat {
    if j < i then j else j + 1
  }

  lemma InsertNoDup<T>(s: seq<T>, i: nat, x: T)
    requires NoDup(s) && i <= |s| && x !in s
    ensures NoDup(InsertAt(s, i, x))
  {
    var r := InsertAt(s, i, x);
    forall j, k | 0 <= j < k < |r| ensures r[j] != r[k] {
      assert j < i ==> r[j] == s[j];
      assert j > i ==> r[j] == s[j - 1];
      assert k < i ==> r[k] == s[k];
      assert k > i ==> r[k] == s[k - 1];
    }
  }

  lemma InsertMembers<T>(s: seq<T>, i: nat, x: T, m: T)
    requires i <= |s|
    ensures m in InsertAt(s, i, x) <==> m == x || m in s
  {
    var r := InsertAt(s, i, x);
    if m in s {
      assert r[Shifted(IndexOf(s, m), i)] == m;
    }
    if m in r {
      var j := IndexOf(r, m);
      assert j < i ==> s[j] == m;
      assert j > i ==> s[j - 1] == m;
    }
  }

  /** The neighbours when r is s with x put at position i, in terms of positions alone. */
  lemma InsertedAt<T>(s: seq<T>, r: seq<T>, i: nat, x: T, j: nat)
    requires NoDup(s) && NoDup(r) && i <= |s| && j < |s| && |r| == |s| + 1 && r[i] == x && x !in s
    requires forall k | 0 <= k < |s| :: r[Shifted(k, i)] == s[k]
    ensures PrevOf(r, s[j]) == if j == i then Some(x) else PrevOf(s, s[j])
    ensures NextOf(r, s[j]) == if j + 1 == i then Some(x) else NextOf(s, s[j])
  {
    NeighboursAt(s, j);
    NeighboursAt(r, Shifted(j, i));
    assert j > 0 ==> r[Shifted(j - 1, i)] == s[j - 1];
    assert j + 1 < |s| ==> r[Shifted(j + 1, i)] == s[j + 1];
  }

  /** Inserting x before position i: x sits between its two neighbours, and nothing else moves. */
  lemma InsertPrev<T>(s: seq<T>, i: nat, x: T, m: T)
    requires NoDup(s) && i <= |s| && x !in s && (m == x || m in s)
    ensures PrevOf(InsertAt(s, i, x), m) ==
              if m == x then (if i > 0 then Some(s[i - 1]) else None)
              else if i < |s| && m == s[i] then Some(x) else PrevOf(s, m)
  {
    var r := InsertAt(s, i, x);
    InsertNoDup(s, i, x);
    if m == x {
      NeighboursAt(r, i);
    } else {
      InsertedAt(s, r, i, x, IndexOf(s, m));
    }
  }

  lemma InsertNext<T>(s: seq<T>, i: nat, x: T, m: T)
    requires NoDup(s) && i <= |s| && x !in s && (m == x || m in s)
    ensures NextOf(InsertAt(s, i, x), m) ==
              if m == x then (if i < |s| then Some(s[i]) else None)
              else if i > 0 && m == s[i - 1] then Some(x) else NextOf(s, m)
  {
    var r := InsertAt(s, i, x);
    InsertNoDup(s, i, x);
    if m == x {
      NeighboursAt(r, i);
    } else {
      InsertedAt(s, r, i, x, IndexOf(s, m));
    }
  }

  /** Where an element of s other than s[i] is found after s[i] has been taken out. */
  function Closed(j: nat, i: nat): int {
    if j < i then j else j - 1
  }

  lemma RemoveNoDup<T>(s: seq<T>, i: nat)
    requires NoDup(s) && i < |s|
    ensures NoDup(RemoveAt(s, i))
  {
    var r := RemoveAt(s, i);
    forall j, k | 0 <= j < k < |r| ensures r[j] != r[k] {
      assert r[j] == s[Shifted(j, i)] && r[k] == s[Shifted(k, i)];
    }
  }

  lemma RemovedStays<T>(s: seq<T>, i: nat, j: nat)
    requires i < |s| && j < |s| && j != i
    ensures s[j] in RemoveAt(s, i)
  {
    assert RemoveAt(s, i)[Closed(j, i)] == s[j];
  }

  lemma RemovedWas<T>(s: seq<T>, i: nat, j: nat)
    requires NoDup(s) && i < |s| && j < |s| - 1
    ensures RemoveAt(s, i)[j] in s && RemoveAt(s, i)[j] != s[i]
  {
    assert RemoveAt(s, i)[j] == s[Shifted(j, i)];
  }

  lemma RemoveMembers<T>(s: seq<T>, i: nat, m: T)
    requires NoDup(s) && i < |s|
    ensures m in RemoveAt(s, i) <==> m != s[i] && m in s
  {
    if m in s && m != s[i] {
      RemovedStays(s, i, IndexOf(s, m));
    }
    if m in RemoveAt(s, i) {
      RemovedWas(s, i, IndexOf(RemoveAt(s, i), m));
    }
  }

  /** The neighbours when r is s without its element at position i, in terms of positions alone. */
  lemma RemovedAt<T>(s: seq<T>, r: seq<T>, i: nat, j: nat)
    requires NoDup(s) && NoDup(r) && i < |s| && j < |s| && j != i && |r| == |s| - 1
    requires forall k | 0 <= k < |s| && k != i :: r[Closed(k, i)] == s[k]
    ensures PrevOf(r, s[j]) == if j == i + 1 then PrevOf(s, s[i]) else PrevOf(s, s[j])
    ensures NextOf(r, s[j]) == if j + 1 == i then NextOf(s, s[i]) else NextOf(s, s[j])
  {
    NeighboursAt(s, j);
    NeighboursAt(s, i);
    NeighboursAt(r, Closed(j, i));
    assert j > 0 && j != i + 1 ==> r[Closed(j - 1, i)] == s[j - 1];
    assert j == i + 1 && i > 0 ==> r[Closed(i - 1, i)] == s[i - 1];
    assert j + 1 < |s| && j + 1 != i ==> r[Closed(j + 1, i)] == s[j + 1];
    assert j + 1 == i && i + 1 < |s| ==> r[Closed(i + 1, i)] == s[i + 1];
  }

  /** Removing the element at position i: its two neighbours become neighbours, nothing else moves. */
  lemma RemoveNeighbours<T>(s: seq<T>, i: nat, m: T)
    requires NoDup(s) && i < |s| && m in s && m != s[i]
    ensures PrevOf(RemoveAt(s, i), m) == (if PrevOf(s, m) == Some(s[i]) then PrevOf(s, s[i]) else PrevOf(s, m))
    ensures NextOf(RemoveAt(s, i), m) == (if NextOf(s, m) == Some(s[i]) then NextOf(s, s[i]) else NextOf(s, m))
  {
    var j := IndexOf(s, m);
    RemoveNoDup(s, i);
    NeighboursAt(s, j);
    RemovedAt(s, RemoveAt(s, i), i, j);
  }

  // ---- forests ----

  /** The ordered children of every node, and the parent of every node that has one. */
  datatype Forest<T> = Forest(kids: map<T, seq<T>>, up: map<T, T>)

  /** Children lists and parents agree, and no node is a child twice. */
  ghost predicate Links<T>(f: Forest<T>) {
    && (forall n, c | n in f.kids && c in f.kids[n] :: c in f.kids && c in f.up && f.up[c] == n)
    && (forall n | n in f.kids :: NoDup(f.kids[n]))
    && (forall c | c in f.up :: c in f.kids && f.up[c] in f.kids && c in f.kids[f.up[c]])
  }

  /** There are no cycles: r grows towards the roots. */
  ghost predicate Ranked<T>(f: Forest<T>, r: map<T, nat>) {
    r.Keys == f.kids.Keys && forall c | c in f.up :: f.up[c] in r && c in r && r[c] < r[f.up[c]]
  }

  function Prev<T(==)>(f: Forest<T>, n: T): Option<T> {
    if n in f.up && f.up[n] in f.kids then PrevOf(f.kids[f.up[n]], n) else None
  }

  function Next<T(==)>(f: Forest<T>, n: T): Option<T> {
    if n in f.up && f.up[n] in f.kids then NextOf(f.kids[f.up[n]], n) else None
  }

  function Parent<T(==)>(f: Forest<T>, n: T): Option<T> {
    if n in f.up then Some(f.up[n]) else None
  }

  /** The k-th ancestor. */
  function Ancestor<T(==)>(f: Forest<T>, n: T, k: nat): Option<T>
    decreases k
  {
    if k == 0 then Some(n) else if n in f.up then Ancestor(f, f.up[n], k - 1) else None
  }

  /** n is a or a descendant of a. */
  ghost predicate Under<T>(f: Forest<T>, n: T, a: T) {
    exists k: nat :: Ancestor(f, n, k) == Some(a)
  }

  /** n without its parent. */
  function Detach<T(==)>(f: Forest<T>, n: T): Forest<T>
    requires n in f.up ==> f.up[n] in f.kids && n in f.kids[f.up[n]]
  {
    if n in f.up then
      var s := f.kids[f.up[n]];
      Forest(f.kids[f.up[n] := RemoveAt(s, IndexOf(s, n))], f.up - {n})
    else f
  }

  /** A parentless n as the i-th child of p. */
  function Attach<T(==)>(f: Forest<T>, p: T, i: nat, n: T): Forest<T>
    requires p in f.kids && i <= |f.kids[p]|
  {
    Forest(f.kids[p := InsertAt(f.kids[p], i, n)], f.up[n := p])
  }

  /** A new node, parentless and childless. */
  function Grow<T(==)>(f: Forest<T>, n: T): Forest<T> {
    Forest(f.kids[n := []], f.up)
  }

  lemma DetachLinks<T>(f: Forest<T>, n: T)
    requires Links(f)
    ensures Links(Detach(f, n)) && Detach(f, n).kids.Keys == f.kids.Keys
    ensures n !in Detach(f, n).up
  {
    if n in f.up {
      var s, g := f.kids[f.up[n]], Detach(f, n);
      var i := IndexOf(s, n);
      RemoveNoDup(s, i);
      forall m, c | m in g.kids && c in g.kids[m] ensures c in g.kids && c in g.up && g.up[c] == m {
        RemoveMembers(s, i, c);
        assert c in f.kids[m];
      }
      forall c | c in g.up ensures c in g.kids && g.up[c] in g.kids && c in g.kids[g.up[c]] {
        RemoveMembers(s, i, c);
      }
    }
  }

  lemma AttachLinks<T>(f: Forest<T>, p: T, i: nat, n: T)
    requires Links(f) && p in f.kids && i <= |f.kids[p]| && n in f.kids && n !in f.up
    ensures Links(Attach(f, p, i, n)) && Attach(f, p, i, n).kids.Keys == f.kids.Keys
  {
    var s, g := f.kids[p], Attach(f, p, i, n);
    assert n !in s;
    InsertNoDup(s, i, n);
    forall m, c | m in g.kids && c in g.kids[m] ensures c in g.kids && c in g.up && g.up[c] == m {
      InsertMembers(s, i, n, c);
      assert m != p ==> c in f.kids[m];
    }
    forall c | c in g.up ensures c in g.kids && g.up[c] in g.kids && c in g.kids[g.up[c]] {
      InsertMembers(s, i, n, c);
    }
  }

  lemma {:induction false} AncestorUp<T>(f: Forest<T>, n: T, k: nat)
    requires Ancestor(f, n, k).Some? && Ancestor(f, n, k).value in f.up
    ensures Ancestor(f, n, k + 1) == Some(f.up[Ancestor(f, n, k).value])
    decreases k
  {
    if k > 0 {
      AncestorUp(f, f.up[n], k - 1);
    }
  }

  lemma UnderUp<T>(f: Forest<T>, n: T, a: T)
    requires Under(f, n, a) && a in f.up
    ensures Under(f, n, f.up[a])
  {
    var k: nat :| Ancestor(f, n, k) == Some(a);
    AncestorUp(f, n, k);
  }

  lemma {:induction false} AncestorRank<T>(f: Forest<T>, r: map<T, nat>, n: T, k: nat)
    requires Ranked(f, r) && n in r && Ancestor(f, n, k).Some?
    ensures Ancestor(f, n, k).value in r && r[n] <= r[Ancestor(f, n, k).value]
    ensures k > 0 ==> r[n] < r[Ancestor(f, n, k).value]
    decreases k
  {
    if k > 0 {
      AncestorRank(f, r, f.up[n], k - 1);
    }
  }

  lemma DetachRanked<T>(f: Forest<T>, r: map<T, nat>, n: T)
    requires Links(f) && Ranked(f, r)
    ensures Ranked(Detach(f, n), r)
  {
    DetachLinks(f, n);
  }

  /** A node may go below p when p is not at or below it. */
  lemma AttachRanked<T>(f: Forest<T>, r: map<T, nat>, p: T, i: nat, n: T) returns (q: map<T, nat>)
    requires Links(f) && Ranked(f, r) && p in f.kids && i <= |f.kids[p]| && n in f.kids && n !in f.up
    requires !Under(f, p, n)
    ensures Ranked(Attach(f, p, i, n), q)
  {
    var g := Attach(f, p, i, n);
    q := map m | m in r :: if Under(f, p, m) then r[m] + r[n] + 1 else r[m];
    assert Ancestor(f, p, 0) == Some(p);
    assert Under(f, p, p);
    AttachLinks(f, p, i, n);
    forall c | c in g.up ensures q[c] < q[g.up[c]] {
      if c != n && Under(f, p, c) {
        UnderUp(f, p, c);
      }
    }
  }

  lemma {:induction false} AttachAncestor<T>(f: Forest<T>, p: T, i: nat, n: T, m: T, k: nat)
    requires p in f.kids && i <= |f.kids[p]| && n !in f.up && Ancestor(f, m, k) == Some(n)
    ensures Ancestor(Attach(f, p, i, n), m, k) == Some(n)
    decreases k
  {
    if k > 0 {
      AttachAncestor(f, p, i, n, f.up[m], k - 1);
    }
  }

  /** Below itself or one of its descendants a node may not go: the result has a cycle. */
  lemma AttachCycle<T>(f: Forest<T>, p: T, i: nat, n: T, q: map<T, nat>)
    requires Links(f) && p in f.kids && i <= |f.kids[p]| && n in f.kids && n !in f.up
    requires Under(f, p, n)
    ensures !Ranked(Attach(f, p, i, n), q)
  {
    var g := Attach(f, p, i, n);
    var k: nat :| Ancestor(f, p, k) == Some(n);
    AttachAncestor(f, p, i, n, p, k);
    assert n in g.up && g.up[n] == p;
    if Ranked(g, q) {
      AncestorRank(g, q, p, k);
    }
  }

  lemma {:induction false} DetachAncestor<T>(f: Forest<T>, n: T, m: T, k: nat)
    requires Links(f) && Ancestor(f, m, k) == Some(n)
    ensures Under(Detach(f, n), m, n)
    decreases k
  {
    var g := Detach(f, n);
    if m == n {
      assert Ancestor(g, m, 0) == Some(n);
    } else {
      DetachAncestor(f, n, f.up[m], k - 1);
      var j: nat :| Ancestor(g, f.up[m], j) == Some(n);
      assert Ancestor(g, m, j + 1) == Some(n);
    }
  }

  lemma {:induction false} DetachAncestorBack<T>(f: Forest<T>, n: T, m: T, k: nat)
    requires Links(f) && Ancestor(Detach(f, n), m, k) == Some(n)
    ensures Ancestor(f, m, k) == Some(n)
    decreases k
  {
    if k > 0 {
      DetachAncestorBack(f, n, f.up[m], k - 1);
    }
  }

  /** Taking n from its parent does not change what lies below n. */
  lemma DetachUnder<T>(f: Forest<T>, n: T, m: T)
    requires Links(f)
    ensures Under(Detach(f, n), m, n) <==> Under(f, m, n)
  {
    DetachLinks(f, n);
    var g := Detach(f, n);
    if Under(f, m, n) {
      var k: nat :| Ancestor(f, m, k) == Some(n);
      DetachAncestor(f, n, m, k);
    }
    if Under(g, m, n) {
      var k: nat :| Ancestor(g, m, k) == Some(n);
      DetachAncestorBack(f, n, m, k);
    }
  }

  // ---- what the operations do to the links of a single node ----

  lemma DetachAt<T>(f: Forest<T>, n: T, m: T)
    requires Links(f) && n in f.up && m in f.kids
    ensures var g := Detach(f, n);
      && Prev(g, m) == (if m == n then None else if Prev(f, m) == Some(n) then Prev(f, n) else Prev(f, m))
      && Next(g, m) == (if m == n then None else if Next(f, m) == Some(n) then Next(f, n) else Next(f, m))
  {
    var p := f.up[n];
    var s := f.kids[p];
    if m != n && m in f.up && f.up[m] == p {
      RemoveNeighbours(s, IndexOf(s, n), m);
    }
  }

  lemma DetachEnds<T>(f: Forest<T>, n: T)
    requires Links(f) && n in f.up
    ensures First(Detach(f, n).kids[f.up[n]]) == (if Prev(f, n).None? then Next(f, n) else First(f.kids[f.up[n]]))
    ensures Last(Detach(f, n).kids[f.up[n]]) == (if Next(f, n).None? then Prev(f, n) else Last(f.kids[f.up[n]]))
  {
  }

  lemma AttachAt<T>(f: Forest<T>, p: T, i: nat, n: T, m: T)
    requires Links(f) && p in f.kids && i <= |f.kids[p]| && n in f.kids && n !in f.up && m in f.kids
    ensures var g, s := Attach(f, p, i, n), f.kids[p];
      && Prev(g, m) == (if m == n then (if i > 0 then Some(s[i - 1]) else None)
                        else if i < |s| && m == s[i] then Some(n) else Prev(f, m))
      && Next(g, m) == (if m == n then (if i < |s| then Some(s[i]) else None)
                        else if i > 0 && m == s[i - 1] then Some(n) else Next(f, m))
  {
    var s := f.kids[p];
    assert n !in s;
    if m == n || m in s {
      InsertPrev(s, i, n, m);
      InsertNext(s, i, n, m);
    }
  }

  lemma AttachEnds<T>(f: Forest<T>, p: T, i: nat, n: T)
    requires Links(f) && p in f.kids && i <= |f.kids[p]|
    ensures First(Attach(f, p, i, n).kids[p]) == (if i == 0 then Some(n) else First(f.kids[p]))
    ensures Last(Attach(f, p, i, n).kids[p]) == (if i == |f.kids[p]| then Some(n) else Last(f.kids[p]))
  {
  }

  /** Neighbours are siblings, different from the node, and mirror each other. */
  lemma NeighboursIn<T>(f: Forest<T>, n: T)
    requires Links(f) && n in f.up
    ensures Prev(f, n).Some? ==>
      Prev(f, n).value in f.up && Prev(f, n).value != n && f.up[Prev(f, n).value] == f.up[n]
    ensures Next(f, n).Some? ==>
      Next(f, n).value in f.up && Next(f, n).value != n && f.up[Next(f, n).value] == f.up[n]
  {
    var s := f.kids[f.up[n]];
    var i := IndexOf(s, n);
    assert i > 0 ==> s[i - 1] in s;
    assert i + 1 < |s| ==> s[i + 1] in s;
  }

  lemma Mirror<T>(s: seq<T>, i: nat, j: nat)
    requires NoDup(s) && i < |s| && j < |s|
    ensures PrevOf(s, s[j]) == Some(s[i]) <==> NextOf(s, s[i]) == Some(s[j])
  {
    NeighboursAt(s, i);
    NeighboursAt(s, j);
  }

  /** The neighbours of a node have its parent. */
  lemma Strangers<T>(f: Forest<T>, n: T, m: T)
    requires Links(f) && n in f.up && m in f.kids && (m in f.up ==> f.up[m] != f.up[n])
    ensures Prev(f, n) != Some(m) && Next(f, n) != Some(m)
  {
    var s := f.kids[f.up[n]];
    var i := IndexOf(s, n);
    assert i > 0 ==> s[i - 1] in s;
    assert i + 1 < |s| ==> s[i + 1] in s;
  }

  lemma NeighboursMirror<T>(f: Forest<T>, n: T, m: T)
    requires Links(f) && n in f.up && m in f.kids
    ensures Prev(f, m) == Some(n) <==> Next(f, n) == Some(m)
    ensures Next(f, m) == Some(n) <==> Prev(f, n) == Some(m)
  {
    var s := f.kids[f.up[n]];
    if m in f.up && f.up[m] == f.up[n] {
      Mirror(s, IndexOf(s, n), IndexOf(s, m));
      Mirror(s, IndexOf(s, m), IndexOf(s, n));
    } else {
      Strangers(f, n, m);
      if m in f.up {
        Strangers(f, m, n);
      }
    }
  }
}
