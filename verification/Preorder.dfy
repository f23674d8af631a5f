/** Document order on a forest, and what lies before and after a node in it. */
module Preorder {
  import opened CStrings
  import opened Forests

  ghost predicate Ordered<T>(f: Forest<T>, r: map<T, nat>) {
    Links(f) && Ranked(f, r)
  }

  lemma KidRank<T>(f: Forest<T>, r: map<T, nat>, n: T, i: nat)
    requires Ordered(f, r) && n in f.kids && i < |f.kids[n]|
    ensures var c := f.kids[n][i]; c in f.kids && c in f.up && f.up[c] == n && r[c] < r[n] && IndexOf(f.kids[n], c) == i
  {
    assert f.kids[n][i] in f.kids[n];
    IndexOfUnique(f.kids[n], i);
  }

  /** The subtrees of the children of n from the i-th on. */
  ghost function PreFrom<T>(f: Forest<T>, r: map<T, nat>, n: T, i: nat): seq<T>
    requires Ordered(f, r) && n in f.kids && i <= |f.kids[n]|
    decreases r[n], |f.kids[n]| - i
  {
    if i == |f.kids[n]| then []
    else
      KidRank(f, r, n, i);
      Pre(f, r, f.kids[n][i]) + PreFrom(f, r, n, i + 1)
  }

  /** A node and everything below it, in document order. */
  ghost function Pre<T>(f: Forest<T>, r: map<T, nat>, n: T): seq<T>
    requires Ordered(f, r) && n in f.kids
    decreases r[n], |f.kids[n]| + 1
  {
    [n] + PreFrom(f, r, n, 0)
  }

  /** The subtrees of the first i children of n. */
  ghost function PreTo<T>(f: Forest<T>, r: map<T, nat>, n: T, i: nat): seq<T>
    requires Ordered(f, r) && n in f.kids && i <= |f.kids[n]|
    decreases i
  {
    if i == 0 then []
    else
      KidRank(f, r, n, i - 1);
      PreTo(f, r, n, i - 1) + Pre(f, r, f.kids[n][i - 1])
  }

  /** What follows the subtree of n inside the subtree of its d-th ancestor. */
  ghost function After<T>(f: Forest<T>, r: map<T, nat>, n: T, d: nat): seq<T>
    requires Ordered(f, r) && n in f.kids && Ancestor(f, n, d).Some?
    decreases d
  {
    if d == 0 then []
    else
      var p := f.up[n];
      PreFrom(f, r, p, IndexOf(f.kids[p], n) + 1) + After(f, r, p, d - 1)
  }

  /** What follows n itself. */
  ghost function Rest<T>(f: Forest<T>, r: map<T, nat>, n: T, d: nat): seq<T>
    requires Ordered(f, r) && n in f.kids && Ancestor(f, n, d).Some?
  {
    PreFrom(f, r, n, 0) + After(f, r, n, d)
  }

  /** What precedes n, from the d-th ancestor on. */
  ghost function Front<T>(f: Forest<T>, r: map<T, nat>, n: T, d: nat): seq<T>
    requires Ordered(f, r) && n in f.kids && Ancestor(f, n, d).Some?
    decreases d
  {
    if d == 0 then []
    else
      var p := f.up[n];
      Front(f, r, p, d - 1) + [p] + PreTo(f, r, p, IndexOf(f.kids[p], n))
  }

  lemma {:induction false} PreSplit<T>(f: Forest<T>, r: map<T, nat>, n: T, i: nat)
    requires Ordered(f, r) && n in f.kids && i <= |f.kids[n]|
    ensures PreTo(f, r, n, i) + PreFrom(f, r, n, i) == PreFrom(f, r, n, 0)
    decreases i
  {
    if i > 0 {
      PreSplit(f, r, n, i - 1);
      KidRank(f, r, n, i - 1);
    }
  }

  lemma FrontStep<T>(front: seq<T>, p: T, to: seq<T>, n: T, below: seq<T>, from: seq<T>, after: seq<T>, all: seq<T>)
    requires to + ([n] + below + from) == all
    ensures front + [p] + to + [n] + (below + (from + after)) == front + [p] + (all + after)
  {
  }

  /** Front, the node and the rest make up the whole subtree of the ancestor. */
  lemma {:induction false} FrontRest<T>(f: Forest<T>, r: map<T, nat>, n: T, d: nat)
    requires Ordered(f, r) && n in f.kids && Ancestor(f, n, d).Some?
    ensures Ancestor(f, n, d).value in f.kids
    ensures Front(f, r, n, d) + [n] + Rest(f, r, n, d) == Pre(f, r, Ancestor(f, n, d).value)
    decreases d
  {
    if d > 0 {
      var p := f.up[n];
      var i := IndexOf(f.kids[p], n);
      FrontRest(f, r, p, d - 1);
      PreSplit(f, r, p, i);
      KidRank(f, r, p, i);
      FrontStep(Front(f, r, p, d - 1), p, PreTo(f, r, p, i), n, PreFrom(f, r, n, 0), PreFrom(f, r, p, i + 1),
                After(f, r, p, d - 1), PreFrom(f, r, p, 0));
    }
  }

  lemma Regroup<T>(c: T, below: seq<T>, from: seq<T>, after: seq<T>)
    ensures [c] + below + from + after == [c] + (below + (from + after))
  {
  }

  /** The first child comes next, with everything else after it. */
  lemma RestChild<T>(f: Forest<T>, r: map<T, nat>, n: T, d: nat)
    requires Ordered(f, r) && n in f.kids && Ancestor(f, n, d).Some? && f.kids[n] != []
    ensures var c := f.kids[n][0];
      && c in f.kids && Ancestor(f, c, d + 1) == Ancestor(f, n, d)
      && Rest(f, r, n, d) == [c] + Rest(f, r, c, d + 1)
  {
    KidRank(f, r, n, 0);
    var c := f.kids[n][0];
    assert PreFrom(f, r, n, 0) == [c] + PreFrom(f, r, c, 0) + PreFrom(f, r, n, 1);
    assert After(f, r, c, d + 1) == PreFrom(f, r, n, 1) + After(f, r, n, d);
    Regroup(c, PreFrom(f, r, c, 0), PreFrom(f, r, n, 1), After(f, r, n, d));
  }

  /** Without children the rest is what follows the subtree. */
  lemma RestLeaf<T>(f: Forest<T>, r: map<T, nat>, n: T, d: nat)
    requires Ordered(f, r) && n in f.kids && Ancestor(f, n, d).Some? && f.kids[n] == []
    ensures Rest(f, r, n, d) == After(f, r, n, d)
  {
  }

  /** A following sibling comes next after the subtree. */
  lemma AfterNext<T>(f: Forest<T>, r: map<T, nat>, n: T, d: nat)
    requires Ordered(f, r) && n in f.kids && Ancestor(f, n, d).Some? && d > 0 && Next(f, n).Some?
    ensures var s := Next(f, n).value;
      && s in f.kids && Ancestor(f, s, d) == Ancestor(f, n, d)
      && After(f, r, n, d) == [s] + Rest(f, r, s, d)
  {
    var p := f.up[n];
    var i := IndexOf(f.kids[p], n);
    KidRank(f, r, p, i + 1);
    var s := f.kids[p][i + 1];
    Regroup(s, PreFrom(f, r, s, 0), PreFrom(f, r, p, i + 2), After(f, r, p, d - 1));
    assert PreFrom(f, r, p, i + 1) == [s] + PreFrom(f, r, s, 0) + PreFrom(f, r, p, i + 2);
    assert After(f, r, s, d) == PreFrom(f, r, p, i + 2) + After(f, r, p, d - 1);
  }

  /** Without a following sibling what follows the parent's subtree comes next. */
  lemma AfterLast<T>(f: Forest<T>, r: map<T, nat>, n: T, d: nat)
    requires Ordered(f, r) && n in f.kids && Ancestor(f, n, d).Some? && d > 0 && Next(f, n).None?
    ensures f.up[n] in f.kids && Ancestor(f, f.up[n], d - 1) == Ancestor(f, n, d)
    ensures After(f, r, n, d) == After(f, r, f.up[n], d - 1)
  {
  }

  // ---- the members of a subtree ----

  lemma UnderSelf<T>(f: Forest<T>, n: T)
    ensures Under(f, n, n)
  {
    assert Ancestor(f, n, 0) == Some(n);
  }

  lemma {:induction false} AncestorBefore<T>(f: Forest<T>, m: T, k: nat)
    requires k > 0 && Ancestor(f, m, k).Some?
    ensures Ancestor(f, m, k - 1).Some? && Ancestor(f, m, k - 1).value in f.up
    ensures f.up[Ancestor(f, m, k - 1).value] == Ancestor(f, m, k).value
    decreases k
  {
    if k > 1 {
      AncestorBefore(f, f.up[m], k - 1);
    }
  }

  lemma UnderKid<T>(f: Forest<T>, r: map<T, nat>, m: T, n: T)
    requires Ordered(f, r) && n in f.kids && m != n && Under(f, m, n)
    ensures exists i | 0 <= i < |f.kids[n]| :: Under(f, m, f.kids[n][i])
  {
    var k: nat :| Ancestor(f, m, k) == Some(n);
    assert k > 0;
    AncestorBefore(f, m, k);
    var c := Ancestor(f, m, k - 1).value;
    assert Under(f, m, c);
    assert f.kids[n][IndexOf(f.kids[n], c)] == c;
  }

  lemma {:induction false} PreFromMembers<T>(f: Forest<T>, r: map<T, nat>, n: T, i: nat, m: T)
    requires Ordered(f, r) && n in f.kids && i <= |f.kids[n]|
    ensures m in PreFrom(f, r, n, i) <==> exists j | i <= j < |f.kids[n]| :: Under(f, m, f.kids[n][j])
    decreases r[n], |f.kids[n]| - i
  {
    if i < |f.kids[n]| {
      KidRank(f, r, n, i);
      PreMembers(f, r, f.kids[n][i], m);
      PreFromMembers(f, r, n, i + 1, m);
    }
  }

  /** The document order of n lists exactly the nodes at or below n. */
  lemma {:induction false} PreMembers<T>(f: Forest<T>, r: map<T, nat>, n: T, m: T)
    requires Ordered(f, r) && n in f.kids
    ensures m in Pre(f, r, n) <==> Under(f, m, n)
    decreases r[n], |f.kids[n]| + 1
  {
    UnderSelf(f, n);
    PreFromMembers(f, r, n, 0, m);
    if m != n && Under(f, m, n) {
      UnderKid(f, r, m, n);
    }
    if i :| 0 <= i < |f.kids[n]| && Under(f, m, f.kids[n][i]) {
      KidRank(f, r, n, i);
      UnderUp(f, m, f.kids[n][i]);
    }
  }

  lemma {:induction false} AncestorUnique<T>(f: Forest<T>, r: map<T, nat>, m: T, k: nat, j: nat)
    requires Ordered(f, r) && m in f.kids && k < j && Ancestor(f, m, k).Some? && Ancestor(f, m, j).Some?
    ensures Ancestor(f, m, k).value in r && Ancestor(f, m, j).value in r
    ensures r[Ancestor(f, m, k).value] < r[Ancestor(f, m, j).value]
    ensures Ancestor(f, m, k).value in f.up && f.up[Ancestor(f, m, k).value] in r
    ensures r[f.up[Ancestor(f, m, k).value]] <= r[Ancestor(f, m, j).value]
    decreases k
  {
    if k == 0 {
      AncestorRank(f, r, f.up[m], j - 1);
    } else {
      AncestorUnique(f, r, f.up[m], k - 1, j - 1);
    }
  }

  /** No node lies below two siblings. */
  lemma SiblingsDisjoint<T>(f: Forest<T>, r: map<T, nat>, m: T, a: T, b: T)
    requires Ordered(f, r) && m in f.kids && a in f.up && b in f.up && f.up[a] == f.up[b] && a != b
    requires Under(f, m, a)
    ensures !Under(f, m, b)
  {
    var k: nat :| Ancestor(f, m, k) == Some(a);
    if Under(f, m, b) {
      var j: nat :| Ancestor(f, m, j) == Some(b);
      if k < j {
        AncestorUnique(f, r, m, k, j);
      } else if j < k {
        AncestorUnique(f, r, m, j, k);
      }
    }
  }

  lemma NoDupJoin<T>(a: seq<T>, b: seq<T>)
    requires NoDup(a) && NoDup(b) && forall x | x in a :: x !in b
    ensures NoDup(a + b)
  {
    forall i, j | 0 <= i < j < |a + b| ensures (a + b)[i] != (a + b)[j] {
      if i < |a| <= j {
        assert a[i] in a && b[j - |a|] in b;
      }
    }
  }

  lemma UnderIn<T>(f: Forest<T>, m: T, a: T)
    requires Links(f) && a in f.kids && Under(f, m, a)
    ensures m in f.kids
  {
    var k: nat :| Ancestor(f, m, k) == Some(a);
  }

  lemma {:induction false} PreFromNoDup<T>(f: Forest<T>, r: map<T, nat>, n: T, i: nat)
    requires Ordered(f, r) && n in f.kids && i <= |f.kids[n]|
    ensures NoDup(PreFrom(f, r, n, i))
    decreases r[n], |f.kids[n]| - i
  {
    if i < |f.kids[n]| {
      var c := f.kids[n][i];
      KidRank(f, r, n, i);
      PreNoDup(f, r, c);
      PreFromNoDup(f, r, n, i + 1);
      forall m | m in Pre(f, r, c) ensures m !in PreFrom(f, r, n, i + 1) {
        PreMembers(f, r, c, m);
        PreFromMembers(f, r, n, i + 1, m);
        if j :| i + 1 <= j < |f.kids[n]| && Under(f, m, f.kids[n][j]) {
          KidRank(f, r, n, j);
          UnderIn(f, m, c);
          SiblingsDisjoint(f, r, m, c, f.kids[n][j]);
        }
      }
      NoDupJoin(Pre(f, r, c), PreFrom(f, r, n, i + 1));
    }
  }

  /** Document order lists no node twice. */
  lemma {:induction false} PreNoDup<T>(f: Forest<T>, r: map<T, nat>, n: T)
    requires Ordered(f, r) && n in f.kids
    ensures NoDup(Pre(f, r, n))
    decreases r[n], |f.kids[n]| + 1
  {
    PreFromNoDup(f, r, n, 0);
    if n in PreFrom(f, r, n, 0) {
      PreFromMembers(f, r, n, 0, n);
      var j :| 0 <= j < |f.kids[n]| && Under(f, n, f.kids[n][j]);
      KidRank(f, r, n, j);
      var k: nat :| Ancestor(f, n, k) == Some(f.kids[n][j]);
      AncestorRank(f, r, n, k);
    }
    NoDupJoin([n], PreFrom(f, r, n, 0));
  }

  // ---- the node before ----

  lemma AppendLast<T>(a: seq<T>, b: seq<T>, c: seq<T>)
    ensures a + (b + c) == a + b + c
  {
  }

  /** After the preceding sibling's subtree comes the node. */
  lemma FrontPrev<T>(f: Forest<T>, r: map<T, nat>, n: T, d: nat)
    requires Ordered(f, r) && n in f.kids && Ancestor(f, n, d).Some? && d > 0 && Prev(f, n).Some?
    ensures var s := Prev(f, n).value;
      && s in f.kids && Ancestor(f, s, d) == Ancestor(f, n, d)
      && Front(f, r, n, d) == Front(f, r, s, d) + Pre(f, r, s)
  {
    var p := f.up[n];
    var i := IndexOf(f.kids[p], n);
    KidRank(f, r, p, i - 1);
    var s := f.kids[p][i - 1];
    assert Front(f, r, s, d) == Front(f, r, p, d - 1) + [p] + PreTo(f, r, p, i - 1);
    AppendLast(Front(f, r, p, d - 1) + [p], PreTo(f, r, p, i - 1), Pre(f, r, s));
  }

  /** A first child comes right after its parent. */
  lemma FrontFirst<T>(f: Forest<T>, r: map<T, nat>, n: T, d: nat)
    requires Ordered(f, r) && n in f.kids && Ancestor(f, n, d).Some? && d > 0 && Prev(f, n).None?
    ensures f.up[n] in f.kids && Ancestor(f, f.up[n], d - 1) == Ancestor(f, n, d)
    ensures Front(f, r, n, d) == Front(f, r, f.up[n], d - 1) + [f.up[n]]
  {
  }

  lemma PreNonEmpty<T>(f: Forest<T>, r: map<T, nat>, n: T)
    requires Ordered(f, r) && n in f.kids
    ensures |Pre(f, r, n)| > 0 && Pre(f, r, n)[0] == n
  {
  }

  /** The last node of a subtree is the last node of its last child's subtree. */
  lemma PreLast<T>(f: Forest<T>, r: map<T, nat>, n: T)
    requires Ordered(f, r) && n in f.kids && f.kids[n] != []
    ensures Last(f.kids[n]).value in f.kids && r[Last(f.kids[n]).value] < r[n]
    ensures Last(Pre(f, r, n)) == Last(Pre(f, r, Last(f.kids[n]).value))
  {
    var i := |f.kids[n]| - 1;
    KidRank(f, r, n, i);
    PreSplit(f, r, n, i);
    PreNonEmpty(f, r, f.kids[n][i]);
    assert PreFrom(f, r, n, i) == Pre(f, r, f.kids[n][i]) + [];
  }

  lemma CancelTail<T>(a: seq<T>, b: seq<T>, t: seq<T>)
    requires a + t == b + t
    ensures a == b
  {
    assert |a| == |b|;
    assert a == (a + t)[..|a|] && b == (b + t)[..|b|];
  }

  /** Walking back undoes walking on: the node before the next node is the node. */
  lemma FrontOfNext<T>(f: Forest<T>, r: map<T, nat>, n: T, d: nat, m: T, e: nat)
    requires Ordered(f, r) && n in f.kids && m in f.kids
    requires Ancestor(f, n, d).Some? && Ancestor(f, m, e) == Ancestor(f, n, d)
    requires Rest(f, r, n, d) == [m] + Rest(f, r, m, e)
    ensures Front(f, r, m, e) == Front(f, r, n, d) + [n]
  {
    FrontRest(f, r, n, d);
    FrontRest(f, r, m, e);
    var t := Rest(f, r, m, e);
    assert Front(f, r, m, e) + ([m] + t) == Front(f, r, m, e) + [m] + t;
    CancelTail(Front(f, r, m, e), Front(f, r, n, d) + [n], [m] + Rest(f, r, m, e));
  }
}
