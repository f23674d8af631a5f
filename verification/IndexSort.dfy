/** The in-place quicksort of the attribute index. */
module IndexSort {
  // Nodes are compared by element name and then by the value of the indexed attribute.

  import opened CStrings
  import opened Attributes
  import opened MxmlNode

  datatype Key = Key(name: CStr, value: CStr)

  /** The order of the index. */
  function KeyCmp(a: Key, b: Key): (r: int)
    ensures r == 0 <==> a == b
  {
    if StrCmp(a.name, b.name) != 0 then StrCmp(a.name, b.name) else StrCmp(a.value, b.value)
  }

  lemma KeyAntisymmetric(a: Key, b: Key)
    ensures KeyCmp(a, b) == -KeyCmp(b, a)
  {
    StrCmpAntisymmetric(a.name, b.name);
    StrCmpAntisymmetric(a.value, b.value);
  }

  lemma KeyTransitive(a: Key, b: Key, c: Key)
    requires KeyCmp(a, b) <= 0 && KeyCmp(b, c) <= 0
    ensures KeyCmp(a, c) <= 0
    ensures KeyCmp(a, b) < 0 || KeyCmp(b, c) < 0 ==> KeyCmp(a, c) < 0
  {
    StrCmpTransitive(a.name, b.name, c.name);
    if a.name == b.name == c.name {
      StrCmpTransitive(a.value, b.value, c.value);
    }
  }

  /** The comparisons dereference the name, and the attribute when there is one. */
  predicate Indexable(v: Value, attr: Option<CStr>) {
    v.Element? && (attr.Some? ==> GetAttr(v.attrs, attr.value).Some?)
  }

  function KeyOf(v: Value, attr: Option<CStr>): Key
    requires Indexable(v, attr)
  {
    Key(v.name, if attr.Some? then GetAttr(v.attrs, attr.value).value else [])
  }

  /** key gives the keys of its nodes as they are stored in them. */
  ghost predicate Keyed(key: map<Node, Key>, attr: Option<CStr>)
    reads key.Keys
  {
    forall n | n in key :: Indexable(n.value, attr) && KeyOf(n.value, attr) == key[n]
  }

  /** index_compare. */
  method Compare(attr: Option<CStr>, first: Node, second: Node, ghost key: map<Node, Key>) returns (diff: int)
    requires Keyed(key, attr) && first in key && second in key
    ensures diff == KeyCmp(key[first], key[second])
  {
    diff := StrCmp(first.value.name, second.value.name);
    if diff != 0 {
      return;
    }
    if attr.Some? {
      var a := FindAttr(first.value.attrs, attr.value);
      var b := FindAttr(second.value.attrs, attr.value);
      diff := StrCmp(a.value, b.value);
      if diff != 0 {
        return;
      }
    }
    return 0;
  }

  ghost predicate Le(key: map<Node, Key>, x: Node, y: Node)
  {
    x in key && y in key && KeyCmp(key[x], key[y]) <= 0
  }

  ghost predicate Gt(key: map<Node, Key>, x: Node, y: Node)
  {
    x in key && y in key && KeyCmp(key[x], key[y]) > 0
  }

  ghost predicate SortedBy(key: map<Node, Key>, s: seq<Node>) {
    forall i, j | 0 <= i < j < |s| :: Le(key, s[i], s[j])
  }

  /** s and t hold the same nodes and differ only inside left..right. */
  ghost predicate Rearranged(s: seq<Node>, t: seq<Node>, left: nat, right: int) {
    && |s| == |t| && left <= right + 1 <= |s|
    && (forall k | 0 <= k < |s| && !(left <= k <= right) :: t[k] == s[k])
    && multiset(t) == multiset(s)
  }

  lemma CancelMiddle<T>(m: multiset<T>, x: multiset<T>, y: multiset<T>, n: multiset<T>)
    requires m + x + n == m + y + n
    ensures x == y
  {
    assert forall e: T :: (m + x + n)[e] == m[e] + x[e] + n[e];
    assert forall e: T :: (m + y + n)[e] == m[e] + y[e] + n[e];
    assert forall e: T :: x[e] == y[e];
  }

  /** Inside the range they then hold the same nodes. */
  lemma RearrangedSlice(s: seq<Node>, t: seq<Node>, left: nat, right: int)
    requires Rearranged(s, t, left, right)
    ensures multiset(t[left..right + 1]) == multiset(s[left..right + 1])
  {
    var a, b, c := s[..left], s[left..right + 1], s[right + 1..];
    var b' := t[left..right + 1];
    assert s == a + b + c;
    assert t[..left] == a && t[right + 1..] == c;
    assert t == a + b' + c;
    CancelMiddle(multiset(a), multiset(b), multiset(b'), multiset(c));
  }

  /** Every node in the range afterwards was in the range before. */
  lemma RearrangedMember(s: seq<Node>, t: seq<Node>, left: nat, right: int, k: nat) returns (j: nat)
    requires Rearranged(s, t, left, right) && left <= k <= right
    ensures left <= j <= right && s[j] == t[k]
  {
    RearrangedSlice(s, t, left, right);
    var a, b := s[left..right + 1], t[left..right + 1];
    assert b[k - left] in multiset(b);
    assert t[k] in a;
    var i :| 0 <= i < |a| && a[i] == t[k];
    j := left + i;
  }

  ghost function Swapped(s: seq<Node>, i: nat, j: nat): seq<Node>
    requires i < |s| && j < |s|
  {
    s[i := s[j]][j := s[i]]
  }

  lemma SwapRearranged(s: seq<Node>, left: nat, right: nat, i: nat, j: nat)
    requires left <= i <= right < |s| && left <= j <= right
    ensures Rearranged(s, Swapped(s, i, j), left, right)
  {
  }

  method Swap(a: array<Node>, i: nat, j: nat)
    requires i < a.Length && j < a.Length
    modifies a
    ensures a[..] == Swapped(old(a[..]), i, j)
  {
    var temp := a[i];
    a[i] := a[j];
    a[j] := temp;
    assert a[..] == Swapped(old(a[..]), i, j);
  }

  /** Move right while the node is at most the pivot. */
  method ScanUp(a: array<Node>, from: nat, right: nat, pivot: Node, attr: Option<CStr>, ghost key: map<Node, Key>)
      returns (templ: nat)
    requires from <= right < a.Length && Keyed(key, attr) && pivot in key
    requires forall k | from <= k <= right :: a[k] in key
    ensures from <= templ <= right
    ensures forall k | from <= k < templ :: Le(key, a[k], pivot)
    ensures templ < right ==> Gt(key, a[templ], pivot)
  {
    templ := from;
    while templ < right
      invariant from <= templ <= right
      invariant forall k | from <= k < templ :: Le(key, a[k], pivot)
    {
      var diff := Compare(attr, a[templ], pivot, key);
      if diff > 0 {
        return;
      }
      templ := templ + 1;
    }
  }

  /** Move left while the node is larger than the pivot. */
  method ScanDown(a: array<Node>, from: nat, left: nat, pivot: Node, attr: Option<CStr>, ghost key: map<Node, Key>)
      returns (tempr: nat)
    requires left <= from < a.Length && Keyed(key, attr) && pivot in key
    requires forall k | left <= k <= from :: a[k] in key
    ensures left <= tempr <= from
    ensures forall k | tempr < k <= from :: Gt(key, a[k], pivot)
    ensures tempr > left ==> Le(key, a[tempr], pivot)
  {
    tempr := from;
    while tempr > left
      invariant left <= tempr <= from
      invariant forall k | tempr < k <= from :: Gt(key, a[k], pivot)
    {
      var diff := Compare(attr, a[tempr], pivot, key);
      if diff <= 0 {
        return;
      }
      tempr := tempr - 1;
    }
  }

  /** What the partition loop has established: pivot still at the left end, small nodes before templ,
      large ones after tempr. */
  ghost predicate Parting(key: map<Node, Key>, s: seq<Node>, left: nat, right: nat, templ: nat, tempr: nat,
                          pivot: Node) {
    && left <= templ <= right < |s| && left <= tempr <= right && s[left] == pivot && pivot in key
    && (forall k | left <= k <= right :: s[k] in key)
    && (forall k | left <= k < templ :: Le(key, s[k], pivot))
    && (forall k | tempr < k <= right :: Gt(key, s[k], pivot))
    && (if templ < tempr then Le(key, s[templ], pivot) else Le(key, s[tempr], pivot))
  }

  lemma PartingScanned(key: map<Node, Key>, s: seq<Node>, left: nat, right: nat, templ: nat, tempr: nat, pivot: Node,
                       templ1: nat, tempr1: nat)
    requires Parting(key, s, left, right, templ, tempr, pivot) && templ < tempr
    requires templ <= templ1 <= right && left <= tempr1 <= tempr
    requires forall k | templ <= k < templ1 :: Le(key, s[k], pivot)
    requires templ1 < right ==> Gt(key, s[templ1], pivot)
    requires forall k | tempr1 < k <= tempr :: Gt(key, s[k], pivot)
    requires tempr1 > left ==> Le(key, s[tempr1], pivot)
    ensures templ < templ1 && KeyCmp(key[pivot], key[pivot]) == 0
    ensures templ1 < tempr1 ==> Parting(key, Swapped(s, templ1, tempr1), left, right, templ1, tempr1, pivot)
    ensures templ1 >= tempr1 ==> Parting(key, s, left, right, templ1, tempr1, pivot)
  {
  }

  /** The range left..right is cut after p: nothing up to p is above the pivot, everything after is. */
  ghost predicate Cut(key: map<Node, Key>, s: seq<Node>, left: nat, right: nat, p: nat, pivot: Node) {
    && left <= p <= right < |s| && pivot in key
    && (forall k | left <= k <= p :: Le(key, s[k], pivot))
    && (forall k | p < k <= right :: Gt(key, s[k], pivot))
  }

  method Split(a: array<Node>, left: nat, right: nat, attr: Option<CStr>, ghost key: map<Node, Key>) returns (p: nat)
    requires left < right < a.Length && Keyed(key, attr)
    requires forall k | left <= k <= right :: a[k] in key
    modifies a
    ensures left <= p <= right && Rearranged(old(a[..]), a[..], left, right)
    ensures a[left] == old(a[left]) && Cut(key, a[..], left, right, p, a[left])
  {
    var pivot := a[left];
    var templ, tempr := left, right;
    while templ < tempr
      invariant Parting(key, a[..], left, right, templ, tempr, pivot)
      invariant Rearranged(old(a[..]), a[..], left, right)
      decreases right - templ
    {
      ghost var s, l, r := a[..], templ, tempr;
      templ := ScanUp(a, templ, right, pivot, attr, key);
      tempr := ScanDown(a, tempr, left, pivot, attr, key);
      PartingScanned(key, s, left, right, l, r, pivot, templ, tempr);
      if templ < tempr {
        Swap(a, templ, tempr);
        SwapRearranged(s, left, right, templ, tempr);
      }
    }
    p := tempr;
  }

  lemma SamePlace(key: map<Node, Key>, x: Node, y: Node, z: Node)
    requires Gt(key, x, y) && Le(key, z, y)
    ensures Gt(key, x, z)
  {
    KeyAntisymmetric(key[x], key[y]);
    KeyAntisymmetric(key[x], key[z]);
    if KeyCmp(key[x], key[z]) <= 0 {
      KeyTransitive(key[x], key[z], key[y]);
    }
  }

  lemma CutMoved(key: map<Node, Key>, s: seq<Node>, left: nat, right: nat, p: nat)
    requires left <= right < |s| && left <= p && Cut(key, s, left, right, p, s[left])
    ensures KeyCmp(key[s[left]], key[s[p]]) > 0 ==> Cut(key, Swapped(s, left, p), left, right, p, s[left])
    ensures KeyCmp(key[s[left]], key[s[p]]) <= 0 ==> Cut(key, s, left, right, p, s[p])
  {
    if KeyCmp(key[s[left]], key[s[p]]) <= 0 {
      forall k | left <= k <= p ensures Le(key, s[k], s[p]) {
        KeyTransitive(key[s[k]], key[s[left]], key[s[p]]);
      }
      forall k | p < k <= right ensures Gt(key, s[k], s[p]) {
        SamePlace(key, s[k], s[left], s[p]);
      }
    }
  }

  /** One partition round: afterwards the node at p is at least as large as everything before it in the
      range and smaller than everything after it. */
  method Partition(a: array<Node>, left: nat, right: nat, attr: Option<CStr>, ghost key: map<Node, Key>)
      returns (p: nat)
    requires left < right < a.Length && Keyed(key, attr)
    requires forall k | left <= k <= right :: a[k] in key
    modifies a
    ensures left <= p <= right && Rearranged(old(a[..]), a[..], left, right)
    ensures Cut(key, a[..], left, right, p, a[p])
  {
    p := Split(a, left, right, attr, key);
    ghost var s := a[..];
    CutMoved(key, s, left, right, p);
    var pivot := a[left];
    var diff := Compare(attr, pivot, a[p], key);
    if diff > 0 {
      Swap(a, left, p);
      SwapRearranged(s, left, right, left, p);
      assert a[p] == pivot;
    }
  }

  // ---- index_sort ----

  /** Rearranging the part before the cut keeps the cut. */
  lemma CutKept(key: map<Node, Key>, s: seq<Node>, t: seq<Node>, left: nat, right: nat, p: nat)
    requires left <= p <= right < |s| && Cut(key, s, left, right, p, s[p]) && Rearranged(s, t, left, p - 1)
    ensures Cut(key, t, left, right, p, t[p])
  {
    assert t[p] == s[p];
    forall k | left <= k <= p ensures Le(key, t[k], t[p]) {
      if k < p {
        var j := RearrangedMember(s, t, left, p - 1, k);
      }
    }
  }

  lemma InKeyKept(key: map<Node, Key>, s: seq<Node>, t: seq<Node>, left: nat, right: int)
    requires Rearranged(s, t, left, right) && forall k | left <= k <= right :: s[k] in key
    ensures forall k | left <= k <= right :: t[k] in key
  {
    forall k | left <= k <= right ensures t[k] in key {
      var j := RearrangedMember(s, t, left, right, k);
    }
  }

  /** The nodes left..lo-1 are in order and no node in lo..right belongs before one of them. */
  ghost predicate DoneUpTo(key: map<Node, Key>, s: seq<Node>, left: nat, right: nat, lo: nat) {
    && left <= lo <= right + 1 <= |s|
    && (forall k | left <= k <= right :: s[k] in key)
    && (forall i, j | left <= i < j <= right && i < lo :: Le(key, s[i], s[j]))
  }

  /** Rearranging the open part keeps what is done. */
  lemma DoneKept(key: map<Node, Key>, s: seq<Node>, t: seq<Node>, left: nat, right: nat, lo: nat)
    requires DoneUpTo(key, s, left, right, lo) && Rearranged(s, t, lo, right)
    ensures DoneUpTo(key, t, left, right, lo)
  {
    InKeyKept(key, s, t, lo, right);
    forall i, j | left <= i < j <= right && i < lo ensures Le(key, t[i], t[j]) {
      if j >= lo {
        var j0 := RearrangedMember(s, t, lo, right, j);
      }
    }
  }

  /** A cut whose front is in order extends what is done past the cut. */
  lemma DoneFurther(key: map<Node, Key>, s: seq<Node>, left: nat, right: nat, lo: nat, p: nat)
    requires DoneUpTo(key, s, left, right, lo) && lo <= p <= right && Cut(key, s, lo, right, p, s[p])
    requires forall i, j | lo <= i < j < p :: Le(key, s[i], s[j])
    ensures DoneUpTo(key, s, left, right, p + 1)
  {
    forall i, j | left <= i < j <= right && i < p + 1 ensures Le(key, s[i], s[j]) {
      if i >= lo && j > p {
        KeyAntisymmetric(key[s[j]], key[s[p]]);
        KeyTransitive(key[s[i]], key[s[p]], key[s[j]]);
      }
    }
  }

  lemma SliceOrder(key: map<Node, Key>, s: seq<Node>, left: nat, right: nat)
    requires left <= right < |s| && SortedBy(key, s[left..right + 1])
    ensures forall i, j | left <= i < j <= right :: Le(key, s[i], s[j])
  {
    forall i, j | left <= i < j <= right ensures Le(key, s[i], s[j]) {
      var t := s[left..right + 1];
      assert t[i - left] == s[i] && t[j - left] == s[j];
    }
  }

  lemma OrderSlice(key: map<Node, Key>, s: seq<Node>, left: nat, right: nat)
    requires left <= right < |s| && forall i, j | left <= i < j <= right :: Le(key, s[i], s[j])
    ensures SortedBy(key, s[left..right + 1])
  {
  }

  /** A cut, and what comes before it in order, extend what is done. */
  lemma RoundDone(key: map<Node, Key>, s: seq<Node>, t: seq<Node>, u: seq<Node>, left: nat, right: nat, lo: nat, p: nat)
    requires DoneUpTo(key, s, left, right, lo) && lo <= p <= right && Rearranged(s, t, lo, right)
    requires Cut(key, t, lo, right, p, t[p])
    requires if lo + 1 < p then Rearranged(t, u, lo, p - 1) && SortedBy(key, u[lo..p - 1 + 1]) else u == t
    ensures DoneUpTo(key, u, left, right, p + 1)
  {
    DoneKept(key, s, t, left, right, lo);
    if lo + 1 < p {
      SliceOrder(key, u, lo, p - 1);
      CutKept(key, t, u, lo, right, p);
      assert Rearranged(t, u, lo, right);
      DoneKept(key, t, u, left, right, lo);
    }
    DoneFurther(key, u, left, right, lo, p);
  }

  lemma RoundRearranged(s: seq<Node>, t: seq<Node>, u: seq<Node>, right: nat, lo: nat, p: nat)
    requires lo <= p <= right && Rearranged(s, t, lo, right)
    requires if lo + 1 < p then Rearranged(t, u, lo, p - 1) else u == t
    ensures Rearranged(s, u, lo, right)
  {
  }

  /** One round of the sort: a cut, and what comes before it in order. */
  method Round(a: array<Node>, left: nat, lo: nat, right: nat, attr: Option<CStr>, ghost key: map<Node, Key>)
      returns (p: nat)
    requires lo < right < a.Length && Keyed(key, attr) && DoneUpTo(key, a[..], left, right, lo)
    modifies a
    ensures lo <= p <= right && Rearranged(old(a[..]), a[..], lo, right) && DoneUpTo(key, a[..], left, right, p + 1)
    decreases right - lo, 0
  {
    ghost var s := a[..];
    p := Partition(a, lo, right, attr, key);
    ghost var t := a[..];
    InKeyKept(key, s, t, lo, right);
    if lo + 1 < p {
      Sort(a, lo, p - 1, attr, key);
    }
    RoundDone(key, s, t, a[..], left, right, lo, p);
    RoundRearranged(s, t, a[..], right, lo, p);
  }

  /** index_sort: the range ends up in order, a permutation of what it held, and nothing outside it is
      touched. */
  method Sort(a: array<Node>, left: nat, right: nat, attr: Option<CStr>, ghost key: map<Node, Key>)
    requires left < right < a.Length && Keyed(key, attr)
    requires forall k | left <= k <= right :: a[k] in key
    modifies a
    ensures Rearranged(old(a[..]), a[..], left, right)
    ensures SortedBy(key, a[left..right + 1])
    decreases right - left, 1
  {
    var lo := left;
    var again := true;
    while again
      invariant again == (lo < right)
      invariant DoneUpTo(key, a[..], left, right, lo)
      invariant Rearranged(old(a[..]), a[..], left, right)
      decreases right + 1 - lo
    {
      var p := Round(a, left, lo, right, attr, key);
      lo := p + 1;
      again := right > lo;
    }
    OrderSlice(key, a[..], left, right);
  }
}
