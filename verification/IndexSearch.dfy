/** What repeated index lookups return, as functions of the sorted keys. */
module IndexSearch {
  import opened CStrings
  import opened IndexSort

  /** A lookup: element name and attribute value, None standing for a null pointer. */
  datatype Lookup = Lookup(element: Option<CStr>, value: Option<CStr>)

  predicate Hits(q: Lookup, k: Key) {
    (q.element.Some? ==> k.name == q.element.value) && (q.value.Some? ==> k.value == q.value.value)
  }

  /** index_find: how the lookup compares with a key. */
  function Sign(q: Lookup, k: Key): (r: int)
    ensures r == 0 <==> Hits(q, k)
  {
    if q.element.Some? && StrCmp(q.element.value, k.name) != 0 then StrCmp(q.element.value, k.name)
    else if q.value.Some? then StrCmp(q.value.value, k.value)
    else 0
  }

  /** Move back to the first of a run of hits. */
  function RunStart(ks: seq<Key>, q: Lookup, current: nat): (r: nat)
    requires current < |ks|
    ensures r <= current && forall i | r <= i < current :: Hits(q, ks[i])
    ensures r > 0 ==> !Hits(q, ks[r - 1])
  {
    if current > 0 && Hits(q, ks[current - 1]) then RunStart(ks, q, current - 1) else current
  }

  function FirstHit(ks: seq<Key>, q: Lookup, from: nat, last: nat): (r: Option<nat>)
    requires last < |ks| && from <= last + 1
    ensures r.Some? ==> from <= r.value <= last && Hits(q, ks[r.value])
    ensures forall i | from <= i < (if r.Some? then r.value else last + 1) :: !Hits(q, ks[i])
    decreases last + 1 - from
  {
    if from > last then None else if Hits(q, ks[from]) then Some(from) else FirstHit(ks, q, from + 1, last)
  }

  /** The modified binary search: bisect until a hit or two neighbours are left, then test those. */
  function Bisect(ks: seq<Key>, q: Lookup, first: nat, last: nat): (r: Option<nat>)
    requires first <= last < |ks|
    ensures r.Some? ==> r.value < |ks| && Hits(q, ks[r.value])
    decreases last - first
  {
    if last - first > 1 then
      var current := (first + last) / 2;
      var diff := Sign(q, ks[current]);
      if diff == 0 then Some(RunStart(ks, q, current))
      else if diff < 0 then Bisect(ks, q, first, current)
      else Bisect(ks, q, current, last)
    else FirstHit(ks, q, first, last)
  }

  /** One lookup from position cur: the position returned, if any, and the position afterwards. */
  function FindFrom(ks: seq<Key>, q: Lookup, cur: nat): (r: (Option<nat>, nat))
    ensures r.0.Some? ==> cur <= r.0.value < |ks| && r.1 == r.0.value + 1 && Hits(q, ks[r.0.value])
    ensures cur <= |ks| ==> r.1 <= |ks|
  {
    if ks == [] then (None, cur)
    else if cur == 0 then
      var hit := Bisect(ks, q, 0, |ks| - 1);
      (hit, if hit.Some? then hit.value + 1 else |ks|)
    else if cur < |ks| && Hits(q, ks[cur]) then (Some(cur), cur + 1)
    else (None, |ks|)
  }

  /** What repeated lookups return from position cur on until they return nothing. */
  function Found(ks: seq<Key>, q: Lookup, cur: nat): (r: seq<nat>)
    requires cur <= |ks|
    ensures forall p | p in r :: p < |ks|
    decreases |ks| - cur
  {
    var r := FindFrom(ks, q, cur);
    if r.0.None? then [] else [r.0.value] + Found(ks, q, r.1)
  }

  /** The positions of all hits from a position on, ascending. */
  function HitsFrom(ks: seq<Key>, q: Lookup, from: nat): (r: seq<nat>)
    requires from <= |ks|
    ensures forall i :: i in r <==> from <= i < |ks| && Hits(q, ks[i])
    ensures forall i, j | 0 <= i < j < |r| :: r[i] < r[j]
    decreases |ks| - from
  {
    if from == |ks| then []
    else
      var others := HitsFrom(ks, q, from + 1);
      assert forall k | 0 <= k < |others| :: others[k] in others;
      (if Hits(q, ks[from]) then [from] else []) + others
  }

  ghost predicate InOrder(ks: seq<Key>) {
    forall i, j | 0 <= i < j < |ks| :: KeyCmp(ks[i], ks[j]) <= 0
  }

  ghost predicate OneName(ks: seq<Key>) {
    forall i, j | 0 <= i < |ks| && 0 <= j < |ks| :: ks[i].name == ks[j].name
  }

  /** Along the keys the comparison goes from above through equal to below. */
  ghost predicate Falling(ks: seq<Key>, q: Lookup) {
    forall i, j | 0 <= i < j < |ks| ::
      (Sign(q, ks[i]) <= 0 ==> Sign(q, ks[j]) <= 0) && (Sign(q, ks[i]) < 0 ==> Sign(q, ks[j]) < 0)
  }

  lemma FallingPair(a: Key, b: Key, q: Lookup)
    requires KeyCmp(a, b) <= 0 && (q.element.None? ==> a.name == b.name)
    ensures Sign(q, a) <= 0 ==> Sign(q, b) <= 0
    ensures Sign(q, a) < 0 ==> Sign(q, b) < 0
  {
    if q.element.Some? && Sign(q, a) <= 0 {
      var e := q.element.value;
      if StrCmp(e, a.name) < 0 {
        StrCmpTransitive(e, a.name, b.name);
      } else if q.value.Some? && a.name == b.name {
        StrCmpTransitive(q.value.value, a.value, b.value);
      }
    } else if q.value.Some? && Sign(q, a) <= 0 {
      StrCmpTransitive(q.value.value, a.value, b.value);
    }
  }

  lemma SortedFalls(ks: seq<Key>, q: Lookup)
    requires InOrder(ks) && (q.element.Some? || OneName(ks))
    ensures Falling(ks, q)
  {
    forall i, j | 0 <= i < j < |ks|
      ensures (Sign(q, ks[i]) <= 0 ==> Sign(q, ks[j]) <= 0) && (Sign(q, ks[i]) < 0 ==> Sign(q, ks[j]) < 0)
    {
      FallingPair(ks[i], ks[j], q);
    }
  }

  lemma FirstHitIs(ks: seq<Key>, q: Lookup, i: nat)
    requires i < |ks| && Hits(q, ks[i]) && forall j | 0 <= j < i :: !Hits(q, ks[j])
    ensures FirstHit(ks, q, 0, |ks| - 1) == Some(i)
  {
  }

  /** On falling comparisons the bisection finds the first hit. */
  lemma {:induction false} BisectFirst(ks: seq<Key>, q: Lookup, first: nat, last: nat)
    requires Falling(ks, q) && first <= last < |ks|
    requires forall i | 0 <= i < first :: Sign(q, ks[i]) > 0
    requires forall i | last < i < |ks| :: Sign(q, ks[i]) < 0
    ensures Bisect(ks, q, first, last) == FirstHit(ks, q, 0, |ks| - 1)
    decreases last - first
  {
    if last - first > 1 {
      var current := (first + last) / 2;
      var diff := Sign(q, ks[current]);
      if diff == 0 {
        var r := RunStart(ks, q, current);
        assert Hits(q, ks[r]);
        if r > 0 {
          var before, at := Sign(q, ks[r - 1]), Sign(q, ks[r]);
          assert before < 0 ==> at < 0;
        }
        forall i | 0 <= i < r ensures Sign(q, ks[i]) > 0 {
          if i < r - 1 && Sign(q, ks[i]) <= 0 {
            assert false;
          }
        }
        FirstHitIs(ks, q, r);
      } else if diff < 0 {
        BisectFirst(ks, q, first, current);
      } else {
        assert forall i | 0 <= i < current :: Sign(q, ks[i]) <= 0 ==> Sign(q, ks[current]) <= 0;
        BisectFirst(ks, q, current, last);
      }
    } else {
      assert forall i | last < i < |ks| :: !Hits(q, ks[i]);
    }
  }

  lemma {:induction false} SkipMisses(ks: seq<Key>, q: Lookup, from: nat, to: nat)
    requires from <= to <= |ks| && forall i | from <= i < to :: !Hits(q, ks[i])
    ensures HitsFrom(ks, q, from) == HitsFrom(ks, q, to)
    decreases |ks| - from
  {
    if from < to {
      assert HitsFrom(ks, q, from) == [] + HitsFrom(ks, q, from + 1) == HitsFrom(ks, q, from + 1);
      SkipMisses(ks, q, from + 1, to);
    }
  }

  /** After the first lookup: the hits that follow each other are all the hits that are left. */
  lemma {:induction false} FoundAfter(ks: seq<Key>, q: Lookup, cur: nat)
    requires Falling(ks, q) && 0 < cur <= |ks| && Sign(q, ks[cur - 1]) <= 0
    ensures Found(ks, q, cur) == HitsFrom(ks, q, cur)
    decreases |ks| - cur
  {
    if cur < |ks| {
      if Hits(q, ks[cur]) {
        FoundAfter(ks, q, cur + 1);
      } else {
        forall i | cur <= i < |ks| ensures !Hits(q, ks[i]) {
          if i > cur {
            assert Sign(q, ks[cur]) < 0 ==> Sign(q, ks[i]) < 0;
          }
        }
        SkipMisses(ks, q, cur, |ks|);
      }
    }
  }

  lemma FoundFalling(ks: seq<Key>, q: Lookup)
    requires Falling(ks, q)
    ensures Found(ks, q, 0) == HitsFrom(ks, q, 0)
  {
    if ks != [] {
      BisectFirst(ks, q, 0, |ks| - 1);
      var hit := FirstHit(ks, q, 0, |ks| - 1);
      if hit.Some? {
        SkipMisses(ks, q, 0, hit.value);
        FoundAfter(ks, q, hit.value + 1);
      } else {
        SkipMisses(ks, q, 0, |ks|);
      }
    }
  }

  /** Lookups that name the element, and all lookups on an index over a single element, return every hit
      once, in index order, and then nothing. */
  lemma FoundAll(ks: seq<Key>, q: Lookup)
    requires InOrder(ks) && (q.element.Some? || OneName(ks))
    ensures Found(ks, q, 0) == HitsFrom(ks, q, 0)
  {
    SortedFalls(ks, q);
    FoundFalling(ks, q);
  }

  /** Once a lookup returns nothing, every later one does. */
  lemma NothingForever(ks: seq<Key>, q: Lookup, cur: nat)
    requires cur <= |ks| && FindFrom(ks, q, cur).0.None?
    ensures FindFrom(ks, q, FindFrom(ks, q, cur).1) == FindFrom(ks, q, cur)
  {
  }

  /** A sorted index with three element names in which the value v is found only once though two of the
      nodes have it. */
  function Scattered(v: CStr): seq<Key> {
    var w: CStr := if v == [] then "x" else [];
    [Key("a", v), Key("b", w), Key("c", v)]
  }

  lemma ScatteredMissed(v: CStr)
    ensures InOrder(Scattered(v))
    ensures Found(Scattered(v), Lookup(None, Some(v)), 0) != HitsFrom(Scattered(v), Lookup(None, Some(v)), 0)
  {
    var ks, q := Scattered(v), Lookup(None, Some(v));
    assert ks[0].name == "a" && ks[1].name == "b" && ks[2].name == "c";
    assert StrCmp("a", "b") < 0 && StrCmp("b", "c") < 0 && StrCmp("a", "c") < 0;
    assert Hits(q, ks[0]) && !Hits(q, ks[1]) && Hits(q, ks[2]);
    assert 0 in HitsFrom(ks, q, 0) && 2 in HitsFrom(ks, q, 0);
    if Sign(q, ks[1]) < 0 {
      assert Bisect(ks, q, 0, 2) == Bisect(ks, q, 0, 1) == Some(0);
      assert Found(ks, q, 0) == [0] + Found(ks, q, 1) == [0];
    } else {
      assert Bisect(ks, q, 0, 2) == Bisect(ks, q, 1, 2) == Some(2);
      assert Found(ks, q, 0) == [2] + Found(ks, q, 3) == [2];
    }
  }

  /** Exactly when lookups can be relied on: for a lookup by value, on every sorted index (of one element
      name if the index was built for one), all hits are found if and only if the lookup or the index
      names the element. */
  lemma ReliableIff(q: Lookup, single: bool)
    requires q.value.Some?
    ensures (forall ks: seq<Key> | InOrder(ks) && (single ==> OneName(ks)) :: Found(ks, q, 0) == HitsFrom(ks, q, 0))
       <==> q.element.Some? || single
  {
    if q.element.Some? || single {
      forall ks: seq<Key> | InOrder(ks) && (single ==> OneName(ks)) ensures Found(ks, q, 0) == HitsFrom(ks, q, 0) {
        FoundAll(ks, q);
      }
    } else {
      ScatteredMissed(q.value.value);
      assert q == Lookup(None, Some(q.value.value));
      assert InOrder(Scattered(q.value.value));
    }
  }
}
