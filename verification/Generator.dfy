/** The generator of C source, which walks the shared resource objects. */
module Generator {
  // Each object is declared once, after the objects that it refers to, under a name of its own.

  import opened Sets
  import opened CStrings
  import opened Sockets
  import opened VariableNames

  /** Whatever gets a name: an object, or a list of jobs. */
  datatype Element = Object(id: nat) | List(l: nat)

  datatype Row = Row(element: Element, name: CStr)

  /** A printed declaration, with the names it takes the address of. */
  datatype Decl = Decl(name: CStr, refs: seq<CStr>)

  /** How a name was made up. */
  datatype Key = Key(isSource: bool, route: nat, n: Named, i: nat)

  // ---- the resource graph ----

  function RefId(r: Ref): seq<nat> {
    if r.To? then [r.id] else []
  }

  function Refs(o: Obj): seq<nat> {
    RefId(o.first) + RefId(o.second)
  }

  /** The graph has no cycles: ranks fall along references. */
  predicate Graph(objs: seq<Obj>, rank: seq<nat>) {
    && |rank| == |objs|
    && forall id | 0 <= id < |objs| ::
         Complete(objs[id]) && forall k | 0 <= k < |Refs(objs[id])| ::
           Refs(objs[id])[k] < |objs| && rank[Refs(objs[id])[k]] < rank[id]
  }

  lemma GraphRefs(objs: seq<Obj>, rank: seq<nat>, id: nat)
    requires Graph(objs, rank) && id < |objs|
    ensures objs[id].first.To? ==> objs[id].first.id < |objs| && rank[objs[id].first.id] < rank[id]
    ensures objs[id].second.To? ==> objs[id].second.id < |objs| && rank[objs[id].second.id] < rank[id]
  {
    var o := objs[id];
    if o.first.To? {
      assert Refs(o)[0] == o.first.id;
    }
    if o.second.To? {
      assert Refs(o)[|Refs(o)| - 1] == o.second.id;
    }
  }

  ghost function ReachRef(objs: seq<Obj>, rank: seq<nat>, id: nat, r: Ref): (s: set<nat>)
    requires Graph(objs, rank) && id < |objs| && (r.To? ==> r.id < |objs| && rank[r.id] < rank[id])
    ensures r.To? ==> r.id in s
    ensures forall x | x in s :: x < |objs| && rank[x] < rank[id]
    decreases rank[id], 0
  {
    if r.To? then Reach(objs, rank, r.id) else {}
  }

  /** An object and everything below it. */
  ghost function Reach(objs: seq<Obj>, rank: seq<nat>, id: nat): (s: set<nat>)
    requires Graph(objs, rank) && id < |objs|
    ensures id in s && forall x | x in s :: x < |objs| && rank[x] <= rank[id]
    decreases rank[id]
  {
    GraphRefs(objs, rank, id);
    {id} + ReachRef(objs, rank, id, objs[id].first) + ReachRef(objs, rank, id, objs[id].second)
  }

  // ---- what the generator keeps ----

  function NamedOf(objs: seq<Obj>, e: Element): Named
    requires e.Object? ==> e.id < |objs|
  {
    if e.Object? then AnObject(objs[e.id].kind) else AJobList
  }

  predicate InRange(objs: seq<Obj>, lists: seq<seq<nat>>, e: Element) {
    if e.Object? then e.id < |objs| else e.l < |lists|
  }

  /** The elements whose addresses are taken in the declaration of e. */
  function Needs(objs: seq<Obj>, lists: seq<seq<nat>>, e: Element): seq<nat>
    requires InRange(objs, lists, e)
  {
    if e.Object? then Refs(objs[e.id]) else lists[e.l]
  }

  predicate Has(table: seq<Row>, e: Element) {
    exists k :: 0 <= k < |table| && table[k].element == e
  }

  predicate HasName(table: seq<Row>, name: CStr) {
    exists k :: 0 <= k < |table| && table[k].name == name
  }

  /** An address that is taken is that of an element declared before. */
  predicate Declared(table: seq<Row>, k: nat, id: nat, name: CStr)
    requires k <= |table|
  {
    exists j :: 0 <= j < k && table[j] == Row(Object(id), name)
  }

  predicate DeclOk(objs: seq<Obj>, lists: seq<seq<nat>>, table: seq<Row>, out: seq<Decl>, k: nat)
    requires k < |table| && k < |out| && InRange(objs, lists, table[k].element)
  {
    var needs := Needs(objs, lists, table[k].element);
    && out[k].name == table[k].name && |out[k].refs| == |needs|
    && forall m | 0 <= m < |needs| :: Declared(table, k, needs[m], out[k].refs[m])
  }

  predicate KeyOk(objs: seq<Obj>, lists: seq<seq<nat>>, prefix: CStr, row: Row, key: Key) {
    && InRange(objs, lists, row.element) && key.n == NamedOf(objs, row.element) && key.route < 0x1_0000 && key.i < 256
    && row.name == Candidate(prefix, key.isSource, key.route, key.n, key.i)
  }

  predicate Kept(objs: seq<Obj>, lists: seq<seq<nat>>, prefix: CStr, table: seq<Row>, keys: seq<Key>, out: seq<Decl>) {
    && |table| == |keys| == |out|
    && (forall k | 0 <= k < |table| :: KeyOk(objs, lists, prefix, table[k], keys[k]))
    && (forall j, k | 0 <= j < k < |table| :: table[j].element != table[k].element && table[j].name != table[k].name)
    && (forall k | 0 <= k < |table| :: DeclOk(objs, lists, table, out, k))
  }

  lemma DeclaredKept(table: seq<Row>, row: Row, k: nat, id: nat, name: CStr)
    requires k <= |table| && Declared(table, k, id, name)
    ensures Declared(table + [row], k, id, name)
  {
    var j :| 0 <= j < k && table[j] == Row(Object(id), name);
    assert (table + [row])[j] == table[j];
  }

  lemma DeclKept(objs: seq<Obj>, lists: seq<seq<nat>>, table: seq<Row>, out: seq<Decl>, row: Row, decl: Decl, k: nat)
    requires k < |table| && |out| == |table| && InRange(objs, lists, table[k].element)
    requires DeclOk(objs, lists, table, out, k)
    ensures DeclOk(objs, lists, table + [row], out + [decl], k)
  {
    var needs := Needs(objs, lists, table[k].element);
    forall m | 0 <= m < |needs| ensures Declared(table + [row], k, needs[m], out[k].refs[m]) {
      DeclaredKept(table, row, k, needs[m], out[k].refs[m]);
    }
  }

  lemma DeclNew(objs: seq<Obj>, lists: seq<seq<nat>>, table: seq<Row>, out: seq<Decl>, row: Row, decl: Decl)
    requires |out| == |table| && InRange(objs, lists, row.element) && decl.name == row.name
    requires |decl.refs| == |Needs(objs, lists, row.element)|
    requires forall m | 0 <= m < |decl.refs| ::
               Declared(table, |table|, Needs(objs, lists, row.element)[m], decl.refs[m])
    ensures DeclOk(objs, lists, table + [row], out + [decl], |table|)
  {
    var needs := Needs(objs, lists, row.element);
    forall m | 0 <= m < |needs| ensures Declared(table + [row], |table|, needs[m], decl.refs[m]) {
      DeclaredKept(table, row, |table|, needs[m], decl.refs[m]);
    }
  }

  /** A new row with its declaration. */
  lemma KeptMore(objs: seq<Obj>, lists: seq<seq<nat>>, prefix: CStr, table: seq<Row>, keys: seq<Key>, out: seq<Decl>,
                 row: Row, key: Key, decl: Decl)
    requires Kept(objs, lists, prefix, table, keys, out) && KeyOk(objs, lists, prefix, row, key)
    requires !Has(table, row.element) && !HasName(table, row.name) && decl.name == row.name
    requires |decl.refs| == |Needs(objs, lists, row.element)|
    requires forall m | 0 <= m < |decl.refs| ::
               Declared(table, |table|, Needs(objs, lists, row.element)[m], decl.refs[m])
    ensures Kept(objs, lists, prefix, table + [row], keys + [key], out + [decl])
  {
    var t, o := table + [row], out + [decl];
    DeclNew(objs, lists, table, out, row, decl);
    forall k | 0 <= k < |t| ensures DeclOk(objs, lists, t, o, k) {
      if k < |table| {
        DeclKept(objs, lists, table, out, row, decl, k);
      }
    }
  }

  // ---- there is always a free counter ----

  predicate Matches(key: Key, isSource: bool, route: nat, n: Named) {
    key.isSource == isSource && key.route == route && key.n == n
  }

  /** The elements that have taken one of the first m counters. */
  ghost function Takers(table: seq<Row>, keys: seq<Key>, isSource: bool, route: nat, n: Named, m: nat): set<Element>
    requires |table| == |keys|
  {
    set k | 0 <= k < |table| && Matches(keys[k], isSource, route, n) && keys[k].i < m :: table[k].element
  }

  predicate Taken(keys: seq<Key>, isSource: bool, route: nat, n: Named, i: nat) {
    exists k :: 0 <= k < |keys| && keys[k] == Key(isSource, route, n, i)
  }

  lemma {:induction false} TakersCard(table: seq<Row>, keys: seq<Key>, isSource: bool, route: nat, n: Named, m: nat)
    requires |table| == |keys| && forall j, k | 0 <= j < k < |table| :: table[j].element != table[k].element
    requires forall i: nat | i < m :: Taken(keys, isSource, route, n, i)
    ensures |Takers(table, keys, isSource, route, n, m)| >= m
    decreases m
  {
    if m > 0 {
      TakersCard(table, keys, isSource, route, n, m - 1);
      assert Taken(keys, isSource, route, n, m - 1);
      var k :| 0 <= k < |keys| && keys[k] == Key(isSource, route, n, m - 1);
      var before, now := Takers(table, keys, isSource, route, n, m - 1), Takers(table, keys, isSource, route, n, m);
      assert table[k].element in now && table[k].element !in before;
      assert before <= now;
      ProperCard(before, now, table[k].element);
    }
  }

  /** Fewer than m takers leave one of the first m counters free, and its name is new. */
  lemma FreeCounter(objs: seq<Obj>, lists: seq<seq<nat>>, prefix: CStr, table: seq<Row>, keys: seq<Key>, out: seq<Decl>,
                    isSource: bool, route: nat, n: Named, m: nat) returns (i: nat)
    requires Kept(objs, lists, prefix, table, keys, out) && |Takers(table, keys, isSource, route, n, m)| < m
    ensures i < m && !HasName(table, Candidate(prefix, isSource, route, n, i))
  {
    if forall i: nat | i < m :: Taken(keys, isSource, route, n, i) {
      TakersCard(table, keys, isSource, route, n, m);
      assert false;
    }
    i :| i < m && !Taken(keys, isSource, route, n, i);
    forall k | 0 <= k < |table| ensures table[k].name != Candidate(prefix, isSource, route, n, i) {
      assert KeyOk(objs, lists, prefix, table[k], keys[k]) && keys[k] != Key(isSource, route, n, i);
      if table[k].name == Candidate(prefix, isSource, route, n, i) {
        CandidateInjective(prefix, keys[k].isSource, keys[k].route, keys[k].n, keys[k].i, isSource, route, n, i);
      }
    }
  }

  predicate NameTaken(table: seq<Row>, prefix: CStr, isSource: bool, route: nat, n: Named, i: nat) {
    HasName(table, Candidate(prefix, isSource, route, n, i))
  }

  /** The names for the first m counters are taken. */
  predicate AllTaken(table: seq<Row>, prefix: CStr, isSource: bool, route: nat, n: Named, m: nat) {
    m > 0 ==>
      NameTaken(table, prefix, isSource, route, n, m - 1) && AllTaken(table, prefix, isSource, route, n, m - 1)
  }

  lemma {:induction false} AllTakenEach(table: seq<Row>, prefix: CStr, isSource: bool, route: nat, n: Named, m: nat,
                                        i: nat)
    requires AllTaken(table, prefix, isSource, route, n, m) && i < m
    ensures NameTaken(table, prefix, isSource, route, n, i)
  {
    if i < m - 1 {
      AllTakenEach(table, prefix, isSource, route, n, m - 1, i);
    }
  }

  /** The first m names for a kind are there to be tried: none is cut off, and the counter reaches them. */
  predicate Room(prefix: CStr, isSource: bool, route: nat, n: Named, m: nat) {
    m <= 256 && forall i: nat | i < m :: Fits(prefix, isSource, route, n, i)
  }

  // ---- one job list ----

  /** The objects of one kind. */
  ghost function OfKind(objs: seq<Obj>, scope: set<nat>, kind: Kind): set<nat> {
    set id | id in scope && id < |objs| && objs[id].kind == kind
  }

  /** There is room for as many names of every kind as there are objects of that kind. */
  ghost predicate Few(objs: seq<Obj>, scope: set<nat>, prefix: CStr, isSource: bool, route: nat) {
    forall kind: Kind :: Room(prefix, isSource, route, AnObject(kind), |OfKind(objs, scope, kind)|)
  }

  /** With a short prefix it is enough that there are at most 256 objects of every kind. */
  lemma ShortPrefix(objs: seq<Obj>, scope: set<nat>, prefix: CStr, isSource: bool, route: nat)
    requires |prefix| <= 31 && route < 0x1_0000 && forall kind: Kind :: |OfKind(objs, scope, kind)| <= 256
    ensures Few(objs, scope, prefix, isSource, route) && Room(prefix, isSource, route, AJobList, 1)
  {
    forall n: Named, i: nat | i < 256 ensures Fits(prefix, isSource, route, n, i) {
      CandidateFits(prefix, isSource, route, n, i);
    }
  }

  /** The names of this route and side so far are those of objects in scope. */
  predicate Scoped(table: seq<Row>, keys: seq<Key>, isSource: bool, route: nat, scope: set<nat>) {
    |table| == |keys| &&
    forall k | 0 <= k < |table| && keys[k].isSource == isSource && keys[k].route == route ::
      table[k].element.Object? && table[k].element.id in scope
  }

  lemma ImageCard(s: set<nat>)
    ensures |set id | id in s :: Object(id)| == |s|
  {
    if s != {} {
      var x :| x in s;
      ImageCard(s - {x});
      assert (set id | id in s :: Object(id)) == (set id | id in s - {x} :: Object(id)) + {Object(x)};
    }
  }

  lemma TakersInScope(objs: seq<Obj>, lists: seq<seq<nat>>, prefix: CStr, table: seq<Row>, keys: seq<Key>,
                      out: seq<Decl>,
                      isSource: bool, route: nat, scope: set<nat>, id: nat, m: nat)
    requires Kept(objs, lists, prefix, table, keys, out) && Scoped(table, keys, isSource, route, scope)
    requires id < |objs| && !Has(table, Object(id))
    ensures forall e | e in Takers(table, keys, isSource, route, AnObject(objs[id].kind), m) ::
      e.Object? && e.id != id && e.id in OfKind(objs, scope, objs[id].kind)
  {
    var kind := objs[id].kind;
    forall e | e in Takers(table, keys, isSource, route, AnObject(kind), m)
      ensures e.Object? && e.id != id && e.id in OfKind(objs, scope, kind)
    {
      var k :| 0 <= k < |table| && Matches(keys[k], isSource, route, AnObject(kind)) && table[k].element == e;
      assert KeyOk(objs, lists, prefix, table[k], keys[k]);
    }
  }

  lemma ElementsCard(s: set<Element>, ids: set<nat>)
    requires forall e | e in s :: e.Object? && e.id in ids
    ensures |s| <= |ids|
  {
    var image := set x | x in ids :: Object(x);
    assert forall e | e in s :: e == Object(e.id) && e in image;
    SubsetCard(s, image);
    ImageCard(ids);
  }

  /** An object in scope that has no name yet can be given one. */
  lemma FewTakers(objs: seq<Obj>, lists: seq<seq<nat>>, prefix: CStr, table: seq<Row>, keys: seq<Key>, out: seq<Decl>,
                  isSource: bool, route: nat, scope: set<nat>, id: nat)
    requires Kept(objs, lists, prefix, table, keys, out) && Scoped(table, keys, isSource, route, scope)
    requires id in scope && id < |objs| && !Has(table, Object(id))
    ensures var m := |OfKind(objs, scope, objs[id].kind)|;
      |Takers(table, keys, isSource, route, AnObject(objs[id].kind), m)| < m
  {
    var ids := OfKind(objs, scope, objs[id].kind);
    TakersInScope(objs, lists, prefix, table, keys, out, isSource, route, scope, id, |ids|);
    ElementsCard(Takers(table, keys, isSource, route, AnObject(objs[id].kind), |ids|), ids - {id});
    assert id in ids;
  }

  /** The counter has eight bits. */
  function NextCounter(i: nat): (j: nat)
    requires i < 256
    ensures j == if i == 255 then 0 else i + 1
  {
    (i + 1) % 256
  }

  /** The counter in the given round of the loop. */
  function CounterAt(round: nat): (i: nat)
    ensures i < 256
  {
    if round == 0 then 0 else NextCounter(CounterAt(round - 1))
  }

  lemma {:induction false} CounterReaches(i: nat)
    requires i < 256
    ensures CounterAt(i) == i
  {
    if i > 0 {
      CounterReaches(i - 1);
    }
  }

  /** The loop comes to a name that is not taken if and only if one of the 256 names is not: otherwise it goes on
      for ever. */
  lemma LoopEndsIff(table: seq<Row>, prefix: CStr, isSource: bool, route: nat, n: Named)
    ensures (exists round: nat :: !HasName(table, Cut(Candidate(prefix, isSource, route, n, CounterAt(round)))))
       <==> exists i: nat :: i < 256 && !HasName(table, Cut(Candidate(prefix, isSource, route, n, i)))
  {
    if round: nat :| !HasName(table, Cut(Candidate(prefix, isSource, route, n, CounterAt(round)))) {
      assert CounterAt(round) < 256;
    }
    if i: nat :| i < 256 && !HasName(table, Cut(Candidate(prefix, isSource, route, n, i))) {
      CounterReaches(i);
    }
  }

  // ---- what a run prints ----

  /** The tables only grow, by objects among ids, with keys of this route and side. */
  ghost predicate Grew(before: seq<Row>, after: seq<Row>, keys: seq<Key>, isSource: bool, route: nat, ids: set<nat>) {
    && before <= after && |after| == |keys|
    && forall k | |before| <= k < |after| ::
         && after[k].element.Object? && after[k].element.id in ids
         && keys[k].isSource == isSource && keys[k].route == route
  }

  lemma GrewHas(before: seq<Row>, after: seq<Row>, e: Element)
    requires before <= after && Has(before, e)
    ensures Has(after, e)
  {
    var k :| 0 <= k < |before| && before[k].element == e;
    assert after[k] == before[k];
  }

  lemma GrewTwice(start: seq<Row>, middle: seq<Row>, end: seq<Row>, keys: seq<Key>, more: seq<Key>, isSource: bool,
                  route: nat,
                  low: set<nat>, high: set<nat>, ids: set<nat>)
    requires Grew(start, middle, keys, isSource, route, low) && Grew(middle, end, more, isSource, route, high)
    requires keys <= more && low <= ids && high <= ids
    ensures Grew(start, end, more, isSource, route, ids)
  {
  }

  lemma OneMore(start: seq<Row>, was: seq<Key>, end: seq<Row>, keys: seq<Key>, isSource: bool, route: nat,
                scope: set<nat>, id: nat)
    requires Scoped(start, was, isSource, route, scope) && id in scope
    requires start <= end && was <= keys && |end| == |keys| == |start| + 1
    requires end[|start|].element == Object(id) && keys[|start|].isSource == isSource && keys[|start|].route == route
    ensures Has(end, Object(id)) && Scoped(end, keys, isSource, route, scope)
    ensures Grew(start, end, keys, isSource, route, {id})
  {
  }

  ghost function ReachAll(objs: seq<Obj>, rank: seq<nat>, ids: seq<nat>): (s: set<nat>)
    requires Graph(objs, rank) && forall k | 0 <= k < |ids| :: ids[k] < |objs|
  {
    set k, x | 0 <= k < |ids| && x in Reach(objs, rank, ids[k]) :: x
  }

  /** Whatever else is reachable from an object is reachable from one that it refers to. */
  lemma ReachStep(objs: seq<Obj>, rank: seq<nat>, id: nat, x: nat) returns (m: nat)
    requires Graph(objs, rank) && id < |objs| && x in Reach(objs, rank, id) && x != id
    ensures m < |Refs(objs[id])| && Refs(objs[id])[m] < |objs| && rank[Refs(objs[id])[m]] < rank[id]
    ensures x in Reach(objs, rank, Refs(objs[id])[m])
  {
    GraphRefs(objs, rank, id);
    var o := objs[id];
    m := if o.first.To? && x in Reach(objs, rank, o.first.id) then 0 else |Refs(o)| - 1;
  }

  lemma RefDeclared(objs: seq<Obj>, lists: seq<seq<nat>>, prefix: CStr, table: seq<Row>, keys: seq<Key>,
                    out: seq<Decl>, id: nat, m: nat)
    requires Kept(objs, lists, prefix, table, keys, out)
    requires id < |objs| && Has(table, Object(id)) && m < |Refs(objs[id])|
    ensures Has(table, Object(Refs(objs[id])[m]))
  {
    var k :| 0 <= k < |table| && table[k].element == Object(id);
    assert DeclOk(objs, lists, table, out, k);
    assert Declared(table, k, Refs(objs[id])[m], out[k].refs[m]);
  }

  /** What is declared before its first use is there with everything below it. */
  lemma {:induction false} Closed(objs: seq<Obj>, lists: seq<seq<nat>>, prefix: CStr, table: seq<Row>, keys: seq<Key>,
                                  out: seq<Decl>, rank: seq<nat>, id: nat, x: nat)
    requires Kept(objs, lists, prefix, table, keys, out) && Graph(objs, rank)
    requires id < |objs| && Has(table, Object(id)) && x in Reach(objs, rank, id)
    ensures Has(table, Object(x))
    decreases rank[id]
  {
    if x != id {
      var m := ReachStep(objs, rank, id, x);
      RefDeclared(objs, lists, prefix, table, keys, out, id, m);
      Closed(objs, lists, prefix, table, keys, out, rank, Refs(objs[id])[m], x);
    }
  }

  // ---- the lists of all routes ----

  /** The two job lists of a route, each of which may be missing. */
  datatype Ends = Ends(source: Option<nat>, sink: Option<nat>)

  predicate ListOk(objs: seq<Obj>, lists: seq<seq<nat>>, l: Option<nat>) {
    l.Some? ==>
      && l.value < |lists| && |lists[l.value]| < 0x1_0000
      && forall k | 0 <= k < |lists[l.value]| :: lists[l.value][k] < |objs|
  }

  /** There is room for the names of a list and of the objects below it. */
  ghost predicate ListFew(objs: seq<Obj>, lists: seq<seq<nat>>, rank: seq<nat>, l: Option<nat>,
                          prefix: CStr, isSource: bool, route: nat)
    requires Graph(objs, rank) && ListOk(objs, lists, l)
  {
    l.Some? ==>
      && Few(objs, ReachAll(objs, rank, lists[l.value]), prefix, isSource, route)
      && Room(prefix, isSource, route, AJobList, 1)
  }

  /** The list, and everything below it. */
  ghost predicate Below(objs: seq<Obj>, lists: seq<seq<nat>>, rank: seq<nat>, l: Option<nat>, e: Element)
    requires Graph(objs, rank) && ListOk(objs, lists, l)
  {
    l.Some? && if e.Object? then e.id in ReachAll(objs, rank, lists[l.value]) else e.l == l.value
  }

  // ---- what the parser builds ----

  function Ranks(objs: seq<Obj>): (r: seq<nat>)
    ensures |r| == |objs| && forall id | 0 <= id < |r| :: r[id] == RankOf(objs[id].kind)
  {
    seq(|objs|, id requires 0 <= id < |objs| => RankOf(objs[id].kind))
  }

  function JobLists(routes: seq<Entry>): (lists: seq<seq<nat>>)
    ensures |lists| == |routes| && forall l | 0 <= l < |lists| :: lists[l] == routes[l].jobs
  {
    seq(|routes|, l requires 0 <= l < |routes| => routes[l].jobs)
  }

  /** Complete objects whose references lead to kinds of lower rank have no cycles. */
  lemma TidyIsGraph(objs: seq<Obj>)
    requires Tidy(objs, 0, None)
    ensures Graph(objs, Ranks(objs))
  {
    forall id | 0 <= id < |objs|
      ensures Complete(objs[id]) && forall k | 0 <= k < |Refs(objs[id])| ::
                Refs(objs[id])[k] < |objs| && Ranks(objs)[Refs(objs[id])[k]] < Ranks(objs)[id]
    {
      assert ObjOk(objs, objs[id]);
    }
  }

  lemma {:induction false} BuiltLists(objs: seq<Obj>, before: seq<Entry>, routes: seq<Entry>, cons: seq<Connection>,
                                      l: nat)
    requires NodeOutcome(objs, before, routes, cons) && |before| <= l < |routes|
    ensures ListOk(objs, JobLists(routes), Some(l))
    decreases |cons|
  {
    if cons == [] {
      assert false;
    } else {
      var last := cons[|cons| - 1];
      var from := |routes| - |PairHeads(last.first, last.second)|;
      if l < from {
        BuiltLists(objs, before, routes[..from], cons[..|cons| - 1], l);
        assert routes[..from][l] == routes[l];
      } else {
        assert AsPromised(objs, last, routes[l]);
      }
    }
  }

  lemma DanglingIsNoGraph(objs: seq<Obj>, rank: seq<nat>)
    requires Dangling(objs, 0)
    ensures !Graph(objs, rank)
  {
    var id :| 0 <= id < |objs| && objs[id].first == Wild;
    assert !Complete(objs[id]);
  }

  /** What the generator needs of what the parser adds for the connections of a node: the job lists are lists of the
      objects, and these are a graph exactly if no connection has a refusal that goes unnoticed. */
  lemma BuiltIsGraph(objs: seq<Obj>, from: nat, before: seq<Entry>, routes: seq<Entry>, cons: seq<Connection>)
    requires NodeOutcome(objs, before, routes, cons) && from <= |objs| && NodeTidy(objs, from, cons)
    requires Tidy(objs[..from], 0, None)
    ensures (exists rank: seq<nat> :: Graph(objs, rank)) <==> forall c | c in cons :: !Refused(c.first)
    ensures forall l | |before| <= l < |routes| :: ListOk(objs, JobLists(routes), Some(l))
  {
    if forall c | c in cons :: !Refused(c.first) {
      TidyMore(objs[..from], objs, 0, None);
      TidyIsGraph(objs);
    } else {
      forall rank: seq<nat> ensures !Graph(objs, rank) {
        DanglingIsNoGraph(objs, rank);
      }
    }
    forall l | |before| <= l < |routes| ensures ListOk(objs, JobLists(routes), Some(l)) {
      BuiltLists(objs, before, routes, cons, l);
    }
  }

  predicate RoutesOk(objs: seq<Obj>, lists: seq<seq<nat>>, routes: seq<Ends>) {
    forall i | 0 <= i < |routes| :: ListOk(objs, lists, routes[i].source) && ListOk(objs, lists, routes[i].sink)
  }

  /** What the first n routes need. */
  ghost predicate Wanted(objs: seq<Obj>, lists: seq<seq<nat>>, rank: seq<nat>, routes: seq<Ends>, n: nat, e: Element)
    requires Graph(objs, rank) && n <= |routes|
    requires RoutesOk(objs, lists, routes)
  {
    exists i :: 0 <= i < n &&
      (Below(objs, lists, rank, routes[i].source, e) || Below(objs, lists, rank, routes[i].sink, e))
  }

  /** All keys are of routes before this one, or of its source when the sink is printed. */
  predicate Before(keys: seq<Key>, isSource: bool, route: nat) {
    forall k | 0 <= k < |keys| :: keys[k].route < route || (keys[k].route == route && keys[k].isSource && !isSource)
  }

  predicate OnSide(before: seq<Key>, keys: seq<Key>, isSource: bool, route: nat) {
    before <= keys && forall k | |before| <= k < |keys| :: keys[k].isSource == isSource && keys[k].route == route
  }

  /** A list with a name has everything below it in the table. */
  lemma AllBelow(objs: seq<Obj>, lists: seq<seq<nat>>, prefix: CStr, table: seq<Row>, keys: seq<Key>, out: seq<Decl>,
                 rank: seq<nat>, l: nat, e: Element)
    requires Kept(objs, lists, prefix, table, keys, out) && Graph(objs, rank) && ListOk(objs, lists, Some(l))
    requires Has(table, List(l)) && Below(objs, lists, rank, Some(l), e)
    ensures Has(table, e)
  {
    if e.Object? {
      var k :| 0 <= k < |table| && table[k].element == List(l);
      assert DeclOk(objs, lists, table, out, k);
      var m, x :| 0 <= m < |lists[l]| && x in Reach(objs, rank, lists[l][m]) && x == e.id;
      assert Declared(table, k, lists[l][m], out[k].refs[m]);
      Closed(objs, lists, prefix, table, keys, out, rank, lists[l][m], x);
    }
  }

  /** No list of this route and side has a name yet. */
  lemma NoListTakers(objs: seq<Obj>, lists: seq<seq<nat>>, prefix: CStr, table: seq<Row>, keys: seq<Key>,
                     out: seq<Decl>,
                     isSource: bool, route: nat, scope: set<nat>)
    requires Kept(objs, lists, prefix, table, keys, out) && Scoped(table, keys, isSource, route, scope)
    ensures Takers(table, keys, isSource, route, AJobList, 1) == {}
  {
    forall k | 0 <= k < |table| ensures !Matches(keys[k], isSource, route, AJobList) {
      assert KeyOk(objs, lists, prefix, table[k], keys[k]);
    }
  }

  /** The first n of some objects have a name. */
  predicate Printed(table: seq<Row>, ids: seq<nat>, n: nat)
    requires n <= |ids|
  {
    forall k | 0 <= k < n :: Has(table, Object(ids[k]))
  }

  lemma PrintedMore(before: seq<Row>, after: seq<Row>, ids: seq<nat>, n: nat)
    requires n < |ids| && before <= after && Printed(before, ids, n) && Has(after, Object(ids[n]))
    ensures Printed(after, ids, n + 1)
  {
    forall k | 0 <= k < n ensures Has(after, Object(ids[k])) {
      GrewHas(before, after, Object(ids[k]));
    }
  }

  /** A list has been printed on one side of a route: what is new is that list or lies below it. */
  ghost predicate ListPrinted(objs: seq<Obj>, lists: seq<seq<nat>>, rank: seq<nat>, l: nat, start: seq<Row>,
                              end: seq<Row>,
                              was: seq<Key>, keys: seq<Key>, isSource: bool, route: nat)
    requires Graph(objs, rank) && ListOk(objs, lists, Some(l))
  {
    && start <= end && OnSide(was, keys, isSource, route) && Has(end, List(l))
    && forall k | |start| <= k < |end| :: Below(objs, lists, rank, Some(l), end[k].element)
  }

  lemma ListKnown(objs: seq<Obj>, lists: seq<seq<nat>>, rank: seq<nat>, l: nat, start: seq<Row>, end: seq<Row>,
                  was: seq<Key>, keys: seq<Key>, isSource: bool, route: nat)
    requires Graph(objs, rank) && ListOk(objs, lists, Some(l)) && |start| == |was| && was <= keys && Has(end, List(l))
    requires Grew(start, end, keys, isSource, route, ReachAll(objs, rank, lists[l]))
    ensures ListPrinted(objs, lists, rank, l, start, end, was, keys, isSource, route)
  {
  }

  /** The objects of a list are printed, and then the list itself. */
  lemma ListMore(objs: seq<Obj>, lists: seq<seq<nat>>, rank: seq<nat>, l: nat,
                 start: seq<Row>, middle: seq<Row>, end: seq<Row>, was: seq<Key>, before: seq<Key>, keys: seq<Key>,
                 isSource: bool, route: nat)
    requires Graph(objs, rank) && ListOk(objs, lists, Some(l)) && |start| == |was| && was <= before
    requires Grew(start, middle, before, isSource, route, ReachAll(objs, rank, lists[l]))
    requires middle <= end && before <= keys && |end| == |keys| == |middle| + 1 && end[|middle|].element == List(l)
    requires keys[|middle|].isSource == isSource && keys[|middle|].route == route
    ensures ListPrinted(objs, lists, rank, l, start, end, was, keys, isSource, route)
  {
    forall k | |start| <= k < |end| ensures Below(objs, lists, rank, Some(l), end[k].element) {
      if k < |middle| {
        assert end[k] == middle[k];
      }
    }
  }

  lemma BeforeScoped(table: seq<Row>, keys: seq<Key>, isSource: bool, route: nat, scope: set<nat>)
    requires |table| == |keys| && Before(keys, isSource, route)
    ensures Scoped(table, keys, isSource, route, scope)
  {
  }

  lemma RefsHave(table: seq<Row>, o: Obj)
    requires (o.first.To? ==> Has(table, Object(o.first.id))) && (o.second.To? ==> Has(table, Object(o.second.id)))
    ensures forall m | 0 <= m < |Refs(o)| :: Has(table, Object(Refs(o)[m]))
  {
  }

  /** A list that is there has a name. */
  predicate Listed(table: seq<Row>, l: Option<nat>) {
    l.Some? ==> Has(table, List(l.value))
  }

  lemma ListedMore(before: seq<Row>, after: seq<Row>, l: Option<nat>)
    requires before <= after && Listed(before, l)
    ensures Listed(after, l)
  {
    if l.Some? {
      GrewHas(before, after, List(l.value));
    }
  }

  lemma WantedMore(objs: seq<Obj>, lists: seq<seq<nat>>, rank: seq<nat>, routes: seq<Ends>, i: nat,
                   before: seq<Row>, middle: seq<Row>, after: seq<Row>)
    requires Graph(objs, rank) && i < |routes| && before <= middle <= after
    requires RoutesOk(objs, lists, routes)
    requires forall k | 0 <= k < |before| :: Wanted(objs, lists, rank, routes, i, before[k].element)
    requires forall k | |before| <= k < |middle| :: Below(objs, lists, rank, routes[i].source, middle[k].element)
    requires forall k | |middle| <= k < |after| :: Below(objs, lists, rank, routes[i].sink, after[k].element)
    ensures forall k | 0 <= k < |after| :: Wanted(objs, lists, rank, routes, i + 1, after[k].element)
  {
    forall k | 0 <= k < |after| ensures Wanted(objs, lists, rank, routes, i + 1, after[k].element) {
      if k < |before| {
        assert Wanted(objs, lists, rank, routes, i, before[k].element);
      } else if k < |middle| {
        assert after[k] == middle[k];
      }
    }
  }

  /** After the first i routes: nothing but what they need is there, and every list of theirs. */
  ghost predicate Progress(objs: seq<Obj>, lists: seq<seq<nat>>, rank: seq<nat>, routes: seq<Ends>, i: nat,
                           table: seq<Row>)
    requires Graph(objs, rank) && i <= |routes|
    requires RoutesOk(objs, lists, routes)
  {
    && (forall k | 0 <= k < |table| :: Wanted(objs, lists, rank, routes, i, table[k].element))
    && (forall j | 0 <= j < i :: Listed(table, routes[j].source) && Listed(table, routes[j].sink))
  }

  lemma ProgressMore(objs: seq<Obj>, lists: seq<seq<nat>>, rank: seq<nat>, routes: seq<Ends>, i: nat,
                     before: seq<Row>, middle: seq<Row>, after: seq<Row>)
    requires Graph(objs, rank) && i < |routes| && before <= middle <= after
    requires RoutesOk(objs, lists, routes)
    requires Progress(objs, lists, rank, routes, i, before)
    requires forall k | |before| <= k < |middle| :: Below(objs, lists, rank, routes[i].source, middle[k].element)
    requires forall k | |middle| <= k < |after| :: Below(objs, lists, rank, routes[i].sink, after[k].element)
    requires Listed(middle, routes[i].source) && Listed(after, routes[i].sink)
    ensures Progress(objs, lists, rank, routes, i + 1, after)
  {
    WantedMore(objs, lists, rank, routes, i, before, middle, after);
    forall j | 0 <= j < i ensures Listed(after, routes[j].source) && Listed(after, routes[j].sink) {
      ListedMore(before, after, routes[j].source);
      ListedMore(before, after, routes[j].sink);
    }
    ListedMore(middle, after, routes[i].source);
  }

  class Printer {
    const objs: seq<Obj>
    const lists: seq<seq<nat>>
    const prefix: CStr
    var table: seq<Row>
    var out: seq<Decl>
    var currentRoute: nat
    var isSourceJob: bool
    ghost var keys: seq<Key>

    constructor (o: seq<Obj>, l: seq<seq<nat>>, p: CStr)
      ensures objs == o && lists == l && prefix == p && table == [] && keys == [] && out == []
    {
      objs, lists, prefix := o, l, p;
      table, out, keys, currentRoute, isSourceJob := [], [], [], 0, false;
    }

    ghost predicate Valid()
      reads this
    {
      Kept(objs, lists, prefix, table, keys, out) && currentRoute < 0x1_0000
    }

    method GetNameFromTable(e: Element) returns (name: Option<CStr>)
      ensures name.None? ==> !Has(table, e)
      ensures name.Some? ==> exists k :: 0 <= k < |table| && table[k] == Row(e, name.value)
    {
      var k := 0;
      while k < |table|
        invariant 0 <= k <= |table| && forall j | 0 <= j < k :: table[j].element != e
      {
        if table[k].element == e {
          return Some(table[k].name);
        }
        k := k + 1;
      }
      name := None;
    }

    method GetObjectFromTable(name: CStr) returns (found: bool)
      ensures found == HasName(table, name)
    {
      var k := 0;
      while k < |table|
        invariant 0 <= k <= |table| && forall j | 0 <= j < k :: table[j].name != name
      {
        if table[k].name == name {
          return true;
        }
        k := k + 1;
      }
      found := false;
    }

    /** The name for one counter value, as it is written into the buffer. */
    method Format(n: Named, i: nat) returns (name: CStr)
      requires currentRoute < 0x1_0000 && i < 256 && Fits(prefix, isSourceJob, currentRoute, n, i)
      ensures name == Candidate(prefix, isSourceJob, currentRoute, n, i)
    {
      name := Cut(Candidate(prefix, isSourceJob, currentRoute, n, i));
    }

    /** One round of the loop: the name for a counter value, and whether it is taken. */
    method Try(n: Named, i: nat, ghost m: nat) returns (name: CStr, found: bool)
      requires currentRoute < 0x1_0000 && i < m && Room(prefix, isSourceJob, currentRoute, n, m)
      ensures name == Candidate(prefix, isSourceJob, currentRoute, n, i)
      ensures found == NameTaken(table, prefix, isSourceJob, currentRoute, n, i) == HasName(table, name)
    {
      name := Format(n, i);
      found := GetObjectFromTable(name);
    }

    /** The loop over the counter, which has eight bits: it ends at the first name that is not taken. */
    method FirstName(n: Named, ghost free: nat) returns (name: CStr, ghost used: nat)
      requires currentRoute < 0x1_0000 && Room(prefix, isSourceJob, currentRoute, n, free + 1)
      requires !NameTaken(table, prefix, isSourceJob, currentRoute, n, free)
      ensures used <= free && name == Candidate(prefix, isSourceJob, currentRoute, n, used) && !HasName(table, name)
      ensures AllTaken(table, prefix, isSourceJob, currentRoute, n, used)
    {
      var i := 0;
      used := 0;
      var found;
      name, found := Try(n, i, free + 1);
      i := NextCounter(i);
      while found
        invariant used <= free < 256 && i == if used == 255 then 0 else used + 1
        invariant name == Candidate(prefix, isSourceJob, currentRoute, n, used) && found == HasName(table, name)
        invariant found == NameTaken(table, prefix, isSourceJob, currentRoute, n, used)
        invariant AllTaken(table, prefix, isSourceJob, currentRoute, n, used)
        decreases free - used, found
      {
        assert used != free;
        used := used + 1;
        name, found := Try(n, i, free + 1);
        i := NextCounter(i);
      }
    }

    /** GetVariableName for an element without a name. Fewer than m counters are taken. */
    method NewName(e: Element, ghost m: nat) returns (name: CStr, ghost key: Key)
      requires Valid() && InRange(objs, lists, e) && !Has(table, e)
      requires |Takers(table, keys, isSourceJob, currentRoute, NamedOf(objs, e), m)| < m
      requires Room(prefix, isSourceJob, currentRoute, NamedOf(objs, e), m)
      ensures !HasName(table, name) && KeyOk(objs, lists, prefix, Row(e, name), key)
      ensures key.isSource == isSourceJob && key.route == currentRoute
    {
      var n := NamedOf(objs, e);
      ghost var free := FreeCounter(objs, lists, prefix, table, keys, out, isSourceJob, currentRoute, n, m);
      ghost var used;
      name, used := FirstName(n, free);
      key := Key(isSourceJob, currentRoute, n, used);
    }

    /** The names of elements that have one. */
    method Lookup(ids: seq<nat>) returns (names: seq<CStr>)
      requires forall m | 0 <= m < |ids| :: Has(table, Object(ids[m]))
      ensures |names| == |ids| && forall m | 0 <= m < |ids| :: Declared(table, |table|, ids[m], names[m])
    {
      names := [];
      var m := 0;
      while m < |ids|
        invariant 0 <= m <= |ids| && |names| == m
        invariant forall j | 0 <= j < m :: Declared(table, |table|, ids[j], names[j])
      {
        var name := GetNameFromTable(Object(ids[m]));
        names := names + [name.value];
        m := m + 1;
      }
    }

    /** Naming an element and printing its declaration, once everything that it refers to has a name. */
    method Declare(e: Element, needs: seq<nat>, ghost m: nat)
      requires Valid() && InRange(objs, lists, e) && !Has(table, e) && needs == Needs(objs, lists, e)
      requires |Takers(table, keys, isSourceJob, currentRoute, NamedOf(objs, e), m)| < m
      requires Room(prefix, isSourceJob, currentRoute, NamedOf(objs, e), m)
      requires forall m | 0 <= m < |needs| :: Has(table, Object(needs[m]))
      modifies this`table, this`keys, this`out
      ensures Valid() && |table| == |old(table)| + 1
      ensures old(table) <= table && old(keys) <= keys && old(out) <= out
      ensures table[|old(table)|].element == e
      ensures keys[|old(table)|].isSource == isSourceJob && keys[|old(table)|].route == currentRoute
    {
      var name;
      ghost var key;
      name, key := NewName(e, m);
      var refs := Lookup(needs);
      KeptMore(objs, lists, prefix, table, keys, out, Row(e, name), key, Decl(name, refs));
      table, keys, out := table + [Row(e, name)], keys + [key], out + [Decl(name, refs)];
    }

    method DeclareObject(id: nat, ghost scope: set<nat>)
      requires Valid() && id in scope && id < |objs| && !Has(table, Object(id))
      requires Few(objs, scope, prefix, isSourceJob, currentRoute)
      requires Scoped(table, keys, isSourceJob, currentRoute, scope)
      requires forall m | 0 <= m < |Refs(objs[id])| :: Has(table, Object(Refs(objs[id])[m]))
      modifies this`table, this`keys, this`out
      ensures Valid() && Scoped(table, keys, isSourceJob, currentRoute, scope)
      ensures Has(table, Object(id)) && old(keys) <= keys && old(out) <= out
      ensures Grew(old(table), table, keys, isSourceJob, currentRoute, {id})
    {
      FewTakers(objs, lists, prefix, table, keys, out, isSourceJob, currentRoute, scope, id);
      ghost var start, was := table, keys;
      Declare(Object(id), Refs(objs[id]), |OfKind(objs, scope, objs[id].kind)|);
      OneMore(start, was, table, keys, isSourceJob, currentRoute, scope, id);
    }

    method PrintRef(ghost id: nat, r: Ref, ghost rank: seq<nat>, ghost scope: set<nat>)
      requires Valid() && Graph(objs, rank) && id < |objs| && Reach(objs, rank, id) <= scope
      requires Few(objs, scope, prefix, isSourceJob, currentRoute)
      requires Scoped(table, keys, isSourceJob, currentRoute, scope)
      requires !Has(table, Object(id)) && (r == objs[id].first || r == objs[id].second)
      modifies this`table, this`keys, this`out
      ensures Valid() && Scoped(table, keys, isSourceJob, currentRoute, scope)
      ensures r.To? ==> Has(table, Object(r.id))
      ensures old(keys) <= keys && old(out) <= out && !Has(table, Object(id))
      ensures Grew(old(table), table, keys, isSourceJob, currentRoute, Reach(objs, rank, id))
      decreases rank[id], 0
    {
      GraphRefs(objs, rank, id);
      if r.To? {
        PrintUcsElement(r.id, rank, scope);
      }
    }

    method PrintRefs(id: nat, ghost rank: seq<nat>, ghost scope: set<nat>)
      requires Valid() && Graph(objs, rank) && id < |objs| && Reach(objs, rank, id) <= scope
      requires Few(objs, scope, prefix, isSourceJob, currentRoute)
      requires Scoped(table, keys, isSourceJob, currentRoute, scope) && !Has(table, Object(id))
      modifies this`table, this`keys, this`out
      ensures Valid() && Scoped(table, keys, isSourceJob, currentRoute, scope)
      ensures forall m | 0 <= m < |Refs(objs[id])| :: Has(table, Object(Refs(objs[id])[m]))
      ensures old(keys) <= keys && old(out) <= out && !Has(table, Object(id))
      ensures Grew(old(table), table, keys, isSourceJob, currentRoute, Reach(objs, rank, id))
      decreases rank[id], 1
    {
      var o := objs[id];
      ghost var start, ids := table, Reach(objs, rank, id);
      PrintRef(id, o.first, rank, scope);
      ghost var middle, before := table, keys;
      PrintRef(id, o.second, rank, scope);
      GrewTwice(start, middle, table, before, keys, isSourceJob, currentRoute, ids, ids, ids);
      if o.first.To? {
        GrewHas(middle, table, Object(o.first.id));
      }
      RefsHave(table, o);
    }

    /** PrintUcsElement with the Print function of the kind: what an object refers to comes first. */
    method PrintUcsElement(id: nat, ghost rank: seq<nat>, ghost scope: set<nat>)
      requires Valid() && Graph(objs, rank) && id < |objs| && Reach(objs, rank, id) <= scope
      requires Few(objs, scope, prefix, isSourceJob, currentRoute)
      requires Scoped(table, keys, isSourceJob, currentRoute, scope)
      modifies this`table, this`keys, this`out
      ensures Valid() && Has(table, Object(id)) && Scoped(table, keys, isSourceJob, currentRoute, scope)
      ensures old(keys) <= keys && old(out) <= out
      ensures Grew(old(table), table, keys, isSourceJob, currentRoute, Reach(objs, rank, id))
      decreases rank[id], 2
    {
      var known := GetNameFromTable(Object(id));
      if known.Some? {
        return;
      }
      PrintRefs(id, rank, scope);
      ghost var middle, before := table, keys;
      DeclareObject(id, scope);
      GrewTwice(old(table), middle, table, before, keys, isSourceJob, currentRoute, Reach(objs, rank, id), {id},
                Reach(objs, rank, id));
    }

    method PrintNext(ghost start: seq<Row>, jobs: seq<nat>, i: nat, ghost rank: seq<nat>, ghost scope: set<nat>)
      requires Valid() && Graph(objs, rank) && i < |jobs| && jobs[i] < |objs|
      requires Reach(objs, rank, jobs[i]) <= scope && Few(objs, scope, prefix, isSourceJob, currentRoute)
      requires Scoped(table, keys, isSourceJob, currentRoute, scope) && Printed(table, jobs, i)
      requires Grew(start, table, keys, isSourceJob, currentRoute, scope)
      modifies this`table, this`keys, this`out
      ensures Valid() && Scoped(table, keys, isSourceJob, currentRoute, scope) && Printed(table, jobs, i + 1)
      ensures old(keys) <= keys && old(out) <= out
      ensures Grew(start, table, keys, isSourceJob, currentRoute, scope)
    {
      ghost var middle, before := table, keys;
      PrintUcsElement(jobs[i], rank, scope);
      GrewTwice(start, middle, table, before, keys, isSourceJob, currentRoute,
                scope, Reach(objs, rank, jobs[i]), scope);
      PrintedMore(middle, table, jobs, i);
    }

    /** The loop over the objects of a list. */
    method PrintAll(jobs: seq<nat>, ghost rank: seq<nat>, ghost scope: set<nat>)
      requires Valid() && Graph(objs, rank) && (forall k | 0 <= k < |jobs| :: jobs[k] < |objs|) && |jobs| < 0x1_0000
      requires scope == ReachAll(objs, rank, jobs) && Few(objs, scope, prefix, isSourceJob, currentRoute)
      requires Scoped(table, keys, isSourceJob, currentRoute, scope)
      modifies this`table, this`keys, this`out
      ensures Valid() && Scoped(table, keys, isSourceJob, currentRoute, scope)
      ensures old(keys) <= keys && old(out) <= out
      ensures Grew(old(table), table, keys, isSourceJob, currentRoute, scope)
      ensures Printed(table, jobs, |jobs|)
    {
      var i := 0;
      while i < |jobs|
        invariant 0 <= i <= |jobs| && Valid() && Scoped(table, keys, isSourceJob, currentRoute, scope)
        invariant old(keys) <= keys && old(out) <= out && Printed(table, jobs, i)
        invariant Grew(old(table), table, keys, isSourceJob, currentRoute, scope)
      {
        PrintNext(old(table), jobs, i, rank, scope);
        i := i + 1;
      }
    }

    method DeclareList(l: nat, ghost scope: set<nat>)
      requires Valid() && ListOk(objs, lists, Some(l)) && Printed(table, lists[l], |lists[l]|) && !Has(table, List(l))
      requires Room(prefix, isSourceJob, currentRoute, AJobList, 1)
      requires Scoped(table, keys, isSourceJob, currentRoute, scope)
      modifies this`table, this`keys, this`out
      ensures Valid() && old(table) <= table && old(keys) <= keys && old(out) <= out
      ensures |table| == |old(table)| + 1 && table[|old(table)|].element == List(l)
      ensures keys[|old(table)|].isSource == isSourceJob && keys[|old(table)|].route == currentRoute
    {
      NoListTakers(objs, lists, prefix, table, keys, out, isSourceJob, currentRoute, scope);
      Declare(List(l), lists[l], 1);
    }

    method PrintList(l: nat, ghost rank: seq<nat>)
      requires Valid() && Graph(objs, rank) && ListOk(objs, lists, Some(l))
      requires ListFew(objs, lists, rank, Some(l), prefix, isSourceJob, currentRoute)
      requires Before(keys, isSourceJob, currentRoute)
      modifies this`table, this`keys, this`out
      ensures Valid() && old(out) <= out
      ensures ListPrinted(objs, lists, rank, l, old(table), table, old(keys), keys, isSourceJob, currentRoute)
    {
      var jobs := lists[l];
      ghost var scope := ReachAll(objs, rank, jobs);
      BeforeScoped(table, keys, isSourceJob, currentRoute, scope);
      ghost var start, was := table, keys;
      PrintAll(jobs, rank, scope);
      ghost var middle, before := table, keys;
      var known := GetNameFromTable(List(l));
      if known.Some? {
        ListKnown(objs, lists, rank, l, start, table, was, keys, isSourceJob, currentRoute);
        return;
      }
      DeclareList(l, scope);
      ListMore(objs, lists, rank, l, start, middle, table, was, before, keys, isSourceJob, currentRoute);
    }

    /** PrintJobs. */
    method PrintJobs(l: Option<nat>, ghost rank: seq<nat>)
      requires Valid() && Graph(objs, rank) && ListOk(objs, lists, l)
      requires ListFew(objs, lists, rank, l, prefix, isSourceJob, currentRoute)
      requires Before(keys, isSourceJob, currentRoute)
      modifies this`table, this`keys, this`out
      ensures Valid() && old(table) <= table && old(out) <= out && OnSide(old(keys), keys, isSourceJob, currentRoute)
      ensures l.Some? ==> Has(table, List(l.value))
      ensures forall k | |old(table)| <= k < |table| :: Below(objs, lists, rank, l, table[k].element)
    {
      if l.Some? {
        PrintList(l.value, rank);
      }
    }

    /** The body of that loop: the source list of a route, and then its sink list. */
    method PrintRoute(routes: seq<Ends>, i: nat, ghost rank: seq<nat>)
      requires i < |routes| < 0x1_0000 && Valid() && Graph(objs, rank) && Before(keys, true, i + 1)
      requires RoutesOk(objs, lists, routes)
      requires ListFew(objs, lists, rank, routes[i].source, prefix, true, i + 1)
      requires ListFew(objs, lists, rank, routes[i].sink, prefix, false, i + 1)
      requires Progress(objs, lists, rank, routes, i, table)
      modifies this`table, this`keys, this`out, this`currentRoute, this`isSourceJob
      ensures Valid() && old(table) <= table && old(out) <= out && Before(keys, true, i + 2)
      ensures Progress(objs, lists, rank, routes, i + 1, table)
    {
      currentRoute := i + 1;
      isSourceJob := true;
      PrintJobs(routes[i].source, rank);
      ghost var middle := table;
      isSourceJob := false;
      PrintJobs(routes[i].sink, rank);
      ProgressMore(objs, lists, rank, routes, i, old(table), middle, table);
    }

    /** The loop of PrintUcsStructures over the routes, on an empty table. Everything the routes need is declared,
        once, after all that it refers to, under a name that nothing else has; and nothing else is. */
    method PrintResources(routes: seq<Ends>, ghost rank: seq<nat>)
      requires table == [] && keys == [] && out == [] && |routes| < 0x1_0000 && Graph(objs, rank)
      requires RoutesOk(objs, lists, routes)
      requires forall i | 0 <= i < |routes| ::
                 && ListFew(objs, lists, rank, routes[i].source, prefix, true, i + 1)
                 && ListFew(objs, lists, rank, routes[i].sink, prefix, false, i + 1)
      modifies this`table, this`keys, this`out, this`currentRoute, this`isSourceJob
      ensures Kept(objs, lists, prefix, table, keys, out)
      ensures forall e :: Has(table, e) <==> Wanted(objs, lists, rank, routes, |routes|, e)
    {
      var i := 0;
      currentRoute := 0;
      while i < |routes|
        invariant 0 <= i <= |routes| && Valid() && Before(keys, true, i + 1)
        invariant Progress(objs, lists, rank, routes, i, table)
      {
        PrintRoute(routes, i, rank);
        i := i + 1;
      }
      forall e | Wanted(objs, lists, rank, routes, |routes|, e) ensures Has(table, e) {
        var j :| 0 <= j < |routes| &&
          (Below(objs, lists, rank, routes[j].source, e) || Below(objs, lists, rank, routes[j].sink, e));
        assert Listed(table, routes[j].source) && Listed(table, routes[j].sink);
        var l := if Below(objs, lists, rank, routes[j].source, e) then routes[j].source else routes[j].sink;
        AllBelow(objs, lists, prefix, table, keys, out, rank, l.value, e);
      }
    }
  }
}
