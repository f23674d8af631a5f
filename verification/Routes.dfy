/** Joining the endpoints to routes: one pass counts, the other fills the array. */
module Routes {
  import opened CStrings
  import opened Sockets

  const AUTO_ID_START := 0x8000
  const WORD := 0x1_0000

  /** An endpoint of a route: that of an entry, or a default-created one. */
  datatype End = Of(entry: nat) | DefaultSource | DefaultSink

  /** conLabel and fallback describe the static connection of a route without a partner. */
  datatype Route = Route(source: End, sink: End, active: bool, id: int, conLabel: int, fallback: bool)

  /** A route that is wanted, with its explicit identifier if there is one. */
  datatype Plan = Plan(source: End, sink: End, active: bool, wish: int, conLabel: int, fallback: bool)

  /** The name as it is stored: at most 32 bytes. */
  function Name(e: Entry): CStr {
    if e.name.None? then [] else if |e.name.value| <= 32 then e.name.value else e.name.value[..32]
  }

  /** A talker and a listener are linked by equal names that are not empty. */
  predicate Linked(a: Entry, b: Entry) {
    a.isTalker && !b.isTalker && Name(a) != [] && Name(b) != [] && Name(a) == Name(b)
  }

  function NamedPlan(es: seq<Entry>, i: nat, j: nat): Plan
    requires i < |es| && j < |es|
  {
    Plan(Of(i), Of(j), es[j].isActive && es[i].isActive,
         if es[j].routeId != ROUTE_INVALID_ID then es[j].routeId else es[i].routeId, 0, false)
  }

  /** The routes from talker i to the listeners from j on. */
  function SinkPlans(es: seq<Entry>, i: nat, j: nat): seq<Plan>
    requires i < |es| && j <= |es|
    decreases |es| - j
  {
    if j == |es| then []
    else (if Linked(es[i], es[j]) then [NamedPlan(es, i, j)] else []) + SinkPlans(es, i, j + 1)
  }

  /** The routes of the talkers from i on. */
  function NamedPlans(es: seq<Entry>, i: nat): seq<Plan>
    requires i <= |es|
    decreases |es| - i
  {
    if i == |es| then [] else SinkPlans(es, i, 0) + NamedPlans(es, i + 1)
  }

  function LabelPlan(es: seq<Entry>, i: nat, conLabel: int, fallback: bool): Plan
    requires i < |es|
  {
    Plan(if es[i].isTalker then Of(i) else DefaultSource, if es[i].isTalker then DefaultSink else Of(i),
         es[i].isActive, es[i].routeId, conLabel, fallback)
  }

  function NormalPlan(es: seq<Entry>, i: nat): seq<Plan>
    requires i < |es|
  {
    if es[i].normal != 0 then [LabelPlan(es, i, es[i].normal, false)] else []
  }

  function FallbackPlan(es: seq<Entry>, i: nat): seq<Plan>
    requires i < |es|
  {
    if es[i].fallback != 0 then [LabelPlan(es, i, es[i].fallback, true)] else []
  }

  /** The routes by label of the entries from i on. */
  function LabelPlans(es: seq<Entry>, i: nat): seq<Plan>
    requires i <= |es|
    decreases |es| - i
  {
    if i == |es| then [] else NormalPlan(es, i) + FallbackPlan(es, i) + LabelPlans(es, i + 1)
  }

  function Plans(es: seq<Entry>): seq<Plan> {
    NamedPlans(es, 0) + LabelPlans(es, 0)
  }

  // ---- what the plans are ----

  /** Talkers come in the order of the list, and the listeners of each talker too. */
  predicate Before(p: Plan, q: Plan) {
    && p.source.Of? && p.sink.Of? && q.source.Of? && q.sink.Of?
    && (p.source.entry < q.source.entry || (p.source.entry == q.source.entry && p.sink.entry < q.sink.entry))
  }

  predicate Ascending(s: seq<Plan>) {
    forall m, n | 0 <= m < n < |s| :: Before(s[m], s[n])
  }

  lemma AscendingJoin(s: seq<Plan>, t: seq<Plan>)
    requires Ascending(s) && Ascending(t) && forall m, n | 0 <= m < |s| && 0 <= n < |t| :: Before(s[m], t[n])
    ensures Ascending(s + t)
  {
    forall m, n | 0 <= m < n < |s + t| ensures Before((s + t)[m], (s + t)[n]) {
      if n >= |s| {
        assert (s + t)[n] == t[n - |s|];
      }
    }
  }

  lemma {:induction false} SinkPlansAre(es: seq<Entry>, i: nat, j: nat)
    requires i < |es| && j <= |es|
    ensures forall p :: p in SinkPlans(es, i, j) <==>
      exists k | j <= k < |es| :: Linked(es[i], es[k]) && p == NamedPlan(es, i, k)
    ensures Ascending(SinkPlans(es, i, j))
    decreases |es| - j
  {
    if j < |es| {
      SinkPlansAre(es, i, j + 1);
      var t := SinkPlans(es, i, j + 1);
      if Linked(es[i], es[j]) {
        forall n | 0 <= n < |t| ensures Before(NamedPlan(es, i, j), t[n]) {
          assert t[n] in t;
        }
        AscendingJoin([NamedPlan(es, i, j)], t);
      } else {
        AscendingJoin([], t);
      }
    }
  }

  /** The name-linked routes are exactly the pairs of a talker and a listener with the same name, in the
      order of the list. */
  lemma {:induction false} NamedPlansAre(es: seq<Entry>, i: nat)
    requires i <= |es|
    ensures forall p :: p in NamedPlans(es, i) <==>
      exists a, b | i <= a < |es| && 0 <= b < |es| :: Linked(es[a], es[b]) && p == NamedPlan(es, a, b)
    ensures Ascending(NamedPlans(es, i))
    decreases |es| - i
  {
    if i < |es| {
      SinkPlansAre(es, i, 0);
      NamedPlansAre(es, i + 1);
      var s, t := SinkPlans(es, i, 0), NamedPlans(es, i + 1);
      forall m, n | 0 <= m < |s| && 0 <= n < |t| ensures Before(s[m], t[n]) {
        assert s[m] in s && t[n] in t;
      }
      AscendingJoin(s, t);
    }
  }

  // ---- identifiers ----

  predicate Auto(p: Plan) {
    p.wish == ROUTE_INVALID_ID
  }

  /** How many of the plans get an automatic identifier. */
  function Autos(plans: seq<Plan>): nat {
    if plans == [] then 0
    else Autos(plans[..|plans| - 1]) + if Auto(plans[|plans| - 1]) then 1 else 0
  }

  function RouteOf(p: Plan, autoId: int): Route {
    Route(p.source, p.sink, p.active, if Auto(p) then autoId % WORD else p.wish, p.conLabel, p.fallback)
  }

  /** The routes: automatic identifiers are counted up in 16 bits. */
  function Built(plans: seq<Plan>): (r: seq<Route>)
    ensures |r| == |plans|
  {
    if plans == [] then []
    else
      var front := plans[..|plans| - 1];
      Built(front) + [RouteOf(plans[|plans| - 1], AUTO_ID_START + Autos(front))]
  }

  lemma BuiltMore(plans: seq<Plan>, p: Plan)
    ensures Built(plans + [p]) == Built(plans) + [RouteOf(p, AUTO_ID_START + Autos(plans))]
    ensures Autos(plans + [p]) == Autos(plans) + if Auto(p) then 1 else 0
  {
    assert (plans + [p])[..|plans|] == plans;
  }

  lemma {:induction false} BuiltAt(plans: seq<Plan>, k: nat)
    requires k < |plans|
    ensures Built(plans)[k] == RouteOf(plans[k], AUTO_ID_START + Autos(plans[..k]))
    ensures Autos(plans[..k]) + (if Auto(plans[k]) then 1 else 0) <= Autos(plans)
    decreases |plans|
  {
    var front := plans[..|plans| - 1];
    if k < |front| {
      BuiltAt(front, k);
      assert front[..k] == plans[..k];
    } else {
      assert plans[..k] == front;
    }
  }

  lemma {:induction false} AutosGrow(plans: seq<Plan>, j: nat, k: nat)
    requires j < k <= |plans| && Auto(plans[j])
    ensures Autos(plans[..j]) < Autos(plans[..k])
    decreases k
  {
    assert plans[..k][..k - 1] == plans[..k - 1];
    if j < k - 1 {
      AutosGrow(plans, j, k - 1);
    }
  }

  /** Fewer than 0x8000 automatic identifiers are all different, and none is the invalid one. */
  lemma {:induction false} AutoIdsDistinct(plans: seq<Plan>, j: nat, k: nat)
    requires j < k < |plans| && Auto(plans[j]) && Auto(plans[k]) && Autos(plans) < 0x8000
    ensures Built(plans)[j].id != Built(plans)[k].id
    ensures AUTO_ID_START <= Built(plans)[j].id < ROUTE_INVALID_ID
    ensures AUTO_ID_START <= Built(plans)[k].id < ROUTE_INVALID_ID
  {
    BuiltAt(plans, j);
    BuiltAt(plans, k);
    AutosGrow(plans, j, k);
  }

  // ---- what the routes are, from the entries alone ----

  /** A byte of a string; 0 behind its end. */
  function At(s: CStr, i: nat): int {
    if i < |s| then s[i] as int else 0
  }

  function ByteAt(e: Entry, i: nat): int
    requires e.name.Some?
  {
    At(e.name.value, i)
  }

  /** Both have a name, and these agree in 32 bytes. */
  predicate SameName(a: Entry, b: Entry) {
    && a.name.Some? && b.name.Some? && a.name.value != [] && b.name.value != []
    && forall i | 0 <= i < 32 :: ByteAt(a, i) == ByteAt(b, i)
  }

  predicate Paired(es: seq<Entry>, a: nat, b: nat) {
    a < |es| && b < |es| && es[a].isTalker && !es[b].isTalker && SameName(es[a], es[b])
  }

  lemma CutSame(a: CStr, b: CStr)
    requires |a| <= 32 && |b| <= 32 && forall i | 0 <= i < 32 :: At(a, i) == At(b, i)
    ensures a == b
  {
    var n := if |a| < |b| then |a| else |b|;
    assert n < 32 ==> At(a, n) == At(b, n);
    forall i | 0 <= i < |a| && i < |b| ensures a[i] == b[i] {
      assert At(a, i) == At(b, i);
    }
  }

  lemma LinkedIsPaired(es: seq<Entry>, a: nat, b: nat)
    requires a < |es| && b < |es|
    ensures Linked(es[a], es[b]) <==> Paired(es, a, b)
  {
    if SameName(es[a], es[b]) {
      forall i | 0 <= i < 32
        ensures At(Name(es[a]), i) == At(Name(es[b]), i)
      {
        assert ByteAt(es[a], i) == ByteAt(es[b], i);
      }
      CutSame(Name(es[a]), Name(es[b]));
    }
    if Linked(es[a], es[b]) {
      forall i | 0 <= i < 32 ensures ByteAt(es[a], i) == ByteAt(es[b], i) {
        assert ByteAt(es[a], i) == At(Name(es[a]), i) && ByteAt(es[b], i) == At(Name(es[b]), i);
      }
    }
  }

  /** The one entry of a route by label. */
  function Only(r: Route): nat
    requires r.source.Of? || r.sink.Of?
  {
    if r.source.Of? then r.source.entry else r.sink.entry
  }

  /** No entry of the route has an identifier. */
  predicate Unnumbered(es: seq<Entry>, r: Route) {
    && (r.source.Of? && r.source.entry < |es| ==> es[r.source.entry].routeId == 0xffff)
    && (r.sink.Of? && r.sink.entry < |es| ==> es[r.sink.entry].routeId == 0xffff)
  }

  /** A route by name joins a talker and a listener of that name and is active if both are; the identifier of the
      listener comes first, then that of the talker. A route by label has one entry, which says whether it is
      active, and the default endpoint on the other side. */
  predicate RouteOk(es: seq<Entry>, r: Route, auto: int) {
    if r.source.Of? && r.sink.Of? then
      && Paired(es, r.source.entry, r.sink.entry) && r.conLabel == 0 && !r.fallback
      && var talker, listener := es[r.source.entry], es[r.sink.entry];
         && (r.active <==> talker.isActive && listener.isActive)
         && r.id == if listener.routeId != 0xffff then listener.routeId
                    else if talker.routeId != 0xffff then talker.routeId else auto
    else
      && (r.source.Of? || r.sink.Of?) && Only(r) < |es|
      && var own := es[Only(r)];
         && (if own.isTalker then r.source.Of? && r.sink == DefaultSink else r.sink.Of? && r.source == DefaultSource)
         && r.active == own.isActive && r.conLabel != 0
         && r.conLabel == (if r.fallback then own.fallback else own.normal)
         && r.id == if own.routeId != 0xffff then own.routeId else auto
  }

  /** The order of the routes: those by name first, then by talker and by listener; those by label in the order of
      the entries, the label for the fallback network last. */
  predicate Precedes(r: Route, q: Route) {
    if r.source.Of? && r.sink.Of? then
      q.source.Of? && q.sink.Of? ==>
        r.source.entry < q.source.entry || (r.source.entry == q.source.entry && r.sink.entry < q.sink.entry)
    else
      && (r.source.Of? || r.sink.Of?) && (q.source.Of? || q.sink.Of?) && !(q.source.Of? && q.sink.Of?)
      && (Only(r) < Only(q) || (Only(r) == Only(q) && !r.fallback && q.fallback))
  }

  /** How many of the first k routes have got an automatic identifier. */
  function Numbered(es: seq<Entry>, routes: seq<Route>, k: nat): nat
    requires k <= |routes|
  {
    if k == 0 then 0 else Numbered(es, routes, k - 1) + if Unnumbered(es, routes[k - 1]) then 1 else 0
  }

  predicate HasPair(routes: seq<Route>, a: nat, b: nat) {
    exists k | 0 <= k < |routes| :: routes[k].source == Of(a) && routes[k].sink == Of(b)
  }

  predicate HasLabel(routes: seq<Route>, i: nat, fallback: bool) {
    exists k | 0 <= k < |routes| :: (routes[k].source == Of(i) || routes[k].sink == Of(i))
      && !(routes[k].source.Of? && routes[k].sink.Of?) && routes[k].fallback == fallback
  }

  /** The automatic identifiers, in 16 bits. */
  function AutoId(n: nat): int {
    (0x8000 + n) % 0x1_0000
  }

  predicate AllOk(es: seq<Entry>, routes: seq<Route>) {
    forall k | 0 <= k < |routes| :: RouteOk(es, routes[k], AutoId(Numbered(es, routes, k)))
  }

  predicate Sorted(routes: seq<Route>) {
    forall j, k | 0 <= j < k < |routes| :: Precedes(routes[j], routes[k])
  }

  predicate AllPairs(es: seq<Entry>, routes: seq<Route>) {
    forall a, b | 0 <= a < |es| && 0 <= b < |es| && Paired(es, a, b) :: HasPair(routes, a, b)
  }

  predicate AllLabels(es: seq<Entry>, routes: seq<Route>) {
    forall i | 0 <= i < |es| ::
      (es[i].normal != 0 ==> HasLabel(routes, i, false)) && (es[i].fallback != 0 ==> HasLabel(routes, i, true))
  }

  /** All routes that the entries ask for, each of them once and in order, and no other. */
  predicate RoutesOk(es: seq<Entry>, routes: seq<Route>) {
    AllOk(es, routes) && Sorted(routes) && AllPairs(es, routes) && AllLabels(es, routes)
  }

  // ---- the plans are such routes ----

  predicate PlanOk(es: seq<Entry>, p: Plan) {
    RouteOk(es, RouteOf(p, ROUTE_INVALID_ID), ROUTE_INVALID_ID)
  }

  predicate PlanBefore(p: Plan, q: Plan) {
    Precedes(RouteOf(p, 0), RouteOf(q, 0))
  }

  predicate PlansOk(es: seq<Entry>, plans: seq<Plan>) {
    && (forall k | 0 <= k < |plans| :: PlanOk(es, plans[k]))
    && (forall j, k | 0 <= j < k < |plans| :: PlanBefore(plans[j], plans[k]))
  }

  lemma PlansJoin(es: seq<Entry>, s: seq<Plan>, t: seq<Plan>)
    requires PlansOk(es, s) && PlansOk(es, t)
    requires forall m, n | 0 <= m < |s| && 0 <= n < |t| :: PlanBefore(s[m], t[n])
    ensures PlansOk(es, s + t)
  {
    var all := s + t;
    forall k | 0 <= k < |all| ensures PlanOk(es, all[k]) {
      if k >= |s| {
        assert all[k] == t[k - |s|];
      }
    }
    forall j, k | 0 <= j < k < |all| ensures PlanBefore(all[j], all[k]) {
      if k >= |s| {
        assert all[k] == t[k - |s|];
      }
    }
  }

  lemma NamedOk(es: seq<Entry>)
    ensures PlansOk(es, NamedPlans(es, 0))
    ensures forall k | 0 <= k < |NamedPlans(es, 0)| :: NamedPlans(es, 0)[k].source.Of? && NamedPlans(es, 0)[k].sink.Of?
  {
    var plans := NamedPlans(es, 0);
    NamedPlansAre(es, 0);
    forall k | 0 <= k < |plans| ensures PlanOk(es, plans[k]) && plans[k].source.Of? && plans[k].sink.Of? {
      assert plans[k] in plans;
      var a, b :| 0 <= a < |es| && 0 <= b < |es| && Linked(es[a], es[b]) && plans[k] == NamedPlan(es, a, b);
      LinkedIsPaired(es, a, b);
    }
    forall j, k | 0 <= j < k < |plans| ensures PlanBefore(plans[j], plans[k]) {
      assert Before(plans[j], plans[k]);
    }
  }

  predicate ByLabel(p: Plan, i: nat) {
    (p.source == Of(i) && p.sink == DefaultSink) || (p.source == DefaultSource && p.sink == Of(i))
  }

  function LabelEntry(p: Plan): nat {
    if p.source.Of? then p.source.entry else if p.sink.Of? then p.sink.entry else 0
  }

  predicate LabelsFrom(plans: seq<Plan>, i: nat) {
    forall k | 0 <= k < |plans| :: LabelEntry(plans[k]) >= i && ByLabel(plans[k], LabelEntry(plans[k]))
  }

  lemma LabelOf(es: seq<Entry>, i: nat)
    requires i < |es|
    ensures PlansOk(es, NormalPlan(es, i) + FallbackPlan(es, i))
    ensures forall k | 0 <= k < |NormalPlan(es, i) + FallbackPlan(es, i)| ::
      ByLabel((NormalPlan(es, i) + FallbackPlan(es, i))[k], i)
  {
  }

  lemma LabelsSplit(es: seq<Entry>, i: nat)
    requires i < |es|
    ensures LabelPlans(es, i) == NormalPlan(es, i) + FallbackPlan(es, i) + LabelPlans(es, i + 1)
  {
  }

  lemma LabelsJoin(es: seq<Entry>, own: seq<Plan>, others: seq<Plan>, i: nat)
    requires PlansOk(es, own) && (forall k | 0 <= k < |own| :: ByLabel(own[k], i))
    requires PlansOk(es, others) && LabelsFrom(others, i + 1)
    ensures PlansOk(es, own + others) && LabelsFrom(own + others, i)
  {
    forall m, n | 0 <= m < |own| && 0 <= n < |others| ensures PlanBefore(own[m], others[n]) {
      assert ByLabel(others[n], LabelEntry(others[n])) && ByLabel(own[m], i);
    }
    PlansJoin(es, own, others);
    var all := own + others;
    forall k | 0 <= k < |all| ensures LabelEntry(all[k]) >= i && ByLabel(all[k], LabelEntry(all[k])) {
      if k < |own| {
        assert all[k] == own[k] && ByLabel(own[k], i);
      } else {
        assert all[k] == others[k - |own|];
      }
    }
  }

  lemma {:induction false} LabelsOk(es: seq<Entry>, i: nat)
    requires i <= |es|
    ensures PlansOk(es, LabelPlans(es, i)) && LabelsFrom(LabelPlans(es, i), i)
    decreases |es| - i
  {
    if i < |es| {
      LabelsOk(es, i + 1);
      LabelOf(es, i);
      LabelsJoin(es, NormalPlan(es, i) + FallbackPlan(es, i), LabelPlans(es, i + 1), i);
      LabelsSplit(es, i);
    }
  }

  lemma AllPlansOk(es: seq<Entry>)
    ensures PlansOk(es, Plans(es))
  {
    NamedOk(es);
    LabelsOk(es, 0);
    var s, t := NamedPlans(es, 0), LabelPlans(es, 0);
    forall m, n | 0 <= m < |s| && 0 <= n < |t| ensures PlanBefore(s[m], t[n]) {
      assert ByLabel(t[n], LabelEntry(t[n]));
    }
    PlansJoin(es, s, t);
  }

  // ---- every wish has its plan ----

  lemma PairPlanned(es: seq<Entry>, a: nat, b: nat) returns (k: nat)
    requires Paired(es, a, b)
    ensures k < |Plans(es)| && Plans(es)[k].source == Of(a) && Plans(es)[k].sink == Of(b)
  {
    LinkedIsPaired(es, a, b);
    NamedPlansAre(es, 0);
    var p := NamedPlan(es, a, b);
    assert p in NamedPlans(es, 0);
    k :| 0 <= k < |NamedPlans(es, 0)| && NamedPlans(es, 0)[k] == p;
  }

  predicate Planned(plans: seq<Plan>, i: nat, fallback: bool) {
    exists k | 0 <= k < |plans| :: ByLabel(plans[k], i) && plans[k].fallback == fallback
  }

  lemma PlannedBoth(s: seq<Plan>, t: seq<Plan>, i: nat, fallback: bool)
    requires Planned(s, i, fallback) || Planned(t, i, fallback)
    ensures Planned(s + t, i, fallback)
  {
    var all := s + t;
    if k :| 0 <= k < |s| && ByLabel(s[k], i) && s[k].fallback == fallback {
      assert all[k] == s[k];
    } else {
      var k :| 0 <= k < |t| && ByLabel(t[k], i) && t[k].fallback == fallback;
      assert all[|s| + k] == t[k];
    }
  }

  lemma OwnPlanned(es: seq<Entry>, i: nat, fallback: bool)
    requires i < |es| && (if fallback then es[i].fallback else es[i].normal) != 0
    ensures Planned(NormalPlan(es, i) + FallbackPlan(es, i), i, fallback)
  {
    var own := if fallback then FallbackPlan(es, i) else NormalPlan(es, i);
    assert ByLabel(own[0], i) && own[0].fallback == fallback;
    PlannedBoth(NormalPlan(es, i), FallbackPlan(es, i), i, fallback);
  }

  lemma {:induction false} LabelPlanned(es: seq<Entry>, i: nat, j: nat, fallback: bool)
    requires i <= j < |es| && (if fallback then es[j].fallback else es[j].normal) != 0
    ensures Planned(LabelPlans(es, i), j, fallback)
    decreases j - i
  {
    if i < j {
      LabelPlanned(es, i + 1, j, fallback);
    } else {
      OwnPlanned(es, i, fallback);
    }
    LabelsSplit(es, i);
    PlannedBoth(NormalPlan(es, i) + FallbackPlan(es, i), LabelPlans(es, i + 1), j, fallback);
  }

  // ---- and the routes are those of the plans ----

  lemma RoutePlan(es: seq<Entry>, p: Plan, auto: int)
    requires PlanOk(es, p) && 0 <= auto < WORD
    ensures RouteOk(es, RouteOf(p, auto), auto) && (Unnumbered(es, RouteOf(p, auto)) <==> Auto(p))
  {
  }

  lemma AutoIs(p: Plan, n: nat)
    ensures RouteOf(p, AUTO_ID_START + n) == RouteOf(p, AutoId(n)) && 0 <= AutoId(n) < WORD
  {
  }

  lemma BuiltAuto(plans: seq<Plan>, k: nat)
    requires k < |plans|
    ensures Built(plans)[k] == RouteOf(plans[k], AutoId(Autos(plans[..k])))
  {
    BuiltAt(plans, k);
    AutoIs(plans[k], Autos(plans[..k]));
  }

  lemma RouteIs(es: seq<Entry>, plans: seq<Plan>, k: nat)
    requires PlansOk(es, plans) && k < |plans|
    ensures RouteOk(es, Built(plans)[k], AutoId(Autos(plans[..k])))
    ensures Unnumbered(es, Built(plans)[k]) <==> Auto(plans[k])
  {
    var auto := AutoId(Autos(plans[..k]));
    var r := RouteOf(plans[k], auto);
    assert Built(plans)[k] == r by {
      BuiltAuto(plans, k);
    }
    assert RouteOk(es, r, auto) && (Unnumbered(es, r) <==> Auto(plans[k])) by {
      RoutePlan(es, plans[k], auto);
    }
  }

  lemma AutosStep(plans: seq<Plan>, k: nat)
    requires 0 < k <= |plans|
    ensures Autos(plans[..k]) == Autos(plans[..k - 1]) + if Auto(plans[k - 1]) then 1 else 0
  {
    assert plans[..k] == plans[..k - 1] + [plans[k - 1]];
    BuiltMore(plans[..k - 1], plans[k - 1]);
  }

  lemma {:induction false} NumberedIsAutos(es: seq<Entry>, plans: seq<Plan>, k: nat)
    requires PlansOk(es, plans) && k <= |plans|
    ensures Numbered(es, Built(plans), k) == Autos(plans[..k])
  {
    if k > 0 {
      NumberedIsAutos(es, plans, k - 1);
      AutosStep(plans, k);
      RouteIs(es, plans, k - 1);
    }
  }

  lemma BuiltEnds(plans: seq<Plan>, k: nat)
    requires k < |plans|
    ensures var r := Built(plans)[k];
      r.source == plans[k].source && r.sink == plans[k].sink && r.fallback == plans[k].fallback
  {
    BuiltAt(plans, k);
  }

  lemma LabelBuilt(es: seq<Entry>, i: nat, fallback: bool)
    requires i < |es| && (if fallback then es[i].fallback else es[i].normal) != 0
    ensures HasLabel(Built(Plans(es)), i, fallback)
  {
    LabelPlanned(es, 0, i, fallback);
    PlannedBoth(NamedPlans(es, 0), LabelPlans(es, 0), i, fallback);
    var k :| 0 <= k < |Plans(es)| && ByLabel(Plans(es)[k], i) && Plans(es)[k].fallback == fallback;
    BuiltEnds(Plans(es), k);
  }

  lemma BuiltOk(es: seq<Entry>, plans: seq<Plan>)
    requires PlansOk(es, plans)
    ensures AllOk(es, Built(plans))
  {
    forall k | 0 <= k < |plans|
      ensures RouteOk(es, Built(plans)[k], AutoId(Numbered(es, Built(plans), k)))
    {
      NumberedIsAutos(es, plans, k);
      RouteIs(es, plans, k);
    }
  }

  lemma SameEnds(plans: seq<Plan>, j: nat, k: nat)
    requires j < k < |plans| && PlanBefore(plans[j], plans[k])
    ensures Precedes(Built(plans)[j], Built(plans)[k])
  {
    BuiltEnds(plans, j);
    BuiltEnds(plans, k);
  }

  lemma BuiltSorted(es: seq<Entry>, plans: seq<Plan>)
    requires PlansOk(es, plans)
    ensures Sorted(Built(plans))
  {
    forall j, k | 0 <= j < k < |plans| ensures Precedes(Built(plans)[j], Built(plans)[k]) {
      SameEnds(plans, j, k);
    }
  }

  lemma PairBuilt(es: seq<Entry>, a: nat, b: nat)
    requires Paired(es, a, b)
    ensures HasPair(Built(Plans(es)), a, b)
  {
    var k := PairPlanned(es, a, b);
    BuiltEnds(Plans(es), k);
  }

  /** The routes that are built are exactly those that the entries ask for. */
  lemma BuiltRoutesOk(es: seq<Entry>)
    ensures RoutesOk(es, Built(Plans(es)))
  {
    var routes := Built(Plans(es));
    AllPlansOk(es);
    BuiltOk(es, Plans(es));
    BuiltSorted(es, Plans(es));
    forall a, b | 0 <= a < |es| && 0 <= b < |es| && Paired(es, a, b) ensures HasPair(routes, a, b) {
      PairBuilt(es, a, b);
    }
    forall i | 0 <= i < |es|
      ensures (es[i].normal != 0 ==> HasLabel(routes, i, false)) && (es[i].fallback != 0 ==> HasLabel(routes, i, true))
    {
      if es[i].normal != 0 {
        LabelBuilt(es, i, false);
      }
      if es[i].fallback != 0 {
        LabelBuilt(es, i, true);
      }
    }
  }

  // ---- ParseRoutes ----

  lemma Increment(n: int)
    ensures (n % WORD + 1) % WORD == (n + 1) % WORD
  {
  }

  lemma {:induction false} NoTalker(es: seq<Entry>, i: nat, j: nat)
    requires i < |es| && j <= |es| && !es[i].isTalker
    ensures SinkPlans(es, i, j) == []
    decreases |es| - j
  {
    if j < |es| {
      NoTalker(es, i, j + 1);
    }
  }

  method CountSinks(es: seq<Entry>, i: nat, start: int, ghost n0: int) returns (routeAmount: int)
    requires i < |es| && start == n0 % WORD
    ensures routeAmount == (n0 + |SinkPlans(es, i, 0)|) % WORD
  {
    routeAmount := start;
    if !es[i].isTalker {
      NoTalker(es, i, 0);
      return;
    }
    ghost var n := n0;
    var j := 0;
    while j < |es|
      invariant 0 <= j <= |es| && routeAmount == n % WORD
      invariant n == n0 + |SinkPlans(es, i, 0)| - |SinkPlans(es, i, j)|
    {
      if i != j && Linked(es[i], es[j]) {
        Increment(n);
        routeAmount, n := (routeAmount + 1) % WORD, n + 1;
      }
      j := j + 1;
    }
  }

  method CountNames(es: seq<Entry>) returns (routeAmount: int)
    ensures routeAmount == |NamedPlans(es, 0)| % WORD
  {
    routeAmount := 0;
    ghost var n := 0;
    var i := 0;
    while i < |es|
      invariant 0 <= i <= |es| && routeAmount == n % WORD
      invariant n == |NamedPlans(es, 0)| - |NamedPlans(es, i)|
    {
      routeAmount := CountSinks(es, i, routeAmount, n);
      n := n + |SinkPlans(es, i, 0)|;
      i := i + 1;
    }
  }

  /** The counting pass, in 16 bits. */
  method Count(es: seq<Entry>) returns (routeAmount: int)
    ensures routeAmount == |Plans(es)| % WORD
  {
    routeAmount := CountNames(es);
    ghost var n := |NamedPlans(es, 0)|;
    var i := 0;
    while i < |es|
      invariant 0 <= i <= |es| && routeAmount == n % WORD
      invariant n == |Plans(es)| - |LabelPlans(es, i)|
    {
      if es[i].normal != 0 {
        Increment(n);
        routeAmount, n := (routeAmount + 1) % WORD, n + 1;
      }
      if es[i].fallback != 0 {
        Increment(n);
        routeAmount, n := (routeAmount + 1) % WORD, n + 1;
      }
      i := i + 1;
    }
  }

  lemma SameAuto(p: Plan, n: nat)
    ensures RouteOf(p, n % WORD) == RouteOf(p, n)
  {
  }

  /** The routes filled in so far, and the state of the automatic identifiers. */
  predicate Filled(routes: seq<Route>, autoId: int, done: seq<Plan>) {
    routes == Built(done) && autoId == (AUTO_ID_START + Autos(done)) % WORD
  }

  lemma FilledMore(routes: seq<Route>, autoId: int, done: seq<Plan>, p: Plan)
    requires Filled(routes, autoId, done)
    ensures Filled(routes + [RouteOf(p, autoId)], if Auto(p) then (autoId + 1) % WORD else autoId, done + [p])
  {
    BuiltMore(done, p);
    Increment(AUTO_ID_START + Autos(done));
    SameAuto(p, AUTO_ID_START + Autos(done));
  }

  /** One more route, if the array has room for it. */
  method Fill(p: Plan, routes: seq<Route>, autoId: int, routeAmount: int, ghost done: seq<Plan>)
      returns (ok: bool, more: seq<Route>, nextId: int)
    requires Filled(routes, autoId, done)
    ensures ok == (|routes| < routeAmount)
    ensures ok ==> Filled(more, nextId, done + [p])
  {
    more, nextId := routes, autoId;
    if |routes| >= routeAmount {
      return false, more, nextId;
    }
    FilledMore(routes, autoId, done, p);
    more := routes + [RouteOf(p, autoId)];
    if p.wish == ROUTE_INVALID_ID {
      nextId := (autoId + 1) % WORD;
    }
    ok := true;
  }

  lemma Shift(d: seq<Plan>, p: Plan, rest: seq<Plan>)
    ensures d + ([p] + rest) == d + [p] + rest
  {
  }

  /** The filling pass over the listeners of one talker: done were filled before, rest will be after. */
  method FillSinks(es: seq<Entry>, i: nat, routes: seq<Route>, autoId: int, routeAmount: int, ghost done: seq<Plan>)
      returns (ok: bool, more: seq<Route>, nextId: int)
    requires i < |es| && Filled(routes, autoId, done) && |done| <= routeAmount
    ensures ok == (|done| + |SinkPlans(es, i, 0)| <= routeAmount)
    ensures ok ==> Filled(more, nextId, done + SinkPlans(es, i, 0))
  {
    more, nextId := routes, autoId;
    if !es[i].isTalker {
      NoTalker(es, i, 0);
      assert done + [] == done;
      return true, more, nextId;
    }
    ghost var d, all := done, done + SinkPlans(es, i, 0);
    var j := 0;
    while j < |es|
      invariant 0 <= j <= |es| && all == d + SinkPlans(es, i, j)
      invariant Filled(more, nextId, d) && |d| <= routeAmount
    {
      if i != j && Linked(es[i], es[j]) {
        var p := NamedPlan(es, i, j);
        ok, more, nextId := Fill(p, more, nextId, routeAmount, d);
        if !ok {
          return;
        }
        Shift(d, p, SinkPlans(es, i, j + 1));
        d := d + [p];
      }
      j := j + 1;
    }
    assert d + [] == d;
    ok := true;
  }

  lemma ShiftAll(d: seq<Plan>, s: seq<Plan>, rest: seq<Plan>)
    ensures d + (s + rest) == d + s + rest
  {
  }

  /** The filling pass over the names. */
  method FillNames(es: seq<Entry>, routeAmount: int) returns (ok: bool, routes: seq<Route>, autoId: int)
    requires 0 <= routeAmount
    ensures ok == (|NamedPlans(es, 0)| <= routeAmount)
    ensures ok ==> Filled(routes, autoId, NamedPlans(es, 0))
  {
    routes, autoId, ok := [], AUTO_ID_START, true;
    ghost var d: seq<Plan> := [];
    var i := 0;
    while i < |es|
      invariant 0 <= i <= |es| && NamedPlans(es, 0) == d + NamedPlans(es, i)
      invariant ok && Filled(routes, autoId, d) && |d| <= routeAmount
    {
      ShiftAll(d, SinkPlans(es, i, 0), NamedPlans(es, i + 1));
      ok, routes, autoId := FillSinks(es, i, routes, autoId, routeAmount, d);
      if !ok {
        return;
      }
      d := d + SinkPlans(es, i, 0);
      i := i + 1;
    }
    assert d + [] == d;
  }

  /** The routes by label of one entry: GetDefaultCreatedRoute, which tests the capacity again. */
  method FillLabel(es: seq<Entry>, i: nat, routes: seq<Route>, autoId: int, routeAmount: int, ghost done: seq<Plan>)
      returns (ok: bool, more: seq<Route>, nextId: int)
    requires i < |es| && Filled(routes, autoId, done) && |done| <= routeAmount
    ensures ok == (|done| + |NormalPlan(es, i) + FallbackPlan(es, i)| <= routeAmount)
    ensures ok ==> Filled(more, nextId, done + (NormalPlan(es, i) + FallbackPlan(es, i)))
  {
    more, nextId, ok := routes, autoId, true;
    ghost var d := done;
    if es[i].normal != 0 {
      ok, more, nextId := Fill(LabelPlan(es, i, es[i].normal, false), more, nextId, routeAmount, d);
      if !ok {
        return;
      }
      d := d + NormalPlan(es, i);
    }
    assert d == done + NormalPlan(es, i);
    if es[i].fallback != 0 {
      ok, more, nextId := Fill(LabelPlan(es, i, es[i].fallback, true), more, nextId, routeAmount, d);
      if !ok {
        return;
      }
      d := d + FallbackPlan(es, i);
    }
    ShiftAll(done, NormalPlan(es, i), FallbackPlan(es, i));
    assert d == done + NormalPlan(es, i) + FallbackPlan(es, i);
  }

  /** The filling pass over the labels. */
  method FillLabels(es: seq<Entry>, start: seq<Route>, startId: int, routeAmount: int, ghost done: seq<Plan>)
      returns (ok: bool, routes: seq<Route>, autoId: int)
    requires Filled(start, startId, done) && |done| <= routeAmount
    ensures ok == (|done| + |LabelPlans(es, 0)| <= routeAmount)
    ensures ok ==> Filled(routes, autoId, done + LabelPlans(es, 0))
  {
    routes, autoId, ok := start, startId, true;
    ghost var d, all := done, done + LabelPlans(es, 0);
    var i := 0;
    while i < |es|
      invariant 0 <= i <= |es| && all == d + LabelPlans(es, i)
      invariant ok && Filled(routes, autoId, d) && |d| <= routeAmount
    {
      ShiftAll(d, NormalPlan(es, i) + FallbackPlan(es, i), LabelPlans(es, i + 1));
      ok, routes, autoId := FillLabel(es, i, routes, autoId, routeAmount, d);
      if !ok {
        return;
      }
      d := d + (NormalPlan(es, i) + FallbackPlan(es, i));
      i := i + 1;
    }
    assert d + [] == d;
  }

  method FillAll(es: seq<Entry>) returns (ok: bool, routes: seq<Route>)
    ensures |Plans(es)| < WORD ==> ok && routes == Built(Plans(es))
    ensures |Plans(es)| >= WORD ==> if |Plans(es)| % WORD == 0 then ok && routes == [] else !ok
  {
    var routeAmount := Count(es);
    routes := [];
    if routeAmount == 0 {
      return true, [];
    }
    var autoId;
    ok, routes, autoId := FillNames(es, routeAmount);
    if !ok {
      return;
    }
    ok, routes, autoId := FillLabels(es, routes, autoId, routeAmount, NamedPlans(es, 0));
  }

  /** ParseRoutes: with fewer than 2^16 routes the passes agree, all routes that the entries ask for are filled in
      and the capacity is never exceeded. With more, the 16-bit count is wrong: nothing is filled in or the call
      fails. */
  method ParseRoutes(es: seq<Entry>) returns (ok: bool, routes: seq<Route>)
    ensures |Plans(es)| < WORD ==> ok && routes == Built(Plans(es)) && RoutesOk(es, routes)
    ensures |Plans(es)| >= WORD ==> if |Plans(es)| % WORD == 0 then ok && routes == [] else !ok
  {
    ok, routes := FillAll(es);
    BuiltRoutesOk(es);
  }
}
