/** Parsing the connections of a node, with two sockets each.

    Objects are created, the shared connection state is passed from socket to socket, and every endpoint gets its
    job list. */
module Sockets {
  import opened CStrings

  datatype Kind =
    | DcPort | MlbPort | UsbPort | StrmPort | RmckPort
    | NwSocket | MlbSocket | UsbSocket | StrmSocket
    | Splitter | Combiner | SyncCon | AvpCon

  predicate IsPortKind(k: Kind) {
    k == DcPort || k == MlbPort || k == UsbPort || k == StrmPort || k == RmckPort
  }

  predicate IsCon(k: Kind) {
    k == SyncCon || k == AvpCon
  }

  predicate IsPeriph(k: Kind) {
    k == UsbSocket || k == MlbSocket || k == StrmSocket
  }

  /** A pointer to another object: null, never assigned, or the number of the object. */
  datatype Ref = Null | Wild | To(id: nat)

  /** A resource object with the objects that it refers to. */
  datatype Obj = Obj(kind: Kind, first: Ref, second: Ref)

  // ---- complete objects without cycles ----

  /** Every object refers to what its kind needs. */
  predicate Complete(o: Obj) {
    if IsPortKind(o.kind) || o.kind == NwSocket then o.first == Null && o.second == Null
    else if IsCon(o.kind) then o.first.To? && o.second.To?
    else o.first.To? && o.second == Null
  }

  /** Kinds refer to kinds of lower rank. */
  function RankOf(k: Kind): nat {
    if IsCon(k) then 3 else if k == Splitter || k == Combiner then 2 else if IsPeriph(k) then 1 else 0
  }

  predicate RefOk(objs: seq<Obj>, r: Ref, rank: nat) {
    r.To? ==> r.id < |objs| && RankOf(objs[r.id].kind) < rank
  }

  predicate ObjOk(objs: seq<Obj>, o: Obj) {
    Complete(o) && RefOk(objs, o.first, RankOf(o.kind)) && RefOk(objs, o.second, RankOf(o.kind))
  }

  /** The objects from a position on are complete, except for one perhaps. */
  predicate Tidy(objs: seq<Obj>, from: nat, except: Option<nat>) {
    forall id | from <= id < |objs| && Some(id) != except :: ObjOk(objs, objs[id])
  }

  lemma ObjOkKept(objs: seq<Obj>, more: seq<Obj>, o: Obj)
    requires ObjOk(objs, o) && |objs| <= |more| && forall id | 0 <= id < |objs| :: more[id].kind == objs[id].kind
    ensures ObjOk(more, o)
  {
  }

  lemma TidyMore(objs: seq<Obj>, more: seq<Obj>, from: nat, except: Option<nat>)
    requires Tidy(objs, from, except) && objs <= more && Tidy(more, |objs|, None)
    ensures Tidy(more, from, except)
  {
    forall id | from <= id < |more| && Some(id) != except ensures ObjOk(more, more[id]) {
      if id < |objs| {
        ObjOkKept(objs, more, objs[id]);
      }
    }
  }

  lemma TidyAppend(objs: seq<Obj>, from: nat, except: Option<nat>, o: Obj)
    requires Tidy(objs, from, except) && (Some(|objs|) != except ==> ObjOk(objs, o))
    ensures Tidy(objs + [o], from, except)
  {
    var more := objs + [o];
    forall id | from <= id < |more| && Some(id) != except ensures ObjOk(more, more[id]) {
      ObjOkKept(objs, more, more[id]);
    }
  }

  // ---- dependency order ----

  predicate Refers(r: Ref, front: seq<nat>) {
    match r
    case Null => true
    case Wild => false
    case To(id) => id in front
  }

  /** Whatever a job refers to occurs earlier in the list. */
  predicate Built(objs: seq<Obj>, jobs: seq<nat>) {
    forall k | 0 <= k < |jobs| ::
      jobs[k] < |objs| && Refers(objs[jobs[k]].first, jobs[..k]) && Refers(objs[jobs[k]].second, jobs[..k])
  }

  lemma BuiltAppend(objs: seq<Obj>, jobs: seq<nat>, id: nat)
    requires Built(objs, jobs) && id < |objs| && Refers(objs[id].first, jobs) && Refers(objs[id].second, jobs)
    ensures Built(objs, jobs + [id])
  {
    var all := jobs + [id];
    forall k | 0 <= k < |all|
      ensures all[k] < |objs| && Refers(objs[all[k]].first, all[..k]) && Refers(objs[all[k]].second, all[..k])
    {
      assert all[..k] == jobs[..k];
    }
  }

  /** A list without a new job in front of it was not in order before. */
  lemma BuiltFront(objs: seq<Obj>, jobs: seq<nat>, id: nat)
    requires Built(objs, jobs + [id])
    ensures Built(objs, jobs) && id < |objs| && Refers(objs[id].first, jobs) && Refers(objs[id].second, jobs)
  {
    var all := jobs + [id];
    assert all[..|jobs|] == jobs && all[|jobs|] == id;
    forall k | 0 <= k < |jobs|
      ensures jobs[k] < |objs| && Refers(objs[jobs[k]].first, jobs[..k]) && Refers(objs[jobs[k]].second, jobs[..k])
    {
      assert all[k] == jobs[k] && all[..k] == jobs[..k];
    }
  }

  /** Objects that are not in the list may change, and new ones may come. */
  lemma BuiltKept(objs: seq<Obj>, more: seq<Obj>, jobs: seq<nat>)
    requires Built(objs, jobs) && |objs| <= |more| && forall id | id in jobs :: id < |objs| && more[id] == objs[id]
    ensures Built(more, jobs)
  {
    forall k | 0 <= k < |jobs|
      ensures jobs[k] < |more| && Refers(more[jobs[k]].first, jobs[..k]) && Refers(more[jobs[k]].second, jobs[..k])
    {
      assert jobs[k] in jobs;
    }
  }

  // ---- what is read from the document ----

  datatype Active = NoActive | IsTrue | IsFalse | WrongActive

  /** The attributes of a network socket; bandwidth says whether the mandatory attribute is there. */
  datatype Net = Net(bandwidth: bool, normal: Option<int>, route: Option<CStr>, fallback: Option<int>, active: Active,
                     routeId: Option<int>, offset: Option<int>)

  datatype Pin = NoPin | PinA | PinB | WrongPin

  datatype Periph =
    | Usb(endpointAddress: bool, framesPerTransaction: bool)
    | Mlb(bandwidth: bool, channelAddress: bool)
    | Strm(bandwidth: bool, pin: Pin)

  datatype Socket =
    | Network(net: Net)
    | Peripheral(p: Periph)
    | Split(bytesPerFrame: bool, nets: seq<Net>)
    | Combine(bytesPerFrame: bool, nets: seq<Net>)

  datatype ParseResult = Success | MemoryError | XmlError

  datatype DataType = SyncData | AvPacketized

  const ROUTE_INVALID_ID := 0xffff

  datatype NodeData = NodeData(usbPort: Option<nat>, mlbPort: Option<nat>, strmPortA: Option<nat>,
                               strmPortB: Option<nat>)

  datatype Link = Link(isDeactivated: bool, routeId: int, syncOffset: int, routeName: Option<CStr>, labelNormal: int,
                       labelFallback: int)

  /** ConnectionData_t: link holds what the network socket says. */
  datatype ConData = ConData(dataType: DataType, syncOffsetNeeded: bool, link: Link,
                             inSocket: Option<nat>, outSocket: Option<nat>,
                             combiner: Option<nat>, splitter: Option<nat>, pending: seq<Net>)

  const NO_LINK := Link(false, 0, 0, None, 0, 0)

  function NewCon(dataType: DataType): ConData {
    ConData(dataType, false, NO_LINK, None, None, None, None, [])
  }

  /** The attributes of a network socket are accepted: checked in this order by the parser. */
  predicate NetOk(net: Net, offsetNeeded: bool) {
    && net.bandwidth && (net.normal.Some? || net.route.Some?) && net.active != WrongActive
    && (offsetNeeded ==> net.offset.Some?)
  }

  /** The attributes of a peripheral socket are accepted; streaming ports carry synchronous data only. */
  predicate PeriphOk(p: Periph, dataType: DataType) {
    match p
    case Usb(endpointAddress, framesPerTransaction) => endpointAddress && framesPerTransaction
    case Mlb(bandwidth, channelAddress) => bandwidth && channelAddress
    case Strm(bandwidth, pin) => bandwidth && (pin == PinA || pin == PinB) && dataType == SyncData
  }

  /** What the attributes of a network socket leave behind in the connection state, also when one of them is
      refused: those before it have been stored. A route name or label of an earlier socket stays. */
  function ReadLink(link: Link, net: Net, offsetNeeded: bool): Link {
    if !net.bandwidth || (net.normal.None? && net.route.None?) then link
    else
      var named := if net.normal.Some? then link.(labelNormal := net.normal.value) else link.(routeName := net.route);
      var both := if net.fallback.Some? then named.(labelFallback := net.fallback.value) else named;
      if net.active == WrongActive then both
      else
        var id := if net.routeId.Some? then net.routeId.value else ROUTE_INVALID_ID;
        var full := both.(isDeactivated := net.active == IsFalse, routeId := id);
        if offsetNeeded && net.offset.Some? then full.(syncOffset := net.offset.value) else full
  }

  // ---- which endpoints come out ----

  /** UcsXmlRoute, with the job list of its endpoint. */
  datatype Entry = Entry(isTalker: bool, isActive: bool, routeId: int, name: Option<CStr>, normal: int, fallback: int,
                         jobs: seq<nat>)

  predicate Named(link: Link) {
    link.routeName.Some? || link.labelNormal != 0
  }

  /** A route entry without its jobs. */
  function Head(link: Link, isTalker: bool): Entry {
    Entry(isTalker, !link.isDeactivated, link.routeId, link.routeName,
          if link.routeName.Some? then 0 else link.labelNormal, link.labelFallback, [])
  }

  /** The entries of network sockets that are read one after the other: one for each that is accepted while
      a name or a label is known. */
  function Heads(nets: seq<Net>, link: Link, offsetNeeded: bool, isTalker: bool): seq<Entry> {
    if nets == [] then []
    else
      var next := ReadLink(link, nets[0], offsetNeeded);
      var others := Heads(nets[1..], next, offsetNeeded, isTalker);
      if NetOk(nets[0], offsetNeeded) && Named(next) then [Head(next, isTalker)] + others else others
  }

  lemma HeadsNext(nets: seq<Net>, k: nat, link: Link, offsetNeeded: bool, isTalker: bool, heads: seq<Entry>)
    requires k < |nets|
    ensures var next := ReadLink(link, nets[k], offsetNeeded);
      var more := if NetOk(nets[k], offsetNeeded) && Named(next) then heads + [Head(next, isTalker)] else heads;
      more + Heads(nets[k + 1..], next, offsetNeeded, isTalker)
      == heads + Heads(nets[k..], link, offsetNeeded, isTalker)
  {
    assert nets[k..][0] == nets[k] && nets[k..][1..] == nets[k + 1..];
    var next := ReadLink(link, nets[k], offsetNeeded);
    var others := Heads(nets[k + 1..], next, offsetNeeded, isTalker);
    assert heads + [Head(next, isTalker)] + others == heads + ([Head(next, isTalker)] + others);
  }

  /** From a position on these are the entries, apart from their jobs. */
  predicate HaveHeads(routes: seq<Entry>, from: nat, heads: seq<Entry>) {
    |routes| == from + |heads| && forall k | 0 <= k < |heads| :: routes[from + k].(jobs := []) == heads[k]
  }

  lemma HeadsMore(routes: seq<Entry>, all: seq<Entry>, from: nat, heads: seq<Entry>, h: Entry)
    requires HaveHeads(routes, from, heads) && routes <= all && |all| == |routes| + 1 && all[|routes|].(jobs := []) == h
    ensures HaveHeads(all, from, heads + [h])
  {
  }

  /** What the first socket leaves behind for the connection. */
  function FirstLink(first: Socket): Link {
    match first
    case Network(net) => ReadLink(NO_LINK, net, false)
    case Split(_, nets) => if nets == [] then NO_LINK else ReadLink(NO_LINK, nets[0], true)
    case _ => NO_LINK
  }

  /** The first socket is accepted. What becomes of the network sockets inside it is not looked at. */
  predicate FirstOk(first: Socket, dataType: DataType) {
    match first
    case Network(net) => NetOk(net, false)
    case Peripheral(p) => PeriphOk(p, dataType)
    case Split(bytesPerFrame, nets) => bytesPerFrame && nets != []
    case Combine(bytesPerFrame, nets) => bytesPerFrame && nets != []
  }

  /** One socket on the network side, one on the side of the peripherals. */
  predicate OneNetworkSide(first: Socket, second: Socket) {
    if first.Peripheral? then second.Network? || second.Split? else second.Peripheral?
  }

  /** Both sockets are accepted and, except for the sockets inside a splitter or a combiner, can be connected. */
  predicate PairOk(first: Socket, second: Socket, dataType: DataType) {
    && FirstOk(first, dataType)
    && match second
       case Peripheral(p) => PeriphOk(p, dataType) && (first.Combine? || Named(FirstLink(first)))
       case Network(net) => NetOk(net, false) && Named(ReadLink(NO_LINK, net, false))
       case Split(bytesPerFrame, nets) => bytesPerFrame && nets != []
       case Combine(_, _) => false
  }

  /** The entries of an accepted pair: one for each accepted network socket with a name or a label. */
  function PairHeads(first: Socket, second: Socket): seq<Entry> {
    if first.Combine? then Heads(first.nets, NO_LINK, true, false)
    else if second.Split? then Heads(second.nets, NO_LINK, true, true)
    else if second.Network? then [Head(ReadLink(NO_LINK, second.net, false), true)]
    else [Head(FirstLink(first), false)]
  }

  // ---- what an endpoint takes from its network socket ----

  /** The attributes that a network socket must have. */
  predicate Attributed(net: Net, offsetNeeded: bool) {
    && net.bandwidth && (net.normal != None || net.route != None)
    && (net.active == NoActive || net.active == IsTrue || net.active == IsFalse)
    && (offsetNeeded ==> net.offset != None)
  }

  /** The entry is that of the socket: inactive exactly if the socket says so, with its own identifier. Without a label
      it has the socket's name; with one it has that label or the name of a socket that was read before. */
  predicate HeadFrom(net: Net, e: Entry, offsetNeeded: bool, isTalker: bool) {
    && Attributed(net, offsetNeeded) && e.isTalker == isTalker && e.isActive == (net.active != IsFalse)
    && e.routeId == (if net.routeId.Some? then net.routeId.value else 0xffff)
    && (if net.normal.None? then e.name == net.route else e.name.Some? || e.normal == net.normal.value)
    && (e.name.Some? ==> e.normal == 0) && (e.name.None? ==> e.normal != 0)
    && (net.fallback.Some? ==> e.fallback == net.fallback.value)
  }

  lemma HeadIsFrom(link: Link, net: Net, offsetNeeded: bool, isTalker: bool)
    ensures NetOk(net, offsetNeeded) <==> Attributed(net, offsetNeeded)
    ensures var next := ReadLink(link, net, offsetNeeded);
      && (NetOk(net, offsetNeeded) && Named(next) ==> HeadFrom(net, Head(next, isTalker), offsetNeeded, isTalker))
      && (NetOk(net, offsetNeeded) && (net.normal.None? || net.normal.value != 0) ==> Named(next))
  {
  }

  /** Which sockets the entries come from. */
  predicate HeadsFrom(nets: seq<Net>, heads: seq<Entry>, origin: seq<nat>, offsetNeeded: bool, isTalker: bool) {
    && |origin| == |heads| && (forall m, n | 0 <= m < n < |origin| :: origin[m] < origin[n])
    && (forall m | 0 <= m < |origin| ::
          origin[m] < |nets| && HeadFrom(nets[origin[m]], heads[m], offsetNeeded, isTalker))
    && (forall k: nat | k < |nets| && Attributed(nets[k], offsetNeeded) && nets[k].normal != Some(0) :: k in origin)
  }

  function Shifted(origin: seq<nat>): (r: seq<nat>)
    ensures |r| == |origin| && forall m | 0 <= m < |r| :: r[m] == origin[m] + 1
  {
    seq(|origin|, m requires 0 <= m < |origin| => origin[m] + 1)
  }

  /** The places of the entries when there is one more socket in front, with or without an entry. */
  function Moved(one: bool, origin: seq<nat>): seq<nat> {
    (if one then [0] else []) + Shifted(origin)
  }

  lemma MovedEntries(nets: seq<Net>, others: seq<Entry>, origin: seq<nat>, offsetNeeded: bool, isTalker: bool,
                     front: seq<Entry>)
    requires nets != [] && HeadsFrom(nets[1..], others, origin, offsetNeeded, isTalker)
    requires front == [] || (|front| == 1 && HeadFrom(nets[0], front[0], offsetNeeded, isTalker))
    ensures var all := Moved(front != [], origin);
      |all| == |front + others| && forall m | 0 <= m < |all| ::
        all[m] < |nets| && HeadFrom(nets[all[m]], (front + others)[m], offsetNeeded, isTalker)
  {
    var all := Moved(front != [], origin);
    forall m | 0 <= m < |all|
      ensures all[m] < |nets| && HeadFrom(nets[all[m]], (front + others)[m], offsetNeeded, isTalker)
    {
      if m >= |front| {
        assert nets[1..][origin[m - |front|]] == nets[all[m]];
      }
    }
  }

  lemma MovedComplete(origin: seq<nat>, one: bool, k: nat)
    requires k > 0 && k - 1 in origin
    ensures k in Moved(one, origin)
  {
    var m :| 0 <= m < |origin| && origin[m] == k - 1;
    assert Moved(one, origin)[(if one then 1 else 0) + m] == k;
  }

  lemma HeadsFromMore(nets: seq<Net>, others: seq<Entry>, origin: seq<nat>, offsetNeeded: bool, isTalker: bool,
                      front: seq<Entry>)
    requires nets != [] && HeadsFrom(nets[1..], others, origin, offsetNeeded, isTalker)
    requires front == [] || (|front| == 1 && HeadFrom(nets[0], front[0], offsetNeeded, isTalker))
    requires front == [] ==> !Attributed(nets[0], offsetNeeded) || nets[0].normal == Some(0)
    ensures HeadsFrom(nets, front + others, Moved(front != [], origin), offsetNeeded, isTalker)
  {
    var all := Moved(front != [], origin);
    MovedEntries(nets, others, origin, offsetNeeded, isTalker, front);
    forall k: nat | k < |nets| && Attributed(nets[k], offsetNeeded) && nets[k].normal != Some(0) ensures k in all {
      if k > 0 {
        assert nets[1..][k - 1] == nets[k];
        MovedComplete(origin, front != [], k);
      } else {
        assert all[0] == 0;
      }
    }
  }

  /** Every entry comes from one accepted socket, in the order of the sockets, and every accepted socket that has
      a name or a label other than 0 has its entry. */
  lemma {:induction false} HeadsCome(nets: seq<Net>, link: Link, offsetNeeded: bool, isTalker: bool)
      returns (origin: seq<nat>)
    ensures HeadsFrom(nets, Heads(nets, link, offsetNeeded, isTalker), origin, offsetNeeded, isTalker)
    decreases |nets|
  {
    origin := [];
    if nets != [] {
      var next := ReadLink(link, nets[0], offsetNeeded);
      var others := HeadsCome(nets[1..], next, offsetNeeded, isTalker);
      HeadIsFrom(link, nets[0], offsetNeeded, isTalker);
      var front := if NetOk(nets[0], offsetNeeded) && Named(next) then [Head(next, isTalker)] else [];
      HeadsFromMore(nets, Heads(nets[1..], next, offsetNeeded, isTalker), others, offsetNeeded, isTalker, front);
      origin := Moved(front != [], others);
      assert front + Heads(nets[1..], next, offsetNeeded, isTalker) == Heads(nets, link, offsetNeeded, isTalker);
    }
  }

  /** The network sockets of a pair. */
  function NetsOf(first: Socket, second: Socket): seq<Net> {
    if first.Combine? then first.nets
    else if second.Split? then second.nets
    else if second.Network? then [second.net]
    else if first.Network? then [first.net]
    else if first.Split? && first.nets != [] then [first.nets[0]]
    else []
  }

  /** The endpoints of an accepted pair are those of its network sockets: talkers if the network is the sink. */
  lemma PairHeadsCome(first: Socket, second: Socket, dataType: DataType) returns (origin: seq<nat>)
    requires OneNetworkSide(first, second) && PairOk(first, second, dataType)
    requires first.Split? ==> NetOk(first.nets[0], true)
    ensures HeadsFrom(NetsOf(first, second), PairHeads(first, second), origin,
                      first.Combine? || first.Split? || second.Split?, first.Peripheral?)
  {
    if first.Combine? {
      origin := HeadsCome(first.nets, NO_LINK, true, false);
    } else if second.Split? {
      origin := HeadsCome(second.nets, NO_LINK, true, true);
    } else {
      origin := [0];
      var nets := NetsOf(first, second);
      HeadIsFrom(NO_LINK, nets[0], first.Split?, first.Peripheral?);
    }
  }

  // ---- job lists of endpoints ----

  /** The one connection is the last job, and the jobs are in dependency order. */
  predicate EntryOk(objs: seq<Obj>, e: Entry) {
    && e.jobs != [] && Built(objs, e.jobs) && IsCon(objs[e.jobs[|e.jobs| - 1]].kind)
    && forall k | 0 <= k < |e.jobs| - 1 :: !IsCon(objs[e.jobs[k]].kind)
  }

  lemma EntryKept(objs: seq<Obj>, more: seq<Obj>, e: Entry)
    requires EntryOk(objs, e) && objs <= more
    ensures EntryOk(more, e)
  {
    BuiltKept(objs, more, e.jobs);
  }

  /** A list in dependency order without a connection so far. */
  predicate Plain(objs: seq<Obj>, jobs: seq<nat>) {
    Built(objs, jobs) && forall k | 0 <= k < |jobs| :: jobs[k] < |objs| && !IsCon(objs[jobs[k]].kind)
  }

  lemma PlainAppend(objs: seq<Obj>, more: seq<Obj>, jobs: seq<nat>, id: nat)
    requires Plain(objs, jobs) && objs <= more && id < |more| && !IsCon(more[id].kind)
    requires Refers(more[id].first, jobs) && Refers(more[id].second, jobs)
    ensures Plain(more, jobs + [id])
  {
    BuiltKept(objs, more, jobs);
    BuiltAppend(more, jobs, id);
  }

  lemma PlainKept(objs: seq<Obj>, more: seq<Obj>, jobs: seq<nat>)
    requires Plain(objs, jobs) && objs <= more
    ensures Plain(more, jobs)
  {
    BuiltKept(objs, more, jobs);
  }

  // ---- objects that are added ----

  function Opt(o: Option<nat>): seq<nat> {
    if o.Some? then [o.value] else []
  }

  predicate IsPort(objs: seq<Obj>, p: Option<nat>) {
    p.Some? ==>
      p.value < |objs| && objs[p.value] == Obj(objs[p.value].kind, Null, Null) && IsPortKind(objs[p.value].kind)
  }

  predicate PortsOk(objs: seq<Obj>, node: NodeData) {
    && IsPort(objs, node.usbPort) && IsPort(objs, node.mlbPort)
    && IsPort(objs, node.strmPortA) && IsPort(objs, node.strmPortB)
  }

  lemma PortsKept(objs: seq<Obj>, more: seq<Obj>, node: NodeData)
    requires PortsOk(objs, node) && objs <= more
    ensures PortsOk(more, node)
  {
  }

  function Target(c: ConData, isSource: bool, s: nat): ConData {
    if isSource then c.(inSocket := Some(s)) else c.(outSocket := Some(s))
  }

  function SocketKind(p: Periph): (k: Kind)
    ensures IsPeriph(k)
  {
    match p
    case Usb(_, _) => UsbSocket
    case Mlb(_, _) => MlbSocket
    case Strm(_, _) => StrmSocket
  }

  /** The object is that socket, on a port. */
  predicate PeriphAt(objs: seq<Obj>, p: Periph, s: nat) {
    && s < |objs| && objs[s].kind == SocketKind(p) && objs[s].first.To? && objs[s].second == Null
    && objs[s].first.id < |objs| && IsPortKind(objs[objs[s].first.id].kind)
  }

  predicate NetworkAt(objs: seq<Obj>, n: nat) {
    n < |objs| && objs[n] == Obj(NwSocket, Null, Null)
  }

  /** Ports and a socket have been added, and everything is still in order. */
  predicate PeriphAdded(objs0: seq<Obj>, objs: seq<Obj>, jobs0: seq<nat>, jobs: seq<nat>, p: Periph, s: nat) {
    && objs0 <= objs && jobs0 <= jobs && |jobs0| < |jobs| <= |jobs0| + 3 && jobs[|jobs| - 1] == s
    && |objs0| <= s < |objs|
    && PeriphAt(objs, p, s) && Plain(objs, jobs) && Tidy(objs, |objs0|, None)
    && forall id | id in jobs :: id in jobs0 || id >= |objs0| || IsPortKind(objs[id].kind)
  }

  lemma OnPort(objs0: seq<Obj>, objs1: seq<Obj>, objs: seq<Obj>, jobs: seq<nat>, port: nat, p: Periph, s: nat)
    requires objs0 <= objs1 && objs1 <= objs && IsPort(objs1, Some(port)) && s == |objs1| < |objs|
    requires PeriphAt(objs, p, s) && Plain(objs, jobs + [port] + [s])
    requires Tidy(objs1, |objs0|, None) && Tidy(objs, |objs1|, None)
    ensures PeriphAdded(objs0, objs, jobs, jobs + [port] + [s], p, s)
  {
    TidyMore(objs1, objs, |objs0|, None);
    var list := jobs + [port] + [s];
    forall id | id in list ensures id in jobs || id >= |objs0| || IsPortKind(objs[id].kind) {
    }
  }

  lemma OnStream(objs0: seq<Obj>, objs1: seq<Obj>, objs: seq<Obj>, jobs: seq<nat>, portA: nat, portB: nat,
                 p: Periph, s: nat)
    requires objs0 <= objs1 && objs1 <= objs && IsPort(objs1, Some(portA)) && IsPort(objs1, Some(portB))
    requires s == |objs1| < |objs|
    requires PeriphAt(objs, p, s) && Plain(objs, jobs + [portA, portB] + [s])
    requires Tidy(objs1, |objs0|, None) && Tidy(objs, |objs1|, None)
    ensures PeriphAdded(objs0, objs, jobs, jobs + [portA, portB] + [s], p, s)
  {
    TidyMore(objs1, objs, |objs0|, None);
    var list := jobs + [portA, portB] + [s];
    forall id | id in list ensures id in jobs || id >= |objs0| || IsPortKind(objs[id].kind) {
    }
  }

  lemma NewJobs(objs0: seq<Obj>, objs: seq<Obj>, jobs0: seq<nat>, jobs: seq<nat>, p: Periph, s: nat, id: nat)
    requires PeriphAdded(objs0, objs, jobs0, jobs, p, s) && id < |objs0| && !IsPeriph(objs0[id].kind)
    requires !IsPortKind(objs0[id].kind)
    ensures id in jobs <==> id in jobs0
  {
  }

  function NetworkJobs(c: ConData, n: nat): seq<nat> {
    Opt(c.combiner) + [n] + Opt(c.splitter)
  }

  function NetworkObjs(c: ConData, objs: seq<Obj>): seq<Obj>
    requires c.splitter.Some? ==> c.splitter.value < |objs|
  {
    (if c.combiner.None? && c.splitter.Some? then
       objs[c.splitter.value := objs[c.splitter.value].(first := To(|objs|))]
     else objs) + [Obj(NwSocket, Null, Null)]
  }

  function NetworkCon(c: ConData, n: nat, isSource: bool, link: Link): ConData {
    if c.combiner.None? && c.splitter.Some? then c.(link := link)
    else if isSource then c.(link := link, inSocket := Some(n))
    else c.(link := link, outSocket := Some(n))
  }

  lemma Regroup(a: seq<nat>, b: seq<nat>, c: seq<nat>, d: seq<nat>)
    ensures a + b + c + d == a + (b + c + d)
  {
  }

  /** The network socket inside a splitter that is the source is refused, which is not noticed. */
  predicate Refused(first: Socket) {
    first.Split? && (first.nets == [] || !NetOk(first.nets[0], true))
  }

  /** A splitter that is the source, with the network socket that it takes, if that is accepted. */
  predicate SplitterAt(objs: seq<Obj>, first: Socket, s: nat) {
    && s < |objs| && objs[s].kind == Splitter && objs[s].second == Null
    && if Refused(first) then objs[s].first == Wild else objs[s].first.To? && NetworkAt(objs, objs[s].first.id)
  }

  /** What the first socket leaves behind. Only a splitter whose network socket was refused is not in the
      list. */
  predicate AfterFirst(objs: seq<Obj>, c: ConData, soc: Socket, list: seq<nat>) {
    && c.outSocket == None && Plain(objs, list) && |list| <= 4 && c.link == FirstLink(soc)
    && (soc.Peripheral? ==> !c.syncOffsetNeeded) && (soc.Combine? ==> c.syncOffsetNeeded)
    && match soc
       case Network(_) =>
         && c.inSocket.Some? && c.inSocket.value in list && c.combiner == None && c.splitter == None
         && NetworkAt(objs, c.inSocket.value)
       case Peripheral(p) =>
         && c.inSocket.Some? && c.inSocket.value in list && c.combiner == None && c.splitter == None
         && PeriphAt(objs, p, c.inSocket.value)
       case Split(_, nets) =>
         && c.inSocket.Some? && c.combiner == None && SplitterAt(objs, soc, c.inSocket.value)
         && nets != [] && (c.inSocket.value in list <==> !Refused(soc))
       case Combine(_, nets) =>
         && c.inSocket == None && c.splitter == None && c.pending == nets && nets != []
         && c.combiner.Some? && c.combiner.value < |objs| && c.combiner.value !in list
         && objs[c.combiner.value] == Obj(Combiner, Wild, Null)
  }

  /** The object that the first socket has left incomplete. */
  function Incomplete(c: ConData, soc: Socket): Option<nat> {
    if soc.Combine? then c.combiner else if Refused(soc) then c.inSocket else None
  }

  lemma SplitterTidy(objs: seq<Obj>, more: seq<Obj>)
    requires more == objs + [Obj(Splitter, To(|objs| + 1), Null), Obj(NwSocket, Null, Null)]
    ensures Tidy(more, |objs|, None)
  {
    forall id | |objs| <= id < |more| ensures ObjOk(more, more[id]) {
      assert id == |objs| || id == |objs| + 1;
    }
  }

  lemma SplitterAdded(objs: seq<Obj>, c: ConData, jobs: seq<nat>)
    requires Plain(objs, jobs) && c.combiner == None && c.splitter == Some(|objs|)
    ensures var more := NetworkObjs(c, objs + [Obj(Splitter, Wild, Null)]);
      var list := jobs + NetworkJobs(c, |objs| + 1);
      && objs <= more && more == objs + [Obj(Splitter, To(|objs| + 1), Null), Obj(NwSocket, Null, Null)]
      && Plain(more, list) && |objs| in list && Tidy(more, |objs|, None)
  {
    var s := |objs|;
    var more := NetworkObjs(c, objs + [Obj(Splitter, Wild, Null)]);
    assert more == objs + [Obj(Splitter, To(s + 1), Null), Obj(NwSocket, Null, Null)];
    PlainAppend(objs, more, jobs, s + 1);
    PlainAppend(more, more, jobs + [s + 1], s);
    assert jobs + NetworkJobs(c, s + 1) == jobs + [s + 1] + [s];
    SplitterTidy(objs, more);
  }

  /** The network socket inside the splitter was refused: the splitter is not in the list. */
  lemma SplitterRefused(objs: seq<Obj>, c: ConData, soc: Socket, jobs: seq<nat>)
    requires Plain(objs, jobs) && |jobs| <= 1 && soc.Split? && soc.nets != [] && Refused(soc)
    requires c.link == FirstLink(soc)
    requires c.combiner == None && c.outSocket == None && c.inSocket == Some(|objs|)
    ensures var more := objs + [Obj(Splitter, Wild, Null)];
      AfterFirst(more, c, soc, jobs) && Tidy(more, |objs|, Incomplete(c, soc))
  {
    PlainKept(objs, objs + [Obj(Splitter, Wild, Null)], jobs);
  }

  /** The splitter has taken its network socket, which leaves d behind. */
  lemma SplitterTaken(objs: seq<Obj>, c: ConData, d: ConData, soc: Socket, jobs: seq<nat>)
    requires Plain(objs, jobs) && |jobs| <= 1 && soc.Split? && soc.nets != [] && !Refused(soc)
    requires d.link == FirstLink(soc)
    requires c.combiner == None && c.splitter == Some(|objs|) && d == c.(link := d.link)
    requires c.outSocket == None && c.inSocket == Some(|objs|)
    ensures var more := NetworkObjs(c, objs + [Obj(Splitter, Wild, Null)]);
      && objs <= more && AfterFirst(more, d, soc, jobs + NetworkJobs(c, |objs| + 1))
      && Tidy(more, |objs|, Incomplete(d, soc))
  {
    SplitterAdded(objs, c, jobs);
    var more := NetworkObjs(c, objs + [Obj(Splitter, Wild, Null)]);
    assert NetworkAt(more, |objs| + 1) && SplitterAt(more, soc, |objs|);
  }

  // ---- the connection ----

  function ConKind(dataType: DataType): Kind {
    if dataType == SyncData then SyncCon else AvpCon
  }

  /** The connection object. */
  function ConObj(c: ConData): Obj
    requires c.inSocket.Some? && c.outSocket.Some?
  {
    Obj(ConKind(c.dataType), To(c.inSocket.value), To(c.outSocket.value))
  }

  predicate HasNetwork(objs: seq<Obj>, c: ConData)
    requires c.inSocket.Some? && c.inSocket.value < |objs| && c.outSocket.Some? && c.outSocket.value < |objs|
  {
    || objs[c.inSocket.value].kind == NwSocket || objs[c.inSocket.value].kind == Splitter
    || objs[c.outSocket.value].kind == NwSocket
  }

  function EntryFor(c: ConData, objs: seq<Obj>, jobs: seq<nat>): Entry
    requires c.outSocket.Some? && c.outSocket.value < |objs|
  {
    Head(c.link, objs[c.outSocket.value].kind == NwSocket).(jobs := jobs)
  }

  /** With the connection at the end the list is complete. */
  lemma Connected(objs: seq<Obj>, c: ConData, jobs: seq<nat>)
    requires Plain(objs, jobs) && c.inSocket.Some? && c.inSocket.value in jobs && c.outSocket.Some?
    requires c.outSocket.value in jobs
    ensures EntryOk(objs + [ConObj(c)], EntryFor(c, objs, jobs + [|objs|]))
  {
    var more := objs + [ConObj(c)];
    BuiltKept(objs, more, jobs);
    BuiltAppend(more, jobs, |objs|);
  }

  lemma ConnectedOrNot(objs: seq<Obj>, c: ConData, jobs: seq<nat>)
    requires Plain(objs, jobs) && c.inSocket.Some? && c.outSocket.Some? && c.outSocket.value in jobs
    requires c.inSocket.value < |objs|
    ensures EntryOk(objs + [ConObj(c)], EntryFor(c, objs, jobs + [|objs|])) <==> c.inSocket.value in jobs
  {
    if c.inSocket.value in jobs {
      Connected(objs, c, jobs);
    } else if EntryOk(objs + [ConObj(c)], EntryFor(c, objs, jobs + [|objs|])) {
      BuiltFront(objs + [ConObj(c)], jobs, |objs|);
    }
  }

  // ---- network sockets inside a splitter or a combiner ----

  /** A network socket may be put on the other side: the splitter or the combiner and what it refers to are
      there. */
  predicate BranchReady(objs: seq<Obj>, c: ConData, isSource: bool, jobs: seq<nat>) {
    && c.splitter == None && Plain(objs, jobs)
    && if isSource then
         && c.combiner.Some? && c.outSocket == c.combiner && c.combiner.value < |objs|
         && var o := objs[c.combiner.value]; o.kind == Combiner && Refers(o.first, jobs) && Refers(o.second, jobs)
       else c.combiner == None && c.inSocket.Some? && c.inSocket.value in jobs
  }

  predicate SameBranch(c: ConData, d: ConData, isSource: bool) {
    && d.dataType == c.dataType && d.syncOffsetNeeded == c.syncOffsetNeeded
    && d.combiner == c.combiner && d.splitter == c.splitter && d.pending == c.pending
    && if isSource then d.outSocket == c.outSocket else d.inSocket == c.inSocket
  }

  lemma BranchAgain(objs: seq<Obj>, more: seq<Obj>, c: ConData, d: ConData, isSource: bool, jobs: seq<nat>)
    requires BranchReady(objs, c, isSource, jobs) && objs <= more && SameBranch(c, d, isSource)
    ensures BranchReady(more, d, isSource, jobs)
  {
    PlainKept(objs, more, jobs);
  }

  /** What the branches of a splitter or a combiner have in common: the other socket of their connections. */
  datatype Side = Side(dataType: DataType, isSource: bool, combiner: Option<nat>, other: nat)

  function SideOf(c: ConData, isSource: bool): Side
    requires if isSource then c.outSocket.Some? else c.inSocket.Some?
  {
    Side(c.dataType, isSource, c.combiner, if isSource then c.outSocket.value else c.inSocket.value)
  }

  /** The list goes on from jobs with the combiner, if there is one, the network socket and the connection of
      that with the other socket. */
  predicate Wired(objs: seq<Obj>, side: Side, jobs: seq<nat>, e: Entry) {
    && |e.jobs| >= 2
    && var n, m := e.jobs[|e.jobs| - 2], e.jobs[|e.jobs| - 1];
       && e.jobs == jobs + Opt(side.combiner) + [n, m] && n < |objs| && m < |objs|
       && objs[n] == Obj(NwSocket, Null, Null)
       && objs[m] == Obj(ConKind(side.dataType), To(if side.isSource then n else side.other),
                         To(if side.isSource then side.other else n))
  }

  /** A route entry whose list goes on from jobs and is in order. */
  predicate NewEntry(objs: seq<Obj>, side: Side, jobs: seq<nat>, e: Entry) {
    Wired(objs, side, jobs, e) && EntryOk(objs, e)
  }

  lemma NewEntryKept(objs: seq<Obj>, more: seq<Obj>, side: Side, jobs: seq<nat>, e: Entry)
    requires objs <= more && NewEntry(objs, side, jobs, e)
    ensures NewEntry(more, side, jobs, e)
  {
    EntryKept(objs, more, e);
  }

  predicate AllNew(objs: seq<Obj>, side: Side, jobs: seq<nat>, routes: seq<Entry>, from: nat) {
    forall k | from <= k < |routes| :: NewEntry(objs, side, jobs, routes[k])
  }

  lemma AllNewKept(objs: seq<Obj>, more: seq<Obj>, side: Side, jobs: seq<nat>, routes: seq<Entry>, all: seq<Entry>,
                   from: nat)
    requires objs <= more && AllNew(objs, side, jobs, routes, from) && routes <= all && from <= |routes|
    requires |all| <= |routes| + 1 && (|all| == |routes| + 1 ==> NewEntry(more, side, jobs, all[|routes|]))
    ensures AllNew(more, side, jobs, all, from)
  {
    forall k | from <= k < |all| ensures NewEntry(more, side, jobs, all[k]) {
      if k < |routes| {
        assert NewEntry(more, side, jobs, all[k]) by {
          assert all[k] == routes[k] && NewEntry(objs, side, jobs, routes[k]);
          NewEntryKept(objs, more, side, jobs, routes[k]);
        }
      } else {
        assert k == |routes|;
      }
    }
  }

  lemma NetworkAdded(objs: seq<Obj>, c: ConData, isSource: bool, jobs: seq<nat>)
    requires BranchReady(objs, c, isSource, jobs)
    ensures var n := |objs|; var more := NetworkObjs(c, objs); var list := jobs + NetworkJobs(c, n);
      && objs <= more && Plain(more, list) && jobs <= list && n in list
      && (isSource ==> c.combiner.value in list)
  {
    var more := NetworkObjs(c, objs);
    if isSource {
      PlainAppend(objs, more, jobs, c.combiner.value);
      PlainAppend(more, more, jobs + [c.combiner.value], |objs|);
      assert jobs + NetworkJobs(c, |objs|) == jobs + [c.combiner.value] + [|objs|];
    } else {
      PlainAppend(objs, more, jobs, |objs|);
      assert jobs + NetworkJobs(c, |objs|) == jobs + [|objs|];
    }
  }

  lemma BranchEntry(objs: seq<Obj>, c: ConData, link: Link, isSource: bool, jobs: seq<nat>)
    requires BranchReady(objs, c, isSource, jobs)
    ensures var d := NetworkCon(c, |objs|, isSource, link); var more := NetworkObjs(c, objs);
      var list := jobs + NetworkJobs(c, |objs|);
      && d.inSocket.Some? && d.inSocket.value < |more| && d.outSocket.Some? && d.outSocket.value < |more|
      && EntryOk(more + [ConObj(d)], EntryFor(d, more, list + [|more|]))
  {
    var d, more := NetworkCon(c, |objs|, isSource, link), NetworkObjs(c, objs);
    NetworkAdded(objs, c, isSource, jobs);
    Connected(more, d, jobs + NetworkJobs(c, |objs|));
  }

  lemma BranchWired(objs: seq<Obj>, c: ConData, link: Link, isSource: bool, jobs: seq<nat>)
    requires BranchReady(objs, c, isSource, jobs)
    ensures var d := NetworkCon(c, |objs|, isSource, link); var more := NetworkObjs(c, objs);
      var list := jobs + NetworkJobs(c, |objs|);
      && d.inSocket.Some? && d.inSocket.value < |more| && d.outSocket.Some? && d.outSocket.value < |more|
      && HasNetwork(more, d) && objs <= more
      && Wired(more + [ConObj(d)], SideOf(d, isSource), jobs, EntryFor(d, more, list + [|more|]))
      && (more[d.outSocket.value].kind == NwSocket <==> !isSource)
  {
    var n := |objs|;
    assert jobs + NetworkJobs(c, n) + [n + 1] == jobs + Opt(c.combiner) + [n, n + 1];
  }

  lemma BranchDone(objs: seq<Obj>, c: ConData, link: Link, isSource: bool, jobs: seq<nat>)
    requires BranchReady(objs, c, isSource, jobs)
    ensures var d := NetworkCon(c, |objs|, isSource, link); var more := NetworkObjs(c, objs);
      && d.inSocket.Some? && d.outSocket.Some? && objs <= more
      && BranchReady(more + [ConObj(d)], d, isSource, jobs) && SameBranch(c, d, isSource)
  {
    var d, more := NetworkCon(c, |objs|, isSource, link), NetworkObjs(c, objs);
    BranchAgain(objs, more + [ConObj(d)], c, d, isSource, jobs);
  }

  lemma BranchTidy(objs: seq<Obj>, c: ConData, d: ConData, isSource: bool, jobs: seq<nat>, more: seq<Obj>)
    requires BranchReady(objs, c, isSource, jobs)
    requires more == NetworkObjs(c, objs) && d == NetworkCon(c, |objs|, isSource, d.link)
    ensures d.inSocket.Some? && d.outSocket.Some? && Tidy(more + [ConObj(d)], |objs|, None)
  {
    TidyAppend(objs, |objs|, None, Obj(NwSocket, Null, Null));
    assert more == objs + [Obj(NwSocket, Null, Null)];
    TidyAppend(more, |objs|, None, ConObj(d));
  }

  lemma BranchNew(objs: seq<Obj>, d: ConData, c: ConData, isSource: bool, jobs: seq<nat>, more: seq<Obj>,
                  list: seq<nat>)
    requires BranchReady(objs, c, isSource, jobs) && list == jobs + NetworkJobs(c, |objs|)
    requires more == NetworkObjs(c, objs) && d == NetworkCon(c, |objs|, isSource, d.link)
    ensures d.inSocket.Some? && d.outSocket.Some? && d.outSocket.value < |more|
    ensures NewEntry(more + [ConObj(d)], SideOf(d, isSource), jobs, EntryFor(d, more, list + [|more|]))
    ensures more[d.outSocket.value].kind == NwSocket <==> !isSource
  {
    BranchEntry(objs, c, d.link, isSource, jobs);
    BranchWired(objs, c, d.link, isSource, jobs);
  }

  lemma EntryHead(d: ConData, more: seq<Obj>, jobs: seq<nat>, isSource: bool)
    requires d.outSocket.Some? && d.outSocket.value < |more|
    requires (more[d.outSocket.value].kind == NwSocket <==> !isSource)
    ensures EntryFor(d, more, jobs).(jobs := []) == Head(d.link, !isSource)
  {
  }

  lemma EntryAdded(d: ConData, more: seq<Obj>, list: seq<nat>, isSource: bool, before: seq<Entry>, routes: seq<Entry>)
    requires d.outSocket.Some? && d.outSocket.value < |more|
    requires (more[d.outSocket.value].kind == NwSocket <==> !isSource)
    requires routes == before + [EntryFor(d, more, list + [|more|])]
    ensures |routes| == |before| + 1 && before <= routes && routes[|before|] == EntryFor(d, more, list + [|more|])
    ensures routes[|before|].(jobs := []) == Head(d.link, !isSource)
  {
    EntryHead(d, more, list + [|more|], isSource);
  }

  datatype Snapshot = Snapshot(objs: seq<Obj>, con: ConData, routes: seq<Entry>)

  /** A network socket has been read on one side, and the next one may follow. */
  predicate BranchState(p: Snapshot, q: Snapshot, isSource: bool, jobs: seq<nat>) {
    && p.objs <= q.objs && BranchReady(q.objs, q.con, isSource, jobs) && SameBranch(p.con, q.con, isSource)
    && Tidy(q.objs, |p.objs|, None)
  }

  /** If all went well it has given one more entry. */
  predicate BranchGain(p: Snapshot, q: Snapshot, isSource: bool, jobs: seq<nat>, ok: bool)
    requires BranchReady(q.objs, q.con, isSource, jobs)
  {
    if !ok then q.routes == p.routes
    else
      && |q.routes| == |p.routes| + 1 && p.routes <= q.routes
      && q.routes[|p.routes|].(jobs := []) == Head(q.con.link, !isSource)
      && NewEntry(q.objs, SideOf(q.con, isSource), jobs, q.routes[|p.routes|])
  }

  predicate Branched(p: Snapshot, q: Snapshot, net: Net, isSource: bool, jobs: seq<nat>, ok: bool) {
    && BranchState(p, q, isSource, jobs) && BranchGain(p, q, isSource, jobs, ok)
    && q.con.link == ReadLink(p.con.link, net, q.con.syncOffsetNeeded)
    && ok == (NetOk(net, q.con.syncOffsetNeeded) && Named(q.con.link))
  }

  lemma BranchRefused(p: Snapshot, q: Snapshot, isSource: bool, jobs: seq<nat>)
    requires BranchReady(p.objs, p.con, isSource, jobs) && q == p.(con := p.con.(link := q.con.link))
    ensures BranchState(p, q, isSource, jobs) && BranchGain(p, q, isSource, jobs, false)
  {
  }

  /** more are the objects with the network socket, and d is the connection state with it. */
  lemma BranchAccepted(p: Snapshot, q: Snapshot, isSource: bool, jobs: seq<nat>, more: seq<Obj>, list: seq<nat>,
                       ok: bool)
    requires BranchReady(p.objs, p.con, isSource, jobs) && list == jobs + NetworkJobs(p.con, |p.objs|)
    requires more == NetworkObjs(p.con, p.objs) && q.con == NetworkCon(p.con, |p.objs|, isSource, q.con.link)
    requires q.con.inSocket.Some? && q.con.outSocket.Some? && q.con.outSocket.value < |more|
    requires q.objs == more + [ConObj(q.con)]
    requires q.routes == if ok then p.routes + [EntryFor(q.con, more, list + [|more|])] else p.routes
    ensures BranchState(p, q, isSource, jobs) && BranchGain(p, q, isSource, jobs, ok)
  {
    BranchDone(p.objs, p.con, q.con.link, isSource, jobs);
    BranchTidy(p.objs, p.con, q.con, isSource, jobs, more);
    if ok {
      BranchNew(p.objs, q.con, p.con, isSource, jobs, more, list);
      EntryAdded(q.con, more, list, isSource, p.routes, q.routes);
    }
  }

  /** The first k network sockets have been read, and heads have come out. */
  predicate BranchesDone(p: Snapshot, q: Snapshot, nets: seq<Net>, k: nat, isSource: bool, jobs: seq<nat>,
                         heads: seq<Entry>) {
    && k <= |nets| && p.objs <= q.objs && BranchReady(q.objs, q.con, isSource, jobs)
    && SameBranch(p.con, q.con, isSource) && p.routes <= q.routes && HaveHeads(q.routes, |p.routes|, heads)
    && heads + Heads(nets[k..], q.con.link, q.con.syncOffsetNeeded, !isSource)
       == Heads(nets, p.con.link, q.con.syncOffsetNeeded, !isSource)
    && AllNew(q.objs, SideOf(q.con, isSource), jobs, q.routes, |p.routes|)
    && Tidy(q.objs, |p.objs|, None)
  }

  lemma BranchesStart(p: Snapshot, nets: seq<Net>, isSource: bool, jobs: seq<nat>)
    requires BranchReady(p.objs, p.con, isSource, jobs)
    ensures BranchesDone(p, p, nets, 0, isSource, jobs, [])
  {
    assert nets[0..] == nets;
  }

  lemma BranchesEnd(p: Snapshot, q: Snapshot, nets: seq<Net>, isSource: bool, jobs: seq<nat>, heads: seq<Entry>)
    requires BranchesDone(p, q, nets, |nets|, isSource, jobs, heads)
    ensures BranchState(p, q, isSource, jobs) && p.routes <= q.routes
    ensures HaveHeads(q.routes, |p.routes|, Heads(nets, p.con.link, q.con.syncOffsetNeeded, !isSource))
    ensures AllNew(q.objs, SideOf(q.con, isSource), jobs, q.routes, |p.routes|)
  {
    assert heads + [] == heads;
  }

  lemma BranchesGain(p: Snapshot, q: Snapshot, r: Snapshot, isSource: bool, jobs: seq<nat>, heads: seq<Entry>, ok: bool)
    requires BranchReady(q.objs, q.con, isSource, jobs) && p.routes <= q.routes
    requires HaveHeads(q.routes, |p.routes|, heads)
    requires AllNew(q.objs, SideOf(q.con, isSource), jobs, q.routes, |p.routes|)
    requires BranchState(q, r, isSource, jobs) && BranchGain(q, r, isSource, jobs, ok)
    ensures HaveHeads(r.routes, |p.routes|, if ok then heads + [Head(r.con.link, !isSource)] else heads)
    ensures AllNew(r.objs, SideOf(r.con, isSource), jobs, r.routes, |p.routes|)
  {
    assert SideOf(r.con, isSource) == SideOf(q.con, isSource);
    AllNewKept(q.objs, r.objs, SideOf(q.con, isSource), jobs, q.routes, r.routes, |p.routes|);
    if ok {
      HeadsMore(q.routes, r.routes, |p.routes|, heads, Head(r.con.link, !isSource));
    }
  }

  lemma BranchesMore(p: Snapshot, q: Snapshot, r: Snapshot, nets: seq<Net>, k: nat, isSource: bool, jobs: seq<nat>,
                     heads: seq<Entry>, ok: bool) returns (more: seq<Entry>)
    requires BranchesDone(p, q, nets, k, isSource, jobs, heads) && k < |nets|
    requires Branched(q, r, nets[k], isSource, jobs, ok)
    ensures BranchesDone(p, r, nets, k + 1, isSource, jobs, more)
  {
    more := if ok then heads + [Head(r.con.link, !isSource)] else heads;
    BranchesGain(p, q, r, isSource, jobs, heads, ok);
    HeadsNext(nets, k, q.con.link, q.con.syncOffsetNeeded, !isSource, heads);
    TidyMore(q.objs, r.objs, |p.objs|, None);
  }

  // ---- what a connection adds ----

  /** A connection of a node. */
  datatype Connection = Connection(first: Socket, second: Socket, dataType: DataType)

  /** A splitter or a combiner that takes a peripheral socket. */
  predicate OnTop(objs: seq<Obj>, kind: Kind, p: Periph, s: nat) {
    && s < |objs| && objs[s].kind == kind && objs[s].first.To? && objs[s].second == Null
    && PeriphAt(objs, p, objs[s].first.id)
  }

  /** The object on the source side of the connection: what the first socket asks for. */
  predicate SourceEnd(objs: seq<Obj>, c: Connection, a: nat) {
    match c.first
    case Network(_) => NetworkAt(objs, a)
    case Combine(_, _) => NetworkAt(objs, a)
    case Split(_, _) => SplitterAt(objs, c.first, a)
    case Peripheral(p) => if c.second.Split? then OnTop(objs, Splitter, p, a) else PeriphAt(objs, p, a)
  }

  /** The object on the sink side. */
  predicate SinkEnd(objs: seq<Obj>, c: Connection, b: nat) {
    match c.second
    case Peripheral(p) => if c.first.Combine? then OnTop(objs, Combiner, p, b) else PeriphAt(objs, p, b)
    case _ => NetworkAt(objs, b)
  }

  /** No list gets longer than that. */
  const MAX_JOBS := 10

  /** The last job is the connection of the two ends, and all jobs are objects. */
  predicate Joined(objs: seq<Obj>, c: Connection, e: Entry) {
    && 0 < |e.jobs| <= MAX_JOBS && (forall k | 0 <= k < |e.jobs| :: e.jobs[k] < |objs|)
    && var o := objs[e.jobs[|e.jobs| - 1]];
       && o.kind == ConKind(c.dataType) && o.first.To? && o.second.To?
       && SourceEnd(objs, c, o.first.id) && SinkEnd(objs, c, o.second.id)
  }

  /** An endpoint's list is in order, unless the source is a splitter whose network socket was refused. */
  predicate OrderedAsPromised(objs: seq<Obj>, first: Socket, e: Entry) {
    EntryOk(objs, e) <==> !Refused(first)
  }

  predicate AsPromised(objs: seq<Obj>, c: Connection, e: Entry) {
    Joined(objs, c, e) && OrderedAsPromised(objs, c.first, e)
  }

  /** What an accepted connection adds: exactly the promised entries, each of which joins the two ends and is in
      order as promised. */
  predicate Outcome(objs: seq<Obj>, before: seq<Entry>, routes: seq<Entry>, c: Connection) {
    && before <= routes && HaveHeads(routes, |before|, PairHeads(c.first, c.second))
    && forall k | |before| <= k < |routes| :: AsPromised(objs, c, routes[k])
  }

  lemma JoinedKept(objs: seq<Obj>, more: seq<Obj>, c: Connection, e: Entry)
    requires Joined(objs, c, e) && objs <= more
    ensures Joined(more, c, e)
  {
  }

  lemma EntryBack(objs: seq<Obj>, more: seq<Obj>, e: Entry)
    requires EntryOk(more, e) && objs <= more && forall k | 0 <= k < |e.jobs| :: e.jobs[k] < |objs|
    ensures EntryOk(objs, e)
  {
  }

  /** More objects do not change that. */
  lemma AsPromisedKept(objs: seq<Obj>, more: seq<Obj>, c: Connection, e: Entry)
    requires AsPromised(objs, c, e) && objs <= more
    ensures AsPromised(more, c, e)
  {
    JoinedKept(objs, more, c, e);
    if EntryOk(objs, e) {
      EntryKept(objs, more, e);
    }
    if EntryOk(more, e) {
      EntryBack(objs, more, e);
    }
  }

  lemma OutcomeKept(objs: seq<Obj>, more: seq<Obj>, before: seq<Entry>, routes: seq<Entry>, c: Connection)
    requires Outcome(objs, before, routes, c) && objs <= more
    ensures Outcome(more, before, routes, c)
  {
    forall k | |before| <= k < |routes| ensures AsPromised(more, c, routes[k]) {
      AsPromisedKept(objs, more, c, routes[k]);
    }
  }

  /** The branches of a splitter or a combiner are as promised. */
  lemma NewPromised(objs: seq<Obj>, side: Side, jobs: seq<nat>, e: Entry, c: Connection)
    requires NewEntry(objs, side, jobs, e) && |jobs| <= 7 && !c.first.Split? && side.dataType == c.dataType
    requires if side.isSource then c.first.Combine? && SinkEnd(objs, c, side.other)
             else c.first.Peripheral? && !c.second.Peripheral? && SourceEnd(objs, c, side.other)
    ensures AsPromised(objs, c, e)
  {
    assert Built(objs, e.jobs);
  }

  lemma AllPromised(objs: seq<Obj>, side: Side, jobs: seq<nat>, routes: seq<Entry>, from: nat, c: Connection)
    requires AllNew(objs, side, jobs, routes, from) && |jobs| <= 7 && !c.first.Split? && side.dataType == c.dataType
    requires if side.isSource then c.first.Combine? && SinkEnd(objs, c, side.other)
             else c.first.Peripheral? && !c.second.Peripheral? && SourceEnd(objs, c, side.other)
    ensures forall k | from <= k < |routes| :: AsPromised(objs, c, routes[k])
  {
    forall k | from <= k < |routes| ensures AsPromised(objs, c, routes[k]) {
      NewPromised(objs, side, jobs, routes[k], c);
    }
  }

  lemma OneOutcome(objs: seq<Obj>, before: seq<Entry>, routes: seq<Entry>, c: Connection, head: Entry)
    requires before <= routes && |routes| == |before| + 1 && routes[|before|].(jobs := []) == head
    requires PairHeads(c.first, c.second) == [head] && AsPromised(objs, c, routes[|before|])
    ensures Outcome(objs, before, routes, c)
  {
    HeadsMore(before, routes, |before|, [], head);
    assert [] + [head] == [head];
  }

  lemma NetworkOutcome(p: Snapshot, q: Snapshot, jobs: seq<nat>, c: Connection)
    requires c.first.Peripheral? && c.second.Network? && Branched(p, q, c.second.net, false, jobs, true)
    requires p.con.link == NO_LINK && !p.con.syncOffsetNeeded && q.con.dataType == c.dataType && |jobs| <= 7
    requires SourceEnd(q.objs, c, q.con.inSocket.value)
    ensures Outcome(q.objs, p.routes, q.routes, c)
  {
    NewPromised(q.objs, SideOf(q.con, false), jobs, q.routes[|p.routes|], c);
    OneOutcome(q.objs, p.routes, q.routes, c, Head(q.con.link, true));
  }

  lemma EndsKept(objs: seq<Obj>, more: seq<Obj>, c: Connection, a: nat, b: nat)
    requires objs <= more && SourceEnd(objs, c, a) && SinkEnd(objs, c, b)
    ensures SourceEnd(more, c, a) && SinkEnd(more, c, b)
  {
  }

  lemma SourceKept(objs: seq<Obj>, more: seq<Obj>, c: Connection, a: nat)
    requires objs <= more && SourceEnd(objs, c, a)
    ensures SourceEnd(more, c, a)
  {
  }

  /** The two ends of a connection whose source is on the network side, with the peripheral socket added. */
  predicate EndsReady(objs: seq<Obj>, con: ConData, jobs: seq<nat>, c: Connection) {
    && Plain(objs, jobs) && |jobs| <= 7 && con.dataType == c.dataType && con.link == FirstLink(c.first)
    && con.inSocket.Some? && SourceEnd(objs, c, con.inSocket.value)
    && (con.inSocket.value in jobs <==> !Refused(c.first))
    && con.outSocket.Some? && SinkEnd(objs, c, con.outSocket.value) && con.outSocket.value in jobs
    && HasNetwork(objs, con) && ObjOk(objs, ConObj(con))
  }

  lemma ReadyEnds(objs0: seq<Obj>, objs: seq<Obj>, con: ConData, jobs: seq<nat>, list: seq<nat>, p: Periph, s: nat,
                  c: Connection)
    requires (c.first.Network? || c.first.Split?) && c.second == Peripheral(p) && con.dataType == c.dataType
    requires PeriphAdded(objs0, objs, jobs, list, p, s) && con.outSocket == Some(s)
    requires AfterFirst(objs0, con.(outSocket := None), c.first, jobs)
    ensures EndsReady(objs, con, list, c)
  {
    NewJobs(objs0, objs, jobs, list, p, s, con.inSocket.value);
    SourceKept(objs0, objs, c, con.inSocket.value);
  }

  lemma ConnectPromised(objs: seq<Obj>, con: ConData, jobs: seq<nat>, c: Connection)
    requires c.second.Peripheral? && (c.first.Network? || c.first.Split?) && EndsReady(objs, con, jobs, c)
    ensures AsPromised(objs + [ConObj(con)], c, EntryFor(con, objs, jobs + [|objs|]))
  {
    ConnectedOrNot(objs, con, jobs);
    EndsKept(objs, objs + [ConObj(con)], c, con.inSocket.value, con.outSocket.value);
  }

  /** The connection of a network side that is the source with a peripheral socket. */
  lemma ConnectOutcome(objs: seq<Obj>, con: ConData, jobs: seq<nat>, before: seq<Entry>, routes: seq<Entry>,
                       c: Connection)
    requires c.second.Peripheral? && (c.first.Network? || c.first.Split?) && EndsReady(objs, con, jobs, c)
    requires routes == before + [EntryFor(con, objs, jobs + [|objs|])]
    ensures Outcome(objs + [ConObj(con)], before, routes, c)
  {
    ConnectPromised(objs, con, jobs, c);
    EntryHead(con, objs, jobs + [|objs|], true);
    OneOutcome(objs + [ConObj(con)], before, routes, c, Head(con.link, false));
  }

  /** The combiner has been completed and nothing else that was there has changed. */
  lemma CombinerDone(objs0: seq<Obj>, objs1: seq<Obj>, objs: seq<Obj>, node: NodeData, comb: nat, p: Periph, s: nat)
    requires objs0 <= objs1 && |objs1| <= |objs| && comb < |objs0| <= s < |objs1| && objs1[comb].kind == Combiner
    requires forall id | 0 <= id < |objs1| && id != comb :: objs[id] == objs1[id]
    requires objs[comb] == Obj(Combiner, To(s), Null) && PeriphAt(objs1, p, s) && PortsOk(objs1, node)
    requires Tidy(objs1, |objs0|, None) && Tidy(objs, |objs1|, None)
    ensures OnTop(objs, Combiner, p, comb) && PortsOk(objs, node) && Tidy(objs, |objs0|, None)
  {
    forall id | |objs0| <= id < |objs| ensures ObjOk(objs, objs[id]) {
      if id < |objs1| {
        ObjOkKept(objs1, objs, objs1[id]);
      }
    }
  }

  /** An object was left without what it refers to. */
  predicate Dangling(objs: seq<Obj>, from: nat) {
    exists id :: from <= id < |objs| && objs[id].first == Wild
  }

  lemma PairTidy(objs0: seq<Obj>, objs1: seq<Obj>, objs: seq<Obj>, con: ConData, c: Connection, list: seq<nat>)
    requires objs0 <= objs1 && AfterFirst(objs1, con, c.first, list) && |objs1| <= |objs|
    requires con.combiner.Some? ==> con.combiner.value >= |objs0|
    requires c.first.Split? ==> con.inSocket.value >= |objs0|
    requires Tidy(objs1, |objs0|, Incomplete(con, c.first)) && Tidy(objs, |objs1|, None)
    requires forall id | 0 <= id < |objs1| && Some(id) != con.combiner :: objs[id] == objs1[id]
    requires c.first.Combine? ==> exists p: Periph :: OnTop(objs, Combiner, p, con.combiner.value)
    ensures objs0 <= objs
    ensures if Refused(c.first) then Dangling(objs, |objs0|) else Tidy(objs, |objs0|, None)
  {
    if Refused(c.first) {
      assert objs[con.inSocket.value].first == Wild;
    } else {
      forall id | |objs0| <= id < |objs| ensures ObjOk(objs, objs[id]) {
        if id < |objs1| && Some(id) != con.combiner {
          ObjOkKept(objs1, objs, objs1[id]);
        }
      }
    }
  }

  // ---- all connections of a node ----

  predicate AllPairsOk(cons: seq<Connection>) {
    forall c | c in cons :: PairOk(c.first, c.second, c.dataType)
  }

  lemma NextPair(cons: seq<Connection>, k: nat)
    requires k < |cons|
    ensures cons[k] in cons && cons[..k + 1] == cons[..k] + [cons[k]]
    ensures AllPairsOk(cons[..k + 1]) <==>
              AllPairsOk(cons[..k]) && PairOk(cons[k].first, cons[k].second, cons[k].dataType)
    ensures AllPairsOk(cons) ==> AllPairsOk(cons[..k + 1])
  {
    assert forall c | c in cons[..k + 1] :: c in cons[..k] || c == cons[k];
    assert cons[k] in cons[..k + 1] && forall c | c in cons[..k] :: c in cons[..k + 1];
  }

  /** The connections have added the promised entries, one connection after the other. */
  predicate NodeOutcome(objs: seq<Obj>, before: seq<Entry>, routes: seq<Entry>, cons: seq<Connection>)
    decreases |cons|
  {
    if cons == [] then routes == before
    else
      var last := cons[|cons| - 1];
      var from := |routes| - |PairHeads(last.first, last.second)|;
      && from >= 0 && NodeOutcome(objs, before, routes[..from], cons[..|cons| - 1])
      && Outcome(objs, routes[..from], routes, last)
  }

  lemma {:induction false} NodeOutcomeKept(objs: seq<Obj>, more: seq<Obj>, before: seq<Entry>, routes: seq<Entry>,
                                           cons: seq<Connection>)
    requires NodeOutcome(objs, before, routes, cons) && objs <= more
    ensures NodeOutcome(more, before, routes, cons)
    decreases |cons|
  {
    if cons == [] {
    } else {
      var last := cons[|cons| - 1];
      var from := |routes| - |PairHeads(last.first, last.second)|;
      NodeOutcomeKept(objs, more, before, routes[..from], cons[..|cons| - 1]);
      OutcomeKept(objs, more, routes[..from], routes, last);
    }
  }

  lemma OutcomeLength(objs: seq<Obj>, before: seq<Entry>, routes: seq<Entry>, c: Connection) returns (n: nat)
    requires Outcome(objs, before, routes, c)
    ensures n == |PairHeads(c.first, c.second)| <= |routes| && routes[..|routes| - n] == before
  {
    n := |PairHeads(c.first, c.second)|;
    assert |routes| == |before| + n;
  }

  lemma NodeOutcomeLast(objs: seq<Obj>, before: seq<Entry>, middle: seq<Entry>, routes: seq<Entry>,
                        cons: seq<Connection>, all: seq<Connection>, c: Connection)
    requires NodeOutcome(objs, before, middle, cons) && Outcome(objs, middle, routes, c) && all == cons + [c]
    ensures NodeOutcome(objs, before, routes, all)
  {
    assert all[..|all| - 1] == cons && all[|all| - 1] == c;
    var n := OutcomeLength(objs, middle, routes, c);
  }

  lemma NodeOutcomeMore(objs: seq<Obj>, more: seq<Obj>, before: seq<Entry>, middle: seq<Entry>, routes: seq<Entry>,
                        cons: seq<Connection>, c: Connection)
    requires NodeOutcome(objs, before, middle, cons) && objs <= more && Outcome(more, middle, routes, c)
    ensures NodeOutcome(more, before, routes, cons + [c])
  {
    NodeOutcomeKept(objs, more, before, middle, cons);
    NodeOutcomeLast(more, before, middle, routes, cons, cons + [c], c);
  }

  /** The new objects are complete, unless a refusal went unnoticed: then one of them is not. */
  predicate NodeTidy(objs: seq<Obj>, from: nat, cons: seq<Connection>) {
    if exists c | c in cons :: Refused(c.first) then Dangling(objs, from) else Tidy(objs, from, None)
  }

  lemma NodeTidyMore(objs: seq<Obj>, more: seq<Obj>, from: nat, cons: seq<Connection>, c: Connection)
    requires NodeTidy(objs, from, cons) && objs <= more && from <= |objs|
    requires if Refused(c.first) then Dangling(more, |objs|) else Tidy(more, |objs|, None)
    ensures NodeTidy(more, from, cons + [c])
  {
    var all := cons + [c];
    assert c in all && forall d | d in cons :: d in all;
    if exists d | d in cons :: Refused(d.first) {
      var id :| from <= id < |objs| && objs[id].first == Wild;
      assert more[id].first == Wild;
    } else if !Refused(c.first) {
      TidyMore(objs, more, from, None);
    }
  }

  /** The connections have been parsed. */
  predicate NodeState(p: Snapshot, q: Snapshot, cons: seq<Connection>) {
    p.objs <= q.objs && NodeOutcome(q.objs, p.routes, q.routes, cons) && NodeTidy(q.objs, |p.objs|, cons)
  }

  lemma NodeNext(p: Snapshot, q: Snapshot, r: Snapshot, cons: seq<Connection>, c: Connection)
    requires NodeState(p, q, cons) && q.objs <= r.objs && Outcome(r.objs, q.routes, r.routes, c)
    requires if Refused(c.first) then Dangling(r.objs, |q.objs|) else Tidy(r.objs, |q.objs|, None)
    ensures NodeState(p, r, cons + [c])
  {
    NodeOutcomeMore(q.objs, r.objs, p.routes, q.routes, r.routes, cons, c);
    NodeTidyMore(q.objs, r.objs, |p.objs|, cons, c);
  }

  // ---- the parser ----

  class Parser {
    var objs: seq<Obj>
    var node: NodeData
    var con: ConData
    var routes: seq<Entry>

    constructor ()
      ensures objs == [] && routes == [] && node == NodeData(None, None, None, None)
    {
      objs, routes, node, con := [], [], NodeData(None, None, None, None), NewCon(SyncData);
    }

    method NewObj(o: Obj) returns (id: nat)
      modifies this`objs
      ensures id == |old(objs)| && objs == old(objs) + [o]
    {
      id := |objs|;
      objs := objs + [o];
    }

    // ---- network sockets ----

    /** The attributes of a network socket, in the order in which they are read. */
    method ReadNetwork(net: Net) returns (ok: bool)
      modifies this`con
      ensures ok == NetOk(net, con.syncOffsetNeeded)
      ensures con == old(con).(link := ReadLink(old(con).link, net, con.syncOffsetNeeded))
    {
      if !net.bandwidth {
        return false;
      }
      if net.normal.Some? {
        con := con.(link := con.link.(labelNormal := net.normal.value));
      } else {
        if net.route.None? {
          return false;
        }
        con := con.(link := con.link.(routeName := net.route));
      }
      if net.fallback.Some? {
        con := con.(link := con.link.(labelFallback := net.fallback.value));
      }
      if net.active == WrongActive {
        return false;
      }
      con := con.(link := con.link.(isDeactivated := net.active == IsFalse,
                                    routeId := if net.routeId.Some? then net.routeId.value else ROUTE_INVALID_ID));
      if con.syncOffsetNeeded {
        if net.offset.None? {
          return false;
        }
        con := con.(link := con.link.(syncOffset := net.offset.value));
      }
      ok := true;
    }

    /** The NETWORK case of ParseSocket. A combiner goes into the list before the socket, a splitter after
        it; the splitter then takes the socket as its input. */
    method AddNetwork(net: Net, isSource: bool, jobs: seq<nat>) returns (ok: bool, list: seq<nat>)
      requires con.splitter.Some? ==> con.splitter.value < |objs|
      modifies this`objs, this`con
      ensures ok == NetOk(net, old(con).syncOffsetNeeded)
      ensures con.link == ReadLink(old(con).link, net, old(con).syncOffsetNeeded)
      ensures !ok ==> objs == old(objs) && con == old(con).(link := con.link)
      ensures ok ==> list == jobs + NetworkJobs(old(con), |old(objs)|)
      ensures ok ==> objs == NetworkObjs(old(con), old(objs))
      ensures ok ==> con == NetworkCon(old(con), |old(objs)|, isSource, con.link)
    {
      list := jobs + Opt(con.combiner);
      ok := ReadNetwork(net);
      if !ok {
        return;
      }
      var n := NewObj(Obj(NwSocket, Null, Null));
      if con.combiner.None? && con.splitter.Some? {
        objs := objs[con.splitter.value := objs[con.splitter.value].(first := To(n))];
      } else if isSource {
        con := con.(inSocket := Some(n));
      } else {
        con := con.(outSocket := Some(n));
      }
      list := list + [n];
      list := list + Opt(con.splitter);
      Regroup(jobs, Opt(con.combiner), [n], Opt(con.splitter));
    }

    // ---- peripheral sockets ----

    /** A port of the node, created on first use. */
    method UsePort(port: Option<nat>, jobs: seq<nat>) returns (id: nat, list: seq<nat>)
      requires IsPort(objs, port) && Plain(objs, jobs)
      modifies this`objs
      ensures list == jobs + [id] && Plain(objs, list) && old(objs) <= objs && IsPort(objs, Some(id))
      ensures Tidy(objs, |old(objs)|, None)
    {
      if port.Some? {
        id := port.value;
      } else {
        TidyAppend(objs, |objs|, None, Obj(DcPort, Null, Null));
        id := NewObj(Obj(DcPort, Null, Null));
      }
      list := jobs + [id];
      PlainAppend(old(objs), objs, jobs, id);
    }

    /** A socket of the given kind on a port. */
    method AddOn(kind: Kind, port: nat, isSource: bool, jobs: seq<nat>) returns (s: nat, list: seq<nat>)
      requires Plain(objs, jobs) && port in jobs && IsPeriph(kind) && port < |objs| && IsPortKind(objs[port].kind)
      modifies this`objs, this`con
      ensures list == jobs + [s] && Plain(objs, list) && Tidy(objs, |old(objs)|, None)
      ensures s == |old(objs)| && objs == old(objs) + [Obj(kind, To(port), Null)]
      ensures con == Target(old(con), isSource, s)
    {
      TidyAppend(objs, |objs|, None, Obj(kind, To(port), Null));
      s := NewObj(Obj(kind, To(port), Null));
      con := Target(con, isSource, s);
      list := jobs + [s];
      PlainAppend(old(objs), objs, jobs, s);
    }

    method AddUsb(endpointAddress: bool, framesPerTransaction: bool, isSource: bool, jobs: seq<nat>)
        returns (ok: bool, list: seq<nat>, s: nat)
      requires PortsOk(objs, node) && Plain(objs, jobs)
      modifies this`objs, this`con, this`node
      ensures ok == PeriphOk(Usb(endpointAddress, framesPerTransaction), old(con).dataType)
      ensures ok ==> PortsOk(objs, node)
      ensures ok ==> PeriphAdded(old(objs), objs, jobs, list, Usb(endpointAddress, framesPerTransaction), s)
      ensures ok ==> con == Target(old(con), isSource, s)
    {
      s := 0;
      var port;
      port, list := UsePort(node.usbPort, jobs);
      node := node.(usbPort := Some(port));
      if !endpointAddress || !framesPerTransaction {
        return false, list, s;
      }
      ghost var objs1 := objs;
      s, list := AddOn(UsbSocket, port, isSource, list);
      OnPort(old(objs), objs1, objs, jobs, port, Usb(endpointAddress, framesPerTransaction), s);
      PortsKept(objs1, objs, node);
      ok := true;
    }

    method AddMlb(bandwidth: bool, channelAddress: bool, isSource: bool, jobs: seq<nat>)
        returns (ok: bool, list: seq<nat>, s: nat)
      requires PortsOk(objs, node) && Plain(objs, jobs)
      modifies this`objs, this`con, this`node
      ensures ok == PeriphOk(Mlb(bandwidth, channelAddress), old(con).dataType)
      ensures ok ==> PortsOk(objs, node) && PeriphAdded(old(objs), objs, jobs, list, Mlb(bandwidth, channelAddress), s)
      ensures ok ==> con == Target(old(con), isSource, s)
    {
      s := 0;
      var port;
      port, list := UsePort(node.mlbPort, jobs);
      node := node.(mlbPort := Some(port));
      if !bandwidth || !channelAddress {
        return false, list, s;
      }
      ghost var objs1 := objs;
      s, list := AddOn(MlbSocket, port, isSource, list);
      OnPort(old(objs), objs1, objs, jobs, port, Mlb(bandwidth, channelAddress), s);
      PortsKept(objs1, objs, node);
      ok := true;
    }

    method StreamPorts(jobs: seq<nat>) returns (portA: nat, portB: nat, list: seq<nat>)
      requires PortsOk(objs, node) && Plain(objs, jobs)
      modifies this`objs, this`node
      ensures PortsOk(objs, node) && Plain(objs, list) && old(objs) <= objs && list == jobs + [portA, portB]
      ensures IsPort(objs, Some(portA)) && IsPort(objs, Some(portB)) && Tidy(objs, |old(objs)|, None)
    {
      portA, list := UsePort(node.strmPortA, jobs);
      node := node.(strmPortA := Some(portA));
      ghost var objs1 := objs;
      portB, list := UsePort(node.strmPortB, list);
      node := node.(strmPortB := Some(portB));
      TidyMore(objs1, objs, |old(objs)|, None);
    }

    /** The STRM case: both streaming ports are listed, the pin chooses the one that is used. */
    method AddStream(bandwidth: bool, pin: Pin, isSource: bool, jobs: seq<nat>)
        returns (ok: bool, list: seq<nat>, s: nat)
      requires PortsOk(objs, node) && Plain(objs, jobs)
      modifies this`objs, this`con, this`node
      ensures ok == PeriphOk(Strm(bandwidth, pin), old(con).dataType)
      ensures ok ==> PortsOk(objs, node) && PeriphAdded(old(objs), objs, jobs, list, Strm(bandwidth, pin), s)
      ensures ok ==> con == Target(old(con), isSource, s)
    {
      s := 0;
      var portA, portB;
      portA, portB, list := StreamPorts(jobs);
      if !bandwidth || pin == NoPin || con.dataType != SyncData || pin == WrongPin {
        return false, list, s;
      }
      ghost var objs1 := objs;
      s, list := AddOn(StrmSocket, if pin == PinA then portA else portB, isSource, list);
      PortsKept(objs1, objs, node);
      OnStream(old(objs), objs1, objs, jobs, portA, portB, Strm(bandwidth, pin), s);
      ok := true;
    }

    /** The USB, MLB and STRM cases of ParseSocket. */
    method AddPeripheral(p: Periph, isSource: bool, jobs: seq<nat>) returns (ok: bool, list: seq<nat>, s: nat)
      requires PortsOk(objs, node) && Plain(objs, jobs)
      modifies this`objs, this`con, this`node
      ensures ok == PeriphOk(p, old(con).dataType)
      ensures ok ==> PortsOk(objs, node) && PeriphAdded(old(objs), objs, jobs, list, p, s)
      ensures ok ==> con == Target(old(con), isSource, s)
    {
      match p
      case Usb(endpointAddress, framesPerTransaction) =>
        ok, list, s := AddUsb(endpointAddress, framesPerTransaction, isSource, jobs);
      case Mlb(bandwidth, channelAddress) =>
        ok, list, s := AddMlb(bandwidth, channelAddress, isSource, jobs);
      case Strm(bandwidth, pin) =>
        ok, list, s := AddStream(bandwidth, pin, isSource, jobs);
    }

    // ---- connecting the two sockets ----

    /** The end of ParseSocket: the connection becomes the last job, and the list goes to a new endpoint. */
    method Connect(jobs: seq<nat>) returns (ok: bool)
      requires con.inSocket.Some? && con.inSocket.value < |objs| && con.outSocket.Some? && con.outSocket.value < |objs|
      modifies this`objs, this`routes
      ensures objs == old(objs) + [ConObj(con)]
      ensures ok == (HasNetwork(old(objs), con) && Named(con.link))
      ensures routes == if ok then old(routes) + [EntryFor(con, old(objs), jobs + [|old(objs)|])] else old(routes)
    {
      var c := NewObj(ConObj(con));
      var list := jobs + [c];
      var input := objs[con.inSocket.value].kind;
      var output := objs[con.outSocket.value].kind;
      var networkIsInput := input == NwSocket || input == Splitter;
      var networkIsOutput := output == NwSocket;
      if !networkIsInput && !networkIsOutput {
        return false;
      }
      if con.link.routeName.None? && con.link.labelNormal == 0 {
        return false;
      }
      routes := routes + [Entry(networkIsOutput, !con.link.isDeactivated, con.link.routeId, con.link.routeName,
                                if con.link.routeName.Some? then 0 else con.link.labelNormal,
                                con.link.labelFallback, list)];
      ok := true;
    }

    ghost function Snap(): Snapshot
      reads this`objs, this`con, this`routes
    {
      Snapshot(objs, con, routes)
    }

    /** A network socket inside a splitter or a combiner. It works on a list of its own: only the list of
        the endpoint that it creates goes on from jobs. */
    method Branch(net: Net, isSource: bool, jobs: seq<nat>) returns (ok: bool)
      requires BranchReady(objs, con, isSource, jobs)
      modifies this`objs, this`con, this`routes
      ensures Branched(old(Snap()), Snap(), net, isSource, jobs, ok)
    {
      var list;
      ghost var before := Snap();
      ok, list := AddNetwork(net, isSource, jobs);
      if !ok {
        BranchRefused(before, Snap(), isSource, jobs);
        return;
      }
      BranchWired(before.objs, before.con, con.link, isSource, jobs);
      ghost var more := objs;
      ok := Connect(list);
      BranchAccepted(before, Snap(), isSource, jobs, more, list, ok);
    }

    method BranchNext(ghost before: Snapshot, nets: seq<Net>, k: nat, isSource: bool, jobs: seq<nat>,
                      ghost heads: seq<Entry>) returns (ghost more: seq<Entry>)
      requires k < |nets| && BranchesDone(before, Snap(), nets, k, isSource, jobs, heads)
      modifies this`objs, this`con, this`routes
      ensures BranchesDone(before, Snap(), nets, k + 1, isSource, jobs, more)
    {
      ghost var now := Snap();
      var ok := Branch(nets[k], isSource, jobs);
      more := BranchesMore(before, now, Snap(), nets, k, isSource, jobs, heads, ok);
    }

    /** The network sockets inside a splitter or a combiner, each with its own copy of the list. A failure in
        one of them is not noticed. */
    method Branches(nets: seq<Net>, isSource: bool, jobs: seq<nat>)
      requires BranchReady(objs, con, isSource, jobs)
      modifies this`objs, this`con, this`routes
      ensures BranchState(old(Snap()), Snap(), isSource, jobs) && old(routes) <= routes
      ensures HaveHeads(routes, |old(routes)|, Heads(nets, old(con).link, con.syncOffsetNeeded, !isSource))
      ensures AllNew(objs, SideOf(con, isSource), jobs, routes, |old(routes)|)
    {
      var k := 0;
      ghost var before := Snap();
      ghost var heads: seq<Entry> := [];
      BranchesStart(before, nets, isSource, jobs);
      while k < |nets|
        invariant 0 <= k <= |nets| && BranchesDone(before, Snap(), nets, k, isSource, jobs, heads)
      {
        heads := BranchNext(before, nets, k, isSource, jobs, heads);
        k := k + 1;
      }
      BranchesEnd(before, Snap(), nets, isSource, jobs, heads);
    }

    /** The pending combiner: it takes the peripheral socket and becomes the output of each of its network
        sockets. */
    method FinishCombiner(jobs: seq<nat>)
      requires con.splitter == None && con.combiner.Some? && con.outSocket.Some? && con.outSocket.value in jobs
      requires con.combiner.value < |objs| && con.combiner.value !in jobs && Plain(objs, jobs)
      requires objs[con.combiner.value] == Obj(Combiner, Wild, Null)
      modifies this`objs, this`con, this`routes
      ensures |old(objs)| <= |objs|
      ensures objs[old(con).combiner.value] == Obj(Combiner, To(old(con).outSocket.value), Null)
      ensures forall id | 0 <= id < |old(objs)| && id != old(con).combiner.value :: objs[id] == old(objs)[id]
      ensures old(routes) <= routes && Tidy(objs, |old(objs)|, None)
      ensures HaveHeads(routes, |old(routes)|, Heads(old(con).pending, old(con).link, con.syncOffsetNeeded, false))
      ensures con.syncOffsetNeeded == old(con).syncOffsetNeeded
      ensures AllNew(objs, Side(old(con).dataType, true, old(con).combiner, old(con).combiner.value), jobs,
                     routes, |old(routes)|)
    {
      var nets, c := con.pending, con.combiner.value;
      con := con.(pending := []);
      objs := objs[c := objs[c].(first := To(con.outSocket.value))];
      con := con.(outSocket := con.combiner);
      BuiltKept(old(objs), objs, jobs);
      ghost var objs1 := objs;
      Branches(nets, true, jobs);
      assert objs[c] == objs1[c];
    }

    // ---- the two sockets of a connection ----

    /** A splitter as the source takes the first of its network sockets; whether that succeeds is not
        looked at. */
    method FirstSplitter(bytesPerFrame: bool, nets: seq<Net>, jobs: seq<nat>) returns (ok: bool, list: seq<nat>)
      requires PortsOk(objs, node) && Plain(objs, jobs) && |jobs| <= 1 && con == NewCon(con.dataType)
      modifies this`objs, this`con
      ensures ok == (bytesPerFrame && nets != [])
      ensures ok ==> old(objs) <= objs && con.dataType == old(con).dataType
      ensures ok ==> AfterFirst(objs, con, Split(bytesPerFrame, nets), list) && con.inSocket.value >= |old(objs)|
      ensures ok ==> Tidy(objs, |old(objs)|, Incomplete(con, Split(bytesPerFrame, nets)))
    {
      list := jobs;
      con := con.(syncOffsetNeeded := true);
      if !bytesPerFrame {
        return false, list;
      }
      var s := NewObj(Obj(Splitter, Wild, Null));
      con := con.(splitter := Some(s), inSocket := Some(s));
      if nets == [] {
        return false, list;
      }
      ok := true;
      ghost var before := con;
      var accepted, longer := AddNetwork(nets[0], true, jobs);
      if accepted {
        list := longer;
        SplitterTaken(old(objs), before, con, Split(bytesPerFrame, nets), jobs);
      } else {
        SplitterRefused(old(objs), con, Split(bytesPerFrame, nets), jobs);
      }
    }

    method FirstCombiner(bytesPerFrame: bool, nets: seq<Net>, jobs: seq<nat>) returns (ok: bool)
      requires PortsOk(objs, node) && Plain(objs, jobs) && |jobs| <= 1 && con == NewCon(con.dataType)
      modifies this`objs, this`con
      ensures ok == (bytesPerFrame && nets != [])
      ensures ok ==> old(objs) <= objs && con.dataType == old(con).dataType
      ensures ok ==> AfterFirst(objs, con, Combine(bytesPerFrame, nets), jobs) && con.combiner == Some(|old(objs)|)
      ensures ok ==> Tidy(objs, |old(objs)|, con.combiner)
    {
      if !bytesPerFrame {
        return false;
      }
      var c := NewObj(Obj(Combiner, Wild, Null));
      con := con.(combiner := Some(c), syncOffsetNeeded := true);
      PlainKept(old(objs), objs, jobs);
      if nets == [] {
        return false;
      }
      con := con.(pending := nets);
      ok := true;
    }

    /** ParseSocket for the first socket, the source. */
    method First(soc: Socket, jobs: seq<nat>) returns (ok: bool, list: seq<nat>)
      requires PortsOk(objs, node) && Plain(objs, jobs) && |jobs| <= 1 && con == NewCon(con.dataType)
      modifies this`objs, this`con, this`node
      ensures ok == FirstOk(soc, old(con).dataType)
      ensures ok ==> old(objs) <= objs && PortsOk(objs, node) && con.dataType == old(con).dataType
      ensures ok ==> AfterFirst(objs, con, soc, list) && (con.combiner.Some? ==> con.combiner.value >= |old(objs)|)
      ensures ok ==> Tidy(objs, |old(objs)|, Incomplete(con, soc))
      ensures ok && soc.Split? ==> con.inSocket.value >= |old(objs)|
    {
      list := jobs;
      match soc
      case Network(net) =>
        ok, list := AddNetwork(net, true, jobs);
        if ok {
          PlainAppend(old(objs), objs, jobs, |old(objs)|);
          TidyAppend(old(objs), |old(objs)|, None, Obj(NwSocket, Null, Null));
          assert list == jobs + [|old(objs)|];
        }
      case Peripheral(p) =>
        ghost var s;
        ok, list, s := AddPeripheral(p, true, jobs);
      case Split(bytesPerFrame, nets) =>
        ok, list := FirstSplitter(bytesPerFrame, nets, jobs);
      case Combine(bytesPerFrame, nets) =>
        ok := FirstCombiner(bytesPerFrame, nets, jobs);
    }

    method CompleteCombiner(ghost objs0: seq<Obj>, ghost jobs: seq<nat>, list: seq<nat>, ghost s: nat, ghost p: Periph,
                            ghost c: Connection)
      requires c.first.Combine? && c.second == Peripheral(p) && con.dataType == c.dataType && PortsOk(objs, node)
      requires PeriphAdded(objs0, objs, jobs, list, p, s) && con.outSocket == Some(s) && con.syncOffsetNeeded
      requires AfterFirst(objs0, con.(outSocket := None), c.first, jobs)
      modifies this`objs, this`con, this`routes
      ensures PortsOk(objs, node) && |objs0| <= |objs| && Outcome(objs, old(routes), routes, c)
      ensures forall id | 0 <= id < |objs0| && Some(id) != old(con).combiner :: objs[id] == objs0[id]
      ensures Tidy(objs, |objs0|, None) && OnTop(objs, Combiner, p, old(con).combiner.value)
    {
      ghost var comb, objs1 := con.combiner.value, objs;
      NewJobs(objs0, objs, jobs, list, p, s, comb);
      ghost var side := Side(con.dataType, true, con.combiner, comb);
      FinishCombiner(list);
      CombinerDone(objs0, objs1, objs, node, comb, p, s);
      AllPromised(objs, side, list, routes, |old(routes)|, c);
    }

    method ConnectPeripheral(ghost objs0: seq<Obj>, ghost jobs: seq<nat>, list: seq<nat>, ghost s: nat, ghost p: Periph,
                             ghost c: Connection) returns (ok: bool)
      requires (c.first.Network? || c.first.Split?) && c.second == Peripheral(p) && con.dataType == c.dataType
      requires PeriphAdded(objs0, objs, jobs, list, p, s) && con.outSocket == Some(s) && PortsOk(objs, node)
      requires AfterFirst(objs0, con.(outSocket := None), c.first, jobs)
      modifies this`objs, this`routes
      ensures ok == Named(FirstLink(c.first)) && objs0 <= objs && PortsOk(objs, node)
      ensures if ok then Outcome(objs, old(routes), routes, c) && Tidy(objs, |objs0|, None) else routes == old(routes)
    {
      ghost var before := Snap();
      ReadyEnds(objs0, objs, con, jobs, list, p, s, c);
      TidyAppend(objs, |objs0|, None, ConObj(con));
      ok := Connect(list);
      PortsKept(before.objs, objs, node);
      if ok {
        ConnectOutcome(before.objs, con, list, before.routes, routes, c);
      }
    }

    /** A peripheral socket as the second one completes a combiner or the connection. */
    method SecondPeripheral(jobs: seq<nat>, p: Periph, ghost c: Connection) returns (ok: bool)
      requires PortsOk(objs, node) && AfterFirst(objs, con, c.first, jobs) && con.dataType == c.dataType
      requires !c.first.Peripheral? && c.second == Peripheral(p)
      modifies this`objs, this`con, this`node, this`routes
      ensures ok == (PeriphOk(p, c.dataType) && (c.first.Combine? || Named(FirstLink(c.first))))
      ensures !ok ==> routes == old(routes)
      ensures ok ==> |old(objs)| <= |objs| && PortsOk(objs, node) && Outcome(objs, old(routes), routes, c)
      ensures ok ==> forall id | 0 <= id < |old(objs)| && Some(id) != old(con).combiner :: objs[id] == old(objs)[id]
      ensures ok ==> Tidy(objs, |old(objs)|, None)
      ensures ok && c.first.Combine? ==> OnTop(objs, Combiner, p, old(con).combiner.value)
    {
      var list, s;
      ok, list, s := AddPeripheral(p, false, jobs);
      if !ok {
        return;
      }
      if con.combiner.Some? && con.pending != [] {
        CompleteCombiner(old(objs), jobs, list, s, p, c);
        return;
      }
      if con.inSocket.Some? {
        ok := ConnectPeripheral(old(objs), jobs, list, s, p, c);
      }
    }

    /** A network socket as the second socket, behind a peripheral one. */
    method SecondNetwork(jobs: seq<nat>, net: Net, ghost c: Connection) returns (ok: bool)
      requires AfterFirst(objs, con, c.first, jobs) && con.dataType == c.dataType && PortsOk(objs, node)
      requires c.first.Peripheral? && c.second == Network(net)
      modifies this`objs, this`con, this`routes
      ensures ok == (NetOk(net, false) && Named(ReadLink(NO_LINK, net, false)))
      ensures !ok ==> routes == old(routes)
      ensures old(objs) <= objs && PortsOk(objs, node) && Tidy(objs, |old(objs)|, None)
      ensures ok ==> Outcome(objs, old(routes), routes, c)
    {
      ghost var before := Snap();
      ok := Branch(net, false, jobs);
      PortsKept(before.objs, objs, node);
      SourceKept(before.objs, objs, c, con.inSocket.value);
      if ok {
        NetworkOutcome(before, Snap(), jobs, c);
      }
    }

    method SplitBranches(list: seq<nat>, nets: seq<Net>, ghost s: nat, ghost c: Connection)
      requires BranchReady(objs, con, false, list) && con.inSocket == Some(s) && SourceEnd(objs, c, s)
      requires con.dataType == c.dataType && con.syncOffsetNeeded && con.link == NO_LINK && PortsOk(objs, node)
      requires |list| <= 7
      requires c.first.Peripheral? && c.second.Split? && c.second.nets == nets
      modifies this`objs, this`con, this`routes
      ensures old(objs) <= objs && PortsOk(objs, node) && Tidy(objs, |old(objs)|, None)
      ensures Outcome(objs, old(routes), routes, c)
    {
      ghost var objs0, side := objs, Side(con.dataType, false, None, s);
      Branches(nets, false, list);
      PortsKept(objs0, objs, node);
      SourceKept(objs0, objs, c, s);
      AllPromised(objs, side, list, routes, |old(routes)|, c);
    }

    /** A splitter as the second socket: it takes the peripheral one as its input. */
    method SecondSplitter(jobs: seq<nat>, bytesPerFrame: bool, nets: seq<Net>, ghost c: Connection) returns (ok: bool)
      requires AfterFirst(objs, con, c.first, jobs) && con.dataType == c.dataType && PortsOk(objs, node)
      requires c.first.Peripheral? && c.second == Split(bytesPerFrame, nets)
      modifies this`objs, this`con, this`routes
      ensures ok == (bytesPerFrame && nets != [])
      ensures !ok ==> routes == old(routes)
      ensures old(objs) <= objs && PortsOk(objs, node)
      ensures ok ==> Outcome(objs, old(routes), routes, c) && Tidy(objs, |old(objs)|, None)
    {
      con := con.(syncOffsetNeeded := true);
      if !bytesPerFrame || con.inSocket.None? {
        return false;
      }
      ghost var o := Obj(Splitter, To(con.inSocket.value), Null);
      TidyAppend(objs, |objs|, None, o);
      PlainAppend(objs, objs + [o], jobs, |objs|);
      var s := NewObj(Obj(Splitter, To(con.inSocket.value), Null));
      con := con.(inSocket := Some(s));
      if nets == [] {
        return false;
      }
      ghost var objs1 := objs;
      PortsKept(old(objs), objs, node);
      SplitBranches(jobs + [s], nets, s, c);
      TidyMore(objs1, objs, |old(objs)|, None);
      ok := true;
    }

    /** A connection with two sockets, one of them on the network side. It is accepted exactly if the attributes
        that are looked at are; then there is one endpoint for each accepted network socket, whose list ends with the
        connection of the two sides and is in dependency order, exactly if the network socket inside a splitter
        that is the source is accepted. The ports stay usable for the next connection of the node. */
    method ParsePair(c: Connection, rmckPort: Option<nat>) returns (ok: bool)
      requires PortsOk(objs, node) && IsPort(objs, rmckPort) && OneNetworkSide(c.first, c.second)
      modifies this
      ensures ok == PairOk(c.first, c.second, c.dataType)
      ensures !ok ==> routes == old(routes)
      ensures ok ==> old(objs) <= objs && PortsOk(objs, node) && Outcome(objs, old(routes), routes, c)
      ensures ok && !Refused(c.first) ==> Tidy(objs, |old(objs)|, None)
      ensures ok && Refused(c.first) ==> Dangling(objs, |old(objs)|)
    {
      con := NewCon(c.dataType);
      var list := Opt(rmckPort);
      ok, list := First(c.first, list);
      if !ok {
        return;
      }
      ghost var objs1, con1 := objs, con;
      if c.second.Peripheral? {
        ok := SecondPeripheral(list, c.second.p, c);
      } else if c.second.Network? {
        ok := SecondNetwork(list, c.second.net, c);
      } else {
        ok := SecondSplitter(list, c.second.bytesPerFrame, c.second.nets, c);
      }
      if ok {
        PairTidy(old(objs), objs1, objs, con1, c, list);
      }
    }

    method NextConnection(ghost before: Snapshot, ghost done: seq<Connection>, c: Connection, rmckPort: Option<nat>)
        returns (ok: bool)
      requires NodeState(before, Snap(), done) && PortsOk(objs, node) && IsPort(objs, rmckPort)
      requires OneNetworkSide(c.first, c.second)
      modifies this
      ensures ok == PairOk(c.first, c.second, c.dataType)
      ensures ok ==> NodeState(before, Snap(), done + [c]) && PortsOk(objs, node) && IsPort(objs, rmckPort)
    {
      ghost var now := Snap();
      ok := ParsePair(c, rmckPort);
      if ok {
        NodeNext(before, now, Snap(), done, c);
      }
    }

    /** The connections of a node, up to the first that is not accepted. */
    method ParseConnections(cons: seq<Connection>, rmckPort: Option<nat>) returns (ok: bool)
      requires PortsOk(objs, node) && IsPort(objs, rmckPort)
      requires forall c | c in cons :: OneNetworkSide(c.first, c.second)
      modifies this
      ensures ok == AllPairsOk(cons)
      ensures ok ==> old(objs) <= objs && PortsOk(objs, node) && NodeOutcome(objs, old(routes), routes, cons)
      ensures ok ==> NodeTidy(objs, |old(objs)|, cons)
    {
      var k := 0;
      ghost var before := Snap();
      while k < |cons|
        invariant 0 <= k <= |cons| && AllPairsOk(cons[..k])
        invariant NodeState(before, Snap(), cons[..k]) && PortsOk(objs, node) && IsPort(objs, rmckPort)
      {
        NextPair(cons, k);
        ok := NextConnection(before, cons[..k], cons[k], rmckPort);
        if !ok {
          return;
        }
        k := k + 1;
      }
      assert cons[..k] == cons;
      ok := true;
    }
  }

  /** The source splitter's network socket has a label but a wrong activity, so it is refused. The connection is
      accepted all the same, and its one endpoint has a list that is out of order. */
  method RefusalUnnoticed() returns (p: Parser, ok: bool)
    ensures ok && |p.routes| == 1 && !EntryOk(p.objs, p.routes[0])
  {
    p := new Parser();
    var net := Net(true, Some(5), None, None, WrongActive, None, Some(0));
    ok := p.ParsePair(Connection(Split(true, [net]), Peripheral(Usb(true, true)), SyncData), None);
    assert |PairHeads(Split(true, [net]), Peripheral(Usb(true, true)))| == 1;
  }
}
