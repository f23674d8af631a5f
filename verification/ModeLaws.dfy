/** What the commands of a run come from, and when results are reported, told from the events. */
module ModeLaws {
  // Besides the events only the length of the queue and the command in flight are looked at.

  import opened CStrings
  import opened Dispatcher

  lemma StepAt(states: seq<Abs>, events: seq<Event>, k: nat)
    requires IsRun(states, events) && 0 < k < |states|
    ensures states[k] == Next(states[k - 1], events[k - 1])
  {
    assert states[k - 1 + 1] == Next(states[k - 1], events[k - 1]);
  }

  /** The command in flight is the oldest one and reports, and a pending route is the one that it asks for. */
  predicate Ready(b: Books) {
    && (b.inFlight ==> b.queue != [] && Reporting(KindOf(b.queue[0])))
    && b.pending == PendingOf(b.queue, b.inFlight) && |b.queue| <= CMD_QUEUE_LEN
  }

  lemma RunReady(states: seq<Abs>, events: seq<Event>, i: nat)
    requires IsRun(states, events) && i < |states|
    ensures Ready(states[i].b)
  {
    RunKept(states, events, i);
  }

  // ---- whether the stack is up ----

  predicate Restarts(e: Event) {
    e.Initialised? || e.Stopped?
  }

  /** The stack was initialised, and since then it was neither stopped nor initialised again. */
  predicate Up(events: seq<Event>, i: nat)
    requires i <= |events|
  {
    exists m | 0 <= m < i :: events[m] == Initialised(true) && forall n | m < n < i :: !Restarts(events[n])
  }

  lemma UpStep(s: Abs, e: Event)
    ensures Next(s, e).m.initialized == if Restarts(e) then e == Initialised(true) else s.m.initialized
  {
  }

  lemma UpMore(events: seq<Event>, i: nat)
    requires 0 < i <= |events|
    ensures Up(events, i) <==> if Restarts(events[i - 1]) then events[i - 1] == Initialised(true) else Up(events, i - 1)
  {
    if !Restarts(events[i - 1]) && Up(events, i - 1) {
      var m :| 0 <= m < i - 1 && events[m] == Initialised(true) && forall n | m < n < i - 1 :: !Restarts(events[n]);
      assert events[m] == Initialised(true) && forall n | m < n < i :: !Restarts(events[n]);
    }
  }

  lemma {:induction false} UpIs(states: seq<Abs>, events: seq<Event>, i: nat)
    requires IsRun(states, events) && i < |states|
    ensures states[i].m.initialized <==> Up(events, i)
    decreases i
  {
    if i > 0 {
      UpIs(states, events, i - 1);
      StepAt(states, events, i);
      UpStep(states[i - 1], events[i - 1]);
      UpMore(events, i);
    }
  }

  // ---- the wanted mode ----

  predicate Room(s: Abs) {
    |s.b.queue| < 40
  }

  /** The call has taken effect: there was room, or the stack was not up and nothing had to be stopped. */
  predicate Configures(s: Abs, e: Event) {
    e.Configure? && (Room(s) || !s.m.initialized)
  }

  /** The event says what mode is wanted. */
  predicate Wishes(s: Abs, e: Event) {
    e == HdxReport || (e.Want? && Room(s)) || Configures(s, e)
  }

  predicate CountsAt(states: seq<Abs>, events: seq<Event>, n: nat)
    requires |states| == |events| + 1 && n < |events|
  {
    Configures(states[n], events[n]) && events[n].nodes >= 1
  }

  /** The nodes to be programmed: those of the last configuration that names any, without the root node. */
  predicate ToProgram(states: seq<Abs>, events: seq<Event>, i: nat, count: nat)
    requires |states| == |events| + 1 && i <= |events|
  {
    || (count == 0 && forall n | 0 <= n < i :: !CountsAt(states, events, n))
    || exists k | 0 <= k < i :: CountsAt(states, events, k) && count == events[k].nodes - 1
         && forall n | k < n < i :: !CountsAt(states, events, n)
  }

  lemma CountStep(s: Abs, e: Event)
    ensures Next(s, e).m.triggerNodeCount
         == if Configures(s, e) && e.nodes >= 1 then e.nodes - 1 else s.m.triggerNodeCount
  {
  }

  lemma CountMore(states: seq<Abs>, events: seq<Event>, i: nat, count: nat)
    requires |states| == |events| + 1 && 0 < i <= |events|
    requires !CountsAt(states, events, i - 1) && ToProgram(states, events, i - 1, count)
    ensures ToProgram(states, events, i, count)
  {
    if !(count == 0 && forall n | 0 <= n < i - 1 :: !CountsAt(states, events, n)) {
      var k :| 0 <= k < i - 1 && CountsAt(states, events, k) && count == events[k].nodes - 1
        && forall n | k < n < i - 1 :: !CountsAt(states, events, n);
      assert CountsAt(states, events, k) && forall n | k < n < i :: !CountsAt(states, events, n);
    }
  }

  lemma {:induction false} CountIs(states: seq<Abs>, events: seq<Event>, i: nat)
    requires IsRun(states, events) && i < |states|
    ensures ToProgram(states, events, i, states[i].m.triggerNodeCount)
    decreases i
  {
    if i > 0 {
      CountIs(states, events, i - 1);
      StepAt(states, events, i);
      CountStep(states[i - 1], events[i - 1]);
      if !CountsAt(states, events, i - 1) {
        CountMore(states, events, i, states[i].m.triggerNodeCount);
      }
    }
  }

  /** What the event wishes, when so many nodes are to be programmed. */
  predicate WishIs(e: Event, mode: Mode, count: nat) {
    if e == HdxReport then mode == Normal
    else if e.Want? then mode == e.mode
    else e.Configure? && mode == if count == 0 then Normal else Programming
  }

  /** The event wishes that mode. */
  predicate WishAt(states: seq<Abs>, events: seq<Event>, k: nat, mode: Mode)
    requires |states| == |events| + 1 && k < |events|
  {
    Wishes(states[k], events[k]) && WishIs(events[k], mode, states[k + 1].m.triggerNodeCount)
  }

  /** The wish of the last event that has one; normal operation without any. */
  predicate WantedAt(states: seq<Abs>, events: seq<Event>, i: nat, mode: Mode)
    requires |states| == |events| + 1 && i <= |events|
  {
    || (mode == Normal && forall n | 0 <= n < i :: !Wishes(states[n], events[n]))
    || exists k | 0 <= k < i ::
         WishAt(states, events, k, mode) && forall n | k < n < i :: !Wishes(states[n], events[n])
  }

  lemma WishStep(s: Abs, e: Event)
    ensures Wishes(s, e) ==> WishIs(e, Next(s, e).m.shall, Next(s, e).m.triggerNodeCount)
    ensures !Wishes(s, e) ==> Next(s, e).m.shall == s.m.shall
  {
  }

  lemma WantedMore(states: seq<Abs>, events: seq<Event>, i: nat, mode: Mode)
    requires |states| == |events| + 1 && 0 < i <= |events|
    requires !Wishes(states[i - 1], events[i - 1]) && WantedAt(states, events, i - 1, mode)
    ensures WantedAt(states, events, i, mode)
  {
    if !(mode == Normal && forall n | 0 <= n < i - 1 :: !Wishes(states[n], events[n])) {
      var k :| 0 <= k < i - 1 && WishAt(states, events, k, mode)
        && forall n | k < n < i - 1 :: !Wishes(states[n], events[n]);
      assert WishAt(states, events, k, mode) && forall n | k < n < i :: !Wishes(states[n], events[n]);
    }
  }

  lemma WantedNow(states: seq<Abs>, events: seq<Event>, i: nat, mode: Mode)
    requires |states| == |events| + 1 && 0 < i <= |events|
    requires Wishes(states[i - 1], events[i - 1]) && WishIs(events[i - 1], mode, states[i].m.triggerNodeCount)
    ensures WantedAt(states, events, i, mode)
  {
    assert WishAt(states, events, i - 1, mode);
  }

  lemma {:induction false} WantedIs(states: seq<Abs>, events: seq<Event>, i: nat)
    requires IsRun(states, events) && i < |states|
    ensures WantedAt(states, events, i, states[i].m.shall)
    decreases i
  {
    if i > 0 {
      WantedIs(states, events, i - 1);
      StepAt(states, events, i);
      WishStep(states[i - 1], events[i - 1]);
      if Wishes(states[i - 1], events[i - 1]) {
        WantedNow(states, events, i, states[i].m.shall);
      } else {
        WantedMore(states, events, i, states[i].m.shall);
      }
    }
  }

  // ---- when a mode may be entered ----

  predicate LetsGo(s: Abs, e: Event) {
    e == ModeReady(Inactive) && s.m.shall != Inactive
  }

  /** Behind the end of a cable diagnosis a mode may be entered from the inactive mode only, until that has been
      done. */
  predicate Held(states: seq<Abs>, events: seq<Event>, i: nat)
    requires |states| == |events| + 1 && i <= |events|
  {
    exists k | 0 <= k < i :: events[k] == HdxReport && forall n | k < n < i :: !LetsGo(states[n], events[n])
  }

  lemma HeldStep(s: Abs, e: Event)
    ensures Next(s, e).m.onlyInInactive == (e == HdxReport || (s.m.onlyInInactive && !LetsGo(s, e)))
  {
  }

  lemma HeldMore(states: seq<Abs>, events: seq<Event>, i: nat)
    requires |states| == |events| + 1 && 0 < i <= |events|
    ensures Held(states, events, i) <==>
      events[i - 1] == HdxReport || (Held(states, events, i - 1) && !LetsGo(states[i - 1], events[i - 1]))
  {
    if Held(states, events, i - 1) && !LetsGo(states[i - 1], events[i - 1]) {
      var k :| 0 <= k < i - 1 && events[k] == HdxReport && forall n | k < n < i - 1 :: !LetsGo(states[n], events[n]);
      assert events[k] == HdxReport && forall n | k < n < i :: !LetsGo(states[n], events[n]);
    }
  }

  lemma {:induction false} HeldIs(states: seq<Abs>, events: seq<Event>, i: nat)
    requires IsRun(states, events) && i < |states|
    ensures states[i].m.onlyInInactive <==> Held(states, events, i)
    decreases i
  {
    if i > 0 {
      HeldIs(states, events, i - 1);
      StepAt(states, events, i);
      HeldStep(states[i - 1], events[i - 1]);
      HeldMore(states, events, i);
    }
  }

  // ---- what goes into the queue ----

  /** There is room, or there will be when the command in flight, one of that kind, has left. */
  predicate RoomBehind(s: Abs, kind: Kind) {
    Room(s) || (s.b.inFlight && s.b.queue != [] && KindOf(s.b.queue[0]) == kind && |s.b.queue| == 40)
  }

  /** The commands that come into the queue. */
  function Added(s: Abs, e: Event, up: bool, held: bool, wanted: Mode): seq<Cmd> {
    match e
    case Enqueue(cmd) => if Room(s) then [cmd] else []
    case Want(_) => if Room(s) then [SupvSetMode(Inactive)] else []
    case Configure(_) =>
      if !up then (if Room(s) then [Init] else [])
      else if |s.b.queue| + 1 < 40 then [Stop, Init]
      else if Room(s) then [Stop] else []
    case Initialised(success) => if !success && RoomBehind(s, InitKind) then [Init] else []
    case ModeReady(mode) =>
      if wanted != mode && (!held || mode == Inactive) && RoomBehind(s, ModeKind) then [SupvSetMode(wanted)] else []
    case _ => []
  }

  /** When the command in flight leaves, nothing comes in, and there is room behind. */
  lemma LeavesRoom(s: Abs, kind: Kind, success: bool)
    requires Ready(s.b)
    ensures var b := Executed(s.b, kind, success);
      b.enqueued == s.b.enqueued && (|b.queue| < CMD_QUEUE_LEN <==> RoomBehind(s, kind))
  {
  }

  lemma PutsAdds(b: Books, c: Cmd)
    ensures Puts(b, c).enqueued == b.enqueued + if |b.queue| < CMD_QUEUE_LEN then [c] else []
    ensures |Puts(b, c).queue| == |b.queue| + if |b.queue| < CMD_QUEUE_LEN then 1 else 0
  {
  }

  lemma ModeAdds(s: Abs, mode: Mode)
    requires Ready(s.b)
    ensures Next(s, ModeReady(mode)).b.enqueued == s.b.enqueued +
      if s.m.shall != mode && (!s.m.onlyInInactive || mode == Inactive) && RoomBehind(s, ModeKind)
      then [SupvSetMode(s.m.shall)] else []
  {
    var b := Executed(s.b, ModeKind, true);
    LeavesRoom(s, ModeKind, true);
    if Switches(s.m, mode) {
      PutsAdds(b, SupvSetMode(s.m.shall));
      assert Next(s, ModeReady(mode)).b == Puts(b, SupvSetMode(s.m.shall));
    } else {
      assert Next(s, ModeReady(mode)).b == b;
    }
  }

  lemma InitAdds(s: Abs, success: bool)
    requires Ready(s.b)
    ensures Next(s, Initialised(success)).b.enqueued
         == s.b.enqueued + if !success && RoomBehind(s, InitKind) then [Init] else []
  {
    LeavesRoom(s, InitKind, success);
    PutsAdds(Executed(s.b, InitKind, success), Init);
    assert s.b.enqueued + [] == s.b.enqueued;
  }

  lemma ConfigureAdds(s: Abs, nodes: nat)
    requires Ready(s.b)
    ensures Next(s, Configure(nodes)).b.enqueued == s.b.enqueued +
      if !s.m.initialized then (if Room(s) then [Init] else [])
      else if |s.b.queue| + 1 < 40 then [Stop, Init]
      else if Room(s) then [Stop] else []
  {
    if !s.m.initialized {
      PutsAdds(s.b, Init);
      assert Next(s, Configure(nodes)).b == Puts(s.b, Init);
    } else if !Room(s) {
      assert Next(s, Configure(nodes)).b == s.b;
    } else {
      PutsAdds(s.b, Stop);
      PutsAdds(Puts(s.b, Stop), Init);
      assert Next(s, Configure(nodes)).b == Puts(Puts(s.b, Stop), Init);
      assert s.b.enqueued + [Stop] + [Init] == s.b.enqueued + [Stop, Init];
    }
  }

  lemma NothingAdded(s: Abs, e: Event)
    requires Ready(s.b)
    requires e.ServiceCall? || e.Report? || e.Stopped? || e.ScriptDone? || e.RouteDone? || e.HdxReport?
    ensures Next(s, e).b.enqueued == s.b.enqueued
  {
  }

  lemma AddedStep(s: Abs, e: Event)
    requires Ready(s.b)
    ensures Next(s, e).b.enqueued
         == s.b.enqueued + Added(s, e, s.m.initialized, s.m.onlyInInactive, s.m.shall)
  {
    match e
    case Enqueue(cmd) => PutsAdds(s.b, cmd);
    case Want(_) => PutsAdds(s.b, SupvSetMode(Inactive));
    case Configure(nodes) => ConfigureAdds(s, nodes);
    case Initialised(success) => InitAdds(s, success);
    case ModeReady(mode) => ModeAdds(s, mode);
    case _ => NothingAdded(s, e);
  }

  /** In every step of every run the queue gets what the event asks for, and after a mode has been reached the
      command for the wanted mode. */
  lemma AddedInRun(states: seq<Abs>, events: seq<Event>, i: nat) returns (wanted: Mode)
    requires IsRun(states, events) && i < |events|
    ensures WantedAt(states, events, i, wanted)
    ensures states[i + 1].b.enqueued
         == states[i].b.enqueued + Added(states[i], events[i], Up(events, i), Held(states, events, i), wanted)
  {
    wanted := states[i].m.shall;
    WantedIs(states, events, i);
    UpIs(states, events, i);
    HeldIs(states, events, i);
    RunReady(states, events, i);
    StepAt(states, events, i + 1);
    AddedStep(states[i], events[i]);
  }

  lemma LastWish(states: seq<Abs>, events: seq<Event>, i: nat, mode: Mode) returns (k: nat)
    requires |states| == |events| + 1 && i <= |events| && WantedAt(states, events, i, mode)
    requires exists k | 0 <= k < i :: Wishes(states[k], events[k])
    ensures k < i && WishAt(states, events, k, mode)
    ensures forall n | k < n < i :: !Wishes(states[n], events[n])
  {
    k :| 0 <= k < i && WishAt(states, events, k, mode) && forall n | k < n < i :: !Wishes(states[n], events[n]);
  }

  /** No two modes are wanted at a time. */
  lemma WantedUnique(states: seq<Abs>, events: seq<Event>, i: nat, mode: Mode, other: Mode)
    requires |states| == |events| + 1 && i <= |events|
    requires WantedAt(states, events, i, mode) && WantedAt(states, events, i, other)
    ensures mode == other
  {
    if exists k | 0 <= k < i :: Wishes(states[k], events[k]) {
      var k := LastWish(states, events, i, mode);
      var l := LastWish(states, events, i, other);
      assert !(k < l) && !(l < k);
    }
  }

  // ---- when commands leave, and with what result ----

  /** The event is the report that the stack has done with that command. */
  predicate Completes(e: Event, c: Cmd, success: bool) {
    if c.RmSetRoute? then
      e.RouteDone? && e.route == Some(c.route) && success == (e.infos == if c.isActive then Built else Destroyed)
    else
      || (e.Report? && e.kind == KindOf(c) && e.success == success)
      || (c == Init && e == Initialised(success)) || (c == Stop && e == Stopped(success))
      || (c.SupvSetMode? && e.ModeReady? && success)
  }

  /** The address that a command names. */
  function Target(c: Cmd): Option<Address> {
    match c
    case RmSetRoute(_, _, sink) => Some(sink)
    case NsRun(node) => Some(node)
    case GpioCreatePort(destination) => Some(destination)
    case GpioWritePort(destination) => Some(destination)
    case GpioPortMode(destination) => Some(destination)
    case I2CWrite(destination) => Some(destination)
    case I2CRead(destination) => Some(destination)
    case SendAmsMessage(destination) => Some(destination)
    case PacketFilterMode(destination) => Some(destination)
    case ProgramNode(nodePos) => Some(nodePos)
    case _ => None
  }

  /** The address of the result: the one that the command names, except that it is not known any more when a route, a
      port mode or a node has been set; the own node for starting and stopping. */
  predicate AddressIs(c: Cmd, done: bool, address: Address) {
    if Target(c).None? then address == if c == Init || c == Stop then 1 else 0xffff
    else if done && (c.RmSetRoute? || c.GpioPortMode? || c.ProgramNode?) then address == 0xffff
    else address == Target(c).value
  }

  /** The oldest command has left, with a result if one is said. */
  predicate HasLeft(b: Books, t: Books, success: Option<bool>, done: bool)
    requires b.queue != []
  {
    && !t.inFlight && b.queue[1..] <= t.queue
    && if success.None? then t.results == b.results
       else
         && |t.results| == |b.results| + 1 && b.results <= t.results
         && var r := t.results[|b.results|];
            r.kind == KindOf(b.queue[0]) && r.success == success.value && AddressIs(b.queue[0], done, r.address)
  }

  /** A command that the stack accepts stays in the queue without a result, except that a script and the end of the
      programming leave at once and without one. A command that it refuses leaves with a failure, the end of the
      programming without a result. */
  lemma HandedOver(s: Abs, accepted: bool)
    requires Ready(s.b) && !s.b.inFlight && s.b.queue != []
    ensures var c, t := s.b.queue[0], Next(s, ServiceCall(accepted)).b;
      if accepted && !c.NsRun? && !c.ProgramExit? then t.inFlight && t.queue == s.b.queue && t.results == s.b.results
      else HasLeft(s.b, t, if accepted || c.ProgramExit? then None else Some(false), false)
  {
  }

  lemma PutsLeft(b: Books, t: Books, success: Option<bool>, done: bool, c: Cmd)
    requires b.queue != [] && HasLeft(b, t, success, done)
    ensures HasLeft(b, Puts(t, c), success, done)
  {
  }

  lemma DoneMode(s: Abs, mode: Mode)
    requires Ready(s.b) && s.b.inFlight && s.b.queue[0].SupvSetMode?
    ensures HasLeft(s.b, Next(s, ModeReady(mode)).b, Some(true), true)
  {
    var b := Executed(s.b, ModeKind, true);
    assert HasLeft(s.b, b, Some(true), true);
    if Switches(s.m, mode) {
      PutsLeft(s.b, b, Some(true), true, SupvSetMode(s.m.shall));
      assert Next(s, ModeReady(mode)).b == Puts(b, SupvSetMode(s.m.shall));
    } else {
      assert Next(s, ModeReady(mode)).b == b;
    }
  }

  lemma DoneInit(s: Abs, success: bool)
    requires Ready(s.b) && s.b.inFlight && s.b.queue[0] == Init
    ensures HasLeft(s.b, Next(s, Initialised(success)).b, Some(success), true)
  {
    var b := Executed(s.b, InitKind, success);
    assert HasLeft(s.b, b, Some(success), true);
    PutsLeft(s.b, b, Some(success), true, Init);
  }

  /** A command in flight leaves when the stack reports that it is done, with the success that is reported. */
  lemma DoneLeaves(s: Abs, e: Event, success: bool)
    requires Ready(s.b) && s.b.inFlight && Completes(e, s.b.queue[0], success)
    ensures HasLeft(s.b, Next(s, e).b, Some(success), true)
  {
    var c := s.b.queue[0];
    if e.ModeReady? {
      DoneMode(s, e.mode);
    } else if e.Initialised? {
      DoneInit(s, success);
    }
  }

  lemma StaysUnless(b: Books, kind: Kind, success: bool)
    requires Ready(b) && b.inFlight
    ensures KindOf(b.queue[0]) != kind ==> Executed(b, kind, success) == b
  {
  }

  lemma KindIs(c: Cmd)
    ensures (KindOf(c) == InitKind <==> c == Init) && (KindOf(c) == StopKind <==> c == Stop)
    ensures (KindOf(c) == ModeKind <==> c.SupvSetMode?) && (KindOf(c) == RouteKind <==> c.RmSetRoute?)
  {
  }

  lemma StaysRoute(b: Books, route: Option<nat>, infos: RouteInfos)
    requires Ready(b) && b.inFlight && (b.queue[0].RmSetRoute? ==> route != Some(b.queue[0].route))
    ensures Routed(b, route, infos) == b
  {
  }

  /** The command in flight stays so, and nothing reports. */
  predicate Stays(b: Books, t: Books) {
    b.inFlight && t.inFlight && b.queue <= t.queue && t.results == b.results
  }

  lemma PutsBehind(b: Books, t: Books, c: Cmd)
    requires Stays(b, t)
    ensures Stays(b, Puts(t, c))
  {
  }

  lemma StaysInit(s: Abs, success: bool)
    requires Ready(s.b) && s.b.inFlight && s.b.queue[0] != Init
    ensures Stays(s.b, Next(s, Initialised(success)).b)
  {
    KindIs(s.b.queue[0]);
    StaysUnless(s.b, InitKind, success);
    PutsBehind(s.b, s.b, Init);
  }

  lemma StaysMode(s: Abs, mode: Mode)
    requires Ready(s.b) && s.b.inFlight && !s.b.queue[0].SupvSetMode?
    ensures Stays(s.b, Next(s, ModeReady(mode)).b)
  {
    KindIs(s.b.queue[0]);
    StaysUnless(s.b, ModeKind, true);
    PutsBehind(s.b, s.b, SupvSetMode(s.m.shall));
  }

  lemma StaysReport(s: Abs, kind: Kind, success: bool)
    requires Ready(s.b) && s.b.inFlight && (s.b.queue[0].RmSetRoute? || kind != KindOf(s.b.queue[0]))
    ensures Stays(s.b, Next(s, Report(kind, success)).b)
  {
    KindIs(s.b.queue[0]);
    if kind != RouteKind {
      StaysUnless(s.b, kind, success);
    }
  }

  lemma StaysStop(s: Abs, success: bool)
    requires Ready(s.b) && s.b.inFlight && s.b.queue[0] != Stop
    ensures Stays(s.b, Next(s, Stopped(success)).b)
  {
    KindIs(s.b.queue[0]);
    StaysUnless(s.b, StopKind, success);
  }

  lemma StaysConfigure(s: Abs, nodes: nat)
    requires Ready(s.b) && s.b.inFlight
    ensures Stays(s.b, Next(s, Configure(nodes)).b)
  {
    PutsBehind(s.b, s.b, Stop);
    PutsBehind(s.b, if s.m.initialized then Puts(s.b, Stop) else s.b, Init);
  }

  /** No other event lets it go or adds a result, except that scripts report. */
  lemma OthersKeepIt(s: Abs, e: Event)
    requires Ready(s.b) && s.b.inFlight && !Completes(e, s.b.queue[0], true) && !Completes(e, s.b.queue[0], false)
    requires !e.ScriptDone?
    ensures Stays(s.b, Next(s, e).b)
  {
    match e
    case Report(kind, success) => StaysReport(s, kind, success);
    case Initialised(success) => StaysInit(s, success);
    case Stopped(success) => StaysStop(s, success);
    case ModeReady(mode) => StaysMode(s, mode);
    case RouteDone(route, infos) => StaysRoute(s.b, route, infos);
    case Configure(nodes) => StaysConfigure(s, nodes);
    case Enqueue(cmd) => PutsBehind(s.b, s.b, cmd);
    case Want(_) => PutsBehind(s.b, s.b, SupvSetMode(Inactive));
    case ServiceCall(_) =>
    case _ =>
  }

  lemma ScriptReports(s: Abs, success: bool, node: Address)
    ensures Next(s, ScriptDone(success, node)).b
         == s.b.(results := s.b.results + [Result(NsRunKind, success, node)])
  {
  }
}
