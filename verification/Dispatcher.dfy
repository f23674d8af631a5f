/** The command machine, which hands one command of the queue at a time to the network stack. */
module Dispatcher {
  // A command leaves the queue when the stack has refused it or has reported its result.

  import opened CStrings
  import opened RingBuffer

  type Address = int

  const CMD_QUEUE_LEN := 40
  const LOCAL_NODE_ADDR: Address := 1
  const UNKNOWN_NODE_ADDR: Address := 0xffff

  datatype Mode = Normal | Inactive | Fallback | Diagnosis | Programming

  /** Routes are identified by their place in the list of routes. */
  datatype Cmd =
    | Init | Stop
    | RmSetRoute(route: nat, isActive: bool, sink: Address)
    | NsRun(node: Address)
    | GpioCreatePort(destination: Address) | GpioWritePort(destination: Address) | GpioPortMode(destination: Address)
    | I2CWrite(destination: Address) | I2CRead(destination: Address)
    | SendAmsMessage(destination: Address) | PacketFilterMode(destination: Address)
    | ProgramNode(nodePos: Address) | ProgramExit
    | SupvSetMode(mode: Mode)

  datatype Kind =
    | InitKind | StopKind | RouteKind | NsRunKind | GpioCreateKind | GpioWriteKind | GpioModeKind
    | I2CWriteKind | I2CReadKind | AmsKind | FilterKind | ProgramKind | ExitKind | ModeKind

  function KindOf(c: Cmd): Kind {
    match c
    case Init => InitKind
    case Stop => StopKind
    case RmSetRoute(_, _, _) => RouteKind
    case NsRun(_) => NsRunKind
    case GpioCreatePort(_) => GpioCreateKind
    case GpioWritePort(_) => GpioWriteKind
    case GpioPortMode(_) => GpioModeKind
    case I2CWrite(_) => I2CWriteKind
    case I2CRead(_) => I2CReadKind
    case SendAmsMessage(_) => AmsKind
    case PacketFilterMode(_) => FilterKind
    case ProgramNode(_) => ProgramKind
    case ProgramExit => ExitKind
    case SupvSetMode(_) => ModeKind
  }

  datatype RouteInfos = Built | Destroyed | AtdUpdate | AtdError | OtherInfos

  /** A call of UCSI_CB_OnCommandResult. */
  datatype Result = Result(kind: Kind, success: bool, address: Address)

  /** The address reported when the stack refuses a command. */
  function RefusedAt(c: Cmd): Address {
    match c
    case Init => LOCAL_NODE_ADDR
    case Stop => LOCAL_NODE_ADDR
    case RmSetRoute(_, _, sink) => sink
    case NsRun(node) => node
    case GpioCreatePort(destination) => destination
    case GpioWritePort(destination) => destination
    case GpioPortMode(destination) => destination
    case I2CWrite(destination) => destination
    case I2CRead(destination) => destination
    case SendAmsMessage(destination) => destination
    case PacketFilterMode(destination) => destination
    case ProgramNode(nodePos) => nodePos
    case ProgramExit => UNKNOWN_NODE_ADDR
    case SupvSetMode(_) => UNKNOWN_NODE_ADDR
  }

  /** The address reported when a command has been executed. */
  function ExecutedAt(c: Cmd): Address {
    if c.RmSetRoute? || c.GpioPortMode? || c.ProgramNode? then UNKNOWN_NODE_ADDR else RefusedAt(c)
  }

  // ---- results of the commands that have left the queue ----

  /** All but these two report exactly one result when they leave. */
  predicate Reporting(k: Kind) {
    k != NsRunKind && k != ExitKind
  }

  /** The commands that report. */
  function Reporters(cmds: seq<Cmd>): seq<Cmd> {
    if cmds == [] then []
    else
      var front, c := Reporters(cmds[..|cmds| - 1]), cmds[|cmds| - 1];
      if Reporting(KindOf(c)) then front + [c] else front
  }

  /** The results other than those of NsRun, which come in at any time. */
  function Reported(results: seq<Result>): seq<Result> {
    if results == [] then []
    else
      var front, r := Reported(results[..|results| - 1]), results[|results| - 1];
      if r.kind != NsRunKind then front + [r] else front
  }

  lemma ReportersMore(cmds: seq<Cmd>, c: Cmd)
    ensures Reporters(cmds + [c]) == if Reporting(KindOf(c)) then Reporters(cmds) + [c] else Reporters(cmds)
  {
    assert (cmds + [c])[..|cmds|] == cmds;
  }

  lemma ReportedMore(results: seq<Result>, r: Result)
    ensures Reported(results + [r]) == if r.kind != NsRunKind then Reported(results) + [r] else Reported(results)
  {
    assert (results + [r])[..|results|] == results;
  }

  /** A result of this command: it was refused, or it has been executed, with or without success. */
  predicate ResultOf(c: Cmd, r: Result) {
    r.kind == KindOf(c) && (r.address == ExecutedAt(c) || (r.address == RefusedAt(c) && !r.success))
  }

  /** One result for each command, in order. */
  predicate Answered(cmds: seq<Cmd>, results: seq<Result>) {
    |results| == |cmds| && forall i | 0 <= i < |cmds| :: ResultOf(cmds[i], results[i])
  }

  lemma AnsweredMore(cmds: seq<Cmd>, results: seq<Result>, c: Cmd, r: Result)
    requires Answered(cmds, results) && ResultOf(c, r)
    ensures Answered(cmds + [c], results + [r])
  {
  }

  /** The commands that have left: those in front of the ones still queued. */
  function Left(queued: seq<Cmd>, enqueued: seq<Cmd>): seq<Cmd> {
    if |queued| <= |enqueued| then enqueued[..|enqueued| - |queued|] else []
  }

  /** The queue holds the commands that have not left, in order, and every reporting command that has left
      has reported once, in order. */
  predicate Accounted(queued: seq<Cmd>, enqueued: seq<Cmd>, results: seq<Result>) {
    && |queued| <= |enqueued| && enqueued == Left(queued, enqueued) + queued
    && Answered(Reporters(Left(queued, enqueued)), Reported(results))
  }

  lemma AccountPut(queued: seq<Cmd>, enqueued: seq<Cmd>, results: seq<Result>, c: Cmd)
    requires Accounted(queued, enqueued, results)
    ensures Accounted(queued + [c], enqueued + [c], results)
  {
    assert (enqueued + [c])[..|enqueued| - |queued|] == Left(queued, enqueued);
  }

  /** A command leaves with its result, if it has one. */
  predicate Leaves(c: Cmd, r: Option<Result>) {
    if Reporting(KindOf(c)) then r.Some? && ResultOf(c, r.value)
    else r.Some? ==> KindOf(c) == NsRunKind == r.value.kind
  }

  function With(results: seq<Result>, r: Option<Result>): seq<Result> {
    if r.Some? then results + [r.value] else results
  }

  lemma LeftMore(queued: seq<Cmd>, enqueued: seq<Cmd>)
    requires queued != [] && |queued| <= |enqueued| && enqueued == Left(queued, enqueued) + queued
    ensures Left(queued[1..], enqueued) == Left(queued, enqueued) + [queued[0]]
    ensures enqueued == Left(queued[1..], enqueued) + queued[1..]
  {
    var left := Left(queued, enqueued);
    assert left + [queued[0]] + queued[1..] == left + queued;
  }

  lemma AccountLeave(queued: seq<Cmd>, enqueued: seq<Cmd>, results: seq<Result>, r: Option<Result>)
    requires Accounted(queued, enqueued, results) && queued != [] && Leaves(queued[0], r)
    ensures Accounted(queued[1..], enqueued, With(results, r))
  {
    LeftMore(queued, enqueued);
    var left := Left(queued, enqueued);
    ReportersMore(left, queued[0]);
    if r.Some? {
      ReportedMore(results, r.value);
      if Reporting(KindOf(queued[0])) {
        AnsweredMore(Reporters(left), Reported(results), queued[0], r.value);
      }
    }
  }

  // ---- the machine on values ----

  /** The queue with the commands that were ever put into it and the results that were ever reported;
      inFlight says that the oldest command of the queue has been handed to the stack. */
  datatype Books = Books(queue: seq<Cmd>, inFlight: bool, pending: Option<nat>,
                         enqueued: seq<Cmd>, results: seq<Result>)

  datatype Modes = Modes(initialized: bool, shall: Mode, onlyInInactive: bool, triggerNodeCount: nat)

  datatype Abs = Abs(b: Books, m: Modes)

  const START := Abs(Books([], false, None, [], []), Modes(false, Normal, false, 0))

  datatype Event =
    | Enqueue(cmd: Cmd) | Want(mode: Mode) | Configure(nodes: nat)
    | ServiceCall(accepted: bool) | Report(kind: Kind, success: bool)
    | Initialised(success: bool) | Stopped(success: bool) | ScriptDone(success: bool, node: Address)
    | ModeReady(mode: Mode) | RouteDone(route: Option<nat>, infos: RouteInfos) | HdxReport

  function Puts(b: Books, c: Cmd): Books {
    if |b.queue| < CMD_QUEUE_LEN then b.(queue := b.queue + [c], enqueued := b.enqueued + [c]) else b
  }

  /** The oldest command leaves the queue, with its result if it has one. */
  function Drops(b: Books, r: Option<Result>): Books
    requires b.queue != []
  {
    b.(queue := b.queue[1..], inFlight := false, results := With(b.results, r))
  }

  /** Whether c is handed to the stack and stays in the queue until its result comes in. */
  predicate Waits(c: Cmd, accepted: bool) {
    accepted && Reporting(KindOf(c))
  }

  /** What is reported when a command leaves right after it was handed to the stack. */
  function AtOnce(c: Cmd, accepted: bool): Option<Result> {
    if accepted || c.ProgramExit? then None else Some(Result(KindOf(c), false, RefusedAt(c)))
  }

  /** UCSI_Service, when the stack accepts or refuses what it is handed. */
  function Served(b: Books, accepted: bool): Books {
    if b.inFlight || b.queue == [] then b
    else
      var c := b.queue[0];
      if !Waits(c, accepted) then Drops(b, AtOnce(c, accepted))
      else b.(inFlight := true, pending := if c.RmSetRoute? then Some(c.route) else b.pending)
  }

  /** OnCommandExecuted: only the command in flight can be meant, and only if it is of the reported kind. */
  function Executed(b: Books, kind: Kind, success: bool): Books {
    if b.inFlight && b.queue != [] && KindOf(b.queue[0]) == kind then
      Drops(b, Some(Result(kind, success, ExecutedAt(b.queue[0]))))
    else b
  }

  /** OnUnicensRoutingResult. */
  function Routed(b: Books, route: Option<nat>, infos: RouteInfos): Books {
    if route.Some? && route == b.pending && b.queue != [] && b.queue[0].RmSetRoute? then
      Executed(b, RouteKind, infos == if b.queue[0].isActive then Built else Destroyed).(pending := None)
    else b
  }

  function Noted(b: Books, r: Result): Books {
    b.(results := b.results + [r])
  }

  function Wanted(s: Abs, mode: Mode): Abs {
    if |s.b.queue| < CMD_QUEUE_LEN then Abs(Puts(s.b, SupvSetMode(Inactive)), s.m.(shall := mode)) else s
  }

  /** The number of nodes to be programmed decides on the mode that is wanted. */
  function Counted(m: Modes, nodes: nat): Modes {
    var count := if nodes >= 1 then nodes - 1 else m.triggerNodeCount;
    m.(triggerNodeCount := count, shall := if count == 0 then Normal else Programming)
  }

  /** UCSI_NewConfig: a running stack is stopped first. When there is room for one command only, the stop
      command is queued and the modes are set, although the call fails. */
  function Configured(s: Abs, nodes: nat): Abs {
    if s.m.initialized && |s.b.queue| >= CMD_QUEUE_LEN then s
    else Abs(Puts(if s.m.initialized then Puts(s.b, Stop) else s.b, Init), Counted(s.m, nodes))
  }

  /** A failed initialisation is tried again. */
  function InitDone(s: Abs, success: bool): Abs {
    var b := Executed(s.b, InitKind, success);
    Abs(if success then b else Puts(b, Init), s.m.(initialized := success))
  }

  /** Whether the wanted mode is another one and may be entered now. */
  predicate Switches(m: Modes, mode: Mode) {
    (!m.onlyInInactive || mode == Inactive) && m.shall != mode
  }

  function Switched(b: Books, m: Modes, mode: Mode): Abs {
    if Switches(m, mode) then Abs(Puts(b, SupvSetMode(m.shall)), m.(onlyInInactive := false)) else Abs(b, m)
  }

  function ModeReached(s: Abs, mode: Mode): Abs {
    Switched(Executed(s.b, ModeKind, true), s.m, mode)
  }

  /** One step of the application or of the stack. Route reports come in as RouteDone only, and a report
      without a route only while a command is in flight. */
  function Next(s: Abs, e: Event): Abs {
    match e
    case Enqueue(cmd) => s.(b := Puts(s.b, cmd))
    case Want(mode) => Wanted(s, mode)
    case Configure(nodes) => Configured(s, nodes)
    case ServiceCall(accepted) => s.(b := Served(s.b, accepted))
    case Report(kind, success) => if kind == RouteKind then s else s.(b := Executed(s.b, kind, success))
    case Initialised(success) => InitDone(s, success)
    case Stopped(success) => Abs(Executed(s.b, StopKind, success), s.m.(initialized := false))
    case ScriptDone(success, node) => s.(b := Noted(s.b, Result(NsRunKind, success, node)))
    case ModeReady(mode) => ModeReached(s, mode)
    case RouteDone(route, infos) => s.(b := Routed(s.b, route, infos))
    case HdxReport => s.(m := s.m.(onlyInInactive := true, shall := Normal))
  }

  // ---- what every step keeps ----

  /** The route that the command in flight asks for. */
  function PendingOf(queue: seq<Cmd>, inFlight: bool): Option<nat> {
    if inFlight && queue != [] && queue[0].RmSetRoute? then Some(queue[0].route) else None
  }

  /** The command in flight is the oldest one and will report, a pending route is the one that it asks for,
      and all commands and results are accounted for. */
  predicate Kept(b: Books) {
    && (b.inFlight ==> b.queue != [] && Reporting(KindOf(b.queue[0])))
    && b.pending == PendingOf(b.queue, b.inFlight)
    && |b.queue| <= CMD_QUEUE_LEN && Accounted(b.queue, b.enqueued, b.results)
  }

  lemma PutsKept(b: Books, c: Cmd)
    requires Kept(b)
    ensures Kept(Puts(b, c))
  {
    AccountPut(b.queue, b.enqueued, b.results, c);
  }

  lemma DropsKept(b: Books, r: Option<Result>)
    requires Kept(b) && b.queue != [] && Leaves(b.queue[0], r)
    ensures Kept(Drops(b, r).(pending := None))
  {
    AccountLeave(b.queue, b.enqueued, b.results, r);
  }

  lemma ServedKept(b: Books, accepted: bool)
    requires Kept(b)
    ensures Kept(Served(b, accepted))
  {
    if !b.inFlight && b.queue != [] && !Waits(b.queue[0], accepted) {
      DropsKept(b, AtOnce(b.queue[0], accepted));
    }
  }

  lemma ExecutedKept(b: Books, kind: Kind, success: bool)
    requires Kept(b)
    ensures Kept(Executed(b, kind, success).(pending := None)) || Executed(b, kind, success) == b
    ensures kind != RouteKind ==> Kept(Executed(b, kind, success))
  {
    if b.inFlight && KindOf(b.queue[0]) == kind {
      DropsKept(b, Some(Result(kind, success, ExecutedAt(b.queue[0]))));
    }
  }

  lemma RoutedKept(b: Books, route: Option<nat>, infos: RouteInfos)
    requires Kept(b)
    ensures Kept(Routed(b, route, infos))
  {
    if route.Some? && route == b.pending {
      ExecutedKept(b, RouteKind, infos == if b.queue[0].isActive then Built else Destroyed);
    }
  }

  lemma NotedKept(b: Books, r: Result)
    requires Kept(b) && r.kind == NsRunKind
    ensures Kept(Noted(b, r))
  {
    ReportedMore(b.results, r);
  }

  lemma ConfiguredKept(s: Abs, nodes: nat)
    requires Kept(s.b)
    ensures Kept(Configured(s, nodes).b)
  {
    PutsKept(s.b, Stop);
    PutsKept(if s.m.initialized then Puts(s.b, Stop) else s.b, Init);
  }

  lemma InitDoneKept(s: Abs, success: bool)
    requires Kept(s.b)
    ensures Kept(InitDone(s, success).b)
  {
    ExecutedKept(s.b, InitKind, success);
    PutsKept(Executed(s.b, InitKind, success), Init);
  }

  lemma SwitchedKept(b: Books, m: Modes, mode: Mode)
    requires Kept(b)
    ensures Kept(Switched(b, m, mode).b)
  {
    PutsKept(b, SupvSetMode(m.shall));
  }

  lemma ModeReachedKept(s: Abs, mode: Mode)
    requires Kept(s.b)
    ensures Kept(ModeReached(s, mode).b)
  {
    ExecutedKept(s.b, ModeKind, true);
    SwitchedKept(Executed(s.b, ModeKind, true), s.m, mode);
  }

  lemma NextKept(s: Abs, e: Event)
    requires Kept(s.b)
    ensures Kept(Next(s, e).b)
  {
    match e
    case Enqueue(cmd) => PutsKept(s.b, cmd);
    case Want(mode) => PutsKept(s.b, SupvSetMode(Inactive));
    case Configure(nodes) => ConfiguredKept(s, nodes);
    case ServiceCall(accepted) => ServedKept(s.b, accepted);
    case Report(kind, success) => ExecutedKept(s.b, kind, success);
    case Initialised(success) => InitDoneKept(s, success);
    case Stopped(success) => ExecutedKept(s.b, StopKind, success);
    case ScriptDone(success, node) => NotedKept(s.b, Result(NsRunKind, success, node));
    case ModeReady(mode) => ModeReachedKept(s, mode);
    case RouteDone(route, infos) => RoutedKept(s.b, route, infos);
    case HdxReport =>
  }

  /** The result of the oldest command when the stack reports that it has been executed. */
  function Outcome(b: Books, success: bool): Option<Result> {
    if b.queue == [] then None else Some(Result(KindOf(b.queue[0]), success, ExecutedAt(b.queue[0])))
  }

  /** The route has come into the state that the oldest command asks for. */
  predicate Wished(b: Books, infos: RouteInfos) {
    b.queue != [] && b.queue[0].RmSetRoute? && infos == if b.queue[0].isActive then Built else Destroyed
  }

  /** The result that a step has for the oldest command, should that leave: the flag is the one of the report. */
  function Answer(b: Books, e: Event): Option<Result> {
    match e
    case ServiceCall(accepted) => if b.queue == [] then None else AtOnce(b.queue[0], accepted)
    case Report(_, success) => Outcome(b, success)
    case Initialised(success) => Outcome(b, success)
    case Stopped(success) => Outcome(b, success)
    case ModeReady(_) => Outcome(b, true)
    case RouteDone(_, infos) => Outcome(b, Wished(b, infos))
    case _ => None
  }

  /** From b to c commands may come in behind, and at most the oldest one leaves: with the result a, if any, and
      none is in flight then. Otherwise a command in flight stays so, and nothing but scripts reports. */
  predicate Moves(b: Books, c: Books, a: Option<Result>) {
    && b.enqueued <= c.enqueued && b.results <= c.results
    && if Left(c.queue, c.enqueued) == Left(b.queue, b.enqueued) then
         b.queue <= c.queue && (b.inFlight ==> c.inFlight) && Reported(c.results) == Reported(b.results)
       else
         && b.queue != [] && !c.inFlight && b.queue[1..] <= c.queue
         && Left(c.queue, c.enqueued) == Left(b.queue, b.enqueued) + [b.queue[0]]
         && Leaves(b.queue[0], a) && c.results == With(b.results, a)
  }

  lemma PutsMoves(b: Books, c: Books, a: Option<Result>, cmd: Cmd)
    requires Kept(c) && Moves(b, c, a)
    ensures Moves(b, Puts(c, cmd), a)
  {
    var d := Puts(c, cmd);
    assert Left(d.queue, d.enqueued) == Left(c.queue, c.enqueued);
  }

  lemma DropsMoves(b: Books, a: Option<Result>)
    requires Kept(b) && b.queue != [] && Leaves(b.queue[0], a)
    ensures Moves(b, Drops(b, a).(pending := None), a)
  {
    var c := Drops(b, a);
    assert Left(c.queue, c.enqueued) == Left(b.queue, b.enqueued) + [b.queue[0]];
  }

  lemma HandedMoves(b: Books, pending: Option<nat>, a: Option<Result>)
    ensures Moves(b, b.(inFlight := true, pending := pending), a)
  {
  }

  lemma QuietMoves(b: Books, a: Option<Result>)
    ensures Moves(b, b, a)
  {
  }

  lemma ServedMoves(b: Books, accepted: bool)
    requires Kept(b)
    ensures Moves(b, Served(b, accepted), Answer(b, ServiceCall(accepted)))
  {
    if b.inFlight || b.queue == [] {
      QuietMoves(b, Answer(b, ServiceCall(accepted)));
    } else if Waits(b.queue[0], accepted) {
      HandedMoves(b, Served(b, accepted).pending, Answer(b, ServiceCall(accepted)));
    } else {
      DropsMoves(b, AtOnce(b.queue[0], accepted));
    }
  }

  lemma ExecutedMoves(b: Books, kind: Kind, success: bool)
    requires Kept(b)
    ensures Moves(b, Executed(b, kind, success), Outcome(b, success))
  {
    if b.inFlight && KindOf(b.queue[0]) == kind {
      DropsMoves(b, Some(Result(kind, success, ExecutedAt(b.queue[0]))));
    }
  }

  lemma NotedMoves(b: Books, r: Result, a: Option<Result>)
    requires Kept(b) && r.kind == NsRunKind
    ensures Moves(b, Noted(b, r), a)
  {
    ReportedMore(b.results, r);
  }

  lemma PutMoves(b: Books, cmd: Cmd, a: Option<Result>)
    requires Kept(b)
    ensures Moves(b, Puts(b, cmd), a)
  {
    PutsMoves(b, b, a, cmd);
  }

  lemma ConfiguredMoves(s: Abs, nodes: nat, a: Option<Result>)
    requires Kept(s.b)
    ensures Moves(s.b, Configured(s, nodes).b, a)
  {
    PutMoves(s.b, Stop, a);
    PutsKept(s.b, Stop);
    PutsMoves(s.b, if s.m.initialized then Puts(s.b, Stop) else s.b, a, Init);
  }

  lemma InitDoneMoves(s: Abs, success: bool)
    requires Kept(s.b)
    ensures Moves(s.b, InitDone(s, success).b, Outcome(s.b, success))
  {
    ExecutedKept(s.b, InitKind, success);
    ExecutedMoves(s.b, InitKind, success);
    PutsMoves(s.b, Executed(s.b, InitKind, success), Outcome(s.b, success), Init);
  }

  lemma SwitchedMoves(b: Books, c: Books, a: Option<Result>, m: Modes, mode: Mode)
    requires Kept(c) && Moves(b, c, a)
    ensures Moves(b, Switched(c, m, mode).b, a)
  {
    PutsMoves(b, c, a, SupvSetMode(m.shall));
  }

  lemma ModeReachedMoves(s: Abs, mode: Mode)
    requires Kept(s.b)
    ensures Moves(s.b, ModeReached(s, mode).b, Outcome(s.b, true))
  {
    ExecutedKept(s.b, ModeKind, true);
    ExecutedMoves(s.b, ModeKind, true);
    SwitchedMoves(s.b, Executed(s.b, ModeKind, true), Outcome(s.b, true), s.m, mode);
  }

  lemma RoutedMoves(b: Books, route: Option<nat>, infos: RouteInfos)
    requires Kept(b)
    ensures Moves(b, Routed(b, route, infos), Outcome(b, Wished(b, infos)))
  {
    if route.Some? && route == b.pending {
      ExecutedMoves(b, RouteKind, Wished(b, infos));
    }
  }

  lemma EnqueueMoves(s: Abs, cmd: Cmd, a: Option<Result>)
    requires Kept(s.b)
    ensures Moves(s.b, Next(s, Enqueue(cmd)).b, a)
  {
    assert Next(s, Enqueue(cmd)).b == Puts(s.b, cmd);
    PutMoves(s.b, cmd, a);
  }

  lemma WantMoves(s: Abs, mode: Mode, a: Option<Result>)
    requires Kept(s.b)
    ensures Moves(s.b, Next(s, Want(mode)).b, a)
  {
    assert Next(s, Want(mode)).b == Puts(s.b, SupvSetMode(Inactive));
    PutMoves(s.b, SupvSetMode(Inactive), a);
  }

  lemma ReportMoves(s: Abs, kind: Kind, success: bool)
    requires Kept(s.b)
    ensures Moves(s.b, Next(s, Report(kind, success)).b, Outcome(s.b, success))
  {
    ExecutedMoves(s.b, kind, success);
  }

  lemma StoppedMoves(s: Abs, success: bool)
    requires Kept(s.b)
    ensures Moves(s.b, Next(s, Stopped(success)).b, Outcome(s.b, success))
  {
    ExecutedMoves(s.b, StopKind, success);
  }

  lemma ScriptMoves(s: Abs, success: bool, node: Address, a: Option<Result>)
    requires Kept(s.b)
    ensures Moves(s.b, Next(s, ScriptDone(success, node)).b, a)
  {
    var r, c := Result(NsRunKind, success, node), Next(s, ScriptDone(success, node)).b;
    assert c == Noted(s.b, r);
    NotedMoves(s.b, r, a);
  }

  /** Every step is such a move, with the answer that it gives. */
  lemma NextMoves(s: Abs, e: Event)
    requires Kept(s.b)
    ensures Moves(s.b, Next(s, e).b, Answer(s.b, e))
  {
    match e
    case ServiceCall(accepted) => ServedMoves(s.b, accepted);
    case ModeReady(mode) => ModeReachedMoves(s, mode);
    case RouteDone(route, infos) => RoutedMoves(s.b, route, infos);
    case Enqueue(cmd) => EnqueueMoves(s, cmd, None);
    case Want(mode) => WantMoves(s, mode, None);
    case Configure(nodes) => ConfiguredMoves(s, nodes, None);
    case HdxReport => QuietMoves(s.b, None);
    case Report(kind, success) => ReportMoves(s, kind, success);
    case Initialised(success) => InitDoneMoves(s, success);
    case Stopped(success) => StoppedMoves(s, success);
    case ScriptDone(success, node) => ScriptMoves(s, success, node, None);
  }

  /** A command that stays in flight is still the oldest one. */
  lemma HeadStays(s: Abs, e: Event)
    requires s.b.inFlight ==> s.b.queue != []
    ensures var t := Next(s, e); s.b.inFlight && t.b.inFlight ==> t.b.queue != [] && t.b.queue[0] == s.b.queue[0]
  {
  }

  // ---- whole runs ----

  /** The states of a run from the start, one more than there are steps. */
  predicate IsRun(states: seq<Abs>, events: seq<Event>) {
    && |states| == |events| + 1 && states[0] == START
    && forall i | 0 <= i < |events| :: states[i + 1] == Next(states[i], events[i])
  }

  /** In every state of every run the commands have left in the order in which they were enqueued, each one that
      reports has reported exactly once by then, in that order, and the command in flight is the oldest one. */
  lemma {:induction false} RunKept(states: seq<Abs>, events: seq<Event>, i: nat)
    requires IsRun(states, events) && i < |states|
    ensures Kept(states[i].b)
  {
    if i > 0 {
      RunKept(states, events, i - 1);
      assert states[i - 1 + 1] == Next(states[i - 1], events[i - 1]);
      NextKept(states[i - 1], events[i - 1]);
    }
  }

  /** What has been enqueued, reported or has left stays so, and a command in flight stays in flight until it
      leaves: in between it is the oldest one, and nothing but scripts reports. */
  predicate Onward(b: Books, c: Books) {
    && b.enqueued <= c.enqueued && b.results <= c.results && Left(b.queue, b.enqueued) <= Left(c.queue, c.enqueued)
    && (b.inFlight && Left(b.queue, b.enqueued) == Left(c.queue, c.enqueued) ==>
          && c.inFlight && b.queue != [] && b.queue <= c.queue && Reported(c.results) == Reported(b.results))
  }

  lemma OnwardMore(b: Books, c: Books, d: Books, a: Option<Result>)
    requires Onward(b, c) && Moves(c, d, a)
    ensures Onward(b, d)
  {
  }

  lemma OnwardSelf(b: Books)
    requires Kept(b)
    ensures Onward(b, b)
  {
  }

  lemma RunMoves(states: seq<Abs>, events: seq<Event>, k: nat) returns (a: Option<Result>)
    requires IsRun(states, events) && 0 < k < |states|
    ensures Moves(states[k - 1].b, states[k].b, a)
  {
    RunKept(states, events, k - 1);
    assert states[k - 1 + 1] == Next(states[k - 1], events[k - 1]);
    NextMoves(states[k - 1], events[k - 1]);
    a := Answer(states[k - 1].b, events[k - 1]);
  }

  lemma {:induction false} RunOnward(states: seq<Abs>, events: seq<Event>, i: nat, j: nat)
    requires IsRun(states, events) && i <= j < |states|
    ensures Onward(states[i].b, states[j].b)
    decreases j - i
  {
    if i < j {
      RunOnward(states, events, i, j - 1);
      var a := RunMoves(states, events, j);
      OnwardMore(states[i].b, states[j - 1].b, states[j].b, a);
    } else {
      RunKept(states, events, i);
      OnwardSelf(states[i].b);
    }
  }

  lemma RunMore(states: seq<Abs>, events: seq<Event>, e: Event)
    requires IsRun(states, events)
    ensures IsRun(states + [Next(states[|events|], e)], events + [e])
  {
  }

  class Ucsi {
    const rb: Ring<Cmd>
    var currentCmd: Option<nat>
    var pendingRoute: Option<nat>
    var initialized: bool
    var supvShallMode: Mode
    var switchOnlyInInactive: bool
    var triggerNodeCount: nat
    /** All commands that were put into the queue, and all results that were reported. */
    ghost var enqueued: seq<Cmd>
    ghost var results: seq<Result>

    ghost function Now(): Books
      reads this`currentCmd, this`pendingRoute, this`enqueued, this`results, rb`contents
    {
      Books(rb.contents, currentCmd.Some?, pendingRoute, enqueued, results)
    }

    ghost function View(): Abs
      reads this, rb`contents
    {
      Abs(Now(), Modes(initialized, supvShallMode, switchOnlyInInactive, triggerNodeCount))
    }

    /** The pointer to the command in flight aliases the oldest slot of the ring. */
    ghost predicate Valid()
      reads this`currentCmd, rb, rb.dataQueue
    {
      && rb.Valid() && rb.dataQueue.Length == CMD_QUEUE_LEN
      && (currentCmd.Some? ==>
            rb.contents != [] && currentCmd.value == rb.pRx && rb.dataQueue[rb.pRx] == rb.contents[0])
    }

    /** UCSI_Init. */
    constructor ()
      ensures Valid() && fresh(rb) && fresh(rb.dataQueue) && View() == START
    {
      rb := new Ring<Cmd>(CMD_QUEUE_LEN, Init);
      currentCmd, pendingRoute := None, None;
      initialized, supvShallMode, switchOnlyInInactive, triggerNodeCount := false, Normal, false, 0;
      enqueued, results := [], [];
    }

    method Store(slot: nat, cmd: Cmd)
      requires rb.Valid() && slot == rb.pTx && |rb.contents| < rb.dataQueue.Length
      modifies rb, rb.dataQueue
      ensures rb.Valid() && rb.contents == old(rb.contents) + [cmd] && rb.pRx == old(rb.pRx)
      ensures old(rb.contents) != [] ==> rb.dataQueue[rb.pRx] == old(rb.dataQueue[rb.pRx])
    {
      rb.Write(slot, cmd);
      rb.PopWritePtr();
    }

    /** EnqueueCommand: the command goes to the end of the queue unless that is full. The slot of the command
        in flight is not touched. */
    method EnqueueCommand(cmd: Cmd) returns (ok: bool)
      requires Valid()
      modifies this`enqueued, rb, rb.dataQueue
      ensures Valid() && Now() == Puts(old(Now()), cmd) && ok == (|old(rb.contents)| < CMD_QUEUE_LEN)
      ensures currentCmd.Some? ==> rb.dataQueue[currentCmd.value] == old(rb.dataQueue[currentCmd.value])
    {
      var e := rb.GetWritePtr();
      if e.None? {
        return false;
      }
      Store(e.value, cmd);
      enqueued := enqueued + [cmd];
      ok := true;
    }

    /** The oldest command leaves the queue, with its result if it has one. */
    method Leave(ghost r: Option<Result>)
      requires Valid() && rb.contents != []
      modifies this`currentCmd, this`results, rb`pRx, rb`rxPos, rb`contents
      ensures Valid() && Now() == Drops(old(Now()), r)
    {
      results := With(results, r);
      currentCmd := None;
      rb.PopReadPtr();
    }

    /** UCSI_Service: if no command is in flight the oldest one is handed to the stack, which accepts or
        refuses it. */
    method Service(accepted: bool)
      requires Valid()
      modifies this`currentCmd, this`pendingRoute, this`results, rb`pRx, rb`rxPos, rb`contents
      ensures Valid() && Now() == Served(old(Now()), accepted)
      ensures old(currentCmd).Some? && currentCmd.Some? ==> currentCmd == old(currentCmd)
    {
      if currentCmd.Some? {
        return;
      }
      var e := rb.GetReadPtr();
      if e.None? {
        return;
      }
      var c := rb.dataQueue[e.value];
      if Waits(c, accepted) {
        currentCmd := e;
        if c.RmSetRoute? {
          pendingRoute := Some(c.route);
        }
      } else {
        Leave(AtOnce(c, accepted));
      }
    }

    /** OnCommandExecuted: the command in flight leaves with its result, if it is of the reported kind. */
    method OnCommandExecuted(kind: Kind, success: bool)
      requires Valid()
      modifies this`currentCmd, this`results, rb`pRx, rb`rxPos, rb`contents
      ensures Valid() && Now() == Executed(old(Now()), kind, success)
      ensures old(currentCmd).Some? && currentCmd.Some? ==> currentCmd == old(currentCmd)
    {
      if currentCmd.None? {
        return;
      }
      var e := rb.dataQueue[currentCmd.value];
      if KindOf(e) != kind {
        return;
      }
      Leave(Some(Result(kind, success, ExecutedAt(e))));
    }

    /** OnUcsNsRun: the result of a script, whose command has long left. */
    method OnNsRun(success: bool, node: Address)
      requires Valid()
      modifies this`results
      ensures Valid() && Now() == Noted(old(Now()), Result(NsRunKind, success, node))
    {
      ghost var r := Result(NsRunKind, success, node);
      results := results + [r];
    }

    /** OnUnicensRoutingResult: for the pending route the command in flight leaves, successful if the route
        has come into the wanted state. The stack reports no route at all only while a command is in
        flight: otherwise a null pointer is read. */
    method OnRoutingResult(route: Option<nat>, infos: RouteInfos)
      requires Valid() && pendingRoute == PendingOf(rb.contents, currentCmd.Some?) && (route.Some? || currentCmd.Some?)
      modifies this`currentCmd, this`pendingRoute, this`results, rb`pRx, rb`rxPos, rb`contents
      ensures Valid() && Now() == Routed(old(Now()), route, infos)
      ensures old(currentCmd).Some? && currentCmd.Some? ==> currentCmd == old(currentCmd)
    {
      if route == pendingRoute {
        if route.Some? {
          OnCommandExecuted(RouteKind, infos == if rb.dataQueue[currentCmd.value].isActive then Built else Destroyed);
        } else {
          OnCommandExecuted(RouteKind, false);
        }
        pendingRoute := None;
      }
    }

    /** UCSI_RunCableDiagnosis, UCSI_RunFallbackMode and UCSI_ShutdownNetwork: the wanted mode is stored
        only when there is room, and is reached through the inactive mode. */
    method WantMode(mode: Mode) returns (ok: bool)
      requires Valid()
      modifies this`enqueued, this`supvShallMode, rb, rb.dataQueue
      ensures Valid() && View() == Wanted(old(View()), mode) && ok == (|old(rb.contents)| < CMD_QUEUE_LEN)
    {
      var e := rb.GetWritePtr();
      if e.None? {
        return false;
      }
      supvShallMode := mode;
      ok := EnqueueCommand(SupvSetMode(Inactive));
    }

    method StopIfRunning() returns (ok: bool)
      requires Valid()
      modifies this`enqueued, rb, rb.dataQueue
      ensures Valid() && Now() == if initialized then Puts(old(Now()), Stop) else old(Now())
      ensures ok == (initialized ==> |old(rb.contents)| < CMD_QUEUE_LEN)
    {
      ok := true;
      if initialized {
        ok := EnqueueCommand(Stop);
      }
    }

    method SetAmountOfNodes(programAmountOfNodes: nat)
      modifies this`supvShallMode, this`triggerNodeCount
      ensures View().m == Counted(old(View()).m, programAmountOfNodes)
    {
      if programAmountOfNodes >= 1 {
        triggerNodeCount := programAmountOfNodes - 1;
      }
      supvShallMode := if triggerNodeCount == 0 then Normal else Programming;
    }

    /** UCSI_NewConfig: a running stack is stopped before it is initialised again. When there is room for
        one command only, the stop command is in the queue although the call fails. */
    method NewConfig(programAmountOfNodes: nat) returns (ok: bool)
      requires Valid()
      modifies this`enqueued, this`supvShallMode, this`triggerNodeCount, rb, rb.dataQueue
      ensures Valid() && View() == Configured(old(View()), programAmountOfNodes)
      ensures ok == (|old(rb.contents)| + (if initialized then 1 else 0) < CMD_QUEUE_LEN)
    {
      ok := StopIfRunning();
      if !ok {
        return;
      }
      SetAmountOfNodes(programAmountOfNodes);
      ok := EnqueueCommand(Init);
    }

    /** OnUcsInitResult: a failed initialisation is tried again. */
    method OnInitResult(success: bool)
      requires Valid()
      modifies this`initialized, this`currentCmd, this`results, this`enqueued, rb, rb.dataQueue
      ensures Valid() && View() == InitDone(old(View()), success)
      ensures old(currentCmd).Some? && currentCmd.Some? ==> currentCmd == old(currentCmd)
    {
      initialized := success;
      OnCommandExecuted(InitKind, success);
      if !success {
        var _ := EnqueueCommand(Init);
      }
    }

    /** OnUcsStopResult. */
    method OnStopResult(success: bool)
      requires Valid()
      modifies this`currentCmd, this`results, this`initialized, rb`pRx, rb`rxPos, rb`contents
      ensures Valid() && View() == Next(old(View()), Stopped(success))
      ensures old(currentCmd).Some? && currentCmd.Some? ==> currentCmd == old(currentCmd)
    {
      initialized := false;
      OnCommandExecuted(StopKind, success);
    }

    method FinishMode()
      requires Valid()
      modifies this`currentCmd, this`results, rb`pRx, rb`rxPos, rb`contents
      ensures Valid() && Now() == Executed(old(Now()), ModeKind, true)
      ensures old(currentCmd).Some? && currentCmd.Some? ==> currentCmd == old(currentCmd)
    {
      if currentCmd.Some? && rb.dataQueue[currentCmd.value].SupvSetMode? {
        OnCommandExecuted(ModeKind, true);
      }
    }

    /** OnSupvModeReport for a mode that is ready: a mode command in flight is done, and the wanted mode is
        set if it is another one and may be entered now. */
    method OnModeReady(mode: Mode)
      requires Valid()
      modifies this`switchOnlyInInactive, this`currentCmd, this`results, this`enqueued, rb, rb.dataQueue
      ensures Valid() && View() == ModeReached(old(View()), mode)
      ensures old(currentCmd).Some? && currentCmd.Some? ==> currentCmd == old(currentCmd)
    {
      FinishMode();
      var check := !switchOnlyInInactive || mode == Inactive;
      if check && supvShallMode != mode {
        switchOnlyInInactive := false;
        var _ := EnqueueCommand(SupvSetMode(supvShallMode));
      }
    }

    /** The end of a cable diagnosis. */
    method OnHdxReport()
      modifies this`switchOnlyInInactive, this`supvShallMode
      ensures View() == Next(old(View()), HdxReport)
    {
      switchOnlyInInactive := true;
      supvShallMode := Normal;
    }

    /** UCSI_SetRouteActive: the first route with the identifier. */
    method SetRouteActive(routeIds: seq<int>, sinks: seq<Address>, routeId: int, isActive: bool) returns (ok: bool)
      requires Valid() && |sinks| == |routeIds|
      modifies this`enqueued, rb, rb.dataQueue
      ensures Valid() && (ok <==> routeId in routeIds && |old(rb.contents)| < CMD_QUEUE_LEN)
      ensures if routeId !in routeIds then Now() == old(Now())
              else exists i ::
                && 0 <= i < |routeIds| && routeIds[i] == routeId && routeId !in routeIds[..i]
                && Now() == Puts(old(Now()), RmSetRoute(i, isActive, sinks[i]))
    {
      var i := 0;
      while i < |routeIds|
        invariant 0 <= i <= |routeIds| && routeId !in routeIds[..i]
        modifies {}
      {
        if routeIds[i] == routeId {
          break;
        }
        i := i + 1;
      }
      if i == |routeIds| {
        return false;
      }
      ok := EnqueueCommand(RmSetRoute(i, isActive, sinks[i]));
    }

    /** One step of the application or of the stack. The slot of a command that stays in flight keeps what it
        holds. */
    method Play(e: Event)
      requires Valid() && pendingRoute == PendingOf(rb.contents, currentCmd.Some?)
      modifies this, rb, rb.dataQueue
      ensures Valid() && View() == Next(old(View()), e)
      ensures old(currentCmd).Some? && currentCmd.Some? ==>
        currentCmd == old(currentCmd) && rb.dataQueue[currentCmd.value] == old(rb.dataQueue[currentCmd.value])
    {
      HeadStays(View(), e);
      match e
      case Enqueue(cmd) => var _ := EnqueueCommand(cmd);
      case Want(mode) => var _ := WantMode(mode);
      case Configure(nodes) => var _ := NewConfig(nodes);
      case ServiceCall(accepted) => Service(accepted);
      case Report(kind, success) => if kind != RouteKind { OnCommandExecuted(kind, success); }
      case Initialised(success) => OnInitResult(success);
      case Stopped(success) => OnStopResult(success);
      case ScriptDone(success, node) => OnNsRun(success, node);
      case ModeReady(mode) => OnModeReady(mode);
      case RouteDone(route, infos) => if route.Some? || currentCmd.Some? { OnRoutingResult(route, infos); }
      case HdxReport => OnHdxReport();
    }
  }

  /** Every run of the machine goes through the states that its events say. */
  method Run(events: seq<Event>) returns (u: Ucsi, ghost states: seq<Abs>)
    ensures fresh(u) && u.Valid() && IsRun(states, events) && u.View() == states[|events|]
  {
    u := new Ucsi();
    states := [u.View()];
    for i := 0 to |events|
      invariant fresh(u) && fresh(u.rb) && fresh(u.rb.dataQueue) && u.Valid()
      invariant IsRun(states, events[..i]) && u.View() == states[i]
    {
      RunKept(states, events[..i], i);
      RunMore(states, events[..i], events[i]);
      u.Play(events[i]);
      states := states + [u.View()];
      assert events[..i + 1] == events[..i] + [events[i]];
    }
    assert events[..|events|] == events;
  }
}
