/** The reader thread, the timer threads and the main loop of the daemon, step by step. */
module Threads {
  // Every access to a shared variable and every semaphore operation is a step of its own; steps of different
  // threads interleave in any order.

  type Bytes = seq<int>

  /** Where the reader thread is: about to open the device, to clear rxLen, to read, to store the length,
      to set the flag, to post serviceSem, or to wait on rxSem. */
  datatype Reader = Open | ClearLen | Reading | SetLen(n: nat) | SetFlag | PostService | WaitRx

  /** Where the main loop is. In... stands for a call into UNICENS, which may call back. */
  datatype Main =
    | TestTrigger | ClearTrigger | InService
    | TestTimeout | ClearTimeout | InTimeout
    | TestData | GetRx | TestRunning(len: nat) | InProcess(len: nat) | ClearData | PopRx | SetTrigger
    | TestAms | ClearAms | InAms
    | InDiagnosis
    | WaitService

  datatype Handled = Accepted(msg: Bytes) | Discarded(msg: Bytes)

  /** The flags that the threads share. */
  datatype Flags = Flags(trigger: bool, timeout: bool, data: bool, ams: bool, running: bool)

  /** The reader thread with the device, the receive buffer and the semaphore it waits on. */
  datatype Rx = Rx(pc: Reader, fileOpen: bool, buffer: Bytes, len: nat, sem: nat)

  /** The main loop with the semaphore it waits on; owes says that a callback has set its flag and is
      about to post. timers counts the timer threads that are about to post. */
  datatype Task = Task(pc: Main, owes: bool, sem: nat, timers: nat)

  /** What happened so far: messages read and handled, and whether the flags that are set now were left
      or set by a refusal of UCSI_ProcessRxData. */
  datatype Log = Log(received: seq<Bytes>, handled: seq<Handled>, refused: bool, busy: bool)

  datatype State = State(flags: Flags, rx: Rx, task: Task, log: Log)

  /** The choices that are not determined by the state. */
  datatype Event =
    | OpenDevice(ok: bool) | ReaderStep | ReadDone(bytes: Bytes) | ReadFailed(garbage: Bytes)
    | TimerFires | TimerPosts
    | MainStep | Processed(accepted: bool)
    | CallbackService | CallbackAms | CallbackRun(on: bool) | CallbackPosts

  /** TaskUnicens_Init: the configuration has been enqueued, which has set the trigger and posted. */
  predicate Initial(s: State) {
    && s.flags == Flags(true, false, false, false, false)
    && s.rx.pc == Open && !s.rx.fileOpen && s.rx.sem == 0
    && s.task == Task(TestTrigger, false, 1, 0)
    && s.log == Log([], [], false, false)
  }

  /** UNICENS code is running on the main thread and may call back. */
  predicate InCall(m: Main) {
    m.InService? || m.InTimeout? || m.InProcess? || m.InAms? || m.InDiagnosis?
  }

  predicate Enabled(s: State, e: Event) {
    match e
    case OpenDevice(ok) => s.rx.pc == Open && (s.rx.fileOpen ==> ok)
    case ReaderStep =>
      || s.rx.pc.ClearLen? || s.rx.pc.SetLen? || s.rx.pc.SetFlag? || s.rx.pc.PostService?
      || (s.rx.pc.WaitRx? && s.rx.sem > 0)
    case ReadDone(bytes) => s.rx.pc == Reading && 0 < |bytes| <= |s.rx.buffer|
    case ReadFailed(garbage) => s.rx.pc == Reading && |garbage| == |s.rx.buffer|
    case TimerFires => true
    case TimerPosts => s.task.timers > 0
    case MainStep => !s.task.owes && !s.task.pc.InProcess? && (s.task.pc.WaitService? ==> s.task.sem > 0)
    case Processed(_) => !s.task.owes && s.task.pc.InProcess?
    case CallbackService => InCall(s.task.pc) && !s.task.owes
    case CallbackAms => InCall(s.task.pc) && !s.task.owes
    case CallbackRun(_) => InCall(s.task.pc) && !s.task.owes
    case CallbackPosts => s.task.owes
  }

  function ReaderNext(s: State): State
    requires Enabled(s, ReaderStep)
  {
    match s.rx.pc
    case ClearLen => s.(rx := s.rx.(len := 0, pc := Reading))
    case SetLen(n) => s.(rx := s.rx.(len := n, pc := SetFlag))
    case SetFlag => s.(rx := s.rx.(pc := PostService), flags := s.flags.(data := true))
    case PostService => s.(rx := s.rx.(pc := WaitRx), task := s.task.(sem := s.task.sem + 1))
    case WaitRx => s.(rx := s.rx.(pc := Open, sem := s.rx.sem - 1))
  }

  function At(s: State, pc: Main): State {
    s.(task := s.task.(pc := pc))
  }

  /** The message that UNICENS copies out of the receive buffer. */
  function Taken(s: State, len: nat): Bytes {
    if len <= |s.rx.buffer| then s.rx.buffer[..len] else s.rx.buffer
  }

  function MainNext(s: State): State
    requires Enabled(s, MainStep)
  {
    match s.task.pc
    case TestTrigger => At(s, if s.flags.trigger then ClearTrigger else TestTimeout)
    case ClearTrigger => At(s, InService).(flags := s.flags.(trigger := false), log := s.log.(busy := false))
    case InService => At(s, TestTimeout)
    case TestTimeout => At(s, if s.flags.timeout then ClearTimeout else TestData)
    case ClearTimeout => At(s, InTimeout).(flags := s.flags.(timeout := false))
    case InTimeout => At(s, TestData)
    case TestData => At(s, if s.flags.data then GetRx else TestAms)
    case GetRx => At(s, TestRunning(s.rx.len))
    case TestRunning(len) =>
      if s.flags.running then At(s, InProcess(len))
      else At(s, ClearData).(log := s.log.(handled := s.log.handled + [Discarded(Taken(s, len))]))
    case ClearData => At(s, PopRx).(flags := s.flags.(data := false), log := s.log.(refused := false))
    case PopRx => At(s, TestAms).(rx := s.rx.(sem := s.rx.sem + 1))
    case SetTrigger => At(s, TestAms).(flags := s.flags.(trigger := true), log := s.log.(busy := true))
    case TestAms => At(s, if s.flags.ams then ClearAms else InDiagnosis)
    case ClearAms => At(s, InAms).(flags := s.flags.(ams := false))
    case InAms => At(s, InDiagnosis)
    case InDiagnosis => At(s, WaitService)
    case WaitService => s.(task := s.task.(sem := s.task.sem - 1, pc := TestTrigger))
  }

  function Apply(s: State, e: Event): State
    requires Enabled(s, e)
  {
    match e
    case OpenDevice(ok) => if ok then s.(rx := s.rx.(fileOpen := true, pc := ClearLen)) else s
    case ReaderStep => ReaderNext(s)
    case ReadDone(bytes) =>
      s.(rx := s.rx.(buffer := bytes + s.rx.buffer[|bytes|..], pc := SetLen(|bytes|)),
         log := s.log.(received := s.log.received + [bytes]))
    case ReadFailed(garbage) => s.(rx := s.rx.(buffer := garbage, fileOpen := false, pc := Open))
    case TimerFires => s.(flags := s.flags.(timeout := true), task := s.task.(timers := s.task.timers + 1))
    case TimerPosts => s.(task := s.task.(sem := s.task.sem + 1, timers := s.task.timers - 1))
    case MainStep => MainNext(s)
    case Processed(accepted) =>
      if accepted then
        At(s, ClearData).(log := s.log.(handled := s.log.handled + [Accepted(Taken(s, s.task.pc.len))]))
      else At(s, SetTrigger).(log := s.log.(refused := true))
    case CallbackService =>
      s.(flags := s.flags.(trigger := true), log := s.log.(busy := false), task := s.task.(owes := true))
    case CallbackAms => s.(flags := s.flags.(ams := true), task := s.task.(owes := true))
    case CallbackRun(on) => s.(flags := s.flags.(running := on))
    case CallbackPosts => s.(task := s.task.(sem := s.task.sem + 1, owes := false))
  }

  // ---- handing over the receive buffer ----

  /** The reader owns the buffer. */
  predicate ReaderOwns(s: State) {
    !s.rx.pc.PostService? && !s.rx.pc.WaitRx?
  }

  /** The main loop looks at the message. */
  predicate Looking(m: Main) {
    m.GetRx? || m.TestRunning? || m.InProcess? || m.ClearData?
  }

  /** Exactly one of four: the reader owns the buffer, the flag is set, the main loop is about to give the
      buffer back, or it has given it back. */
  predicate OneOwner(s: State) {
    && s.rx.sem <= 1
    && (ReaderOwns(s) ==> !s.flags.data && !s.task.pc.PopRx? && s.rx.sem == 0)
    && (s.flags.data ==> !s.task.pc.PopRx? && s.rx.sem == 0)
    && (s.task.pc.PopRx? ==> s.rx.sem == 0)
    && (!ReaderOwns(s) ==> s.flags.data || s.task.pc.PopRx? || s.rx.sem == 1)
    && (s.rx.pc.PostService? ==> s.flags.data || s.task.pc.PopRx? || s.rx.sem == 1)
    && (Looking(s.task.pc) ==> s.flags.data)
    && (s.task.pc.SetTrigger? ==> s.flags.data)
  }

  function Msgs(h: seq<Handled>): (r: seq<Bytes>)
    ensures |r| == |h|
  {
    seq(|h|, i requires 0 <= i < |h| => h[i].msg)
  }

  /** A message has been read and is still to be handled. */
  predicate Outstanding(s: State) {
    s.rx.pc.SetLen? || s.rx.pc.SetFlag? || (s.flags.data && !s.task.pc.ClearData?)
  }

  /** The buffer holds the outstanding message, and the length is right once it is stored. */
  predicate BufferHolds(s: State, msg: Bytes) {
    && |msg| <= |s.rx.buffer| && s.rx.buffer[..|msg|] == msg
    && (if s.rx.pc.SetLen? then s.rx.pc.n == |msg| else s.rx.len == |msg|)
    && (s.task.pc.TestRunning? || s.task.pc.InProcess? ==> s.task.pc.len == |msg|)
  }

  predicate InOrder(s: State) {
    if Outstanding(s) then
      && |s.log.received| == |s.log.handled| + 1 && Msgs(s.log.handled) == s.log.received[..|s.log.handled|]
      && BufferHolds(s, s.log.received[|s.log.handled|])
    else Msgs(s.log.handled) == s.log.received
  }

  predicate Handoff(s: State) {
    OneOwner(s) && InOrder(s)
  }

  /** Steps of the main loop that leave the buffer and its flag alone. */
  predicate Quiet(s: State, t: State) {
    t.rx == s.rx && t.flags.data == s.flags.data && t.log.received == s.log.received && t.log.handled == s.log.handled
  }

  lemma OneOwnerQuiet(s: State, t: State)
    requires OneOwner(s) && Quiet(s, t) && !s.task.pc.PopRx? && !t.task.pc.PopRx?
    requires Looking(t.task.pc) || t.task.pc.SetTrigger? ==> t.flags.data
    ensures OneOwner(t)
  {
  }

  lemma OneOwnerMain(s: State)
    requires OneOwner(s) && Enabled(s, MainStep)
    ensures OneOwner(MainNext(s))
  {
    match s.task.pc
    case ClearData =>
    case PopRx =>
    case TestRunning(_) =>
    case _ => OneOwnerQuiet(s, MainNext(s));
  }

  lemma OneOwnerReader(s: State)
    requires OneOwner(s) && Enabled(s, ReaderStep)
    ensures OneOwner(ReaderNext(s))
  {
    match s.rx.pc
    case ClearLen =>
    case SetLen(_) =>
    case SetFlag =>
    case PostService =>
    case WaitRx =>
  }

  lemma OneOwnerStep(s: State, e: Event)
    requires OneOwner(s) && Enabled(s, e)
    ensures OneOwner(Apply(s, e))
  {
    match e
    case MainStep => OneOwnerMain(s);
    case ReaderStep => OneOwnerReader(s);
    case OpenDevice(_) =>
    case ReadDone(_) =>
    case ReadFailed(_) =>
    case _ =>
  }

  lemma HandledMore(s: State, h: Handled)
    requires Outstanding(s) && InOrder(s) && h.msg == s.log.received[|s.log.handled|]
    ensures Msgs(s.log.handled + [h]) == s.log.received
  {
    assert s.log.received == s.log.received[..|s.log.handled|] + [s.log.received[|s.log.handled|]];
  }

  lemma InOrderQuiet(s: State, t: State)
    requires Handoff(s) && Quiet(s, t) && !s.task.pc.ClearData? && !t.task.pc.ClearData?
    requires Looking(t.task.pc) ==> t.flags.data
    requires t.task.pc.TestRunning? || t.task.pc.InProcess? ==>
               t.task.pc.len == if s.task.pc.TestRunning? then s.task.pc.len else s.rx.len
    ensures InOrder(t)
  {
  }

  lemma InOrderMain(s: State)
    requires Handoff(s) && Enabled(s, MainStep)
    ensures InOrder(MainNext(s))
  {
    if s.task.pc.TestRunning? && !s.flags.running {
      HandledMore(s, Discarded(Taken(s, s.task.pc.len)));
    } else if s.task.pc.ClearData? || s.task.pc.PopRx? {
    } else {
      InOrderQuiet(s, MainNext(s));
    }
  }

  lemma InOrderReader(s: State)
    requires Handoff(s) && Enabled(s, ReaderStep)
    ensures InOrder(ReaderNext(s))
  {
  }

  lemma InOrderRead(s: State, bytes: Bytes)
    requires Handoff(s) && Enabled(s, ReadDone(bytes))
    ensures InOrder(Apply(s, ReadDone(bytes)))
  {
    var t := Apply(s, ReadDone(bytes));
    assert t.log.received[..|s.log.received|] == s.log.received;
    assert t.rx.buffer[..|bytes|] == bytes;
  }

  lemma InOrderProcessed(s: State, accepted: bool)
    requires Handoff(s) && Enabled(s, Processed(accepted))
    ensures InOrder(Apply(s, Processed(accepted)))
  {
    if accepted {
      HandledMore(s, Accepted(Taken(s, s.task.pc.len)));
    }
  }

  lemma InOrderStep(s: State, e: Event)
    requires Handoff(s) && Enabled(s, e)
    ensures InOrder(Apply(s, e))
  {
    match e
    case MainStep => InOrderMain(s);
    case ReaderStep => InOrderReader(s);
    case ReadDone(bytes) => InOrderRead(s, bytes);
    case Processed(accepted) => InOrderProcessed(s, accepted);
    case OpenDevice(_) =>
    case ReadFailed(_) =>
    case _ =>
  }

  /** While the message is outstanding or being looked at, no step of any thread touches the buffer or the
      stored length, and the reader cannot pass rxSem. */
  lemma BufferStable(s: State, e: Event)
    requires OneOwner(s) && Enabled(s, e) && (s.flags.data || s.task.pc.PopRx?)
    ensures Apply(s, e).rx.buffer == s.rx.buffer && Apply(s, e).rx.len == s.rx.len
    ensures !ReaderOwns(Apply(s, e))
  {
  }

  // ---- no lost wake-up ----

  /** In this round the main loop is still going to test the flag. */
  predicate BeforeTrigger(m: Main) {
    m.TestTrigger? || m.ClearTrigger?
  }

  predicate BeforeTimeout(m: Main) {
    BeforeTrigger(m) || m.InService? || m.TestTimeout? || m.ClearTimeout?
  }

  predicate BeforeData(m: Main) {
    BeforeTimeout(m) || m.InTimeout? || m.TestData? || Looking(m)
  }

  predicate BeforeAms(m: Main) {
    BeforeData(m) || m.PopRx? || m.SetTrigger? || m.TestAms? || m.ClearAms?
  }

  /** Every flag that is set will be seen: in this round, or because of a post that was or will be made, or
      it was left or set by a refusal. */
  predicate Awake(s: State) {
    && (s.flags.trigger ==> BeforeTrigger(s.task.pc) || s.task.sem > 0 || s.task.owes || s.log.busy)
    && (s.flags.timeout ==> BeforeTimeout(s.task.pc) || s.task.sem > 0 || s.task.timers > 0)
    && (s.flags.data ==> BeforeData(s.task.pc) || s.task.sem > 0 || s.rx.pc.PostService? || s.log.refused)
    && (s.flags.ams ==> BeforeAms(s.task.pc) || s.task.sem > 0 || s.task.owes)
    && (s.task.owes ==> InCall(s.task.pc))
    && (s.log.refused ==> s.flags.data) && (s.log.busy ==> s.flags.trigger)
  }

  lemma AwakeEarly(s: State)
    requires OneOwner(s) && Awake(s) && Enabled(s, MainStep) && BeforeTimeout(s.task.pc)
    ensures Awake(MainNext(s))
  {
  }

  lemma AwakeMiddle(s: State)
    requires OneOwner(s) && Awake(s) && Enabled(s, MainStep) && BeforeData(s.task.pc) && !BeforeTimeout(s.task.pc)
    ensures Awake(MainNext(s))
  {
  }

  lemma AwakeLate(s: State)
    requires OneOwner(s) && Awake(s) && Enabled(s, MainStep) && !BeforeData(s.task.pc)
    ensures Awake(MainNext(s))
  {
  }

  lemma AwakeMain(s: State)
    requires OneOwner(s) && Awake(s) && Enabled(s, MainStep)
    ensures Awake(MainNext(s))
  {
    if BeforeTimeout(s.task.pc) {
      AwakeEarly(s);
    } else if BeforeData(s.task.pc) {
      AwakeMiddle(s);
    } else {
      AwakeLate(s);
    }
  }

  lemma AwakeReader(s: State)
    requires OneOwner(s) && Awake(s) && Enabled(s, ReaderStep)
    ensures Awake(ReaderNext(s))
  {
  }

  lemma AwakeStep(s: State, e: Event)
    requires OneOwner(s) && Awake(s) && Enabled(s, e)
    ensures Awake(Apply(s, e))
  {
    match e
    case MainStep => AwakeMain(s);
    case ReaderStep => AwakeReader(s);
    case Processed(_) =>
    case OpenDevice(_) =>
    case _ =>
  }

  // ---- all interleavings ----

  /** A run of the program: a sequence of steps of any threads. */
  predicate Runs(states: seq<State>, events: seq<Event>) {
    && |states| == |events| + 1 && Initial(states[0])
    && forall i | 0 <= i < |events| :: Enabled(states[i], events[i]) && states[i + 1] == Apply(states[i], events[i])
  }

  lemma {:induction false} Reachable(states: seq<State>, events: seq<Event>, i: nat)
    requires Runs(states, events) && i < |states|
    ensures Handoff(states[i]) && Awake(states[i])
    decreases i
  {
    if i > 0 {
      Reachable(states, events, i - 1);
      OneOwnerStep(states[i - 1], events[i - 1]);
      InOrderStep(states[i - 1], events[i - 1]);
      AwakeStep(states[i - 1], events[i - 1]);
    } else {
      assert Msgs(states[0].log.handled) == [];
    }
  }

  /** In every run the messages are accepted or discarded once each, in the order they were read, and at
      most the last one is still to come; while it is flagged the reader cannot touch it. */
  lemma ReceiveHandoff(states: seq<State>, events: seq<Event>, i: nat)
    requires Runs(states, events) && i < |states|
    ensures var s := states[i];
      && |s.log.handled| <= |s.log.received| <= |s.log.handled| + 1
      && Msgs(s.log.handled) == s.log.received[..|s.log.handled|]
      && (|s.log.received| == |s.log.handled| + 1 && !ReaderOwns(s) ==> s.flags.data)
      && (s.flags.data || s.task.pc.PopRx? ==> forall e | Enabled(s, e) :: var t := Apply(s, e);
            t.rx.buffer == s.rx.buffer && t.rx.len == s.rx.len && !ReaderOwns(t))
  {
    Reachable(states, events, i);
    var s := states[i];
    if s.flags.data || s.task.pc.PopRx? {
      forall e | Enabled(s, e)
        ensures Apply(s, e).rx.buffer == s.rx.buffer && Apply(s, e).rx.len == s.rx.len && !ReaderOwns(Apply(s, e))
      {
        BufferStable(s, e);
      }
    }
  }

  /** When the main loop is blocked, no flag is set whose post has been made, except receive data that
      UNICENS has refused and the trigger that the refusal has set. */
  lemma NoLostWakeup(states: seq<State>, events: seq<Event>, i: nat)
    requires Runs(states, events) && i < |states| && states[i].task.pc.WaitService? && states[i].task.sem == 0
    ensures var s := states[i];
      && (s.flags.timeout ==> s.task.timers > 0)
      && (s.flags.data ==> s.rx.pc.PostService? || s.log.refused)
      && (s.flags.trigger ==> s.log.busy)
      && !s.flags.ams
  {
    Reachable(states, events, i);
  }

  // ---- what a flag asks for is done ----

  predicate Blocked(s: State) {
    s.task.pc.WaitService? && s.task.sem == 0
  }

  /** The main loop has come to that place after i and up to j. */
  predicate Came(states: seq<State>, i: nat, j: nat, pc: Main)
    requires j < |states|
  {
    exists k | i < k <= j :: states[k].task.pc == pc
  }

  /** A flag stays set until the main loop comes to that place. */
  lemma CameMore(states: seq<State>, i: nat, j: nat, pc: Main, before: bool, now: bool)
    requires i < j < |states| && (before || Came(states, i, j - 1, pc))
    requires before ==> now || states[j].task.pc == pc
    ensures now || Came(states, i, j, pc)
  {
  }

  lemma StepAt(states: seq<State>, events: seq<Event>, k: nat)
    requires Runs(states, events) && 0 < k < |states|
    ensures Enabled(states[k - 1], events[k - 1]) && states[k] == Apply(states[k - 1], events[k - 1])
  {
    assert states[k - 1 + 1] == Apply(states[k - 1], events[k - 1]);
  }

  lemma TimeoutStep(s: State, e: Event)
    requires Enabled(s, e)
    ensures s.flags.timeout ==> Apply(s, e).flags.timeout || Apply(s, e).task.pc == InTimeout
  {
  }

  lemma {:induction false} TimeoutSeen(states: seq<State>, events: seq<Event>, i: nat, j: nat)
    requires Runs(states, events) && i < j < |states| && events[i] == TimerFires
    ensures states[j].flags.timeout || Came(states, i, j, InTimeout)
    decreases j
  {
    StepAt(states, events, j);
    if j > i + 1 {
      TimeoutSeen(states, events, i, j - 1);
      TimeoutStep(states[j - 1], events[j - 1]);
      CameMore(states, i, j, InTimeout, states[j - 1].flags.timeout, states[j].flags.timeout);
    }
  }

  /** Before the main loop is blocked again UCSI_Timeout has been called for every timer that has fired and
      posted. */
  lemma TimeoutServed(states: seq<State>, events: seq<Event>, i: nat, j: nat)
    requires Runs(states, events) && i < j < |states| && events[i] == TimerFires
    requires Blocked(states[j]) && states[j].task.timers == 0
    ensures exists k | i < k <= j :: states[k].task.pc == InTimeout
  {
    TimeoutSeen(states, events, i, j);
    NoLostWakeup(states, events, j);
  }

  lemma AmsStep(s: State, e: Event)
    requires Enabled(s, e)
    ensures s.flags.ams ==> Apply(s, e).flags.ams || Apply(s, e).task.pc == InAms
  {
  }

  lemma {:induction false} AmsSeen(states: seq<State>, events: seq<Event>, i: nat, j: nat)
    requires Runs(states, events) && i < j < |states| && events[i] == CallbackAms
    ensures states[j].flags.ams || Came(states, i, j, InAms)
    decreases j
  {
    StepAt(states, events, j);
    if j > i + 1 {
      AmsSeen(states, events, i, j - 1);
      AmsStep(states[j - 1], events[j - 1]);
      CameMore(states, i, j, InAms, states[j - 1].flags.ams, states[j].flags.ams);
    }
  }

  /** The same for messages that UNICENS has announced. */
  lemma AmsServed(states: seq<State>, events: seq<Event>, i: nat, j: nat)
    requires Runs(states, events) && i < j < |states| && events[i] == CallbackAms && Blocked(states[j])
    ensures exists k | i < k <= j :: states[k].task.pc == InAms
  {
    AmsSeen(states, events, i, j);
    NoLostWakeup(states, events, j);
  }

  /** UNICENS has asked to be served: at the start, or in that step. */
  predicate Asked(states: seq<State>, events: seq<Event>, i: nat) {
    i == 0 || (i <= |events| && events[i - 1] == CallbackService)
  }

  predicate RefusedBetween(events: seq<Event>, i: nat, j: nat)
    requires j <= |events|
  {
    exists m | i <= m < j :: events[m] == Processed(false)
  }

  lemma TriggerStep(s: State, e: Event)
    requires Enabled(s, e)
    ensures s.flags.trigger ==> Apply(s, e).flags.trigger || Apply(s, e).task.pc == InService
  {
  }

  lemma BusyStep(s: State, e: Event)
    requires Enabled(s, e)
    ensures Apply(s, e).log.busy || Apply(s, e).task.pc == SetTrigger ==>
      s.log.busy || s.task.pc == SetTrigger || e == Processed(false)
  {
  }

  lemma AskedStart(states: seq<State>, events: seq<Event>, i: nat)
    requires Runs(states, events) && i < |states| && Asked(states, events, i)
    ensures states[i].flags.trigger && !states[i].log.busy && states[i].task.pc != SetTrigger
  {
    if i > 0 {
      StepAt(states, events, i);
    }
  }

  lemma {:induction false} TriggerSeen(states: seq<State>, events: seq<Event>, i: nat, j: nat)
    requires Runs(states, events) && i <= j < |states| && Asked(states, events, i)
    ensures states[j].flags.trigger || Came(states, i, j, InService)
    decreases j
  {
    if j > i {
      TriggerSeen(states, events, i, j - 1);
      StepAt(states, events, j);
      TriggerStep(states[j - 1], events[j - 1]);
      CameMore(states, i, j, InService, states[j - 1].flags.trigger, states[j].flags.trigger);
    } else {
      AskedStart(states, events, i);
    }
  }

  lemma RefusedMore(events: seq<Event>, i: nat, j: nat)
    requires i < j <= |events| && (RefusedBetween(events, i, j - 1) || events[j - 1] == Processed(false))
    ensures RefusedBetween(events, i, j)
  {
  }

  lemma {:induction false} BusySince(states: seq<State>, events: seq<Event>, i: nat, j: nat)
    requires Runs(states, events) && i <= j < |states| && Asked(states, events, i)
    ensures states[j].log.busy || states[j].task.pc == SetTrigger ==> RefusedBetween(events, i, j)
    decreases j
  {
    if j > i {
      BusySince(states, events, i, j - 1);
      StepAt(states, events, j);
      BusyStep(states[j - 1], events[j - 1]);
      if RefusedBetween(events, i, j - 1) || events[j - 1] == Processed(false) {
        RefusedMore(events, i, j);
      }
    } else {
      AskedStart(states, events, i);
    }
  }

  /** The same for UCSI_Service, except that a refusal after the request may have set the trigger once more. */
  lemma ServiceServed(states: seq<State>, events: seq<Event>, i: nat, j: nat)
    requires Runs(states, events) && i <= j < |states| && Asked(states, events, i) && Blocked(states[j])
    ensures (exists k | i < k <= j :: states[k].task.pc == InService)
         || (states[j].flags.trigger && exists m | i <= m < j :: events[m] == Processed(false))
  {
    TriggerSeen(states, events, i, j);
    BusySince(states, events, i, j);
    NoLostWakeup(states, events, j);
  }

  /** How a message is handled: it was accepted by UNICENS, or it was discarded because UNICENS was not running.
      Only while UNICENS is running messages are offered. */
  predicate HandledBy(s: State, e: Event, t: State) {
    && (t.task.pc.InProcess? && !s.task.pc.InProcess? ==> s.flags.running)
    && (t.log.handled != s.log.handled ==>
          && |s.log.handled| < |s.log.received|
          && var msg := s.log.received[|s.log.handled|];
             || (e == Processed(true) && t.log.handled == s.log.handled + [Accepted(msg)])
             || (e == MainStep && !s.flags.running && t.log.handled == s.log.handled + [Discarded(msg)]))
  }

  lemma HandledMain(s: State)
    requires Handoff(s) && Enabled(s, MainStep)
    ensures HandledBy(s, MainStep, MainNext(s))
  {
    match s.task.pc
    case TestRunning(_) =>
    case ClearData =>
    case _ =>
  }

  lemma HandledStep(s: State, e: Event)
    requires Handoff(s) && Enabled(s, e)
    ensures HandledBy(s, e, Apply(s, e))
  {
    match e
    case MainStep => HandledMain(s);
    case Processed(_) =>
    case ReaderStep =>
    case _ =>
  }

  lemma HandledHow(states: seq<State>, events: seq<Event>, i: nat)
    requires Runs(states, events) && i < |events|
    ensures HandledBy(states[i], events[i], states[i + 1])
  {
    Reachable(states, events, i);
    StepAt(states, events, i + 1);
    HandledStep(states[i], events[i]);
  }

  /** The message in the buffer was refused and has not been handled since. */
  predicate StillRefused(states: seq<State>, events: seq<Event>, j: nat)
    requires |states| == |events| + 1 && j < |states|
  {
    exists m | 0 <= m < j :: events[m] == Processed(false) && states[m].log.handled == states[j].log.handled
  }

  lemma RefusedStep(s: State, e: Event)
    requires Enabled(s, e) && Handoff(s) && Apply(s, e).log.refused && !Apply(s, e).task.pc.ClearData?
    ensures Apply(s, e).log.handled == s.log.handled
    ensures e == Processed(false) || (s.log.refused && !s.task.pc.ClearData?)
  {
    match e
    case MainStep =>
    case Processed(_) =>
    case _ =>
  }

  lemma StillMore(states: seq<State>, events: seq<Event>, j: nat)
    requires |states| == |events| + 1 && 0 < j < |states| && states[j].log.handled == states[j - 1].log.handled
    requires events[j - 1] == Processed(false) || StillRefused(states, events, j - 1)
    ensures StillRefused(states, events, j)
  {
  }

  lemma {:induction false} RefusedSince(states: seq<State>, events: seq<Event>, j: nat)
    requires Runs(states, events) && j < |states| && states[j].log.refused && !states[j].task.pc.ClearData?
    ensures StillRefused(states, events, j)
    decreases j
  {
    if j > 0 {
      StepAt(states, events, j);
      Reachable(states, events, j - 1);
      RefusedStep(states[j - 1], events[j - 1]);
      if events[j - 1] != Processed(false) {
        RefusedSince(states, events, j - 1);
      }
      StillMore(states, events, j);
    }
  }

  /** When the main loop is blocked every message that was read and posted has been handled, unless UNICENS has
      refused it. */
  lemma DataServed(states: seq<State>, events: seq<Event>, j: nat)
    requires Runs(states, events) && j < |states| && Blocked(states[j])
    requires !ReaderOwns(states[j]) && !states[j].rx.pc.PostService?
    ensures Msgs(states[j].log.handled) == states[j].log.received || StillRefused(states, events, j)
  {
    ReceiveHandoff(states, events, j);
    NoLostWakeup(states, events, j);
    var s := states[j];
    if |s.log.received| == |s.log.handled| + 1 {
      RefusedSince(states, events, j);
    } else {
      assert s.log.received[..|s.log.handled|] == s.log.received;
    }
  }

  /** A round ends behind the call that looks after the diagnosis. */
  lemma RoundEnds(states: seq<State>, events: seq<Event>, i: nat)
    requires Runs(states, events) && i < |events| && states[i + 1].task.pc == WaitService
    ensures states[i].task.pc == WaitService || states[i].task.pc == InDiagnosis
  {
    StepAt(states, events, i + 1);
  }

  /** UNICENS has reported that it runs, and has not taken that back. */
  predicate RunReported(events: seq<Event>, j: nat)
    requires j <= |events|
  {
    exists m | 0 <= m < j :: events[m] == CallbackRun(true) && forall n | m < n < j :: events[n] != CallbackRun(false)
  }

  lemma RunStep(s: State, e: Event)
    requires Enabled(s, e)
    ensures Apply(s, e).flags.running == if e.CallbackRun? then e.on else s.flags.running
  {
  }

  lemma RunMore(events: seq<Event>, j: nat)
    requires 0 < j <= |events|
    ensures RunReported(events, j) <==>
      if events[j - 1].CallbackRun? then events[j - 1].on else RunReported(events, j - 1)
  {
    if RunReported(events, j - 1) && events[j - 1] != CallbackRun(false) {
      var m :| 0 <= m < j - 1 && events[m] == CallbackRun(true)
        && forall n | m < n < j - 1 :: events[n] != CallbackRun(false);
      assert events[m] == CallbackRun(true) && forall n | m < n < j :: events[n] != CallbackRun(false);
    }
    if events[j - 1] == CallbackRun(true) {
      assert forall n | j - 1 < n < j :: events[n] != CallbackRun(false);
    }
  }

  lemma {:induction false} RunningIs(states: seq<State>, events: seq<Event>, j: nat)
    requires Runs(states, events) && j < |states|
    ensures states[j].flags.running <==> RunReported(events, j)
    decreases j
  {
    if j > 0 {
      RunningIs(states, events, j - 1);
      StepAt(states, events, j);
      RunStep(states[j - 1], events[j - 1]);
      RunMore(events, j);
    }
  }

  /** The messages that the device has delivered. */
  function Delivered(events: seq<Event>): seq<Bytes> {
    if events == [] then []
    else
      var front, e := Delivered(events[..|events| - 1]), events[|events| - 1];
      if e.ReadDone? then front + [e.bytes] else front
  }

  lemma ReceivedStep(s: State, e: Event)
    requires Enabled(s, e)
    ensures Apply(s, e).log.received == if e.ReadDone? then s.log.received + [e.bytes] else s.log.received
  {
  }

  lemma {:induction false} ReceivedIs(states: seq<State>, events: seq<Event>, j: nat)
    requires Runs(states, events) && j < |states|
    ensures states[j].log.received == Delivered(events[..j])
    decreases j
  {
    if j > 0 {
      ReceivedIs(states, events, j - 1);
      StepAt(states, events, j);
      ReceivedStep(states[j - 1], events[j - 1]);
      assert events[..j][..j - 1] == events[..j - 1];
    }
  }

  // ---- the exception occurs ----

  ghost predicate Reached(s: State) {
    exists states: seq<State>, events: seq<Event> :: Runs(states, events) && states[|events|] == s
  }

  lemma Go(s: State, e: Event) returns (t: State)
    requires Reached(s) && Enabled(s, e)
    ensures t == Apply(s, e) && Reached(t)
  {
    t := Apply(s, e);
    var states: seq<State>, events: seq<Event> :| Runs(states, events) && states[|events|] == s;
    assert Runs(states + [t], events + [e]);
  }

  /** A state of the main loop in the run below: UNICENS is running; trigger is set and the rest is as rx says. */
  function Running(trigger: bool, rx: Rx, pc: Main, sem: nat, log: Log): State {
    State(Flags(trigger, false, rx.len > 0, false, true), rx, Task(pc, false, sem, 0), log)
  }

  const IDLE := Rx(Open, false, [0], 0, 0)
  const FULL := Rx(WaitRx, true, [1], 1, 0)

  const NOTHING := Log([], [], false, false)

  /** The first round starts UNICENS. */
  lemma StartRound() returns (s: State)
    ensures Reached(s) && s == Running(false, IDLE, TestTimeout, 1, NOTHING)
  {
    s := State(Flags(true, false, false, false, false), IDLE, Task(TestTrigger, false, 1, 0), NOTHING);
    assert Runs([s], []);
    s := Go(s, MainStep);
    s := Go(s, MainStep);
    s := Go(s, CallbackRun(true));
    s := Go(s, MainStep);
  }

  lemma Untimed(s: State, trigger: bool, rx: Rx, sem: nat, log: Log) returns (t: State)
    requires Reached(s) && s == Running(trigger, rx, TestTimeout, sem, log)
    ensures Reached(t) && t == Running(trigger, rx, TestData, sem, log)
  {
    t := Go(s, MainStep);
  }

  lemma NoData(s: State, sem: nat, log: Log) returns (t: State)
    requires Reached(s) && s == Running(false, IDLE, TestData, sem, log)
    ensures Reached(t) && t == Running(false, IDLE, TestAms, sem, log)
  {
    t := Go(s, MainStep);
  }

  lemma NoAms(s: State, trigger: bool, rx: Rx, sem: nat, log: Log) returns (t: State)
    requires Reached(s) && s == Running(trigger, rx, TestAms, sem, log)
    ensures Reached(t) && t == Running(trigger, rx, InDiagnosis, sem, log)
  {
    t := Go(s, MainStep);
  }

  /** Nothing else is to be done in it. */
  lemma QuietRound(s: State) returns (t: State)
    requires Reached(s) && s == Running(false, IDLE, TestTimeout, 1, NOTHING)
    ensures Reached(t) && t == Running(false, IDLE, InDiagnosis, 1, NOTHING)
  {
    t := Untimed(s, false, IDLE, 1, NOTHING);
    t := NoData(t, 1, NOTHING);
    t := NoAms(t, false, IDLE, 1, NOTHING);
  }

  /** The end of a round when a post has been made. */
  lemma NextRound(s: State, trigger: bool, rx: Rx, log: Log) returns (t: State)
    requires Reached(s) && s == Running(trigger, rx, InDiagnosis, 1, log)
    ensures Reached(t) && t == Running(trigger, rx, TestTrigger, 0, log)
  {
    t := Go(s, MainStep);
    t := Go(t, MainStep);
  }

  /** The reader thread delivers a message. */
  lemma ReadRound(s: State) returns (t: State)
    requires Reached(s) && s == Running(false, IDLE, TestTrigger, 0, NOTHING)
    ensures Reached(t) && t == Running(false, FULL, TestTrigger, 1, Log([[1]], [], false, false))
  {
    t := Go(s, OpenDevice(true));
    t := Go(t, ReaderStep);
    t := Go(t, ReadDone([1]));
    assert [1] + [0][|[1]|..] == [1];
    t := Go(t, ReaderStep);
    t := Go(t, ReaderStep);
    t := Go(t, ReaderStep);
  }

  lemma Flagged(s: State, sem: nat, log: Log) returns (t: State)
    requires Reached(s) && s == Running(false, FULL, TestData, sem, log)
    ensures Reached(t) && t == Running(false, FULL, GetRx, sem, log)
  {
    t := Go(s, MainStep);
  }

  lemma Offered(s: State, sem: nat, log: Log) returns (t: State)
    requires Reached(s) && s == Running(false, FULL, GetRx, sem, log)
    ensures Reached(t) && t == Running(false, FULL, InProcess(1), sem, log)
  {
    t := Go(s, MainStep);
    assert t == Running(false, FULL, TestRunning(1), sem, log);
    t := Go(t, MainStep);
  }

  /** The main loop comes to the message. */
  lemma OfferRound(s: State, sem: nat, log: Log) returns (t: State)
    requires Reached(s) && s == Running(false, FULL, TestTimeout, sem, log)
    ensures Reached(t) && t == Running(false, FULL, InProcess(1), sem, log)
  {
    t := Untimed(s, false, FULL, sem, log);
    t := Flagged(t, sem, log);
    t := Offered(t, sem, log);
  }

  lemma Refused(s: State, sem: nat, log: Log) returns (t: State)
    requires Reached(s) && s == Running(false, FULL, InProcess(1), sem, log)
    ensures Reached(t) && t == Running(true, FULL, TestAms, sem, log.(refused := true, busy := true))
  {
    t := Go(s, Processed(false));
    t := Go(t, MainStep);
  }

  /** UNICENS refuses it: the trigger is set and nothing is posted. */
  lemma RefusalRound(s: State, sem: nat, log: Log) returns (t: State)
    requires Reached(s) && s == Running(false, FULL, TestTimeout, sem, log)
    ensures Reached(t) && t == Running(true, FULL, InDiagnosis, sem, log.(refused := true, busy := true))
  {
    t := OfferRound(s, sem, log);
    t := Refused(t, sem, log);
    t := NoAms(t, true, FULL, sem, log.(refused := true, busy := true));
  }

  /** The trigger is served once more. */
  lemma TriggerRound(s: State, log: Log) returns (t: State)
    requires Reached(s) && s == Running(true, FULL, TestTrigger, 0, log)
    ensures Reached(t) && t == Running(false, FULL, TestTimeout, 0, log.(busy := false))
  {
    t := Go(s, MainStep);
    t := Go(t, MainStep);
    t := Go(t, MainStep);
  }

  /** The message has come in while the main loop was at the start of a round. */
  lemma FirstDelivered() returns (s: State)
    ensures Reached(s) && s == Running(false, FULL, TestTimeout, 1, Log([[1]], [], false, false))
  {
    s := StartRound();
    s := QuietRound(s);
    s := NextRound(s, false, IDLE, NOTHING);
    s := ReadRound(s);
    s := Go(s, MainStep);
  }

  lemma RefusedTwice() returns (s: State)
    ensures Reached(s) && s == Running(true, FULL, InDiagnosis, 0, Log([[1]], [], true, true))
  {
    s := FirstDelivered();
    s := RefusalRound(s, 1, Log([[1]], [], false, false));
    s := NextRound(s, true, FULL, Log([[1]], [], true, true));
    s := TriggerRound(s, Log([[1]], [], true, true));
    s := RefusalRound(s, 0, Log([[1]], [], true, false));
  }

  /** A run that ends with the main loop blocked, receive data flagged and the reader waiting for it to be given
      back: only another wake-up, a timer say, can go on from here. */
  lemma RefusalBlocks() returns (states: seq<State>, events: seq<Event>)
    ensures Runs(states, events)
    ensures var s := states[|events|];
      && s.task.pc == WaitService && s.task.sem == 0 && s.flags.data && s.log.refused
      && !Enabled(s, MainStep) && !Enabled(s, ReaderStep)
  {
    var s := RefusedTwice();
    s := Go(s, MainStep);
    states, events :| Runs(states, events) && states[|events|] == s;
  }
}
