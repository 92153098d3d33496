/**
 The auto-reconnecting socket as interleaved atomic steps.

 A step is one lock section, one cell `set`, one queue operation, one read of the watch channel or one
 resolved await.  Any number of callers run `set_addr`, re-entrant callbacks included: a callback is
 another caller whose steps fall between two steps of the first.
 */
module AutosocketModel {
  import opened Common

  type Addr = string

  datatype Frame = Text(text: string) | Binary(bytes: seq<bv8>)

  datatype Status = Idle | Disconnected | Connecting(addr: Addr) | Reconnecting(addr: Addr) | Connected(addr: Addr)

  const OUTGOING_QUEUE_CAPACITY: nat := 1024
  const MAX_ATTEMPT: nat := 0xFFFF_FFFF_FFFF_FFFF

  /** A bounded queue: every frame it ever accepted, and how many were taken out. */
  datatype Queue = Queue(accepted: seq<Frame>, popped: nat)

  datatype Desired = Desired(generation: nat, addr: Option<Addr>, outgoing: Option<nat>)

  datatype Control = Control(generation: nat, addr: Option<Addr>, outgoing: nat)

  /** The watch channel: its value, the version of that value, the version the driver has seen. */
  datatype Watch = Watch(value: Desired, version: nat, seen: nat, closed: bool)

  /**
   One `set_addr` call in progress.  `own` is the generation the call created and `turns` how often its
   publishing loop went round again; both are bookkeeping for the theorems.
   */
  datatype Caller =
    | AtLock(addr: Option<Addr>, observed: Status)
    | AtPublish(own: nat, turns: nat, generation: nat, addr: Option<Addr>)
    | AtCheck(own: nat, turns: nat, generation: nat, addr: Option<Addr>)

  /** Where the driver thread stands; `d` is the desired connection that `run_generation` was given. */
  datatype Driver =
    | Borrow
    | SetIdle
    | WaitIdle
    | Attempt(d: Desired, n: nat)
    | Parse(d: Desired, n: nat)
    | BadUrl(d: Desired)
    | WaitChange(d: Desired)
    | Connect(d: Desired, n: nat)
    | ConnectFailed(d: Desired, n: nat)
    | Delay(d: Desired, n: nat)
    | CheckConnected(d: Desired, n: nat)
    | SpawnSession(d: Desired, n: nat)
    | AwaitReady(d: Desired, n: nat)
    | ReadyLost(d: Desired, n: nat)
    | ReadyLostSet(d: Desired, n: nat)
    | CheckReady(d: Desired, n: nat)
    | SetConnected(d: Desired)
    | Live(d: Desired)
    | SessionEnded(d: Desired)
    | Teardown(d: Desired, exit: bool)
    | Exited

  datatype Ready = Pending | Sent | Lost

  datatype Reader = ReaderUnborn | Reading | Holding(frame: Frame) | ReaderDone

  datatype Writer = WriterUnborn | Waiting | Writing(idx: nat) | WriterDone

  datatype Session = Session(
    generation: nat, queue: nat, cancelled: bool, aborting: bool, ready: Ready,
    reader: Reader, writer: Writer, finished: bool)

  /** One frame on the wire: which session wrote it, and its place in the queue it came from. */
  datatype WireEntry = WireEntry(session: nat, queue: nat, idx: nat)

  /** One frame on the incoming queue, tagged with the generation of the session that read it. */
  datatype InEntry = InEntry(generation: nat, frame: Frame)

  datatype State = State(
    autoReconnect: bool,
    control: Control,
    watch: Watch,
    intended: Status,
    actual: Status,
    callers: map<nat, Caller>,
    driver: Driver,
    queues: seq<Queue>,
    sessions: seq<Session>,
    wire: seq<WireEntry>,
    incoming: seq<InEntry>)

  function Init(autoReconnect: bool): State {
    State(autoReconnect, Control(0, None, 0), Watch(Desired(0, None, None), 0, 0, false),
          Idle, Idle, map[], Borrow, [Queue([], 0)], [], [], [])
  }

  /** What the driver's current await or statement turns out to do. */
  datatype DriverEvent =
    | Go | SeeChange | SeeClosed | UrlOk | UrlBad | ConnectOk | ConnectErr | Elapsed
    | ReadyArrived | ReadyDropped | SessionDone

  /** One step of a session's supervisor, reader or writer task. */
  datatype TaskStep =
    | Start
    | Crash
    | SignalReady
    | Notice
    | Finish
    | ReadFrame(frame: Frame)
    | Deliver
    | Reject
    | StopReading
    | Pop
    | WriteOk
    | WriteFail(hit: bool)
    | StopWriting

  datatype Step =
    | CallBegin(c: nat, addr: Option<Addr>)
    | CallLock(c: nat)
    | CallPublish(c: nat)
    | CallCheck(c: nat)
    | DropHandle
    | Send(q: nat, frame: Frame)
    | Drive(event: DriverEvent)
    | Run(i: nat, task: TaskStep)

  // ---------------------------------------------------------------- callers of set_addr

  /** The status names `addr` and says a connection to it is up or under way. */
  predicate Engaged(status: Status, addr: Option<Addr>) {
    (status.Connected? || status.Connecting? || status.Reconnecting?) && addr == Some(status.addr)
  }

  /** What `set_addr` publishes for an address. */
  function Intent(addr: Option<Addr>): Status {
    match addr
    case None => Idle
    case Some(a) => Connected(a)
  }

  function CallLockStep(s: State, c: nat): State
    requires c in s.callers && s.callers[c].AtLock?
  {
    var addr := s.callers[c].addr;
    if s.control.addr == addr && Engaged(s.callers[c].observed, addr) then
      s.(callers := s.callers - {c})
    else
      Readdress(s, c, addr)
  }

  /** The lock section that makes a new generation: fresh queue, new control, new watch value. */
  function Readdress(s: State, c: nat, addr: Option<Addr>): State {
    var generation := s.control.generation + 1;
    var outgoing := |s.queues|;
    s.(queues := s.queues + [Queue([], 0)],
       control := Control(generation, addr, outgoing),
       watch := s.watch.(value := Desired(generation, addr, if addr.Some? then Some(outgoing) else None),
                         version := s.watch.version + 1),
       callers := s.callers[c := AtPublish(generation, 0, generation, addr)])
  }

  function CallPublishStep(s: State, c: nat): State
    requires c in s.callers && s.callers[c].AtPublish?
  {
    var p := s.callers[c];
    s.(intended := Intent(p.addr), callers := s.callers[c := AtCheck(p.own, p.turns, p.generation, p.addr)])
  }

  function CallCheckStep(s: State, c: nat): State
    requires c in s.callers && s.callers[c].AtCheck?
  {
    var p := s.callers[c];
    if s.control.generation == p.generation then
      s.(callers := s.callers - {c})
    else
      s.(callers := s.callers[c := AtPublish(p.own, p.turns + 1, s.control.generation, s.control.addr)])
  }

  // ---------------------------------------------------------------- senders

  /** The desired connection the driver keeps cloned while it is inside `run_generation`. */
  function HeldBy(driver: Driver): Option<Desired> {
    match driver
    case Attempt(d, _) => Some(d)
    case Parse(d, _) => Some(d)
    case BadUrl(d) => Some(d)
    case WaitChange(d) => Some(d)
    case Connect(d, _) => Some(d)
    case ConnectFailed(d, _) => Some(d)
    case Delay(d, _) => Some(d)
    case CheckConnected(d, _) => Some(d)
    case SpawnSession(d, _) => Some(d)
    case AwaitReady(d, _) => Some(d)
    case ReadyLost(d, _) => Some(d)
    case ReadyLostSet(d, _) => Some(d)
    case CheckReady(d, _) => Some(d)
    case SetConnected(d) => Some(d)
    case Live(d) => Some(d)
    case SessionEnded(d) => Some(d)
    case _ => None
  }

  /** Some receiver of queue `q` is still held, so a send into it can succeed. */
  predicate ReceiverAlive(s: State, q: nat) {
    || q == s.control.outgoing
    || (HeldBy(s.driver).Some? && HeldBy(s.driver).value.outgoing == Some(q))
    || (s.driver.Teardown? && s.driver.d.outgoing == Some(q))
    || exists i :: 0 <= i < |s.sessions| && !s.sessions[i].finished && s.sessions[i].queue == q
  }

  // ---------------------------------------------------------------- driver

  function NextAttempt(n: nat): nat {
    if n < MAX_ATTEMPT then n + 1 else n
  }

  /** The await points at which the driver listens to the watch channel. */
  predicate Listening(driver: Driver) {
    || driver.WaitIdle? || driver.WaitChange? || driver.Connect? || driver.Delay?
    || driver.AwaitReady? || driver.Live?
  }

  /** The driver has spawned a session and has not awaited its end yet. */
  predicate HasSession(driver: Driver) {
    || driver.AwaitReady? || driver.ReadyLost? || driver.CheckReady? || driver.SetConnected?
    || driver.Live? || driver.Teardown?
  }

  predicate LastFinished(s: State) {
    |s.sessions| > 0 && s.sessions[|s.sessions| - 1].finished
  }

  predicate LastReady(s: State, r: Ready) {
    |s.sessions| > 0 && s.sessions[|s.sessions| - 1].ready == r
  }

  predicate DriverEnabled(s: State, e: DriverEvent) {
    match s.driver
    case Borrow => e.Go?
    case SetIdle => e.Go?
    case WaitIdle => Woken(s, e)
    case Attempt(d, _) => e.Go? && d.addr.Some?
    case Parse(_, _) => e.UrlOk? || e.UrlBad?
    case BadUrl(_) => e.Go?
    case WaitChange(_) => Woken(s, e)
    case Connect(_, _) => Woken(s, e) || e.ConnectOk? || e.ConnectErr?
    case ConnectFailed(_, _) => e.Go?
    case Delay(_, _) => Woken(s, e) || e.Elapsed?
    case CheckConnected(_, _) => e.Go?
    case SpawnSession(_, _) => e.Go?
    case AwaitReady(_, _) =>
      Woken(s, e) || (e.ReadyArrived? && LastReady(s, Sent)) || (e.ReadyDropped? && LastReady(s, Lost))
    case ReadyLost(_, _) => e.SessionDone? && LastFinished(s)
    case ReadyLostSet(_, _) => e.Go?
    case CheckReady(_, _) => e.Go?
    case SetConnected(d) => e.Go? && d.addr.Some?
    case Live(_) => Woken(s, e) || (e.SessionDone? && LastFinished(s))
    case SessionEnded(_) => e.Go?
    case Teardown(_, _) => e.SessionDone? && LastFinished(s)
    case Exited => false
  }

  /** `changed()` resolves: an unseen version first, the closed channel only when there is none. */
  predicate Woken(s: State, e: DriverEvent) {
    || (e.SeeChange? && s.watch.seen < s.watch.version)
    || (e.SeeClosed? && s.watch.seen == s.watch.version && s.watch.closed)
  }

  datatype SessionOp = Keep | Cancel | Spawn(session: Session)

  /** What one driver step changes: its place, `actual_status`, the seen version, the session it watches. */
  datatype Effect = Effect(driver: Driver, actual: Status, see: bool, op: SessionOp)

  function Move(s: State, driver: Driver): Effect {
    Effect(driver, s.actual, false, Keep)
  }

  function Publish(driver: Driver, actual: Status): Effect {
    Effect(driver, actual, false, Keep)
  }

  /** After `changed()` at an await that has no session to tear down. */
  function Leave(s: State, e: DriverEvent): Effect {
    Effect(if e.SeeClosed? then Exited else Borrow, s.actual, true, Keep)
  }

  /** After `changed()` at an await with a session: cancel it, then wait for its end. */
  function LeaveSession(s: State, d: Desired, e: DriverEvent): Effect {
    Effect(Teardown(d, e.SeeClosed?), s.actual, true, Cancel)
  }

  function AfterEnd(s: State, d: Desired, n: nat): Driver {
    if s.autoReconnect then Delay(d, n) else WaitChange(d)
  }

  function AttemptStatus(d: Desired, n: nat): Status
    requires d.addr.Some?
  {
    if n == 1 then Connecting(d.addr.value) else Reconnecting(d.addr.value)
  }

  function NewSession(d: Desired): Session
    requires d.outgoing.Some?
  {
    Session(d.generation, d.outgoing.value, false, false, Pending, ReaderUnborn, WriterUnborn, false)
  }

  function DriverEffect(s: State, e: DriverEvent): Effect
    requires DriverEnabled(s, e)
  {
    match s.driver
    case Borrow =>
      var d := s.watch.value;
      Effect(if d.addr.Some? then Attempt(d, 0) else SetIdle, s.actual, true, Keep)
    case SetIdle => Publish(WaitIdle, Idle)
    case WaitIdle => Leave(s, e)
    case Attempt(d, n) => Publish(Parse(d, NextAttempt(n)), AttemptStatus(d, NextAttempt(n)))
    case Parse(d, n) =>
      Move(s, if e.UrlOk? then Connect(d, n) else if s.autoReconnect then Delay(d, n) else BadUrl(d))
    case BadUrl(d) => Publish(WaitChange(d), Disconnected)
    case WaitChange(d) => Leave(s, e)
    case Connect(d, n) =>
      if e.ConnectOk? then Move(s, CheckConnected(d, n))
      else if e.ConnectErr? then Move(s, ConnectFailed(d, n))
      else Leave(s, e)
    case ConnectFailed(d, n) => Publish(AfterEnd(s, d, n), Disconnected)
    case Delay(d, n) => if e.Elapsed? then Move(s, Attempt(d, n)) else Leave(s, e)
    case CheckConnected(d, n) =>
      Move(s, if s.watch.value.generation != d.generation then Borrow else SpawnSession(d, n))
    case SpawnSession(d, n) =>
      if d.outgoing.None? then Move(s, Borrow)
      else Effect(AwaitReady(d, n), s.actual, false, Spawn(NewSession(d)))
    case AwaitReady(d, n) =>
      if e.ReadyArrived? then Move(s, CheckReady(d, n))
      else if e.ReadyDropped? then Move(s, ReadyLost(d, n))
      else LeaveSession(s, d, e)
    case ReadyLost(d, n) => Move(s, ReadyLostSet(d, n))
    case ReadyLostSet(d, n) => Publish(Attempt(d, n), Disconnected)
    case CheckReady(d, n) =>
      if s.watch.value.generation != d.generation then Effect(Teardown(d, false), s.actual, false, Cancel)
      else Move(s, SetConnected(d))
    case SetConnected(d) => Publish(Live(d), Connected(d.addr.value))
    case Live(d) => if e.SessionDone? then Move(s, SessionEnded(d)) else LeaveSession(s, d, e)
    case SessionEnded(d) => Publish(AfterEnd(s, d, 0), Disconnected)
    case Teardown(_, exit) => Move(s, if exit then Exited else Borrow)
  }

  function Operate(sessions: seq<Session>, op: SessionOp): seq<Session> {
    match op
    case Keep => sessions
    case Cancel =>
      if |sessions| == 0 then sessions
      else sessions[|sessions| - 1 := sessions[|sessions| - 1].(cancelled := true)]
    case Spawn(x) => sessions + [x]
  }

  function DriverStep(s: State, e: DriverEvent): State
    requires DriverEnabled(s, e)
  {
    var f := DriverEffect(s, e);
    s.(driver := f.driver, actual := f.actual,
       watch := if f.see then s.watch.(seen := s.watch.version) else s.watch,
       sessions := Operate(s.sessions, f.op))
  }

  // ---------------------------------------------------------------- session tasks

  predicate TaskEnabled(s: State, i: nat, task: TaskStep) {
    i < |s.sessions| &&
    var x := s.sessions[i];
    match task
    case Start => !x.finished && x.reader.ReaderUnborn?
    case Crash => !x.finished && x.reader.ReaderUnborn?
    case SignalReady => !x.reader.ReaderUnborn? && x.ready.Pending?
    case Notice => x.ready.Sent? && !x.aborting && (x.cancelled || x.reader.ReaderDone? || x.writer.WriterDone?)
    case Finish => x.aborting && !x.finished && x.reader.ReaderDone? && x.writer.WriterDone?
    case ReadFrame(_) => x.reader.Reading?
    case Deliver => x.reader.Holding?
    case Reject => x.reader.Holding? && s.watch.closed
    case StopReading => x.reader.Reading?
    case Pop => x.writer.Waiting? && x.queue < |s.queues| && s.queues[x.queue].popped < |s.queues[x.queue].accepted|
    case WriteOk => x.writer.Writing?
    case WriteFail(_) => x.writer.Writing?
    case StopWriting => x.writer.Waiting? && (x.cancelled || x.queue != s.control.outgoing)
  }

  function TaskSession(s: State, x: Session, task: TaskStep): Session
  {
    match task
    case Start => x.(reader := Reading, writer := Waiting)
    case Crash => x.(ready := Lost, reader := ReaderDone, writer := WriterDone, finished := true)
    case SignalReady => x.(ready := Sent)
    case Notice => x.(cancelled := true, aborting := true)
    case Finish => x.(finished := true)
    case ReadFrame(frame) => x.(reader := Holding(frame))
    case Deliver => x.(reader := if s.control.generation != x.generation then ReaderDone else Reading)
    case Reject => x.(reader := ReaderDone)
    case StopReading => x.(reader := ReaderDone)
    case Pop => if x.queue < |s.queues| then x.(writer := Writing(s.queues[x.queue].popped)) else x
    case WriteOk => x.(writer := Waiting)
    case WriteFail(_) => x.(writer := WriterDone)
    case StopWriting => x.(writer := WriterDone)
  }

  function TaskQueues(s: State, x: Session, task: TaskStep): seq<Queue> {
    if task.Pop? && x.queue < |s.queues| then
      s.queues[x.queue := s.queues[x.queue].(popped := s.queues[x.queue].popped + 1)]
    else s.queues
  }

  function TaskWire(s: State, i: nat, x: Session, task: TaskStep): seq<WireEntry> {
    if x.writer.Writing? && (task.WriteOk? || (task.WriteFail? && task.hit)) then
      s.wire + [WireEntry(i, x.queue, x.writer.idx)]
    else s.wire
  }

  /** The generation check and the enqueue are one lock section. */
  function TaskIncoming(s: State, x: Session, task: TaskStep): seq<InEntry> {
    if task.Deliver? && x.reader.Holding? && s.control.generation == x.generation then
      s.incoming + [InEntry(x.generation, x.reader.frame)]
    else s.incoming
  }

  function RunStep(s: State, i: nat, task: TaskStep): State
    requires TaskEnabled(s, i, task)
  {
    var x := s.sessions[i];
    s.(sessions := s.sessions[i := TaskSession(s, x, task)],
       queues := TaskQueues(s, x, task),
       wire := TaskWire(s, i, x, task),
       incoming := TaskIncoming(s, x, task))
  }

  // ---------------------------------------------------------------- the step relation

  predicate Enabled(s: State, step: Step) {
    match step
    case CallBegin(c, _) => c !in s.callers && !s.watch.closed
    case CallLock(c) => c in s.callers && s.callers[c].AtLock?
    case CallPublish(c) => c in s.callers && s.callers[c].AtPublish?
    case CallCheck(c) => c in s.callers && s.callers[c].AtCheck?
    case DropHandle => s.callers == map[]
    case Send(q, _) =>
      q < |s.queues| && ReceiverAlive(s, q) && |s.queues[q].accepted| - s.queues[q].popped < OUTGOING_QUEUE_CAPACITY
    case Drive(e) => DriverEnabled(s, e)
    case Run(i, task) => TaskEnabled(s, i, task)
  }

  function SendStep(s: State, q: nat, frame: Frame): State
    requires q < |s.queues|
  {
    s.(queues := s.queues[q := s.queues[q].(accepted := s.queues[q].accepted + [frame])])
  }

  function Apply(s: State, step: Step): State
    requires Enabled(s, step)
  {
    match step
    case CallBegin(c, addr) => s.(callers := s.callers[c := AtLock(addr, s.actual)])
    case CallLock(c) => CallLockStep(s, c)
    case CallPublish(c) => CallPublishStep(s, c)
    case CallCheck(c) => CallCheckStep(s, c)
    case DropHandle => s.(watch := s.watch.(closed := true))
    case Send(q, frame) => SendStep(s, q, frame)
    case Drive(e) => DriverStep(s, e)
    case Run(i, task) => RunStep(s, i, task)
  }

  /** A run: states joined by enabled steps, from the initial state. */
  ghost predicate IsRun(states: seq<State>, steps: seq<Step>) {
    && |states| == |steps| + 1
    && states[0] == Init(states[0].autoReconnect)
    && forall k :: 0 <= k < |steps| ==> Enabled(states[k], steps[k]) && states[k + 1] == Apply(states[k], steps[k])
  }
}
