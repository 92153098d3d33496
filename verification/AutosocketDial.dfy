/** When the driver dials, dials again, or gives up, over every run. */
module AutosocketDial {
  import opened Common
  import opened AutosocketModel
  import opened AutosocketInvariants
  import opened AutosocketProgress
  import opened AutosocketPace

  // ---------------------------------------------------------------- who dials again

  /** The driver waits to dial again only with auto-reconnect, and for a readdress after an end only without. */
  ghost predicate RetryFits(s: State) {
    && (s.driver.Delay? ==> s.autoReconnect)
    && (s.driver.WaitChange? || s.driver.BadUrl? ==> !s.autoReconnect)
  }

  lemma {:induction false} RetriesByFlag(states: seq<State>, steps: seq<Step>, k: nat)
    requires IsRun(states, steps) && k < |states|
    ensures RetryFits(states[k]) && states[k].autoReconnect == states[0].autoReconnect
  {
    if k > 0 {
      RetriesByFlag(states, steps, k - 1);
      RetryKept(states[k - 1], steps[k - 1]);
    }
  }

  /** Driver steps still to come before the next attempt, from where a connection or session has ended. */
  function ToAttempt(driver: Driver): nat {
    match driver
    case ConnectFailed(_, _) => 3
    case SessionEnded(_) => 3
    case ReadyLost(_, _) => 3
    case ReadyLostSet(_, _) => 2
    case Delay(_, _) => 2
    case Attempt(_, _) => 1
    case _ => 0
  }

  /** The driver has an ended connection or session behind it, and nothing unseen. */
  ghost predicate Down(s: State) {
    ToAttempt(s.driver) > 0 && s.autoReconnect && !s.watch.closed && s.watch.seen == s.watch.version
  }

  /** The status says that a connection to the address in the control record is under way. */
  predicate Dials(s: State) {
    && s.control.addr.Some?
    && (s.actual == Connecting(s.control.addr.value) || s.actual == Reconnecting(s.control.addr.value))
  }

  /** There always is a step to take, and whichever the driver takes leads on to the next attempt. */
  lemma DownLeadsOn(s: State, e: DriverEvent)
    requires Inv(s) && Down(s)
    ensures exists f :: DriverEnabled(s, f)
    ensures DriverEnabled(s, e) ==>
              var t := DriverStep(s, e);
              && t.autoReconnect == s.autoReconnect && t.watch == s.watch && t.control == s.control
              && if ToAttempt(s.driver) == 1 then Dials(t) else ToAttempt(t.driver) == ToAttempt(s.driver) - 1
  {
    if s.driver.ReadyLost? {
      assert LastFinished(s);
      assert DriverEnabled(s, SessionDone);
    } else if s.driver.Delay? {
      assert DriverEnabled(s, Elapsed);
    } else {
      assert HeldFits(s, HeldBy(s.driver).value);
      assert DriverEnabled(s, Go);
    }
  }

  /** Steps of the driver among steps `from..until`. */
  function DriverSteps(steps: seq<Step>, from: nat, until: nat): nat
    requires from <= until <= |steps|
  {
    if from == until then 0 else DriverSteps(steps, from, until - 1) + if steps[until - 1].Drive? then 1 else 0
  }

  lemma {:induction false} FirstStep(steps: seq<Step>, from: nat, until: nat)
    requires from < until <= |steps|
    ensures DriverSteps(steps, from, until)
            == DriverSteps(steps, from + 1, until) + if steps[from].Drive? then 1 else 0
    decreases until
  {
    if from + 1 < until { FirstStep(steps, from, until - 1); }
  }

  /** Step `m` is an attempt, and the status says so. */
  ghost predicate AttemptAt(states: seq<State>, steps: seq<Step>, m: nat) {
    m < |steps| < |states| && steps[m].Drive? && states[m].driver.Attempt? && Dials(states[m + 1])
  }

  /**
   With auto-reconnect, from every end of a connection or session, unless the socket is readdressed or dropped: by
   the third step of the driver it dials the current address again, and says so, whatever else goes on meanwhile.
   */
  lemma {:induction false} DialsAgain(states: seq<State>, steps: seq<Step>, from: nat, until: nat) returns (m: nat)
    requires IsRun(states, steps) && from <= until <= |steps| && Down(states[from])
    requires forall k :: from <= k < until ==> LeavesAddress(states[k], steps[k])
    requires DriverSteps(steps, from, until) >= ToAttempt(states[from].driver)
    ensures from <= m < until && AttemptAt(states, steps, m)
    decreases until - from
  {
    var s, t := states[from], states[from + 1];
    RunInv(states, steps, from);
    FirstStep(steps, from, until);
    if steps[from].Drive? {
      DownLeadsOn(s, steps[from].event);
      if ToAttempt(s.driver) == 1 {
        m := from;
      } else {
        m := DialsAgain(states, steps, from + 1, until);
      }
    } else {
      StaysDown(s, steps[from]);
      m := DialsAgain(states, steps, from + 1, until);
    }
  }

  lemma StaysDown(s: State, step: Step)
    requires Inv(s) && Down(s) && Enabled(s, step) && LeavesAddress(s, step) && !step.Drive?
    ensures Down(Apply(s, step)) && Apply(s, step).driver == s.driver
  {
    InvKept(s, step);
    OnlyDropCloses(s, step);
  }

  /** Without auto-reconnect a driver that gave up dials no more, unless the socket is readdressed or dropped. */
  lemma {:induction false} GivesUp(states: seq<State>, steps: seq<Step>, from: nat, until: nat)
    requires IsRun(states, steps) && from <= until <= |steps|
    requires states[from].driver.WaitChange? && !states[from].watch.closed
    requires states[from].watch.seen == states[from].watch.version
    requires forall k :: from <= k < until ==> LeavesAddress(states[k], steps[k])
    ensures GaveUp(states[until]) && states[until].driver == states[from].driver
    decreases until
  {
    if from < until {
      GivesUp(states, steps, from, until - 1);
      RunInv(states, steps, until - 1);
      StaysGivenUp(states[until - 1], steps[until - 1]);
    } else {
      RunInv(states, steps, from);
    }
  }

  ghost predicate GaveUp(s: State) {
    s.driver.WaitChange? && s.actual == Disconnected && !s.watch.closed && s.watch.seen == s.watch.version
  }

  lemma StaysGivenUp(s: State, step: Step)
    requires WatchMirrorsControl(s) && GaveUp(s) && Enabled(s, step) && LeavesAddress(s, step)
    ensures GaveUp(Apply(s, step)) && Apply(s, step).driver == s.driver
  {
    WatchMirrorsControlKept(s, step);
    OnlyDropCloses(s, step);
  }

  /** Whoever waits after a failed connect or an ended session says so; only a bad address keeps its status. */
  lemma FailureIsShown(states: seq<State>, steps: seq<Step>, k: nat)
    requires IsRun(states, steps) && k < |steps|
    requires steps[k].Drive? && (states[k + 1].driver.Delay? || states[k + 1].driver.WaitChange?)
    ensures states[k].driver.Parse? || states[k + 1].actual == Disconnected
  {
    RunInv(states, steps, k);
    FailureShows(states[k], steps[k].event);
  }

  lemma FailureShows(s: State, e: DriverEvent)
    requires DriverEnabled(s, e) && (DriverStep(s, e).driver.Delay? || DriverStep(s, e).driver.WaitChange?)
    ensures s.driver.Parse? || DriverStep(s, e).actual == Disconnected
  {
  }

  // ---------------------------------------------------------------- a connection can be had

  /** The step towards a connection, when the peer and the network play along. */
  function NextToward(s: State): Step {
    match s.driver
    case Parse(_, _) => Drive(UrlOk)
    case Connect(_, _) => Drive(ConnectOk)
    case Delay(_, _) => Drive(Elapsed)
    case ReadyLost(_, _) => Drive(SessionDone)
    case AwaitReady(_, _) =>
      if LastReady(s, Lost) then Drive(ReadyDropped)
      else if LastReady(s, Sent) then Drive(ReadyArrived)
      else if |s.sessions| > 0 && s.sessions[|s.sessions| - 1].reader.ReaderUnborn? then Run(|s.sessions| - 1, Start)
      else if |s.sessions| > 0 then Run(|s.sessions| - 1, SignalReady)
      else Drive(Go)
    case _ => Drive(Go)
  }

  function ToConnected(s: State): nat {
    match s.driver
    case ConnectFailed(_, _) => 19
    case SessionEnded(_) => 19
    case AwaitReady(_, _) =>
      if LastReady(s, Lost) then 20
      else if LastReady(s, Sent) then 3
      else if |s.sessions| > 0 && s.sessions[|s.sessions| - 1].reader.ReaderUnborn? then 5
      else 4
    case ReadyLost(_, _) => 19
    case ReadyLostSet(_, _) => 18
    case Delay(_, _) => 18
    case Attempt(_, _) => 10
    case Parse(_, _) => 9
    case Connect(_, _) => 8
    case CheckConnected(_, _) => 7
    case SpawnSession(_, _) => 6
    case CheckReady(_, _) => 2
    case SetConnected(_) => 1
    case _ => 0
  }

  /** The driver works for the current address. */
  ghost predicate AtWork(s: State) {
    && Inv(s) && RetryFits(s) && s.autoReconnect && !s.watch.closed && Current(s) && HeldBy(s.driver).Some?
  }

  lemma NextTowardHelps(s: State)
    requires AtWork(s) && !s.driver.Live?
    ensures var step := NextToward(s);
            && Enabled(s, step) && AtWork(Apply(s, step)) && Apply(s, step).control == s.control
            && ToConnected(Apply(s, step)) < ToConnected(s)
  {
    NextTowardEnabled(s);
    InvKept(s, NextToward(s));
    RetryKept(s, NextToward(s));
    if s.driver.AwaitReady? { AwaitingMoves(s); } else { DrivenMoves(s); }
  }

  lemma AwaitingMoves(s: State)
    requires AtWork(s) && s.driver.AwaitReady? && Enabled(s, NextToward(s))
    ensures MovesToward(s, Apply(s, NextToward(s)))
  {
    if |s.sessions| > 0 { assert SessionFits(s, s.sessions[|s.sessions| - 1]); }
  }

  lemma DrivenMoves(s: State)
    requires AtWork(s) && !s.driver.AwaitReady? && !s.driver.Live? && Enabled(s, NextToward(s))
    ensures MovesToward(s, Apply(s, NextToward(s)))
  {
    assert HeldFits(s, HeldBy(s.driver).value);
  }

  predicate MovesToward(s: State, t: State) {
    && t.watch == s.watch && t.control == s.control && Current(t) && HeldBy(t.driver).Some?
    && ToConnected(t) < ToConnected(s)
  }

  lemma NextTowardEnabled(s: State)
    requires AtWork(s) && !s.driver.Live?
    ensures Enabled(s, NextToward(s))
  {
    assert HeldFits(s, HeldBy(s.driver).value);
    if |s.sessions| > 0 { assert SessionFits(s, s.sessions[|s.sessions| - 1]); }
  }

  ghost predicate Connects(s: State, steps: seq<Step>, t: State) {
    Leads(s, steps, t) && t.driver.Live? && t.control == s.control && AtWork(t)
  }

  lemma {:induction false} Connect(s: State) returns (steps: seq<Step>, t: State)
    requires AtWork(s)
    ensures Connects(s, steps, t)
    decreases ToConnected(s), if s.driver.Live? then 0 else 1
  {
    if s.driver.Live? {
      steps, t := [], s;
    } else {
      NextTowardHelps(s);
      var rest;
      rest, t := Connect(Apply(s, NextToward(s)));
      steps := [NextToward(s)] + rest;
      assert steps[1..] == rest;
    }
  }

  /**
   From every reachable state of an auto-reconnecting socket with an address the driver and a session can get it
   connected to that address.
   */
  lemma CanConnect(states: seq<State>, steps: seq<Step>, k: nat) returns (more: seq<Step>, t: State)
    requires IsRun(states, steps) && k < |states|
    requires states[k].autoReconnect && !states[k].watch.closed && states[k].control.addr.Some?
    ensures Leads(states[k], more, t) && t.driver.Live? && t.control == states[k].control
    ensures t.actual == Connected(states[k].control.addr.value)
  {
    RunInv(states, steps, k);
    RetriesByFlag(states, steps, k);
    var first, mid := CatchUp(states[k]);
    LeadsKeeps(states[k], first, mid);
    var second;
    second, t := Connect(mid);
    LeadsOn(states[k], first, mid, second, t);
    more := first + second;
  }

  lemma {:induction false} LeadsKeeps(s: State, steps: seq<Step>, t: State)
    requires Inv(s) && RetryFits(s) && Leads(s, steps, t)
    requires forall k :: 0 <= k < |steps| ==> Internal(steps[k])
    ensures Inv(t) && RetryFits(t) && t.autoReconnect == s.autoReconnect && t.watch.closed == s.watch.closed
    decreases |steps|
  {
    if steps != [] {
      InvKept(s, steps[0]);
      RetryKept(s, steps[0]);
      LeadsKeeps(Apply(s, steps[0]), steps[1..], t);
    }
  }

  lemma RetryKept(s: State, step: Step)
    requires RetryFits(s) && Enabled(s, step)
    ensures RetryFits(Apply(s, step)) && Apply(s, step).autoReconnect == s.autoReconnect
    ensures Internal(step) ==> Apply(s, step).watch.closed == s.watch.closed
  {
  }

  lemma {:induction false} LeadsOn(s: State, a: seq<Step>, u: State, b: seq<Step>, t: State)
    requires Leads(s, a, u) && Leads(u, b, t)
    ensures Leads(s, a + b, t)
    decreases |a|
  {
    if a == [] {
      assert a + b == b;
    } else {
      LeadsOn(Apply(s, a[0]), a[1..], u, b, t);
      assert (a + b)[1..] == a[1..] + b;
    }
  }

  // ---------------------------------------------------------------- which attempt it is

  /** Attempts since the driver last took up a generation or was connected. */
  function Attempts(states: seq<State>, steps: seq<Step>, k: nat): nat
    requires k <= |steps| <= |states|
  {
    if k == 0 then 0
    else
      var before := Attempts(states, steps, k - 1);
      if !steps[k - 1].Drive? then before
      else if states[k - 1].driver.Borrow? || states[k - 1].driver.SetConnected? then 0
      else if states[k - 1].driver.Attempt? then before + 1
      else before
  }

  /** The driver is in the middle of an attempt. */
  predicate InAttempt(driver: Driver) {
    || driver.Parse? || driver.BadUrl? || driver.Connect? || driver.ConnectFailed? || driver.CheckConnected?
    || driver.SpawnSession? || driver.AwaitReady? || driver.ReadyLost? || driver.ReadyLostSet? || driver.CheckReady?
    || driver.SetConnected?
  }

  /** The count the driver keeps, where it keeps one; it stops at its largest value. */
  predicate CountFits(driver: Driver, attempts: nat) {
    var count := if attempts < MAX_ATTEMPT then attempts else MAX_ATTEMPT;
    match driver
    case Attempt(_, n) => n == count
    case Parse(_, n) => n == count
    case Connect(_, n) => n == count
    case ConnectFailed(_, n) => n == count
    case Delay(_, n) => n == count
    case CheckConnected(_, n) => n == count
    case SpawnSession(_, n) => n == count
    case AwaitReady(_, n) => n == count
    case ReadyLost(_, n) => n == count
    case ReadyLostSet(_, n) => n == count
    case CheckReady(_, n) => n == count
    case Live(_) => attempts == 0
    case SessionEnded(_) => attempts == 0
    case _ => true
  }

  ghost predicate AttemptFits(s: State, attempts: nat) {
    && CountFits(s.driver, attempts)
    && (InAttempt(s.driver) ==>
          && attempts > 0 && HeldBy(s.driver).Some? && HeldBy(s.driver).value.addr.Some?
          && var addr := HeldBy(s.driver).value.addr.value;
             s.actual == if attempts == 1 then Connecting(addr) else Reconnecting(addr))
  }

  lemma {:induction false} AttemptFitsInEveryRun(states: seq<State>, steps: seq<Step>, k: nat)
    requires IsRun(states, steps) && k <= |steps|
    ensures AttemptFits(states[k], Attempts(states, steps, k))
  {
    if k > 0 {
      AttemptFitsInEveryRun(states, steps, k - 1);
      AttemptFitsKept(states[k - 1], steps[k - 1], Attempts(states, steps, k - 1), Attempts(states, steps, k));
    }
  }

  lemma AttemptFitsKept(s: State, step: Step, before: nat, after: nat)
    requires AttemptFits(s, before) && Enabled(s, step)
    requires after == if !step.Drive? then before
                      else if s.driver.Borrow? || s.driver.SetConnected? then 0
                      else if s.driver.Attempt? then before + 1
                      else before
    ensures AttemptFits(Apply(s, step), after)
  {
    if step.Drive? {
      AttemptFitsDriven(s, step.event, before, after);
    } else {
      assert Apply(s, step).driver == s.driver && Apply(s, step).actual == s.actual;
    }
  }

  lemma AttemptFitsDriven(s: State, e: DriverEvent, before: nat, after: nat)
    requires AttemptFits(s, before) && DriverEnabled(s, e)
    requires after == if s.driver.Borrow? || s.driver.SetConnected? then 0
                      else if s.driver.Attempt? then before + 1
                      else before
    ensures AttemptFits(DriverStep(s, e), after)
  {
  }

  /**
   In the middle of an attempt the status names the address worked for: as connecting on the first attempt since the
   driver took up the generation or was connected, as reconnecting on every later one.
   */
  lemma StatusCountsAttempts(states: seq<State>, steps: seq<Step>, k: nat)
    requires IsRun(states, steps) && k <= |steps| && InAttempt(states[k].driver)
    ensures var d, attempts := HeldBy(states[k].driver), Attempts(states, steps, k);
            && d.Some? && d.value.addr.Some? && attempts > 0
            && states[k].actual == if attempts == 1 then Connecting(d.value.addr.value)
                                   else Reconnecting(d.value.addr.value)
  {
    AttemptFitsInEveryRun(states, steps, k);
  }

  // ---------------------------------------------------------------- late connections

  /**
   A finished handshake is used only for the current generation: neither a session nor the connected status is ever
   started for one that has been replaced by then, and for the current one each is.
   */
  lemma LateConnectionsAreDropped(states: seq<State>, steps: seq<Step>, k: nat)
    requires IsRun(states, steps) && k < |steps| && steps[k].Drive?
    ensures UsedOnlyIfCurrent(states[k], states[k + 1])
  {
    RunInv(states, steps, k);
    ConnectionUsed(states[k], steps[k].event);
  }

  /** The driver goes on from a finished handshake, and only from one, exactly if it is for the current generation. */
  predicate UsedOnlyIfCurrent(s: State, t: State) {
    && (s.driver.CheckConnected? ==> (t.driver.SpawnSession? <==> s.driver.d.generation == s.control.generation))
    && (s.driver.CheckReady? ==> (t.driver.SetConnected? <==> s.driver.d.generation == s.control.generation))
    && (t.driver.SpawnSession? ==> s.driver.CheckConnected?)
    && (t.driver.SetConnected? ==> s.driver.CheckReady?)
  }

  lemma ConnectionUsed(s: State, e: DriverEvent)
    requires WatchMirrorsControl(s) && DriverEnabled(s, e)
    ensures UsedOnlyIfCurrent(s, DriverStep(s, e))
  {
  }

  /** A teardown after which the driver goes on is of a generation that has been replaced. */
  ghost predicate TeardownFits(s: State) {
    s.driver.Teardown? && !s.driver.exit ==> s.driver.d.generation < s.control.generation
  }

  lemma TeardownFitsKept(s: State, step: Step)
    requires WatchMirrorsControl(s) && DriverFits(s) && TeardownFits(s) && Enabled(s, step)
    ensures TeardownFits(Apply(s, step))
  {
    if !step.Drive? { assert Apply(s, step).driver == s.driver; }
  }

  lemma {:induction false} TeardownsAreOld(states: seq<State>, steps: seq<Step>, k: nat)
    requires IsRun(states, steps) && k < |states|
    ensures TeardownFits(states[k])
  {
    if k > 0 {
      TeardownsAreOld(states, steps, k - 1);
      RunInv(states, steps, k - 1);
      TeardownFitsKept(states[k - 1], steps[k - 1]);
    }
  }

  /** The generation the driver works for or tears down. */
  function WorkOf(driver: Driver): Option<nat> {
    if driver.Teardown? then Some(driver.d.generation)
    else if HeldBy(driver).Some? then Some(HeldBy(driver).value.generation)
    else None
  }

  /** The driver drops a generation only for a newer one, or to exit; a failure does not make it start over. */
  lemma DroppedOnlyWhenReplaced(states: seq<State>, steps: seq<Step>, k: nat)
    requires IsRun(states, steps) && k < |steps|
    ensures DropFits(states[k], states[k + 1])
  {
    RunInv(states, steps, k);
    TeardownsAreOld(states, steps, k);
    if steps[k].Drive? { DriverDrops(states[k], steps[k].event); } else { OthersKeepDriver(states[k], steps[k]); }
  }

  predicate DropFits(s: State, t: State) {
    WorkOf(s.driver).Some? && WorkOf(t.driver) != WorkOf(s.driver) ==>
      || (t.driver.Borrow? && WorkOf(s.driver).value < t.control.generation)
      || (t.driver.Exited? && s.watch.closed)
  }

  lemma OthersKeepDriver(s: State, step: Step)
    requires Enabled(s, step) && !step.Drive?
    ensures Apply(s, step).driver == s.driver
  {
  }

  lemma DriverDrops(s: State, e: DriverEvent)
    requires WatchMirrorsControl(s) && DriverFits(s) && TeardownFits(s) && DriverEnabled(s, e)
    ensures DropFits(s, DriverStep(s, e))
  {
    if HasSession(s.driver) { AttachedDrops(s, e); } else { LooseDrops(s, e); }
  }

  lemma AttachedDrops(s: State, e: DriverEvent)
    requires WatchMirrorsControl(s) && DriverFits(s) && TeardownFits(s) && DriverEnabled(s, e) && HasSession(s.driver)
    ensures DropFits(s, DriverStep(s, e))
  {
  }

  lemma LooseDrops(s: State, e: DriverEvent)
    requires WatchMirrorsControl(s) && DriverFits(s) && DriverEnabled(s, e) && !HasSession(s.driver)
    ensures DropFits(s, DriverStep(s, e))
  {
  }

  /** Once it has noticed that the handle is gone the driver exits, right away or after its session's end. */
  lemma ClosedDriverExits(states: seq<State>, steps: seq<Step>, k: nat)
    requires IsRun(states, steps) && k < |steps|
    ensures steps[k] == Drive(SeeClosed) ==> var d := states[k + 1].driver; d.Exited? || (d.Teardown? && d.exit)
    ensures states[k].driver.Teardown? && states[k].driver.exit && steps[k].Drive? ==> states[k + 1].driver.Exited?
    ensures states[k].driver.Exited? ==> states[k + 1].driver.Exited?
  {
  }

  // ---------------------------------------------------------------- when set_addr returns early

  /** The status says that a connection to this address stands or is under way. */
  predicate Serves(status: Status, a: Addr) {
    status == Connecting(a) || status == Reconnecting(a) || status == Connected(a)
  }

  /** The actual status a caller read is one the socket had since. */
  lemma {:induction false} ObservedWasActual(states: seq<State>, steps: seq<Step>, k: nat, c: nat) returns (b: nat)
    requires IsRun(states, steps) && k < |states| && c in states[k].callers && states[k].callers[c].AtLock?
    ensures b < k && steps[b] == CallBegin(c, states[k].callers[c].addr)
    ensures states[b].actual == states[k].callers[c].observed
  {
    if c in states[k - 1].callers && states[k - 1].callers[c].AtLock? {
      b := ObservedWasActual(states, steps, k - 1, c);
    } else {
      b := k - 1;
    }
  }

  /**
   A `set_addr` call returns early, starting no generation, exactly when its address is the current one and the
   status it had read says that a connection to it stands or is under way.
   */
  lemma EarlyReturnIff(states: seq<State>, steps: seq<Step>, k: nat)
    requires IsRun(states, steps) && k < |steps| && steps[k].CallLock?
    ensures var c := states[k].callers[steps[k].c];
            && (states[k + 1].control == states[k].control <==>
                  c.addr.Some? && states[k].control.addr == c.addr && Serves(c.observed, c.addr.value))
            && (states[k + 1].control != states[k].control ==>
                  && states[k + 1].control.generation == states[k].control.generation + 1
                  && states[k + 1].control.addr == c.addr)
  {
  }
}
