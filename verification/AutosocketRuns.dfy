/** What the socket promises over whole runs, for every interleaving. */
module AutosocketRuns {
  import opened Common
  import opened AutosocketModel
  import opened AutosocketInvariants

  // ---------------------------------------------------------------- set_addr

  /** Once no caller is past its lock section, the intended status is that of the final address. */
  lemma IntendedSettles(states: seq<State>, steps: seq<Step>, k: nat)
    requires IsRun(states, steps) && k < |states|
    requires forall c :: c in states[k].callers ==> states[k].callers[c].AtLock?
    ensures states[k].control.addr.None? ==> states[k].intended == Idle
    ensures forall a :: states[k].control.addr == Some(a) ==> states[k].intended == Connected(a)
  {
    RunInv(states, steps, k);
  }

  /** Number of generation bumps among steps `from..to`. */
  ghost function Bumps(states: seq<State>, from: nat, to: nat): int
    requires from <= to < |states|
  {
    states[to].control.generation - states[from].control.generation
  }

  /** A caller's loop never goes round more often than other callers have bumped the generation since its own bump. */
  lemma LoopTurnsArePaid(states: seq<State>, steps: seq<Step>, from: nat, k: nat, c: nat)
    requires IsRun(states, steps) && from <= k < |states|
    requires c in states[k].callers && !states[k].callers[c].AtLock?
    requires states[from].control.generation == states[k].callers[c].own
    ensures states[k].callers[c].turns <= Bumps(states, from, k)
  {
    RunInv(states, steps, k);
    assert CallerFits(states[k], states[k].callers[c]);
  }

  // ---------------------------------------------------------------- driver

  predicate NamesOther(status: Status, addr: Option<Addr>) {
    (status.Connected? || status.Connecting? || status.Reconnecting?) && addr != Some(status.addr)
  }

  /** A driver listening with nothing unseen works for the current generation and names no other address. */
  lemma NoReaddressLost(states: seq<State>, steps: seq<Step>, k: nat)
    requires IsRun(states, steps) && k < |states| && Listening(states[k].driver)
    ensures var s := states[k];
      if s.watch.seen < s.watch.version
      then DriverEnabled(s, SeeChange)
      else !NamesOther(s.actual, s.control.addr)
           && (HeldBy(s.driver).Some? ==> HeldBy(s.driver).value == s.watch.value)
           && (HeldBy(s.driver).None? ==> s.control.addr.None? && s.actual == Idle)
  {
    RunInv(states, steps, k);
  }

  /** Every connection attempt uses the value of the last version the driver saw. */
  lemma ConnectsAreFresh(states: seq<State>, steps: seq<Step>, k: nat)
    requires IsRun(states, steps) && k < |states| && HeldBy(states[k].driver).Some?
    ensures HeldBy(states[k].driver).value.generation == states[k].watch.seen
  {
    RunInv(states, steps, k);
  }

  /** A connected driver with nothing unseen serves the current generation through a session of that generation. */
  lemma LiveServesCurrent(states: seq<State>, steps: seq<Step>, k: nat)
    requires IsRun(states, steps) && k < |states| && states[k].driver.Live?
    requires states[k].watch.seen == states[k].watch.version
    ensures var s := states[k];
      && s.control.addr.Some? && s.actual == Connected(s.control.addr.value)
      && |s.sessions| > 0
      && s.sessions[|s.sessions| - 1].generation == s.control.generation
      && s.sessions[|s.sessions| - 1].queue == s.control.outgoing
  {
    RunInv(states, steps, k);
    assert SessionFits(states[k], states[k].sessions[|states[k].sessions| - 1]);
  }

  // ---------------------------------------------------------------- outgoing frames

  /** Frames of queue `g` on the wire, oldest first, over all sessions. */
  ghost function WireFrames(s: State, n: nat, g: nat): seq<Frame>
    requires n <= |s.wire| && WireReadable(s)
  {
    if n == 0 then []
    else
      WireFrames(s, n - 1, g) +
      if s.wire[n - 1].queue == g then [s.queues[g].accepted[s.wire[n - 1].idx]] else []
  }

  ghost predicate WireReadable(s: State) {
    forall k :: 0 <= k < |s.wire| ==>
      s.wire[k].queue < |s.queues| && s.wire[k].idx < |s.queues[s.wire[k].queue].accepted|
  }

  /** One of the first `n` frames on the wire is frame `idx` of queue `g`. */
  ghost predicate OnWire(s: State, n: nat, g: nat, idx: nat)
    requires n <= |s.wire|
  {
    exists k :: 0 <= k < n && s.wire[k].queue == g && s.wire[k].idx == idx
  }

  lemma LaterOnWire(s: State, n: nat, g: nat, idx: nat)
    requires WireInOrder(s) && 0 < n <= |s.wire| && s.wire[n - 1].queue == g && OnWire(s, n - 1, g, idx)
    ensures idx < s.wire[n - 1].idx
  {
  }

  lemma {:induction false} WireFramesAt(s: State, n: nat, g: nat) returns (at: seq<nat>)
    requires WireInOrder(s) && n <= |s.wire| && g < |s.queues| && WireReadable(s)
    ensures SubsequenceAt(WireFrames(s, n, g), s.queues[g].accepted, at)
    ensures forall j :: 0 <= j < |at| ==> OnWire(s, n, g, at[j])
  {
    if n == 0 {
      at := [];
    } else {
      var before := WireFramesAt(s, n - 1, g);
      at := before;
      if s.wire[n - 1].queue == g {
        forall j | 0 <= j < |before| ensures before[j] < s.wire[n - 1].idx { LaterOnWire(s, n, g, before[j]); }
        at := before + [s.wire[n - 1].idx];
        AppendSubsequence(WireFrames(s, n - 1, g), s.queues[g].accepted, before, s.wire[n - 1].idx);
      }
      forall j | 0 <= j < |at| ensures OnWire(s, n, g, at[j]) {
        if j < |before| { assert OnWire(s, n - 1, g, before[j]); }
      }
    }
  }

  lemma AppendSubsequence<T>(a: seq<T>, b: seq<T>, at: seq<nat>, idx: nat)
    requires SubsequenceAt(a, b, at) && idx < |b| && forall j :: 0 <= j < |at| ==> at[j] < idx
    ensures SubsequenceAt(a + [b[idx]], b, at + [idx])
  {
  }

  lemma WireIsReadable(s: State)
    requires WireInOrder(s)
    ensures WireReadable(s)
  {
    forall k | 0 <= k < |s.wire|
      ensures s.wire[k].queue < |s.queues| && s.wire[k].idx < |s.queues[s.wire[k].queue].accepted|
    {
      assert WireEntryFits(s, s.wire[k]);
    }
  }

  /**
   The frames written in generation `g`, across all its reconnects, are the frames accepted into its queue
   with some left out: same order, none twice.
   */
  lemma WrittenInOrderOnce(states: seq<State>, steps: seq<Step>, k: nat, g: nat)
    requires IsRun(states, steps) && k < |states| && g < |states[k].queues|
    ensures WireReadable(states[k])
    ensures Subsequence(WireFrames(states[k], |states[k].wire|, g), states[k].queues[g].accepted)
  {
    RunInv(states, steps, k);
    WireIsReadable(states[k]);
    var at := WireFramesAt(states[k], |states[k].wire|, g);
  }

  /** No frame of one generation's queue reaches a session of another, and two sessions are never alive at once. */
  lemma SessionsDoNotMix(states: seq<State>, steps: seq<Step>, k: nat)
    requires IsRun(states, steps) && k < |states|
    ensures var s := states[k];
      && (forall e :: 0 <= e < |s.wire| ==>
            s.wire[e].session < |s.sessions| && s.sessions[s.wire[e].session].generation == s.wire[e].queue)
      && (forall i, j :: Alive(s, i) && Alive(s, j) ==> i == j)
  {
    RunInv(states, steps, k);
    var s := states[k];
    forall i, j | Alive(s, i) && Alive(s, j) ensures i == j { AtMostOneAlive(s, i, j); }
    forall e | 0 <= e < |s.wire|
      ensures s.wire[e].session < |s.sessions| && s.sessions[s.wire[e].session].generation == s.wire[e].queue
    {
      assert WireEntryFits(s, s.wire[e]);
      assert SessionFits(s, s.sessions[s.wire[e].session]);
    }
  }

  // ---------------------------------------------------------------- incoming frames

  /** Once a generation is current, nothing enqueued later carries the tag of an earlier one. */
  lemma {:induction false} NoStaleInbound(states: seq<State>, steps: seq<Step>, i: nat, j: nat)
    requires IsRun(states, steps) && i <= j < |states|
    ensures states[i].incoming <= states[j].incoming
    ensures forall k :: |states[i].incoming| <= k < |states[j].incoming| ==>
              states[j].incoming[k].generation >= states[i].control.generation
    ensures states[i].control.generation <= states[j].control.generation
    decreases j
  {
    if i < j {
      NoStaleInbound(states, steps, i, j - 1);
      IncomingGrowth(states[j - 1], steps[j - 1]);
    }
  }

  /** Tags on the incoming queue never decrease. */
  lemma InboundTagsNeverDecrease(states: seq<State>, steps: seq<Step>, k: nat)
    requires IsRun(states, steps) && k < |states|
    ensures forall a, b :: 0 <= a < b < |states[k].incoming| ==>
              states[k].incoming[a].generation <= states[k].incoming[b].generation
  {
    RunInv(states, steps, k);
  }

  // ---------------------------------------------------------------- a stale status during teardown

  /**
   The claim of `NoReaddressLost` does not extend to every await.  While the driver waits for a cancelled
   session to end it has consumed the change already, and `actual_status` still names the old address.
   */
  ghost predicate StaleDuringTeardown(s: State) {
    s.driver.Teardown? && s.watch.seen == s.watch.version && NamesOther(s.actual, s.control.addr)
  }

  /** A run grows by any enabled step. */
  lemma Extend(states: seq<State>, steps: seq<Step>, step: Step) returns (states': seq<State>, steps': seq<Step>)
    requires IsRun(states, steps) && Enabled(states[|states| - 1], step)
    ensures IsRun(states', steps') && |states'| == |states| + 1
    ensures states'[|states'| - 1] == Apply(states[|states| - 1], step)
  {
    states' := states + [Apply(states[|states| - 1], step)];
    steps' := steps + [step];
  }

  ghost predicate HandshakeToA(s: State) {
    && s.driver.AwaitReady? && s.callers == map[] && !s.watch.closed
    && s.watch.seen == s.watch.version && s.control.addr == Some("a") && s.actual == Connecting("a")
  }

  /** A driver whose session to "a" has just been spawned, with no caller in progress. */
  lemma HandshakeExample() returns (states: seq<State>, steps: seq<Step>)
    ensures IsRun(states, steps) && HandshakeToA(states[|states| - 1])
  {
    states, steps := [Init(true)], [];
    states, steps := Extend(states, steps, CallBegin(0, Some("a")));
    states, steps := Extend(states, steps, CallLock(0));
    states, steps := Extend(states, steps, CallPublish(0));
    states, steps := Extend(states, steps, CallCheck(0));
    var s := states[|states| - 1];
    assert s.callers == map[] && s.driver == Borrow && s.control.addr == Some("a");
    states, steps := ConnectExample(states, steps);
  }

  lemma ConnectExample(states0: seq<State>, steps0: seq<Step>) returns (states: seq<State>, steps: seq<Step>)
    requires IsRun(states0, steps0)
    requires var s := states0[|states0| - 1];
      s.driver.Borrow? && s.control.addr == Some("a") && s.callers == map[] && !s.watch.closed
    ensures IsRun(states, steps) && HandshakeToA(states[|states| - 1])
  {
    RunInv(states0, steps0, |states0| - 1);
    states, steps := Extend(states0, steps0, Drive(Go));
    states, steps := Extend(states, steps, Drive(Go));
    assert states[|states| - 1].actual == Connecting("a");
    states, steps := SpawnExample(states, steps);
  }

  ghost predicate ParsingA(s: State) {
    && s.driver.Parse? && s.callers == map[] && !s.watch.closed
    && s.watch.seen == s.watch.version && s.control.addr == Some("a") && s.actual == Connecting("a")
  }

  lemma SpawnExample(states0: seq<State>, steps0: seq<Step>) returns (states: seq<State>, steps: seq<Step>)
    requires IsRun(states0, steps0) && ParsingA(states0[|states0| - 1])
    ensures IsRun(states, steps) && HandshakeToA(states[|states| - 1])
  {
    RunInv(states0, steps0, |states0| - 1);
    states, steps := Extend(states0, steps0, Drive(UrlOk));
    states, steps := Extend(states, steps, Drive(ConnectOk));
    states, steps := Extend(states, steps, Drive(Go));
    states, steps := Extend(states, steps, Drive(Go));
  }

  /** Such a moment is reachable: a session to "a" is being set up, then "b" is asked for. */
  lemma StaleDuringTeardownHappens()
    ensures exists states, steps :: IsRun(states, steps) && StaleDuringTeardown(states[|states| - 1])
  {
    var states, steps := HandshakeExample();
    states, steps := Extend(states, steps, CallBegin(0, Some("b")));
    states, steps := Extend(states, steps, CallLock(0));
    states, steps := Extend(states, steps, Drive(SeeChange));
    assert StaleDuringTeardown(states[|states| - 1]);
  }

  /** During a teardown the status names an old address if and only if the readdress changed the address. */
  lemma TeardownIsStaleIff(states: seq<State>, steps: seq<Step>, k: nat)
    requires IsRun(states, steps) && k < |states| && states[k].driver.Teardown?
    ensures NamesOther(states[k].actual, states[k].control.addr) <==> states[k].control.addr != states[k].driver.d.addr
  {
    RunInv(states, steps, k);
  }

  /** Apart from a teardown, a stale status with nothing unseen is seen only where the driver is not waiting. */
  lemma StaleStatusOnlyBetweenGenerations(states: seq<State>, steps: seq<Step>, k: nat)
    requires IsRun(states, steps) && k < |states|
    requires states[k].watch.seen == states[k].watch.version && NamesOther(states[k].actual, states[k].control.addr)
    ensures states[k].driver.Teardown? || states[k].driver.Borrow? || states[k].driver.SetIdle?
            || states[k].driver.Attempt? || states[k].driver.Exited?
  {
    RunInv(states, steps, k);
  }
}
