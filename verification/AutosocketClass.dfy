/** The socket object: its shared fields, its lock sections, and a whole `set_addr` call under interference. */
module AutosocketClass {
  import opened Common
  import opened AutosocketModel
  import opened AutosocketInvariants
  import opened AutosocketDial

  datatype SendOutcome = Accepted | Refused | MustWait

  class AutoReconnectSocket {
    const autoReconnect: bool
    var control: Control
    var watch: Watch
    var intended: Status
    var actual: Status
    var callers: map<nat, Caller>
    var driver: Driver
    var queues: seq<Queue>
    var sessions: seq<Session>
    var wire: seq<WireEntry>
    var incoming: seq<InEntry>

    function Snapshot(): State
      reads this
    {
      State(autoReconnect, control, watch, intended, actual, callers, driver, queues, sessions, wire, incoming)
    }

    constructor (autoReconnect: bool)
      ensures Snapshot() == Init(autoReconnect)
    {
      this.autoReconnect := autoReconnect;
      control := Control(0, None, 0);
      watch := Watch(Desired(0, None, None), 0, 0, false);
      intended, actual := Idle, Idle;
      callers, driver := map[], Borrow;
      queues := [Queue([], 0)];
      sessions, wire, incoming := [], [], [];
    }

    /** The first lock section of `set_addr`: return early, or make a new generation. */
    method LockSection(c: nat, wanted: Option<Addr>, observed: Status) returns (published: bool)
      requires c in callers && callers[c] == AtLock(wanted, observed)
      modifies this`control, this`queues, this`watch, this`callers
      ensures Snapshot() == CallLockStep(old(Snapshot()), c)
      ensures published <==> c in callers
    {
      if control.addr == wanted && Engaged(observed, wanted) {
        callers := callers - {c};
        return false;
      }
      control := control.(generation := control.generation + 1);
      control := control.(addr := wanted);
      control := control.(outgoing := |queues|);
      queues := queues + [Queue([], 0)];
      var desired := Desired(control.generation, wanted, if wanted.Some? then Some(control.outgoing) else None);
      watch := watch.(value := desired, version := watch.version + 1);
      callers := callers[c := AtPublish(control.generation, 0, control.generation, wanted)];
      published := true;
    }

    /** `intended_status.set` inside the publishing loop. */
    method PublishIntended(c: nat)
      requires c in callers && callers[c].AtPublish?
      modifies this`intended, this`callers
      ensures Snapshot() == CallPublishStep(old(Snapshot()), c)
    {
      var p := callers[c];
      intended := match p.addr case None => Idle case Some(a) => Connected(a);
      callers := callers[c := AtCheck(p.own, p.turns, p.generation, p.addr)];
    }

    /** The second lock section: leave if the published generation is still current, else take the newest pair. */
    method LockAndCompare(c: nat) returns (done: bool)
      requires c in callers && callers[c].AtCheck?
      modifies this`callers
      ensures Snapshot() == CallCheckStep(old(Snapshot()), c)
      ensures done <==> c !in callers
    {
      var p := callers[c];
      done := control.generation == p.generation;
      if done {
        callers := callers - {c};
      } else {
        callers := callers[c := AtPublish(p.own, p.turns + 1, control.generation, control.addr)];
      }
    }

    /**
     One try of `send` on a handle of queue `q`: an error once no receiver of that queue is left, else the frame is
     accepted if there is room, else the sender goes on waiting.
     */
    method TrySend(q: nat, frame: Frame) returns (outcome: SendOutcome)
      requires q < |queues|
      modifies this`queues
      ensures outcome == Refused <==> !ReceiverAlive(old(Snapshot()), q)
      ensures outcome == Accepted <==> Enabled(old(Snapshot()), Send(q, frame))
      ensures q == control.outgoing ==> outcome != Refused
      ensures Snapshot() == if outcome == Accepted then SendStep(old(Snapshot()), q, frame) else old(Snapshot())
    {
      if !ReceiverAlive(Snapshot(), q) {
        return Refused;
      }
      if |queues[q].accepted| - queues[q].popped >= OUTGOING_QUEUE_CAPACITY {
        return MustWait;
      }
      queues := queues[q := Queue(queues[q].accepted + [frame], queues[q].popped)];
      outcome := Accepted;
    }

    /** The reader's lock section: the generation check and the enqueue are not separated. */
    method ReaderLockSection(i: nat) returns (stopped: bool)
      requires i < |sessions| && sessions[i].reader.Holding?
      modifies this`sessions, this`incoming
      ensures Snapshot() == RunStep(old(Snapshot()), i, Deliver)
      ensures stopped <==> old(sessions[i].generation) != control.generation
    {
      var x := sessions[i];
      if control.generation != x.generation {
        sessions := sessions[i := x.(reader := ReaderDone)];
        return true;
      }
      incoming := incoming + [InEntry(x.generation, x.reader.frame)];
      sessions := sessions[i := x.(reader := Reading)];
      stopped := false;
    }

    /** The object after a step of somebody else. */
    method Become(t: State)
      requires t.autoReconnect == autoReconnect
      modifies this
      ensures Snapshot() == t
    {
      control, watch, intended, actual := t.control, t.watch, t.intended, t.actual;
      callers, driver, queues := t.callers, t.driver, t.queues;
      sessions, wire, incoming := t.sessions, t.wire, t.incoming;
    }

    /** The steps of `burst` that are enabled and are not steps of caller `c`. */
    method Interfere(c: nat, burst: seq<Step>)
      requires Inv(Snapshot())
      requires c in callers
      modifies this
      ensures Inv(Snapshot())
      ensures c in callers && callers[c] == old(callers[c])
      ensures old(control.generation) <= control.generation
    {
      for k := 0 to |burst|
        invariant Inv(Snapshot())
        invariant c in callers && callers[c] == old(callers[c])
        invariant old(control.generation) <= control.generation
      {
        var s := Snapshot();
        if Enabled(s, burst[k]) && !MovesCaller(burst[k], c) {
          InvKept(s, burst[k]);
          OthersLeaveCaller(s, burst[k], c);
          Become(Apply(s, burst[k]));
        }
      }
    }

    /**
     A whole `set_addr` call.  `others[k]` is what everybody else does before the call's k-th section.  The
     call returns however they act, its loop goes round at most once per generation others made in the
     meantime, and when no other caller is past its lock at the end the intended status is that of the control
     record.
     */
    method SetAddr(c: nat, wanted: Option<Addr>, others: seq<seq<Step>>) returns (turns: nat)
      requires Inv(Snapshot()) && c !in callers && !watch.closed
      modifies this
      ensures Inv(Snapshot()) && c !in callers
      ensures (forall b :: b in callers ==> callers[b].AtLock?) ==>
                intended == if control.addr.None? then Idle else Connected(control.addr.value)
      ensures old(control.generation) + turns <= control.generation
      ensures !(wanted.Some? && Serves(old(actual), wanted.value)) ==> old(control.generation) < control.generation
      ensures others == [] ==> control.addr == wanted && turns == 0
      ensures others == [] ==>
                (control == old(control) <==>
                   wanted.Some? && old(control.addr) == wanted && Serves(old(actual), wanted.value))
    {
      ReadStatus(c, wanted);
      var i := Take(c, others, 0);
      var published := Claim(c, wanted);
      turns := 0;
      if published { turns := PublishLoop(c, others, i); }
      SettledIntent(Snapshot());
    }

    /** The read of `actual_status` that a `set_addr` call starts with. */
    method ReadStatus(c: nat, wanted: Option<Addr>)
      requires Inv(Snapshot()) && c !in callers && !watch.closed
      modifies this`callers
      ensures Inv(Snapshot()) && Snapshot() == Apply(old(Snapshot()), CallBegin(c, wanted))
    {
      InvKept(Snapshot(), CallBegin(c, wanted));
      callers := callers[c := AtLock(wanted, actual)];
    }

    method Claim(c: nat, wanted: Option<Addr>) returns (published: bool)
      requires Inv(Snapshot()) && c in callers && callers[c].AtLock? && callers[c].addr == wanted
      modifies this`control, this`queues, this`watch, this`callers
      ensures Inv(Snapshot()) && (published <==> c in callers)
      ensures published ==> callers[c] == AtPublish(control.generation, 0, control.generation, wanted)
                            && control.generation == old(control.generation) + 1 && control.addr == wanted
      ensures !published ==> control == old(control)
      ensures !published <==>
                wanted.Some? && old(control.addr) == wanted && Serves(old(callers[c].observed), wanted.value)
    {
      InvKept(Snapshot(), CallLock(c));
      published := LockSection(c, wanted, callers[c].observed);
    }

    /** The publishing loop of `set_addr`, from its first turn. */
    method PublishLoop(c: nat, others: seq<seq<Step>>, from: nat) returns (turns: nat)
      requires Inv(Snapshot()) && c in callers && callers[c].AtPublish? && callers[c].turns == 0 && from <= |others|
      modifies this
      ensures Inv(Snapshot()) && c !in callers
      ensures old(callers[c].own) + turns <= control.generation && old(control.generation) <= control.generation
      ensures from == |others| && !old(Behind(Snapshot(), c)) ==> turns == 0 && control == old(control)
    {
      var i := from;
      turns := 0;
      assert CallerFits(Snapshot(), callers[c]);
      while c in callers
        invariant Inv(Snapshot()) && i <= |others|
        invariant c in callers ==>
                    callers[c].AtPublish? && callers[c].own == old(callers[c].own) && callers[c].turns == turns
        invariant old(callers[c].own) + turns <= control.generation && old(control.generation) <= control.generation
        invariant from == |others| && !old(Behind(Snapshot(), c)) ==>
                    i == from && turns == 0 && control == old(control) && !Behind(Snapshot(), c)
        decreases |others| - i, if c in callers then 1 else 0, if Behind(Snapshot(), c) then 1 else 0
      {
        var done;
        done, i := OneTurn(c, others, i);
        if !done {
          turns := turns + 1;
          assert CallerFits(Snapshot(), callers[c]);
        }
      }
    }

    /** One turn of the loop: publish the pair in hand, then look at the lock whether it is still the newest. */
    method OneTurn(c: nat, others: seq<seq<Step>>, from: nat) returns (done: bool, i: nat)
      requires Inv(Snapshot()) && c in callers && callers[c].AtPublish? && from <= |others|
      modifies this
      ensures Inv(Snapshot()) && from <= i <= |others| && (from < |others| ==> from < i)
      ensures done <==> c !in callers
      ensures !done ==> callers[c].AtPublish? && callers[c].own == old(callers[c].own)
                        && callers[c].turns == old(callers[c].turns) + 1
                        && old(callers[c].generation) < callers[c].generation == control.generation
      ensures old(control.generation) <= control.generation
      ensures from == |others| ==> !old(Behind(Snapshot(), c)) ==> done
      ensures !done ==> !Behind(Snapshot(), c)
      ensures from == |others| ==> i == from && control == old(control)
    {
      i := Take(c, others, from);
      InvKept(Snapshot(), CallPublish(c));
      PublishIntended(c);
      i := Take(c, others, i);
      InvKept(Snapshot(), CallCheck(c));
      CheckOutcome(Snapshot(), c);
      done := LockAndCompare(c);
    }

    /** Let the others act once, if they still have something to do. */
    method Take(c: nat, others: seq<seq<Step>>, i: nat) returns (j: nat)
      requires Inv(Snapshot()) && c in callers && i <= |others|
      modifies this
      ensures Inv(Snapshot()) && c in callers && callers[c] == old(callers[c])
      ensures i <= j <= |others| && (i < |others| ==> i < j)
      ensures old(control.generation) <= control.generation
      ensures i == |others| ==> j == i && Snapshot() == old(Snapshot())
    {
      if i == |others| { return i; }
      Interfere(c, others[i]);
      j := i + 1;
    }
  }

  lemma SettledIntent(s: State)
    requires Inv(s)
    ensures (forall c :: c in s.callers ==> s.callers[c].AtLock?) ==>
              s.intended == if s.control.addr.None? then Idle else Connected(s.control.addr.value)
  {
  }

  /** The pair a caller is about to publish is not the newest. */
  predicate Behind(s: State, c: nat) {
    c in s.callers && s.callers[c].AtPublish? && s.callers[c].generation != s.control.generation
  }

  predicate MovesCaller(step: Step, c: nat) {
    match step
    case CallBegin(b, _) => b == c
    case CallLock(b) => b == c
    case CallPublish(b) => b == c
    case CallCheck(b) => b == c
    case _ => false
  }

  lemma OthersLeaveCaller(s: State, step: Step, c: nat)
    requires Enabled(s, step) && !MovesCaller(step, c) && c in s.callers
    ensures var t := Apply(s, step);
      && c in t.callers && t.callers[c] == s.callers[c]
      && s.control.generation <= t.control.generation
      && t.autoReconnect == s.autoReconnect
  {
  }
}
