/** The diagnostics of one connection, in the form the source runs: fields updated under one lock. */
module DiagnosticsClass {
  import opened Common
  import opened Fingerprint
  import opened Inspection
  import opened Diagnostics

  /** Leaves retained for a subscription, added up item by item. */
  method RetainedOf(sub: Subscription) returns (n: nat)
    ensures n == Retained(sub)
  {
    n := PreviousSize(sub.previous);
    var rest := sub.items;
    while rest != map[]
      invariant n + SumMap(Sizes(rest)) == Retained(sub)
      decreases |rest|
    {
      var id :| id in rest;
      SumMapWithout(Sizes(rest), id);
      assert Sizes(rest) - {id} == Sizes(rest - {id});
      assert (rest - {id}).Keys == rest.Keys - {id};
      n := n + |rest[id]|;
      rest := rest - {id};
    }
    assert Sizes(rest) == map[];
  }

  method UniqueTotal(counts: map<Operation, Counts>) returns (n: nat)
    ensures n == SumMap(UniqueSizes(counts))
  {
    n := 0;
    var rest := counts;
    while rest != map[]
      invariant n + SumMap(UniqueSizes(rest)) == SumMap(UniqueSizes(counts))
      decreases |rest|
    {
      var op :| op in rest;
      SumMapWithout(UniqueSizes(rest), op);
      assert UniqueSizes(rest) - {op} == UniqueSizes(rest - {op});
      assert (rest - {op}).Keys == rest.Keys - {op};
      n := n + |rest[op].unique|;
      rest := rest - {op};
    }
    assert UniqueSizes(rest) == map[];
  }

  method Inspect(sub: Subscription, m: Outbound) returns (tally: Tally, out: Subscription)
    ensures (tally, out) == InspectFrame(sub, m)
  {
    var inspector := new Inspector();
    out := sub;
    match m {
      case ReportResponse(_, payload) =>
        var complete, leaves := FingerprintLeaves(payload, [], 0, map[]);
        inspector.SetComplete(complete);
        inspector.Compare(sub.previous, leaves, None);
        out := sub.(previous := Some(leaves));
      case QueryResponse(_, response) =>
        var items := sub.items;
        if response.sequence == 0 {
          items := map[];
          inspector.NotTheSame();
        }
        items := inspector.Query(response, items);
        out := sub.(items := items);
      case _ =>
        inspector.SetComplete(false);
    }
    tally := inspector.tally;
  }

  method SendOn(sub: Subscription, retained: nat, m: Outbound, bytes: nat) returns (r: SentFrame)
    ensures r == SentOn(sub, retained, m, bytes)
  {
    var before := RetainedOf(sub);
    var tally, kept := NOT_INSPECTED, sub;
    if bytes <= MAX_FRAME_BYTES {
      tally, kept := Inspect(sub, m);
      var now := RetainedOf(kept);
      if SaturatingAdd(SaturatingSub(retained, before), now) > MAX_CLIENT_PROPERTIES {
        tally := tally.(complete := false);
      }
    }
    if !tally.complete {
      kept := Forget(kept);
    }
    var after := RetainedOf(kept);
    r := SentFrame(tally, kept, SaturatingAdd(SaturatingSub(retained, before), after));
  }

  /** Remembers the keys of a frame one by one, in an order of the map's choosing, until the room is used up. */
  method RememberKeys(unique: set<Seen>, tx: Tx, keys: multiset<Slot>, room: nat)
    returns (after: set<Seen>, overflow: bool)
    ensures Remembers(unique, Stamped(tx, keys), room, after, overflow)
  {
    after, overflow := unique, false;
    var rest, left := keys, room;
    while |rest| > 0
      invariant rest <= keys
      invariant unique <= after <= unique + Stamped(tx, keys)
      invariant |after| + left == |unique| + room
      invariant forall slot :: slot in keys ==> slot in rest || Seen(tx, slot) in after
    {
      var slot :| slot in rest;
      rest := rest - multiset{slot};
      var seen := Seen(tx, slot);
      if seen !in after {
        if left > 0 {
          left := left - 1;
          after := after + {seen};
        } else {
          overflow := true;
          assert seen in Stamped(tx, keys);
          return;
        }
      }
    }
  }

  class DeliveryDiagnostics {
    var subscriptions: map<Tx, Subscription>
    var commands: map<Tx, string>
    var cancelled: map<Tx, Operation>
    var counts: map<Operation, Counts>
    var retained: nat

    function Snapshot(): State
      reads this
    {
      State(subscriptions, commands, cancelled, counts, retained)
    }

    constructor ()
      ensures Snapshot() == INITIAL
    {
      subscriptions, commands, cancelled, counts, retained := map[], map[], map[], map[], 0;
    }

    method Inbound(m: Inbound)
      modifies this
      ensures Snapshot() == AfterInbound(old(Snapshot()), m)
      ensures old(Exact(Snapshot())) ==> Exact(Snapshot())
    {
      ghost var before := Snapshot();
      if m.Command? && m.txOption.Some? {
        commands := commands[m.txOption.value := m.id];
      } else if m.Cancel? && m.tx in subscriptions {
        var sub := subscriptions[m.tx];
        subscriptions := subscriptions - {m.tx};
        cancelled := cancelled[m.tx := sub.operation];
        var gone := RetainedOf(sub);
        retained := SaturatingSub(retained, gone);
      } else if m.Subscribe? && m.txOption.Some? {
        Subscribe(m.operation, m.isReport, m.txOption.value);
      }
      if Exact(before) { InboundKeepsExact(before, m); }
    }

    method Subscribe(operation: Operation, isReport: bool, tx: Tx)
      modifies this
      ensures Snapshot() == AfterInbound(old(Snapshot()), Diagnostics.Inbound.Subscribe(operation, isReport, Some(tx)))
    {
      if !isReport && tx in subscriptions {
        return;
      }
      cancelled := cancelled - {tx};
      var gone := 0;
      if tx in subscriptions {
        gone := RetainedOf(subscriptions[tx]);
      }
      subscriptions := subscriptions[tx := Subscription(operation, None, map[])];
      retained := SaturatingSub(retained, gone);
    }

    method Sent(m: Outbound, tag: Operation, bytes: nat)
      modifies this
      ensures Step(old(Snapshot()), Out(m, tag, bytes), Snapshot())
      ensures old(Exact(Snapshot())) ==> Exact(Snapshot())
    {
      ghost var before := Snapshot();
      var op := Charged(Snapshot(), m, tag);
      var tally := Deliver(m, bytes);
      Count(op, tally, ResponseTx(m));
      if Exact(before) { StepKeepsExact(before, Out(m, tag, bytes), Snapshot()); }
    }

    method Deliver(m: Outbound, bytes: nat) returns (tally: Tally)
      modifies this
      ensures Snapshot() == AfterSent(old(Snapshot()), m, bytes)
      ensures tally == Verdict(old(Snapshot()), m, bytes)
    {
      commands := CommandsAfter(commands, m);
      tally := NOT_INSPECTED;
      if ResponseTx(m).Some? && m.tx in subscriptions {
        var sent := SendOn(subscriptions[m.tx], retained, m, bytes);
        tally := sent.tally;
        subscriptions := subscriptions[m.tx := sent.sub];
        retained := sent.retained;
      }
    }

    method Count(op: Operation, tally: Tally, tx: Option<Tx>)
      modifies this`counts
      ensures Counted(old(counts), op, tally, tx, counts)
    {
      var used := UniqueTotal(counts);
      var c := CountsOf(counts, op);
      c := c.(messages := c.messages + 1);
      if tally.complete && tx.Some? {
        var unique, overflow :=
          RememberKeys(c.unique, tx.value, tally.keys, SaturatingSub(MAX_CLIENT_PROPERTIES, used));
        c := Counts(c.messages, c.same + (if tally.same then 1 else 0),
                    c.incomplete + (if overflow then 1 else 0), unique);
      } else if tx.Some? {
        c := c.(incomplete := c.incomplete + 1);
      }
      counts := counts[op := c];
    }

    /** The end of a window: the counters start again, what is retained stays. */
    method Flush()
      modifies this`counts
      ensures Step(old(Snapshot()), Event.Flush, Snapshot())
    {
      counts := map[];
    }
  }
}
