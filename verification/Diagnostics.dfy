/**
 The per-connection delivery diagnostics: which fingerprints are retained, how the memory bounds are kept, and
 what a frame's verdict means over a whole connection.
 */
module Diagnostics {
  import opened Common
  import opened Fingerprint
  import opened Inspection

  const MAX_CLIENT_PROPERTIES: nat := 65536
  const MAX_FRAME_BYTES: nat := 262144
  const USIZE_MAX: nat := 0xFFFF_FFFF_FFFF_FFFF

  function SaturatingSub(a: nat, b: nat): nat { if a < b then 0 else a - b }

  function SaturatingAdd(a: nat, b: nat): nat { if a + b > USIZE_MAX then USIZE_MAX else a + b }

  type Tx = string

  datatype Operation = Operation(kind: string, id: string)

  datatype Subscription = Subscription(operation: Operation, previous: Option<LeafMap>, items: ItemLeaves)

  /** A leaf key once seen on a subscription. */
  datatype Seen = Seen(tx: Tx, slot: Slot)

  datatype Counts = Counts(messages: nat, same: nat, incomplete: nat, unique: set<Seen>)

  datatype State = State(subscriptions: map<Tx, Subscription>, commands: map<Tx, string>,
                         cancelled: map<Tx, Operation>, counts: map<Operation, Counts>, retained: nat)

  datatype Inbound =
    | Command(txOption: Option<Tx>, id: string)
    | Subscribe(operation: Operation, isReport: bool, txOption: Option<Tx>)
    | Cancel(tx: Tx)
    | OtherInbound

  datatype Outbound =
    | ReportResponse(tx: Tx, payload: Json)
    | QueryResponse(tx: Tx, response: Response)
    | CommandResponse(tx: Tx)
    | CommandError(tx: Tx, id: string)
    | OtherOutbound

  /** `tag` is the kind and tag of a frame no subscription or command claims. */
  datatype Event = In(inbound: Inbound) | Out(outbound: Outbound, tag: Operation, bytes: nat) | Flush

  // ---------------------------------------------------------------- accounting

  function Sizes(items: ItemLeaves): map<Id, nat> {
    map id | id in items :: |items[id]|
  }

  function PreviousSize(previous: Option<LeafMap>): nat {
    if previous.Some? then |previous.value| else 0
  }

  ghost function Retained(sub: Subscription): nat {
    PreviousSize(sub.previous) + SumMap(Sizes(sub.items))
  }

  ghost function RetainedSizes(subscriptions: map<Tx, Subscription>): map<Tx, nat> {
    map tx | tx in subscriptions :: Retained(subscriptions[tx])
  }

  function UniqueSizes(counts: map<Operation, Counts>): map<Operation, nat> {
    map op | op in counts :: |counts[op].unique|
  }

  /** The bounds of a connection's diagnostics, and the one running total that must stay exact. */
  ghost predicate Exact(s: State) {
    && s.retained == SumMap(RetainedSizes(s.subscriptions)) <= MAX_CLIENT_PROPERTIES
    && SumMap(UniqueSizes(s.counts)) <= MAX_CLIENT_PROPERTIES
    && s.subscriptions.Keys !! s.cancelled.Keys
  }

  const INITIAL: State := State(map[], map[], map[], map[], 0)

  // ---------------------------------------------------------------- inbound messages

  ghost function AfterSubscribe(s: State, operation: Operation, tx: Tx): State {
    var before := if tx in s.subscriptions then Retained(s.subscriptions[tx]) else 0;
    s.(cancelled := s.cancelled - {tx},
    subscriptions := s.subscriptions[tx := Subscription(operation, None, map[])],
    retained := SaturatingSub(s.retained, before))
  }

  ghost function AfterCancel(s: State, tx: Tx): State {
    if tx !in s.subscriptions then s
    else
      var sub := s.subscriptions[tx];
      s.(subscriptions := s.subscriptions - {tx},
      cancelled := s.cancelled[tx := sub.operation],
      retained := SaturatingSub(s.retained, Retained(sub)))
  }

  /** A query or view whose transaction is live already is ignored; a report replaces what was there. */
  predicate Accepts(s: State, m: Inbound) {
    m.Subscribe? && m.txOption.Some? && (m.isReport || m.txOption.value !in s.subscriptions)
  }

  ghost function AfterInbound(s: State, m: Inbound): State {
    if m.Command? && m.txOption.Some? then s.(commands := s.commands[m.txOption.value := m.id])
    else if Accepts(s, m) then AfterSubscribe(s, m.operation, m.txOption.value)
    else if m.Cancel? then AfterCancel(s, m.tx)
    else s
  }

  // ---------------------------------------------------------------- outgoing frames

  const NOT_INSPECTED: Tally := Tally(false, false, 0, 0, 0, 0, 0, multiset{})

  datatype SentFrame = SentFrame(tally: Tally, sub: Subscription, retained: nat)

  function InspectFrame(sub: Subscription, m: Outbound): (Tally, Subscription) {
    match m
    case ReportResponse(_, payload) =>
      var r := InspectReport(sub.previous, payload);
      (r.tally, sub.(previous := Some(r.leaves)))
    case QueryResponse(_, response) =>
      var r := InspectResponse(sub.items, response);
      (r.tally, sub.(items := r.items))
    case _ => (FreshTally().(complete := false), sub)
  }

  function Forget(sub: Subscription): Subscription { sub.(previous := None, items := map[]) }

  /** One frame on a live subscription: inspect it unless it is large; forget everything when that fails. */
  ghost function SentOn(sub: Subscription, retained: nat, m: Outbound, bytes: nat): SentFrame {
    var others := SaturatingSub(retained, Retained(sub));
    var (tally, inspected) := if bytes <= MAX_FRAME_BYTES then InspectFrame(sub, m) else (NOT_INSPECTED, sub);
    var fits := bytes <= MAX_FRAME_BYTES ==> SaturatingAdd(others, Retained(inspected)) <= MAX_CLIENT_PROPERTIES;
    var judged := if fits then tally else tally.(complete := false);
    var kept := if judged.complete then inspected else Forget(inspected);
    SentFrame(judged, kept, SaturatingAdd(others, Retained(kept)))
  }

  function ResponseTx(m: Outbound): Option<Tx> {
    if m.ReportResponse? || m.QueryResponse? then Some(m.tx) else None
  }

  predicate Live(s: State, m: Outbound) {
    ResponseTx(m).Some? && ResponseTx(m).value in s.subscriptions
  }

  /** What the frame is found to be. */
  ghost function Verdict(s: State, m: Outbound, bytes: nat): Tally {
    if Live(s, m) then SentOn(s.subscriptions[m.tx], s.retained, m, bytes).tally else NOT_INSPECTED
  }

  /** The operation the frame is charged to. */
  function Charged(s: State, m: Outbound, tag: Operation): Operation {
    if Live(s, m) then s.subscriptions[m.tx].operation
    else if ResponseTx(m).Some? && m.tx in s.cancelled then s.cancelled[m.tx]
    else if m.CommandResponse? && m.tx in s.commands then Operation(tag.kind, s.commands[m.tx])
    else if m.CommandError? then Operation(tag.kind, m.id)
    else tag
  }

  function CommandsAfter(commands: map<Tx, string>, m: Outbound): map<Tx, string> {
    if m.CommandResponse? || m.CommandError? then commands - {m.tx} else commands
  }

  function CountsOf(counts: map<Operation, Counts>, op: Operation): Counts {
    if op in counts then counts[op] else Counts(0, 0, 0, {})
  }

  function Stamped(tx: Tx, keys: multiset<Slot>): set<Seen> {
    set slot | slot in keys :: Seen(tx, slot)
  }

  /** New keys are remembered, in any order, while there is room; `overflow` says one found no room. */
  ghost predicate Remembers(before: set<Seen>, keys: set<Seen>, room: nat, after: set<Seen>, overflow: bool) {
    && before <= after <= before + keys
    && |after| <= |before| + room
    && (if overflow then |after| == |before| + room && !(keys <= after) else keys <= after)
  }

  ghost predicate Counted(before: map<Operation, Counts>, op: Operation, tally: Tally, tx: Option<Tx>,
                          after: map<Operation, Counts>)
  {
    var c := CountsOf(before, op);
    && op in after && after == before[op := after[op]]
    && after[op].messages == c.messages + 1
    && if tally.complete && tx.Some? then
         var overflow := after[op].incomplete != c.incomplete;
         && after[op].same == c.same + (if tally.same then 1 else 0)
         && after[op].incomplete == c.incomplete + (if overflow then 1 else 0)
         && Remembers(c.unique, Stamped(tx.value, tally.keys),
                      SaturatingSub(MAX_CLIENT_PROPERTIES, SumMap(UniqueSizes(before))), after[op].unique, overflow)
       else
         && after[op].same == c.same && after[op].unique == c.unique
         && after[op].incomplete == c.incomplete + (if tx.Some? then 1 else 0)
  }

  /** The subscription and the running total after a frame; the counters are left to `Counted`. */
  ghost function AfterSent(s: State, m: Outbound, bytes: nat): State {
    var t := s.(commands := CommandsAfter(s.commands, m));
    if Live(s, m) then
      var sent := SentOn(s.subscriptions[m.tx], s.retained, m, bytes);
      t.(subscriptions := s.subscriptions[m.tx := sent.sub], retained := sent.retained)
    else t
  }

  ghost predicate Step(s: State, e: Event, t: State) {
    match e
    case In(m) => t == AfterInbound(s, m)
    case Out(m, tag, bytes) =>
      && t == AfterSent(s, m, bytes).(counts := t.counts)
      && Counted(s.counts, Charged(s, m, tag), Verdict(s, m, bytes), ResponseTx(m), t.counts)
    case Flush => t == s.(counts := map[])
  }

  // ---------------------------------------------------------------- the accounts stay exact

  lemma RetainedPut(subs: map<Tx, Subscription>, tx: Tx, sub: Subscription)
    ensures SumMap(RetainedSizes(subs[tx := sub]))
            == SumMap(RetainedSizes(subs)) - (if tx in subs then Retained(subs[tx]) else 0) + Retained(sub)
  {
    assert RetainedSizes(subs[tx := sub]) == RetainedSizes(subs)[tx := Retained(sub)];
    SumMapPut(RetainedSizes(subs), tx, Retained(sub));
  }

  lemma RetainedDrop(subs: map<Tx, Subscription>, tx: Tx)
    requires tx in subs
    ensures SumMap(RetainedSizes(subs)) == Retained(subs[tx]) + SumMap(RetainedSizes(subs - {tx}))
  {
    SumMapWithout(RetainedSizes(subs), tx);
    assert RetainedSizes(subs) - {tx} == RetainedSizes(subs - {tx});
  }

  lemma NothingRetained(operation: Operation)
    ensures Retained(Subscription(operation, None, map[])) == 0
  {
    assert Sizes(map[]) == map[];
  }

  lemma InboundKeepsExact(s: State, m: Inbound)
    requires Exact(s)
    ensures Exact(AfterInbound(s, m))
  {
    if Accepts(s, m) {
      var tx := m.txOption.value;
      NothingRetained(m.operation);
      RetainedPut(s.subscriptions, tx, Subscription(m.operation, None, map[]));
      if tx in s.subscriptions { RetainedDrop(s.subscriptions, tx); }
    } else if m.Cancel? && m.tx in s.subscriptions {
      RetainedDrop(s.subscriptions, m.tx);
    }
  }

  /** A frame leaves the total exact and within its bound, whatever the other subscriptions hold. */
  lemma SentOnKeepsTotal(sub: Subscription, retained: nat, m: Outbound, bytes: nat)
    requires Retained(sub) <= retained <= MAX_CLIENT_PROPERTIES
    ensures var r := SentOn(sub, retained, m, bytes);
            && r.retained == retained - Retained(sub) + Retained(r.sub) <= MAX_CLIENT_PROPERTIES
            && r.sub.operation == sub.operation
            && (!r.tally.complete ==> Retained(r.sub) == 0)
  {
    NothingRetained(sub.operation);
  }

  lemma SubscriptionsStayExact(s: State, m: Outbound, bytes: nat)
    requires Exact(s) && Live(s, m)
    ensures var t := AfterSent(s, m, bytes);
            t.retained == SumMap(RetainedSizes(t.subscriptions)) <= MAX_CLIENT_PROPERTIES
  {
    var sub := s.subscriptions[m.tx];
    RetainedDrop(s.subscriptions, m.tx);
    SentOnKeepsTotal(sub, s.retained, m, bytes);
    RetainedPut(s.subscriptions, m.tx, SentOn(sub, s.retained, m, bytes).sub);
  }

  lemma CountsStayBounded(before: map<Operation, Counts>, op: Operation, tally: Tally, tx: Option<Tx>,
                          after: map<Operation, Counts>)
    requires SumMap(UniqueSizes(before)) <= MAX_CLIENT_PROPERTIES && Counted(before, op, tally, tx, after)
    ensures SumMap(UniqueSizes(after)) <= MAX_CLIENT_PROPERTIES
  {
    var n := |after[op].unique|;
    assert UniqueSizes(after) == UniqueSizes(before)[op := n];
    SumMapPut(UniqueSizes(before), op, n);
    if op in before { SumMapWithout(UniqueSizes(before), op); }
  }

  lemma StepKeepsExact(s: State, e: Event, t: State)
    requires Exact(s) && Step(s, e, t)
    ensures Exact(t)
  {
    if e.In? {
      InboundKeepsExact(s, e.inbound);
    } else if e.Out? {
      if Live(s, e.outbound) { SubscriptionsStayExact(s, e.outbound, e.bytes); }
      CountsStayBounded(s.counts, Charged(s, e.outbound, e.tag), Verdict(s, e.outbound, e.bytes),
                        ResponseTx(e.outbound), t.counts);
    } else {
      assert UniqueSizes(map[]) == map[];
    }
  }

  ghost predicate IsRun(states: seq<State>, events: seq<Event>) {
    && |states| == |events| + 1 && states[0] == INITIAL
    && forall i :: 0 <= i < |events| ==> Step(states[i], events[i], states[i + 1])
  }

  /** The accounts are exact after every sequence of messages, frames and flushes. */
  lemma {:induction false} ExactInEveryRun(states: seq<State>, events: seq<Event>, i: nat)
    requires IsRun(states, events) && i < |states|
    ensures Exact(states[i])
  {
    if i == 0 {
      assert RetainedSizes(map[]) == map[] && UniqueSizes(map[]) == map[];
    } else {
      ExactInEveryRun(states, events, i - 1);
      StepKeepsExact(states[i - 1], events[i - 1], states[i]);
    }
  }

  // ---------------------------------------------------------------- what a verdict means

  /** What was really sent on a live subscription. */
  datatype Track = Track(report: Option<Json>, view: View, synced: bool)

  const NEW_TRACK: Track := Track(None, map[], true)

  /**
   `report` is the previous report frame, when it was fully inspected.  `view` is the client's data.  `synced`
   says that every frame since the last snapshot (or since the subscription) was fully inspected.
   */
  function TrackFrame(k: Track, m: Outbound, complete: bool): Track {
    match m
    case ReportResponse(_, payload) =>
      k.(report := if complete then Some(payload) else None, synced := k.synced && complete)
    case QueryResponse(_, response) =>
      k.(view := ApplyResponse(k.view, response), synced := complete && (k.synced || response.sequence == 0),
      report := if complete then k.report else None)
    case _ => k
  }

  type History = map<Tx, Track>

  ghost function HistoryAfter(s: State, h: History, e: Event): History {
    match e
    case In(m) =>
      if Accepts(s, m) then h[m.txOption.value := NEW_TRACK]
      else if m.Cancel? then h - {m.tx}
      else h
    case Out(m, _, bytes) =>
      if Live(s, m) && m.tx in h then h[m.tx := TrackFrame(h[m.tx], m, Verdict(s, m, bytes).complete)] else h
    case Flush => h
  }

  ghost predicate Follows(sub: Subscription, k: Track) {
    && (if k.report.Some? then WellFormed(k.report.value) && sub.previous == Some(Leaves(k.report.value, []))
        else sub.previous == None)
    && WellFormedView(k.view) && Partly(sub.items, k.view)
    && (k.synced ==> Fully(sub.items, k.view))
  }

  ghost predicate Tracked(s: State, h: History) {
    h.Keys == s.subscriptions.Keys && forall tx :: tx in h ==> Follows(s.subscriptions[tx], h[tx])
  }

  ghost predicate WellFormedFrame(m: Outbound) {
    && (m.ReportResponse? ==> WellFormed(m.payload))
    && (m.QueryResponse? ==> WellFormedChanges(Changes(m.response)))
  }

  ghost predicate WellFormedEvent(e: Event) {
    e.Out? ==> WellFormedFrame(e.outbound)
  }

  lemma ForgottenFollows(sub: Subscription, k: Track, m: Outbound)
    requires WellFormedView(k.view) && WellFormedFrame(m) && (m.ReportResponse? || m.QueryResponse?)
    requires sub.previous == None && sub.items == map[]
    ensures Follows(sub, TrackFrame(k, m, false))
  {
    if m.QueryResponse? {
      ViewStaysWellFormed(if m.response.sequence == 0 then map[] else k.view, Changes(m.response));
    }
  }

  lemma ReportFollows(sub: Subscription, k: Track, m: Outbound)
    requires Follows(sub, k) && WellFormedFrame(m) && m.ReportResponse?
    requires InspectFrame(sub, m).0.complete
    ensures Follows(InspectFrame(sub, m).1, TrackFrame(k, m, true))
  {
    FlattenWhole(m.payload);
  }

  lemma ResponseFollows(sub: Subscription, k: Track, m: Outbound)
    requires Follows(sub, k) && WellFormedFrame(m) && m.QueryResponse?
    requires InspectFrame(sub, m).0.complete
    ensures Follows(InspectFrame(sub, m).1, TrackFrame(k, m, true))
  {
    ResponseInspected(sub.items, k.view, m.response);
  }

  lemma FrameFollows(sub: Subscription, k: Track, retained: nat, m: Outbound, bytes: nat)
    requires Follows(sub, k) && WellFormedFrame(m) && (m.ReportResponse? || m.QueryResponse?)
    ensures var r := SentOn(sub, retained, m, bytes);
            Follows(r.sub, TrackFrame(k, m, r.tally.complete))
  {
    var r := SentOn(sub, retained, m, bytes);
    if !r.tally.complete {
      ForgottenFollows(r.sub, k, m);
    } else if m.ReportResponse? {
      ReportFollows(sub, k, m);
    } else {
      ResponseFollows(sub, k, m);
    }
  }

  lemma InboundKeepsTracked(s: State, h: History, m: Inbound)
    requires Tracked(s, h)
    ensures Tracked(AfterInbound(s, m), HistoryAfter(s, h, In(m)))
  {
  }

  lemma SentKeepsTracked(s: State, h: History, m: Outbound, bytes: nat, k: Track)
    requires Tracked(s, h) && WellFormedFrame(m) && Live(s, m)
    requires k == TrackFrame(h[m.tx], m, Verdict(s, m, bytes).complete)
    ensures Tracked(AfterSent(s, m, bytes), h[m.tx := k])
  {
    FrameFollows(s.subscriptions[m.tx], h[m.tx], s.retained, m, bytes);
  }

  lemma TrackedIgnoresCounts(s: State, t: State, h: History)
    requires Tracked(s, h) && t.subscriptions == s.subscriptions
    ensures Tracked(t, h)
  {
  }

  lemma StepKeepsTracked(s: State, h: History, e: Event, t: State)
    requires Tracked(s, h) && Step(s, e, t) && WellFormedEvent(e)
    ensures Tracked(t, HistoryAfter(s, h, e))
  {
    if e.In? {
      InboundKeepsTracked(s, h, e.inbound);
    } else if e.Out? && Live(s, e.outbound) {
      var m := e.outbound;
      SentKeepsTracked(s, h, m, e.bytes, TrackFrame(h[m.tx], m, Verdict(s, m, e.bytes).complete));
      TrackedIgnoresCounts(AfterSent(s, m, e.bytes), t, HistoryAfter(s, h, e));
    } else {
      TrackedIgnoresCounts(s, t, h);
    }
  }

  ghost function HistoryOf(states: seq<State>, events: seq<Event>, i: nat): History
    requires i <= |events| <= |states|
  {
    if i == 0 then map[] else HistoryAfter(states[i - 1], HistoryOf(states, events, i - 1), events[i - 1])
  }

  /** In every run, whatever is retained is the fingerprint of what was really sent. */
  lemma {:induction false} TrackedInEveryRun(states: seq<State>, events: seq<Event>, i: nat)
    requires IsRun(states, events) && i <= |events|
    requires forall j :: 0 <= j < |events| ==> WellFormedEvent(events[j])
    ensures Tracked(states[i], HistoryOf(states, events, i))
  {
    if i > 0 {
      TrackedInEveryRun(states, events, i - 1);
      StepKeepsTracked(states[i - 1], HistoryOf(states, events, i - 1), events[i - 1], states[i]);
    }
  }

  /**
   A report counts as unchanged exactly when it was fully inspected, so was the frame sent before it on that
   subscription, and the two payloads are the same JSON value.
   */
  lemma ReportVerdict(s: State, h: History, m: Outbound, bytes: nat)
    requires Tracked(s, h) && WellFormedFrame(m) && m.ReportResponse? && Live(s, m)
    ensures var tally := Verdict(s, m, bytes);
            tally.complete ==>
              (tally.same <==> h[m.tx].report.Some? && SameJson(h[m.tx].report.value, m.payload))
  {
    assert Follows(s.subscriptions[m.tx], h[m.tx]);
    FlattenWhole(m.payload);
    if Verdict(s, m, bytes).complete && h[m.tx].report.Some? {
      SameEntryByLeaves(h[m.tx].report.value, m.payload);
    }
  }

  /** When a report is fully inspected. */
  lemma ReportInspectedWhen(s: State, m: Outbound, bytes: nat)
    requires Exact(s) && WellFormedFrame(m) && m.ReportResponse? && Live(s, m)
    ensures var sub := s.subscriptions[m.tx];
            Verdict(s, m, bytes).complete <==>
              && bytes <= MAX_FRAME_BYTES
              && Small(m.payload, 0, MAX_PROPERTIES)
              && s.retained - PreviousSize(sub.previous) + LeafCount(m.payload) <= MAX_CLIENT_PROPERTIES
  {
    RetainedDrop(s.subscriptions, m.tx);
    ReportFits(s.subscriptions[m.tx], s.retained, m, bytes);
  }

  lemma ReportFits(sub: Subscription, retained: nat, m: Outbound, bytes: nat)
    requires Retained(sub) <= retained && m.ReportResponse? && WellFormed(m.payload)
    ensures SentOn(sub, retained, m, bytes).tally.complete <==>
              && bytes <= MAX_FRAME_BYTES
              && Small(m.payload, 0, MAX_PROPERTIES)
              && retained - PreviousSize(sub.previous) + LeafCount(m.payload) <= MAX_CLIENT_PROPERTIES
  {
    FlattenWhole(m.payload);
    LeavesSize(m.payload, []);
  }

  /** While synced, a fully inspected response counts as unchanged exactly when it changes nothing. */
  lemma ResponseVerdict(s: State, h: History, m: Outbound, bytes: nat)
    requires Tracked(s, h) && WellFormedFrame(m) && m.QueryResponse? && Live(s, m)
    requires h[m.tx].synced || m.response.sequence == 0
    ensures var tally := Verdict(s, m, bytes);
            tally.complete ==>
              (tally.same <==> m.response.sequence != 0 && AllNoOps(h[m.tx].view, Changes(m.response)))
  {
    assert Follows(s.subscriptions[m.tx], h[m.tx]);
    if Verdict(s, m, bytes).complete {
      ResponseInspected(s.subscriptions[m.tx].items, h[m.tx].view, m.response);
    }
  }

  /** What the verdict on a fully inspected frame means, given what was sent before. */
  ghost predicate VerdictIsTrue(k: Track, m: Outbound, same: bool) {
    && (m.ReportResponse? ==> (same <==> k.report.Some? && SameJson(k.report.value, m.payload)))
    && (m.QueryResponse? && (k.synced || m.response.sequence == 0) ==>
          (same <==> m.response.sequence != 0 && AllNoOps(k.view, Changes(m.response))))
  }

  /** The verdicts over every run. */
  lemma VerdictsInEveryRun(states: seq<State>, events: seq<Event>, i: nat)
    requires IsRun(states, events) && i < |events|
    requires forall j :: 0 <= j < |events| ==> WellFormedEvent(events[j])
    ensures events[i].Out? && Live(states[i], events[i].outbound) ==>
              var m, h := events[i].outbound, HistoryOf(states, events, i);
              var tally := Verdict(states[i], m, events[i].bytes);
              m.tx in h && (tally.complete ==> VerdictIsTrue(h[m.tx], m, tally.same))
  {
    TrackedInEveryRun(states, events, i);
    if events[i].Out? && Live(states[i], events[i].outbound) {
      assert WellFormedEvent(events[i]);
      VerdictAt(states[i], HistoryOf(states, events, i), events[i].outbound, events[i].bytes);
    }
  }

  lemma VerdictAt(s: State, h: History, m: Outbound, bytes: nat)
    requires Tracked(s, h) && WellFormedFrame(m) && Live(s, m)
    ensures Verdict(s, m, bytes).complete ==> VerdictIsTrue(h[m.tx], m, Verdict(s, m, bytes).same)
  {
    if m.ReportResponse? {
      ReportVerdict(s, h, m, bytes);
    } else if h[m.tx].synced || m.response.sequence == 0 {
      ResponseVerdict(s, h, m, bytes);
    }
  }

  /**
   Over every run, synced or not: the verdict on a fully inspected response is wrong exactly when the response is
   no snapshot, the changes judged by a retained or absent item are no-ops, and those that name an item whose
   fingerprint was dropped are all deletes or all repeated values, at least one.
   */
  lemma WrongVerdictsInEveryRun(states: seq<State>, events: seq<Event>, i: nat)
    requires IsRun(states, events) && i < |events|
    requires forall j :: 0 <= j < |events| ==> WellFormedEvent(events[j])
    ensures events[i].Out? && events[i].outbound.QueryResponse? && Live(states[i], events[i].outbound) ==>
              var m, h := events[i].outbound, HistoryOf(states, events, i);
              var tally, items := Verdict(states[i], m, events[i].bytes), states[i].subscriptions[m.tx].items;
              m.tx in h &&
              (tally.complete ==>
                 (tally.same != (m.response.sequence != 0 && AllNoOps(h[m.tx].view, Changes(m.response)))
                  <==> && m.response.sequence != 0
                       && var sight := Look(FreshTally(), items, h[m.tx].view, Changes(m.response));
                          sight.seenAreNoOps && sight.blindDelete != sight.blindUpsert))
  {
    TrackedInEveryRun(states, events, i);
    if events[i].Out? && events[i].outbound.QueryResponse? && Live(states[i], events[i].outbound) {
      assert WellFormedEvent(events[i]);
      var m, h := events[i].outbound, HistoryOf(states, events, i);
      assert Follows(states[i].subscriptions[m.tx], h[m.tx]);
      if Verdict(states[i], m, events[i].bytes).complete {
        WrongVerdictIff(states[i].subscriptions[m.tx].items, h[m.tx].view, m.response);
      }
    }
  }
}
