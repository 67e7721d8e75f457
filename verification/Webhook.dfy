/**
 The Zero Hash webhook: at-least-once deliveries, possibly concurrent, duplicated, reordered or cut
 by a crash, drive a ranked order-status machine. The "transaction" around a delivery does not
 cover its queries, so each statement is a step of its own.
 */
module Webhook {
  import opened Prelude

  datatype OrderStatus =
    Created | Pending | Reserved | InTransit | Settled | Failed | Cancelled | ComplianceHold

  /** The statuses a provider event can map to. */
  type EventStatus = s: OrderStatus | s.InTransit? || s.Settled? || s.Failed? || s.ComplianceHold? witness InTransit

  datatype Mapping = Unknown | Informational | Maps(status: EventStatus)

  const IN_TRANSIT_EVENTS := {
    "transfer.submitted", "transfer.approved", "transfer.pending", "transfer.in_transit", "transfer.broadcasting",
    "withdrawal.approved", "withdrawal.broadcasting"
  }
  const SETTLED_EVENTS := {
    "transfer.settled", "transfer.completed", "withdrawal.settled", "withdrawal.confirmed",
    "trade.terminated", "trade.settled"
  }
  const FAILED_EVENTS := {"transfer.failed", "transfer.cancelled", "transfer.canceled", "withdrawal.failed"}
  const HOLD_EVENTS := {"transfer.rejected", "transfer.compliance_hold"}
  const INFO_EVENTS := {"participant.approved", "participant.rejected", "participant.pending_approval"}

  function ProviderStatus(eventType: string): Mapping {
    if eventType in IN_TRANSIT_EVENTS then Maps(InTransit)
    else if eventType in SETTLED_EVENTS then Maps(Settled)
    else if eventType in FAILED_EVENTS then Maps(Failed)
    else if eventType in HOLD_EVENTS then Maps(ComplianceHold)
    else if eventType in INFO_EVENTS then Informational
    else Unknown
  }

  /** The identifiers a payload level may carry; the empty string when absent. */
  datatype Ids = Ids(id: string, transferId: string, transfer_id: string, withdrawal_id: string)

  /** The body of a webhook request. */
  datatype Delivery = Delivery(eventId: string, eventType: string, message: Option<Ids>, top: Ids)

  function TransferIdOf(d: Delivery): string {
    var m := if d.message.Some? then d.message.value else d.top;
    if m.id != "" then m.id
    else if m.transferId != "" then m.transferId
    else if m.transfer_id != "" then m.transfer_id
    else m.withdrawal_id
  }

  /** What processing makes of a delivery: the order it names and the status it brings, if it is an
      order event whose transfer id can be extracted. */
  datatype Event = Event(eventId: string, transfer: string, effect: Option<EventStatus>)

  function EventOf(d: Delivery): Event {
    var transfer := TransferIdOf(d);
    match ProviderStatus(d.eventType)
    case Maps(status) => Event(d.eventId, transfer, if transfer == "" then None else Some(status))
    case _ => Event(d.eventId, transfer, None)
  }

  /** A delivery moves an order only if its type is mapped and some identifier is present. */
  lemma EffectiveDeliveries(d: Delivery)
    ensures EventOf(d).effect.Some? <==>
      TransferIdOf(d) != "" &&
      d.eventType in IN_TRANSIT_EVENTS + SETTLED_EVENTS + FAILED_EVENTS + HOLD_EVENTS
    ensures EventOf(d).effect == Some(Settled) <==> TransferIdOf(d) != "" && d.eventType in SETTLED_EVENTS
    ensures EventOf(d).effect == Some(ComplianceHold) <==> TransferIdOf(d) != "" && d.eventType in HOLD_EVENTS
  {
  }

  /** What each provider event type stands for. */
  lemma TransferEvents()
    ensures ProviderStatus("transfer.submitted") == Maps(InTransit) && ProviderStatus("transfer.approved") == Maps(InTransit)
    ensures ProviderStatus("transfer.pending") == Maps(InTransit) && ProviderStatus("transfer.in_transit") == Maps(InTransit)
    ensures ProviderStatus("transfer.broadcasting") == Maps(InTransit)
    ensures ProviderStatus("transfer.settled") == Maps(Settled) && ProviderStatus("transfer.completed") == Maps(Settled)
    ensures ProviderStatus("transfer.failed") == Maps(Failed) && ProviderStatus("transfer.cancelled") == Maps(Failed)
    ensures ProviderStatus("transfer.canceled") == Maps(Failed)
    ensures ProviderStatus("transfer.rejected") == Maps(ComplianceHold)
    ensures ProviderStatus("transfer.compliance_hold") == Maps(ComplianceHold)
  {
  }

  lemma OtherEvents()
    ensures ProviderStatus("withdrawal.approved") == Maps(InTransit)
    ensures ProviderStatus("withdrawal.broadcasting") == Maps(InTransit)
    ensures ProviderStatus("withdrawal.settled") == Maps(Settled) && ProviderStatus("withdrawal.confirmed") == Maps(Settled)
    ensures ProviderStatus("withdrawal.failed") == Maps(Failed)
    ensures ProviderStatus("trade.terminated") == Maps(Settled) && ProviderStatus("trade.settled") == Maps(Settled)
    ensures ProviderStatus("participant.approved") == Informational
    ensures ProviderStatus("participant.rejected") == Informational
    ensures ProviderStatus("participant.pending_approval") == Informational
  {
  }

  /** There are no others. */
  lemma KnownEvents(eventType: string)
    ensures ProviderStatus(eventType) != Unknown ==> eventType in [
      "transfer.submitted", "transfer.approved", "transfer.pending", "transfer.in_transit", "transfer.broadcasting",
      "transfer.settled", "transfer.completed", "transfer.failed", "transfer.cancelled", "transfer.canceled",
      "transfer.rejected", "transfer.compliance_hold", "withdrawal.approved", "withdrawal.broadcasting",
      "withdrawal.settled", "withdrawal.confirmed", "withdrawal.failed", "trade.terminated", "trade.settled",
      "participant.approved", "participant.rejected", "participant.pending_approval"]
  {
  }

  /** Which identifier counts: of the message if there is one, else of the top level, the first present
      of `id`, `transferId`, `transfer_id` and `withdrawal_id`. */
  lemma IdentifierChosen(d: Delivery)
    ensures var m := if d.message.Some? then d.message.value else d.top;
      && (m.id != "" ==> TransferIdOf(d) == m.id)
      && (m.id == "" && m.transferId != "" ==> TransferIdOf(d) == m.transferId)
      && (m.id == "" && m.transferId == "" && m.transfer_id != "" ==> TransferIdOf(d) == m.transfer_id)
      && (m.id == "" && m.transferId == "" && m.transfer_id == "" ==> TransferIdOf(d) == m.withdrawal_id)
  {
  }

  // ---------------------------------------------------------------- the status machine

  function Rank(s: OrderStatus): int {
    match s
    case Created => 0
    case InTransit => 1
    case Settled => 2
    case Failed => 2
    case ComplianceHold => 2
    case _ => -1
  }

  predicate Terminal(s: OrderStatus) {
    s.Settled? || s.Failed? || s.ComplianceHold?
  }

  function FirstTerminal(applied: seq<EventStatus>): (r: Option<nat>)
    ensures r.None? <==> forall j | 0 <= j < |applied| :: !Terminal(applied[j])
    ensures r.Some? ==> r.value < |applied| && Terminal(applied[r.value])
    ensures r.Some? ==> forall j | 0 <= j < r.value :: !Terminal(applied[j])
  {
    FindFirst(applied, (s: EventStatus) => Terminal(s))
  }

  predicate Advances(current: OrderStatus, incoming: EventStatus) {
    !(Rank(incoming) <= Rank(current) && current != InTransit)
  }

  /** The status an order should have after event statuses `applied`, in order: its first terminal
      status ever, else IN_TRANSIT if any event was applied, else where it started. */
  function Outcome(start: OrderStatus, applied: seq<EventStatus>): OrderStatus {
    if Terminal(start) then start
    else
      match FirstTerminal(applied)
      case Some(i) => applied[i]
      case None => if applied == [] then start else InTransit
  }

  lemma FirstTerminalAppend(applied: seq<EventStatus>, next: EventStatus)
    ensures FirstTerminal(applied + [next]) ==
      if FirstTerminal(applied).Some? then FirstTerminal(applied)
      else if Terminal(next) then Some(|applied|) else None
  {
    var all := applied + [next];
    assert forall j | 0 <= j < |applied| :: all[j] == applied[j];
    assert all[|applied|] == next;
  }

  /** One guarded write tracks the outcome. */
  lemma OutcomeStep(start: OrderStatus, applied: seq<EventStatus>, next: EventStatus)
    ensures Outcome(start, applied + [next]) ==
      if Advances(Outcome(start, applied), next) then next else Outcome(start, applied)
  {
    FirstTerminalAppend(applied, next);
    if FirstTerminal(applied).Some? {
      assert (applied + [next])[FirstTerminal(applied).value] == applied[FirstTerminal(applied).value];
    }
  }

  /** The rank test says no more than this: a terminal status is never left, any other always gives way. */
  lemma WhichOrdersAdvance(current: OrderStatus, incoming: EventStatus)
    ensures Advances(current, incoming) <==> !Terminal(current)
  {
  }

  /** Applying again a status that was applied before changes nothing. */
  lemma ReprocessingIsHarmless(start: OrderStatus, applied: seq<EventStatus>, again: EventStatus)
    requires again in applied
    ensures Outcome(start, applied + [again]) == Outcome(start, applied)
  {
    OutcomeStep(start, applied, again);
  }

  /** Reordering is harmless too while the events agree on one terminal status: what counts is
      which statuses were applied. */
  lemma OnlyWhichStatusesMatter(start: OrderStatus, a: seq<EventStatus>, b: seq<EventStatus>)
    requires forall s :: s in a <==> s in b
    requires forall s, s' | s in a && s' in a && Terminal(s) && Terminal(s') :: s == s'
    ensures Outcome(start, a) == Outcome(start, b)
  {
    var i, j := FirstTerminal(a), FirstTerminal(b);
    assert i.Some? ==> a[i.value] in b;
    assert j.Some? ==> b[j.value] in a;
    assert a == [] || a[|a| - 1] in b;
    assert b == [] || b[|b| - 1] in a;
  }

  // ---------------------------------------------------------------- deliveries

  /** A handler working on a delivery: its event recorded, the order read, or the order written. */
  datatype Handler =
    | Recorded(event: Event)
    | Read(event: Event, seen: Option<OrderStatus>)
    | Written(event: Event)

  /** A delivery's status applied to the order of its transfer. */
  datatype Application = Application(eventId: string, transfer: string, status: EventStatus)

  function ApplicationOf(e: Event): Application
    requires e.effect.Some?
  {
    Application(e.eventId, e.transfer, e.effect.value)
  }

  /** Event rows (id to processed flag), orders by transfer id, running handlers, and two history
      variables: the statuses applied to orders so far, and the deliveries marked processed. */
  datatype State = State(
    events: map<string, bool>, orders: map<string, OrderStatus>, handlers: map<nat, Handler>,
    applied: seq<Application>, marked: set<Event>)

  datatype Step =
    | Receive(h: nat, event: Event)
    | ReadOrder(h: nat)
    | WriteOrder(h: nat)
    | Mark(h: nat)
    | Crash(h: nat)

  function StatusOf(s: State, transfer: string): Option<OrderStatus> {
    if transfer in s.orders then Some(s.orders[transfer]) else None
  }

  predicate Enabled(s: State, step: Step) {
    match step
    case Receive(h, _) => h !in s.handlers
    case ReadOrder(h) => h in s.handlers && s.handlers[h].Recorded? && s.handlers[h].event.effect.Some?
    case WriteOrder(h) => h in s.handlers && s.handlers[h].Read? && s.handlers[h].event.effect.Some?
    case Mark(h) =>
      h in s.handlers &&
      (s.handlers[h].Written? || (s.handlers[h].Recorded? && s.handlers[h].event.effect.None?))
    case Crash(h) => h in s.handlers
  }

  function Do(s: State, step: Step): State
    requires Enabled(s, step)
  {
    match step
    case Receive(h, e) =>
      if e.eventId in s.events && s.events[e.eventId] then s
      else s.(events := s.events[e.eventId := false], handlers := s.handlers[h := Recorded(e)])
    case ReadOrder(h) =>
      var e := s.handlers[h].event;
      s.(handlers := s.handlers[h := Read(e, StatusOf(s, e.transfer))])
    case WriteOrder(h) =>
      var e, seen := s.handlers[h].event, s.handlers[h].seen;
      var transfer, status := e.transfer, e.effect.value;
      var next := s.(handlers := s.handlers[h := Written(e)]);
      if seen.None? then next
      else
        next.(orders := if Advances(seen.value, status) then s.orders[transfer := status] else s.orders,
              applied := s.applied + [ApplicationOf(e)])
    case Mark(h) =>
      var e := s.handlers[h].event;
      s.(events := s.events[e.eventId := true], handlers := s.handlers - {h}, marked := s.marked + {e})
    case Crash(h) => s.(handlers := s.handlers - {h})
  }

  function Start(orders: map<string, OrderStatus>): State {
    State(map[], orders, map[], [], {})
  }

  ghost predicate Leads(s: State, steps: seq<Step>, s': State)
    decreases |steps|
  {
    if steps == [] then s == s'
    else Enabled(s, steps[0]) && Leads(Do(s, steps[0]), steps[1..], s')
  }

  /** Between read and write the order did not enter a terminal status, or not another than the one
      the write brings; nor did it leave one. */
  predicate Harmless(s: State, step: Step) {
    step.WriteOrder? && Enabled(s, step) && s.handlers[step.h].seen.Some? ==>
      var e, seen := s.handlers[step.h].event, s.handlers[step.h].seen.value;
      e.transfer in s.orders ==>
        var current, status := s.orders[e.transfer], e.effect.value;
        current == status || (Terminal(seen) <==> Terminal(current))
  }

  ghost predicate HarmlessRun(s: State, steps: seq<Step>)
    decreases |steps|
  {
    steps == [] ||
    (Enabled(s, steps[0]) && Harmless(s, steps[0]) && HarmlessRun(Do(s, steps[0]), steps[1..]))
  }

  /** Reading and writing one order act as a single step: the write finds what was read. */
  predicate Undisturbed(s: State, step: Step) {
    step.WriteOrder? && step.h in s.handlers && s.handlers[step.h].Read? ==>
      s.handlers[step.h].seen == StatusOf(s, s.handlers[step.h].event.transfer)
  }

  ghost predicate UndisturbedRun(s: State, steps: seq<Step>)
    decreases |steps|
  {
    steps == [] ||
    (Enabled(s, steps[0]) && Undisturbed(s, steps[0]) && UndisturbedRun(Do(s, steps[0]), steps[1..]))
  }

  /** A run without another write between any read and its write is harmless. */
  lemma {:induction false} UndisturbedRunsAreHarmless(s: State, steps: seq<Step>)
    requires UndisturbedRun(s, steps)
    ensures HarmlessRun(s, steps)
    decreases |steps|
  {
    if steps != [] {
      UndisturbedRunsAreHarmless(Do(s, steps[0]), steps[1..]);
    }
  }

  /** The statuses applied to one transfer, oldest first. */
  function AppliedTo(applied: seq<Application>, transfer: string): seq<EventStatus> {
    if applied == [] then []
    else
      var n := |applied| - 1;
      AppliedTo(applied[..n], transfer) + if applied[n].transfer == transfer then [applied[n].status] else []
  }

  /** `e` has had its say: it names no order, or it was itself applied to its order. */
  ghost predicate Counted(s: State, e: Event) {
    e.effect.Some? && e.transfer in s.orders ==> ApplicationOf(e) in s.applied
  }

  lemma {:induction false} AppliedMember(applied: seq<Application>, a: Application)
    requires a in applied
    ensures a.status in AppliedTo(applied, a.transfer)
  {
    var n := |applied| - 1;
    if applied[n] != a {
      AppliedMember(applied[..n], a);
    }
  }

  ghost predicate OutcomeInv(start: map<string, OrderStatus>, s: State) {
    s.orders.Keys == start.Keys &&
    forall t | t in s.orders :: s.orders[t] == Outcome(start[t], AppliedTo(s.applied, t))
  }

  /** `OutcomeInv` before every step of the run and after the last. */
  ghost predicate OutcomeThroughout(start: map<string, OrderStatus>, s: State, steps: seq<Step>)
    decreases |steps|
  {
    OutcomeInv(start, s) &&
    (steps != [] ==> Enabled(s, steps[0]) && OutcomeThroughout(start, Do(s, steps[0]), steps[1..]))
  }

  /** In any run: a read found a status exactly if the order exists, and written or marked
      deliveries have had their say. */
  ghost predicate BookInv(s: State) {
    (forall h | h in s.handlers && s.handlers[h].Read? ::
      s.handlers[h].seen.Some? <==> s.handlers[h].event.transfer in s.orders) &&
    (forall h | h in s.handlers && s.handlers[h].Written? :: Counted(s, s.handlers[h].event)) &&
    (forall e | e in s.marked :: Counted(s, e)) &&
    (forall id | id in s.events && s.events[id] :: exists e | e in s.marked :: e.eventId == id)
  }

  lemma AppliedToAppend(applied: seq<Application>, a: Application, transfer: string)
    ensures AppliedTo(applied + [a], transfer) ==
      AppliedTo(applied, transfer) + if a.transfer == transfer then [a.status] else []
  {
  }

  lemma OutcomeAfter(start: OrderStatus, applied: seq<Application>, a: Application, t: string)
    ensures Outcome(start, AppliedTo(applied + [a], t)) ==
      if a.transfer == t && Advances(Outcome(start, AppliedTo(applied, t)), a.status) then a.status
      else Outcome(start, AppliedTo(applied, t))
  {
    AppliedToAppend(applied, a, t);
    OutcomeStep(start, AppliedTo(applied, t), a.status);
    assert AppliedTo(applied, t) + [] == AppliedTo(applied, t);
  }

  lemma WriteKeepsOutcomeOf(start: OrderStatus, s: State, step: Step, t: string)
    requires Enabled(s, step) && step.WriteOrder? && BookInv(s)
    requires t in s.orders && s.orders[t] == Outcome(start, AppliedTo(s.applied, t))
    ensures t in Do(s, step).orders
    ensures Do(s, step).orders[t] == Outcome(start, AppliedTo(Do(s, step).applied, t)) <==>
      t != s.handlers[step.h].event.transfer || Harmless(s, step)
  {
    var e, seen := s.handlers[step.h].event, s.handlers[step.h].seen;
    if seen.Some? {
      OutcomeAfter(start, s.applied, ApplicationOf(e), t);
      WhichOrdersAdvance(seen.value, e.effect.value);
      WhichOrdersAdvance(s.orders[t], e.effect.value);
    }
  }

  /** A step keeps every order at its outcome exactly if it is harmless. */
  lemma KeepsOutcomeIffHarmless(start: map<string, OrderStatus>, s: State, step: Step)
    requires Enabled(s, step) && OutcomeInv(start, s) && BookInv(s)
    ensures OutcomeInv(start, Do(s, step)) <==> Harmless(s, step)
  {
    if step.WriteOrder? {
      var s' := Do(s, step);
      forall t | t in start
        ensures t in s.orders && t in s'.orders
        ensures s'.orders[t] == Outcome(start[t], AppliedTo(s'.applied, t)) <==>
          t != s.handlers[step.h].event.transfer || Harmless(s, step)
      {
        assert t in s.orders.Keys;
        WriteKeepsOutcomeOf(start[t], s, step, t);
      }
      assert s'.orders.Keys == s.orders.Keys;
    }
  }

  lemma StepKeepsBookInv(s: State, step: Step)
    requires Enabled(s, step) && BookInv(s)
    ensures BookInv(Do(s, step))
  {
    var s' := Do(s, step);
    assert s'.orders.Keys == s.orders.Keys;
    if step.Mark? {
      var e := s.handlers[step.h].event;
      assert Counted(s, e);
      assert e in s'.marked;
      forall x | x in s'.marked ensures Counted(s', x) {
        assert Counted(s, x);
      }
      forall id | id in s'.events && s'.events[id] ensures exists x | x in s'.marked :: x.eventId == id {
        if id != e.eventId {
          var x :| x in s.marked && x.eventId == id;
          assert x in s'.marked;
        }
      }
    } else {
      forall x | Counted(s, x) ensures Counted(s', x) {
      }
    }
  }

  lemma {:induction false} ThroughoutIffHarmless(start: map<string, OrderStatus>, s: State, steps: seq<Step>, s': State)
    requires Leads(s, steps, s') && OutcomeInv(start, s) && BookInv(s)
    ensures OutcomeThroughout(start, s, steps) <==> HarmlessRun(s, steps)
    ensures HarmlessRun(s, steps) ==> OutcomeInv(start, s')
    ensures BookInv(s')
    decreases |steps|
  {
    if steps != [] {
      KeepsOutcomeIffHarmless(start, s, steps[0]);
      StepKeepsBookInv(s, steps[0]);
      if OutcomeInv(start, Do(s, steps[0])) {
        ThroughoutIffHarmless(start, Do(s, steps[0]), steps[1..], s');
      } else {
        RunKeepsBookInv(Do(s, steps[0]), steps[1..], s');
      }
    }
  }

  lemma {:induction false} RunKeepsBookInv(s: State, steps: seq<Step>, s': State)
    requires Leads(s, steps, s') && BookInv(s)
    ensures BookInv(s')
    decreases |steps|
  {
    if steps != [] {
      StepKeepsBookInv(s, steps[0]);
      RunKeepsBookInv(Do(s, steps[0]), steps[1..], s');
    }
  }

  /** Whatever the deliveries, duplicates, crashes and interleavings, every order is at the outcome of
      the statuses applied to it all along a run exactly if every write of the run is harmless. */
  lemma StatusIsOutcomeIffHarmless(start: map<string, OrderStatus>, steps: seq<Step>, s: State)
    requires Leads(Start(start), steps, s)
    ensures OutcomeThroughout(start, Start(start), steps) <==> HarmlessRun(Start(start), steps)
  {
    ThroughoutIffHarmless(start, Start(start), steps, s);
  }

  /** In a harmless run an order ends at the outcome of the statuses applied to it. */
  lemma StatusIsOutcome(start: map<string, OrderStatus>, steps: seq<Step>, s: State)
    requires Leads(Start(start), steps, s) && HarmlessRun(Start(start), steps)
    ensures s.orders.Keys == start.Keys
    ensures forall t | t in s.orders :: s.orders[t] == Outcome(start[t], AppliedTo(s.applied, t))
  {
    ThroughoutIffHarmless(start, Start(start), steps, s);
  }

  /** In any run whatever, every delivery marked processed was itself applied to its order. */
  lemma MarkedWasApplied(start: map<string, OrderStatus>, steps: seq<Step>, s: State)
    requires Leads(Start(start), steps, s)
    ensures forall e | e in s.marked :: Counted(s, e)
    ensures forall id | id in s.events && s.events[id] :: exists e | e in s.marked :: e.eventId == id
  {
    RunKeepsBookInv(Start(start), steps, s);
  }

  lemma {:induction false} AppliedGrows(a: seq<Application>, b: seq<Application>, transfer: string)
    ensures AppliedTo(a, transfer) <= AppliedTo(a + b, transfer)
    decreases |b|
  {
    if b == [] {
      assert a + b == a;
    } else {
      var n := |b| - 1;
      assert a + b == (a + b[..n]) + [b[n]];
      AppliedToAppend(a + b[..n], b[n], transfer);
      AppliedGrows(a, b[..n], transfer);
    }
  }

  lemma AppliedPrefix(a: seq<Application>, b: seq<Application>, transfer: string)
    requires a <= b
    ensures AppliedTo(a, transfer) <= AppliedTo(b, transfer)
  {
    AppliedGrows(a, b[|a|..], transfer);
    assert a + b[|a|..] == b;
  }

  lemma {:induction false} RunExtends(s: State, steps: seq<Step>, s': State)
    requires Leads(s, steps, s')
    ensures s.applied <= s'.applied && s.marked <= s'.marked
    decreases |steps|
  {
    if steps != [] {
      RunExtends(Do(s, steps[0]), steps[1..], s');
    }
  }

  /** Terminal statuses are absorbing: from any state reached by any harmless run, no further
      harmless run moves an order out of SETTLED, FAILED or COMPLIANCE_HOLD. */
  lemma TerminalIsAbsorbing(
      start: map<string, OrderStatus>, first: seq<Step>, s: State, second: seq<Step>, s': State, transfer: string)
    requires Leads(Start(start), first, s) && HarmlessRun(Start(start), first)
    requires Leads(s, second, s') && HarmlessRun(s, second)
    requires transfer in s.orders && Terminal(s.orders[transfer])
    ensures transfer in s'.orders && s'.orders[transfer] == s.orders[transfer]
  {
    ThroughoutIffHarmless(start, Start(start), first, s);
    ThroughoutIffHarmless(start, s, second, s');
    RunExtends(s, second, s');
    AbsorbedIn(start, s, s', transfer);
  }

  lemma AbsorbedIn(start: map<string, OrderStatus>, s: State, s': State, transfer: string)
    requires OutcomeInv(start, s) && OutcomeInv(start, s') && s.applied <= s'.applied
    requires transfer in s.orders && Terminal(s.orders[transfer])
    ensures transfer in s'.orders && s'.orders[transfer] == s.orders[transfer]
  {
    assert transfer in s'.orders.Keys;
    AppliedPrefix(s.applied, s'.applied, transfer);
    OutcomeMonotone(start[transfer], AppliedTo(s.applied, transfer), AppliedTo(s'.applied, transfer));
  }

  lemma OutcomeMonotone(start: OrderStatus, a: seq<EventStatus>, b: seq<EventStatus>)
    requires a <= b && Terminal(Outcome(start, a))
    ensures Outcome(start, b) == Outcome(start, a)
  {
  }

  /** Once a delivery is marked processed, delivering the same event again, through to its write,
      changes no order exactly if that write is harmless. */
  lemma RedeliveryChangesNothing(start: map<string, OrderStatus>, steps: seq<Step>, s: State, h: nat)
    requires Leads(Start(start), steps, s) && HarmlessRun(Start(start), steps)
    requires Enabled(s, WriteOrder(h)) && s.handlers[h].event in s.marked
    ensures Do(s, WriteOrder(h)).orders == s.orders <==> Harmless(s, WriteOrder(h))
  {
    ThroughoutIffHarmless(start, Start(start), steps, s);
    var e := s.handlers[h].event;
    assert Counted(s, e);
    if e.transfer in s.orders {
      AgainOutcome(start[e.transfer], s.applied, e);
      WhichOrdersAdvance(s.handlers[h].seen.value, e.effect.value);
    }
  }

  /** An order to which an event was applied is in the event's status or in a terminal one. */
  lemma AgainOutcome(start: OrderStatus, applied: seq<Application>, e: Event)
    requires e.effect.Some? && ApplicationOf(e) in applied
    ensures var current := Outcome(start, AppliedTo(applied, e.transfer));
      current == e.effect.value || Terminal(current)
  {
    AppliedMember(applied, ApplicationOf(e));
    var list := AppliedTo(applied, e.transfer);
    ReprocessingIsHarmless(start, list, e.effect.value);
    OutcomeStep(start, list, e.effect.value);
  }

  ghost predicate Reachable(start: map<string, OrderStatus>, s: State) {
    exists steps :: Leads(Start(start), steps, s)
  }

  lemma StartReachable(start: map<string, OrderStatus>)
    ensures Reachable(start, Start(start))
  {
    assert Leads(Start(start), [], Start(start));
  }

  lemma {:induction false} LeadsAppend(s: State, steps: seq<Step>, s': State, step: Step)
    requires Leads(s, steps, s') && Enabled(s', step)
    ensures Leads(s, steps + [step], Do(s', step))
    decreases |steps|
  {
    if steps == [] {
      assert steps + [step] == [step] && [step][1..] == [];
      assert Leads(Do(s, step), [], Do(s', step));
    } else {
      assert (steps + [step])[1..] == steps[1..] + [step];
      LeadsAppend(Do(s, steps[0]), steps[1..], s', step);
    }
  }

  lemma Further(start: map<string, OrderStatus>, s: State, step: Step) returns (s': State)
    requires Reachable(start, s) && Enabled(s, step)
    ensures Reachable(start, s') && s' == Do(s, step)
  {
    var steps :| Leads(Start(start), steps, s);
    LeadsAppend(Start(start), steps, s, step);
    s' := Do(s, step);
  }

  /** A harmful write can undo a settlement: two deliveries read a CREATED order, one settles it,
      the other then writes IN_TRANSIT over it. */
  lemma HarmfulWriteUndoesSettlement() returns (s: State, step: Step)
    ensures Reachable(map["t" := Created], s) && s.orders == map["t" := Settled]
    ensures Enabled(s, step) && !Harmless(s, step) && Do(s, step).orders == map["t" := InTransit]
  {
    var ids := Ids("t", "", "", "");
    var a, b := EventOf(Delivery("a", "transfer.pending", None, ids)), EventOf(Delivery("b", "transfer.settled", None, ids));
    assert a == Event("a", "t", Some(InTransit)) && b == Event("b", "t", Some(Settled));
    s := RaceReached(a, b);
    step := WriteOrder(0);
  }

  lemma ReceiveStep(start: map<string, OrderStatus>, s: State, h: nat, e: Event) returns (s': State)
    requires Reachable(start, s) && h !in s.handlers && e.eventId !in s.events
    ensures Reachable(start, s') && s'.orders == s.orders && s'.handlers == s.handlers[h := Recorded(e)]
    ensures s'.events == s.events[e.eventId := false]
  {
    s' := Further(start, s, Receive(h, e));
  }

  lemma ReadStep(start: map<string, OrderStatus>, s: State, h: nat) returns (s': State)
    requires Reachable(start, s) && Enabled(s, ReadOrder(h))
    ensures Reachable(start, s') && s'.orders == s.orders
    ensures s'.handlers == s.handlers[h := Read(s.handlers[h].event, StatusOf(s, s.handlers[h].event.transfer))]
  {
    s' := Further(start, s, ReadOrder(h));
  }

  lemma WriteStep(start: map<string, OrderStatus>, s: State, h: nat) returns (s': State)
    requires Reachable(start, s) && Enabled(s, WriteOrder(h)) && s.handlers[h].seen.Some?
    requires Advances(s.handlers[h].seen.value, s.handlers[h].event.effect.value)
    ensures Reachable(start, s') && s'.handlers == s.handlers[h := Written(s.handlers[h].event)]
    ensures s'.orders == s.orders[s.handlers[h].event.transfer := s.handlers[h].event.effect.value]
  {
    s' := Further(start, s, WriteOrder(h));
  }

  /** Both deliveries are received before either reads. */
  lemma BothReceived(a: Event, b: Event) returns (s: State)
    requires a == Event("a", "t", Some(InTransit)) && b == Event("b", "t", Some(Settled))
    ensures Reachable(map["t" := Created], s) && s.orders == map["t" := Created]
    ensures s.handlers == map[0 := Recorded(a), 1 := Recorded(b)]
  {
    var start: map<string, OrderStatus> := map["t" := Created];
    StartReachable(start);
    s := ReceiveStep(start, Start(start), 0, a);
    s := ReceiveStep(start, s, 1, b);
  }

  /** Both read the order; the settling one writes it. */
  lemma RaceReached(a: Event, b: Event) returns (s: State)
    requires a == Event("a", "t", Some(InTransit)) && b == Event("b", "t", Some(Settled))
    ensures Reachable(map["t" := Created], s) && s.orders == map["t" := Settled]
    ensures 0 in s.handlers && s.handlers[0] == Read(a, Some(Created))
  {
    var start: map<string, OrderStatus> := map["t" := Created];
    s := BothReceived(a, b);
    s := ReadStep(start, s, 0);
    s := ReadStep(start, s, 1);
    s := WriteStep(start, s, 1);
  }

  // ---------------------------------------------------------------- the receiver

  /** Where a delivery is cut off, if it is. */
  datatype Cut = Nowhere | AfterInsert | AfterRead | AfterWrite

  /** What a request is answered. */
  datatype Answer = Malformed | Duplicate | Received

  class Receiver {
    var events: map<string, bool>
    var orders: map<string, OrderStatus>
    var handlers: map<nat, Handler>
    ghost var applied: seq<Application>
    ghost var marked: set<Event>

    ghost function Tables(): State
      reads this
    {
      State(events, orders, handlers, applied, marked)
    }

    constructor (orders: map<string, OrderStatus>)
      ensures Tables() == Start(orders)
    {
      this.events, this.orders, this.handlers := map[], orders, map[];
      this.applied, this.marked := [], {};
    }

    /** `insertEventRecord`, and the early answer to a processed duplicate. */
    method InsertEventRecord(h: nat, e: Event) returns (alreadyProcessed: bool)
      requires h !in handlers
      modifies this`events, this`handlers
      ensures alreadyProcessed <==> e.eventId in old(events) && old(events)[e.eventId]
      ensures Tables() == Do(old(Tables()), Receive(h, e))
      ensures !alreadyProcessed ==> h in handlers && handlers[h] == Recorded(e)
    {
      if e.eventId in events && events[e.eventId] {
        return true;
      }
      events := events[e.eventId := false];
      handlers := handlers[h := Recorded(e)];
      alreadyProcessed := false;
    }

    /** The SELECT of `applyOrderTransition`. */
    method SelectOrder(h: nat)
      requires Enabled(Tables(), ReadOrder(h))
      modifies this`handlers
      ensures Tables() == Do(old(Tables()), ReadOrder(h))
    {
      var e := handlers[h].event;
      var transfer := e.transfer;
      handlers := handlers[h := Read(e, if transfer in orders then Some(orders[transfer]) else None)];
    }

    /** The rank test and UPDATE of `applyOrderTransition`. */
    method UpdateOrder(h: nat)
      requires Enabled(Tables(), WriteOrder(h))
      modifies this`orders, this`handlers, this`applied
      ensures Tables() == Do(old(Tables()), WriteOrder(h))
    {
      var e, seen := handlers[h].event, handlers[h].seen;
      var transfer, status := e.transfer, e.effect.value;
      handlers := handlers[h := Written(e)];
      if seen.Some? {
        var currentRank, newRank := Rank(seen.value), Rank(status);
        if !(newRank <= currentRank && seen.value != InTransit) {
          orders := orders[transfer := status];
        }
        applied := applied + [ApplicationOf(e)];
      }
    }

    method MarkProcessed(h: nat)
      requires Enabled(Tables(), Mark(h))
      modifies this`events, this`handlers, this`marked
      ensures Tables() == Do(old(Tables()), Mark(h))
    {
      var e := handlers[h].event;
      events := events[e.eventId := true];
      handlers := handlers - {h};
      marked := marked + {e};
    }

    /** Reading and writing the order of a recorded delivery, cut off at `cut`. */
    method ApplyOrderTransition(h: nat, cut: Cut)
      requires Enabled(Tables(), ReadOrder(h)) && cut != AfterInsert
      modifies this`orders, this`handlers, this`applied
      ensures orders == TransitionedOrders(old(orders), old(handlers)[h].event, cut)
      ensures handlers.Keys == old(handlers).Keys && handlers - {h} == old(handlers) - {h}
      ensures cut != AfterRead ==> handlers[h] == Written(old(handlers)[h].event)
    {
      SelectOrder(h);
      if cut != AfterRead {
        UpdateOrder(h);
      }
    }

    /** One delivery handled without interleaving, cut off at `cut`. The order ends where its guarded
        transition takes it unless the cut came before the write; an uncut delivery is marked. */
    method Deliver(h: nat, e: Event, cut: Cut) returns (duplicate: bool)
      requires h !in handlers
      modifies this
      ensures Delivered(old(Tables()), e, cut, duplicate, Tables())
    {
      duplicate := InsertEventRecord(h, e);
      if !duplicate {
        assert handlers - {h} == old(handlers);
        if cut == AfterInsert {
          handlers := handlers - {h};
        } else {
          Process(h, cut);
        }
      }
    }

    /** What follows the insert of an event record. */
    method Process(h: nat, cut: Cut)
      requires h in handlers && handlers[h].Recorded? && cut != AfterInsert
      modifies this
      ensures var e := old(handlers)[h].event;
        && orders == TransitionedOrders(old(orders), e, cut)
        && handlers == old(handlers) - {h}
        && events == if cut == Nowhere || e.effect.None? then old(events)[e.eventId := true] else old(events)
    {
      if handlers[h].event.effect.None? {
        MarkProcessed(h);
        return;
      }
      ApplyOrderTransition(h, cut);
      if cut == Nowhere {
        MarkProcessed(h);
      } else {
        handlers := handlers - {h};
      }
    }

    /** The webhook handler on a whole request body; one without event id or type is refused. */
    method Handle(h: nat, d: Delivery, cut: Cut) returns (answer: Answer)
      requires h !in handlers
      modifies this
      ensures answer == Malformed <==> d.eventId == "" || d.eventType == ""
      ensures answer == Malformed ==> Tables() == old(Tables())
      ensures answer != Malformed ==> Delivered(old(Tables()), EventOf(d), cut, answer == Duplicate, Tables())
      ensures forall t | t in old(orders) && t != TransferIdOf(d) :: t in orders && orders[t] == old(orders)[t]
      ensures d.eventType in INFO_EVENTS ==> orders == old(orders)
    {
      if d.eventId == "" || d.eventType == "" {
        return Malformed;
      }
      var duplicate := Deliver(h, EventOf(d), cut);
      InformationalHasNoEffect(d);
      answer := if duplicate then Duplicate else Received;
    }
  }

  /** The orders after an event's guarded transition, if it was not cut off before its write. */
  function TransitionedOrders(orders: map<string, OrderStatus>, e: Event, cut: Cut): map<string, OrderStatus> {
    if cut in {Nowhere, AfterWrite} && e.effect.Some? && e.transfer in orders
      && Advances(orders[e.transfer], e.effect.value)
    then orders[e.transfer := e.effect.value] else orders
  }

  /** A delivery's whole effect: none if its event was processed before; otherwise its order makes
      its transition, and the event is recorded, processed exactly if the delivery was not cut off
      or had no order to move. */
  ghost predicate Delivered(s: State, e: Event, cut: Cut, duplicate: bool, s': State) {
    && (duplicate <==> e.eventId in s.events && s.events[e.eventId])
    && (duplicate ==> s' == s)
    && s'.handlers == s.handlers
    && s'.orders == (if duplicate then s.orders else TransitionedOrders(s.orders, e, cut))
    && (!duplicate ==>
          s'.events == s.events[e.eventId := cut == Nowhere || (e.effect.None? && cut != AfterInsert)])
  }

  /** An uncut hold request leaves its order in COMPLIANCE_HOLD unless it was SETTLED or FAILED,
      which it then stays. */
  lemma HoldsEnterUnlessDecided(s: State, d: Delivery, s': State)
    requires Delivered(s, EventOf(d), Nowhere, false, s') && d.eventType in HOLD_EVENTS
    requires TransferIdOf(d) != "" && TransferIdOf(d) in s.orders
    ensures TransferIdOf(d) in s'.orders
    ensures s'.orders[TransferIdOf(d)] ==
      if s.orders[TransferIdOf(d)] in {Settled, Failed} then s.orders[TransferIdOf(d)] else ComplianceHold
  {
    EffectiveDeliveries(d);
    WhichOrdersAdvance(s.orders[TransferIdOf(d)], ComplianceHold);
  }

  lemma InformationalHasNoEffect(d: Delivery)
    ensures d.eventType in INFO_EVENTS ==> EventOf(d).effect.None?
  {
  }
}
