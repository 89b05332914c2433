/** Handing events to a consumer through a bounded queue: most are dropped when it is
    full, and a `Lagged` marker later says how many; terminal ones wait for room. */
module Delivery {
  import opened Events
  import opened Json

  /** Which client the worker belongs to: over a websocket, or in process. */
  datatype Side = Remote | InProcess

  /** Where the worker stands.  `Announcing` and `Sending` hold the event of `deliver_event`
      before and after its first half; a blocking send stays there until there is room. */
  datatype Pc =
    | Idle
    | Announcing(event: Event)
    | Sending(event: Event)
    | Rejecting(id: nat)
    | RefusingUnknown(id: nat)
    | Stopped

  const USIZE_MAX: nat := 0xFFFF_FFFF_FFFF_FFFF

  /** A worker, its queue and its consumer.  `early` holds what arrived during the handshake.
      The fields after `pc` only record the history: what was received; what was handed over; drops the
      counter could not count; requests of unknown methods; requests answered with error -32001 (queue
      full) and with error -32601 (unknown method); those whose handling ended the worker; those dropped
      unanswered. */
  datatype Worker = Worker(
    side: Side,
    capacity: nat,
    early: seq<Event>,
    queue: seq<Event>,
    consumed: seq<Event>,
    open: bool,
    skipped: nat,
    pc: Pc,
    received: seq<Event>,
    delivered: seq<Event>,
    uncounted: nat,
    unknown: multiset<nat>,
    overloaded: multiset<nat>,
    unsupported: multiset<nat>,
    cause: Option<nat>,
    unknownCause: Option<nat>,
    lost: multiset<nat>)

  datatype Action =
    | Receive(e: Event)
    | ReceiveUnknown(id: nat)
    | Proceed
    | Written(ok: bool)
    | Quit
    | Take
    | HangUp

  /** Events a peer can cause: no lag markers, and transport ends only over a websocket. */
  predicate Arrives(side: Side, e: Event) {
    !e.Lagged? && (e.Disconnected? ==> side.Remote?)
  }

  function Init(side: Side, capacity: nat, early: seq<Event>): Worker {
    Worker(side, capacity, early, [], [], true, 0, Idle, early, early, 0,
           multiset{}, multiset{}, multiset{}, None, None, multiset{})
  }

  function SaturatingSucc(n: nat): nat {
    if n < USIZE_MAX then n + 1 else n
  }

  function RequestOf(e: Event): Option<nat> {
    if e.ServerRequest? then Some(e.id) else None
  }

  function Add(ids: multiset<nat>, id: nat): multiset<nat> {
    ids[id := ids[id] + 1]
  }

  /** The start of `deliver_event`. */
  function Deliver(w: Worker, e: Event): Worker {
    w.(received := w.received + [e], pc := if w.skipped > 0 then Announcing(e) else Sending(e))
  }

  /** `TrySendError::Full` */
  function Drop(w: Worker, e: Event): Worker {
    w.(skipped := SaturatingSucc(w.skipped),
       uncounted := if w.skipped < USIZE_MAX then w.uncounted else w.uncounted + 1,
       pc := if e.ServerRequest? then Rejecting(e.id) else Idle)
  }

  /** There is room: the marker or the event goes in. */
  function Push(w: Worker): Worker
    requires w.pc.Announcing? || w.pc.Sending?
  {
    if w.pc.Announcing? then
      w.(queue := w.queue + [Lagged(w.skipped)], delivered := w.delivered + [Lagged(w.skipped)], skipped := 0,
         pc := Sending(w.pc.event))
    else
      w.(queue := w.queue + [w.pc.event], delivered := w.delivered + [w.pc.event],
         pc := if w.pc.event.Disconnected? then Stopped else Idle)
  }

  /** `TrySendError::Closed`: the worker ends, or takes no more events. */
  function Abandon(w: Worker, e: Event): Worker {
    w.(pc := Stopped, cause := RequestOf(e))
  }

  /** One attempt at the queue. */
  function Attempt(w: Worker): Worker {
    if !(w.pc.Announcing? || w.pc.Sending?) then w
    else if !w.open then Abandon(w, w.pc.event)
    else if |w.queue| < w.capacity then Push(w)
    else if EventRequiresDelivery(w.pc.event) then w
    else Drop(w, w.pc.event)
  }

  function AfterWrite(w: Worker, ok: bool): Worker {
    match w.pc
    case Rejecting(id) =>
      if ok then w.(overloaded := Add(w.overloaded, id), pc := Idle)
      else if w.side.Remote? then w.(pc := Stopped, cause := Some(id))
      else w.(pc := Idle, lost := Add(w.lost, id))
    case RefusingUnknown(id) =>
      if ok then w.(unsupported := Add(w.unsupported, id), pc := Idle)
      else Deliver(w.(unknownCause := Some(id)), Disconnected("write failed"))
    case _ => w
  }

  /** `next_event`: what arrived during the handshake comes first. */
  function TakeOne(w: Worker): Worker {
    if !w.open then w
    else if w.early != [] then w.(early := w.early[1..], consumed := w.consumed + [w.early[0]])
    else if w.queue != [] then w.(queue := w.queue[1..], consumed := w.consumed + [w.queue[0]])
    else w
  }

  function Next(w: Worker, a: Action): Worker {
    match a
    case Receive(e) => if w.pc.Idle? && Arrives(w.side, e) then Deliver(w, e) else w
    case ReceiveUnknown(id) =>
      if w.pc.Idle? && w.side.Remote? then w.(pc := RefusingUnknown(id), unknown := Add(w.unknown, id)) else w
    case Proceed => Attempt(w)
    case Written(ok) => AfterWrite(w, ok)
    case Quit => if w.pc.Idle? then w.(pc := Stopped) else w
    case Take => TakeOne(w)
    case HangUp => w.(open := false)
  }

  function RunFrom(w: Worker, actions: seq<Action>): Worker
    decreases |actions|
  {
    if actions == [] then w else RunFrom(Next(w, actions[0]), actions[1..])
  }

  // ---------------------------------------------------------------- what a consumer can read off

  /** What was handed over is what the consumer took, then what it will take. */
  ghost predicate HandedOver(w: Worker) {
    w.delivered == w.consumed + w.early + w.queue
  }

  function InHand(w: Worker): seq<Event> {
    if w.pc.Announcing? || w.pc.Sending? then [w.pc.event] else []
  }

  function Weight(e: Event): nat {
    if e.Lagged? then e.skipped else 1
  }

  /** The position in the incoming stream that a consumer has reached after these events. */
  function Position(events: seq<Event>): nat {
    if events == [] then 0 else Position(events[..|events| - 1]) + Weight(events[|events| - 1])
  }

  /** Counting off events and lag markers finds every delivered event where it was received. */
  ghost predicate Decodes(delivered: seq<Event>, received: seq<Event>) {
    forall i :: 0 <= i < |delivered| && !delivered[i].Lagged? ==>
      Position(delivered[..i]) < |received| && received[Position(delivered[..i])] == delivered[i]
  }

  lemma {:induction false} PositionAppend(a: seq<Event>, b: seq<Event>)
    ensures Position(a + b) == Position(a) + Position(b)
  {
    if b == [] {
      assert a + b == a;
    } else {
      assert (a + b)[..|a + b| - 1] == a + b[..|b| - 1];
      PositionAppend(a, b[..|b| - 1]);
    }
  }

  lemma {:induction false} PositionUnlagged(events: seq<Event>)
    requires forall e :: e in events ==> !e.Lagged?
    ensures Position(events) == |events|
  {
    if events != [] { PositionUnlagged(events[..|events| - 1]); }
  }

  // ---------------------------------------------------------------- counting

  /** What is announced, dropped or delivered adds up, and counting off finds every delivered event. */
  ghost predicate Tally(delivered: seq<Event>, received: seq<Event>, hand: seq<Event>, skipped: nat, uncounted: nat,
                        open: bool)
  {
    && (open ==> Position(delivered) + skipped + uncounted + |hand| == |received|)
    && skipped + uncounted + |hand| <= |received|
    && (uncounted > 0 ==> |received| > USIZE_MAX)
    && (uncounted == 0 ==> Decodes(delivered, received))
  }

  ghost predicate Counting(w: Worker) {
    && Tally(w.delivered, w.received, InHand(w), w.skipped, w.uncounted, w.open)
    && (InHand(w) != [] ==> w.received != [] && w.received[|w.received| - 1] == w.pc.event && !w.pc.event.Lagged?)
    && (w.pc.Sending? ==> w.skipped == 0)
    && |w.queue| <= w.capacity
    && w.skipped <= USIZE_MAX
  }

  lemma DecodesAppend(delivered: seq<Event>, received: seq<Event>, e: Event)
    requires Decodes(delivered, received)
    requires e.Lagged? || (Position(delivered) + 1 == |received| && received[|received| - 1] == e)
    ensures Decodes(delivered + [e], received)
  {
    var more := delivered + [e];
    forall i | 0 <= i < |more| && !more[i].Lagged?
      ensures Position(more[..i]) < |received| && received[Position(more[..i])] == more[i]
    {
      assert more[..i] == delivered[..i];
      if i == |delivered| { assert delivered[..i] == delivered; }
    }
  }

  lemma NextHandsOver(w: Worker, a: Action)
    requires HandedOver(w)
    ensures HandedOver(Next(w, a))
  {
    if a.Take? && w.open && w.early != [] {
      assert w.early == [w.early[0]] + w.early[1..];
    } else if a.Take? && w.open && w.queue != [] {
      assert w.queue == [w.queue[0]] + w.queue[1..];
    }
  }

  lemma TallyMarker(delivered: seq<Event>, received: seq<Event>, hand: seq<Event>, skipped: nat, uncounted: nat)
    requires Tally(delivered, received, hand, skipped, uncounted, true)
    ensures Tally(delivered + [Lagged(skipped)], received, hand, 0, uncounted, true)
  {
    if uncounted == 0 { DecodesAppend(delivered, received, Lagged(skipped)); }
  }

  lemma TallyEvent(delivered: seq<Event>, received: seq<Event>, e: Event, uncounted: nat)
    requires Tally(delivered, received, [e], 0, uncounted, true)
    requires !e.Lagged? && received != [] && received[|received| - 1] == e
    ensures Tally(delivered + [e], received, [], 0, uncounted, true)
  {
    if uncounted == 0 { DecodesAppend(delivered, received, e); }
  }

  /** What a push puts into the queue. */
  function Pushed(w: Worker): Event
    requires w.pc.Announcing? || w.pc.Sending?
  {
    if w.pc.Announcing? then Lagged(w.skipped) else w.pc.event
  }

  lemma PushCounts(w: Worker)
    requires Counting(w) && InHand(w) != [] && w.open && |w.queue| < w.capacity
    ensures Counting(Push(w))
  {
    if w.pc.Announcing? {
      TallyMarker(w.delivered, w.received, InHand(w), w.skipped, w.uncounted);
    } else {
      TallyEvent(w.delivered, w.received, w.pc.event, w.uncounted);
    }
  }

  lemma AttemptCounts(w: Worker)
    requires Counting(w)
    ensures Counting(Attempt(w))
  {
    if InHand(w) != [] && w.open && |w.queue| < w.capacity { PushCounts(w); }
  }

  lemma DeliverCounts(w: Worker, e: Event)
    requires Counting(w) && InHand(w) == [] && !e.Lagged?
    ensures Counting(Deliver(w, e))
  {
  }

  lemma WriteCounts(w: Worker, ok: bool)
    requires Counting(w)
    ensures Counting(AfterWrite(w, ok))
  {
    if w.pc.RefusingUnknown? && !ok {
      DeliverCounts(w.(unknownCause := Some(w.pc.id)), Disconnected("write failed"));
    }
  }

  lemma NextCounts(w: Worker, a: Action)
    requires Counting(w)
    ensures Counting(Next(w, a))
  {
    match a
    case Receive(e) => if w.pc.Idle? && Arrives(w.side, e) { DeliverCounts(w, e); }
    case Proceed => AttemptCounts(w);
    case Written(ok) => WriteCounts(w, ok);
    case _ =>
  }

  // ---------------------------------------------------------------- terminal events and the end

  /** A `Disconnected` can only be the last event. */
  ghost predicate EndsStream(delivered: seq<Event>, done: bool) {
    forall i :: 0 <= i < |delivered| && delivered[i].Disconnected? ==> i == |delivered| - 1 && done
  }

  /** No terminal event is dropped while the consumer is there, and a delivered `Disconnected`
      is the last event, with nothing left unannounced. */
  ghost predicate Ending(w: Worker) {
    && (w.open ==> Terminals(w.received) == Terminals(w.delivered) + Terminals(InHand(w)))
    && EndsStream(w.delivered, w.pc.Stopped? && w.skipped == 0)
    && (w.pc.Announcing? ==> w.skipped > 0)
    && (w.pc.Sending? ==> w.skipped == 0)
  }

  lemma SingleTerminal(e: Event)
    ensures Terminals([e]) == if EventRequiresDelivery(e) then [e] else []
  {
    assert [e][..0] == [];
  }

  lemma DeliverEnds(w: Worker, e: Event)
    requires Ending(w) && InHand(w) == [] && !w.pc.Stopped?
    ensures Ending(Deliver(w, e))
  {
    TerminalsAppend(w.received, [e]);
  }

  lemma PushEnds(w: Worker)
    requires Ending(w) && InHand(w) != [] && w.open
    ensures Ending(Push(w))
  {
    TerminalsAppend(w.delivered, [Pushed(w)]);
    SingleTerminal(Pushed(w));
    SingleTerminal(w.pc.event);
  }

  lemma AttemptEnds(w: Worker)
    requires Ending(w)
    ensures Ending(Attempt(w))
  {
    if InHand(w) != [] {
      if !w.open {
      } else if |w.queue| < w.capacity {
        PushEnds(w);
      } else if !EventRequiresDelivery(w.pc.event) {
        SingleTerminal(w.pc.event);
      }
    }
  }

  lemma NextEnds(w: Worker, a: Action)
    requires Ending(w)
    ensures Ending(Next(w, a))
  {
    match a
    case Receive(e) => if w.pc.Idle? && Arrives(w.side, e) { DeliverEnds(w, e); }
    case Proceed => AttemptEnds(w);
    case Written(ok) =>
      if w.pc.RefusingUnknown? && !ok {
        DeliverEnds(w.(unknownCause := Some(w.pc.id)), Disconnected("write failed"));
      }
    case _ =>
  }

  // ---------------------------------------------------------------- server requests

  /** How often a server request occurs in a stream. */
  function Occurs(events: seq<Event>, id: nat): nat {
    if events == [] then 0
    else Occurs(events[..|events| - 1], id) + if events[|events| - 1] == ServerRequest(id) then 1 else 0
  }

  lemma OccursOneMore(events: seq<Event>, e: Event, id: nat)
    ensures Occurs(events + [e], id) == Occurs(events, id) + if e == ServerRequest(id) then 1 else 0
  {
    assert (events + [e])[..|events|] == events;
  }

  function Once(b: bool): nat {
    if b then 1 else 0
  }

  /** Whether the worker is busy with that server request. */
  predicate Holds(pc: Pc, id: nat) {
    || ((pc.Announcing? || pc.Sending?) && pc.event == ServerRequest(id))
    || pc == Rejecting(id)
  }

  /** Each server request read is one of: handed over, refused because the queue was full, the cause
      of the worker's end, lost, or still in its hand. */
  ghost predicate KnownAccounted(w: Worker, id: nat) {
    Occurs(w.received, id) ==
    Occurs(w.delivered, id) + w.overloaded[id] + Once(w.cause == Some(id)) + w.lost[id] + Once(Holds(w.pc, id))
  }

  /** Each request of an unknown method is refused as such, the cause of the end, or in hand. */
  ghost predicate UnknownAccounted(w: Worker, id: nat) {
    w.unknown[id] == w.unsupported[id] + Once(w.unknownCause == Some(id)) + Once(w.pc == RefusingUnknown(id))
  }

  /** At most one request ends the worker, and over a websocket none is lost. */
  ghost predicate Causes(w: Worker) {
    && (w.side.Remote? ==> forall id: nat :: w.lost[id] == 0)
    && (w.cause.Some? ==> w.pc.Stopped? && w.unknownCause.None?)
    && (w.unknownCause.Some? ==> w.pc.Stopped? || (InHand(w) != [] && w.pc.event.Disconnected?))
  }

  lemma DeliverAccounts(w: Worker, e: Event, id: nat)
    requires KnownAccounted(w, id) && !Holds(w.pc, id)
    ensures KnownAccounted(Deliver(w, e), id)
  {
    OccursOneMore(w.received, e, id);
  }

  lemma PushAccounts(w: Worker, id: nat)
    requires KnownAccounted(w, id) && InHand(w) != []
    ensures KnownAccounted(Push(w), id)
  {
    OccursOneMore(w.delivered, Pushed(w), id);
  }

  lemma AttemptAccounts(w: Worker, id: nat)
    requires KnownAccounted(w, id) && Causes(w)
    ensures KnownAccounted(Attempt(w), id)
  {
    if InHand(w) != [] && w.open && |w.queue| < w.capacity { PushAccounts(w, id); }
  }

  lemma WriteAccounts(w: Worker, ok: bool, id: nat)
    requires KnownAccounted(w, id) && Causes(w)
    ensures KnownAccounted(AfterWrite(w, ok), id)
  {
    if w.pc.RefusingUnknown? && !ok {
      DeliverAccounts(w.(unknownCause := Some(w.pc.id)), Disconnected("write failed"), id);
    }
  }

  lemma NextAccountsKnown(w: Worker, a: Action, id: nat)
    requires KnownAccounted(w, id) && Causes(w)
    ensures KnownAccounted(Next(w, a), id)
  {
    match a
    case Receive(e) => if w.pc.Idle? && Arrives(w.side, e) { DeliverAccounts(w, e, id); }
    case Proceed => AttemptAccounts(w, id);
    case Written(ok) => WriteAccounts(w, ok, id);
    case _ =>
  }

  lemma NextAccountsUnknown(w: Worker, a: Action, id: nat)
    requires UnknownAccounted(w, id) && Causes(w)
    ensures UnknownAccounted(Next(w, a), id)
  {
  }

  lemma NextKeepsCauses(w: Worker, a: Action)
    requires Causes(w)
    ensures Causes(Next(w, a))
  {
  }

  // ---------------------------------------------------------------- over all runs

  /** What the handshake keeps is neither a lag marker nor an end. */
  ghost predicate Starts(capacity: nat, early: seq<Event>) {
    capacity >= 1 && forall i :: 0 <= i < |early| ==> !early[i].Lagged? && !early[i].Disconnected?
  }

  ghost predicate AllAccounted(w: Worker) {
    forall id: nat :: KnownAccounted(w, id) && UnknownAccounted(w, id)
  }

  /** All that holds of a worker at every moment. */
  ghost predicate Sound(w: Worker) {
    HandedOver(w) && Counting(w) && Ending(w) && Causes(w) && AllAccounted(w)
  }

  lemma EarlyDecodes(capacity: nat, early: seq<Event>)
    requires Starts(capacity, early)
    ensures Decodes(early, early) && Position(early) == |early|
  {
    PositionUnlagged(early);
    forall i | 0 <= i < |early|
      ensures Position(early[..i]) == i
    {
      PositionUnlagged(early[..i]);
    }
  }

  lemma InitHandsOver(side: Side, capacity: nat, early: seq<Event>)
    ensures HandedOver(Init(side, capacity, early)) && Causes(Init(side, capacity, early))
  {
  }

  lemma EarlyTally(capacity: nat, early: seq<Event>)
    requires Starts(capacity, early)
    ensures Tally(early, early, [], 0, 0, true)
  {
    EarlyDecodes(capacity, early);
  }

  lemma InitCounts(side: Side, capacity: nat, early: seq<Event>)
    requires Starts(capacity, early)
    ensures Counting(Init(side, capacity, early))
  {
    EarlyTally(capacity, early);
  }

  lemma InitEnds(side: Side, capacity: nat, early: seq<Event>)
    requires Starts(capacity, early)
    ensures Ending(Init(side, capacity, early))
  {
  }

  lemma InitIsSound(side: Side, capacity: nat, early: seq<Event>)
    requires Starts(capacity, early)
    ensures Sound(Init(side, capacity, early))
  {
    forall id: nat
      ensures KnownAccounted(Init(side, capacity, early), id) && UnknownAccounted(Init(side, capacity, early), id)
    {
    }
    InitHandsOver(side, capacity, early);
    InitCounts(side, capacity, early);
    InitEnds(side, capacity, early);
  }

  lemma NextIsSound(w: Worker, a: Action)
    requires Sound(w)
    ensures Sound(Next(w, a))
  {
    NextHandsOver(w, a);
    NextCounts(w, a);
    NextEnds(w, a);
    NextKeepsCauses(w, a);
    forall id: nat
      ensures KnownAccounted(Next(w, a), id) && UnknownAccounted(Next(w, a), id)
    {
      NextAccountsKnown(w, a, id);
      NextAccountsUnknown(w, a, id);
    }
  }

  lemma {:induction false} RunsAreSound(w: Worker, actions: seq<Action>)
    requires Sound(w)
    ensures Sound(RunFrom(w, actions)) && RunFrom(w, actions).side == w.side
    decreases |actions|
  {
    if actions != [] {
      NextIsSound(w, actions[0]);
      RunsAreSound(Next(w, actions[0]), actions[1..]);
    }
  }

  /** Counting off a run's delivered events and lag markers gives, for every delivered event, the place
      at which it was received; and everything received is delivered, announced, still to be announced,
      in the worker's hand, or was dropped with the counter already at its limit. */
  lemma ConsumerDecodes(side: Side, capacity: nat, early: seq<Event>, actions: seq<Action>)
    requires Starts(capacity, early)
    ensures var r := RunFrom(Init(side, capacity, early), actions);
            && r.delivered == r.consumed + r.early + r.queue
            && (r.uncounted == 0 ==> Decodes(r.delivered, r.received))
            && (r.open ==> Position(r.delivered) + r.skipped + |InHand(r)| + r.uncounted == |r.received|)
            && (|r.received| <= 0xFFFF_FFFF_FFFF_FFFF ==> r.uncounted == 0)
  {
    InitIsSound(side, capacity, early);
    RunsAreSound(Init(side, capacity, early), actions);
  }

  function Announced(events: seq<Event>): nat {
    if events == [] then 0
    else Announced(events[..|events| - 1]) + if events[|events| - 1].Lagged? then events[|events| - 1].skipped else 0
  }

  function Kept(events: seq<Event>): nat {
    if events == [] then 0 else Kept(events[..|events| - 1]) + if events[|events| - 1].Lagged? then 0 else 1
  }

  lemma {:induction false} PositionSplits(events: seq<Event>)
    ensures Position(events) == Announced(events) + Kept(events)
  {
    if events != [] { PositionSplits(events[..|events| - 1]); }
  }

  /** Between two delivered events exactly the announced number of received ones are missing:
      delivered events keep their order, and the markers between them count the drops between them. */
  lemma GapsAreAnnounced(delivered: seq<Event>, received: seq<Event>, i: nat, j: nat)
    requires Decodes(delivered, received)
    requires i < j < |delivered| && !delivered[i].Lagged? && !delivered[j].Lagged?
    ensures var from, to := Position(delivered[..i]), Position(delivered[..j]);
            && from < to < |received| && received[from] == delivered[i] && received[to] == delivered[j]
            && (to - from - 1) - Kept(delivered[i + 1..j]) == Announced(delivered[i + 1..j])
  {
    assert delivered[..j] == delivered[..i + 1] + delivered[i + 1..j];
    assert delivered[..i + 1] == delivered[..i] + [delivered[i]];
    PositionAppend(delivered[..i + 1], delivered[i + 1..j]);
    PositionSplits(delivered[i + 1..j]);
  }

  /** While the consumer is there no terminal event is dropped, and a delivered `Disconnected` is the
      last event of the stream, with no drop left to announce. */
  lemma TerminalEventsSurvive(side: Side, capacity: nat, early: seq<Event>, actions: seq<Action>)
    requires Starts(capacity, early)
    ensures var r := RunFrom(Init(side, capacity, early), actions);
            && (r.open ==> Terminals(r.received) == Terminals(r.delivered) + Terminals(InHand(r)))
            && (forall i :: 0 <= i < |r.delivered| && r.delivered[i].Disconnected? ==>
                  i == |r.delivered| - 1 && r.skipped == 0 && InHand(r) == [])
  {
    InitIsSound(side, capacity, early);
    RunsAreSound(Init(side, capacity, early), actions);
  }

  /** No server request vanishes at the websocket client: each one read is handed over, refused
      because the queue was full, the cause of the worker's end, or in its hand; each one of an unknown
      method is refused as such, the cause of the end, or in its hand. */
  lemma NoRequestVanishes(capacity: nat, early: seq<Event>, actions: seq<Action>, id: nat)
    requires Starts(capacity, early)
    ensures var r := RunFrom(Init(Remote, capacity, early), actions);
            && Occurs(r.received, id) ==
               Occurs(r.delivered, id) + r.overloaded[id] + Once(r.cause == Some(id)) + Once(Holds(r.pc, id))
            && r.unknown[id] == r.unsupported[id] + Once(r.unknownCause == Some(id)) + Once(r.pc == RefusingUnknown(id))
            && (r.cause.Some? ==> r.pc.Stopped? && r.unknownCause.None?)
            && (r.unknownCause.Some? ==> r.pc.Stopped? || (InHand(r) != [] && r.pc.event.Disconnected?))
  {
    InitIsSound(Remote, capacity, early);
    RunsAreSound(Init(Remote, capacity, early), actions);
    assert KnownAccounted(RunFrom(Init(Remote, capacity, early), actions), id);
  }

  lemma {:induction false} RunOneMore(w: Worker, actions: seq<Action>, a: Action)
    ensures RunFrom(w, actions + [a]) == Next(RunFrom(w, actions), a)
    decreases |actions|
  {
    if actions == [] {
      assert (actions + [a])[1..] == [];
    } else {
      assert (actions + [a])[1..] == actions[1..] + [a];
      RunOneMore(Next(w, actions[0]), actions[1..], a);
    }
  }

  // ---------------------------------------------------------------- requests in process

  /** The step leaves the request without an answer: its refusal is not accepted, or it finds its consumer gone. */
  predicate Abandons(w: Worker, a: Action, id: nat) {
    || (a == Written(false) && w.pc == Rejecting(id))
    || (a == Proceed && !w.open && InHand(w) == [ServerRequest(id)])
  }

  ghost predicate AbandonedBy(w: Worker, actions: seq<Action>, id: nat) {
    exists i :: 0 <= i < |actions| && Abandons(RunFrom(w, actions[..i]), actions[i], id)
  }

  lemma AbandonedOneMore(w: Worker, actions: seq<Action>, a: Action, id: nat)
    ensures AbandonedBy(w, actions + [a], id) <==> AbandonedBy(w, actions, id) || Abandons(RunFrom(w, actions), a, id)
  {
    var more := actions + [a];
    assert more[..|actions|] == actions && more[|actions|] == a;
    forall i | 0 <= i < |actions|
      ensures more[..i] == actions[..i] && more[i] == actions[i]
    {
    }
    if AbandonedBy(w, more, id) && !Abandons(RunFrom(w, actions), a, id) {
      var i :| 0 <= i < |more| && Abandons(RunFrom(w, more[..i]), more[i], id);
      assert i < |actions|;
    }
    if Abandons(RunFrom(w, actions), a, id) {
      assert Abandons(RunFrom(w, more[..|actions|]), more[|actions|], id);
    }
    if AbandonedBy(w, actions, id) {
      var i :| 0 <= i < |actions| && Abandons(RunFrom(w, actions[..i]), actions[i], id);
      assert Abandons(RunFrom(w, more[..i]), more[i], id);
    }
  }

  /** What one in-process step records as unanswered. */
  lemma StepAbandons(w: Worker, a: Action, id: nat)
    requires w.side.InProcess? && Causes(w)
    ensures var v := Next(w, a);
            v.lost[id] > 0 || v.cause == Some(id) <==> w.lost[id] > 0 || w.cause == Some(id) || Abandons(w, a, id)
  {
  }

  lemma {:induction false} RecordsAbandoned(capacity: nat, early: seq<Event>, actions: seq<Action>, id: nat)
    requires Starts(capacity, early)
    ensures var r := RunFrom(Init(InProcess, capacity, early), actions);
            r.lost[id] > 0 || r.cause == Some(id) <==> AbandonedBy(Init(InProcess, capacity, early), actions, id)
    decreases |actions|
  {
    var w := Init(InProcess, capacity, early);
    if actions != [] {
      var before, a := actions[..|actions| - 1], actions[|actions| - 1];
      assert actions == before + [a];
      RecordsAbandoned(capacity, early, before, id);
      InitIsSound(InProcess, capacity, early);
      RunsAreSound(w, before);
      RunOneMore(w, before, a);
      StepAbandons(RunFrom(w, before), a, id);
      AbandonedOneMore(w, before, a, id);
    }
  }

  /** In process each request read is handed over, refused, without an answer, or in hand; and it is without
      an answer exactly if its refusal was not accepted or it found its consumer gone. */
  lemma InProcessAccount(capacity: nat, early: seq<Event>, actions: seq<Action>, id: nat)
    requires Starts(capacity, early)
    ensures var w := Init(InProcess, capacity, early);
            var r := RunFrom(w, actions);
            var accounted := Occurs(r.delivered, id) + r.overloaded[id] + Once(Holds(r.pc, id));
            && accounted <= Occurs(r.received, id)
            && (accounted < Occurs(r.received, id) <==> AbandonedBy(w, actions, id))
  {
    var w := Init(InProcess, capacity, early);
    InitIsSound(InProcess, capacity, early);
    RunsAreSound(w, actions);
    assert KnownAccounted(RunFrom(w, actions), id);
    RecordsAbandoned(capacity, early, actions, id);
  }

  /** Both happen: with the one place taken and the refusal not accepted, ... */
  lemma InProcessRefusalCanBeLost()
    ensures AbandonedBy(Init(InProcess, 1, []),
                        [Receive(ServerRequest(1)), Proceed, Receive(ServerRequest(7)), Proceed, Written(false)], 7)
  {
    var w := Init(InProcess, 1, []);
    var a := [Receive(ServerRequest(1)), Proceed, Receive(ServerRequest(7)), Proceed, Written(false)];
    FirstTakesPlace(a[..2]);
    RunOneMore(w, a[..2], a[2]);
    RunOneMore(w, a[..3], a[3]);
    assert a[..2] + [a[2]] == a[..3] && a[..3] + [a[3]] == a[..4];
    assert Abandons(RunFrom(w, a[..4]), a[4], 7);
  }

  lemma FirstTakesPlace(a: seq<Action>)
    requires a == [Receive(ServerRequest(1)), Proceed]
    ensures var r := RunFrom(Init(InProcess, 1, []), a);
            r.queue == [ServerRequest(1)] && r.pc.Idle? && r.open && r.side.InProcess? && r.capacity == 1
  {
    var w := Init(InProcess, 1, []);
    RunOneMore(w, a[..0], a[0]);
    RunOneMore(w, a[..1], a[1]);
    assert a[..0] + [a[0]] == a[..1] && a[..1] + [a[1]] == a;
  }

  /** ... and with a consumer that hung up. */
  lemma InProcessRequestCanFindConsumerGone()
    ensures AbandonedBy(Init(InProcess, 1, []), [HangUp, Receive(ServerRequest(7)), Proceed], 7)
  {
    var w := Init(InProcess, 1, []);
    var a := [HangUp, Receive(ServerRequest(7)), Proceed];
    RunOneMore(w, a[..0], a[0]);
    RunOneMore(w, a[..1], a[1]);
    assert a[..0] + [a[0]] == a[..1] && a[..1] + [a[1]] == a[..2];
    assert InHand(RunFrom(w, a[..2])) == [ServerRequest(7)] && !RunFrom(w, a[..2]).open;
  }

  // ---------------------------------------------------------------- the worker itself

  /** What the consumer does while the worker is at work. */
  datatype Move = Takes | Leaves

  datatype SendResult = Sent | Full | Closed | Waiting

  datatype Outcome = Queued | Dropped | ChannelClosed | WriteFailed | Blocked

  function Marker(skipped: nat): seq<Event> {
    if skipped > 0 then [Lagged(skipped)] else []
  }

  /** An error written back to the server for one of its requests. */
  datatype Reply = Reply(id: nat, code: int)

  const METHOD_NOT_FOUND := -32601
  const EVENT_QUEUE_FULL := -32001

  /** The worker's own steps and its consumer's moves, but nothing read from outside. */
  predicate OwnStep(a: Action) {
    a.Proceed? || a.Written? || a.Take? || a.HangUp?
  }

  ghost predicate Continues(before: seq<Action>, after: seq<Action>) {
    before <= after && forall i :: |before| <= i < |after| ==> OwnStep(after[i])
  }

  class EventWorker {
    const side: Side
    const capacity: nat
    var early: seq<Event>
    var queue: seq<Event>
    var consumed: seq<Event>
    var open: bool
    var skippedEvents: nat
    ghost const handshake: seq<Event>
    ghost var history: seq<Action>
    ghost var log: Worker

    /** The log is where the worker has come from its start, and the fields are those of the log. */
    ghost predicate Linked()
      reads this
    {
      && Starts(capacity, handshake) && log == RunFrom(Init(side, capacity, handshake), history)
      && log.side == side && log.capacity == capacity && log.early == early && log.queue == queue
      && log.consumed == consumed && log.open == open
    }

    ghost predicate Valid()
      reads this
    {
      Linked() && log.skipped == skippedEvents
    }

    /** A worker that starts with what the handshake kept. */
    constructor (side: Side, capacity: nat, early: seq<Event>)
      requires Starts(capacity, early)
      ensures Valid() && history == [] && log == Init(side, capacity, early)
    {
      this.side, this.capacity, this.early := side, capacity, early;
      queue, consumed, open, skippedEvents := [], [], true, 0;
      handshake, history, log := early, [], Init(side, capacity, early);
    }

    /** Wherever the worker has come, all that holds over every run holds. */
    lemma LogIsSound()
      requires Linked()
      ensures Sound(log)
    {
      InitIsSound(side, capacity, handshake);
      RunsAreSound(Init(side, capacity, handshake), history);
    }

    lemma LogFacts()
      requires Linked()
      ensures |queue| <= capacity && (log.pc.Sending? ==> log.skipped == 0) && (log.pc.Announcing? ==> log.skipped > 0)
      ensures InHand(log) != [] ==> !log.pc.event.Lagged?
      ensures log.cause.None? || log.pc.Stopped?
    {
      LogIsSound();
    }

    /** One step of the worker or its consumer. */
    ghost method Record(a: Action)
      requires Linked()
      modifies `log, `history
      ensures log == Next(old(log), a) && history == old(history) + [a]
      ensures log == RunFrom(Init(side, capacity, handshake), history)
    {
      RunOneMore(Init(side, capacity, handshake), history, a);
      log, history := Next(log, a), history + [a];
    }

    /** `next_event`, when something is there. */
    method NextEvent() returns (e: Option<Event>)
      requires Valid()
      modifies this
      ensures Valid() && log == TakeOne(old(log)) && history == old(history) + [Take]
      ensures consumed == old(consumed) + (match e case Some(x) => [x] case None => [])
      ensures e.None? <==> !old(open) || old(early + queue) == []
    {
      Record(Take);
      if !open { return None; }
      if early != [] {
        e := Some(early[0]);
        consumed, early := consumed + [early[0]], early[1..];
      } else if queue != [] {
        e := Some(queue[0]);
        consumed, queue := consumed + [queue[0]], queue[1..];
      } else {
        e := None;
      }
    }

    method ConsumerMoves(move: Move)
      requires Linked()
      modifies this
      ensures Linked() && skippedEvents == old(skippedEvents)
      ensures log == Next(old(log), if move.Takes? then Take else HangUp)
      ensures Continues(old(history), history)
    {
      var a := if move.Takes? then Take else HangUp;
      Record(a);
      if move.Leaves? {
        open := false;
      } else if open && early != [] {
        consumed, early := consumed + [early[0]], early[1..];
      } else if open && queue != [] {
        consumed, queue := consumed + [queue[0]], queue[1..];
      }
    }

    /** `try_send` of what is in hand. */
    method TrySend(e: Event) returns (r: SendResult)
      requires Linked() && InHand(log) != [] && e == Pushed(log)
      modifies this
      ensures Linked() && skippedEvents == old(skippedEvents) && !r.Waiting?
      ensures r == (if !open then Closed else if |old(queue)| < capacity then Sent else Full)
      ensures log == if r.Full? then old(log) else Attempt(old(log))
      ensures open == old(open) && Continues(old(history), history)
    {
      LogFacts();
      if !open {
        Record(Proceed);
        return Closed;
      }
      if |queue| < capacity {
        Record(Proceed);
        queue := queue + [e];
        return Sent;
      }
      return Full;
    }

    /** `send`, which waits while the consumer makes its moves. */
    method Send(e: Event, moves: seq<Move>) returns (r: SendResult, left: seq<Move>)
      requires Linked() && InHand(log) != [] && e == Pushed(log) && EventRequiresDelivery(log.pc.event)
      modifies this
      ensures Linked() && skippedEvents == old(skippedEvents) && log.received == old(log.received) && !r.Full?
      ensures Continues(old(history), history)
      ensures old(open) && old(|queue|) < capacity ==> r.Sent? && open && |queue| == old(|queue|) + 1
      ensures r.Sent? ==> log.delivered == old(log.delivered) + [e]
      ensures r.Sent? ==> log.pc == Push(old(log)).pc && log.skipped == Push(old(log)).skipped
      ensures !r.Sent? ==> log.skipped == old(log.skipped)
      ensures r.Closed? ==> !open && log.pc.Stopped? && log.delivered == old(log.delivered)
      ensures r.Waiting? ==>
        open && |queue| == capacity && left == [] && log.pc == old(log.pc) && log.delivered == old(log.delivered)
    {
      LogFacts();
      left := moves;
      while open && |queue| >= capacity && left != []
        invariant Linked() && skippedEvents == old(skippedEvents)
        invariant log.received == old(log.received) && log.pc == old(log.pc)
        invariant log.delivered == old(log.delivered) && log.skipped == old(log.skipped)
        invariant Continues(old(history), history)
        invariant old(open) && old(|queue|) < capacity ==> open && queue == old(queue)
        decreases |left|
      {
        ConsumerMoves(left[0]);
        left := left[1..];
      }
      LogFacts();
      if open && |queue| >= capacity { return Waiting, left; }
      r := TrySend(e);
    }

    /** The refusal of a server request that was dropped. */
    method RejectIfServerRequestDropped(event: Event, written: bool) returns (ok: bool, sent: Option<Reply>)
      requires Linked() && (if event.ServerRequest? then log.pc == Rejecting(event.id) else log.pc.Idle?)
      modifies this
      ensures Linked() && skippedEvents == old(skippedEvents) && log.skipped == old(log.skipped)
      ensures log.received == old(log.received) && log.delivered == old(log.delivered)
      ensures open == old(open) && queue == old(queue) && Continues(old(history), history)
      ensures ok <==> !event.ServerRequest? || written || side.InProcess?
      ensures if ok then log.pc.Idle? else log.pc.Stopped? && log.cause == Some(event.id)
      ensures event.ServerRequest? && written ==> log.overloaded == Add(old(log.overloaded), event.id)
      ensures sent == if event.ServerRequest? && written then Some(Reply(event.id, -32001)) else None
    {
      if !event.ServerRequest? { return true, None; }
      Record(Written(written));
      ok := written || side.InProcess?;
      sent := if written then Some(Reply(event.id, EVENT_QUEUE_FULL)) else None;
    }

    /** A server request of a method this client does not know. */
    method RejectUnknownRequest(id: nat, written: bool) returns (sent: Option<Reply>)
      requires Valid() && log.pc.Idle? && side.Remote?
      modifies this
      ensures Valid() && log.delivered == old(log.delivered)
      ensures sent == if written then Some(Reply(id, -32601)) else None
      ensures written ==> log.pc.Idle? && log.unsupported == Add(old(log.unsupported), id)
      ensures !written ==> log.unknownCause == Some(id) && exists m :: InHand(log) == [Disconnected(m)]
    {
      Record(ReceiveUnknown(id));
      Record(Written(written));
      if !written { assert InHand(log) == [Disconnected("write failed")]; }
      sent := if written then Some(Reply(id, METHOD_NOT_FOUND)) else None;
    }

    /** The queue is full: count the event and refuse the request it may have been. */
    method Discard(event: Event, written: bool) returns (outcome: Outcome)
      requires Valid() && InHand(log) == [event] && open && |queue| >= capacity && !EventRequiresDelivery(event)
      modifies this
      ensures Valid() && log.received == old(log.received) && log.delivered == old(log.delivered)
      ensures skippedEvents == SaturatingSucc(old(skippedEvents))
      ensures open == old(open) && queue == old(queue) && Continues(old(history), history)
      ensures outcome.Dropped? || outcome.WriteFailed?
      ensures outcome.Dropped? ==> log.pc.Idle?
      ensures outcome.WriteFailed? ==> side.Remote? && event.ServerRequest? && !written && log.pc.Stopped?
    {
      LogFacts();
      Record(Proceed);
      skippedEvents := SaturatingSucc(skippedEvents);
      var ok, _ := RejectIfServerRequestDropped(event, written);
      outcome := if ok then Dropped else WriteFailed;
    }

    /** The first half of `deliver_event`: announce what was skipped. */
    method Announce(event: Event, moves: seq<Move>, written: bool) returns (end: Option<Outcome>, left: seq<Move>)
      requires Valid() && log.pc == Announcing(event)
      modifies this
      ensures Valid() && log.received == old(log.received) && end != Some(Queued) && Continues(old(history), history)
      ensures old(open) && old(|queue|) < capacity ==> end.None? && open && |queue| == old(|queue|) + 1
      ensures end in {Some(Dropped), Some(WriteFailed)} ==> open && |queue| == capacity
      ensures end.None? ==>
        log.pc == Sending(event) && log.delivered == old(log.delivered) + [Lagged(old(skippedEvents))]
      ensures end == Some(Dropped) ==> !EventRequiresDelivery(event) && log.pc.Idle?
      ensures end == Some(Dropped) ==>
        log.delivered == old(log.delivered) && skippedEvents == SaturatingSucc(old(skippedEvents))
      ensures end == Some(ChannelClosed) ==> !open && log.pc.Stopped?
      ensures end == Some(WriteFailed) ==> side.Remote? && event.ServerRequest? && !written && log.pc.Stopped?
      ensures end == Some(Blocked) ==>
        EventRequiresDelivery(event) && open && |queue| == capacity && InHand(log) == [event]
    {
      LogFacts();
      var r: SendResult;
      left := moves;
      if EventRequiresDelivery(event) {
        r, left := Send(Lagged(skippedEvents), left);
      } else {
        r := TrySend(Lagged(skippedEvents));
      }
      match r {
        case Closed => end := Some(ChannelClosed);
        case Waiting => end := Some(Blocked);
        case Sent =>
          skippedEvents := 0;
          end := None;
        case Full =>
          var outcome := Discard(event, written);
          end := Some(outcome);
      }
    }

    /** The second half of `deliver_event`: hand over the event itself. */
    method HandOver(event: Event, moves: seq<Move>, written: bool) returns (outcome: Outcome)
      requires Valid() && log.pc == Sending(event)
      modifies this
      ensures Valid() && log.received == old(log.received) && Continues(old(history), history)
      ensures old(open) && old(|queue|) < capacity ==> outcome.Queued?
      ensures outcome in {Dropped, WriteFailed} ==> open && |queue| == capacity
      ensures outcome.Queued? ==> skippedEvents == 0 && log.delivered == old(log.delivered) + [event]
      ensures outcome.Dropped? ==> !EventRequiresDelivery(event) && log.pc.Idle?
      ensures outcome.Dropped? ==> log.delivered == old(log.delivered) && skippedEvents == 1
      ensures outcome.ChannelClosed? ==> !open && log.pc.Stopped?
      ensures outcome.WriteFailed? ==> side.Remote? && event.ServerRequest? && !written && log.pc.Stopped?
      ensures outcome.Blocked? ==> EventRequiresDelivery(event) && open && |queue| == capacity && InHand(log) == [event]
    {
      LogFacts();
      var r: SendResult;
      if EventRequiresDelivery(event) {
        var left;
        r, left := Send(event, moves);
      } else {
        r := TrySend(event);
      }
      match r {
        case Closed => outcome := ChannelClosed;
        case Waiting => outcome := Blocked;
        case Sent => outcome := Queued;
        case Full => outcome := Discard(event, written);
      }
    }

    /** `deliver_event` on an event that has just been read.  What was skipped is announced first.  The
        event is dropped only if it is not terminal and the queue is full, and with room for marker and
        event it is queued.  What happens is a run of the worker's own steps and the consumer's moves. */
    method DeliverEvent(event: Event, moves: seq<Move>, written: bool) returns (outcome: Outcome)
      requires Valid() && log.pc.Idle? && Arrives(side, event)
      modifies this
      ensures Valid() && log.received == old(log.received) + [event]
      ensures Continues(old(history) + [Receive(event)], history)
      ensures old(open) && old(|queue|) + |Marker(old(skippedEvents))| < capacity ==> outcome.Queued?
      ensures outcome in {Dropped, WriteFailed} ==> open && |queue| == capacity
      ensures outcome.Queued? ==>
        skippedEvents == 0 && log.delivered == old(log.delivered) + Marker(old(skippedEvents)) + [event]
      ensures outcome.Dropped? ==> !EventRequiresDelivery(event) && log.pc.Idle?
      ensures outcome.Dropped? ==>
              || (&& log.delivered == old(log.delivered)
                  && skippedEvents == if old(skippedEvents) < 0xFFFF_FFFF_FFFF_FFFF then old(skippedEvents) + 1
                                      else old(skippedEvents))
              || (log.delivered == old(log.delivered) + Marker(old(skippedEvents)) && skippedEvents == 1)
      ensures outcome.ChannelClosed? ==> !open && log.pc.Stopped?
      ensures outcome.WriteFailed? ==> side.Remote? && event.ServerRequest? && !written && log.pc.Stopped?
      ensures outcome.Blocked? ==> EventRequiresDelivery(event) && open && |queue| == capacity && InHand(log) == [event]
    {
      Record(Receive(event));
      var left := moves;
      if skippedEvents > 0 {
        var end;
        end, left := Announce(event, left, written);
        if end.Some? { return end.value; }
      }
      outcome := HandOver(event, left, written);
    }
  }
}
