/** The in-process path: the runtime's event queue feeding the client's worker and its queue. */
module Pipeline {
  import opened Json
  import opened Events
  import D = Delivery

  /** The runtime loop holds a message until it has found room for it or given it up. */
  datatype RuntimePc = Ready | Holding(event: Event) | Over

  /** Both stages.  `alive` says that the worker still has the handle of the runtime's queue.  The fields
      after `facade` record the history: every message taken from the writer, of each settled one whether
      it got into the runtime's queue, every event put there, and requests failed back because that queue
      was full or closed. */
  datatype System = System(
    runtime: RuntimePc,
    capacity: nat,
    queue: seq<Event>,
    alive: bool,
    facade: D.Worker,
    taken: seq<Event>,
    fates: seq<bool>,
    forwarded: seq<Event>,
    overloaded: multiset<nat>,
    internal: multiset<nat>)

  datatype Action =
    | TakeOutgoing(e: Event)
    | Forward
    | Pull
    | Facade(step: D.Action)
    | DropHandle

  function Init(capacity: nat): System {
    System(Ready, capacity, [], true, D.Init(D.InProcess, capacity, []), [], [], [], multiset{}, multiset{})
  }

  /** What the writer carries besides responses. */
  predicate Outgoing(e: Event) {
    e.ServerNotification? || e.LegacyNotification? || e.ServerRequest?
  }

  const OVERLOADED_ERROR_CODE := -32001
  const INTERNAL_ERROR_CODE := -32603

  /** What becomes of a message at the runtime's queue. */
  datatype Fate = Forwarded | FailedBack(code: int) | DroppedSilently | LoopEnds | Waits

  function FateOf(e: Event, alive: bool, room: bool): Fate {
    if alive && room then Forwarded
    else if e.ServerRequest? then FailedBack(if alive then OVERLOADED_ERROR_CODE else INTERNAL_ERROR_CODE)
    else if !alive then LoopEnds
    else if RuntimeRequiresDelivery(e) then Waits
    else DroppedSilently
  }

  /** One attempt at the runtime's queue. */
  function ForwardOne(s: System): System {
    match s.runtime
    case Holding(e) =>
      (match FateOf(e, s.alive, |s.queue| < s.capacity)
       case Forwarded =>
         s.(queue := s.queue + [e], forwarded := s.forwarded + [e], fates := s.fates + [true], runtime := Ready)
       case FailedBack(code) =>
         if code == OVERLOADED_ERROR_CODE then
           s.(overloaded := D.Add(s.overloaded, e.id), fates := s.fates + [false], runtime := Ready)
         else s.(internal := D.Add(s.internal, e.id), fates := s.fates + [false], runtime := Ready)
       case DroppedSilently => s.(fates := s.fates + [false], runtime := Ready)
       case LoopEnds => s.(fates := s.fates + [false], runtime := Over)
       case Waits => s)
    case _ => s
  }

  /** A message has left the runtime's hand: let into the queue, or not; failed back as `overloaded` or
      `internal`, or not. */
  ghost predicate Gone(s: System, v: System, letIn: seq<Event>, overloaded: multiset<nat>, internal: multiset<nat>) {
    && v.runtime == Ready && v.fates == s.fates + [letIn != []] && v.taken == s.taken && v.alive == s.alive
    && v.queue == s.queue + letIn && v.forwarded == s.forwarded + letIn && v.facade == s.facade
    && v.overloaded == s.overloaded + overloaded && v.internal == s.internal + internal
  }

  /** What an attempt at the runtime's queue does with a message, case by case. */
  lemma AttemptMeans(s: System, e: Event)
    requires s.runtime == Holding(e) && Outgoing(e)
    ensures var v := ForwardOne(s);
            if s.alive && |s.queue| < s.capacity then Gone(s, v, [e], multiset{}, multiset{})
            else if e.ServerRequest? && s.alive then Gone(s, v, [], multiset{e.id}, multiset{})
            else if e.ServerRequest? then Gone(s, v, [], multiset{}, multiset{e.id})
            else if !s.alive then v == s.(fates := s.fates + [false], runtime := Over)
            else if EventRequiresDelivery(e) then v == s
            else Gone(s, v, [], multiset{}, multiset{})
  {
    LayersAgree(e);
  }

  function Next(s: System, a: Action): System {
    match a
    case TakeOutgoing(e) =>
      if s.runtime.Ready? && Outgoing(e) then s.(runtime := Holding(e), taken := s.taken + [e]) else s
    case Forward => ForwardOne(s)
    case Pull =>
      if s.alive && s.facade.pc.Idle? && s.queue != [] then
        s.(queue := s.queue[1..], facade := D.Next(s.facade, D.Receive(s.queue[0])))
      else s
    case Facade(step) => if step.Receive? then s else s.(facade := D.Next(s.facade, step))
    case DropHandle => if s.facade.pc.Stopped? then s.(alive := false) else s
  }

  function RunFrom(s: System, actions: seq<Action>): System
    decreases |actions|
  {
    if actions == [] then s else RunFrom(Next(s, actions[0]), actions[1..])
  }

  function RuntimeHand(s: System): seq<Event> {
    if s.runtime.Holding? then [s.runtime.event] else []
  }

  // ---------------------------------------------------------------- the stages fit together

  /** The runtime's queue holds what was forwarded and not yet pulled. */
  ghost predicate Joined(s: System) {
    && s.forwarded == s.facade.received + s.queue
    && (forall i :: 0 <= i < |s.queue| ==> Outgoing(s.queue[i]))
    && (s.runtime.Holding? ==> Outgoing(s.runtime.event))
  }

  /** Terminal events are forwarded in order, or in the runtime's hand. */
  ghost predicate KeepsTerminals(s: System) {
    s.alive ==> Terminals(s.taken) == Terminals(s.forwarded) + Terminals(RuntimeHand(s))
  }

  /** A request that reached the runtime is forwarded, failed back, or in its hand. */
  ghost predicate KeepsRequest(s: System, id: nat) {
    D.Occurs(s.taken, id) ==
    D.Occurs(s.forwarded, id) + s.overloaded[id] + s.internal[id] + D.Once(s.runtime == Holding(ServerRequest(id)))
  }

  lemma OnlyReceiveReceives(w: D.Worker, step: D.Action)
    requires w.side.InProcess? && !step.Receive? && !w.pc.RefusingUnknown? && w.early == []
    ensures D.Next(w, step).received == w.received && D.Next(w, step).side == w.side
    ensures !D.Next(w, step).pc.RefusingUnknown? && D.Next(w, step).early == []
  {
  }

  ghost predicate InProcessFacade(s: System) {
    s.facade.side.InProcess? && !s.facade.pc.RefusingUnknown? && s.facade.early == []
  }

  lemma PullJoins(s: System)
    requires Joined(s) && InProcessFacade(s) && s.alive && s.facade.pc.Idle? && s.queue != []
    ensures Joined(Next(s, Pull)) && InProcessFacade(Next(s, Pull))
  {
    assert s.queue == [s.queue[0]] + s.queue[1..];
    assert Outgoing(s.queue[0]);
    forall i | 0 <= i < |s.queue[1..]| ensures Outgoing(s.queue[1..][i]) { assert s.queue[1..][i] == s.queue[i + 1]; }
  }

  lemma ForwardJoins(s: System)
    requires Joined(s)
    ensures Joined(ForwardOne(s)) && ForwardOne(s).facade == s.facade
  {
  }

  lemma NextJoins(s: System, a: Action)
    requires Joined(s) && InProcessFacade(s)
    ensures Joined(Next(s, a)) && InProcessFacade(Next(s, a))
  {
    match a
    case TakeOutgoing(_) =>
    case Forward => ForwardJoins(s);
    case Pull => if s.alive && s.facade.pc.Idle? && s.queue != [] { PullJoins(s); }
    case Facade(step) => if !step.Receive? { OnlyReceiveReceives(s.facade, step); }
    case DropHandle =>
  }

  lemma TerminalMoves(taken: seq<Event>, forwarded: seq<Event>, e: Event)
    requires Terminals(taken) == Terminals(forwarded) + Terminals([e])
    ensures Terminals(taken) == Terminals(forwarded + [e]) + Terminals([])
    ensures !EventRequiresDelivery(e) ==> Terminals(taken) == Terminals(forwarded) + Terminals([])
  {
    D.SingleTerminal(e);
    TerminalsAppend(forwarded, [e]);
  }

  /** A message that is let in, or given up without being terminal, leaves the account of terminal events right. */
  lemma SettlingKeepsTerminals(s: System, v: System, e: Event)
    requires KeepsTerminals(s) && RuntimeHand(s) == [e] && RuntimeHand(v) == []
    requires v.taken == s.taken && v.alive == s.alive
    requires v.forwarded == s.forwarded + [e] || (v.forwarded == s.forwarded && (s.alive ==> !EventRequiresDelivery(e)))
    ensures KeepsTerminals(v)
  {
    if s.alive { TerminalMoves(s.taken, s.forwarded, e); }
  }

  lemma ForwardFields(s: System)
    requires s.runtime.Holding? && Outgoing(s.runtime.event)
    ensures var v, e := ForwardOne(s), s.runtime.event;
            || v == s
            || (&& RuntimeHand(v) == [] && v.taken == s.taken && v.alive == s.alive
                && (|| v.forwarded == s.forwarded + [e]
                    || (v.forwarded == s.forwarded && (s.alive ==> !EventRequiresDelivery(e)))))
  {
    LayersAgree(s.runtime.event);
  }

  lemma ForwardKeepsTerminals(s: System)
    requires KeepsTerminals(s) && Joined(s)
    ensures KeepsTerminals(ForwardOne(s))
  {
    if s.runtime.Holding? {
      ForwardFields(s);
      if ForwardOne(s) != s { SettlingKeepsTerminals(s, ForwardOne(s), s.runtime.event); }
    }
  }

  lemma NextKeepsTerminals(s: System, a: Action)
    requires KeepsTerminals(s) && Joined(s)
    ensures KeepsTerminals(Next(s, a))
  {
    match a
    case TakeOutgoing(e) => TerminalsAppend(s.taken, [e]);
    case Forward => ForwardKeepsTerminals(s);
    case _ =>
  }

  lemma ForwardKeepsRequest(s: System, id: nat)
    requires KeepsRequest(s, id) && s.runtime.Holding?
    ensures KeepsRequest(ForwardOne(s), id)
  {
    var e := s.runtime.event;
    D.OccursOneMore(s.forwarded, e, id);
    if e.ServerRequest? {
      OneMoreId(s.overloaded, e.id, id);
      OneMoreId(s.internal, e.id, id);
    }
  }

  lemma OneMoreId(ids: multiset<nat>, more: nat, id: nat)
    ensures D.Add(ids, more)[id] == ids[id] + D.Once(ServerRequest(more) == ServerRequest(id))
  {
  }

  lemma NextKeepsRequest(s: System, a: Action, id: nat)
    requires KeepsRequest(s, id)
    ensures KeepsRequest(Next(s, a), id)
  {
    match a
    case TakeOutgoing(e) => D.OccursOneMore(s.taken, e, id);
    case Forward => if s.runtime.Holding? { ForwardKeepsRequest(s, id); }
    case _ =>
  }

  lemma NextFacadeSound(s: System, a: Action)
    requires D.Sound(s.facade)
    ensures D.Sound(Next(s, a).facade)
  {
    match a
    case Pull => if s.queue != [] { D.NextIsSound(s.facade, D.Receive(s.queue[0])); }
    case Facade(step) => D.NextIsSound(s.facade, step);
    case _ =>
  }

  lemma {:induction false} RunsKeep(s: System, actions: seq<Action>, id: nat)
    requires D.Sound(s.facade) && InProcessFacade(s) && Joined(s) && KeepsTerminals(s) && KeepsRequest(s, id)
    ensures var r := RunFrom(s, actions);
            D.Sound(r.facade) && InProcessFacade(r) && Joined(r) && KeepsTerminals(r) && KeepsRequest(r, id)
    decreases |actions|
  {
    if actions != [] {
      NextFacadeSound(s, actions[0]);
      NextJoins(s, actions[0]);
      NextKeepsTerminals(s, actions[0]);
      NextKeepsRequest(s, actions[0], id);
      RunsKeep(Next(s, actions[0]), actions[1..], id);
    }
  }

  lemma InitKeeps(capacity: nat, id: nat)
    requires capacity >= 1
    ensures var s := Init(capacity);
            D.Sound(s.facade) && InProcessFacade(s) && Joined(s) && KeepsTerminals(s) && KeepsRequest(s, id)
  {
    D.InitIsSound(D.InProcess, capacity, []);
  }

  /** In every reachable state with both ends open, the terminal events taken from the writer are those
      the consumer took, then those in the client's queue, in its worker's hand, in the runtime's queue
      and in the runtime's hand, in this order. */
  lemma TerminalEventsSurvive(capacity: nat, actions: seq<Action>)
    requires capacity >= 1
    ensures var r := RunFrom(Init(capacity), actions);
            r.alive && r.facade.open ==>
            Terminals(r.taken) ==
            Terminals(r.facade.consumed) + Terminals(r.facade.queue) + Terminals(D.InHand(r.facade))
            + Terminals(r.queue) + Terminals(RuntimeHand(r))
  {
    InitKeeps(capacity, 0);
    RunsKeep(Init(capacity), actions, 0);
    var r := RunFrom(Init(capacity), actions);
    var f := r.facade;
    TerminalsAppend(f.received, r.queue);
    assert f.delivered == f.consumed + f.queue;
    TerminalsAppend(f.consumed, f.queue);
  }

  /** Each server request reaching the runtime is queued, or failed back once. */
  lemma RequestsQueuedOrFailedBack(capacity: nat, actions: seq<Action>, id: nat)
    requires capacity >= 1
    ensures var r := RunFrom(Init(capacity), actions);
            D.Occurs(r.taken, id) ==
            D.Occurs(r.facade.received + r.queue, id) + r.overloaded[id] + r.internal[id]
            + D.Once(r.runtime == Holding(ServerRequest(id)))
  {
    InitKeeps(capacity, id);
    RunsKeep(Init(capacity), actions, id);
  }

  // ---------------------------------------------------------------- positions in what was taken

  /** The events whose flag is set, in order. */
  function Chosen(events: seq<Event>, fates: seq<bool>): seq<Event>
    requires |events| == |fates|
  {
    if fates == [] then []
    else
      var n := |fates| - 1;
      Chosen(events[..n], fates[..n]) + if fates[n] then [events[n]] else []
  }

  function Trues(fates: seq<bool>): nat {
    if fates == [] then 0 else Trues(fates[..|fates| - 1]) + if fates[|fates| - 1] then 1 else 0
  }

  /** Where the `j`th set flag stands. */
  function Place(fates: seq<bool>, j: nat): nat
    requires j < Trues(fates)
  {
    var n := |fates| - 1;
    if fates[n] && j == Trues(fates[..n]) then n else Place(fates[..n], j)
  }

  lemma {:induction false} PlaceIs(events: seq<Event>, fates: seq<bool>, j: nat)
    requires |events| == |fates| && j < Trues(fates)
    ensures |Chosen(events, fates)| == Trues(fates)
    ensures Place(fates, j) < |fates| && fates[Place(fates, j)] && Trues(fates[..Place(fates, j)]) == j
    ensures Chosen(events, fates)[j] == events[Place(fates, j)]
  {
    var n := |fates| - 1;
    ChosenLength(events, fates);
    ChosenLength(events[..n], fates[..n]);
    if !(fates[n] && j == Trues(fates[..n])) {
      PlaceIs(events[..n], fates[..n], j);
      assert fates[..n][..Place(fates, j)] == fates[..Place(fates, j)];
    }
  }

  lemma {:induction false} ChosenLength(events: seq<Event>, fates: seq<bool>)
    requires |events| == |fates|
    ensures |Chosen(events, fates)| == Trues(fates)
  {
    if fates != [] { ChosenLength(events[..|fates| - 1], fates[..|fates| - 1]); }
  }

  lemma {:induction false} AllTrue(fates: seq<bool>)
    ensures Trues(fates) <= |fates|
    ensures Trues(fates) == |fates| <==> forall k :: 0 <= k < |fates| ==> fates[k]
  {
    if fates != [] { AllTrue(fates[..|fates| - 1]); }
  }

  /** What was forwarded is what was taken, less what was not let in. */
  ghost predicate Settled(s: System) {
    && |s.taken| == |s.fates| + |RuntimeHand(s)|
    && s.forwarded == Chosen(s.taken[..|s.fates|], s.fates)
    && (s.runtime.Holding? ==> s.taken[|s.fates|] == s.runtime.event)
  }

  lemma SettleOne(taken: seq<Event>, fates: seq<bool>, let: bool)
    requires |taken| == |fates| + 1
    ensures Chosen(taken[..|fates| + 1], fates + [let]) ==
            Chosen(taken[..|fates|], fates) + if let then [taken[|fates|]] else []
  {
    var more := fates + [let];
    assert more[..|fates|] == fates && taken[..|fates| + 1][..|fates|] == taken[..|fates|];
  }

  lemma ForwardSettles(s: System)
    requires Settled(s) && s.runtime.Holding?
    ensures Settled(ForwardOne(s))
  {
    var fate := FateOf(s.runtime.event, s.alive, |s.queue| < s.capacity);
    assert s.taken[..|s.fates| + 1] == s.taken;
    if !fate.Waits? {
      SettleOne(s.taken, s.fates, fate.Forwarded?);
      assert ForwardOne(s).fates == s.fates + [fate.Forwarded?];
    }
  }

  lemma TakeSettles(s: System, e: Event)
    requires Settled(s) && s.runtime.Ready?
    ensures Settled(s.(runtime := Holding(e), taken := s.taken + [e]))
  {
    assert (s.taken + [e])[..|s.fates|] == s.taken[..|s.fates|];
  }

  lemma NextSettles(s: System, a: Action)
    requires Settled(s)
    ensures Settled(Next(s, a))
  {
    match a
    case TakeOutgoing(e) => if s.runtime.Ready? && Outgoing(e) { TakeSettles(s, e); }
    case Forward => if s.runtime.Holding? { ForwardSettles(s); }
    case _ =>
  }

  lemma {:induction false} RunsSettle(s: System, actions: seq<Action>)
    requires Settled(s)
    ensures Settled(RunFrom(s, actions))
    decreases |actions|
  {
    if actions != [] {
      NextSettles(s, actions[0]);
      RunsSettle(Next(s, actions[0]), actions[1..]);
    }
  }

  /** The consumer's count leads, for each delivered event, to the event taken from the writer in that place
      among those let into the runtime's queue.  It is the event's place among all that were taken exactly if
      nothing before it was dropped or failed back there. */
  lemma PositionIsPlaceIff(capacity: nat, actions: seq<Action>, i: nat)
    requires capacity >= 1
    requires var r := RunFrom(Init(capacity), actions);
             r.facade.uncounted == 0 && i < |r.facade.delivered| && !r.facade.delivered[i].Lagged?
    ensures var r := RunFrom(Init(capacity), actions);
            var position := D.Position(r.facade.delivered[..i]);
            && position < Trues(r.fates) && Place(r.fates, position) < |r.fates| <= |r.taken|
            && r.taken[Place(r.fates, position)] == r.facade.delivered[i]
            && (Place(r.fates, position) == position <==> forall k :: 0 <= k < Place(r.fates, position) ==> r.fates[k])
  {
    var r := RunFrom(Init(capacity), actions);
    CountLeads(capacity, actions, i);
    PlaceOf(r.taken, r.fates, r.forwarded, D.Position(r.facade.delivered[..i]));
  }

  lemma CountLeads(capacity: nat, actions: seq<Action>, i: nat)
    requires capacity >= 1
    requires var r := RunFrom(Init(capacity), actions);
             r.facade.uncounted == 0 && i < |r.facade.delivered| && !r.facade.delivered[i].Lagged?
    ensures var r := RunFrom(Init(capacity), actions);
            var position := D.Position(r.facade.delivered[..i]);
            && position < |r.forwarded| && r.forwarded[position] == r.facade.delivered[i]
            && |r.fates| <= |r.taken| && r.forwarded == Chosen(r.taken[..|r.fates|], r.fates)
  {
    InitKeeps(capacity, 0);
    RunsKeep(Init(capacity), actions, 0);
    RunsSettle(Init(capacity), actions);
    var r := RunFrom(Init(capacity), actions);
  }

  lemma PlaceOf(taken: seq<Event>, fates: seq<bool>, forwarded: seq<Event>, position: nat)
    requires |fates| <= |taken| && forwarded == Chosen(taken[..|fates|], fates) && position < |forwarded|
    ensures position < Trues(fates) && Place(fates, position) < |fates|
    ensures taken[Place(fates, position)] == forwarded[position]
    ensures Place(fates, position) == position <==> forall k :: 0 <= k < Place(fates, position) ==> fates[k]
  {
    ChosenLength(taken[..|fates|], fates);
    PlaceIs(taken[..|fates|], fates, position);
    AllTrue(fates[..Place(fates, position)]);
  }

  /** Counting what was delivered, announced, pending and queued accounts for all that was taken exactly if
      nothing was dropped or failed back at the runtime's queue: the lag markers never tell of that. */
  lemma CountIsCompleteIff(capacity: nat, actions: seq<Action>)
    requires capacity >= 1
    requires var r := RunFrom(Init(capacity), actions); r.facade.open && r.facade.uncounted == 0
    ensures var r := RunFrom(Init(capacity), actions);
            D.Position(r.facade.delivered) + r.facade.skipped + |D.InHand(r.facade)| + |r.queue| + |RuntimeHand(r)| ==
              |r.taken|
            <==> forall k :: 0 <= k < |r.fates| ==> r.fates[k]
  {
    InitKeeps(capacity, 0);
    RunsKeep(Init(capacity), actions, 0);
    RunsSettle(Init(capacity), actions);
    var r := RunFrom(Init(capacity), actions);
    ChosenLength(r.taken[..|r.fates|], r.fates);
    AllTrue(r.fates);
  }

  lemma RunStep(s: System, a: Action, rest: seq<Action>)
    ensures RunFrom(s, [a] + rest) == RunFrom(Next(s, a), rest)
  {
    assert ([a] + rest)[1..] == rest;
  }

  /** A full runtime queue drops silently: nothing but the writer remembers the event, so the lag
      markers of the client count only the client's own drops. */
  lemma RuntimeDropsAreSilent(s: System, e: Event)
    requires s.runtime.Ready? && s.alive && |s.queue| >= s.capacity
    requires Outgoing(e) && !e.ServerRequest? && !EventRequiresDelivery(e)
    ensures RunFrom(s, [TakeOutgoing(e), Forward]) == s.(taken := s.taken + [e], fates := s.fates + [false])
  {
    LayersAgree(e);
    RunStep(s, TakeOutgoing(e), [Forward]);
    RunStep(Next(s, TakeOutgoing(e)), Forward, []);
    assert [TakeOutgoing(e)] + [Forward] == [TakeOutgoing(e), Forward];
    assert [Forward] + [] == [Forward];
  }

  // ---------------------------------------------------------------- the fan-out itself

  /** The runtime loop's side of its event queue. */
  class EventFanOut {
    const capacity: nat
    var queue: seq<Event>
    var alive: bool

    constructor (capacity: nat)
      ensures this.capacity == capacity && queue == [] && alive
    {
      this.capacity, queue, alive := capacity, [], true;
    }

    /** The worker pulls one event, or goes away. */
    method WorkerMoves(pulls: bool) returns (got: seq<Event>)
      modifies this
      ensures alive == (old(alive) && pulls) && got + queue == old(queue)
    {
      got := [];
      if !pulls {
        alive := false;
      } else if alive && queue != [] {
        got, queue := [queue[0]], queue[1..];
      }
    }

    /** What the loop does with one message from the writer.  A terminal event waits, while the worker
        makes its moves; it is given up only if the worker goes away. */
    method Fan(e: Event, moves: seq<bool>) returns (fate: Fate, got: seq<Event>)
      requires Outgoing(e)
      modifies this
      ensures got + queue == old(queue) + if fate.Forwarded? then [e] else []
      ensures |got| <= |old(queue)| && fate == FateOf(e, alive, |old(queue)| - |got| < capacity)
      ensures fate.Forwarded? <==> alive && |old(queue)| - |got| < capacity
      ensures !fate.Forwarded? && e.ServerRequest? ==> fate == FailedBack(if alive then -32001 else -32603)
      ensures !fate.Forwarded? && !e.ServerRequest? && !alive ==> fate == LoopEnds
      ensures !fate.Forwarded? && !e.ServerRequest? && alive ==>
              fate == if EventRequiresDelivery(e) then Waits else DroppedSilently
      ensures old(alive) && |old(queue)| < capacity ==> fate.Forwarded? && got == []
      ensures fate.DroppedSilently? ==> !EventRequiresDelivery(e)
      ensures !EventRequiresDelivery(e) ==> got == [] && alive == old(alive)
    {
      LayersAgree(e);
      got := [];
      if e.ServerRequest? {
        if alive && |queue| < capacity {
          queue := queue + [e];
          return Forwarded, got;
        }
        return FailedBack(if alive then OVERLOADED_ERROR_CODE else INTERNAL_ERROR_CODE), got;
      }
      if RuntimeRequiresDelivery(e) {
        var left := moves;
        while alive && |queue| >= capacity && left != []
          invariant got + queue == old(queue) && |queue| == |old(queue)| - |got|
          invariant old(alive) && |old(queue)| < capacity ==> alive && got == []
          decreases |left|
        {
          var one := WorkerMoves(left[0]);
          got, left := got + one, left[1..];
        }
      }
      if !alive { return LoopEnds, got; }
      if |queue| < capacity {
        queue := queue + [e];
        return Forwarded, got;
      }
      fate := if RuntimeRequiresDelivery(e) then Waits else DroppedSilently;
    }
  }
}
