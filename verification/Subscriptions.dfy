/** Which connections follow which threads: two maps kept as one relation. */
module Subscriptions {
  import opened Json
  import opened ListenerSlot

  type ThreadId = nat
  type ConnectionId = nat

  // ---------------------------------------------------------------- the relation

  /** The table as the rest of the server sees it. */
  datatype Table = Table(live: set<ConnectionId>, known: set<ThreadId>, pairs: set<(ThreadId, ConnectionId)>)

  datatype Op =
    | Initialized(c: ConnectionId)
    | ThreadStateOf(t: ThreadId)
    | RemoveThread(t: ThreadId)
    | Subscribe(t: ThreadId, c: ConnectionId)
    | Unsubscribe(t: ThreadId, c: ConnectionId)
    | RemoveConnection(c: ConnectionId)

  function Apply(s: Table, op: Op): Table {
    match op
    case Initialized(c) => s.(live := s.live + {c})
    case ThreadStateOf(t) => s.(known := s.known + {t})
    case RemoveThread(t) => s.(known := s.known - {t}, pairs := set p | p in s.pairs && p.0 != t)
    case Subscribe(t, c) => if c in s.live then s.(known := s.known + {t}, pairs := s.pairs + {(t, c)}) else s
    case Unsubscribe(t, c) => s.(pairs := s.pairs - {(t, c)})
    case RemoveConnection(c) => s.(live := s.live - {c}, pairs := set p | p in s.pairs && p.1 != c)
  }

  function ApplyAll(s: Table, ops: seq<Op>): Table
    decreases |ops|
  {
    if ops == [] then s else ApplyAll(Apply(s, ops[0]), ops[1..])
  }

  ghost predicate Sound(s: Table) {
    forall p :: p in s.pairs ==> p.0 in s.known && p.1 in s.live
  }

  /** In every run each subscription is of a known thread to a live connection. */
  lemma {:induction false} RunsSound(s: Table, ops: seq<Op>)
    requires Sound(s)
    ensures Sound(ApplyAll(s, ops))
    decreases |ops|
  {
    if ops != [] { RunsSound(Apply(s, ops[0]), ops[1..]); }
  }

  /** A removed connection follows no thread again until it is initialized anew,
      whatever subscribing is attempted for it meanwhile. */
  lemma {:induction false} RemovedStaysOut(s: Table, ops: seq<Op>, c: ConnectionId)
    requires c !in s.live && Sound(s) && Initialized(c) !in ops
    ensures var after := ApplyAll(s, ops);
            c !in after.live && forall p :: p in after.pairs ==> p.1 != c
    decreases |ops|
  {
    if ops != [] {
      assert ops[0] in ops && forall op :: op in ops[1..] ==> op in ops;
      RemovedStaysOut(Apply(s, ops[0]), ops[1..], c);
    }
  }

  /** The operations that say something about a thread and a connection together. */
  predicate Settles(op: Op, t: ThreadId, c: ConnectionId) {
    op == RemoveThread(t) || op == Subscribe(t, c) || op == Unsubscribe(t, c) || op == RemoveConnection(c)
  }

  lemma {:induction false} OthersLeavePairAlone(s: Table, ops: seq<Op>, t: ThreadId, c: ConnectionId)
    requires forall i :: 0 <= i < |ops| ==> !Settles(ops[i], t, c)
    ensures (t, c) in ApplyAll(s, ops).pairs <==> (t, c) in s.pairs
    decreases |ops|
  {
    if ops != [] { OthersLeavePairAlone(Apply(s, ops[0]), ops[1..], t, c); }
  }

  lemma {:induction false} ApplyInTurn(s: Table, a: seq<Op>, b: seq<Op>)
    ensures ApplyAll(s, a + b) == ApplyAll(ApplyAll(s, a), b)
    decreases |a|
  {
    if a == [] {
      assert a + b == b;
    } else {
      assert (a + b)[1..] == a[1..] + b;
      ApplyInTurn(Apply(s, a[0]), a[1..], b);
    }
  }

  /** Who follows a thread after a run is decided, pair by pair, by the last operation about the pair: the
      connection follows the thread exactly if that subscribed it, being live at that moment. */
  lemma LastWordCounts(s: Table, before: seq<Op>, op: Op, after: seq<Op>, t: ThreadId, c: ConnectionId)
    requires Sound(s) && Settles(op, t, c) && forall i :: 0 <= i < |after| ==> !Settles(after[i], t, c)
    ensures (t, c) in ApplyAll(s, before + ([op] + after)).pairs <==>
            op == Subscribe(t, c) && c in ApplyAll(s, before).live
  {
    var earlier := ApplyAll(s, before);
    RunsSound(s, before);
    ApplyInTurn(s, before, [op] + after);
    assert ([op] + after)[0] == op && ([op] + after)[1..] == after;
    OthersLeavePairAlone(Apply(earlier, op), after, t, c);
  }

  /** A connection is live exactly if it was initialized, or live to begin with, and not removed since. */
  lemma {:induction false} LiveUnlessRemoved(s: Table, ops: seq<Op>, c: ConnectionId)
    requires RemoveConnection(c) !in ops
    ensures c in ApplyAll(s, ops).live <==> c in s.live || Initialized(c) in ops
    decreases |ops|
  {
    if ops != [] {
      assert ops == [ops[0]] + ops[1..];
      assert forall op :: op in ops <==> op == ops[0] || op in ops[1..];
      LiveUnlessRemoved(Apply(s, ops[0]), ops[1..], c);
    }
  }

  /** The operation may make the thread known. */
  predicate Mentions(op: Op, t: ThreadId) {
    op == ThreadStateOf(t) || (op.Subscribe? && op.t == t)
  }

  /** A thread is unknown once removed, and then stays so until something mentions it; what was known or asked
      for stays known until it is removed. */
  lemma {:induction false} KnownUnlessRemoved(s: Table, ops: seq<Op>, t: ThreadId)
    requires RemoveThread(t) !in ops
    ensures t in s.known || ThreadStateOf(t) in ops ==> t in ApplyAll(s, ops).known
    ensures t !in s.known && !(exists op :: op in ops && Mentions(op, t)) ==> t !in ApplyAll(s, ops).known
    ensures t !in Apply(s, RemoveThread(t)).known
    decreases |ops|
  {
    if ops != [] {
      var next := Apply(s, ops[0]);
      assert ops[0] in ops && forall op :: op in ops[1..] ==> op in ops;
      KnownUnlessRemoved(next, ops[1..], t);
      assert t in s.known ==> t in next.known;
      assert t !in s.known && !Mentions(ops[0], t) ==> t !in next.known;
      if ThreadStateOf(t) in ops && ops[0] != ThreadStateOf(t) {
        assert ops == [ops[0]] + ops[1..];
        assert ThreadStateOf(t) in ops[1..];
      }
    }
  }

  // ---------------------------------------------------------------- the per-thread state

  /** What a thread's listener slot holds; a listener is named by its cancel channel. */
  class ThreadState {
    var cancelTx: Option<nat>
    var listenerGeneration: nat
    var experimentalRawEvents: bool

    constructor ()
      ensures cancelTx == None && listenerGeneration == 0 && !experimentalRawEvents
    {
      cancelTx := None;
      listenerGeneration := 0;
      experimentalRawEvents := false;
    }

    function Listener(): Slot
      reads this
    {
      Slot(cancelTx, listenerGeneration)
    }

    /** `set_listener`: the previous listener is told to stop, the generation wraps around. */
    method SetListener(tx: nat) returns (cancelled: Option<nat>, mine: nat)
      modifies this
      ensures Listener() == Step(old(Listener()), Set(tx)) && mine == listenerGeneration
      ensures cancelled == old(cancelTx) && experimentalRawEvents == old(experimentalRawEvents)
    {
      cancelled := cancelTx;
      cancelTx := Some(tx);
      listenerGeneration := (listenerGeneration + 1) % GENERATIONS;
      mine := listenerGeneration;
    }

    /** The last step of the listener task that was given generation `mine`. */
    method ListenerTaskEnds(mine: nat)
      modifies this
      ensures Listener() == Step(old(Listener()), TaskEnds(mine)) && experimentalRawEvents == old(experimentalRawEvents)
    {
      if listenerGeneration == mine {
        var _ := ClearListener();
      }
    }

    /** `clear_listener` */
    method ClearListener() returns (cancelled: Option<nat>)
      modifies this
      ensures cancelTx == None && cancelled == old(cancelTx)
      ensures listenerGeneration == old(listenerGeneration) && experimentalRawEvents == old(experimentalRawEvents)
    {
      cancelled := cancelTx;
      cancelTx := None;
    }
  }

  datatype ThreadEntry = ThreadEntry(state: ThreadState, connectionIds: set<ConnectionId>)

  // ---------------------------------------------------------------- the two maps

  predicate Follows(threads: map<ThreadId, ThreadEntry>, t: ThreadId, c: ConnectionId) {
    t in threads && c in threads[t].connectionIds
  }

  predicate Indexed(index: map<ConnectionId, set<ThreadId>>, t: ThreadId, c: ConnectionId) {
    c in index && t in index[c]
  }

  function Pairs(threads: map<ThreadId, ThreadEntry>): set<(ThreadId, ConnectionId)> {
    set t, c | t in threads && c in threads[t].connectionIds :: (t, c)
  }

  /** The two maps describe one relation, no per-connection set is empty, and every subscribed connection is live. */
  ghost predicate Mirrored(threads: map<ThreadId, ThreadEntry>, index: map<ConnectionId, set<ThreadId>>,
                           live: set<ConnectionId>)
  {
    && (forall t: ThreadId, c: ConnectionId :: Follows(threads, t, c) <==> Indexed(index, t, c))
    && (forall c :: c in index ==> index[c] != {} && c in live)
  }

  lemma PairsAre(threads: map<ThreadId, ThreadEntry>, t: ThreadId, c: ConnectionId)
    ensures (t, c) in Pairs(threads) <==> Follows(threads, t, c)
  {
  }

  lemma PairAdded(was: map<ThreadId, ThreadEntry>, index: map<ConnectionId, set<ThreadId>>, live: set<ConnectionId>,
                  t: ThreadId, c: ConnectionId, entry: ThreadEntry)
    requires Mirrored(was, index, live) && c in live
    requires entry.connectionIds == (if t in was then was[t].connectionIds else {}) + {c}
    ensures Mirrored(was[t := entry], index[c := (if c in index then index[c] else {}) + {t}], live)
    ensures Pairs(was[t := entry]) == Pairs(was) + {(t, c)}
  {
    var after := was[t := entry];
    var mine := index[c := (if c in index then index[c] else {}) + {t}];
    forall u: ThreadId, d: ConnectionId
      ensures Follows(after, u, d) <==> Follows(was, u, d) || (u, d) == (t, c)
      ensures Indexed(mine, u, d) <==> Indexed(index, u, d) || (u, d) == (t, c)
    {
    }
    SamePairs(after, Pairs(was) + {(t, c)});
  }

  lemma SamePairs(threads: map<ThreadId, ThreadEntry>, pairs: set<(ThreadId, ConnectionId)>)
    requires forall t: ThreadId, c: ConnectionId :: Follows(threads, t, c) <==> (t, c) in pairs
    ensures Pairs(threads) == pairs
  {
    forall p: (ThreadId, ConnectionId)
      ensures p in Pairs(threads) <==> p in pairs
    {
      PairsAre(threads, p.0, p.1);
    }
  }

  lemma PairDropped(was: map<ThreadId, ThreadEntry>, index: map<ConnectionId, set<ThreadId>>, live: set<ConnectionId>,
                    t: ThreadId, c: ConnectionId, entry: ThreadEntry, rest: set<ThreadId>)
    requires Mirrored(was, index, live) && t in was && c in index && rest == index[c] - {t}
    requires entry.connectionIds == was[t].connectionIds - {c}
    ensures Mirrored(was[t := entry], if rest == {} then index - {c} else index[c := rest], live)
    ensures Pairs(was[t := entry]) == Pairs(was) - {(t, c)}
  {
    var after := was[t := entry];
    var mine := if rest == {} then index - {c} else index[c := rest];
    assert forall u :: u in index[c] ==> u == t || u in rest;
    forall u: ThreadId, d: ConnectionId
      ensures Follows(after, u, d) <==> Follows(was, u, d) && (u, d) != (t, c)
      ensures Indexed(mine, u, d) <==> Indexed(index, u, d) && (u, d) != (t, c)
    {
    }
    SamePairs(after, Pairs(was) - {(t, c)});
  }

  lemma ConnectionDropped(was: map<ThreadId, ThreadEntry>, after: map<ThreadId, ThreadEntry>,
                          index: map<ConnectionId, set<ThreadId>>, live: set<ConnectionId>, c: ConnectionId)
    requires Mirrored(was, index, live) && after.Keys == was.Keys
    requires forall t :: t in was ==> after[t].connectionIds == was[t].connectionIds - {c}
    ensures Mirrored(after, index - {c}, live - {c})
    ensures Pairs(after) == set p | p in Pairs(was) && p.1 != c
  {
    forall u: ThreadId, d: ConnectionId
      ensures Follows(after, u, d) <==> Follows(was, u, d) && d != c
      ensures Indexed(index - {c}, u, d) <==> Indexed(index, u, d) && d != c
    {
    }
    SamePairs(after, set p | p in Pairs(was) && p.1 != c);
  }

  lemma ThreadDropped(was: map<ThreadId, ThreadEntry>, index: map<ConnectionId, set<ThreadId>>,
                      live: set<ConnectionId>, t: ThreadId)
    requires Mirrored(was, index, live)
    ensures Mirrored(was - {t}, map c | c in index && index[c] - {t} != {} :: index[c] - {t}, live)
    ensures Pairs(was - {t}) == set p | p in Pairs(was) && p.0 != t
  {
    var mine := map c | c in index && index[c] - {t} != {} :: index[c] - {t};
    forall u: ThreadId, d: ConnectionId
      ensures Follows(was - {t}, u, d) <==> Follows(was, u, d) && u != t
      ensures Indexed(mine, u, d) <==> Indexed(index, u, d) && u != t
    {
      if Indexed(index, u, d) && u != t { assert u in index[d] - {t}; }
    }
    SamePairs(was - {t}, set p | p in Pairs(was) && p.0 != t);
  }

  /** Takes a connection out of the threads listed for it. */
  method WithoutConnection(threads: map<ThreadId, ThreadEntry>, listed: set<ThreadId>, c: ConnectionId)
    returns (after: map<ThreadId, ThreadEntry>)
    ensures after.Keys == threads.Keys
    ensures forall t :: t in threads ==> after[t].state == threads[t].state
    ensures forall t :: t in threads ==>
      after[t].connectionIds == threads[t].connectionIds - if t in listed then {c} else {}
  {
    after := threads;
    var rest := listed;
    while rest != {}
      invariant rest <= listed && after.Keys == threads.Keys
      invariant forall t :: t in threads ==> after[t].state == threads[t].state
      invariant forall t :: t in threads ==>
        after[t].connectionIds == threads[t].connectionIds - if t in listed - rest then {c} else {}
      decreases rest
    {
      var t :| t in rest;
      rest := rest - {t};
      if t in after {
        after := after[t := after[t].(connectionIds := after[t].connectionIds - {c})];
      }
    }
  }

  class ThreadStateManager {
    var liveConnections: set<ConnectionId>
    var threads: map<ThreadId, ThreadEntry>
    var threadIdsByConnection: map<ConnectionId, set<ThreadId>>

    /** The two maps describe one relation, no per-connection set is empty, every subscribed
        connection is live, and no two threads share a state. */
    ghost predicate Valid()
      reads this
    {
      && Mirrored(threads, threadIdsByConnection, liveConnections)
      && (forall t, u :: t in threads && u in threads && t != u ==> threads[t].state != threads[u].state)
    }

    ghost function View(): Table
      reads this
    {
      Table(liveConnections, threads.Keys, Pairs(threads))
    }

    constructor ()
      ensures Valid() && View() == Table({}, {}, {})
    {
      liveConnections, threads, threadIdsByConnection := {}, map[], map[];
    }

    /** `connection_initialized` */
    method ConnectionInitialized(c: ConnectionId)
      requires Valid()
      modifies this
      ensures Valid() && View() == Apply(old(View()), Initialized(c))
    {
      liveConnections := liveConnections + {c};
    }

    /** `subscribed_connection_ids` */
    method SubscribedConnectionIds(t: ThreadId) returns (ids: set<ConnectionId>)
      requires Valid()
      ensures forall c :: c in ids <==> (t, c) in View().pairs
    {
      ids := if t in threads then threads[t].connectionIds else {};
    }

    /** `has_subscribers` */
    method HasSubscribers(t: ThreadId) returns (b: bool)
      requires Valid()
      ensures b <==> exists c :: (t, c) in View().pairs
    {
      b := t in threads && threads[t].connectionIds != {};
      if b {
        var c :| c in threads[t].connectionIds;
        assert (t, c) in View().pairs;
      }
    }

    /** `threads.entry(t).or_default()` */
    method EntryOrDefault(t: ThreadId) returns (entry: ThreadEntry)
      requires Valid()
      modifies this
      ensures Valid() && t in threads && threads[t] == entry
      ensures View() == Apply(old(View()), ThreadStateOf(t))
      ensures liveConnections == old(liveConnections) && threadIdsByConnection == old(threadIdsByConnection)
      ensures t in old(threads) ==> threads == old(threads)
      ensures t !in old(threads) ==>
        fresh(entry.state) && entry.connectionIds == {} && !entry.state.experimentalRawEvents
      ensures t !in old(threads) ==> threads == old(threads)[t := entry]
    {
      if t in threads {
        return threads[t];
      }
      var state := new ThreadState();
      entry := ThreadEntry(state, {});
      threads := threads[t := entry];
    }

    /** `thread_state` */
    method ThreadStateFor(t: ThreadId) returns (state: ThreadState)
      requires Valid()
      modifies this
      ensures Valid() && View() == Apply(old(View()), ThreadStateOf(t))
      ensures t in threads && threads[t].state == state
    {
      var entry := EntryOrDefault(t);
      state := entry.state;
    }

    /** `remove_thread_state`: forgets the thread, and cancels its listener. */
    method RemoveThreadState(t: ThreadId)
      requires Valid()
      modifies this, if t in threads then {threads[t].state} else {}
      ensures Valid() && View() == Apply(old(View()), RemoveThread(t))
      ensures t in old(threads) ==> old(threads)[t].state.cancelTx == None
    {
      var removed := if t in threads then Some(threads[t].state) else None;
      ThreadDropped(threads, threadIdsByConnection, liveConnections, t);
      threads := threads - {t};
      threadIdsByConnection :=
        map c | c in threadIdsByConnection && threadIdsByConnection[c] - {t} != {} :: threadIdsByConnection[c] - {t};
      if removed.Some? {
        var _ := removed.value.ClearListener();
      }
    }

    /** The common part of the two subscribing calls. */
    method AddPair(t: ThreadId, c: ConnectionId) returns (entry: ThreadEntry)
      requires Valid() && c in liveConnections
      modifies this
      ensures Valid() && View() == Apply(old(View()), Subscribe(t, c))
      ensures t in threads && threads[t] == entry
      ensures t in old(threads) ==> entry.state == old(threads)[t].state
      ensures t !in old(threads) ==> fresh(entry.state) && !entry.state.experimentalRawEvents
    {
      entry := EntryOrDefault(t);
      var mine := if c in threadIdsByConnection then threadIdsByConnection[c] else {};
      threadIdsByConnection := threadIdsByConnection[c := mine + {t}];
      entry := entry.(connectionIds := entry.connectionIds + {c});
      PairAdded(threads, old(threadIdsByConnection), liveConnections, t, c, entry);
      threads := threads[t := entry];
    }

    /** `try_add_connection_to_thread` */
    method TryAddConnectionToThread(t: ThreadId, c: ConnectionId) returns (added: bool)
      requires Valid()
      modifies this
      ensures Valid() && View() == Apply(old(View()), Subscribe(t, c))
      ensures added <==> c in old(liveConnections)
    {
      if c !in liveConnections {
        return false;
      }
      var _ := AddPair(t, c);
      added := true;
    }

    /** `try_ensure_connection_subscribed` */
    method TryEnsureConnectionSubscribed(t: ThreadId, c: ConnectionId, rawEvents: bool)
      returns (state: Option<ThreadState>)
      requires Valid()
      modifies this, if t in threads then {threads[t].state} else {}
      ensures Valid() && View() == Apply(old(View()), Subscribe(t, c))
      ensures state.Some? <==> c in old(liveConnections)
      ensures state.Some? ==> t in threads && state.value == threads[t].state
      ensures state.Some? && t in old(threads) ==>
        state.value == old(threads)[t].state &&
        state.value.experimentalRawEvents == (rawEvents || old(threads[t].state.experimentalRawEvents))
      ensures state.Some? && t !in old(threads) ==> state.value.experimentalRawEvents == rawEvents
    {
      if c !in liveConnections {
        return None;
      }
      var entry := AddPair(t, c);
      if rawEvents {
        entry.state.experimentalRawEvents := true;
      }
      state := Some(entry.state);
    }

    /** `unsubscribe_connection_from_thread` */
    method UnsubscribeConnectionFromThread(t: ThreadId, c: ConnectionId) returns (removed: bool)
      requires Valid()
      modifies this
      ensures Valid() && View() == Apply(old(View()), Unsubscribe(t, c))
      ensures removed <==> (t, c) in old(View()).pairs
    {
      PairsAre(threads, t, c);
      if t !in threads {
        return false;
      }
      if !(c in threadIdsByConnection && t in threadIdsByConnection[c]) {
        return false;
      }
      var rest := threadIdsByConnection[c] - {t};
      var entry := threads[t].(connectionIds := threads[t].connectionIds - {c});
      PairDropped(threads, threadIdsByConnection, liveConnections, t, c, entry, rest);
      threadIdsByConnection := if rest == {} then threadIdsByConnection - {c} else threadIdsByConnection[c := rest];
      threads := threads[t := entry];
      removed := true;
    }

    /** `remove_connection`: its threads are kept, possibly without subscribers. */
    method RemoveConnection(c: ConnectionId)
      requires Valid()
      modifies this
      ensures Valid() && View() == Apply(old(View()), Op.RemoveConnection(c))
      ensures forall t :: t in threads ==> threads[t].state == old(threads)[t].state
    {
      ghost var was, index, live := threads, threadIdsByConnection, liveConnections;
      liveConnections := liveConnections - {c};
      var threadIds := if c in threadIdsByConnection then threadIdsByConnection[c] else {};
      threadIdsByConnection := threadIdsByConnection - {c};
      threads := WithoutConnection(threads, threadIds, c);
      forall t | t in threads ensures threads[t].connectionIds == was[t].connectionIds - {c} {
        assert Follows(was, t, c) <==> Indexed(index, t, c);
      }
      ConnectionDropped(was, threads, index, live, c);
    }
  }
}
