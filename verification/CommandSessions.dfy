/** The table of running `command/exec` processes: starts, asynchronous clean-up,
    and closing of connections. */
module CommandSessions {
  import opened Json

  type ConnectionId = nat

  datatype ProcessId = Generated(n: int) | Client(id: string)

  datatype Key = Key(connection: ConnectionId, process: ProcessId)

  /** A control channel is named by the start that created it; for a sandboxed entry the start is
      only recorded. */
  datatype Session = Active(controlTx: nat) | UnsupportedWindowsSandbox(start: nat)

  datatype Phase = Spawning | Running | Sandboxed

  /** An in-flight start or running task: the key it cleans up, and whether it made the entry. */
  datatype Task = Task(key: Key, phase: Phase, entered: bool, processId: Option<string>, streamOutput: bool)

  datatype Params = Params(
    connection: ConnectionId,
    processId: Option<string>,
    tty: bool,
    streamStdin: bool,
    streamStdoutStderr: bool,
    windowsSandbox: bool,
    outputBytesCap: Option<nat>,
    emptyCommand: bool)

  const DEFAULT_OUTPUT_BYTES_CAP: nat := 1024 * 1024

  datatype StartError =
    | NeedsProcessId
    | SandboxStreaming
    | SandboxCustomCap
    | EmptyCommand
    | Duplicate(id: ProcessId)

  /** Everything that matters about the table, with the starts and processes around it. */
  datatype World = World(
    sessions: map<Key, Session>,
    nextGenerated: int,
    tasks: map<nat, Task>,
    nextTask: nat,
    closed: set<ConnectionId>,
    terminated: set<nat>,
    reused: bool)

  const INIT := World(map[], 1, map[], 0, {}, {}, false)

  predicate Streams(p: Params) {
    p.tty || p.streamStdin || p.streamStdoutStderr
  }

  /** The id a start goes by. */
  function IdFor(p: Params, next: int): ProcessId {
    match p.processId case Some(id) => Client(id) case None => Generated(next)
  }

  function Refusal(w: World, p: Params): Option<StartError> {
    var key := Key(p.connection, IdFor(p, w.nextGenerated));
    if p.processId.None? && Streams(p) then Some(NeedsProcessId)
    else if p.windowsSandbox then
      if Streams(p) then Some(SandboxStreaming)
      else if p.outputBytesCap != Some(DEFAULT_OUTPUT_BYTES_CAP) then Some(SandboxCustomCap)
      else if p.processId.Some? && key in w.sessions then Some(Duplicate(key.process))
      else None
    else if p.emptyCommand then Some(EmptyCommand)
    else if key in w.sessions then Some(Duplicate(key.process))
    else None
  }

  /** No terminal and no stream is asked for. */
  predicate Quiet(p: Params) {
    !p.tty && !p.streamStdin && !p.streamStdoutStderr
  }

  /** The key a start uses: the client's id if it gave one. */
  predicate KeyIs(key: Key, p: Params, next: int) {
    && key.connection == p.connection
    && key.process == match p.processId case Some(id) => Client(id) case None => Generated(next)
  }

  /** Each refusal and when it is given. */
  predicate RefusedAsAsked(refused: Option<StartError>, p: Params, key: Key, inUse: bool) {
    && (refused == Some(NeedsProcessId) <==> p.processId.None? && !Quiet(p))
    && (refused == Some(SandboxStreaming) <==> p.processId.Some? && p.windowsSandbox && !Quiet(p))
    && (refused == Some(SandboxCustomCap) <==> p.windowsSandbox && Quiet(p) && p.outputBytesCap != Some(1048576))
    && (refused == Some(EmptyCommand) <==>
          !p.windowsSandbox && p.emptyCommand && (p.processId.Some? || Quiet(p)))
    && (refused.Some? && refused.value.Duplicate? ==> refused.value.id == key.process)
    && (refused == Some(Duplicate(key.process)) <==> inUse && DuplicateMatters(p))
  }

  /** A start that gets as far as looking its key up. */
  predicate DuplicateMatters(p: Params) {
    if p.windowsSandbox then p.processId.Some? && Quiet(p) && p.outputBytesCap == Some(1048576)
    else !p.emptyCommand && (p.processId.Some? || Quiet(p))
  }

  lemma RefusalMeans(w: World, p: Params, key: Key)
    requires KeyIs(key, p, w.nextGenerated)
    ensures RefusedAsAsked(Refusal(w, p), p, key, key in w.sessions)
  {
  }

  datatype Action =
    | Start(p: Params)
    | SpawnFailed(t: nat)
    | Spawned(t: nat)
    | Finished(t: nat)
    | ConnectionClosed(c: ConnectionId)

  /** `start` up to the point where it waits for the process. */
  function AfterStart(w: World, p: Params): World {
    var id := IdFor(p, w.nextGenerated);
    var key := Key(p.connection, id);
    var next := if p.processId.None? && !Streams(p) then w.nextGenerated + 1 else w.nextGenerated;
    if Refusal(w, p).Some? then w.(nextGenerated := next)
    else
      var entered := !p.windowsSandbox || p.processId.Some?;
      var session := if p.windowsSandbox then UnsupportedWindowsSandbox(w.nextTask) else Active(w.nextTask);
      w.(sessions := if entered then w.sessions[key := session] else w.sessions,
         nextGenerated := next,
         tasks := w.tasks[w.nextTask := Task(key, if p.windowsSandbox then Sandboxed else Spawning, entered,
                                             p.processId, p.tty || p.streamStdoutStderr)],
         nextTask := w.nextTask + 1,
         reused := w.reused || p.connection in w.closed)
  }

  /** What an accepted start leaves: an entry for its key with a channel of its own, unless it is sandboxed
      and without a client's id, and a task that cleans up that key; a refused one leaves none. */
  lemma AcceptedMeans(w: World, p: Params, key: Key)
    requires KeyIs(key, p, w.nextGenerated)
    ensures var v := AfterStart(w, p);
            && v.nextGenerated == (if p.processId.None? && Quiet(p) then w.nextGenerated + 1 else w.nextGenerated)
            && v.closed == w.closed && v.terminated == w.terminated
            && (Refusal(w, p).Some? ==> v.sessions == w.sessions && v.tasks == w.tasks && v.nextTask == w.nextTask)
            && (Refusal(w, p).None? ==>
                  v.nextTask == w.nextTask + 1 && v.tasks == w.tasks[w.nextTask := v.tasks[w.nextTask]])
    ensures Refusal(w, p).None? && p.windowsSandbox ==>
            var v := AfterStart(w, p);
            && v.sessions == (if p.processId.Some? then w.sessions[key := UnsupportedWindowsSandbox(w.nextTask)]
                              else w.sessions)
            && v.tasks[w.nextTask] == Task(key, Sandboxed, p.processId.Some?, p.processId, false)
    ensures Refusal(w, p).None? && !p.windowsSandbox ==>
            var v := AfterStart(w, p);
            && v.sessions == w.sessions[key := Active(w.nextTask)]
            && v.tasks[w.nextTask] == Task(key, Spawning, true, p.processId, p.tty || p.streamStdoutStderr)
  {
  }

  /** A start or task is over: its key is taken out, whatever is there. */
  function Over(w: World, t: nat): World
    requires t in w.tasks
  {
    w.(sessions := w.sessions - {w.tasks[t].key}, tasks := w.tasks - {t})
  }

  function ActiveOf(sessions: map<Key, Session>, c: ConnectionId): set<nat> {
    set k | k in sessions && k.connection == c && sessions[k].Active? :: sessions[k].controlTx
  }

  function Next(w: World, a: Action): World {
    match a
    case Start(p) => AfterStart(w, p)
    case SpawnFailed(t) => if t in w.tasks && w.tasks[t].phase.Spawning? then Over(w, t) else w
    case Spawned(t) =>
      if t in w.tasks && w.tasks[t].phase.Spawning? then w.(tasks := w.tasks[t := w.tasks[t].(phase := Running)]) else w
    case Finished(t) => if t in w.tasks && !w.tasks[t].phase.Spawning? then Over(w, t) else w
    case ConnectionClosed(c) =>
      w.(sessions := map k | k in w.sessions && k.connection != c :: w.sessions[k],
         terminated := w.terminated + ActiveOf(w.sessions, c),
         closed := w.closed + {c})
  }

  function RunFrom(w: World, actions: seq<Action>): World
    decreases |actions|
  {
    if actions == [] then w else RunFrom(Next(w, actions[0]), actions[1..])
  }

  // ---------------------------------------------------------------- the invariant

  /** The start that made an entry. */
  function MakerOf(s: Session): nat {
    match s case Active(tx) => tx case UnsupportedWindowsSandbox(start) => start
  }

  /** The entry belongs to this start or process. */
  predicate Owns(w: World, t: nat, k: Key) {
    && t in w.tasks && w.tasks[t].entered && w.tasks[t].key == k && k in w.sessions
    && MakerOf(w.sessions[k]) == t
    && (w.sessions[k].Active? <==> !w.tasks[t].phase.Sandboxed?)
  }

  function ClientIdOf(id: ProcessId): Option<string> {
    match id case Client(s) => Some(s) case Generated(_) => None
  }

  /** Task names and generated ids are fresh, and only sandboxed generated starts make no entry. */
  ghost predicate NamesFresh(w: World) {
    && (forall t :: t in w.tasks ==> t < w.nextTask)
    && (forall t :: t in w.tasks && w.tasks[t].key.process.Generated? ==> w.tasks[t].key.process.n < w.nextGenerated)
    && (forall t, u :: t in w.tasks && u in w.tasks && t != u && w.tasks[t].key.process.Generated? ==>
          w.tasks[t].key.process != w.tasks[u].key.process)
    && (forall t :: t in w.tasks && !w.tasks[t].entered ==>
          w.tasks[t].key.process.Generated? && w.tasks[t].phase.Sandboxed?)
    && (forall t :: t in w.tasks ==> w.tasks[t].processId == ClientIdOf(w.tasks[t].key.process))
    && (forall t :: t in w.tasks && w.tasks[t].streamOutput ==> w.tasks[t].processId.Some?)
  }

  /** Entries and entering tasks of open connections correspond one to one; closed connections
      have no entry, and their processes have been told to terminate. */
  ghost predicate Owned(w: World) {
    && (forall k :: k in w.sessions ==> k.connection !in w.closed && exists t :: Owns(w, t, k))
    && (forall t :: t in w.tasks && w.tasks[t].entered && w.tasks[t].key.connection !in w.closed ==>
          Owns(w, t, w.tasks[t].key))
    && (forall t, u :: t in w.tasks && u in w.tasks && t != u && w.tasks[t].entered && w.tasks[u].entered ==>
          w.tasks[t].key != w.tasks[u].key)
    && (forall t :: t in w.tasks && !w.tasks[t].phase.Sandboxed? && w.tasks[t].key.connection in w.closed ==>
          t in w.terminated)
  }

  ghost predicate Inv(w: World) {
    NamesFresh(w) && (!w.reused ==> Owned(w))
  }

  /** What a start that is not refused adds. */
  function TaskOf(w: World, p: Params): Task {
    Task(Key(p.connection, IdFor(p, w.nextGenerated)), if p.windowsSandbox then Sandboxed else Spawning,
         !p.windowsSandbox || p.processId.Some?, p.processId, p.tty || p.streamStdoutStderr)
  }

  lemma StartKeepsNames(w: World, p: Params)
    requires NamesFresh(w)
    ensures NamesFresh(AfterStart(w, p))
  {
    var v := AfterStart(w, p);
    if Refusal(w, p).Some? {
      assert v.tasks == w.tasks;
    } else {
      assert v.tasks == w.tasks[w.nextTask := TaskOf(w, p)];
      assert TaskOf(w, p).key.process.Generated? ==> v.nextGenerated == w.nextGenerated + 1;
    }
  }

  /** A refused start may use up a generated id, and nothing else. */
  lemma RefusedKeepsOwned(w: World, p: Params)
    requires Owned(w) && Refusal(w, p).Some?
    ensures Owned(AfterStart(w, p))
  {
    forall k, t | Owns(w, t, k) ensures Owns(AfterStart(w, p), t, k) { }
  }

  /** No entry is displaced by a start that is not refused. */
  lemma StartKeepsOwner(w: World, p: Params, t: nat, k: Key)
    requires NamesFresh(w) && Owned(w) && Refusal(w, p).None? && Owns(w, t, k)
    ensures Owns(AfterStart(w, p), t, k)
    ensures TaskOf(w, p).entered ==> k != TaskOf(w, p).key
  {
  }

  lemma StartKeepsOwned(w: World, p: Params)
    requires NamesFresh(w) && Owned(w) && p.connection !in w.closed && Refusal(w, p).None?
    ensures Owned(AfterStart(w, p))
  {
    var v := AfterStart(w, p);
    forall t, k | Owns(w, t, k) ensures Owns(v, t, k) && (TaskOf(w, p).entered ==> k != TaskOf(w, p).key) {
      StartKeepsOwner(w, p, t, k);
    }
    if TaskOf(w, p).entered { assert Owns(v, w.nextTask, TaskOf(w, p).key); }
    forall k | k in v.sessions ensures k.connection !in v.closed && exists t :: Owns(v, t, k) {
      if k in w.sessions {
        var t :| Owns(w, t, k);
      } else {
        assert Owns(v, w.nextTask, k);
      }
    }
    forall t | t in w.tasks && w.tasks[t].entered && TaskOf(w, p).entered ensures w.tasks[t].key != TaskOf(w, p).key {
      assert w.tasks[t].key.connection !in w.closed ==> Owns(w, t, w.tasks[t].key);
    }
  }

  lemma StartKeepsInv(w: World, p: Params)
    requires Inv(w)
    ensures Inv(AfterStart(w, p))
  {
    StartKeepsNames(w, p);
    if !w.reused {
      if Refusal(w, p).Some? {
        RefusedKeepsOwned(w, p);
      } else if p.connection !in w.closed {
        StartKeepsOwned(w, p);
      }
    }
  }

  /** When a start or task is over the only entry that goes is its own. */
  lemma OverRemovesOwnOnly(w: World, t: nat)
    requires Inv(w) && !w.reused && t in w.tasks
    ensures forall k :: k in w.sessions && k !in Over(w, t).sessions ==> Owns(w, t, k)
    ensures forall u, k :: Owns(w, u, k) && u != t ==> Owns(Over(w, t), u, k)
  {
    var k := w.tasks[t].key;
    if k in w.sessions {
      var u :| Owns(w, u, k);
      assert u == t;
    }
  }

  lemma OverKeepsOwned(w: World, t: nat)
    requires Inv(w) && !w.reused && t in w.tasks
    ensures Owned(Over(w, t))
  {
    var v := Over(w, t);
    OverRemovesOwnOnly(w, t);
    forall k | k in v.sessions ensures exists u :: Owns(v, u, k) {
      var u :| Owns(w, u, k);
      assert u != t;
    }
    forall u | u in v.tasks && v.tasks[u].entered && v.tasks[u].key.connection !in v.closed
      ensures Owns(v, u, v.tasks[u].key)
    {
      assert Owns(w, u, w.tasks[u].key);
    }
  }

  lemma SpawnedKeepsOwned(w: World, t: nat)
    requires Owned(w)
    ensures Owned(Next(w, Spawned(t)))
  {
    var v := Next(w, Spawned(t));
    forall u, k | Owns(w, u, k) ensures Owns(v, u, k) { }
  }

  lemma CloseKeepsOwned(w: World, c: ConnectionId)
    requires NamesFresh(w) && Owned(w)
    ensures Owned(Next(w, ConnectionClosed(c)))
  {
    var v := Next(w, ConnectionClosed(c));
    forall u, k | Owns(w, u, k) && k.connection != c ensures Owns(v, u, k) { }
    forall t | t in v.tasks && !v.tasks[t].phase.Sandboxed? && v.tasks[t].key.connection in v.closed
      ensures t in v.terminated
    {
      if v.tasks[t].key.connection !in w.closed {
        assert w.tasks[t].entered && Owns(w, t, w.tasks[t].key);
      }
    }
  }

  lemma NextKeepsInv(w: World, a: Action)
    requires Inv(w)
    ensures Inv(Next(w, a))
  {
    match a
    case Start(p) => StartKeepsInv(w, p);
    case SpawnFailed(t) => if !w.reused && t in w.tasks { OverKeepsOwned(w, t); }
    case Spawned(t) => if !w.reused { SpawnedKeepsOwned(w, t); }
    case Finished(t) => if !w.reused && t in w.tasks { OverKeepsOwned(w, t); }
    case ConnectionClosed(c) => if !w.reused { CloseKeepsOwned(w, c); }
  }

  /** Ownership holds in every run in which no closed connection starts a command again. */
  lemma {:induction false} RunsKeepInv(w: World, actions: seq<Action>)
    requires Inv(w)
    ensures Inv(RunFrom(w, actions))
    decreases |actions|
  {
    if actions != [] {
      NextKeepsInv(w, actions[0]);
      RunsKeepInv(Next(w, actions[0]), actions[1..]);
    }
  }

  /** Closing a connection leaves none of its entries, touches no other, and tells each of its
      processes, even one still being spawned, to terminate. */
  lemma CloseIsComplete(w: World, c: ConnectionId)
    requires Inv(w) && !w.reused && c !in w.closed
    ensures var v := Next(w, ConnectionClosed(c));
            && (forall k :: k in v.sessions <==> k in w.sessions && k.connection != c)
            && (forall k :: k in v.sessions ==> v.sessions[k] == w.sessions[k])
            && (forall t :: t in w.tasks && w.tasks[t].key.connection == c && !w.tasks[t].phase.Sandboxed? ==>
                  t in v.terminated)
            && (forall t :: t in v.terminated - w.terminated ==> t in w.tasks && w.tasks[t].key.connection == c)
  {
    var v := Next(w, ConnectionClosed(c));
    NextKeepsInv(w, ConnectionClosed(c));
    forall t | t in v.terminated - w.terminated ensures t in w.tasks && w.tasks[t].key.connection == c {
      var k :| k in w.sessions && k.connection == c && w.sessions[k].Active? && w.sessions[k].controlTx == t;
      var u :| Owns(w, u, k);
    }
  }

  /** A control request found under a key goes to the process that was started under that key. */
  lemma ControlReachesOwner(w: World, k: Key)
    requires Inv(w) && !w.reused && k in w.sessions && w.sessions[k].Active?
    ensures var t := w.sessions[k].controlTx; t in w.tasks && w.tasks[t].key == k && !w.tasks[t].phase.Sandboxed?
  {
    var t :| Owns(w, t, k);
  }

  // ---------------------------------------------------------------- without the proviso

  predicate Entered(w: World, t: nat, k: Key) {
    t in w.tasks && w.tasks[t].entered && w.tasks[t].key == k
  }

  /** In every run each entry was made by the latest of the starts and processes of its key still around. */
  ghost predicate LatestMade(w: World) {
    && (forall t :: t in w.tasks ==> t < w.nextTask)
    && (forall k :: k in w.sessions ==> Entered(w, MakerOf(w.sessions[k]), k))
    && (forall k: Key, t: nat :: k in w.sessions && Entered(w, t, k) ==> t <= MakerOf(w.sessions[k]))
  }

  lemma StartKeepsLatest(w: World, p: Params)
    requires LatestMade(w)
    ensures LatestMade(AfterStart(w, p))
  {
    var v := AfterStart(w, p);
    forall k | k in w.sessions
      ensures Entered(v, MakerOf(w.sessions[k]), k)
    {
      assert Entered(w, MakerOf(w.sessions[k]), k);
    }
    forall k: Key, t: nat | k in v.sessions && Entered(v, t, k)
      ensures t <= MakerOf(v.sessions[k])
    {
      if t in w.tasks { assert Entered(w, t, k); }
    }
  }

  lemma NextKeepsLatest(w: World, a: Action)
    requires LatestMade(w)
    ensures LatestMade(Next(w, a))
  {
    if a.Start? { StartKeepsLatest(w, a.p); } else { OtherKeepsLatest(w, a); }
  }

  lemma OtherKeepsLatest(w: World, a: Action)
    requires LatestMade(w) && !a.Start?
    ensures LatestMade(Next(w, a))
  {
    var v := Next(w, a);
    forall k | k in v.sessions
      ensures Entered(v, MakerOf(v.sessions[k]), k)
    {
      assert Entered(w, MakerOf(w.sessions[k]), k);
    }
    forall k: Key, t: nat | k in v.sessions && Entered(v, t, k)
      ensures t <= MakerOf(v.sessions[k])
    {
      assert Entered(w, t, k);
    }
  }

  lemma {:induction false} RunsKeepLatest(w: World, actions: seq<Action>)
    requires LatestMade(w)
    ensures LatestMade(RunFrom(w, actions))
    decreases |actions|
  {
    if actions != [] {
      NextKeepsLatest(w, actions[0]);
      RunsKeepLatest(Next(w, actions[0]), actions[1..]);
    }
  }

  /** In every run, with whatever reuse of connections: the clean-up of a start or process takes away an entry
      that another one made exactly if a later one holds the same key and that has an entry. */
  lemma CleanUpTakesForeignIff(actions: seq<Action>, t: nat)
    requires t in RunFrom(INIT, actions).tasks
    ensures var w := RunFrom(INIT, actions);
            var k := w.tasks[t].key;
            k in w.sessions && MakerOf(w.sessions[k]) != t <==> k in w.sessions && exists u :: u > t && Entered(w, u, k)
  {
    var w := RunFrom(INIT, actions);
    RunsKeepLatest(INIT, actions);
    RunsKeepInv(INIT, actions);
    var k := w.tasks[t].key;
    if k in w.sessions {
      var m := MakerOf(w.sessions[k]);
      assert Entered(w, m, k);
      if m != t {
        assert w.tasks[t].entered;
        assert Entered(w, t, k);
      }
    }
  }

  function PlainStart(c: ConnectionId, id: string): Action {
    Start(Params(c, Some(id), false, false, false, false, None, false))
  }

  /** Such a run of the manager by itself: a closed connection starts the same id again, and then the first
      process finishes.  The server never reuses a connection id and drops requests of closed connections. */
  lemma ReuseLosesEntry(c: ConnectionId, id: string)
    ensures var w := RunFrom(INIT, [PlainStart(c, id), Spawned(0), ConnectionClosed(c), PlainStart(c, id)]);
            var k := Key(c, Client(id));
            && k in w.sessions && w.sessions[k] == Active(1)
            && k !in Next(w, Finished(0)).sessions && 1 in Next(w, Finished(0)).tasks
  {
    var a := [PlainStart(c, id), Spawned(0), ConnectionClosed(c), PlainStart(c, id)];
    var w1 := Next(INIT, a[0]);
    var w2 := Next(w1, a[1]);
    var w3 := Next(w2, a[2]);
    var w4 := Next(w3, a[3]);
    assert a[1..][0] == a[1] && a[1..][1..] == a[2..] && a[2..][0] == a[2] && a[2..][1..] == a[3..];
    assert a[3..][0] == a[3] && a[3..][1..] == [];
    assert RunFrom(INIT, a) == RunFrom(w1, a[1..]) == RunFrom(w2, a[2..]) == RunFrom(w3, a[3..]) == RunFrom(w4, []);
  }

  // ---------------------------------------------------------------- the manager

  /** The two loops of `connection_closed`: take the connection's entries out, then look at their controls. */
  method TakeConnection(all: map<Key, Session>, c: ConnectionId) returns (left: map<Key, Session>, controls: set<nat>)
    ensures left == map k | k in all && k.connection != c :: all[k]
    ensures controls == ActiveOf(all, c)
  {
    var processIds := set k | k in all && k.connection == c;
    left := all;
    var taken: set<Key> := {};
    var rest := processIds;
    while rest != {}
      invariant rest <= processIds && taken == processIds - rest
      invariant left == map k | k in all && k !in taken :: all[k]
      decreases rest
    {
      var k :| k in rest;
      rest := rest - {k};
      left := left - {k};
      taken := taken + {k};
    }
    controls := set k | k in taken && all[k].Active? :: all[k].controlTx;
  }

  datatype ControlError = NoActiveProcess(id: ProcessId) | NotForSandboxedProcesses

  class CommandExecManager {
    var sessions: map<Key, Session>
    var nextGeneratedProcessId: int
    var nextChannel: nat
    ghost var world: World

    ghost predicate Valid()
      reads this
    {
      && sessions == world.sessions && nextGeneratedProcessId == world.nextGenerated && nextChannel == world.nextTask
      && Inv(world)
    }

    constructor ()
      ensures Valid() && world == INIT
    {
      sessions, nextGeneratedProcessId, nextChannel := map[], 1, 0;
      world := INIT;
    }

    /** `start`, up to the wait for the process; what it leaves running is named by its channel. */
    method Start(p: Params) returns (refused: Option<StartError>)
      requires Valid()
      modifies this
      ensures Valid() && world == Next(old(world), Action.Start(p)) && refused == Refusal(old(world), p)
      ensures var key := Key(p.connection, match p.processId case Some(id) => Client(id)
                                           case None => Generated(old(nextGeneratedProcessId)));
              && RefusedAsAsked(refused, p, key, key in old(sessions))
              && sessions == (if refused.Some? || (p.windowsSandbox && p.processId.None?) then old(sessions)
                              else if p.windowsSandbox then
                                old(sessions)[key := UnsupportedWindowsSandbox(old(nextChannel))]
                              else old(sessions)[key := Active(old(nextChannel))])
      ensures nextChannel == if refused.Some? then old(nextChannel) else old(nextChannel) + 1
    {
      ghost var spelled := Key(p.connection, IdFor(p, world.nextGenerated));
      RefusalMeans(world, p, spelled);
      AcceptedMeans(world, p, spelled);
      NextKeepsInv(world, Action.Start(p));
      world := Next(world, Action.Start(p));
      if p.processId.None? && (p.tty || p.streamStdin || p.streamStdoutStderr) {
        return Some(NeedsProcessId);
      }
      var id: ProcessId;
      if p.processId.Some? {
        id := Client(p.processId.value);
      } else {
        id := Generated(nextGeneratedProcessId);
        nextGeneratedProcessId := nextGeneratedProcessId + 1;
      }
      var key := Key(p.connection, id);
      if p.windowsSandbox {
        if p.tty || p.streamStdin || p.streamStdoutStderr {
          return Some(SandboxStreaming);
        }
        if p.outputBytesCap != Some(DEFAULT_OUTPUT_BYTES_CAP) {
          return Some(SandboxCustomCap);
        }
        if id.Client? {
          if key in sessions {
            return Some(Duplicate(id));
          }
          sessions := sessions[key := UnsupportedWindowsSandbox(nextChannel)];
        }
        nextChannel := nextChannel + 1;
        return None;
      }
      if p.emptyCommand {
        return Some(EmptyCommand);
      }
      if key in sessions {
        return Some(Duplicate(id));
      }
      sessions := sessions[key := Active(nextChannel)];
      nextChannel := nextChannel + 1;
      refused := None;
    }

    /** The clean-up after a failed spawn or a finished task. */
    method CleanUp(processKey: Key, ghost t: nat)
      requires Valid() && t in world.tasks && world.tasks[t].key == processKey
      modifies this
      ensures Valid() && sessions == old(sessions) - {processKey}
      ensures world == Next(old(world), if old(world).tasks[t].phase.Spawning? then SpawnFailed(t) else Finished(t))
    {
      ghost var a := if world.tasks[t].phase.Spawning? then SpawnFailed(t) else Finished(t);
      NextKeepsInv(world, a);
      world := Next(world, a);
      sessions := sessions - {processKey};
    }

    /** `connection_closed`: the channels returned get a Terminate each. */
    method ConnectionClosed(c: ConnectionId) returns (terminated: set<nat>)
      requires Valid()
      modifies this
      ensures Valid() && world == Next(old(world), Action.ConnectionClosed(c))
      ensures world.terminated == old(world).terminated + terminated && terminated == ActiveOf(old(sessions), c)
      ensures forall k :: k in sessions <==> k in old(sessions) && k.connection != c
      ensures forall k :: k in sessions ==> sessions[k] == old(sessions)[k]
    {
      NextKeepsInv(world, Action.ConnectionClosed(c));
      sessions, terminated := TakeConnection(sessions, c);
      world := Next(world, Action.ConnectionClosed(c));
    }

    /** `send_control`: the channel a control goes to. */
    method SendControl(k: Key) returns (r: Result<nat, ControlError>)
      requires Valid()
      ensures k !in sessions <==> r == Err(NoActiveProcess(k.process))
      ensures r.Ok? ==> k in sessions && sessions[k] == Active(r.value)
      ensures r.Ok? && !world.reused ==>
        r.value in world.tasks && world.tasks[r.value].key == k && !world.tasks[r.value].phase.Sandboxed?
      ensures r.Ok? <==> k in sessions && sessions[k].Active?
    {
      if k !in sessions {
        return Err(NoActiveProcess(k.process));
      }
      if !sessions[k].Active? {
        return Err(NotForSandboxedProcesses);
      }
      if !world.reused { ControlReachesOwner(world, k); }
      r := Ok(sessions[k].controlTx);
    }
  }
}
