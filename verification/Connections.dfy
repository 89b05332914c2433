/** Connections of the stdio/websocket server: the sessions of the processor loop, the replica
    the outbound loop keeps through a control queue, and the shutdown drain. */
module Connections {
  import opened Json

  // ---------------------------------------------------------------- one session

  /** `ConnectionSessionState` */
  datatype Session = Session(initialized: bool, experimental: bool, optOuts: set<string>, name: Option<string>,
                             version: Option<string>)

  const FRESH := Session(false, false, {}, None, None)

  datatype Capabilities = Capabilities(experimental: bool, optOuts: Option<set<string>>)

  /** What `set_default_originator` said about the client's name. */
  datatype Originator = Accepted | AlreadySet | InvalidHeader

  datatype Request =
    | Initialize(capabilities: Option<Capabilities>, name: string, version: string, originator: Originator)
    | Ordinary(experimental: bool)
    | Malformed

  datatype Reply =
    | AlreadyInitialized
    | InvalidName
    | Welcome
    | NotInitialized
    | ExperimentalRequired
    | InvalidRequest
    | Dispatched

  /** The experimental flag and the opt-outs an initialize request asks for. */
  function Wanted(capabilities: Option<Capabilities>): (bool, set<string>) {
    match capabilities
    case Some(c) => (c.experimental, match c.optOuts case Some(methods) => methods case None => {})
    case None => (false, {})
  }

  /** `handle_client_request`, up to the dispatch. */
  function Handle(s: Session, r: Request): (Session, Reply) {
    match r
    case Malformed => (s, InvalidRequest)
    case Initialize(capabilities, name, version, originator) =>
      if s.initialized then (s, AlreadyInitialized)
      else
        var (experimental, optOuts) := Wanted(capabilities);
        var written := Session(false, experimental, optOuts, Some(name), Some(version));
        if originator.InvalidHeader? then (written, InvalidName) else (written.(initialized := true), Welcome)
    case Ordinary(experimental) =>
      if !s.initialized then (s, NotInitialized)
      else if experimental && !s.experimental then (s, ExperimentalRequired)
      else (s, Dispatched)
  }

  /** A session after requests were handled one by one. */
  function HandleAll(s: Session, requests: seq<Request>, n: nat): Session
    requires n <= |requests|
  {
    if n == 0 then s else Handle(HandleAll(s, requests, n - 1), requests[n - 1]).0
  }

  /** What an initialize request asks for, apart from being accepted. */
  function Asked(r: Request): Session
    requires r.Initialize?
  {
    Session(false, Wanted(r.capabilities).0, Wanted(r.capabilities).1, Some(r.name), Some(r.version))
  }

  /** The request asks for just this: without capabilities for nothing, without a list for no opt-out. */
  predicate AsksFor(r: Request, experimental: bool, optOuts: set<string>) {
    r.Initialize? &&
    match r.capabilities
    case Some(Capabilities(e, Some(methods))) => experimental == e && optOuts == methods
    case Some(Capabilities(e, None)) => experimental == e && optOuts == {}
    case None => !experimental && optOuts == {}
  }

  lemma AskedMeans(r: Request)
    requires r.Initialize?
    ensures AsksFor(r, Asked(r).experimental, Asked(r).optOuts)
    ensures Asked(r).name == Some(r.name) && Asked(r).version == Some(r.version)
  {
  }

  predicate Acceptable(r: Request) {
    r.Initialize? && !r.originator.InvalidHeader?
  }

  /** A session is what its first acceptable initialize request asked for, whatever comes later; until
      then it is not initialized, though a refused one leaves its wishes behind. */
  lemma {:induction false} FirstAcceptableDecides(requests: seq<Request>, n: nat)
    requires n <= |requests|
    ensures var s := HandleAll(FRESH, requests, n);
            && (s.initialized <==> exists i :: 0 <= i < n && Acceptable(requests[i]))
            && (forall i ::
                  0 <= i < n && Acceptable(requests[i]) && (forall j :: 0 <= j < i ==> !Acceptable(requests[j])) ==>
                  s == Asked(requests[i]).(initialized := true))
            && (!s.initialized ==>
                  s == FRESH || exists i :: 0 <= i < n && requests[i].Initialize? && s == Asked(requests[i]))
  {
    if n > 0 { FirstAcceptableDecides(requests, n - 1); }
  }

  /** In the request's own terms: its flag, its opt-outs or none, its name and version. */
  lemma FirstAcceptableHasItsWay(requests: seq<Request>, n: nat, i: nat)
    requires i < n <= |requests| && Acceptable(requests[i]) && forall j :: 0 <= j < i ==> !Acceptable(requests[j])
    ensures var s := HandleAll(FRESH, requests, n);
            && s.initialized && AsksFor(requests[i], s.experimental, s.optOuts)
            && s.name == Some(requests[i].name) && s.version == Some(requests[i].version)
  {
    FirstAcceptableDecides(requests, n);
    AskedMeans(requests[i]);
  }

  /** The processor's own copy, its fields written in sequence. */
  class ConnectionSession {
    var initialized: bool
    var experimental: bool
    var optOuts: set<string>
    var name: Option<string>
    var version: Option<string>

    function View(): Session
      reads this
    {
      Session(initialized, experimental, optOuts, name, version)
    }

    constructor ()
      ensures View() == FRESH
    {
      initialized, experimental, optOuts, name, version := false, false, {}, None, None;
    }

    method HandleClientRequest(r: Request) returns (reply: Reply)
      modifies this
      ensures (View(), reply) == Handle(old(View()), r)
      ensures old(initialized) ==> View() == old(View())
      ensures reply.Dispatched? <==> r.Ordinary? && initialized && (r.experimental ==> experimental)
      ensures reply.ExperimentalRequired? <==> r.Ordinary? && initialized && r.experimental && !experimental
      ensures reply.NotInitialized? <==> r.Ordinary? && !old(initialized)
      ensures reply.AlreadyInitialized? <==> r.Initialize? && old(initialized)
      ensures reply.InvalidName? <==> r.Initialize? && !old(initialized) && r.originator.InvalidHeader?
      ensures reply.InvalidRequest? <==> r.Malformed?
      ensures r.Initialize? && !old(initialized) ==>
        && AsksFor(r, experimental, optOuts) && name == Some(r.name) && version == Some(r.version)
        && (initialized <==> !r.originator.InvalidHeader?)
      ensures !r.Initialize? ==> View() == old(View())
    {
      match r {
        case Malformed => return InvalidRequest;
        case Initialize(capabilities, n, v, originator) =>
          if initialized { return AlreadyInitialized; }
          match capabilities {
            case Some(c) =>
              experimental := c.experimental;
              optOuts := match c.optOuts case Some(methods) => methods case None => {};
            case None =>
              experimental := false;
              optOuts := {};
          }
          name := Some(n);
          version := Some(v);
          if originator.InvalidHeader? { return InvalidName; }
          initialized := true;
          return Welcome;
        case Ordinary(needsExperimental) =>
          if !initialized { return NotInitialized; }
          if needsExperimental && !experimental { return ExperimentalRequired; }
          return Dispatched;
      }
    }
  }

  // ---------------------------------------------------------------- both loops

  type Id = nat

  /** What the two loops share about one opening of a connection. */
  datatype Flags = Flags(owner: Id, initialized: bool, experimental: bool, optOuts: set<string>)

  /** An opening is named by its place among all openings. */
  datatype Connection = Connection(opening: nat, session: Session)

  datatype Control = Opened(id: Id, opening: nat) | Closed(id: Id) | DisconnectAll

  /** Where the processor loop stands: between events, having announced a connection without having
      entered it yet, having removed one without having said so yet, or part of the way through a request. */
  datatype Pc =
    | Ready
    | Opening(id: Id, opening: nat)
    | Closing(id: Id, opening: nat)
    | Handled(id: Id, was: bool)
    | OptOutsMirrored(id: Id, was: bool)
    | FlagMirrored(id: Id, was: bool)
    | Over(all: bool)

  /** `dropped` are the openings the router took out by itself, `processed` counts the `Opened`
      events the outbound loop has seen. */
  datatype Server = Server(
    connections: map<Id, Connection>,
    flags: seq<Flags>,
    control: seq<Control>,
    outbound: map<Id, nat>,
    processed: nat,
    dropped: set<nat>,
    pc: Pc)

  const START := Server(map[], [], [], map[], 0, {}, Ready)

  datatype Action =
    | ConnectionOpened(id: Id)
    | ConnectionClosed(id: Id)
    | Incoming(id: Id, request: Request)
    | Advance
    | OutboundStep
    | RouterDrops(id: Id)
    | Stop(disconnectAll: bool)

  /** One control event at the outbound loop. */
  function Apply(outbound: map<Id, nat>, c: Control): map<Id, nat> {
    match c
    case Opened(id, opening) => outbound[id := opening]
    case Closed(id) => outbound - {id}
    case DisconnectAll => map[]
  }

  /** The outbound table once everything queued is applied. */
  function Replay(outbound: map<Id, nat>, control: seq<Control>): map<Id, nat>
    decreases |control|
  {
    if control == [] then outbound else Replay(Apply(outbound, control[0]), control[1..])
  }

  /** The processor loop goes on with a request or a removal. */
  function Proceed(s: Server): Server {
    match s.pc
    case Opening(id, opening) => s.(connections := s.connections[id := Connection(opening, FRESH)], pc := Ready)
    case Closing(id, _) => s.(control := s.control + [Closed(id)], pc := Ready)
    case Handled(id, was) =>
      if id in s.connections && s.connections[id].opening < |s.flags| then
        var k := s.connections[id].opening;
        s.(flags := s.flags[k := s.flags[k].(optOuts := s.connections[id].session.optOuts)],
           pc := OptOutsMirrored(id, was))
      else s
    case OptOutsMirrored(id, was) =>
      if id in s.connections && s.connections[id].opening < |s.flags| then
        var k := s.connections[id].opening;
        s.(flags := s.flags[k := s.flags[k].(experimental := s.connections[id].session.experimental)],
           pc := FlagMirrored(id, was))
      else s
    case FlagMirrored(id, was) =>
      if id in s.connections && s.connections[id].opening < |s.flags| then
        var k := s.connections[id].opening;
        var ready := !was && s.connections[id].session.initialized;
        s.(flags := s.flags[k := s.flags[k].(initialized := s.flags[k].initialized || ready)], pc := Ready)
      else s
    case _ => s
  }

  function Next(s: Server, a: Action): Server {
    match a
    case ConnectionOpened(id) =>
      if !s.pc.Ready? then s
      else s.(flags := s.flags + [Flags(id, false, false, {})],
              control := s.control + [Opened(id, |s.flags|)],
              pc := Opening(id, |s.flags|))
    case ConnectionClosed(id) =>
      if !s.pc.Ready? || id !in s.connections then s
      else s.(connections := s.connections - {id}, pc := Closing(id, s.connections[id].opening))
    case Incoming(id, request) =>
      if !s.pc.Ready? || id !in s.connections then s
      else
        var c := s.connections[id];
        s.(connections := s.connections[id := c.(session := Handle(c.session, request).0)],
           pc := Handled(id, c.session.initialized))
    case Advance => Proceed(s)
    case OutboundStep =>
      if s.control == [] then s
      else s.(outbound := Apply(s.outbound, s.control[0]), control := s.control[1..],
              processed := if s.control[0].Opened? then s.processed + 1 else s.processed)
    case RouterDrops(id) =>
      if id in s.outbound then s.(outbound := s.outbound - {id}, dropped := s.dropped + {s.outbound[id]}) else s
    case Stop(all) =>
      if !s.pc.Ready? then s
      else s.(control := if all then s.control + [DisconnectAll] else s.control, pc := Over(all))
  }

  function RunFrom(s: Server, actions: seq<Action>): Server
    decreases |actions|
  {
    if actions == [] then s else RunFrom(Next(s, actions[0]), actions[1..])
  }

  // ---------------------------------------------------------------- the replica of ids

  /** The openings the processor knows of, without those the router dropped. */
  function Live(s: Server): map<Id, nat> {
    var known := map id | id in s.connections :: s.connections[id].opening;
    var all := if s.pc.Opening? || s.pc.Closing? then known[s.pc.id := s.pc.opening] else known;
    map id | id in all && all[id] !in s.dropped :: all[id]
  }

  /** Queued openings carry the numbers from `from` to `to`, in order. */
  predicate Numbered(control: seq<Control>, from: nat, to: nat)
    decreases |control|
  {
    if control == [] then from == to
    else if control[0].Opened? then control[0].opening == from && Numbered(control[1..], from + 1, to)
    else Numbered(control[1..], from, to)
  }

  ghost predicate Counted(s: Server) {
    && s.processed <= |s.flags|
    && Numbered(s.control, s.processed, |s.flags|)
    && (forall k :: k in s.dropped ==> k < s.processed)
    && (forall id :: id in s.outbound ==> s.outbound[id] < s.processed)
    && (forall i, j :: i in s.outbound && j in s.outbound && s.outbound[i] == s.outbound[j] ==> i == j)
  }

  ghost predicate InStep(s: Server) {
    && (!s.pc.Over? ==> Replay(s.outbound, s.control) == Live(s))
    && (s.pc.Closing? ==> s.pc.id !in s.connections)
    && (s.pc == Over(true) ==> Replay(s.outbound, s.control) == map[])
  }

  lemma {:induction false} ReplayAppend(outbound: map<Id, nat>, control: seq<Control>, c: Control)
    ensures Replay(outbound, control + [c]) == Apply(Replay(outbound, control), c)
    decreases |control|
  {
    if control == [] {
      assert (control + [c])[1..] == [];
    } else {
      assert (control + [c])[1..] == control[1..] + [c];
      ReplayAppend(Apply(outbound, control[0]), control[1..], c);
    }
  }

  lemma {:induction false} NumberedAppend(control: seq<Control>, from: nat, to: nat, c: Control)
    requires Numbered(control, from, to) && (c.Opened? ==> c.opening == to)
    ensures Numbered(control + [c], from, if c.Opened? then to + 1 else to)
    decreases |control|
  {
    if control == [] {
      assert (control + [c])[1..] == [];
    } else {
      assert (control + [c])[1..] == control[1..] + [c];
      NumberedAppend(control[1..], if control[0].Opened? then from + 1 else from, to, c);
    }
  }

  function Without(table: map<Id, nat>, opening: nat): map<Id, nat> {
    map id | id in table && table[id] != opening :: table[id]
  }

  /** Taking out an opening that is not queued commutes with replaying the queue. */
  lemma {:induction false} ReplayWithout(outbound: map<Id, nat>, control: seq<Control>, opening: nat,
                                         from: nat, to: nat)
    requires Numbered(control, from, to) && opening < from
    ensures Replay(Without(outbound, opening), control) == Without(Replay(outbound, control), opening)
    decreases |control|
  {
    if control != [] {
      var c := control[0];
      assert Apply(Without(outbound, opening), c) == Without(Apply(outbound, c), opening);
      ReplayWithout(Apply(outbound, c), control[1..], opening, if c.Opened? then from + 1 else from, to);
    }
  }

  lemma NextKeepsCounted(s: Server, a: Action)
    requires Counted(s)
    ensures Counted(Next(s, a))
  {
    match a
    case ConnectionOpened(id) =>
      NumberedAppend(s.control, s.processed, |s.flags|, Opened(id, |s.flags|));
    case Advance =>
      if s.pc.Closing? { NumberedAppend(s.control, s.processed, |s.flags|, Closed(s.pc.id)); }
    case Stop(all) =>
      if all { NumberedAppend(s.control, s.processed, |s.flags|, DisconnectAll); }
    case OutboundStep =>
      if s.control != [] {
        NumberedBounds(s.control[1..], if s.control[0].Opened? then s.processed + 1 else s.processed, |s.flags|);
      }
    case _ =>
  }

  lemma {:induction false} NumberedBounds(control: seq<Control>, from: nat, to: nat)
    requires Numbered(control, from, to)
    ensures from <= to
    decreases |control|
  {
    if control != [] { NumberedBounds(control[1..], if control[0].Opened? then from + 1 else from, to); }
  }

  lemma OpeningStaysInStep(s: Server, id: Id)
    requires Counted(s) && InStep(s) && s.pc.Ready?
    ensures InStep(Next(s, ConnectionOpened(id)))
  {
    var s' := Next(s, ConnectionOpened(id));
    ReplayAppend(s.outbound, s.control, Opened(id, |s.flags|));
    assert Live(s') == Live(s)[id := |s.flags|];
  }

  lemma ClosingStaysInStep(s: Server, id: Id)
    requires InStep(s) && s.pc.Ready? && id in s.connections
    ensures InStep(Next(s, ConnectionClosed(id)))
  {
    assert Live(Next(s, ConnectionClosed(id))) == Live(s);
  }

  lemma ProceedingStaysInStep(s: Server)
    requires InStep(s)
    ensures InStep(Proceed(s))
  {
    if s.pc.Opening? {
      assert Live(Proceed(s)) == Live(s);
    } else if s.pc.Closing? {
      ReplayAppend(s.outbound, s.control, Closed(s.pc.id));
      assert Live(Proceed(s)) == Live(s) - {s.pc.id};
    } else if !s.pc.Over? {
      assert Live(Proceed(s)) == Live(s);
    }
  }

  lemma DroppingLeaves(s: Server, id: Id)
    requires id in s.outbound
    ensures Live(Next(s, RouterDrops(id))) == Without(Live(s), s.outbound[id])
  {
  }

  lemma DroppingStaysInStep(s: Server, id: Id)
    requires Counted(s) && InStep(s) && id in s.outbound
    ensures InStep(Next(s, RouterDrops(id)))
  {
    var k := s.outbound[id];
    assert s.outbound - {id} == Without(s.outbound, k);
    ReplayWithout(s.outbound, s.control, k, s.processed, |s.flags|);
    DroppingLeaves(s, id);
  }

  lemma IncomingStaysInStep(s: Server, id: Id, request: Request)
    requires InStep(s) && s.pc.Ready? && id in s.connections
    ensures InStep(Next(s, Incoming(id, request)))
  {
    assert Live(Next(s, Incoming(id, request))) == Live(s);
  }

  lemma NextStaysInStep(s: Server, a: Action)
    requires Counted(s) && InStep(s)
    ensures InStep(Next(s, a))
  {
    match a
    case ConnectionOpened(id) => if s.pc.Ready? { OpeningStaysInStep(s, id); }
    case ConnectionClosed(id) => if s.pc.Ready? && id in s.connections { ClosingStaysInStep(s, id); }
    case Incoming(id, request) => if s.pc.Ready? && id in s.connections { IncomingStaysInStep(s, id, request); }
    case Advance => ProceedingStaysInStep(s);
    case RouterDrops(id) => if id in s.outbound { DroppingStaysInStep(s, id); }
    case OutboundStep => assert Live(Next(s, a)) == Live(s);
    case Stop(all) => if all { ReplayAppend(s.outbound, s.control, DisconnectAll); }
  }

  lemma {:induction false} RunsStayInStep(s: Server, actions: seq<Action>)
    requires Counted(s) && InStep(s)
    ensures Counted(RunFrom(s, actions)) && InStep(RunFrom(s, actions))
    decreases |actions|
  {
    if actions != [] {
      NextKeepsCounted(s, actions[0]);
      NextStaysInStep(s, actions[0]);
      RunsStayInStep(Next(s, actions[0]), actions[1..]);
    }
  }

  /** Until shutdown, applying what is queued to the outbound table gives exactly the processor's
      connections, each with its own opening, but for those the router itself dropped; one that is being
      opened or closed at the moment is still counted.  After a graceful stop it gives the empty table. */
  lemma ReplicaFollows(actions: seq<Action>)
    ensures var r := RunFrom(START, actions);
            && (r.pc == Over(true) ==> Replay(r.outbound, r.control) == map[])
            && (!r.pc.Over? ==> Replay(r.outbound, r.control) == Live(r))
            && (!r.pc.Over? && !r.pc.Opening? && !r.pc.Closing? ==>
                  forall id :: (id in Replay(r.outbound, r.control) <==>
                                id in r.connections && r.connections[id].opening !in r.dropped))
            && (!r.pc.Over? && !r.pc.Opening? && !r.pc.Closing? && r.dropped == {} ==>
                  Replay(r.outbound, r.control).Keys == r.connections.Keys)
  {
    RunsStayInStep(START, actions);
  }

  // ---------------------------------------------------------------- the replica of session fields

  predicate Busy(pc: Pc, id: Id) {
    (pc.Handled? || pc.OptOutsMirrored? || pc.FlagMirrored?) && pc.id == id
  }

  /** The flags of a connection are its own, and agree with its session outside of a request; inside
      one they agree if the session was already initialized. */
  ghost predicate Agrees(s: Server, id: Id)
    requires id in s.connections
  {
    var c := s.connections[id];
    && c.opening < |s.flags|
    && var f := s.flags[c.opening];
    && f.owner == id
    && (if Busy(s.pc, id) then
          && f.initialized == s.pc.was
          && (s.pc.was ==> c.session.initialized)
          && (s.pc.was || !s.pc.Handled? ==> f.optOuts == c.session.optOuts)
          && (s.pc.was || s.pc.FlagMirrored? ==> f.experimental == c.session.experimental)
        else
          && f.initialized == c.session.initialized
          && f.optOuts == c.session.optOuts
          && f.experimental == c.session.experimental)
  }

  ghost predicate AllAgree(s: Server) {
    && (forall id :: id in s.connections ==> Agrees(s, id))
    && (s.pc.Handled? || s.pc.OptOutsMirrored? || s.pc.FlagMirrored? ==> s.pc.id in s.connections)
    && (s.pc.Opening? ==> s.pc.opening < |s.flags| && s.flags[s.pc.opening] == Flags(s.pc.id, false, false, {}))
    && (s.pc.Opening? ==> forall id :: id in s.connections ==> s.connections[id].opening != s.pc.opening)
  }

  lemma NextAgrees(s: Server, a: Action)
    requires AllAgree(s)
    ensures AllAgree(Next(s, a))
  {
    forall id | id in Next(s, a).connections
      ensures Agrees(Next(s, a), id)
    {
    }
    forall id | id in s.connections ensures s.connections[id].opening < |s.flags| {
      assert Agrees(s, id);
    }
  }

  lemma {:induction false} RunsAgree(s: Server, actions: seq<Action>)
    requires AllAgree(s)
    ensures AllAgree(RunFrom(s, actions))
    decreases |actions|
  {
    if actions != [] {
      NextAgrees(s, actions[0]);
      RunsAgree(Next(s, actions[0]), actions[1..]);
    }
  }

  /** Whenever a connection is marked ready for outbound messages, its session is initialized and
      its mirrored experimental flag and opt-outs are the session's; and between events every
      initialized one is marked so. */
  lemma ReadyMeansMirrored(actions: seq<Action>, id: Id)
    requires id in RunFrom(START, actions).connections
    ensures var r := RunFrom(START, actions);
            var c := r.connections[id];
            && c.opening < |r.flags|
            && (r.flags[c.opening].initialized ==>
                  && c.session.initialized
                  && r.flags[c.opening].experimental == c.session.experimental
                  && r.flags[c.opening].optOuts == c.session.optOuts)
            && (r.pc.Ready? && c.session.initialized ==> r.flags[c.opening].initialized)
  {
    RunsAgree(START, actions);
    assert Agrees(RunFrom(START, actions), id);
  }

  lemma SessionStaysOnce(s: Server, a: Action, id: Id, opening: nat, session: Session)
    requires AllAgree(s) && opening < |s.flags| && session.initialized
    requires s.pc.Opening? ==> s.pc.opening != opening
    requires id in s.connections && s.connections[id].opening == opening ==> s.connections[id].session == session
    ensures var v := Next(s, a);
            && opening < |v.flags| && (v.pc.Opening? ==> v.pc.opening != opening)
            && (id in v.connections && v.connections[id].opening == opening ==> v.connections[id].session == session)
  {
  }

  lemma {:induction false} SessionStays(s: Server, actions: seq<Action>, id: Id, opening: nat, session: Session)
    requires AllAgree(s) && opening < |s.flags| && session.initialized
    requires s.pc.Opening? ==> s.pc.opening != opening
    requires id in s.connections && s.connections[id].opening == opening ==> s.connections[id].session == session
    ensures var r := RunFrom(s, actions);
            id in r.connections && r.connections[id].opening == opening ==> r.connections[id].session == session
    decreases |actions|
  {
    if actions != [] {
      NextAgrees(s, actions[0]);
      SessionStaysOnce(s, actions[0], id, opening, session);
      SessionStays(Next(s, actions[0]), actions[1..], id, opening, session);
    }
  }

  lemma {:induction false} RunInTurn(s: Server, a: seq<Action>, b: seq<Action>)
    ensures RunFrom(s, a + b) == RunFrom(RunFrom(s, a), b)
    decreases |a|
  {
    if a == [] {
      assert a + b == b;
    } else {
      assert (a + b)[1..] == a[1..] + b;
      RunInTurn(Next(s, a[0]), a[1..], b);
    }
  }

  /** Once initialize has succeeded on a connection, nothing that happens later changes its session. */
  lemma SessionNeverChangesAgain(before: seq<Action>, after: seq<Action>, id: Id)
    requires var s := RunFrom(START, before); id in s.connections && s.connections[id].session.initialized
    ensures var s, r := RunFrom(START, before), RunFrom(START, before + after);
            id in r.connections && r.connections[id].opening == s.connections[id].opening ==>
              r.connections[id].session == s.connections[id].session
  {
    var s := RunFrom(START, before);
    RunsAgree(START, before);
    RunInTurn(START, before, after);
    assert Agrees(s, id);
    SessionStays(s, after, id, s.connections[id].opening, s.connections[id].session);
  }

  /** The action is an acceptable initialize request on this connection, asking for just this. */
  predicate AskedOn(a: Action, id: Id, experimental: bool, optOuts: set<string>) {
    a.Incoming? && a.id == id && Acceptable(a.request) && AsksFor(a.request, experimental, optOuts)
  }

  /** Each initialized session is what some request on its connection asked for. */
  ghost predicate AllAsked(s: Server, actions: seq<Action>) {
    forall id :: id in s.connections && s.connections[id].session.initialized ==>
      var session := s.connections[id].session;
      exists k :: 0 <= k < |actions| && AskedOn(actions[k], id, session.experimental, session.optOuts)
  }

  lemma NextAsked(s: Server, a: Action, id: Id)
    requires id in Next(s, a).connections && Next(s, a).connections[id].session.initialized
    ensures var session := Next(s, a).connections[id].session;
            || AskedOn(a, id, session.experimental, session.optOuts)
            || (id in s.connections && s.connections[id].session == session)
  {
    if a.Incoming? && a.request.Initialize? { AskedMeans(a.request); }
  }

  lemma {:induction false} RunsAsked(actions: seq<Action>)
    ensures AllAsked(RunFrom(START, actions), actions)
    decreases |actions|
  {
    if actions != [] {
      var before, a := actions[..|actions| - 1], actions[|actions| - 1];
      var s := RunFrom(START, before);
      assert actions == before + [a] && [a][1..] == [];
      RunInTurn(START, before, [a]);
      assert RunFrom(s, [a]) == RunFrom(Next(s, a), []) == Next(s, a);
      RunsAsked(before);
      forall id | id in Next(s, a).connections && Next(s, a).connections[id].session.initialized
        ensures var session := Next(s, a).connections[id].session;
                exists k :: 0 <= k < |actions| && AskedOn(actions[k], id, session.experimental, session.optOuts)
      {
        var session := Next(s, a).connections[id].session;
        NextAsked(s, a, id);
        if AskedOn(a, id, session.experimental, session.optOuts) {
          assert AskedOn(actions[|actions| - 1], id, session.experimental, session.optOuts);
        } else {
          var k :| 0 <= k < |before| && AskedOn(before[k], id, session.experimental, session.optOuts);
          assert AskedOn(actions[k], id, session.experimental, session.optOuts);
        }
      }
    }
  }

  /** A connection marked ready has the experimental flag and the opt-outs that its client asked for. */
  lemma ReadyAsAsked(actions: seq<Action>, id: Id)
    requires id in RunFrom(START, actions).connections
    ensures var r := RunFrom(START, actions);
            var opening := r.connections[id].opening;
            && opening < |r.flags|
            && (r.flags[opening].initialized ==>
                  exists k :: 0 <= k < |actions| &&
                    AskedOn(actions[k], id, r.flags[opening].experimental, r.flags[opening].optOuts))
  {
    ReadyMeansMirrored(actions, id);
    RunsAsked(actions);
  }

  // ---------------------------------------------------------------- the in-process loop

  datatype InProcessPc = Idle | RequestHandled | InProcessOptOutsMirrored

  /** The one session of the in-process loop and the flags it shares with the router. */
  datatype InProcess = InProcess(session: Session, flags: Flags, pc: InProcessPc)

  const IN_PROCESS_START := InProcess(FRESH, Flags(0, false, false, {}), Idle)

  /** A request is handled; here initialize itself marks the connection ready. */
  function Serve(s: InProcess, r: Request): InProcess {
    var (session, reply) := Handle(s.session, r);
    InProcess(session, s.flags.(initialized := s.flags.initialized || reply.Welcome?), RequestHandled)
  }

  /** The loop goes on: first the opt-outs are mirrored, then the experimental flag. */
  function GoOn(s: InProcess): InProcess {
    match s.pc
    case RequestHandled => s.(flags := s.flags.(optOuts := s.session.optOuts), pc := InProcessOptOutsMirrored)
    case InProcessOptOutsMirrored => s.(flags := s.flags.(experimental := s.session.experimental), pc := Idle)
    case Idle => s
  }

  /** The state after `k` steps of serving the `i`th request. */
  function Moment(requests: seq<Request>, i: nat, k: nat): InProcess
    requires i < |requests| && k <= 3
    decreases i, k
  {
    if k == 0 then (if i == 0 then IN_PROCESS_START else Moment(requests, i - 1, 3))
    else if k == 1 then Serve(Moment(requests, i, 0), requests[i])
    else GoOn(Moment(requests, i, k - 1))
  }

  /** The router may use the connection although what it knows of the session is not right. */
  predicate ReadyTooEarly(s: InProcess) {
    s.flags.initialized && !(s.flags.experimental == s.session.experimental && s.flags.optOuts == s.session.optOuts)
  }

  /** What the latest initialize request among the first `n` asked for. */
  function LastWish(requests: seq<Request>, n: nat): (bool, set<string>)
    requires n <= |requests|
  {
    if n == 0 then (false, {})
    else if requests[n - 1].Initialize? then Wanted(requests[n - 1].capabilities)
    else LastWish(requests, n - 1)
  }

  predicate FirstAcceptable(requests: seq<Request>, i: nat) {
    i < |requests| && Acceptable(requests[i]) && forall j :: 0 <= j < i ==> !Acceptable(requests[j])
  }

  lemma Moments(requests: seq<Request>, i: nat)
    requires i < |requests|
    ensures Moment(requests, i, 1) == Serve(Moment(requests, i, 0), requests[i])
    ensures Moment(requests, i, 2) == GoOn(Moment(requests, i, 1))
    ensures Moment(requests, i, 3) == GoOn(Moment(requests, i, 2))
  {
  }

  lemma {:induction false} WishesAreMirrored(requests: seq<Request>, i: nat)
    requires i < |requests|
    ensures var s := Moment(requests, i, 0);
            && s.pc.Idle? && s.session == HandleAll(FRESH, requests, i)
            && s.flags == Flags(0, s.session.initialized, s.session.experimental, s.session.optOuts)
            && (!s.session.initialized ==> (s.session.experimental, s.session.optOuts) == LastWish(requests, i))
    decreases i
  {
    if i > 0 {
      WishesAreMirrored(requests, i - 1);
      Moments(requests, i - 1);
    }
  }

  ghost predicate TooEarlyDuring(requests: seq<Request>, i: nat)
    requires i < |requests|
  {
    exists k :: 1 <= k <= 3 && ReadyTooEarly(Moment(requests, i, k))
  }

  /** The request is the first acceptable initialize and asks for something new. */
  predicate BringsNewWish(requests: seq<Request>, i: nat) {
    FirstAcceptable(requests, i) && Wanted(requests[i].capabilities) != LastWish(requests, i)
  }

  lemma ServingTooEarlyIff(s: InProcess, r: Request)
    requires s.pc.Idle? && s.flags == Flags(0, s.session.initialized, s.session.experimental, s.session.optOuts)
    ensures var one := Serve(s, r);
            (ReadyTooEarly(one) || ReadyTooEarly(GoOn(one)) || ReadyTooEarly(GoOn(GoOn(one)))) <==>
            && !s.session.initialized && Acceptable(r)
            && Wanted(r.capabilities) != (s.session.experimental, s.session.optOuts)
  {
  }

  lemma DuringIs(requests: seq<Request>, i: nat)
    requires i < |requests|
    ensures var one := Serve(Moment(requests, i, 0), requests[i]);
            TooEarlyDuring(requests, i) <==>
            ReadyTooEarly(one) || ReadyTooEarly(GoOn(one)) || ReadyTooEarly(GoOn(GoOn(one)))
  {
    Moments(requests, i);
  }

  lemma TooEarlyAt(requests: seq<Request>, i: nat)
    requires i < |requests|
    ensures TooEarlyDuring(requests, i) <==> BringsNewWish(requests, i)
  {
    WishesAreMirrored(requests, i);
    FirstAcceptableDecides(requests, i);
    DuringIs(requests, i);
    ServingTooEarlyIff(Moment(requests, i, 0), requests[i]);
  }

  /** In process a connection is at some moment marked ready with an experimental flag or opt-outs that are
      not its session's exactly if the first acceptable initialize request asks for something else than the
      latest refused one before it, or than the defaults if there is none. */
  lemma InProcessReadyTooEarlyIff(requests: seq<Request>)
    ensures (exists i :: 0 <= i < |requests| && TooEarlyDuring(requests, i)) <==>
            exists i :: 0 <= i < |requests| && BringsNewWish(requests, i)
  {
    forall i | 0 <= i < |requests|
      ensures TooEarlyDuring(requests, i) <==> BringsNewWish(requests, i)
    {
      TooEarlyAt(requests, i);
    }
  }

  /** For a client whose first request is its initialize: exactly if it asks for experimental API or opts out
      of anything. */
  lemma FirstInitializeTooEarlyIff(r: Request)
    requires Acceptable(r)
    ensures TooEarlyDuring([r], 0) <==> Wanted(r.capabilities).0 || Wanted(r.capabilities).1 != {}
  {
    TooEarlyAt([r], 0);
  }

  // ---------------------------------------------------------------- the loops themselves

  /** What a whole request comes to. */
  lemma RequestSteps(s: Server, id: Id, request: Request)
    requires s.pc.Ready? && id in s.connections && s.connections[id].opening < |s.flags|
    ensures var c := s.connections[id];
            var f := s.flags[c.opening];
            var session := Handle(c.session, request).0;
            Proceed(Proceed(Proceed(Next(s, Incoming(id, request))))) ==
            s.(connections := s.connections[id := c.(session := session)],
               flags := s.flags[c.opening := Flags(f.owner,
                                                   f.initialized || (!c.session.initialized && session.initialized),
                                                   session.experimental, session.optOuts)])
  {
    var c := s.connections[id];
    var one := Next(s, Incoming(id, request));
    var two := Proceed(one);
    var three := Proceed(two);
    assert two.connections == three.connections == one.connections;
    assert three.flags[c.opening].owner == s.flags[c.opening].owner;
  }

  /** The processor loop's table, the flags it shares, and the queue it fills; the outbound side as `out`. */
  class ProcessorLoop {
    var connections: map<Id, Connection>
    var flags: seq<Flags>
    var control: seq<Control>

    ghost function View(out: Server): Server
      reads this
    {
      out.(connections := connections, flags := flags, control := control, pc := Ready)
    }

    constructor ()
      ensures View(START) == START
    {
      connections, flags, control := map[], [], [];
    }

    method ConnectionOpened(id: Id, ghost out: Server)
      modifies this
      ensures View(out) == Proceed(Next(old(View(out)), Action.ConnectionOpened(id)))
    {
      var opening := |flags|;
      flags := flags + [Flags(id, false, false, {})];
      control := control + [Opened(id, opening)];
      connections := connections[id := Connection(opening, FRESH)];
    }

    method ConnectionClosed(id: Id, ghost out: Server)
      modifies this
      ensures View(out) == Proceed(Next(old(View(out)), Action.ConnectionClosed(id)))
    {
      if id !in connections { return; }
      connections := connections - {id};
      control := control + [Closed(id)];
    }

    /** A request: handle it, mirror the session, and mark the connection ready if it just became initialized. */
    method IncomingRequest(id: Id, request: Request, ghost out: Server) returns (reply: Option<Reply>)
      requires id in connections ==> connections[id].opening < |flags|
      modifies this
      ensures id !in old(connections) ==> reply.None? && View(out) == old(View(out))
      ensures id in old(connections) ==> reply == Some(Handle(old(connections[id].session), request).1)
      ensures id in old(connections) ==>
        View(out) == Proceed(Proceed(Proceed(Next(old(View(out)), Incoming(id, request)))))
    {
      if id !in connections { return None; }
      RequestSteps(View(out), id, request);
      var c := connections[id];
      var was := c.session.initialized;
      var (session, answer) := Handle(c.session, request);
      connections := connections[id := c.(session := session)];
      flags := flags[c.opening := flags[c.opening].(optOuts := session.optOuts)];
      flags := flags[c.opening := flags[c.opening].(experimental := session.experimental)];
      if !was && session.initialized {
        flags := flags[c.opening := flags[c.opening].(initialized := true)];
      }
      reply := Some(answer);
    }
  }

  /** The outbound loop, applying what is queued. */
  method ApplyControl(table: map<Id, nat>, control: seq<Control>) returns (outbound: map<Id, nat>)
    ensures outbound == Replay(table, control)
  {
    outbound := table;
    var left := control;
    while left != []
      invariant Replay(outbound, left) == Replay(table, control)
      decreases |left|
    {
      match left[0] {
        case Opened(id, opening) => outbound := outbound[id := opening];
        case Closed(id) => outbound := outbound - {id};
        case DisconnectAll => outbound := map[];
      }
      left := left[1..];
    }
  }

  // ---------------------------------------------------------------- shutdown

  datatype ShutdownAction = Noop | Finish

  class ShutdownState {
    var requested: bool
    var forced: bool
    var lastLoggedRunningTurnCount: Option<nat>
    ghost var signals: nat

    ghost predicate Valid()
      reads this
    {
      (requested <==> signals >= 1) && (forced <==> signals >= 2)
    }

    constructor ()
      ensures Valid() && signals == 0
    {
      requested, forced, lastLoggedRunningTurnCount := false, false, None;
      signals := 0;
    }

    method OnSignal()
      requires Valid()
      modifies this
      ensures Valid() && signals == old(signals) + 1
    {
      signals := signals + 1;
      if requested {
        forced := true;
        return;
      }
      requested := true;
      lastLoggedRunningTurnCount := None;
    }

    /** One signal lets running turns finish, a second one does not; without any nothing ends. */
    method Update(runningTurnCount: nat) returns (action: ShutdownAction)
      requires Valid()
      modifies this`lastLoggedRunningTurnCount
      ensures Valid()
      ensures action.Finish? <==> signals >= 2 || (signals == 1 && runningTurnCount == 0)
      ensures signals == 1 && runningTurnCount > 0 ==> lastLoggedRunningTurnCount == Some(runningTurnCount)
    {
      if !requested { return Noop; }
      if forced || runningTurnCount == 0 { return Finish; }
      if lastLoggedRunningTurnCount != Some(runningTurnCount) {
        lastLoggedRunningTurnCount := Some(runningTurnCount);
      }
      return Noop;
    }
  }
}
