/** Matching responses to the requests that wait for them, in the websocket client's worker
    and in the in-process runtime: every request taken is completed exactly once. */
module Requests {
  import opened Json

  datatype RequestId = Text(s: string) | Integer(i: int)

  datatype Side = Remote | InProcess

  /** How passing a request on went: written to the socket or not; queued for the processor,
      or its queue full or closed. */
  datatype Admission = Passed | WriteFailed | QueueFull | QueueClosed

  /** What a waiter is told. */
  datatype Completion =
    | Answered(id: RequestId, payload: Json)
    | Failed(id: RequestId, code: int, payload: Json)
    | DuplicateId
    | CouldNotWrite
    | Overloaded
    | ProcessorClosed
    | WorkerGone

  /** A waiter is named by the place of its request among those taken. */
  datatype Done = Done(waiter: nat, how: Completion)

  /** The table; `taken` and `completed` record the history. */
  datatype Table = Table(
    side: Side,
    running: bool,
    pending: map<RequestId, nat>,
    taken: seq<RequestId>,
    completed: seq<Done>)

  datatype Action =
    | Take(id: RequestId, admission: Admission)
    | Response(id: RequestId, payload: Json)
    | ErrorResponse(id: RequestId, code: int, payload: Json)
    | End
    | Drain(id: RequestId)

  function Init(side: Side): Table {
    Table(side, true, map[], [], [])
  }

  predicate Possible(side: Side, admission: Admission) {
    match admission
    case Passed => true
    case WriteFailed => side.Remote?
    case _ => side.InProcess?
  }

  function Complete(t: Table, waiter: nat, how: Completion): Table {
    t.(completed := t.completed + [Done(waiter, how)])
  }

  /** Taking an entry out and telling its waiter. */
  function Settle(t: Table, id: RequestId, how: Completion): Table {
    if id in t.pending then Complete(t.(pending := t.pending - {id}), t.pending[id], how) else t
  }

  /** A request whose id is not in flight. */
  function Admit(t: Table, id: RequestId, admission: Admission): Table {
    var entered := t.(pending := t.pending[id := |t.taken|], taken := t.taken + [id]);
    match admission
    case Passed => entered
    case WriteFailed => Settle(entered, id, CouldNotWrite).(running := false)
    case QueueFull => Settle(entered, id, Overloaded)
    case QueueClosed => Settle(entered, id, ProcessorClosed).(running := false)
  }

  function Next(t: Table, a: Action): Table {
    match a
    case Take(id, admission) =>
      if !t.running || !Possible(t.side, admission) then t
      else if id in t.pending then Complete(t.(taken := t.taken + [id]), |t.taken|, DuplicateId)
      else Admit(t, id, admission)
    case Response(id, payload) => if t.running then Settle(t, id, Answered(id, payload)) else t
    case ErrorResponse(id, code, payload) => if t.running then Settle(t, id, Failed(id, code, payload)) else t
    case End => t.(running := false)
    case Drain(id) => if t.running then t else Settle(t, id, WorkerGone)
  }

  function RunFrom(t: Table, actions: seq<Action>): Table
    decreases |actions|
  {
    if actions == [] then t else RunFrom(Next(t, actions[0]), actions[1..])
  }

  /** An entry is taken out and its waiter, and nobody else, is told so. */
  predicate Told(t: Table, v: Table, id: RequestId, how: Completion) {
    id in t.pending && v == t.(pending := t.pending - {id}, completed := t.completed + [Done(t.pending[id], how)])
  }

  /** A response completes the request of its id as answered, an error response as failed, with what it
      carries; one that nobody waits for changes nothing. */
  lemma AnswerMeans(t: Table, id: RequestId, code: int, payload: Json)
    requires t.running
    ensures id in t.pending ==> Told(t, Next(t, Response(id, payload)), id, Answered(id, payload))
    ensures id in t.pending ==> Told(t, Next(t, ErrorResponse(id, code, payload)), id, Failed(id, code, payload))
    ensures id !in t.pending ==> Next(t, Response(id, payload)) == Next(t, ErrorResponse(id, code, payload)) == t
  {
  }

  /** Each completion has what causes it among the actions. */
  ghost predicate Caused(actions: seq<Action>, d: Done, id: RequestId) {
    match d.how
    case Answered(i, payload) => i == id && Response(id, payload) in actions
    case Failed(i, code, payload) => i == id && ErrorResponse(id, code, payload) in actions
    case DuplicateId => exists admission :: Take(id, admission) in actions
    case CouldNotWrite => Take(id, WriteFailed) in actions
    case Overloaded => Take(id, QueueFull) in actions
    case ProcessorClosed => Take(id, QueueClosed) in actions
    case WorkerGone => Drain(id) in actions
  }

  ghost predicate AllCaused(actions: seq<Action>, t: Table) {
    forall k :: 0 <= k < |t.completed| ==>
      t.completed[k].waiter < |t.taken| && Caused(actions, t.completed[k], t.taken[t.completed[k].waiter])
  }

  lemma OneMoreCaused(actions: seq<Action>, t: Table, taken: seq<RequestId>, d: Done)
    requires AllCaused(actions, t) && t.taken <= taken && d.waiter < |taken| && Caused(actions, d, taken[d.waiter])
    ensures AllCaused(actions, t.(taken := taken, completed := t.completed + [d]))
  {
  }

  lemma NextCaused(actions: seq<Action>, t: Table, a: Action)
    requires AllCaused(actions, t) && Filed(t) && a in actions
    ensures AllCaused(actions, Next(t, a))
  {
    var v := Next(t, a);
    if |v.completed| > |t.completed| {
      OneMoreCaused(actions, t, v.taken, v.completed[|t.completed|]);
    }
  }

  /** Over every run each waiter hears what did happen to its own request, an answer with the very payload
      that arrived. */
  lemma {:induction false} CompletionsHaveCauses(t: Table, done: seq<Action>, actions: seq<Action>)
    requires AllCaused(done + actions, t) && Filed(t)
    ensures AllCaused(done + actions, RunFrom(t, actions))
    decreases |actions|
  {
    if actions != [] {
      assert actions[0] in done + actions;
      assert (done + [actions[0]]) + actions[1..] == done + actions;
      NextCaused(done + actions, t, actions[0]);
      NextFiled(t, actions[0]);
      CompletionsHaveCauses(Next(t, actions[0]), done + [actions[0]], actions[1..]);
    }
  }

  lemma NextFiled(t: Table, a: Action)
    requires Filed(t)
    ensures Filed(Next(t, a))
  {
  }

  // ---------------------------------------------------------------- exactly once

  function Times(completed: seq<Done>, waiter: nat): nat {
    if completed == [] then 0
    else Times(completed[..|completed| - 1], waiter) + if completed[|completed| - 1].waiter == waiter then 1 else 0
  }

  lemma TimesOneMore(completed: seq<Done>, d: Done, waiter: nat)
    ensures Times(completed + [d], waiter) == Times(completed, waiter) + if d.waiter == waiter then 1 else 0
  {
    assert (completed + [d])[..|completed|] == completed;
  }

  predicate Waiting(t: Table, waiter: nat) {
    waiter < |t.taken| && t.taken[waiter] in t.pending && t.pending[t.taken[waiter]] == waiter
  }

  /** Each entry is the waiter of a request with that very id. */
  ghost predicate Filed(t: Table) {
    forall id :: id in t.pending ==> t.pending[id] < |t.taken| && t.taken[t.pending[id]] == id
  }

  /** A taken request is waiting or was completed, and never both or twice. */
  ghost predicate ExactlyOnce(t: Table, waiter: nat) {
    Times(t.completed, waiter) + (if Waiting(t, waiter) then 1 else 0) == if waiter < |t.taken| then 1 else 0
  }

  /** An answer goes to a request with the answer's id. */
  ghost predicate RightlyAnswered(t: Table) {
    forall k :: 0 <= k < |t.completed| && (t.completed[k].how.Answered? || t.completed[k].how.Failed?) ==>
      t.completed[k].waiter < |t.taken| && t.taken[t.completed[k].waiter] == t.completed[k].how.id
  }

  lemma SettleKeeps(t: Table, id: RequestId, how: Completion, waiter: nat)
    requires Filed(t) && ExactlyOnce(t, waiter) && RightlyAnswered(t)
    requires how.Answered? || how.Failed? ==> how.id == id
    ensures var t' := Settle(t, id, how); Filed(t') && ExactlyOnce(t', waiter) && RightlyAnswered(t')
  {
    if id in t.pending { TimesOneMore(t.completed, Done(t.pending[id], how), waiter); }
  }

  lemma EnterKeeps(t: Table, id: RequestId, waiter: nat)
    requires Filed(t) && ExactlyOnce(t, waiter) && RightlyAnswered(t) && id !in t.pending
    ensures var t' := t.(pending := t.pending[id := |t.taken|], taken := t.taken + [id]);
            Filed(t') && ExactlyOnce(t', waiter) && RightlyAnswered(t')
  {
  }

  lemma RefuseKeeps(t: Table, id: RequestId, waiter: nat)
    requires Filed(t) && ExactlyOnce(t, waiter) && RightlyAnswered(t)
    ensures var t' := Complete(t.(taken := t.taken + [id]), |t.taken|, DuplicateId);
            Filed(t') && ExactlyOnce(t', waiter) && RightlyAnswered(t')
  {
    TimesOneMore(t.completed, Done(|t.taken|, DuplicateId), waiter);
  }

  lemma NextKeeps(t: Table, a: Action, waiter: nat)
    requires Filed(t) && ExactlyOnce(t, waiter) && RightlyAnswered(t)
    ensures var t' := Next(t, a); Filed(t') && ExactlyOnce(t', waiter) && RightlyAnswered(t')
  {
    match a
    case Take(id, admission) =>
      if t.running && Possible(t.side, admission) {
        if id in t.pending {
          RefuseKeeps(t, id, waiter);
        } else {
          EnterKeeps(t, id, waiter);
          var entered := t.(pending := t.pending[id := |t.taken|], taken := t.taken + [id]);
          match admission
          case Passed =>
          case WriteFailed => SettleKeeps(entered, id, CouldNotWrite, waiter);
          case QueueFull => SettleKeeps(entered, id, Overloaded, waiter);
          case QueueClosed => SettleKeeps(entered, id, ProcessorClosed, waiter);
        }
      }
    case Response(id, payload) => SettleKeeps(t, id, Answered(id, payload), waiter);
    case ErrorResponse(id, code, payload) => SettleKeeps(t, id, Failed(id, code, payload), waiter);
    case End =>
    case Drain(id) => SettleKeeps(t, id, WorkerGone, waiter);
  }

  lemma {:induction false} RunsKeep(t: Table, actions: seq<Action>, waiter: nat)
    requires Filed(t) && ExactlyOnce(t, waiter) && RightlyAnswered(t)
    ensures var r := RunFrom(t, actions); Filed(r) && ExactlyOnce(r, waiter) && RightlyAnswered(r)
    decreases |actions|
  {
    if actions != [] {
      NextKeeps(t, actions[0], waiter);
      RunsKeep(Next(t, actions[0]), actions[1..], waiter);
    }
  }

  /** The waiters of the requests taken and not yet completed. */
  function Open(t: Table): set<nat> {
    set n | 0 <= n < |t.taken| && Times(t.completed, n) == 0
  }

  /** In every reachable state the table holds exactly the requests taken and not completed; no request
      was completed twice; answers went to requests of their own id. */
  lemma PendingIsTakenMinusCompleted(side: Side, actions: seq<Action>)
    ensures var r := RunFrom(Init(side), actions);
            && (set id | id in r.pending :: r.pending[id]) == Open(r)
            && (forall n: nat :: Times(r.completed, n) < 2)
            && RightlyAnswered(r)
  {
    var r := RunFrom(Init(side), actions);
    forall n: nat
      ensures ExactlyOnce(r, n) && Times(r.completed, n) < 2
    {
      RunsKeep(Init(side), actions, n);
    }
    RunsKeep(Init(side), actions, 0);
    forall n | n in Open(r)
      ensures n in (set id | id in r.pending :: r.pending[id])
    {
      assert ExactlyOnce(r, n);
    }
    forall id | id in r.pending
      ensures r.pending[id] in Open(r)
    {
      assert ExactlyOnce(r, r.pending[id]);
    }
  }

  /** Once the loop is over and its table drained, every request it took has exactly one completion. */
  lemma EveryRequestCompletedOnce(side: Side, actions: seq<Action>, waiter: nat)
    requires var r := RunFrom(Init(side), actions); r.pending == map[] && waiter < |r.taken|
    ensures Times(RunFrom(Init(side), actions).completed, waiter) == 1
  {
    RunsKeep(Init(side), actions, waiter);
  }

  /** A duplicate in-flight id is refused at once, and the original waiter goes on waiting. */
  lemma DuplicateDisturbsNobody(t: Table, id: RequestId, admission: Admission)
    requires t.running && id in t.pending && Possible(t.side, admission) && Filed(t)
    ensures var t' := Next(t, Take(id, admission));
            && t'.pending == t.pending && t'.running
            && t'.completed == t.completed + [Done(|t.taken|, DuplicateId)]
            && (forall n: nat :: n < |t.taken| ==> Waiting(t', n) == Waiting(t, n))
            && !Waiting(t', |t.taken|)
  {
  }

  /** What was completed since was completed because the loop is over. */
  predicate OnlyGoneSince(completed: seq<Done>, later: seq<Done>) {
    completed <= later && forall k :: |completed| <= k < |later| ==> later[k].how == WorkerGone
  }

  lemma DrainTellsGone(t: Table, id: RequestId, completed: seq<Done>)
    requires !t.running && id in t.pending && OnlyGoneSince(completed, t.completed)
    ensures var t' := Next(t, Drain(id));
            && OnlyGoneSince(completed, t'.completed)
            && t'.pending == t.pending - {id} && t'.taken == t.taken && !t'.running
  {
  }

  // ---------------------------------------------------------------- the loop's table

  class RequestLoop {
    const side: Side
    var pendingRequests: map<RequestId, nat>
    var running: bool
    ghost var log: Table

    ghost predicate Valid()
      reads this
    {
      && log.side == side && log.running == running && log.pending == pendingRequests
      && Filed(log) && RightlyAnswered(log) && forall n: nat :: ExactlyOnce(log, n)
    }

    constructor (side: Side)
      ensures Valid() && log == Init(side)
    {
      this.side, pendingRequests, running := side, map[], true;
      log := Init(side);
    }

    ghost method Record(a: Action)
      requires Filed(log) && RightlyAnswered(log) && forall n: nat :: ExactlyOnce(log, n)
      modifies this`log
      ensures log == Next(old(log), a)
      ensures Filed(log) && RightlyAnswered(log) && forall n: nat :: ExactlyOnce(log, n)
    {
      forall n: nat
        ensures ExactlyOnce(Next(log, a), n)
      {
        NextKeeps(log, a, n);
      }
      NextKeeps(log, a, 0);
      log := Next(log, a);
    }

    /** One request from the command channel; `tell` is what its waiter hears at once, if anything. */
    method HandleRequest(id: RequestId, waiter: nat, admission: Admission) returns (tell: Option<Completion>)
      requires Valid() && running && Possible(side, admission) && waiter == |log.taken|
      modifies this
      ensures Valid() && log == Next(old(log), Take(id, admission))
      ensures tell == if id in old(pendingRequests) then Some(DuplicateId)
                      else match admission
                        case Passed => None
                        case WriteFailed => Some(CouldNotWrite)
                        case QueueFull => Some(Overloaded)
                        case QueueClosed => Some(ProcessorClosed)
      ensures pendingRequests == if tell.None? then old(pendingRequests)[id := waiter] else old(pendingRequests)
      ensures running <==> tell !in {Some(CouldNotWrite), Some(ProcessorClosed)}
      ensures log.completed == old(log.completed) + (match tell case Some(how) => [Done(waiter, how)] case None => [])
    {
      Record(Take(id, admission));
      if id in pendingRequests { return Some(DuplicateId); }
      var before := pendingRequests;
      pendingRequests := pendingRequests[id := waiter];
      if admission.Passed? { return None; }
      pendingRequests := pendingRequests - {id};
      assert pendingRequests == before;
      running := admission.QueueFull?;
      tell := Some(match admission
                   case WriteFailed => CouldNotWrite
                   case QueueFull => Overloaded
                   case _ => ProcessorClosed);
    }

    /** A response or an error response from the peer; unmatched ones are dropped. */
    method HandleAnswer(answer: Completion) returns (waiter: Option<nat>)
      requires Valid() && running && (answer.Answered? || answer.Failed?)
      modifies this
      ensures Valid() && log == Settle(old(log), answer.id, answer)
      ensures waiter == if answer.id in old(pendingRequests) then Some(old(pendingRequests)[answer.id]) else None
      ensures pendingRequests == old(pendingRequests) - {answer.id} && running
      ensures log.completed ==
              old(log.completed) + (match waiter case Some(n) => [Done(n, answer)] case None => [])
      ensures waiter.Some? ==> waiter.value < |log.taken| && log.taken[waiter.value] == answer.id
    {
      Record(if answer.Answered? then Response(answer.id, answer.payload)
             else ErrorResponse(answer.id, answer.code, answer.payload));
      if answer.id !in pendingRequests { return None; }
      waiter := Some(pendingRequests[answer.id]);
      pendingRequests := pendingRequests - {answer.id};
    }

    /** The end of the loop, however it came about: everybody still waiting is told. */
    method Finish()
      requires Valid()
      modifies this
      ensures Valid() && !running && pendingRequests == map[] && log.taken == old(log.taken)
      ensures forall n: nat :: n < |log.taken| ==> Times(log.completed, n) == 1
      ensures OnlyGoneSince(old(log.completed), log.completed)
    {
      Record(End);
      running := false;
      while pendingRequests != map[]
        invariant Valid() && !running && log.taken == old(log.taken)
        invariant OnlyGoneSince(old(log.completed), log.completed)
        decreases |pendingRequests|
      {
        var id :| id in pendingRequests;
        DrainTellsGone(log, id, old(log.completed));
        Record(Drain(id));
        pendingRequests := pendingRequests - {id};
      }
      forall n: nat | n < |log.taken|
        ensures Times(log.completed, n) == 1
      {
        assert ExactlyOnce(log, n);
      }
    }
  }
}
