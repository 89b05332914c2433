/** The outcome of each turn of a thread: accumulated as events arrive, and equal to
    what looking back over the events of the turn gives. */
module TurnOutcome {
  import opened Json

  datatype ErrorKind = ThreadRollbackFailed | ActiveTurnNotSteerable | OtherKind(name: string)

  datatype TurnError = TurnError(message: string, kind: Option<ErrorKind>, details: Option<string>)

  /** Core events of one thread, as far as they touch the turn summary. */
  datatype Event =
    | TurnComplete(turn: string)
    | TurnAborted(turn: string)
    | Error(message: string, kind: Option<ErrorKind>)
    | StreamError(message: string, kind: Option<ErrorKind>, details: Option<string>)
    | FileChangeBegin(item: string)
    | FileChangeEnd(item: string)
    | CommandBegin(item: string)
    | CommandEnd(item: string)
    | Unrelated

  datatype Status = Completed | Failed | Interrupted

  datatype Output =
    | TurnCompleted(turn: string, status: Status, error: Option<TurnError>)
    | ErrorNotice(notice: TurnError, willRetry: bool)
    | RollbackRefused(request: nat, message: string)
    | InterruptAnswered(request: nat)
    | FileChangeStarted(item: string)

  datatype Summary = Summary(
    fileChangeStarted: set<string>,
    commandExecutionStarted: set<string>,
    lastError: Option<TurnError>)

  const EMPTY := Summary({}, {}, None)

  datatype State = State(summary: Summary, pendingRollback: Option<nat>, pendingInterrupts: seq<nat>)

  /** `affects_turn_status`: an error without a kind counts. */
  predicate Affects(kind: Option<ErrorKind>) {
    kind.None? || kind.value.OtherKind?
  }

  function Answers(requests: seq<nat>): seq<Output> {
    seq(|requests|, i requires 0 <= i < |requests| => InterruptAnswered(requests[i]))
  }

  /** One event: the new state and what is sent. */
  function Step(s: State, e: Event): (State, seq<Output>) {
    match e
    case TurnComplete(turn) =>
      (s.(summary := EMPTY),
       [TurnCompleted(turn, if s.summary.lastError.Some? then Failed else Completed, s.summary.lastError)])
    case TurnAborted(turn) =>
      (s.(summary := EMPTY, pendingInterrupts := []),
       Answers(s.pendingInterrupts) + [TurnCompleted(turn, Interrupted, None)])
    case Error(message, kind) =>
      if kind == Some(ThreadRollbackFailed) then
        (s.(pendingRollback := None),
         match s.pendingRollback case Some(r) => [RollbackRefused(r, message)] case None => [])
      else if !Affects(kind) then (s, [])
      else
        (s.(summary := s.summary.(lastError := Some(TurnError(message, kind, None)))),
         [ErrorNotice(TurnError(message, kind, None), false)])
    case StreamError(message, kind, details) => (s, [ErrorNotice(TurnError(message, kind, details), true)])
    case FileChangeBegin(item) =>
      (s.(summary := s.summary.(fileChangeStarted := s.summary.fileChangeStarted + {item})),
       if item in s.summary.fileChangeStarted then [] else [FileChangeStarted(item)])
    case FileChangeEnd(item) =>
      (s.(summary := s.summary.(fileChangeStarted := s.summary.fileChangeStarted - {item})), [])
    case CommandBegin(item) =>
      (s.(summary := s.summary.(commandExecutionStarted := s.summary.commandExecutionStarted + {item})), [])
    case CommandEnd(item) =>
      (s.(summary := s.summary.(commandExecutionStarted := s.summary.commandExecutionStarted - {item})), [])
    case Unrelated => (s, [])
  }

  /** Just the two kinds named do not count against the turn. */
  lemma AffectsMeans(kind: Option<ErrorKind>)
    ensures !Affects(kind) <==> kind == Some(ThreadRollbackFailed) || kind == Some(ActiveTurnNotSteerable)
  {
  }

  /** Every waiting interrupt is answered, in order, and then the end of the turn is sent. */
  predicate AnswersThen(requests: seq<nat>, out: seq<Output>, end: Output) {
    && |out| == |requests| + 1
    && (forall i :: 0 <= i < |requests| ==> out[i] == InterruptAnswered(requests[i]))
    && out[|requests|] == end
  }

  /** What is sent for each event, in terms of the state before it. */
  lemma SentMeans(s: State, e: Event)
    ensures var out := Step(s, e).1;
            match e
            case TurnComplete(turn) =>
              out == [TurnCompleted(turn, if s.summary.lastError.Some? then Failed else Completed, s.summary.lastError)]
            case TurnAborted(turn) => AnswersThen(s.pendingInterrupts, out, TurnCompleted(turn, Interrupted, None))
            case Error(message, Some(ThreadRollbackFailed)) =>
              out == if s.pendingRollback.Some? then [RollbackRefused(s.pendingRollback.value, message)] else []
            case Error(_, Some(ActiveTurnNotSteerable)) => out == []
            case Error(message, kind) => out == [ErrorNotice(TurnError(message, kind, None), false)]
            case StreamError(message, kind, details) => out == [ErrorNotice(TurnError(message, kind, details), true)]
            case FileChangeBegin(item) =>
              out == if item in s.summary.fileChangeStarted then [] else [FileChangeStarted(item)]
            case _ => out == []
  {
    if e.TurnAborted? {
      assert Answers(s.pendingInterrupts)[..|s.pendingInterrupts|] == Answers(s.pendingInterrupts);
    }
  }

  /** What each event leaves waiting: an aborted turn no interrupt, a failed rollback no rollback. */
  lemma WaitingMeans(s: State, e: Event)
    ensures var v := Step(s, e).0;
            && v.pendingInterrupts == (if e.TurnAborted? then [] else s.pendingInterrupts)
            && v.pendingRollback ==
               (if e.Error? && e.kind == Some(ThreadRollbackFailed) then None else s.pendingRollback)
  {
  }

  /** The handlers, updating the thread state in place. */
  class ThreadTurns {
    var turnSummary: Summary
    var pendingRollbacks: Option<nat>
    var pendingInterrupts: seq<nat>

    ghost function View(): State
      reads this
    {
      State(turnSummary, pendingRollbacks, pendingInterrupts)
    }

    constructor ()
      ensures View() == State(EMPTY, None, [])
    {
      turnSummary, pendingRollbacks, pendingInterrupts := EMPTY, None, [];
    }

    /** `find_and_remove_turn_summary` */
    method FindAndRemoveTurnSummary() returns (summary: Summary)
      modifies this
      ensures summary == old(turnSummary) && View() == old(View()).(summary := EMPTY)
    {
      summary := turnSummary;
      turnSummary := EMPTY;
    }

    method HandleTurnComplete(turn: string) returns (out: seq<Output>)
      modifies this
      ensures (View(), out) == Step(old(View()), TurnComplete(turn))
      ensures var error := old(turnSummary.lastError);
              out == [TurnCompleted(turn, if error.Some? then Failed else Completed, error)]
      ensures turnSummary == Summary({}, {}, None)
      ensures pendingRollbacks == old(pendingRollbacks) && pendingInterrupts == old(pendingInterrupts)
    {
      var summary := FindAndRemoveTurnSummary();
      match summary.lastError {
        case Some(error) => out := [TurnCompleted(turn, Failed, Some(error))];
        case None => out := [TurnCompleted(turn, Completed, None)];
      }
    }

    method HandleTurnAborted(turn: string) returns (out: seq<Output>)
      modifies this
      ensures (View(), out) == Step(old(View()), TurnAborted(turn))
      ensures AnswersThen(old(pendingInterrupts), out, TurnCompleted(turn, Interrupted, None))
      ensures turnSummary == Summary({}, {}, None) && pendingInterrupts == []
      ensures pendingRollbacks == old(pendingRollbacks)
    {
      var pending := pendingInterrupts;
      pendingInterrupts := [];
      out := [];
      for i := 0 to |pending|
        invariant out == Answers(pending[..i])
        invariant View() == old(View()).(pendingInterrupts := [])
      {
        out := out + [InterruptAnswered(pending[i])];
      }
      assert pending[..|pending|] == pending;
      var _ := FindAndRemoveTurnSummary();
      out := out + [TurnCompleted(turn, Interrupted, None)];
    }

    method HandleError(message: string, kind: Option<ErrorKind>) returns (out: seq<Output>)
      modifies this
      ensures (View(), out) == Step(old(View()), Event.Error(message, kind))
      ensures kind == Some(ThreadRollbackFailed) ==> turnSummary == old(turnSummary) && pendingRollbacks.None?
      ensures kind == Some(ThreadRollbackFailed) ==>
              out == match old(pendingRollbacks) case Some(r) => [RollbackRefused(r, message)] case None => []
      ensures kind == Some(ActiveTurnNotSteerable) ==> out == [] && turnSummary == old(turnSummary)
      ensures kind != Some(ThreadRollbackFailed) ==> pendingRollbacks == old(pendingRollbacks)
      ensures kind !in {Some(ThreadRollbackFailed), Some(ActiveTurnNotSteerable)} ==>
              && out == [ErrorNotice(TurnError(message, kind, None), false)]
              && turnSummary == old(turnSummary).(lastError := Some(TurnError(message, kind, None)))
      ensures pendingInterrupts == old(pendingInterrupts)
    {
      if kind == Some(ThreadRollbackFailed) {
        var pending := pendingRollbacks;
        pendingRollbacks := None;
        if pending.Some? {
          return [RollbackRefused(pending.value, message)];
        }
        return [];
      }
      if !Affects(kind) {
        return [];
      }
      var error := TurnError(message, kind, None);
      turnSummary := turnSummary.(lastError := Some(error));
      out := [ErrorNotice(error, false)];
    }
  }

  // ---------------------------------------------------------------- looking back

  predicate EndsTurn(e: Event) {
    e.TurnComplete? || e.TurnAborted?
  }

  /** The last turn-affecting error since the previous turn end, among the first `n` events. */
  function ErrorBefore(events: seq<Event>, n: nat): Option<TurnError>
    requires n <= |events|
  {
    if n == 0 then None
    else
      var e := events[n - 1];
      if EndsTurn(e) then None
      else if e.Error? && Affects(e.kind) then Some(TurnError(e.message, e.kind, None))
      else ErrorBefore(events, n - 1)
  }

  /** The outcome a turn end deserves by looking back. */
  function Outcome(events: seq<Event>, i: nat): Output
    requires i < |events| && EndsTurn(events[i])
  {
    if events[i].TurnAborted? then TurnCompleted(events[i].turn, Interrupted, None)
    else
      TurnCompleted(events[i].turn, if ErrorBefore(events, i).Some? then Failed else Completed,
                    ErrorBefore(events, i))
  }

  function Outcomes(events: seq<Event>, n: nat): seq<Output>
    requires n <= |events|
  {
    if n == 0 then []
    else Outcomes(events, n - 1) + if EndsTurn(events[n - 1]) then [Outcome(events, n - 1)] else []
  }

  function Completion(o: Output): seq<Output> {
    if o.TurnCompleted? then [o] else []
  }

  function OnlyCompletions(out: seq<Output>): seq<Output> {
    if out == [] then [] else Completion(out[0]) + OnlyCompletions(out[1..])
  }

  /** The state and all outputs after the first `n` events. */
  function Run(s: State, events: seq<Event>, n: nat): (State, seq<Output>)
    requires n <= |events|
  {
    if n == 0 then (s, [])
    else
      var before := Run(s, events, n - 1);
      var now := Step(before.0, events[n - 1]);
      (now.0, before.1 + now.1)
  }

  lemma {:induction false} OnlyCompletionsAppend(a: seq<Output>, b: seq<Output>)
    ensures OnlyCompletions(a + b) == OnlyCompletions(a) + OnlyCompletions(b)
  {
    if a == [] {
      assert a + b == b;
    } else {
      assert (a + b)[1..] == a[1..] + b;
      OnlyCompletionsAppend(a[1..], b);
    }
  }

  lemma {:induction false} AnswersCompleteNothing(requests: seq<nat>)
    ensures OnlyCompletions(Answers(requests)) == []
  {
    if requests != [] {
      assert Answers(requests)[1..] == Answers(requests[1..]);
      AnswersCompleteNothing(requests[1..]);
    }
  }

  /** What one event adds to the completions, given the error pending before it. */
  lemma StepCompletes(s: State, e: Event)
    ensures var (after, out) := Step(s, e);
            && OnlyCompletions(out) == (match e
                case TurnComplete(turn) =>
                  [TurnCompleted(turn, if s.summary.lastError.Some? then Failed else Completed, s.summary.lastError)]
                case TurnAborted(turn) => [TurnCompleted(turn, Interrupted, None)]
                case _ => [])
            && after.summary.lastError ==
               (if EndsTurn(e) then None
                else if e.Error? && Affects(e.kind) then Some(TurnError(e.message, e.kind, None))
                else s.summary.lastError)
  {
    if e.TurnAborted? {
      var done := [TurnCompleted(e.turn, Interrupted, None)];
      AnswersCompleteNothing(s.pendingInterrupts);
      OnlyCompletionsAppend(Answers(s.pendingInterrupts), done);
    }
  }

  /** ... and that is what looking back at one more event adds. */
  lemma NextCompletes(events: seq<Event>, n: nat, before: State, after: State, out: seq<Output>)
    requires 0 < n <= |events| && before.summary.lastError == ErrorBefore(events, n - 1)
    requires Step(before, events[n - 1]) == (after, out)
    ensures after.summary.lastError == ErrorBefore(events, n)
    ensures Outcomes(events, n) == Outcomes(events, n - 1) + OnlyCompletions(out)
  {
    StepCompletes(before, events[n - 1]);
  }

  /** Over every event sequence each completed turn gets the outcome that looking back gives. */
  lemma {:induction false} TurnsRefineLookback(s: State, events: seq<Event>, n: nat)
    requires n <= |events| && s.summary.lastError.None?
    ensures Run(s, events, n).0.summary.lastError == ErrorBefore(events, n)
    ensures OnlyCompletions(Run(s, events, n).1) == Outcomes(events, n)
  {
    if n > 0 {
      TurnsRefineLookback(s, events, n - 1);
      var before := Run(s, events, n - 1);
      NextCompletes(events, n, before.0, Step(before.0, events[n - 1]).0, Step(before.0, events[n - 1]).1);
      OnlyCompletionsAppend(before.1, Step(before.0, events[n - 1]).1);
    }
  }

  /** An error is found by looking back exactly when some affecting error has no turn end after it. */
  lemma {:induction false} ErrorBeforeMeans(events: seq<Event>, n: nat)
    requires n <= |events|
    ensures ErrorBefore(events, n).Some? <==>
            exists i ::
              && 0 <= i < n && events[i].Error? && Affects(events[i].kind)
              && forall j :: i < j < n ==> !EndsTurn(events[j])
  {
    if n > 0 { ErrorBeforeMeans(events, n - 1); }
  }

  /** Events that cannot bear on any outcome: everything but turn ends and affecting errors. */
  predicate Irrelevant(e: Event) {
    !EndsTurn(e) && !(e.Error? && Affects(e.kind))
  }

  function Relevant(events: seq<Event>, n: nat): seq<Event>
    requires n <= |events|
  {
    if n == 0 then [] else Relevant(events, n - 1) + if Irrelevant(events[n - 1]) then [] else [events[n - 1]]
  }

  lemma {:induction false} ErrorBeforePrefix(a: seq<Event>, b: seq<Event>, n: nat)
    requires n <= |a| && n <= |b| && a[..n] == b[..n]
    ensures ErrorBefore(a, n) == ErrorBefore(b, n) && Outcomes(a, n) == Outcomes(b, n)
  {
    if n > 0 {
      assert a[..n - 1] == a[..n][..n - 1] == b[..n - 1];
      assert a[n - 1] == a[..n][n - 1] == b[n - 1];
      ErrorBeforePrefix(a, b, n - 1);
    }
  }

  /** Rollback failures, stream errors and errors that do not affect turns never count:
      leaving them out, wherever they stand, changes no outcome. */
  lemma {:induction false} IrrelevantNeverCount(events: seq<Event>, n: nat)
    requires n <= |events|
    ensures var kept := Relevant(events, n);
            Outcomes(kept, |kept|) == Outcomes(events, n) && ErrorBefore(kept, |kept|) == ErrorBefore(events, n)
  {
    if n > 0 {
      IrrelevantNeverCount(events, n - 1);
      var before, kept := Relevant(events, n - 1), Relevant(events, n);
      if !Irrelevant(events[n - 1]) {
        assert kept[..|before|] == before[..|before|];
        ErrorBeforePrefix(kept, before, |before|);
      } else {
        assert kept == before;
      }
    }
  }

  // ---------------------------------------------------------------- what has started

  /** Between the last beginning of an item and now neither its end nor the end of a turn came. */
  predicate Since(events: seq<Event>, n: nat, i: nat, begin: Event, end: Event)
    requires n <= |events|
  {
    i < n && events[i] == begin && forall j :: i < j < n ==> events[j] != end && !EndsTurn(events[j])
  }

  ghost predicate Started(events: seq<Event>, n: nat, begin: Event, end: Event)
    requires n <= |events|
  {
    exists i: nat :: Since(events, n, i, begin, end)
  }

  lemma StaysStarted(events: seq<Event>, n: nat, m: nat, i: nat, begin: Event, end: Event)
    requires m == n + 1 <= |events| && events[n] != end && !EndsTurn(events[n]) && Since(events, n, i, begin, end)
    ensures Started(events, m, begin, end)
  {
    assert Since(events, m, i, begin, end);
  }

  lemma SinceOneMore(events: seq<Event>, n: nat, m: nat, begin: Event, end: Event)
    requires m == n + 1 <= |events| && begin != end && !EndsTurn(begin)
    ensures Started(events, m, begin, end) <==>
            events[n] == begin || (events[n] != end && !EndsTurn(events[n]) && Started(events, n, begin, end))
  {
    if events[n] == begin {
      assert Since(events, m, n, begin, end);
    } else if Started(events, m, begin, end) {
      var i: nat :| Since(events, m, i, begin, end);
      assert Since(events, n, i, begin, end);
    } else if events[n] != end && !EndsTurn(events[n]) && Started(events, n, begin, end) {
      var i: nat :| Since(events, n, i, begin, end);
      StaysStarted(events, n, m, i, begin, end);
      assert false;
    }
  }

  /** A file change or command counts as started exactly from its beginning to its end or that of the turn. */
  lemma {:induction false} StartedMeans(s: State, events: seq<Event>, n: nat, item: string)
    requires n <= |events| && s.summary == Summary({}, {}, None)
    ensures item in Run(s, events, n).0.summary.fileChangeStarted <==>
            Started(events, n, FileChangeBegin(item), FileChangeEnd(item))
    ensures item in Run(s, events, n).0.summary.commandExecutionStarted <==>
            Started(events, n, CommandBegin(item), CommandEnd(item))
  {
    if n > 0 {
      StartedMeans(s, events, n - 1, item);
      SinceOneMore(events, n - 1, n, FileChangeBegin(item), FileChangeEnd(item));
      SinceOneMore(events, n - 1, n, CommandBegin(item), CommandEnd(item));
    }
  }
}
