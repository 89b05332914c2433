/** The events a client consumes, and which of them may not be dropped. */
module Events {
  import opened Json
  import opened RefRewriting

  datatype Notification = TurnCompleted(turn: string) | OtherNotification(name: string)

  datatype Event =
    | Lagged(skipped: nat)
    | ServerNotification(notification: Notification)
    | LegacyNotification(name: string, params: nat)
    | ServerRequest(id: nat)
    | Disconnected(message: string)

  predicate TerminalMethod(name: string) {
    (match StripPrefix(name, "dcode/event/") case Some(rest) => rest case None => name)
    in {"task_complete", "turn_aborted", "shutdown_complete"}
  }

  /** `server_notification_requires_delivery`, in the runtime. */
  predicate ServerNotificationRequiresDelivery(n: Notification) {
    n.TurnCompleted?
  }

  /** `legacy_notification_requires_delivery`, in the runtime. */
  predicate LegacyNotificationRequiresDelivery(name: string) {
    TerminalMethod(name)
  }

  /** `event_requires_delivery`, in both clients. */
  predicate EventRequiresDelivery(e: Event) {
    match e
    case ServerNotification(n) => n.TurnCompleted?
    case LegacyNotification(name, _) => TerminalMethod(name)
    case Disconnected(_) => true
    case _ => false
  }

  /** The branch the runtime takes for an event it forwards. */
  predicate RuntimeRequiresDelivery(e: Event) {
    match e
    case ServerNotification(n) => ServerNotificationRequiresDelivery(n)
    case LegacyNotification(name, _) => LegacyNotificationRequiresDelivery(name)
    case _ => false
  }

  /** What is left of a name once an optional prefix is gone. */
  lemma StrippedIs(name: string, prefix: string, rest: string)
    requires prefix != [] && rest != [] && prefix[0] != rest[0]
    ensures (match StripPrefix(name, prefix) case Some(r) => r case None => name) == rest
            <==> name == rest || name == prefix + rest
  {
    if prefix <= name {
      assert name == prefix + name[|prefix|..];
      assert name[0] == prefix[0];
    } else {
      assert prefix <= prefix + rest;
    }
  }

  /** Both layers hold the same events terminal: turn completions and six method names. */
  lemma LayersAgree(e: Event)
    requires !e.Disconnected?
    ensures RuntimeRequiresDelivery(e) <==> EventRequiresDelivery(e)
    ensures EventRequiresDelivery(e) <==>
            || (e.ServerNotification? && e.notification.TurnCompleted?)
            || (e.LegacyNotification? && e.name in {"task_complete", "turn_aborted", "shutdown_complete",
                "dcode/event/task_complete", "dcode/event/turn_aborted", "dcode/event/shutdown_complete"})
  {
    if e.LegacyNotification? {
      TerminalMethods(e.name, "dcode/event/", "task_complete", "turn_aborted", "shutdown_complete");
      assert "dcode/event/" + "task_complete" == "dcode/event/task_complete";
      assert "dcode/event/" + "turn_aborted" == "dcode/event/turn_aborted";
      assert "dcode/event/" + "shutdown_complete" == "dcode/event/shutdown_complete";
    }
  }

  lemma TerminalMethods(name: string, prefix: string, complete: string, aborted: string, shutdown: string)
    requires prefix == "dcode/event/"
    requires complete == "task_complete" && aborted == "turn_aborted" && shutdown == "shutdown_complete"
    ensures TerminalMethod(name) <==>
            name in {complete, aborted, shutdown, prefix + complete, prefix + aborted, prefix + shutdown}
  {
    StrippedIs(name, prefix, complete);
    StrippedIs(name, prefix, aborted);
    StrippedIs(name, prefix, shutdown);
  }

  /** The events of a stream that may not be dropped, in order. */
  function Terminals(events: seq<Event>): seq<Event> {
    if events == [] then []
    else
      var last := events[|events| - 1];
      Terminals(events[..|events| - 1]) + if EventRequiresDelivery(last) then [last] else []
  }

  lemma {:induction false} TerminalsAppend(a: seq<Event>, b: seq<Event>)
    ensures Terminals(a + b) == Terminals(a) + Terminals(b)
  {
    if b == [] {
      assert a + b == a;
    } else {
      assert (a + b)[..|a + b| - 1] == a + b[..|b| - 1];
      TerminalsAppend(a, b[..|b| - 1]);
    }
  }
}
