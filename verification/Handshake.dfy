/** The handshake of the websocket client: what arrives before the server has answered
    `initialize` is kept for the consumer. */
module Handshake {
  import opened Json
  import opened Events
  import D = Delivery

  /** What the socket can yield; an id stands for a response or error response by the name it answers. */
  datatype Message =
    | Answer(answers: string)
    | Refusal(answers: string, text: string)
    | Notice(event: Event)
    | Request(id: nat)
    | UnknownRequest(id: nat)
    | Noise
    | Garbage
    | Closed

  datatype Failure = Rejected(text: string) | InvalidMessage | ClosedEarly | WriteFailed

  const INITIALIZE := "initialize"

  /** A notification becomes a notification event of one of the two kinds. */
  predicate WellFormed(m: Message) {
    m.Notice? ==> m.event.ServerNotification? || m.event.LegacyNotification?
  }

  /** Notifications and requests of known methods are what becomes an event. */
  predicate Becomes(m: Message, e: Event) {
    match m
    case Notice(event) => e == event
    case Request(id) => e == ServerRequest(id)
    case _ => false
  }

  predicate Rising(places: seq<nat>, n: nat) {
    && (forall k :: 0 <= k < |places| ==> places[k] < n)
    && (forall j, k :: 0 <= j < k < |places| ==> places[j] < places[k])
  }

  /** The events are those of the messages at these places, in order, and no other message becomes one. */
  predicate ComeFrom(messages: seq<Message>, n: nat, kept: seq<Event>, places: seq<nat>)
    requires n <= |messages|
  {
    && Rising(places, n) && |places| == |kept|
    && (forall k :: 0 <= k < |places| ==> Becomes(messages[places[k]], kept[k]))
    && (forall i: nat :: i < n && (messages[i].Notice? || messages[i].Request?) ==> i in places)
  }

  /** Likewise the ids refused: the requests of unknown methods. */
  predicate RefusedFrom(messages: seq<Message>, n: nat, refused: seq<nat>, places: seq<nat>)
    requires n <= |messages|
  {
    && Rising(places, n) && |places| == |refused|
    && (forall k :: 0 <= k < |places| ==> messages[places[k]] == UnknownRequest(refused[k]))
    && (forall i: nat :: i < n && messages[i].UnknownRequest? ==> i in places)
  }

  lemma KeepOne(messages: seq<Message>, n: nat, m: nat, kept: seq<Event>, e: Event, places: seq<nat>)
    requires m == n + 1 <= |messages| && ComeFrom(messages, n, kept, places) && Becomes(messages[n], e)
    ensures ComeFrom(messages, m, kept + [e], places + [n])
  {
    forall i: nat | i in places ensures i in places + [n] { }
    assert (places + [n])[|places|] == n;
  }

  lemma RefuseOne(messages: seq<Message>, n: nat, m: nat, refused: seq<nat>, id: nat, places: seq<nat>)
    requires m == n + 1 <= |messages| && RefusedFrom(messages, n, refused, places) && messages[n] == UnknownRequest(id)
    ensures RefusedFrom(messages, m, refused + [id], places + [n])
  {
    forall i: nat | i in places ensures i in places + [n] { }
    assert (places + [n])[|places|] == n;
  }

  lemma PassOver(messages: seq<Message>, n: nat, m: nat, kept: seq<Event>, places: seq<nat>, refused: seq<nat>,
                 places': seq<nat>)
    requires m == n + 1 <= |messages|
    ensures ComeFrom(messages, n, kept, places) && !messages[n].Notice? && !messages[n].Request? ==>
            ComeFrom(messages, m, kept, places)
    ensures RefusedFrom(messages, n, refused, places') && !messages[n].UnknownRequest? ==>
            RefusedFrom(messages, m, refused, places')
  {
  }

  /** A message that neither answers `initialize` nor ends the connection. */
  predicate Undecided(m: Message, initialize: string) {
    m != Answer(initialize) && !(m.Refusal? && m.answers == initialize) && !m.Garbage? && !m.Closed?
  }

  /** `initialize_remote_connection`, reading until something decides or the socket ends; `writable` is how
      many refusals of unknown requests can be written.  Success keeps exactly the notifications and known
      requests before the answer, in order, which is what a worker may start from.  The closing
      `initialized` notification is not part of this method. */
  method Initialize(messages: seq<Message>, writable: nat)
    returns (r: Result<seq<Event>, Failure>, refused: seq<nat>, read: nat)
    requires forall i :: 0 <= i < |messages| ==> WellFormed(messages[i])
    ensures read <= |messages| && forall i :: 0 <= i < read ==> Undecided(messages[i], "initialize")
    ensures r.Ok? <==> read < |messages| && messages[read] == Answer("initialize")
    ensures r.Ok? ==> D.Starts(1, r.value) && exists places :: ComeFrom(messages, read, r.value, places)
    ensures |refused| <= writable && exists places :: RefusedFrom(messages, read, refused, places)
    ensures r == Err(WriteFailed) <==> read < |messages| && messages[read].UnknownRequest? && |refused| == writable
    ensures r.Err? && r.error.Rejected? <==> read < |messages| && messages[read].Refusal?
    ensures r.Err? && r.error.Rejected? ==> messages[read] == Refusal("initialize", r.error.text)
    ensures r == Err(InvalidMessage) <==> read < |messages| && messages[read].Garbage?
    ensures r == Err(ClosedEarly) <==> read == |messages| || messages[read].Closed?
  {
    ghost var kept: seq<nat>, others: seq<nat> := [], [];
    var pendingEvents: seq<Event> := [];
    refused, read := [], 0;
    while read < |messages|
      invariant 0 <= read <= |messages| && forall i :: 0 <= i < read ==> Undecided(messages[i], INITIALIZE)
      invariant ComeFrom(messages, read, pendingEvents, kept) && RefusedFrom(messages, read, refused, others)
      invariant D.Starts(1, pendingEvents) && |refused| <= writable
    {
      PassOver(messages, read, read + 1, pendingEvents, kept, refused, others);
      match messages[read] {
        case Answer(id) => if id == INITIALIZE { return Ok(pendingEvents), refused, read; }
        case Refusal(id, text) => if id == INITIALIZE { return Err(Rejected(text)), refused, read; }
        case Notice(e) =>
          KeepOne(messages, read, read + 1, pendingEvents, e, kept);
          pendingEvents, kept := pendingEvents + [e], kept + [read];
        case Request(id) =>
          KeepOne(messages, read, read + 1, pendingEvents, ServerRequest(id), kept);
          pendingEvents, kept := pendingEvents + [ServerRequest(id)], kept + [read];
        case UnknownRequest(id) =>
          if |refused| == writable { return Err(WriteFailed), refused, read; }
          RefuseOne(messages, read, read + 1, refused, id, others);
          refused, others := refused + [id], others + [read];
        case Noise =>
        case Garbage => return Err(InvalidMessage), refused, read;
        case Closed => return Err(ClosedEarly), refused, read;
      }
      read := read + 1;
    }
    r := Err(ClosedEarly);
  }
}
