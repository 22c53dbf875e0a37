/** The outbound side of `DaprChatManager`: construction, `publish_message`, and the
    `send_agent_message` helper, plus the end-to-end path from one agent's publish to the
    handlers of another process. */
module Bus {
  import opened Wrappers
  import opened Message
  import opened Handlers
  import opened Dispatch
  import opened Sidecar
  import opened ChatManager

  /** `publish_message`: one JSON event on the manager's topic carrying the five-key
      encoding of `m`. Both a client that cannot be constructed and a rejected publish
      raise to the caller; the history is never touched. */
  function Publish(s: SidecarState, mgr: Manager, m: ChatMessage, c: TimeCodec, io: Io): (r: Result<SidecarState, TransportError>)
    ensures r.Success? <==> io.connects && io.succeeds
    ensures !io.connects ==> r == Failure(ConnectFailed)
    ensures io.connects && !io.succeeds ==> r == Failure(PublishFailed)
    ensures r.Success? ==>
              && r.value.history == s.history
              && |r.value.outbox| == |s.outbox| + 1
              && r.value.outbox[..|s.outbox|] == s.outbox
              && r.value.outbox[|s.outbox|].pubsub == mgr.pubsubName
              && r.value.outbox[|s.outbox|].topic == mgr.topicName
              && r.value.outbox[|s.outbox|].contentType == JsonContentType
              && r.value.outbox[|s.outbox|].data == Encode(m, c)
              && (Inverse(c) ==> Decode(r.value.outbox[|s.outbox|].data, c) == Success(m))
  {
    if !io.connects then Failure(ConnectFailed)
    else if !io.succeeds then Failure(PublishFailed)
    else
      var event := Published(mgr.pubsubName, mgr.topicName, Encode(m, c), JsonContentType);
      assert (s.outbox + [event])[..|s.outbox|] == s.outbox;
      Success(s.(outbox := s.outbox + [event]))
  }

  /** `send_agent_message` with the clock reading and the fresh id as parameters: builds
      the message, publishes it through a new manager, closes the client, and returns the
      id. The returned state is the sidecar after the call, so an event published before
      `close()` raised is still there. */
  function SendAgentMessage(s: SidecarState, agent: string, role: string, content: string,
                            now: Timestamp, id: string, c: TimeCodec, io: Io, closes: bool)
    : (r: (SidecarState, Result<string, TransportError>))
    ensures r.1.Success? <==> io.connects && io.succeeds && closes
    ensures r.1.Success? ==> r.1.value == id
    ensures !io.connects ==> r.1 == Failure(ConnectFailed)
    ensures io.connects && !io.succeeds ==> r.1 == Failure(PublishFailed)
    ensures io.connects && io.succeeds && !closes ==> r.1 == Failure(CloseFailed)
    ensures !(io.connects && io.succeeds) ==> r.0 == s
    ensures io.connects && io.succeeds ==>
              && r.0.history == s.history
              && r.0.outbox == s.outbox + [Published(PubsubName, TopicName,
                                                     Encode(ChatMessage(agent, role, content, now, id), c),
                                                     JsonContentType)]
  {
    var m := ChatMessage(agent, role, content, now, id);
    match Publish(s, NewManager(DefaultAppId), m, c, io)
    case Failure(e) => (s, Failure(e))
    case Success(s') => if closes then (s', Success(id)) else (s', Failure(CloseFailed))
  }

  /** An inbound dict whose `data` entry carries a published payload unchanged. How the
      sidecar wraps a payload is not modelled, so this is the assumed envelope. */
  function Delivery(p: Published): Event
  {
    Event(Some(Object(p.data)))
  }

  /** A published message handed directly to `handle_incoming_message` of a manager whose
      table registers agent `a`: if `a` is not the sender, `a`'s handler receives that same
      message exactly once; a handler registered under the sender's name is never called.
      Through the subscription entrypoint no handler is reached at all, since it builds a
      manager with an empty table (`MessageHandler`). */
  lemma CrossDelivery(s: SidecarState, mgr: Manager, m: ChatMessage, c: TimeCodec,
                      t: Table, raises: Raises, a: string, h: HandlerId)
    requires Inverse(c)
    requires Distinct(t)
    requires forall e :: e in t && e.agent != m.agentName ==> !raises(e.handler, m)
    requires Lookup(t, a) == Some(h)
    ensures Publish(s, mgr, m, c, Io(true, true)).Success?
    ensures var p := Publish(s, mgr, m, c, Io(true, true)).value.outbox[|s.outbox|];
            var r := HandleIncoming(t, Delivery(p), c, raises);
            && r.message == Some(m)
            && r.outcome == Delivered
            && (a != m.agentName ==> multiset(r.invoked)[Entry(a, h)] == 1)
            && (a == m.agentName ==> multiset(r.invoked)[Entry(a, h)] == 0)
  {
    var p := Publish(s, mgr, m, c, Io(true, true)).value.outbox[|s.outbox|];
    assert Decode(p.data, c) == Success(m);
    ExactlyOnce(t, m, raises, a, h);
  }
}
