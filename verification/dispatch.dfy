/** Inbound routing: `handle_incoming_message` decodes an event and hands the message to
    every registered handler except the sender's, in table order; the `message_handler`
    subscription entrypoint does the same with a freshly constructed manager. Every
    failure inside dispatch is logged and swallowed, so dispatch always returns a report
    rather than an error. */
module Dispatch {
  import opened Wrappers
  import opened Message
  import opened Handlers
  import opened ChatManager

  /** The decoded `data` of an event: a JSON object, or text that is not valid JSON or
      is valid JSON of another shape (both raise inside the handler's try block). */
  datatype Payload = Object(fields: WireObject) | NotAnObject

  /** The dict handed to `handle_incoming_message`, reduced to its `data` entry, which
      may be absent. When the subscription entrypoint calls it, this dict is the
      delivered event's `event.data`. */
  datatype Event = Event(data: Option<Payload>)

  /** An absent `data` is read as the text `'{}'`, the empty object. */
  function PayloadOf(e: Event): (p: Payload)
    ensures e.data.Some? ==> p == e.data.value
    ensures e.data.None? ==> p == Object(map[])
  {
    match e.data
    case None => Object(map[])
    case Some(p) => p
  }

  /** Whether the given handler raises when called with the given message. Handlers are
      code outside this layer, so their behaviour is a parameter. */
  type Raises = (HandlerId, ChatMessage) -> bool

  datatype DropReason = NotJsonObject | Malformed(error: DecodeError)

  /** How a dispatch ended; each of these is only logged by the source. */
  datatype Outcome = Delivered | Dropped(reason: DropReason) | HandlerRaised(agent: string)

  /** The decoded message (if any), the handlers called with it in call order, and how
      dispatch ended. */
  datatype Report = Report(message: Option<ChatMessage>, invoked: seq<Entry>, outcome: Outcome)

  /** The entries whose agent differs from `sender`, in table order. */
  function Eligible(t: Table, sender: string): (r: Table)
    ensures |r| <= |t|
    ensures forall e :: e in r <==> e in t && e.agent != sender
  {
    if |t| == 0 then []
    else if t[0].agent == sender then Eligible(t[1..], sender)
    else [t[0]] + Eligible(t[1..], sender)
  }

  /** The loop over `message_handlers.items()`: skip the sender, call the others, and stop
      at the first handler that raises. */
  function Route(t: Table, m: ChatMessage, raises: Raises): (r: Report)
    ensures r.message == Some(m)
    ensures r.invoked <= Eligible(t, m.agentName)
    ensures r.outcome.Delivered? || r.outcome.HandlerRaised?
    decreases |t|
  {
    if |t| == 0 then Report(Some(m), [], Delivered)
    else if t[0].agent == m.agentName then Route(t[1..], m, raises)
    else if raises(t[0].handler, m) then Report(Some(m), [t[0]], HandlerRaised(t[0].agent))
    else
      var rest := Route(t[1..], m, raises);
      Report(Some(m), [t[0]] + rest.invoked, rest.outcome)
  }

  /** Filtering a table with distinct agent names keeps them distinct. */
  lemma {:induction false} EligibleDistinct(t: Table, sender: string)
    requires Distinct(t)
    ensures Distinct(Eligible(t, sender))
    decreases |t|
  {
    if |t| > 0 {
      assert Distinct(t[1..]);
      EligibleDistinct(t[1..], sender);
      if t[0].agent != sender {
        var rest := Eligible(t[1..], sender);
        assert forall e :: e in rest ==> e in t[1..];
        assert forall j :: 0 <= j < |rest| ==> rest[j] in t[1..];
        assert forall j :: 0 <= j < |t[1..]| ==> t[0].agent != t[1..][j].agent by {
          forall j | 0 <= j < |t[1..]| ensures t[0].agent != t[1..][j].agent {
            assert t[1..][j] == t[j + 1];
          }
        }
      }
    }
  }

  /** The sender's own handler is never called: every called entry is a table entry of
      another agent. */
  lemma SelfExclusion(t: Table, m: ChatMessage, raises: Raises)
    ensures forall e :: e in Route(t, m, raises).invoked ==> e in t && e.agent != m.agentName
  {
    var r := Route(t, m, raises);
    var el := Eligible(t, m.agentName);
    forall e | e in r.invoked ensures e in t && e.agent != m.agentName {
      var i :| 0 <= i < |r.invoked| && r.invoked[i] == e;
      assert el[i] == e;
    }
  }

  /** Dispatch stops at the first raising handler: every handler called before the last
      returned normally, and a failed dispatch names the last handler called, which raised. */
  lemma {:induction false} StopsAtFirstRaise(t: Table, m: ChatMessage, raises: Raises)
    ensures forall i :: 0 <= i < |Route(t, m, raises).invoked| - 1 ==>
              !raises(Route(t, m, raises).invoked[i].handler, m)
    ensures Route(t, m, raises).outcome.HandlerRaised? ==> RaisedLast(Route(t, m, raises), m, raises)
    decreases |t|
  {
    if |t| == 0 {
    } else if t[0].agent == m.agentName {
      StopsAtFirstRaise(t[1..], m, raises);
    } else if !raises(t[0].handler, m) {
      StopsAtFirstRaise(t[1..], m, raises);
      var rest := Route(t[1..], m, raises);
      var inv := Route(t, m, raises).invoked;
      assert inv == [t[0]] + rest.invoked;
      forall i | 0 <= i < |inv| - 1 ensures !raises(inv[i].handler, m) {
        if i > 0 {
          assert inv[i] == rest.invoked[i - 1];
        }
      }
      if rest.outcome.HandlerRaised? {
        assert inv[|inv| - 1] == rest.invoked[|rest.invoked| - 1];
      }
    }
  }

  /** The last handler called is the one a failed dispatch reports, and it raised. */
  predicate RaisedLast(r: Report, m: ChatMessage, raises: Raises) {
    && |r.invoked| > 0
    && raises(r.invoked[|r.invoked| - 1].handler, m)
    && r.outcome.HandlerRaised?
    && r.outcome.agent == r.invoked[|r.invoked| - 1].agent
  }

  /** Dispatch completes exactly when no eligible handler raises, and then it has called
      every eligible handler. */
  lemma {:induction false} CompletesIffNoRaise(t: Table, m: ChatMessage, raises: Raises)
    ensures Route(t, m, raises).outcome.Delivered? <==>
              forall e :: e in Eligible(t, m.agentName) ==> !raises(e.handler, m)
    ensures Route(t, m, raises).outcome.Delivered? ==>
              Route(t, m, raises).invoked == Eligible(t, m.agentName)
    decreases |t|
  {
    if |t| > 0 {
      CompletesIffNoRaise(t[1..], m, raises);
      if t[0].agent != m.agentName {
        assert Eligible(t, m.agentName) == [t[0]] + Eligible(t[1..], m.agentName);
      }
    }
  }

  /** `handle_incoming_message`: decode, then route; a payload that is not an object or
      does not decode is dropped before any handler runs. */
  function HandleIncoming(t: Table, e: Event, c: TimeCodec, raises: Raises): (r: Report)
    ensures r.message.Some? <==> PayloadOf(e).Object? && Decode(PayloadOf(e).fields, c).Success?
    ensures r.message.Some? ==> r.message.value == Decode(PayloadOf(e).fields, c).value
    ensures r.outcome.Dropped? <==> r.message.None?
    ensures r.message.None? ==> r.invoked == []
    ensures r.message.Some? ==> r == Route(t, r.message.value, raises)
  {
    match PayloadOf(e)
    case NotAnObject => Report(None, [], Dropped(NotJsonObject))
    case Object(o) =>
      match Decode(o, c)
      case Failure(err) => Report(None, [], Dropped(Malformed(err)))
      case Success(m) => Route(t, m, raises)
  }

  /** The subscription entrypoint: a new manager per event, whose table is empty, so no
      handler is ever called and a decodable event always counts as delivered. */
  function MessageHandler(e: Event, c: TimeCodec, raises: Raises): (r: Report)
    ensures r.invoked == []
    ensures r.outcome.Delivered? || r.outcome.Dropped?
    ensures r.message.Some? <==> PayloadOf(e).Object? && Decode(PayloadOf(e).fields, c).Success?
  {
    HandleIncoming(NewManager(DefaultAppId).handlers, e, c, raises)
  }

  /** The routing loop as the source writes it, over table positions with an early exit
      on the first raising handler; it calls exactly the handlers `Route` describes. */
  method RouteLoop(t: Table, m: ChatMessage, raises: Raises) returns (invoked: seq<Entry>, outcome: Outcome)
    ensures Report(Some(m), invoked, outcome) == Route(t, m, raises)
    ensures forall e :: e in invoked ==> e.agent != m.agentName
  {
    invoked := [];
    outcome := Delivered;
    var i := 0;
    while i < |t|
      invariant 0 <= i <= |t|
      invariant Route(t, m, raises).invoked == invoked + Route(t[i..], m, raises).invoked
      invariant Route(t, m, raises).outcome == Route(t[i..], m, raises).outcome
      decreases |t| - i
    {
      RouteStep(t, i, m, raises);
      if t[i].agent != m.agentName {
        invoked := invoked + [t[i]];
        if raises(t[i].handler, m) {
          outcome := HandlerRaised(t[i].agent);
          SelfExclusion(t, m, raises);
          return;
        }
      }
      i := i + 1;
    }
    SelfExclusion(t, m, raises);
  }

  /** One iteration of the routing loop, read off the definition of `Route`. */
  lemma RouteStep(t: Table, i: nat, m: ChatMessage, raises: Raises)
    requires i < |t|
    ensures t[i].agent == m.agentName ==> Route(t[i..], m, raises) == Route(t[i + 1..], m, raises)
    ensures t[i].agent != m.agentName && raises(t[i].handler, m) ==>
              Route(t[i..], m, raises) == Report(Some(m), [t[i]], HandlerRaised(t[i].agent))
    ensures t[i].agent != m.agentName && !raises(t[i].handler, m) ==>
              Route(t[i..], m, raises).invoked == [t[i]] + Route(t[i + 1..], m, raises).invoked
              && Route(t[i..], m, raises).outcome == Route(t[i + 1..], m, raises).outcome
  {
    assert t[i..][1..] == t[i + 1..];
  }

  /** With distinct agent names, routing order is table order with the sender's own entry
      taken out. */
  lemma {:induction false} EligibleIsTableWithoutSender(t: Table, sender: string)
    requires Distinct(t)
    ensures IndexOf(t, sender).None? ==> Eligible(t, sender) == t
    ensures IndexOf(t, sender).Some? ==>
              Eligible(t, sender) == t[..IndexOf(t, sender).value] + t[IndexOf(t, sender).value + 1..]
    decreases |t|
  {
    if |t| > 0 {
      var tail := t[1..];
      assert Distinct(tail);
      EligibleIsTableWithoutSender(tail, sender);
      if t[0].agent == sender {
        assert IndexOf(t, sender) == Some(0);
        assert IndexOf(tail, sender).None?;
        assert Eligible(t, sender) == Eligible(tail, sender);
      } else {
        assert Eligible(t, sender) == [t[0]] + Eligible(tail, sender);
        match IndexOf(tail, sender)
        case None =>
          assert IndexOf(t, sender).None?;
          assert t == [t[0]] + tail;
        case Some(k) =>
          assert IndexOf(t, sender) == Some(k + 1);
          ConsWithoutShifts(t, k);
      }
    }
  }

  /** Removing position `k` of the tail is removing position `k + 1` of the whole. */
  lemma ConsWithoutShifts(t: Table, k: nat)
    requires k + 1 < |t|
    ensures [t[0]] + (t[1..][..k] + t[1..][k + 1..]) == t[..k + 1] + t[k + 2..]
  {
    assert t[1..][..k] == t[1..k + 1];
    assert t[1..][k + 1..] == t[k + 2..];
    assert [t[0]] + t[1..k + 1] == t[..k + 1];
  }

  /** In a table with distinct agent names each entry occurs once. */
  lemma {:induction false} DistinctOccursOnce(s: Table)
    requires Distinct(s)
    ensures forall e :: e in s ==> multiset(s)[e] == 1
    decreases |s|
  {
    if |s| > 0 {
      assert Distinct(s[1..]);
      DistinctOccursOnce(s[1..]);
      assert s == [s[0]] + s[1..];
      assert s[0] !in s[1..];
    }
  }

  /** When no handler raises, each registered agent other than the sender has its handler
      called exactly once, and the sender's handler is never called. */
  lemma ExactlyOnce(t: Table, m: ChatMessage, raises: Raises, a: string, h: HandlerId)
    requires Distinct(t)
    requires forall e :: e in t && e.agent != m.agentName ==> !raises(e.handler, m)
    requires Lookup(t, a) == Some(h)
    ensures a != m.agentName ==> multiset(Route(t, m, raises).invoked)[Entry(a, h)] == 1
    ensures a == m.agentName ==> multiset(Route(t, m, raises).invoked)[Entry(a, h)] == 0
    ensures Route(t, m, raises).outcome == Delivered
  {
    CompletesIffNoRaise(t, m, raises);
    var r := Route(t, m, raises);
    assert Entry(a, h) in t by {
      assert t[IndexOf(t, a).value] == Entry(a, h);
    }
    if a != m.agentName {
      EligibleDistinct(t, m.agentName);
      DistinctOccursOnce(Eligible(t, m.agentName));
    }
  }

  /** An event without `data` is read as `{}` and dropped for its missing `agent_name`. */
  lemma NoDataIsDropped(t: Table, c: TimeCodec, raises: Raises)
    ensures HandleIncoming(t, Event(None), c, raises) == Report(None, [], Dropped(Malformed(MissingField(AgentNameKey))))
  {
  }

  /** An object lacking any of the five keys reaches no handler and ends as a drop. */
  lemma MissingFieldIsDropped(t: Table, e: Event, c: TimeCodec, raises: Raises, k: string)
    requires PayloadOf(e).Object?
    requires k in Fields && k !in PayloadOf(e).fields
    ensures HandleIncoming(t, e, c, raises).invoked == []
    ensures HandleIncoming(t, e, c, raises).outcome.Dropped?
  {
  }
}
