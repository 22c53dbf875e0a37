/** The handler registration table of a chat manager: a Python dict from agent name to
    callback, kept here as the ordered sequence of its items. Insertion order is the
    order `dict.items()` yields them; overwriting a key keeps its position. */
module Handlers {
  import opened Wrappers

  /** The identity of a registered callback; what the callback does is not modelled. */
  type HandlerId = nat

  datatype Entry = Entry(agent: string, handler: HandlerId)

  type Table = seq<Entry>

  /** A freshly constructed manager has no handlers. */
  const EmptyTable: Table := []

  /** The dict's keys in iteration order. */
  function Names(t: Table): (ns: seq<string>)
    ensures |ns| == |t|
    ensures forall i :: 0 <= i < |t| ==> ns[i] == t[i].agent
  {
    seq(|t|, i requires 0 <= i < |t| => t[i].agent)
  }

  /** A dict holds each key at most once. */
  predicate Distinct(t: Table) {
    forall i, j :: 0 <= i < j < |t| ==> t[i].agent != t[j].agent
  }

  /** The position of agent `a` in the table, if it is registered. */
  function IndexOf(t: Table, a: string): (r: Option<nat>)
    ensures r.Some? ==> r.value < |t| && t[r.value].agent == a
                        && forall j :: 0 <= j < r.value ==> t[j].agent != a
    ensures r.None? <==> forall j :: 0 <= j < |t| ==> t[j].agent != a
  {
    if |t| == 0 then None
    else if t[0].agent == a then Some(0)
    else
      match IndexOf(t[1..], a)
      case None => None
      case Some(i) => Some(i + 1)
  }

  /** `message_handlers.get(a)`. */
  function Lookup(t: Table, a: string): (r: Option<HandlerId>)
    ensures r.Some? <==> a in Names(t)
  {
    match IndexOf(t, a)
    case None => None
    case Some(i) => Some(t[i].handler)
  }

  /** Two tables that hold the same entries for agent `b` at the same positions answer
      the same lookup for `b`. */
  lemma LookupAgrees(t: Table, u: Table, b: string)
    requires |t| <= |u|
    requires forall k :: 0 <= k < |t| ==> (t[k].agent == b <==> u[k].agent == b)
    requires forall k :: 0 <= k < |t| && t[k].agent == b ==> u[k] == t[k]
    requires forall k :: |t| <= k < |u| ==> u[k].agent != b
    ensures Lookup(t, b) == Lookup(u, b)
  {
    match IndexOf(t, b)
    case None =>
      assert IndexOf(u, b).None?;
    case Some(i) =>
      assert IndexOf(u, b) == Some(i);
  }

  /** `message_handlers[a] = h`: an already registered agent has its handler replaced
      in place, a new agent is added at the end; no other entry moves or changes. */
  function Subscribe(t: Table, a: string, h: HandlerId): (r: Table)
    ensures |r| == if a in Names(t) then |t| else |t| + 1
    ensures forall i :: 0 <= i < |t| && t[i].agent != a ==> r[i] == t[i]
  {
    match IndexOf(t, a)
    case Some(i) => t[i := Entry(a, h)]
    case None => t + [Entry(a, h)]
  }

  /** Where agent `a` sits after subscribing: its old position, or the new last one. */
  lemma SubscribePosition(t: Table, a: string, h: HandlerId)
    ensures var k := if IndexOf(t, a).Some? then IndexOf(t, a).value else |t|;
            IndexOf(Subscribe(t, a, h), a) == Some(k) && Subscribe(t, a, h)[k] == Entry(a, h)
  {
    var r := Subscribe(t, a, h);
    var k := if IndexOf(t, a).Some? then IndexOf(t, a).value else |t|;
    assert k < |r| && r[k] == Entry(a, h);
    assert forall j :: 0 <= j < k ==> r[j] == t[j];
  }

  /** Subscribing behaves as a dict assignment: the agent now maps to the new handler and
      every other agent maps to what it mapped to before. */
  lemma SubscribeLookup(t: Table, a: string, h: HandlerId, b: string)
    ensures Lookup(Subscribe(t, a, h), b) == if b == a then Some(h) else Lookup(t, b)
  {
    if b == a {
      SubscribePosition(t, a, h);
    } else {
      LookupAgrees(t, Subscribe(t, a, h), b);
    }
  }

  /** Keys keep their order; a new key goes last. */
  lemma SubscribeKeepsOrder(t: Table, a: string, h: HandlerId)
    ensures Names(Subscribe(t, a, h)) == if a in Names(t) then Names(t) else Names(t) + [a]
  {
    SubscribePosition(t, a, h);
  }

  /** Registration never creates a second entry for an agent. */
  lemma SubscribeKeepsDistinct(t: Table, a: string, h: HandlerId)
    requires Distinct(t)
    ensures Distinct(Subscribe(t, a, h))
  {
    SubscribePosition(t, a, h);
  }
}
