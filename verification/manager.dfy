/** The state a `DaprChatManager` keeps apart from its client: its configuration and its
    handler table. */
module ChatManager {
  import opened Wrappers
  import opened Handlers
  import opened Sidecar

  /** The configuration and handler table of one manager; the client connection is the
      `Io` parameter of each operation. */
  datatype Manager = Manager(appId: string, pubsubName: string, topicName: string, handlers: Table)

  /** `DaprChatManager`'s default `app_id`. */
  const DefaultAppId: string := "multi-agent-chat"

  /** `DaprChatManager(app_id)`: the fixed pubsub and topic names, and no agent registered. */
  function NewManager(appId: string): (r: Manager)
    ensures r.appId == appId
    ensures r.pubsubName == PubsubName && r.topicName == TopicName
    ensures forall a :: Lookup(r.handlers, a).None?
  {
    Manager(appId, PubsubName, TopicName, EmptyTable)
  }

  /** `subscribe_to_messages`: only the handler table changes. */
  function SubscribeToMessages(mgr: Manager, a: string, h: HandlerId): (r: Manager)
    ensures r.appId == mgr.appId && r.pubsubName == mgr.pubsubName && r.topicName == mgr.topicName
    ensures Lookup(r.handlers, a) == Some(h)
    ensures forall b :: b != a ==> Lookup(r.handlers, b) == Lookup(mgr.handlers, b)
    ensures Names(r.handlers) == if a in Names(mgr.handlers) then Names(mgr.handlers) else Names(mgr.handlers) + [a]
    ensures forall i :: 0 <= i < |mgr.handlers| && mgr.handlers[i].agent != a ==> r.handlers[i] == mgr.handlers[i]
  {
    var r := mgr.(handlers := Subscribe(mgr.handlers, a, h));
    SubscribeKeepsOrder(mgr.handlers, a, h);
    assert forall b :: Lookup(r.handlers, b) == if b == a then Some(h) else Lookup(mgr.handlers, b) by {
      forall b ensures Lookup(r.handlers, b) == if b == a then Some(h) else Lookup(mgr.handlers, b) {
        SubscribeLookup(mgr.handlers, a, h, b);
      }
    }
    r
  }

  /** A new manager followed by registrations of distinct agents holds exactly those
      agents, in registration order. */
  lemma {:induction false} RegistrationsOnNewManager(appId: string, regs: Table)
    requires Distinct(regs)
    ensures SubscribeAll(NewManager(appId), regs).handlers == regs
    decreases |regs|
  {
    if |regs| > 0 {
      var init := regs[..|regs| - 1];
      var last := regs[|regs| - 1];
      assert Distinct(init);
      RegistrationsOnNewManager(appId, init);
      assert last.agent !in Names(init) by {
        forall i | 0 <= i < |init| ensures Names(init)[i] != last.agent {
          assert init[i] == regs[i];
        }
      }
      var before := SubscribeAll(NewManager(appId), init);
      assert before.handlers == init;
      assert IndexOf(init, last.agent).None?;
      assert SubscribeAll(NewManager(appId), regs).handlers == Subscribe(init, last.agent, last.handler);
      assert Subscribe(init, last.agent, last.handler) == init + [last];
      assert init + [last] == regs;
    }
  }

  /** Registers the entries of `regs` one after another, first to last. */
  function SubscribeAll(mgr: Manager, regs: Table): (r: Manager)
    ensures r.appId == mgr.appId
    decreases |regs|
  {
    if |regs| == 0 then mgr
    else
      var last := regs[|regs| - 1];
      SubscribeToMessages(SubscribeAll(mgr, regs[..|regs| - 1]), last.agent, last.handler)
  }
}
