/** The Dapr sidecar as the chat manager sees it: one state-store key holding the history
    and the stream of events published to the chat topic. Client calls become updates to
    this record, and whether a call gets through is a parameter. */
module Sidecar {
  import opened Wrappers
  import opened Message

  const PubsubName: string := "chat-pubsub"
  const TopicName: string := "agent-messages"
  const JsonContentType: string := "application/json"

  /** One `publish_event` call as the sidecar received it. */
  datatype Published = Published(pubsub: string, topic: string, data: WireObject, contentType: string)

  /** The value under key `chat-history` of store `chat-state` (None while nothing was ever saved) and
      the events published so far, oldest first. */
  datatype SidecarState = SidecarState(history: Option<seq<WireObject>>, outbox: seq<Published>)

  /** Whether the client can be constructed, and whether the one client call made by the
      operation succeeds. */
  datatype Io = Io(connects: bool, succeeds: bool)

  /** An exception that leaves the chat manager. */
  datatype TransportError = ConnectFailed | PublishFailed | CloseFailed

}
