# Inter-agent chat messaging, modelled in Dafny

This project models the messaging layer of a multi-agent code-generation app: the
`ChatMessage` record and the `DaprChatManager` class in `app/chat.py`. Agents publish
messages to one pub/sub topic. `handle_incoming_message` hands an inbound message to every
handler registered on that manager, skipping the sender's own handler. The subscription
entrypoint `message_handler`, however, builds a brand-new manager for each event. That
manager's table is empty, so a delivered event never reaches a registered handler. A
conversation history is kept under a single state-store key and is overwritten on every
save.

The Dapr sidecar is replaced by an abstract record (`Sidecar.SidecarState`). It holds an
optional stored history, a list of wire objects, plus the list of published events.
Whether a client can be constructed and whether its one call succeeds are passed in as an
`Io` parameter. Whether a handler raises is passed in as a function `raises`.

Modules, one per component:

- `Wrappers`: `Option` and `Result`.
- `Message`: `ChatMessage`, the timestamp, and the five-key wire object with `Encode` /
  `Decode`. The ISO text format is a `TimeCodec` parameter. Whenever a round trip is
  claimed, the codec must satisfy `Inverse`.
- `Handlers`: the handler dict as an ordered sequence of (agent, handler) entries, with
  Python's insertion-order and overwrite-in-place rules.
- `Dispatch`: `handle_incoming_message` and the `message_handler` subscription entrypoint.
- `Sidecar`: the abstract store, outbox, I/O outcome and the fixed names.
- `ChatManager`: a manager's configuration and handler table, with construction and
  `subscribe_to_messages`.
- `History`: `get_chat_history` with Python's `xs[-limit:]` slice rules, and
  `save_chat_history`.
- `Bus`: `publish_message`, `send_agent_message`, and the path from a publish to a direct
  `handle_incoming_message` call.

## Error behaviour

- A raising handler ends the routing loop. The whole loop sits inside the `try`, so the error is logged and `handle_incoming_message` returns normally (app/chat.py:90-95, `Dispatch.StopsAtFirstRaise`).
- A failed history write is logged and swallowed (app/chat.py:154-155, `History.Save`).
- A client that cannot be constructed raises out of `get_chat_history` and `save_chat_history`, because `initialize` runs before the `try` (app/chat.py:99-100 and 132-133, `ConnectFailed`). Only a failed `get_state` call or a bad entry inside the window degrades to the empty list.
- A failing `close()` in `send_agent_message` raises after the event has already been published (app/chat.py:192-193 and 160, `CloseFailed`).
- The slice `history_data[-limit:]` returns the whole list for `limit == 0` and drops entries from the front for a negative `limit` (app/chat.py:113, `History.Window`).

## Model

| member | source | states |
|---|---|---|
| Message.Encode | app/chat.py:50-56 | The wire object has exactly the five keys. Decoding it gives back the same message whenever the timestamp codec is an inverse pair. |
| Message.Decode | app/chat.py:81-87 | Decoding succeeds iff all five keys are present and the timestamp text parses. On success the string fields are copied from the object and the timestamp is the parsed one. A missing key is reported as the first absent key in evaluation order. A missing `message_id` is reported only when the timestamp parsed, because parsing comes first. An unparsable timestamp is reported with its text, and only when the three keys before it are present. |
| Handlers.Subscribe | app/chat.py:73 | Registering an existing agent keeps the table's length. Registering a new agent adds one entry. Entries of other agents keep their positions and contents. |
| Handlers.SubscribeLookup | app/chat.py:73 | After registering, looking up the agent gives the new handler. Every other agent's lookup is unchanged. |
| Handlers.SubscribeKeepsOrder | app/chat.py:73 | An existing agent keeps its position and the key order is unchanged. A new agent is appended at the end. |
| Handlers.SubscribeKeepsDistinct | app/chat.py:73 | Registration never creates a second entry for an agent. |
| Dispatch.Eligible | app/chat.py:90-91 | The routing candidates are exactly the table entries whose agent differs from the sender. |
| Dispatch.Route | app/chat.py:89-95 | The handlers called are a prefix of the eligible entries, in table order. Dispatch either completes or stops on a raising handler, and never raises itself. |
| Dispatch.SelfExclusion | app/chat.py:90-92 | Every handler called belongs to a table entry of an agent other than the sender. |
| Dispatch.StopsAtFirstRaise | app/chat.py:90-95 | Every call except the last returned normally. A failed dispatch names the last handler called, and that handler raised. |
| Dispatch.CompletesIffNoRaise | app/chat.py:90-95 | Dispatch completes iff no eligible handler raises, and then every eligible handler was called. |
| Dispatch.HandleIncoming | app/chat.py:76-95 | A message is routed iff the payload is an object that decodes. Otherwise the event is dropped with no handler called. Either way the call returns normally. |
| Dispatch.MessageHandler | app/chat.py:166-170 | The entrypoint routes through the table of `NewManager(DefaultAppId)`, which registers no agent, so it never calls a handler. It reports a drop or a delivery, never a handler failure. |
| Dispatch.RouteLoop | app/chat.py:90-92 | The loop over the dict items, with an early exit on a raising handler, calls exactly the handlers `Route` describes. It never calls the sender's handler. |
| Dispatch.EligibleIsTableWithoutSender | app/chat.py:90-91 | With distinct keys, the routing order is the table order with only the sender's entry removed. |
| Dispatch.ExactlyOnce | app/chat.py:90-92 | If no handler raises, each registered non-sender handler is called exactly once. The sender's handler is called zero times. |
| Dispatch.NoDataIsDropped | app/chat.py:79-82 | An event without `data` is dropped for the missing `agent_name` key and calls no handler. |
| Dispatch.MissingFieldIsDropped | app/chat.py:79-95 | An object that lacks any one of the five keys calls no handler and ends as a drop. |
| History.Window | app/chat.py:113 | The result is a suffix of the stored list and never longer than it. With `limit` 0 or `limit >= len` it is the whole list. With `0 < limit <= len` it has exactly `limit` entries. A negative `limit` drops `-limit` entries from the front. |
| History.DecodeAll | app/chat.py:113-121 | Decoding the list succeeds iff every entry decodes, and then each result is that entry's message. On failure, the error is that of the first failing entry. |
| History.EncodeAll | app/chat.py:136-144 | The list has one wire object per message, in order. Decoding it gives back the messages. |
| History.Load | app/chat.py:97-128 | A connect failure propagates. A failed read, an absent key, or any undecodable entry inside the window gives the empty list. Otherwise the result is the decoding of the window. It is never longer than the stored list, nor longer than a positive `limit`. |
| History.LoadDefault | app/chat.py:97 | With the default `limit` of 100 the result never exceeds 100 messages. A fully decodable stored list of at most 100 entries is returned whole. |
| History.Save | app/chat.py:130-155 | A connect failure propagates. A failed write leaves the store as it was and is not raised. A successful write stores exactly the five-key encoding of each message, in order. After it, a load with `limit` 0 or `limit >= len(ms)` returns exactly `ms`. Published events are untouched. |
| History.SaveThenLoad | app/chat.py:97-150 | After saving `ms`, a load with any `limit` returns exactly the Python slice `ms[-limit:]`. |
| History.SaveOverwrites | app/chat.py:146-150 | Two saves in a row leave the same state as the second save alone. The result is never a union. |
| History.LoadLastTwo | app/chat.py:113 | Saving three messages and loading with limit 2 returns the last two, in order. |
| History.LoadReadsOnlyWindow | app/chat.py:113-121 | Stored lists with equal windows load the same result. Entries outside the window are never decoded. |
| ChatManager.NewManager | app/chat.py:28-33 | A new manager keeps the given app id, uses the fixed pubsub and topic names, and has no agent registered. |
| ChatManager.SubscribeToMessages | app/chat.py:71-74 | Registering changes only the manager's handler table. Afterwards the agent maps to the new handler and every other agent's lookup is unchanged. A re-registered agent keeps its position, a new agent goes last, and every other entry keeps its position and contents. |
| ChatManager.RegistrationsOnNewManager | app/chat.py:28-74 | Registering distinct agents one after another on a new manager yields a table of exactly those agents, in registration order. |
| Bus.Publish | app/chat.py:44-69 | Connect and publish failures are raised. On success exactly one event is appended, on the manager's topic with JSON content type. Its payload is exactly `Encode(m, c)`, so it decodes back to the message. The history is untouched. |
| Bus.SendAgentMessage | app/chat.py:179-195 | With the clock and the id given, the helper publishes the encoding of the message built from its arguments. It returns that id when connect, publish and close all succeed. A connect or publish failure leaves the sidecar unchanged. A close failure is raised after the event has been appended. |
| Bus.CrossDelivery | app/chat.py:50-92 | A published payload handed directly to `handle_incoming_message` of a manager where agent `a` is registered reaches `a`'s handler exactly once, with that same message, when `a` is not the sender and no other agent's handler raises. It reaches it zero times when `a` is the sender, whether or not the sender's handler would raise. Through the entrypoint no handler is reached. |

## Left out

- Dapr client calls (`DaprClient()`, `publish_event`, `get_state`, `save_state`, `close`): foreign I/O. They are modelled as updates to `SidecarState` plus the success flags in `Io`. Lazy initialisation, `initialize` and `create_chat_manager` appear only as the `Io.connects` flag. `cleanup` appears only as the `closes` flag of `Bus.SendAgentMessage`.
- asyncio, logging and `app.run`: logging and the app runner do not affect the modelled behaviour. Each operation is modelled as running without interleaving. A registration made by another task during a dispatch is not represented, because `Dispatch.Route` works on a snapshot of the table. In Python, `await handler(message)` (app/chat.py:92) yields to the event loop. If another task adds an agent to the same manager at that point, the next step of `message_handlers.items()` raises RuntimeError. The `except` at app/chat.py:94-95 swallows it, so dispatch stops early although no handler raised. If another task overwrites the handler of a later agent, the new handler is the one called. This needs a manager shared across tasks, as in the direct-call setting of `Bus.CrossDelivery`; the subscription entrypoint's fresh manager is never shared. A logged-and-swallowed error shows up as the `Outcome` of a dispatch or as the empty history.
- JSON text: `json.loads` / `json.dumps` are not modelled. A JSON object is a map from key to string, and key order inside an object is not represented. A payload that is not valid JSON, or is valid JSON but not an object, is the single case `NotAnObject`. Both raise inside the try block and are dropped.
- Non-string field values: the Python dataclass would accept any JSON value in the string fields. The model restricts them to strings.
- History entries that are not objects, and a stored value that is not a list: both make the Python slice or the key lookup raise, which is swallowed into the empty list. The model's stored value is always a list of objects, so these cases are not represented.
- ISO-8601 formatting and parsing: `TimeCodec` is a parameter. Where a round trip is claimed, the only assumption is `Inverse`, which says parsing a formatted timestamp gives it back.
- Handler side effects: a handler is an opaque id. Only whether it raises on a message is modelled, through the `raises` parameter.
- `send_agent_message`: `uuid.uuid4()` and `datetime.now()` are nondeterministic, so `Bus.SendAgentMessage` takes the id and the timestamp as parameters.
- Identity checks of the fixed store name and key: there is only one key, so `SidecarState.history` stands for the value under `chat-history` in `chat-state`.
- `app/app.py` is not part of this model: it is the Streamlit UI and calls no part of the messaging layer.
- Bus.Delivery: the inbound dict is assumed to carry the published JSON object unchanged under `data`. The sidecar's event envelope is not modelled, so `Bus.CrossDelivery` rests on this assumption.
- Time zones and `fold`: `Message.Timestamp` is a naive datetime. `datetime.fromisoformat` returns an aware value for text with an offset, such as `2024-01-01T00:00:00+00:00`, and Python routes that message. The model's codec must either reject such text, dropping a message Python routes, or map it to a naive value, delivering a message whose timestamp differs from Python's. Neither matches the source for offset timestamps.
