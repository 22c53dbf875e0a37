/** The chat message of the multi-agent messaging layer and its five-key wire object,
    the form it takes both as a published event payload and as a stored history entry. */
module Message {
  import opened Wrappers

  /** The fields of a naive Python `datetime`. */
  datatype DateTime = DateTime(year: int, month: int, day: int,
                               hour: int, minute: int, second: int, microsecond: int)

  predicate IsLeapYear(y: int) {
    y % 4 == 0 && (y % 100 != 0 || y % 400 == 0)
  }

  function DaysInMonth(y: int, m: int): (d: int)
    requires 1 <= m <= 12
    ensures 28 <= d <= 31
  {
    if m == 2 then (if IsLeapYear(y) then 29 else 28)
    else if m == 4 || m == 6 || m == 9 || m == 11 then 30
    else 31
  }

  /** The ranges Python enforces when a `datetime` is constructed. */
  predicate ValidDateTime(d: DateTime) {
    && 1 <= d.year <= 9999
    && 1 <= d.month <= 12
    && 1 <= d.day <= DaysInMonth(d.year, d.month)
    && 0 <= d.hour < 24
    && 0 <= d.minute < 60
    && 0 <= d.second < 60
    && 0 <= d.microsecond < 1000000
  }

  /** Every naive `datetime` value (no time zone, no `fold`). */
  type Timestamp = d: DateTime | ValidDateTime(d) witness DateTime(1, 1, 1, 0, 0, 0, 0)

  /** The pair `datetime.isoformat` / `datetime.fromisoformat`; the text format itself is
      not modelled, the parser answers None where Python raises ValueError. */
  datatype TimeCodec = TimeCodec(isoformat: Timestamp -> string,
                                 fromisoformat: string -> Option<Timestamp>)

  /** Parsing what was formatted gives the same timestamp back. */
  ghost predicate Inverse(c: TimeCodec) {
    forall t: Timestamp :: c.fromisoformat(c.isoformat(t)) == Some(t)
  }

  /** One utterance in the shared conversation. The source places no constraint on the
      string fields, so neither does the model. */
  datatype ChatMessage = ChatMessage(agentName: string, role: string, content: string,
                                     timestamp: Timestamp, messageId: string)

  /** A decoded JSON object whose values are strings. */
  type WireObject = map<string, string>

  const AgentNameKey: string := "agent_name"
  const RoleKey: string := "role"
  const ContentKey: string := "content"
  const TimestampKey: string := "timestamp"
  const MessageIdKey: string := "message_id"

  /** The five keys of the wire object, in the order the decoder reads them. */
  const Fields: seq<string> := [AgentNameKey, RoleKey, ContentKey, TimestampKey, MessageIdKey]

  /** Why a wire object is not a message: a key is absent (KeyError) or the
      timestamp text does not parse (ValueError). */
  datatype DecodeError = MissingField(key: string) | BadTimestamp(text: string)

  predicate HasAllFields(o: WireObject) {
    forall k :: k in Fields ==> k in o
  }

  /** The wire object for `m`: exactly the five keys, the timestamp in ISO text. When the
      timestamp codec is a true inverse pair, decoding it gives back `m`. */
  function Encode(m: ChatMessage, c: TimeCodec): (o: WireObject)
    ensures o.Keys == set k | k in Fields
    ensures HasAllFields(o)
    ensures Inverse(c) ==> Decode(o, c) == Success(m)
  {
    map[AgentNameKey := m.agentName,
        RoleKey := m.role,
        ContentKey := m.content,
        TimestampKey := c.isoformat(m.timestamp),
        MessageIdKey := m.messageId]
  }

  /** Rebuilds a message from a wire object, failing on the first absent key or on an
      unparsable timestamp, in the order the keyword arguments are evaluated. Extra keys
      are ignored. */
  function Decode(o: WireObject, c: TimeCodec): (r: Result<ChatMessage, DecodeError>)
    ensures r.Success? <==> HasAllFields(o) && c.fromisoformat(o[TimestampKey]).Some?
    ensures r.Success? ==>
              && r.value.agentName == o[AgentNameKey]
              && r.value.role == o[RoleKey]
              && r.value.content == o[ContentKey]
              && c.fromisoformat(o[TimestampKey]) == Some(r.value.timestamp)
              && r.value.messageId == o[MessageIdKey]
    ensures r.Failure? && r.error.MissingField? ==>
              exists i :: 0 <= i < |Fields| && Fields[i] == r.error.key && Fields[i] !in o
                          && forall j :: 0 <= j < i ==> Fields[j] in o
    ensures r.Failure? && r.error == MissingField(MessageIdKey) ==>
              c.fromisoformat(o[TimestampKey]).Some?
    ensures r.Failure? && r.error.BadTimestamp? ==>
              && AgentNameKey in o && RoleKey in o && ContentKey in o
              && TimestampKey in o
              && r.error.text == o[TimestampKey]
              && c.fromisoformat(o[TimestampKey]).None?
  {
    if AgentNameKey !in o then assert Fields[0] == AgentNameKey; Failure(MissingField(AgentNameKey))
    else if RoleKey !in o then assert Fields[1] == RoleKey; Failure(MissingField(RoleKey))
    else if ContentKey !in o then assert Fields[2] == ContentKey; Failure(MissingField(ContentKey))
    else if TimestampKey !in o then assert Fields[3] == TimestampKey; Failure(MissingField(TimestampKey))
    else
      match c.fromisoformat(o[TimestampKey])
      case None => Failure(BadTimestamp(o[TimestampKey]))
      case Some(t) =>
        if MessageIdKey !in o then assert Fields[4] == MessageIdKey; Failure(MissingField(MessageIdKey))
        else Success(ChatMessage(o[AgentNameKey], o[RoleKey], o[ContentKey], t, o[MessageIdKey]))
  }
}
