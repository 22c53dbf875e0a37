/** The persisted conversation: `get_chat_history` reads the last `limit` entries of the
    stored list, `save_chat_history` overwrites the whole list. */
module History {
  import opened Wrappers
  import opened Message
  import opened Sidecar

  /** `get_chat_history`'s default `limit`. */
  const DefaultLimit: int := 100

  /** Where the Python slice `xs[i:]` starts on a list of length `n`: a negative index
      counts from the end and is clamped at 0, a positive one is clamped at `n`. */
  function SliceStart(n: nat, i: int): (s: nat)
    ensures s <= n
  {
    if i < 0 then (if n + i < 0 then 0 else n + i)
    else if i > n then n
    else i
  }

  /** The Python slice `xs[-limit:]`: the last `limit` entries for a positive `limit`, the
      whole list for `limit == 0`, and the list without its first `-limit` entries for a
      negative `limit`. */
  function Window<T>(xs: seq<T>, limit: int): (w: seq<T>)
    ensures |w| <= |xs|
    ensures w == xs[|xs| - |w|..]
    ensures limit == 0 || limit >= |xs| ==> w == xs
    ensures 0 < limit <= |xs| ==> |w| == limit
    ensures limit < 0 ==> |w| == (if |xs| + limit < 0 then 0 else |xs| + limit)
  {
    xs[SliceStart(|xs|, -limit)..]
  }

  /** Decodes the entries in order, stopping at the first one that fails. */
  function DecodeAll(xs: seq<WireObject>, c: TimeCodec): (r: Result<seq<ChatMessage>, DecodeError>)
    ensures r.Success? <==> forall i :: 0 <= i < |xs| ==> Decode(xs[i], c).Success?
    ensures r.Success? ==> |r.value| == |xs|
                           && forall i :: 0 <= i < |xs| ==> Decode(xs[i], c) == Success(r.value[i])
    ensures r.Failure? ==> exists i :: 0 <= i < |xs| && Decode(xs[i], c) == Failure(r.error)
                                       && forall j :: 0 <= j < i ==> Decode(xs[j], c).Success?
    decreases |xs|
  {
    if |xs| == 0 then Success([])
    else
      match Decode(xs[0], c)
      case Failure(e) => Failure(e)
      case Success(m) =>
        match DecodeAll(xs[1..], c)
        case Failure(e) =>
          assert forall j :: 0 < j <= |xs[1..]| ==> xs[1..][j - 1] == xs[j];
          Failure(e)
        case Success(ms) => Success([m] + ms)
  }

  /** The list of wire objects `save_chat_history` serialises. */
  function EncodeAll(ms: seq<ChatMessage>, c: TimeCodec): (r: seq<WireObject>)
    ensures |r| == |ms|
    ensures forall i :: 0 <= i < |ms| ==> r[i] == Encode(ms[i], c)
    ensures Inverse(c) ==> DecodeAll(r, c) == Success(ms)
  {
    var r := seq(|ms|, i requires 0 <= i < |ms| => Encode(ms[i], c));
    assert Inverse(c) ==> DecodeAll(r, c).Success? && DecodeAll(r, c).value == ms;
    r
  }

  /** `get_chat_history(limit)`. A client that cannot be constructed raises out of the
      call; a failed read, an empty key, or any undecodable entry inside the window gives
      the empty list; entries before the window are never looked at. */
  function Load(s: SidecarState, limit: int, c: TimeCodec, io: Io): (r: Result<seq<ChatMessage>, TransportError>)
    ensures r.Success? <==> io.connects
    ensures r.Failure? ==> r.error == ConnectFailed
    ensures r.Success? && (!io.succeeds || s.history.None?) ==> r.value == []
    ensures r.Success? && s.history.Some? ==> |r.value| <= |s.history.value|
    ensures r.Success? && limit > 0 ==> |r.value| <= limit
    ensures r.Success? && |r.value| > 0 ==>
              && io.succeeds && s.history.Some?
              && DecodeAll(Window(s.history.value, limit), c) == Success(r.value)
    ensures r.Success? && io.succeeds && s.history.Some?
            && DecodeAll(Window(s.history.value, limit), c).Success? ==>
              DecodeAll(Window(s.history.value, limit), c) == Success(r.value)
    ensures r.Success? && io.succeeds && s.history.Some?
            && (exists i :: 0 <= i < |Window(s.history.value, limit)|
                            && Decode(Window(s.history.value, limit)[i], c).Failure?) ==>
              r.value == []
  {
    if !io.connects then Failure(ConnectFailed)
    else if !io.succeeds then Success([])
    else
      match s.history
      case None => Success([])
      case Some(xs) =>
        match DecodeAll(Window(xs, limit), c)
        case Failure(_) => Success([])
        case Success(ms) => Success(ms)
  }

  /** `get_chat_history()` with its default argument: never more than 100 messages, and the
      whole stored list when it holds at most that many and all of them decode. */
  function LoadDefault(s: SidecarState, c: TimeCodec, io: Io): (r: Result<seq<ChatMessage>, TransportError>)
    ensures r.Success? <==> io.connects
    ensures r.Success? ==> |r.value| <= DefaultLimit
    ensures r.Success? && io.succeeds && s.history.Some? && |s.history.value| <= DefaultLimit
            && DecodeAll(s.history.value, c).Success? ==>
              DecodeAll(s.history.value, c) == Success(r.value)
  {
    Load(s, DefaultLimit, c, io)
  }

  /** `save_chat_history(ms)`: the stored list becomes the encoding of exactly `ms`. A
      client that cannot be constructed raises; a failed write is only logged. */
  function Save(s: SidecarState, ms: seq<ChatMessage>, c: TimeCodec, io: Io): (r: Result<SidecarState, TransportError>)
    ensures r.Success? <==> io.connects
    ensures r.Failure? ==> r.error == ConnectFailed
    ensures r.Success? && !io.succeeds ==> r.value == s
    ensures r.Success? ==> r.value.outbox == s.outbox
    ensures r.Success? && io.succeeds ==> r.value.history == Some(EncodeAll(ms, c))
    ensures r.Success? && io.succeeds ==> r.value.history.Some? && |r.value.history.value| == |ms|
    ensures r.Success? && io.succeeds && Inverse(c) ==>
              forall limit :: limit == 0 || limit >= |ms| ==>
                Load(r.value, limit, c, Io(true, true)) == Success(ms)
  {
    if !io.connects then Failure(ConnectFailed)
    else if !io.succeeds then Success(s)
    else Success(s.(history := Some(EncodeAll(ms, c))))
  }

  /** Taking a window commutes with encoding each entry. */
  lemma WindowOfEncoding(ms: seq<ChatMessage>, limit: int, c: TimeCodec)
    ensures Window(EncodeAll(ms, c), limit) == EncodeAll(Window(ms, limit), c)
  {
    var w := Window(ms, limit);
    var k := |ms| - |w|;
    assert Window(EncodeAll(ms, c), limit) == EncodeAll(ms, c)[k..];
    assert forall i :: 0 <= i < |w| ==> EncodeAll(ms, c)[k..][i] == Encode(w[i], c);
  }

  /** After a successful save of `ms`, a load with any `limit` returns the same window of
      `ms` that the Python slice would take. */
  lemma SaveThenLoad(s: SidecarState, ms: seq<ChatMessage>, limit: int, c: TimeCodec)
    requires Inverse(c)
    ensures Save(s, ms, c, Io(true, true)).Success?
    ensures Load(Save(s, ms, c, Io(true, true)).value, limit, c, Io(true, true)) == Success(Window(ms, limit))
  {
    WindowOfEncoding(ms, limit, c);
    assert DecodeAll(EncodeAll(Window(ms, limit), c), c) == Success(Window(ms, limit));
  }

  /** Saving twice keeps only the second list: nothing of the first survives. */
  lemma SaveOverwrites(s: SidecarState, ms1: seq<ChatMessage>, ms2: seq<ChatMessage>, c: TimeCodec)
    ensures Save(s, ms1, c, Io(true, true)).Success?
    ensures Save(Save(s, ms1, c, Io(true, true)).value, ms2, c, Io(true, true)) == Save(s, ms2, c, Io(true, true))
  {
  }

  /** Saving [m1, m2, m3] and then loading with limit 2 gives [m2, m3]. */
  lemma LoadLastTwo(s: SidecarState, m1: ChatMessage, m2: ChatMessage, m3: ChatMessage, c: TimeCodec)
    requires Inverse(c)
    ensures Load(Save(s, [m1, m2, m3], c, Io(true, true)).value, 2, c, Io(true, true)) == Success([m2, m3])
  {
    SaveThenLoad(s, [m1, m2, m3], 2, c);
    assert Window([m1, m2, m3], 2) == [m2, m3];
  }

  /** The load result depends only on the stored entries inside the window. */
  lemma LoadReadsOnlyWindow(s: SidecarState, u: SidecarState, limit: int, c: TimeCodec, io: Io)
    requires s.history.Some? && u.history.Some?
    requires Window(s.history.value, limit) == Window(u.history.value, limit)
    ensures Load(s, limit, c, io) == Load(u, limit, c, io)
  {
  }
}
