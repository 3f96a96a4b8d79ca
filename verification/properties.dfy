/**
 * What the background page's message handler promises, stated over
 * `Background.Dispatch` (one message) and `Run` (the messages of one port,
 * in arrival order, each handled to completion before the next).
 */
module BackgroundProperties {
  import opened Wrappers
  import opened Protocol
  import opened StoreLog
  import opened Background

  /** The step that handles one message: the flag and buffer it leaves, and its calls. */
  type Step = (bool, ChunkBuffer, Msg) -> Effect

  /** Messages handled in order by `step`, each from the state the previous one left. */
  function Fold(step: Step, popup: bool, buffer: ChunkBuffer, msgs: seq<Msg>): Effect
    decreases |msgs|
  {
    if msgs == [] then Effect(popup, buffer, [])
    else
      var first := step(popup, buffer, msgs[0]);
      var rest := Fold(step, first.popup, first.buffer, msgs[1..]);
      Effect(rest.popup, rest.buffer, first.calls + rest.calls)
  }

  /** A port's messages handled in order, each with the full call-stack budget. */
  function Run(
    ctx: Context, parse: Text -> Option<Msg>,
    popup: bool, buffer: ChunkBuffer, msgs: seq<Msg>, depth: nat): Effect
  {
    Fold((p, buf, m) => Dispatch(ctx, parse, p, buf, m, depth), popup, buffer, msgs)
  }

  /** Handling a non-empty run is handling its first message, then the rest. */
  lemma RunCons(
    ctx: Context, parse: Text -> Option<Msg>,
    popup: bool, buffer: ChunkBuffer, msgs: seq<Msg>, depth: nat)
    requires msgs != []
    ensures var first := Dispatch(ctx, parse, popup, buffer, msgs[0], depth);
      var rest := Run(ctx, parse, first.popup, first.buffer, msgs[1..], depth);
      Run(ctx, parse, popup, buffer, msgs, depth) == Effect(rest.popup, rest.buffer, first.calls + rest.calls)
  {
  }

  // ---- one message, by action ----

  /** A message with no action, or an unknown one, changes nothing and calls nothing. */
  lemma IgnoredMessageChangesNothing(
    ctx: Context, parse: Text -> Option<Msg>,
    popup: bool, buffer: ChunkBuffer, msg: Msg, depth: nat)
    requires msg.NoAction? || msg.Unknown?
    ensures Dispatch(ctx, parse, popup, buffer, msg, depth) == Effect(popup, buffer, [])
  {
  }

  /** UPDATE hands the whole message to the store under this port's connection id. */
  lemma UpdateProcessesMessage(
    ctx: Context, parse: Text -> Option<Msg>,
    popup: bool, buffer: ChunkBuffer, msg: Msg, depth: nat)
    requires msg.Update?
    ensures Dispatch(ctx, parse, popup, buffer, msg, depth)
      == Effect(popup, buffer, [ProcessMessage(msg, ctx.connectionId)])
  {
  }

  /** INIT connects with the fields of `data`, each undefined when missing. */
  lemma InitConnects(
    ctx: Context, parse: Text -> Option<Msg>,
    popup: bool, buffer: ChunkBuffer, data: Option<InitData>, depth: nat)
    ensures var r := Dispatch(ctx, parse, popup, buffer, Init(data), depth);
      && r.popup == popup && r.buffer == buffer && |r.calls| == 1
      && r.calls[0].Connect?
      && r.calls[0].connectionId == ctx.connectionId
      && r.calls[0].displayName == ctx.displayName
      && r.calls[0].port == ctx.port
      && (data.None? ==>
            r.calls[0].persistenceLimit.None? && r.calls[0].initialValues.None? && r.calls[0].devMode.None?)
      && (data.Some? ==>
            && r.calls[0].persistenceLimit == data.value.persistenceLimit
            && r.calls[0].initialValues == data.value.initialValues
            && r.calls[0].devMode == data.value.devMode)
  {
  }

  /** SUBSCRIBE_POPUP marks the port as a popup and subscribes it. */
  lemma SubscribeMarksPopup(
    ctx: Context, parse: Text -> Option<Msg>,
    popup: bool, buffer: ChunkBuffer, depth: nat)
    ensures Dispatch(ctx, parse, popup, buffer, SubscribePopup, depth)
      == Effect(true, buffer, [Subscribe(ctx.port)])
  {
  }

  /** A non-final chunk is appended to its transfer's text; nothing else changes. */
  lemma NonFinalChunkAppends(
    ctx: Context, parse: Text -> Option<Msg>,
    popup: bool, buffer: ChunkBuffer, tx: TxId, chunk: Option<Text>, depth: nat)
    ensures var r := Dispatch(ctx, parse, popup, buffer, UploadChunk(tx, chunk, false), depth);
      && r.popup == popup && r.calls == []
      && tx in r.buffer && r.buffer[tx] == Stored(buffer, tx) + chunk.GetOr([])
      && r.buffer.Keys == buffer.Keys + {tx}
      && (forall t | t in buffer && t != tx :: r.buffer[t] == buffer[t])
  {
  }

  /**
   * After a final chunk its transfer has no buffer entry, whatever the
   * parse and the nested dispatch did; when the parse fails or the nested
   * call overflows the stack, nothing else changes and nothing is called.
   */
  lemma FinalChunkReleasesBuffer(
    ctx: Context, parse: Text -> Option<Msg>,
    popup: bool, buffer: ChunkBuffer, tx: TxId, chunk: Option<Text>, depth: nat)
    ensures var r := Dispatch(ctx, parse, popup, buffer, UploadChunk(tx, chunk, true), depth);
      && tx !in r.buffer
      && (parse(Stored(buffer, tx) + chunk.GetOr([])).None? || depth == 0 ==>
            r == Effect(popup, buffer - {tx}, []))
  {
  }

  // ---- the popup flag ----

  /** The popup flag ends up set exactly when it was set or the port subscribed. */
  lemma {:induction false} PopupIffSubscribed(
    ctx: Context, parse: Text -> Option<Msg>,
    popup: bool, buffer: ChunkBuffer, msg: Msg, depth: nat)
    ensures var r := Dispatch(ctx, parse, popup, buffer, msg, depth);
      r.popup <==> popup || Subscribe(ctx.port) in r.calls
    decreases depth
  {
    match msg
    case UploadChunk(tx, chunk, true) =>
      var soFar := Stored(buffer, tx) + chunk.GetOr([]);
      var parsed := parse(soFar);
      if parsed.Some? && depth > 0 {
        PopupIffSubscribed(ctx, parse, popup, buffer[tx := soFar], parsed.value, depth - 1);
      }
    case _ =>
  }

  /**
   * Over any run of messages the flag is never reset, and it ends up set
   * exactly when it was set or the run subscribed this port.
   */
  lemma {:induction false} RunPopupIffSubscribed(
    ctx: Context, parse: Text -> Option<Msg>,
    popup: bool, buffer: ChunkBuffer, msgs: seq<Msg>, depth: nat)
    ensures var r := Run(ctx, parse, popup, buffer, msgs, depth);
      && (popup ==> r.popup)
      && (r.popup <==> popup || Subscribe(ctx.port) in r.calls)
    decreases |msgs|
  {
    if msgs != [] {
      var first := Dispatch(ctx, parse, popup, buffer, msgs[0], depth);
      PopupIffSubscribed(ctx, parse, popup, buffer, msgs[0], depth);
      RunPopupIffSubscribed(ctx, parse, first.popup, first.buffer, msgs[1..], depth);
    }
  }

  /** Messages make at most one store call each, all for this port, never a disconnect. */
  lemma {:induction false} RunCallsFromHandler(
    ctx: Context, parse: Text -> Option<Msg>,
    popup: bool, buffer: ChunkBuffer, msgs: seq<Msg>, depth: nat)
    ensures var r := Run(ctx, parse, popup, buffer, msgs, depth);
      && |r.calls| <= |msgs|
      && (forall c | c in r.calls :: IssuedByHandler(ctx, c))
      && Unsubscribe(ctx.port) !in r.calls
      && Disconnect(ctx.connectionId) !in r.calls
    decreases |msgs|
  {
    if msgs != [] {
      var first := Dispatch(ctx, parse, popup, buffer, msgs[0], depth);
      RunCallsFromHandler(ctx, parse, first.popup, first.buffer, msgs[1..], depth);
    }
  }

  /**
   * A port that starts as a page connection and then receives `msgs`:
   * its disconnection unsubscribes it if those messages subscribed it,
   * and disconnects its connection otherwise.
   */
  lemma DisconnectAfterRun(
    ctx: Context, parse: Text -> Option<Msg>,
    buffer: ChunkBuffer, msgs: seq<Msg>, depth: nat)
    ensures var r := Run(ctx, parse, false, buffer, msgs, depth);
      DisconnectCalls(ctx, r.popup)
        == if Subscribe(ctx.port) in r.calls then [Unsubscribe(ctx.port)] else [Disconnect(ctx.connectionId)]
  {
    RunPopupIffSubscribed(ctx, parse, false, buffer, msgs, depth);
  }

  // ---- chunk reassembly ----

  /** Folding over `a + b` is folding over `a`, then over `b` from where `a` left off. */
  lemma {:induction false} FoldAppend(step: Step, popup: bool, buffer: ChunkBuffer, a: seq<Msg>, b: seq<Msg>)
    ensures var ra := Fold(step, popup, buffer, a);
      var rb := Fold(step, ra.popup, ra.buffer, b);
      Fold(step, popup, buffer, a + b) == Effect(rb.popup, rb.buffer, ra.calls + rb.calls)
    decreases |a|
  {
    if a == [] {
      assert a + b == b;
    } else {
      var first := step(popup, buffer, a[0]);
      assert (a + b)[0] == a[0];
      assert (a + b)[1..] == a[1..] + b;
      FoldAppend(step, first.popup, first.buffer, a[1..], b);
      var rest := Fold(step, first.popup, first.buffer, a[1..]);
      var rb := Fold(step, rest.popup, rest.buffer, b);
      assert first.calls + (rest.calls + rb.calls) == (first.calls + rest.calls) + rb.calls;
    }
  }

  /** Handling `a + b` is handling `a`, then `b` from where `a` left off. */
  lemma RunAppend(
    ctx: Context, parse: Text -> Option<Msg>,
    popup: bool, buffer: ChunkBuffer, a: seq<Msg>, b: seq<Msg>, depth: nat)
    ensures var ra := Run(ctx, parse, popup, buffer, a, depth);
      var rb := Run(ctx, parse, ra.popup, ra.buffer, b, depth);
      Run(ctx, parse, popup, buffer, a + b, depth) == Effect(rb.popup, rb.buffer, ra.calls + rb.calls)
  {
    FoldAppend((p, buf, m) => Dispatch(ctx, parse, p, buf, m, depth), popup, buffer, a, b);
  }

  /** Two buffers that agree on every other transfer agree once `tx` is set in both. */
  lemma UpdateSameElsewhere(b1: ChunkBuffer, b2: ChunkBuffer, tx: TxId, text: Text)
    requires b1 - {tx} == b2 - {tx}
    ensures b1[tx := text] == b2[tx := text]
  {
    var u1, u2 := b1[tx := text], b2[tx := text];
    assert u1.Keys == u2.Keys by {
      assert b1.Keys == (b1 - {tx}).Keys + {tx} || b1.Keys == (b1 - {tx}).Keys;
      assert b2.Keys == (b2 - {tx}).Keys + {tx} || b2.Keys == (b2 - {tx}).Keys;
    }
    forall t | t in u1
      ensures u1[t] == u2[t]
    {
      if t != tx {
        assert b1[t] == (b1 - {tx})[t];
      }
    }
  }

  /** The texts of a transfer's chunks, joined in order. */
  function Concat(chunks: seq<Text>): Text {
    if chunks == [] then [] else chunks[0] + Concat(chunks[1..])
  }

  /** The UPLOAD_CHUNK messages of a transfer, none of them final. */
  function NonFinalChunks(tx: TxId, chunks: seq<Text>): (msgs: seq<Msg>)
    ensures |msgs| == |chunks|
    ensures forall i | 0 <= i < |chunks| :: msgs[i] == UploadChunk(tx, Some(chunks[i]), false)
  {
    if chunks == [] then [] else [UploadChunk(tx, Some(chunks[0]), false)] + NonFinalChunks(tx, chunks[1..])
  }

  /** Non-final chunks only extend their transfer's text, in order, and call nothing. */
  lemma {:induction false} NonFinalChunksAccumulate(
    ctx: Context, parse: Text -> Option<Msg>,
    popup: bool, buffer: ChunkBuffer, tx: TxId, chunks: seq<Text>, depth: nat)
    ensures var r := Run(ctx, parse, popup, buffer, NonFinalChunks(tx, chunks), depth);
      && r.popup == popup && r.calls == []
      && Stored(r.buffer, tx) == Stored(buffer, tx) + Concat(chunks)
      && r.buffer - {tx} == buffer - {tx}
    decreases |chunks|
  {
    var msgs := NonFinalChunks(tx, chunks);
    if chunks != [] {
      var next := buffer[tx := Stored(buffer, tx) + chunks[0]];
      var m := UploadChunk(tx, Some(chunks[0]), false);
      assert msgs[0] == m && msgs[1..] == NonFinalChunks(tx, chunks[1..]);
      assert Dispatch(ctx, parse, popup, buffer, m, depth) == Effect(popup, next, []);
      RunCons(ctx, parse, popup, buffer, msgs, depth);
      NonFinalChunksAccumulate(ctx, parse, popup, next, tx, chunks[1..], depth);
      AppendFirstChunk(buffer, tx, chunks, Run(ctx, parse, popup, next, msgs[1..], depth).buffer);
    }
  }

  /** One chunk appended, then the rest: together, all of them appended in order. */
  lemma AppendFirstChunk(buffer: ChunkBuffer, tx: TxId, chunks: seq<Text>, after: ChunkBuffer)
    requires chunks != []
    requires var next := buffer[tx := Stored(buffer, tx) + chunks[0]];
      && Stored(after, tx) == Stored(next, tx) + Concat(chunks[1..])
      && after - {tx} == next - {tx}
    ensures Stored(after, tx) == Stored(buffer, tx) + Concat(chunks)
    ensures after - {tx} == buffer - {tx}
  {
    var old_text := Stored(buffer, tx);
    var next := buffer[tx := old_text + chunks[0]];
    assert Stored(next, tx) == old_text + chunks[0];
    assert Concat(chunks) == chunks[0] + Concat(chunks[1..]);
    ConcatAssoc(old_text, chunks[0], Concat(chunks[1..]));
    UpdateThenRemove(buffer, tx, old_text + chunks[0]);
  }

  /** Joining texts is associative. */
  lemma ConcatAssoc(a: Text, b: Text, c: Text)
    ensures (a + b) + c == a + (b + c)
  {
  }

  /** Setting an entry and then removing it leaves the other entries as they were. */
  lemma UpdateThenRemove(buffer: ChunkBuffer, tx: TxId, text: Text)
    ensures buffer[tx := text] - {tx} == buffer - {tx}
  {
  }

  /**
   * A transfer sent as chunks `chunks` followed by a final chunk `last`,
   * starting with no entry for it: the whole text is parsed once and the
   * result dispatched, with the buffer entry present during that dispatch
   * and gone afterwards. If the parse fails (or the nested call has no
   * stack left), the run calls nothing and leaves the state as it found it.
   */
  lemma ChunkedDelivery(
    ctx: Context, parse: Text -> Option<Msg>,
    popup: bool, buffer: ChunkBuffer, tx: TxId, chunks: seq<Text>, last: Text, depth: nat)
    requires tx !in buffer
    ensures var text := Concat(chunks) + last;
      var r := Run(ctx, parse, popup, buffer, NonFinalChunks(tx, chunks) + [UploadChunk(tx, Some(last), true)], depth);
      if parse(text).None? || depth == 0 then
        r == Effect(popup, buffer, [])
      else
        var e := Dispatch(ctx, parse, popup, buffer[tx := text], parse(text).value, depth - 1);
        r == Effect(e.popup, e.buffer - {tx}, e.calls)
  {
    var text := Concat(chunks) + last;
    var finalMsg := UploadChunk(tx, Some(last), true);
    RunAppend(ctx, parse, popup, buffer, NonFinalChunks(tx, chunks), [finalMsg], depth);
    NonFinalChunksAccumulate(ctx, parse, popup, buffer, tx, chunks, depth);
    var accumulated := Run(ctx, parse, popup, buffer, NonFinalChunks(tx, chunks), depth).buffer;
    RunCons(ctx, parse, popup, accumulated, [finalMsg], depth);
    assert [finalMsg][1..] == [];
    FinalChunkCompletes(ctx, parse, popup, buffer, accumulated, tx, Concat(chunks), last, depth);
  }

  /**
   * The final chunk of a transfer whose entry holds `prefix`, on a buffer
   * that otherwise agrees with `buffer` (which has no entry for it).
   */
  lemma FinalChunkCompletes(
    ctx: Context, parse: Text -> Option<Msg>,
    popup: bool, buffer: ChunkBuffer, accumulated: ChunkBuffer, tx: TxId, prefix: Text, last: Text, depth: nat)
    requires tx !in buffer
    requires accumulated - {tx} == buffer - {tx}
    requires Stored(accumulated, tx) == prefix
    ensures var text := prefix + last;
      var r := Dispatch(ctx, parse, popup, accumulated, UploadChunk(tx, Some(last), true), depth);
      if parse(text).None? || depth == 0 then
        r == Effect(popup, buffer, [])
      else
        var e := Dispatch(ctx, parse, popup, buffer[tx := text], parse(text).value, depth - 1);
        r == Effect(e.popup, e.buffer - {tx}, e.calls)
  {
    var text := prefix + last;
    UpdateSameElsewhere(accumulated, buffer, tx, text);
    assert buffer[tx := text] - {tx} == buffer;
  }

  /**
   * Chunking is invisible: a message other than a chunk upload, sent in
   * chunks that parse to it, has exactly the effect of sending it whole.
   */
  lemma ChunkedEqualsUnchunked(
    ctx: Context, parse: Text -> Option<Msg>,
    popup: bool, buffer: ChunkBuffer, tx: TxId, chunks: seq<Text>, last: Text, m: Msg, depth: nat)
    requires tx !in buffer
    requires parse(Concat(chunks) + last) == Some(m)
    requires !m.UploadChunk?
    requires depth > 0
    ensures Run(ctx, parse, popup, buffer, NonFinalChunks(tx, chunks) + [UploadChunk(tx, Some(last), true)], depth)
      == Dispatch(ctx, parse, popup, buffer, m, depth)
  {
    var text := Concat(chunks) + last;
    ChunkedDelivery(ctx, parse, popup, buffer, tx, chunks, last, depth);
    assert buffer[tx := text] - {tx} == buffer;
  }

  /**
   * Chunking is not invisible for a nested upload on the same transfer: the
   * entry is deleted only after the nested dispatch, so the nested upload
   * appends to the whole text still buffered. A transfer whose text parses
   * to a non-final upload of `c` on the same transfer leaves no entry behind,
   * while that upload sent whole leaves the entry `c`.
   */
  lemma ChunkedNonFinalUploadDiffers(
    ctx: Context, parse: Text -> Option<Msg>,
    popup: bool, buffer: ChunkBuffer, tx: TxId, chunks: seq<Text>, last: Text, c: Text, depth: nat)
    requires tx !in buffer
    requires parse(Concat(chunks) + last) == Some(UploadChunk(tx, Some(c), false))
    requires depth > 0
    ensures Run(ctx, parse, popup, buffer, NonFinalChunks(tx, chunks) + [UploadChunk(tx, Some(last), true)], depth)
      == Effect(popup, buffer, [])
    ensures Dispatch(ctx, parse, popup, buffer, UploadChunk(tx, Some(c), false), depth)
      == Effect(popup, buffer[tx := c], [])
  {
    var text := Concat(chunks) + last;
    ChunkedDelivery(ctx, parse, popup, buffer, tx, chunks, last, depth);
    UpdateThenRemove(buffer[tx := text], tx, text + c);
    assert buffer[tx := text][tx := text + c] == buffer[tx := text + c];
    UpdateThenRemove(buffer, tx, text + c);
    assert buffer - {tx} == buffer;
    assert Stored(buffer, tx) + c == c;
  }

  /**
   * The same with a final nested upload of `c`: the nested call parses the
   * buffered text followed by `c`, not `c` alone. When only `c` parses, to
   * SUBSCRIBE_POPUP, the chunked transfer makes no store call while the
   * upload sent whole subscribes the port.
   */
  lemma ChunkedFinalUploadDiffers(
    ctx: Context, parse: Text -> Option<Msg>,
    popup: bool, buffer: ChunkBuffer, tx: TxId, chunks: seq<Text>, last: Text, c: Text, depth: nat)
    requires tx !in buffer
    requires parse(Concat(chunks) + last) == Some(UploadChunk(tx, Some(c), true))
    requires parse(Concat(chunks) + last + c) == None
    requires parse(c) == Some(SubscribePopup)
    requires depth > 0
    ensures Run(ctx, parse, popup, buffer, NonFinalChunks(tx, chunks) + [UploadChunk(tx, Some(last), true)], depth).calls
      == []
    ensures Dispatch(ctx, parse, popup, buffer, UploadChunk(tx, Some(c), true), depth).calls
      == [Subscribe(ctx.port)]
  {
    var text := Concat(chunks) + last;
    ChunkedDelivery(ctx, parse, popup, buffer, tx, chunks, last, depth);
    assert Stored(buffer[tx := text], tx) + c == text + c;
    assert Stored(buffer, tx) + c == c;
  }

  /**
   * A final chunk whose text parses to a final, empty chunk upload on the
   * same transfer recurses on itself: every nested call finds the same text
   * still buffered and parses it again, so only the call-stack limit stops
   * it. Whatever the budget, the overflow is caught, no store call is made
   * and the transfer's entry is gone.
   */
  lemma {:induction false} SelfReproducingChunk(
    ctx: Context, parse: Text -> Option<Msg>,
    popup: bool, buffer: ChunkBuffer, tx: TxId, text: Text, depth: nat)
    requires tx !in buffer
    requires parse(text) == Some(UploadChunk(tx, None, true))
    ensures Dispatch(ctx, parse, popup, buffer, UploadChunk(tx, Some(text), true), depth)
      == Effect(popup, buffer, [])
  {
    var buffered := buffer[tx := Stored(buffer, tx) + text];
    assert Stored(buffer, tx) + text == text;
    if depth > 0 {
      ReparsesBufferedText(ctx, parse, popup, buffered, tx, text, depth - 1);
    }
    assert buffered - {tx} == buffer;
  }

  /** The nested step of `SelfReproducingChunk`: the text is already buffered. */
  lemma {:induction false} ReparsesBufferedText(
    ctx: Context, parse: Text -> Option<Msg>,
    popup: bool, buffer: ChunkBuffer, tx: TxId, text: Text, depth: nat)
    requires tx in buffer && buffer[tx] == text
    requires parse(text) == Some(UploadChunk(tx, None, true))
    ensures Dispatch(ctx, parse, popup, buffer, UploadChunk(tx, None, true), depth)
      == Effect(popup, buffer - {tx}, [])
    decreases depth
  {
    assert Stored(buffer, tx) + [] == text;
    assert buffer[tx := text] == buffer;
    if depth > 0 {
      ReparsesBufferedText(ctx, parse, popup, buffer, tx, text, depth - 1);
    }
  }
}
