/**
 * The background page's per-port message handler.
 *
 * Each port that connects gets its own handler with two pieces of state: a
 * chunk buffer (transfer id to the text received so far) and a flag saying
 * whether the port is a popup subscriber. `Dispatch` says what one message
 * does to that state and which store calls it makes; `Handler.Handle` is the
 * handler itself and is proved to do exactly that.
 *
 * JSON.parse is a parameter of the handler (`None` when it throws). A final
 * chunk re-dispatches the parsed message through the same handler; `depth`
 * is the call-stack budget left for that recursion. A nested call made with
 * no budget left throws a stack overflow, which the enclosing final chunk
 * catches just like a parse failure.
 */
module Background {
  import opened Wrappers
  import opened Protocol
  import opened StoreLog

  const DEFAULT_CONNECTION_NAME := "Recoil Connection"

  /** The port's tab id, or 0 for a port without one (a devtools page). */
  function ConnectionId(port: Port): (id: int)
    ensures port.sender.Some? && port.sender.value.tab.Some? && port.sender.value.tab.value.id.Some?
      ==> id == port.sender.value.tab.value.id.value
    ensures port.sender.None? || port.sender.value.tab.None? || port.sender.value.tab.value.id.None?
      ==> id == 0
  {
    match port.sender
    case Some(MessageSender(Some(Tab(Some(tabId))))) => tabId
    case _ => 0
  }

  /** The port's name, or the default name when it has none (an empty name is kept). */
  function ConnectionName(port: Port): (name: string)
    ensures port.name.Some? ==> name == port.name.value
    ensures port.name.None? ==> name == DEFAULT_CONNECTION_NAME
  {
    port.name.GetOr(DEFAULT_CONNECTION_NAME)
  }

  /** What a handler knows about its own port, fixed when the port connects. */
  datatype Context = Context(connectionId: int, displayName: string, port: Port)

  type ChunkBuffer = map<TxId, Text>

  /** The handler's state after a message, and the store calls made on the way. */
  datatype Effect = Effect(popup: bool, buffer: ChunkBuffer, calls: seq<StoreCall>)

  /** The text buffered so far for a transfer; the empty string when it has no entry. */
  function Stored(buffer: ChunkBuffer, tx: TxId): Text {
    if tx in buffer then buffer[tx] else []
  }

  /** The store calls a message handler may make for its own port. */
  predicate IssuedByHandler(ctx: Context, c: StoreCall) {
    match c
    case ProcessMessage(m, id) => m.Update? && id == ctx.connectionId
    case Connect(id, _, _, name, _, p) => id == ctx.connectionId && name == ctx.displayName && p == ctx.port
    case Subscribe(p) => p == ctx.port
    case _ => false
  }

  /**
   * One message handled with call-stack budget `depth`. Whatever arrives,
   * at most one store call is made, all of them for this handler's port,
   * and a popup flag once set stays set.
   */
  function Dispatch(
    ctx: Context, parse: Text -> Option<Msg>,
    popup: bool, buffer: ChunkBuffer, msg: Msg, depth: nat): (r: Effect)
    ensures |r.calls| <= 1
    ensures popup ==> r.popup
    ensures forall c | c in r.calls :: IssuedByHandler(ctx, c)
    decreases depth
  {
    match msg
    case Update(_) => Effect(popup, buffer, [ProcessMessage(msg, ctx.connectionId)])
    case Init(data) =>
      var d := data.GetOr(NO_INIT_DATA);
      Effect(popup, buffer,
        [Connect(ctx.connectionId, d.persistenceLimit, d.initialValues, ctx.displayName, d.devMode, ctx.port)])
    case SubscribePopup => Effect(true, buffer, [Subscribe(ctx.port)])
    case UploadChunk(tx, chunk, isFinal) =>
      var soFar := Stored(buffer, tx) + chunk.GetOr([]);
      var buffered := buffer[tx := soFar];
      if !isFinal then
        Effect(popup, buffered, [])
      else
        var parsed := parse(soFar);
        var nested :=
          if parsed.Some? && depth > 0
          then Dispatch(ctx, parse, popup, buffered, parsed.value, depth - 1)
          else Effect(popup, buffered, []);
        Effect(nested.popup, nested.buffer - {tx}, nested.calls)
    case Unknown(_) => Effect(popup, buffer, [])
    case NoAction => Effect(popup, buffer, [])
  }

  /** The store call a port's disconnection makes: popups unsubscribe, pages disconnect. */
  function DisconnectCalls(ctx: Context, popup: bool): (r: seq<StoreCall>)
    ensures |r| == 1
    ensures popup ==> r[0] == Unsubscribe(ctx.port)
    ensures !popup ==> r[0] == Disconnect(ctx.connectionId)
  {
    if popup then [Unsubscribe(ctx.port)] else [Disconnect(ctx.connectionId)]
  }

  /** The handler that `onConnect` sets up for one port. */
  class Handler {
    const store: Store
    const port: Port
    const connectionId: int
    const displayName: string
    const parse: Text -> Option<Msg>
    var isPopupConnection: bool
    var chunksBuffer: ChunkBuffer

    function Ctx(): Context {
      Context(connectionId, displayName, port)
    }

    /** A port connects: its id and name are read, its state starts empty. */
    constructor (store: Store, port: Port, parse: Text -> Option<Msg>)
      ensures this.store == store && this.port == port && this.parse == parse
      ensures connectionId == ConnectionId(port) && displayName == ConnectionName(port)
      ensures !isPopupConnection && chunksBuffer == map[]
    {
      this.store := store;
      this.port := port;
      this.parse := parse;
      connectionId := ConnectionId(port);
      displayName := ConnectionName(port);
      isPopupConnection := false;
      chunksBuffer := map[];
    }

    /** A message arrives on the port (or is re-dispatched after reassembly). */
    method Handle(msg: Msg, depth: nat)
      modifies this, store
      ensures var e := Dispatch(Ctx(), parse, old(isPopupConnection), old(chunksBuffer), msg, depth);
        && isPopupConnection == e.popup
        && chunksBuffer == e.buffer
        && store.calls == old(store.calls) + e.calls
      decreases depth
    {
      match msg {
        case NoAction =>
        case Unknown(_) =>
        case Update(_) =>
          store.ProcessMessage(msg, connectionId);
        case Init(data) =>
          var d := data.GetOr(NO_INIT_DATA);
          store.Connect(connectionId, d.persistenceLimit, d.initialValues, displayName, d.devMode, port);
        case SubscribePopup =>
          isPopupConnection := true;
          store.Subscribe(port);
        case UploadChunk(txID, chunk, isFinalChunk) =>
          var chunkSoFar := Stored(chunksBuffer, txID) + chunk.GetOr([]);
          chunksBuffer := chunksBuffer[txID := chunkSoFar];
          if isFinalChunk {
            var data := parse(chunkSoFar);
            if data.Some? && depth > 0 {
              Handle(data.value, depth - 1);
            }
            // Otherwise JSON.parse or the nested call threw; the error is only logged.
            chunksBuffer := chunksBuffer - {txID};
          }
      }
    }

    /** The port disconnects. The chunk buffer is left as it is. */
    method OnDisconnect()
      modifies store
      ensures store.calls == old(store.calls) + DisconnectCalls(Ctx(), isPopupConnection)
      ensures chunksBuffer == old(chunksBuffer) && isPopupConnection == old(isPopupConnection)
    {
      if isPopupConnection {
        store.Unsubscribe(port);
      } else {
        store.Disconnect(connectionId);
      }
    }
  }
}
