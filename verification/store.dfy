/**
 * The transaction store, seen from the background page: only the calls made
 * on it. Its internals (transaction log, eviction, lookups) are not part of
 * this model; every method just records the call it received.
 */
module StoreLog {
  import opened Wrappers
  import opened Protocol

  /** One call made on the store. */
  datatype StoreCall =
    | ProcessMessage(msg: Msg, connectionId: int)
    | Connect(
        connectionId: int,
        persistenceLimit: Option<Json>,
        initialValues: Option<Json>,
        displayName: string,
        devMode: Option<Json>,
        port: Port)
    | Subscribe(port: Port)
    | Unsubscribe(port: Port)
    | Disconnect(connectionId: int)

  class Store {
    /** Every call made on the store so far, oldest first. */
    ghost var calls: seq<StoreCall>

    constructor ()
      ensures calls == []
    {
      calls := [];
    }

    method ProcessMessage(msg: Msg, connectionId: int)
      modifies this
      ensures calls == old(calls) + [StoreCall.ProcessMessage(msg, connectionId)]
    {
      calls := calls + [StoreCall.ProcessMessage(msg, connectionId)];
    }

    method Connect(
      connectionId: int,
      persistenceLimit: Option<Json>,
      initialValues: Option<Json>,
      displayName: string,
      devMode: Option<Json>,
      port: Port)
      modifies this
      ensures calls == old(calls) +
        [StoreCall.Connect(connectionId, persistenceLimit, initialValues, displayName, devMode, port)]
    {
      calls := calls +
        [StoreCall.Connect(connectionId, persistenceLimit, initialValues, displayName, devMode, port)];
    }

    method Subscribe(port: Port)
      modifies this
      ensures calls == old(calls) + [StoreCall.Subscribe(port)]
    {
      calls := calls + [StoreCall.Subscribe(port)];
    }

    method Unsubscribe(port: Port)
      modifies this
      ensures calls == old(calls) + [StoreCall.Unsubscribe(port)]
    {
      calls := calls + [StoreCall.Unsubscribe(port)];
    }

    method Disconnect(connectionId: int)
      modifies this
      ensures calls == old(calls) + [StoreCall.Disconnect(connectionId)]
    {
      calls := calls + [StoreCall.Disconnect(connectionId)];
    }
  }
}
