/**
 * The messages a page or a devtools popup posts to the background page, and
 * the extension port they arrive on.
 *
 * A message is a JSON value whose `action` field selects what the background
 * page does with it. The model decodes that field once, into the variant of
 * `Msg`; the handler reads no other field of an UPDATE message and forwards
 * it unchanged to the store.
 */
module Protocol {
  import opened Wrappers

  /** A JSON value (numbers are modelled as integers). */
  datatype Json =
    | JNull
    | JBool(b: bool)
    | JNumber(n: int)
    | JString(s: string)
    | JArray(items: seq<Json>)
    | JObject(fields: map<string, Json>)

  /** A UTF-16 code unit: JavaScript strings are sequences of these. */
  newtype CodeUnit = x: int | 0 <= x < 0x1_0000

  /** The text of a chunk, as a JavaScript string. */
  type Text = seq<CodeUnit>

  /** The key of one chunked transfer. */
  type TxId = int

  /**
   * The `data` object of an INIT message. `None` is a missing field
   * (`undefined`); a field present as `null` is `Some(JNull)`.
   */
  datatype InitData = InitData(
    persistenceLimit: Option<Json>,
    initialValues: Option<Json>,
    devMode: Option<Json>)

  /** What `msg.data?.f` reads when the message carries no `data` at all. */
  const NO_INIT_DATA := InitData(None, None, None)

  /** An `action` value that is present: neither null nor undefined. */
  type PresentAction = j: Json | !j.JNull? witness JBool(false)

  /**
   * A message, by its `action` field. `Unknown` is an action that is present
   * but none of the four the background page knows; `NoAction` is a message
   * that is null, is not an object, or whose `action` is null or undefined.
   * `chunk` is the chunk's text as the `+` at the join would convert it
   * (a number 5 becomes "5"). `isFinalChunk` is the truthiness of the
   * message's field of that name.
   */
  datatype Msg =
    | Update(body: map<string, Json>)
    | Init(data: Option<InitData>)
    | SubscribePopup
    | UploadChunk(txID: TxId, chunk: Option<Text>, isFinalChunk: bool)
    | Unknown(action: PresentAction)
    | NoAction

  datatype Tab = Tab(id: Option<int>)

  datatype MessageSender = MessageSender(tab: Option<Tab>)

  /** A browser extension port: an object, compared by identity. */
  class Port {
    const name: Option<string>
    const sender: Option<MessageSender>

    constructor (name: Option<string>, sender: Option<MessageSender>)
      ensures this.name == name && this.sender == sender
    {
      this.name := name;
      this.sender := sender;
    }
  }
}
