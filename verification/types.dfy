/** The records shared by the hook, the API handlers and the components
    (types.ts), plus the small wrappers the model uses for JavaScript's
    `null`, its truthiness tests and HTTP responses. */
module Types {

  datatype Option<+T> = None | Some(value: T) {
    function GetOr(default: T): T
    {
      match this
      case Some(v) => v
      case None => default
    }
  }

  /** JavaScript truthiness of a `number | null`: both `null` and `0` are falsy. */
  predicate Truthy(n: Option<int>)
  {
    n.Some? && n.value != 0
  }

  /** JavaScript truthiness of a `string | undefined`: the empty string is falsy. */
  predicate Present(s: Option<string>)
  {
    s.Some? && s.value != ""
  }

  /** The notification levels, as the settings store and the hook spell them. */
  const FIRST := "first"
  const FIRST_TWO := "first_two"
  const ALL := "all"
  const NONE := "none"

  /** A watched transaction's status. Rows read back from the store carry
      whatever text was posted, so any other text is kept as `Other`. */
  datatype Status = Pending | Unconfirmed | Confirmed | Other(name: string)

  const PENDING := "pending"
  const UNCONFIRMED := "unconfirmed"
  const CONFIRMED := "confirmed"

  function StatusName(s: Status): string
  {
    match s
    case Pending => PENDING
    case Unconfirmed => UNCONFIRMED
    case Confirmed => CONFIRMED
    case Other(name) => name
  }

  /** A status as it is stored: `Other` only for text none of the three names. */
  predicate WellFormedStatus(s: Status)
  {
    s.Other? ==> s.name !in {PENDING, UNCONFIRMED, CONFIRMED}
  }

  /** Reads a stored status text; writing it back gives the same text. */
  function ParseStatus(name: string): (s: Status)
    ensures WellFormedStatus(s) && StatusName(s) == name
  {
    if name == PENDING then Pending
    else if name == UNCONFIRMED then Unconfirmed
    else if name == CONFIRMED then Confirmed
    else Other(name)
  }

  /** Writing a well-formed status and reading it back gives the same status. */
  lemma StatusRoundTrip(s: Status)
    requires WellFormedStatus(s)
    ensures ParseStatus(StatusName(s)) == s
  {
  }

  /** `WatchedTransaction`: types.ts names the height `blockHeight`, the hook
      and the store `block_height`; the model uses `blockHeight` throughout. */
  datatype WatchedTx = WatchedTx(id: string, status: Status, confirmations: int, blockHeight: Option<int>)

  /** The `status` object of the provider's transaction record, which is all a
      lookup contributes to the model. */
  datatype TxStatus = TxStatus(confirmed: bool, blockHeight: Option<int>)

  /** A row as `GET /api/transactions` returns it. */
  datatype RowView = RowView(id: string, status: string, confirmations: int, blockHeight: Option<int>)

  /** The HTTP method of a request to an API route, as the handlers compare
      `req.method`: `OtherMethod` stands for any verb other than `GET`,
      `POST` and `DELETE`. */
  datatype Method = Get | Post | Delete | OtherMethod(name: string)

  /** The JSON body of a response, by kind; message texts are not modelled. */
  datatype Body =
    | Message
    | Rows(rows: seq<RowView>)
    | Settings(chatId: string, botToken: string, notificationLevel: string)
    | NotAllowed(allow: seq<string>)

  datatype Response = Response(code: int, body: Body)
}
