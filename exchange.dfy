/**
 * What both widgets share: the response shape of the verification endpoint,
 * the network exchange as an input (the model has no network), the request
 * body, the kinds of result shown to the user, and the log of effects a
 * submission leaves behind (the POST, the storage and cookie writes, and the
 * delayed navigation).
 */
module Exchange {
  import opened Text

  datatype Option<+T> = None | Some(value: T)

  /** The `data` object of a response. Optional fields are None when absent. */
  datatype CardInfo = CardInfo(
    cardKey: string,
    status: int,
    useTime: string,
    cardType: string,          // "time" or "count" by contract; the server may send anything
    expireTime: Option<string>,
    duration: Option<int>,
    remainingCount: Option<int>,
    totalCount: Option<int>,
    deviceId: string,
    allowReverify: int)

  /** The JSON body of a response: `code == 0` means the card was accepted. */
  datatype VerifyResponse = VerifyResponse(code: int, message: string, data: Option<CardInfo>)

  /** What `response.json()` yields: the parsed body, or the error it throws. */
  datatype Body = Malformed(error: string) | Parsed(response: VerifyResponse)

  /**
   * One POST to the endpoint: `fetch` rejected with an error message, or a
   * response arrived with an HTTP status and a body.
   */
  datatype Outcome = Rejected(error: string) | Received(status: int, body: Body)

  /** `response.ok`: a status in the range 200-299. */
  predicate IsOkStatus(status: int) {
    200 <= status <= 299
  }

  /** The JSON request body `{card_key, device_id}`. */
  datatype RequestBody = RequestBody(cardKey: string, deviceId: string)

  /** Observable effects, in the order a run performs them. */
  datatype Effect =
    | Post(url: string, apiKey: string, body: RequestBody)
    | StorageSet(key: string, value: string)
    | CookieWrite(cookie: string)
    | NavigateAfter(path: string, delayMs: nat)

  /** `resultType`: the empty string, 'success', 'error' or 'loading'. */
  datatype ResultType = Blank | Success | Error | Loading

  /** What the code after the `await` leaves behind: the message, its kind and the effects. */
  datatype Settlement = Settlement(message: string, kind: ResultType, effects: seq<Effect>)

  const ApiUrl := "http://love.yqjxa.cn/api/verify.php"
  const LobbyPath := "/lobby"
  const RedirectDelayMs: nat := 2000

  /** JavaScript `a || b` on strings: the empty string is falsy, so is an absent value. */
  function OrElse(value: Option<string>, fallback: string): (r: string)
    ensures value.Some? && value.value != "" ==> r == value.value
    ensures value.None? || value.value == "" ==> r == fallback
  {
    if value.Some? && value.value != "" then value.value else fallback
  }

  /** A number inside a template literal: its decimal text, or "undefined" when absent. */
  function Show(n: Option<int>): (r: string)
    ensures r == "undefined" <==> n.None?
    ensures n.Some? ==> r == IntToString(n.value) && ParseInt(r) == n.value
  {
    match n
    case None => "undefined"
    case Some(v) =>
      IntToStringRoundTrip(v);
      IntToString(v)
  }

  /** `t` occurs in `s` at position `at`. */
  predicate OccursAt(t: string, s: string, at: nat) {
    at + |t| <= |s| && s[at..at + |t|] == t
  }
}
