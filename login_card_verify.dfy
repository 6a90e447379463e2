/**
 * The card-key widget of app/login/CardVerify.tsx. Its `verifyCard` checks
 * only that the card key is not blank, shows a loading message, POSTs the key
 * as typed (untrimmed) with the device id, and reads the JSON body whatever
 * the HTTP status. A success shows the server message (with the remaining
 * count for a 'count' card) and schedules the move to the lobby; it writes
 * no storage and no cookie. Reading `data.card_type` of a null `data` throws,
 * so such a success is shown as a network error.
 */
module LoginCardVerify {
  import opened Text
  import opened Exchange
  import DeviceId

  const EmptyKeyMessage := "请输入卡密！"
  const VerifyingMessage := "验证中..."
  const InvalidFallback := "卡密无效！"
  const NetworkMessage := "网络异常，请重试！"
  const RemainingLabel := "，剩余次数："
  const DefaultApiKey := "你的API密钥"

  /** What a success leaves behind: only the delayed move to the lobby. */
  const SuccessEffects: seq<Effect> := [NavigateAfter(LobbyPath, RedirectDelayMs)]

  /** `process.env.NEXT_PUBLIC_API_KEY || "你的API密钥"`: never empty. */
  function ApiKey(env: Option<string>): (k: string)
    ensures k != ""
    ensures env.Some? && env.value != "" ==> k == env.value
    ensures env.None? || env.value == "" ==> k == DefaultApiKey
  {
    OrElse(env, DefaultApiKey)
  }

  /** The one check before the request: a blank card key. */
  function Validate(cardKey: string): (r: Option<string>)
    ensures r.None? <==> !AllWhiteSpace(cardKey)
    ensures r.Some? ==> r.value == EmptyKeyMessage
  {
    if Trim(cardKey) == "" then Some(EmptyKeyMessage) else None
  }

  /** The JSON body of the POST: the key exactly as typed, surrounding white space included. */
  function RequestFor(cardKey: string, deviceId: string): (b: RequestBody)
    ensures b.cardKey == cardKey && b.deviceId == deviceId
  {
    RequestBody(cardKey, deviceId)
  }

  /** The server message, followed by the remaining count for a 'count' card. */
  function SuccessMessage(message: string, info: CardInfo): (r: string)
    ensures |r| >= |message| && r[..|message|] == message
    ensures r == message <==> info.cardType != "count"
    ensures info.cardType == "count" ==>
              r[|message|..] == RemainingLabel + Show(info.remainingCount)
  {
    message + (if info.cardType == "count" then RemainingLabel + Show(info.remainingCount) else "")
  }

  /** The server accepted the card: a parsed body with `code == 0`, whatever the status. */
  predicate Accepted(x: Outcome) {
    x.Received? && x.body.Parsed? && x.body.response.code == 0
  }

  /**
   * The `try`/`catch` after the request. Success needs an accepted card with
   * non-null data; only a success has an effect; a non-zero code shows the
   * server's message; everything thrown, including a null `data` on
   * success, shows the one network message.
   */
  function Settle(x: Outcome): (s: Settlement)
    ensures s.kind == Success || s.kind == Error
    ensures s.kind == Success <==> Accepted(x) && x.body.response.data.Some?
    ensures s.effects == if s.kind == Success then SuccessEffects else []
    ensures s.kind == Success ==> s.message == SuccessMessage(x.body.response.message, x.body.response.data.value)
    ensures x.Received? && x.body.Parsed? && x.body.response.code != 0 ==>
              s.message == OrElse(Some(x.body.response.message), InvalidFallback)
    ensures !(x.Received? && x.body.Parsed?) ==> s.message == NetworkMessage
    ensures Accepted(x) && x.body.response.data.None? ==> s.kind == Error && s.message == NetworkMessage
  {
    match x
    case Rejected(_) => Settlement(NetworkMessage, Error, [])
    case Received(_, body) =>
      match body
      case Malformed(_) => Settlement(NetworkMessage, Error, [])
      case Parsed(res) =>
        if res.code == 0 then
          match res.data
          case None => Settlement(NetworkMessage, Error, [])
          case Some(info) => Settlement(SuccessMessage(res.message, info), Success, SuccessEffects)
        else
          Settlement(OrElse(Some(res.message), InvalidFallback), Error, [])
  }

  /** The status is never looked at: two responses with the same body settle alike. */
  lemma StatusIsIgnored(status1: int, status2: int, body: Body)
    ensures Settle(Received(status1, body)) == Settle(Received(status2, body))
  {
  }

  /** The widget's state: React's `useState` cells, the API key, and the effects so far. */
  class CardVerify {
    var cardKey: string
    var deviceId: string
    const apiKey: string
    var resultMsg: string
    var resultType: ResultType
    var isLoading: bool
    var effects: seq<Effect>

    /** The 'loading' result is shown exactly while a request is in flight, and that request is the last effect. */
    ghost predicate Valid()
      reads this
    {
      && (isLoading <==> resultType == Loading)
      && (isLoading ==> resultMsg == VerifyingMessage && effects != [] && effects[|effects| - 1].Post?)
    }

    /** A freshly mounted widget, before its effect has run. */
    constructor (env: Option<string>)
      ensures Valid()
      ensures apiKey == ApiKey(env)
      ensures cardKey == "" && deviceId == "" && resultMsg == "" && resultType == Blank
      ensures !isLoading && effects == []
    {
      apiKey := ApiKey(env);
      cardKey, deviceId, resultMsg, resultType := "", "", "", Blank;
      isLoading, effects := false, [];
    }

    /** The mount effect: store the generated id; where `btoa` throws, the id stays as it was. */
    method Mount(userAgent: string, width: int, height: int, language: Option<string>, tzOffset: int)
      requires Valid()
      modifies this
      ensures Valid()
      ensures deviceId == match DeviceId.Generate(userAgent, width, height, language, tzOffset)
                          case Some(id) => id
                          case None => old(deviceId)
      ensures cardKey == old(cardKey) && resultMsg == old(resultMsg) && resultType == old(resultType)
      ensures isLoading == old(isLoading) && effects == old(effects)
    {
      var id := DeviceId.Generate(userAgent, width, height, language, tzOffset);
      if id.Some? {
        deviceId := id.value;
      }
    }

    /** The key input's onChange; the input is disabled while loading. */
    method SetCardKey(value: string)
      requires Valid()
      modifies this
      ensures Valid()
      ensures cardKey == if old(isLoading) then old(cardKey) else value
      ensures deviceId == old(deviceId) && resultMsg == old(resultMsg) && resultType == old(resultType)
      ensures isLoading == old(isLoading) && effects == old(effects)
    {
      if !isLoading {
        cardKey := value;
      }
    }

    /**
     * `verifyCard` up to its `await`: a blank key shows its message and sends
     * nothing; any other key enters the loading state and is POSTed, whatever
     * the device id.
     */
    twostate predicate Submitted(sent: bool)
      reads this
    {
      && cardKey == old(cardKey) && deviceId == old(deviceId)
      && (sent <==> !AllWhiteSpace(cardKey))
      && (!sent ==> && resultMsg == EmptyKeyMessage && resultType == Error
                    && isLoading == old(isLoading) && effects == old(effects))
      && (sent ==> && isLoading && resultType == Loading && resultMsg == VerifyingMessage
                   && effects == old(effects) + [Post(ApiUrl, apiKey, RequestFor(cardKey, deviceId))])
    }

    method VerifyCard() returns (sent: bool)
      requires Valid() && !isLoading
      modifies this
      ensures Valid() && Submitted(sent)
    {
      var invalid := Validate(cardKey);
      if invalid.Some? {
        resultMsg := invalid.value;
        resultType := Error;
        return false;
      }
      isLoading := true;
      resultMsg := VerifyingMessage;
      resultType := Loading;
      effects := effects + [Post(ApiUrl, apiKey, RequestFor(cardKey, deviceId))];
      sent := true;
    }

    /** The verify button: disabled while loading, so a second press sends nothing. */
    method Press() returns (sent: bool)
      requires Valid()
      modifies this
      ensures Valid()
      ensures old(isLoading) ==> !sent && unchanged(this)
      ensures !old(isLoading) ==> Submitted(sent)
    {
      if isLoading {
        return false;
      }
      sent := VerifyCard();
    }

    /** `verifyCard` after its `await`: the outcome's branch, then the `finally` reset. */
    method Complete(x: Outcome)
      requires Valid() && isLoading
      modifies this
      ensures Valid() && !isLoading
      ensures resultMsg == Settle(x).message && resultType == Settle(x).kind
      ensures effects == old(effects) + Settle(x).effects
      ensures cardKey == old(cardKey) && deviceId == old(deviceId)
    {
      var thrown := false;
      match x {
        case Rejected(_) =>
          thrown := true;
        case Received(_, body) =>
          match body {
            case Malformed(_) =>
              thrown := true;
            case Parsed(res) =>
              if res.code == 0 {
                if res.data.None? {
                  thrown := true;
                } else {
                  resultMsg := SuccessMessage(res.message, res.data.value);
                  resultType := Success;
                  effects := effects + [NavigateAfter(LobbyPath, RedirectDelayMs)];
                }
              } else {
                resultMsg := OrElse(Some(res.message), InvalidFallback);
                resultType := Error;
              }
          }
      }
      if thrown {
        resultMsg := NetworkMessage;
        resultType := Error;
      }
      isLoading := false;
    }
  }
}
