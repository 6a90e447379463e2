/**
 * The card-key widget of components/card-verify.tsx. Its `verifyCard` checks
 * the card key, the device id and the API key in that order, then shows a
 * loading message, POSTs the trimmed key with the device id, and on the
 * response either shows a success message built from the card data (and
 * writes the verified flag to local storage and a cookie, and schedules the
 * move to the lobby) or shows an error. Non-2xx statuses are errors.
 */
module CardVerifyComponent {
  import opened Text
  import opened Exchange
  import DeviceId

  const EmptyKeyMessage := "请输入卡密！"
  const NoDeviceIdMessage := "设备ID生成失败，请刷新页面！"
  const NoApiKeyMessage := "API密钥未配置，请联系管理员！"
  const VerifyingMessage := "验证中，请稍候..."
  const RejectedFallback := "卡密验证失败！"
  const NetworkFallback := "网络异常，请检查网络或接口！"
  const FailurePrefix := "验证失败："
  const HttpFailurePrefix := "接口请求失败："
  const ExpiryLabel := "<br>过期时间："
  const NoExpiry := "永久有效"
  const RemainingLabel := "<br>剩余次数："
  const VerifiedKey := "card_verified"
  const VerifiedCookie := "card_verified=true; path=/; max-age=86400"

  /** What a success leaves behind: the storage flag, the cookie, the delayed move to the lobby. */
  const SuccessEffects: seq<Effect> :=
    [StorageSet(VerifiedKey, "true"), CookieWrite(VerifiedCookie), NavigateAfter(LobbyPath, RedirectDelayMs)]

  /** `process.env.NEXT_PUBLIC_API_KEY || ""`: empty when the variable is unset or empty. */
  function ApiKey(env: Option<string>): (k: string)
    ensures k == "" <==> env.None? || env.value == ""
    ensures k != "" ==> k == env.value
  {
    OrElse(env, "")
  }

  /** The three checks before any request, in source order: the message of the first that fails. */
  function Validate(cardKey: string, deviceId: string, apiKey: string): (r: Option<string>)
    ensures r.None? <==> !AllWhiteSpace(cardKey) && deviceId != "" && apiKey != ""
    ensures AllWhiteSpace(cardKey) ==> r == Some(EmptyKeyMessage)
    ensures !AllWhiteSpace(cardKey) && deviceId == "" ==> r == Some(NoDeviceIdMessage)
    ensures !AllWhiteSpace(cardKey) && deviceId != "" && apiKey == "" ==> r == Some(NoApiKeyMessage)
  {
    if Trim(cardKey) == "" then Some(EmptyKeyMessage)
    else if deviceId == "" then Some(NoDeviceIdMessage)
    else if apiKey == "" then Some(NoApiKeyMessage)
    else None
  }

  /** The JSON body of the POST: the key is sent trimmed, so it never starts or ends with white space. */
  function RequestFor(cardKey: string, deviceId: string): (b: RequestBody)
    ensures HasTrimmedEnds(b.cardKey) && b.deviceId == deviceId
    ensures b.cardKey == "" <==> AllWhiteSpace(cardKey)
  {
    RequestBody(Trim(cardKey), deviceId)
  }

  /**
   * The server message followed by the card detail: expiry time (or
   * 永久有效) for a 'time' card, remaining/total for a 'count' card,
   * nothing for null data or any other card type.
   */
  function SuccessMessage(message: string, data: Option<CardInfo>): (r: string)
    ensures |r| >= |message| && r[..|message|] == message
    ensures r == message <==> data.None? || (data.value.cardType != "time" && data.value.cardType != "count")
  {
    if data.Some? && data.value.cardType == "time" then
      message + ExpiryLabel + OrElse(data.value.expireTime, NoExpiry)
    else if data.Some? && data.value.cardType == "count" then
      message + RemainingLabel + Show(data.value.remainingCount) + "/" + Show(data.value.totalCount)
    else
      message
  }

  /** A time card's message is the server message, the expiry label, then the expiry time or 永久有效. */
  lemma TimeCardShowsExpiry(message: string, info: CardInfo)
    requires info.cardType == "time"
    ensures var r := SuccessMessage(message, Some(info));
            var shown := if info.expireTime.Some? && info.expireTime.value != "" then info.expireTime.value else NoExpiry;
            && |r| == |message| + |ExpiryLabel| + |shown|
            && OccursAt(ExpiryLabel, r, |message|)
            && r[|r| - |shown|..] == shown
  {
    var r := SuccessMessage(message, Some(info));
    assert r == message + ExpiryLabel + OrElse(info.expireTime, NoExpiry);
  }

  /**
   * A count card's message shows the remaining and the total count, in that
   * order, '/'-separated; an absent count shows as "undefined".
   */
  lemma CountCardShowsCounts(message: string, info: CardInfo)
    requires info.cardType == "count"
    ensures var r := SuccessMessage(message, Some(info));
            var at := |message| + |RemainingLabel|;
            var a, b := Show(info.remainingCount), Show(info.totalCount);
            && OccursAt(RemainingLabel, r, |message|)
            && OccursAt(a, r, at)
            && OccursAt("/", r, at + |a|)
            && OccursAt(b, r, at + |a| + 1)
            && |r| == at + |a| + 1 + |b|
  {
    var r := SuccessMessage(message, Some(info));
    var a, b := Show(info.remainingCount), Show(info.totalCount);
    assert r == (message + RemainingLabel) + a + "/" + b;
  }

  /** The error text shown for anything thrown inside the `try`. */
  function Thrown(error: string): (r: string)
    ensures |r| > |FailurePrefix| && r[..|FailurePrefix|] == FailurePrefix
    ensures error != "" ==> r[|FailurePrefix|..] == error
    ensures error == "" ==> r[|FailurePrefix|..] == NetworkFallback
  {
    FailurePrefix + OrElse(Some(error), NetworkFallback)
  }

  /** The server accepted the card: a 2xx status whose JSON body says `code == 0`. */
  predicate Accepted(x: Outcome) {
    x.Received? && IsOkStatus(x.status) && x.body.Parsed? && x.body.response.code == 0
  }

  /**
   * The `try`/`catch` after the request. Only an accepted card succeeds, and
   * only a success has effects; a non-2xx status is reported with its code,
   * a rejected fetch or a malformed body with the thrown error's text, and a
   * non-zero code with the server's message.
   */
  function Settle(x: Outcome): (s: Settlement)
    ensures s.kind == Success || s.kind == Error
    ensures s.kind == Success <==> Accepted(x)
    ensures s.effects == if s.kind == Success then SuccessEffects else []
    ensures Accepted(x) ==> s.message == SuccessMessage(x.body.response.message, x.body.response.data)
    ensures x.Received? && !IsOkStatus(x.status) ==> s.message == FailurePrefix + HttpFailurePrefix + IntToString(x.status)
    ensures x.Received? && IsOkStatus(x.status) && x.body.Parsed? && x.body.response.code != 0 ==>
              s.message == OrElse(Some(x.body.response.message), RejectedFallback)
    ensures x.Rejected? ==> s.message == Thrown(x.error)
    ensures x.Received? && IsOkStatus(x.status) && x.body.Malformed? ==> s.message == Thrown(x.body.error)
  {
    match x
    case Rejected(e) => Settlement(Thrown(e), Error, [])
    case Received(status, body) =>
      if !IsOkStatus(status) then
        Settlement(Thrown(HttpFailurePrefix + IntToString(status)), Error, [])
      else
        match body
        case Malformed(e) => Settlement(Thrown(e), Error, [])
        case Parsed(res) =>
          if res.code == 0 then Settlement(SuccessMessage(res.message, res.data), Success, SuccessEffects)
          else Settlement(OrElse(Some(res.message), RejectedFallback), Error, [])
  }

  /** Every failure other than a refused card is shown behind the same '验证失败：' prefix. */
  lemma TransportFailuresArePrefixed(x: Outcome)
    requires !(x.Received? && IsOkStatus(x.status) && x.body.Parsed?)
    ensures Settle(x).kind == Error
    ensures |Settle(x).message| > |FailurePrefix| && Settle(x).message[..|FailurePrefix|] == FailurePrefix
  {
  }

  /** The widget's state: React's `useState` cells, the API key, and the effects so far. */
  class CardVerify {
    var cardKey: string
    var deviceId: string
    const apiKey: string
    var resultMsg: string
    var resultType: ResultType
    var isLoading: bool
    var effects: seq<Effect>

    /** The 'loading' result is shown exactly while a request is in flight, and that request is the last effect. */
    ghost predicate Valid()
      reads this
    {
      && (isLoading <==> resultType == Loading)
      && (isLoading ==> resultMsg == VerifyingMessage && effects != [] && effects[|effects| - 1].Post?)
    }

    /** A freshly mounted widget, before its effect has run. */
    constructor (env: Option<string>)
      ensures Valid()
      ensures apiKey == ApiKey(env)
      ensures cardKey == "" && deviceId == "" && resultMsg == "" && resultType == Blank
      ensures !isLoading && effects == []
    {
      apiKey := ApiKey(env);
      cardKey, deviceId, resultMsg, resultType := "", "", "", Blank;
      isLoading, effects := false, [];
    }

    /** The mount effect: store the generated id; where `btoa` throws, the id stays as it was. */
    method Mount(userAgent: string, width: int, height: int, language: Option<string>, tzOffset: int)
      requires Valid()
      modifies this
      ensures Valid()
      ensures deviceId == match DeviceId.Generate(userAgent, width, height, language, tzOffset)
                          case Some(id) => id
                          case None => old(deviceId)
      ensures cardKey == old(cardKey) && resultMsg == old(resultMsg) && resultType == old(resultType)
      ensures isLoading == old(isLoading) && effects == old(effects)
    {
      var id := DeviceId.Generate(userAgent, width, height, language, tzOffset);
      if id.Some? {
        deviceId := id.value;
      }
    }

    /** The key input's onChange; the input is disabled while loading. */
    method SetCardKey(value: string)
      requires Valid()
      modifies this
      ensures Valid()
      ensures cardKey == if old(isLoading) then old(cardKey) else value
      ensures deviceId == old(deviceId) && resultMsg == old(resultMsg) && resultType == old(resultType)
      ensures isLoading == old(isLoading) && effects == old(effects)
    {
      if !isLoading {
        cardKey := value;
      }
    }

    /**
     * `verifyCard` up to its `await`: a failed check shows its message and
     * sends nothing; otherwise the loading state is entered and the POST made.
     */
    twostate predicate Submitted(sent: bool)
      reads this
    {
      && cardKey == old(cardKey) && deviceId == old(deviceId)
      && (sent <==> Validate(cardKey, deviceId, apiKey).None?)
      && (!sent ==> && resultMsg == Validate(cardKey, deviceId, apiKey).value && resultType == Error
                    && isLoading == old(isLoading) && effects == old(effects))
      && (sent ==> && isLoading && resultType == Loading && resultMsg == VerifyingMessage
                   && effects == old(effects) + [Post(ApiUrl, apiKey, RequestFor(cardKey, deviceId))])
    }

    method VerifyCard() returns (sent: bool)
      requires Valid() && !isLoading
      modifies this
      ensures Valid() && Submitted(sent)
    {
      if Trim(cardKey) == "" {
        resultMsg := EmptyKeyMessage;
        resultType := Error;
        return false;
      }
      if deviceId == "" {
        resultMsg := NoDeviceIdMessage;
        resultType := Error;
        return false;
      }
      if apiKey == "" {
        resultMsg := NoApiKeyMessage;
        resultType := Error;
        return false;
      }
      isLoading := true;
      resultMsg := VerifyingMessage;
      resultType := Loading;
      effects := effects + [Post(ApiUrl, apiKey, RequestFor(cardKey, deviceId))];
      sent := true;
    }

    /** The verify button: disabled while loading, so a second press sends nothing. */
    method Press() returns (sent: bool)
      requires Valid()
      modifies this
      ensures Valid()
      ensures old(isLoading) ==> !sent && unchanged(this)
      ensures !old(isLoading) ==> Submitted(sent)
    {
      if isLoading {
        return false;
      }
      sent := VerifyCard();
    }

    /** `verifyCard` after its `await`: the outcome's branch, then the `finally` reset. */
    method Complete(x: Outcome)
      requires Valid() && isLoading
      modifies this
      ensures Valid() && !isLoading
      ensures resultMsg == Settle(x).message && resultType == Settle(x).kind
      ensures effects == old(effects) + Settle(x).effects
      ensures cardKey == old(cardKey) && deviceId == old(deviceId)
    {
      var thrown: Option<string> := None;
      match x {
        case Rejected(e) =>
          thrown := Some(e);
        case Received(status, body) =>
          if !IsOkStatus(status) {
            thrown := Some(HttpFailurePrefix + IntToString(status));
          } else {
            match body {
              case Malformed(e) =>
                thrown := Some(e);
              case Parsed(res) =>
                if res.code == 0 {
                  resultMsg := SuccessMessage(res.message, res.data);
                  resultType := Success;
                  effects := effects + [StorageSet(VerifiedKey, "true")];
                  effects := effects + [CookieWrite(VerifiedCookie)];
                  effects := effects + [NavigateAfter(LobbyPath, RedirectDelayMs)];
                } else {
                  resultMsg := OrElse(Some(res.message), RejectedFallback);
                  resultType := Error;
                }
            }
          }
      }
      if thrown.Some? {
        resultMsg := Thrown(thrown.value);
        resultType := Error;
      }
      isLoading := false;
    }
  }
}
