/**
 * Where the two widgets agree and where they part ways, on the same input.
 */
module Compare {
  import opened Text
  import opened Exchange
  import Component = CardVerifyComponent
  import Login = LoginCardVerify

  /** Both widgets refuse exactly the blank keys, with the same message. */
  lemma SameBlankKeyCheck(cardKey: string, deviceId: string, apiKey: string)
    ensures Component.Validate(cardKey, deviceId, apiKey) == Some(Component.EmptyKeyMessage)
        <==> Login.Validate(cardKey) == Some(Login.EmptyKeyMessage)
    ensures Component.EmptyKeyMessage == Login.EmptyKeyMessage
  {
  }

  /** A key typed with surrounding white space reaches the server bare from one widget and padded from the other. */
  lemma PaddedKeySentDifferently(before: string, key: string, after: string, deviceId: string)
    requires AllWhiteSpace(before) && AllWhiteSpace(after)
    requires key != [] && HasTrimmedEnds(key)
    ensures Component.RequestFor(before + key + after, deviceId).cardKey == key
    ensures Login.RequestFor(before + key + after, deviceId).cardKey == before + key + after
  {
    TrimStripsPadding(before, key, after);
  }

  /** On a 2xx response carrying card data, both widgets succeed or fail together. */
  lemma AgreeOnOkResponses(status: int, response: VerifyResponse)
    requires IsOkStatus(status) && response.data.Some?
    ensures Component.Settle(Received(status, Parsed(response))).kind
         == Login.Settle(Received(status, Parsed(response))).kind
  {
  }

  /**
   * An error status with an accepting body is a failure for the component and
   * a success, with the move to the lobby, for the login widget.
   */
  lemma ErrorStatusDivides(status: int, response: VerifyResponse)
    requires !IsOkStatus(status) && response.code == 0 && response.data.Some?
    ensures Component.Settle(Received(status, Parsed(response))).kind == Error
    ensures Login.Settle(Received(status, Parsed(response))).kind == Success
    ensures Login.Settle(Received(status, Parsed(response))).effects == [NavigateAfter(LobbyPath, RedirectDelayMs)]
  {
  }
}
