# Card-key verification widgets, modelled in Dafny

The repository has two React widgets that activate a card key: `components/card-verify.tsx` and
`app/login/CardVerify.tsx`. A card key is a licence or activation code. Each widget does three
things:

- It derives a device id when it mounts. The id is the first 32 characters of `btoa` over the
  user agent, the screen size, the language and the time-zone offset, joined with `|`.
- It POSTs the card key and the device id to a verification endpoint.
- It shows the server's verdict. On success it schedules a move to `/lobby` after 2000 ms.

The two widgets differ in several ways. The first checks the device id and the API key before
sending. It trims the key it sends and treats a non-2xx status as a failure. On success it writes
a `card_verified` flag to local storage and to a cookie. The login widget checks only for a blank
key and sends the key as typed. It ignores the HTTP status and writes neither flag.

The project has seven files:

- `text.dfy` (module `Text`): JavaScript's `trim`, `join` and `split` on one separator character,
  and the decimal text of integers. Each has a partner: the padding characterisation and
  idempotence for `trim`, splitting a join back, and parsing the digits back.
- `base64.dfy` (module `Base64`): `btoa` as the Base64 encoding of section 4 of RFC 4648 over
  Latin-1 code units, and a decoder that inverts it.
- `device_id.dfy` (module `DeviceId`): `generateDeviceId`. The expression is identical in both
  widgets, so it is defined once.
- `exchange.dfy` (module `Exchange`): the response shape, the network outcome given as an input,
  the request body, the result kinds and the effect log.
- `card_verify.dfy` (module `CardVerifyComponent`) and `login_card_verify.dfy` (module
  `LoginCardVerify`): one module per widget. Each has its constants, checks, message builders and
  its `Settle` function. Each also has a class `CardVerify` holding the widget's state cells
  (`cardKey`, `deviceId`, `apiKey`, `resultMsg`, `resultType`, `isLoading`) and the effects so far.
- `compare.dfy` (module `Compare`): what the two widgets do alike and differently on the same
  input.

The device id keeps little of the fingerprint. Its 32 characters encode the first 24 characters
of the fingerprint, and the user agent comes first. So the id depends only on the first 24
characters of the user agent once it is that long (`DeviceId.UserAgentPrefixDecidesId`). Every
Windows user agent starts with the 24 characters `Mozilla/5.0 (Windows NT `, so all Windows browsers
get one and the same id, whatever their screen, language or time zone
(`DeviceId.WindowsBrowsersShareId`).

`verifyCard` is an async function, and the model splits it at its `await`:

- `VerifyCard` runs the checks. It then enters the loading state and records the POST.
- `Complete(x)` takes the network outcome `x` as input. It runs the branch for that outcome, then
  the `finally` reset.
- `Press` is the verify button. The button is disabled while `isLoading`, so a press at that time
  does nothing.

The class invariant `Valid()` says three things. First, `isLoading` holds exactly when the result
kind is `loading`. Second, while it holds, the message is the widget's "verifying" text. Third,
while it holds, the last effect is the request in flight. Each method's
postcondition states the new state in terms of pure functions (`Validate`, `RequestFor`,
`Settle`). The lemmas are stated about those functions.

## Model

| member | source | states |
|---|---|---|
| Text.Trim | components/card-verify.tsx:53 | the trimmed key is empty exactly when every character of the key is ECMAScript white space; what remains starts and ends with a non-white character |
| Text.SkipWhite | components/card-verify.tsx:53 | the scan for the start of the trimmed key passes over white space only and stops at the first non-white character or the end |
| Text.SkipWhiteBack | components/card-verify.tsx:53 | the scan for the end of the trimmed key passes back over white space only and stops after the last non-white character |
| Text.TrimStripsPadding | components/card-verify.tsx:81 | a key with non-white ends, padded on both sides with white space, trims back to exactly that key |
| Text.TrimIdempotent | components/card-verify.tsx:81 | trimming an already trimmed key changes nothing |
| Text.NatToString | components/card-verify.tsx:41 | a non-negative number prints as a non-empty string of decimal digits with no leading zero |
| Text.IntToString | components/card-verify.tsx:43 | an integer prints as digits, with a leading '-' exactly when it is negative (the time-zone offset can be) |
| Text.ParseNatToString | components/card-verify.tsx:41 | reading the printed digits back gives the number again |
| Text.IntToStringRoundTrip | components/card-verify.tsx:88 | a printed integer (such as the HTTP status in the error text) reads back to itself, so different integers print differently |
| Exchange.OrElse | components/card-verify.tsx:42 | JavaScript's logical or on strings: an absent or empty value yields the fallback, any other value yields itself |
| Exchange.Show | components/card-verify.tsx:99 | a count inside a template literal prints as "undefined" exactly when it is absent; a present count prints as its decimal text, which reads back to the count |
| Base64.Char | components/card-verify.tsx:45 | every 6-bit value maps to a Base64 alphabet character that maps back to it |
| Base64.Padding | components/card-verify.tsx:45 | the number of '=' characters is at most two, and zero exactly when the byte count is a multiple of three |
| Base64.Tail | components/card-verify.tsx:45 | one or two leftover bytes become a four-character group: alphabet characters, then '==' or '=' |
| Base64.Encode | components/card-verify.tsx:45 | the encoding of n bytes has 4·⌈n/3⌉ characters, all from the alphabet or '=', with '=' only in the last two places |
| Base64.EncodePadding | components/card-verify.tsx:45 | the encoding is alphabet characters followed by exactly Padding(n) '=' characters: none, '==' or '=' for n % 3 equal to 0, 1 or 2 |
| Base64.DecodeQuantum | components/card-verify.tsx:45 | four characters made from three bytes decode to those three bytes, followed by whatever the rest decodes to |
| Base64.DecodeOne | components/card-verify.tsx:45 | one leftover byte, encoded as two characters and `==`, decodes back to that byte |
| Base64.DecodeTwo | components/card-verify.tsx:45 | two leftover bytes, encoded as three characters and `=`, decode back to those bytes |
| Base64.DecodeTail | components/card-verify.tsx:45 | the last group, for up to two leftover bytes, decodes back to those bytes |
| Base64.DecodeEncode | components/card-verify.tsx:45 | decoding an encoding gives back the original bytes |
| Base64.EncodeAppend | components/card-verify.tsx:45 | encoding a whole number of 3-byte groups and then the rest gives the same text as encoding everything at once |
| Base64.EncodePrefix | components/card-verify.tsx:45 | a prefix cut after whole 3-byte groups encodes to a prefix of the full encoding |
| Base64.Latin1Bytes | components/card-verify.tsx:45 | a Latin-1 string becomes one byte per code unit, with the same values |
| Base64.Latin1String | components/card-verify.tsx:45 | bytes become one code unit each, with the same values |
| Base64.Btoa | components/card-verify.tsx:45 | `btoa` succeeds exactly on Latin-1 strings and yields 4·⌈n/3⌉ Base64 characters |
| Base64.BtoaRoundTrip | components/card-verify.tsx:45 | decoding `btoa(s)` gives back `s` |
| Text.Join | components/card-verify.tsx:39-44 | the joined text starts with the first piece, followed by the separator when there are more pieces |
| Text.NextSeparator | components/card-verify.tsx:39-44 | the scan stops at the first separator at or after its start, or at the end when there is none |
| Text.Split | components/card-verify.tsx:39-44 | splitting always yields at least one piece |
| Text.SplitJoin | components/card-verify.tsx:39-44 | pieces that do not contain the separator come back one for one from splitting their join |
| DeviceId.Fingerprint | components/card-verify.tsx:39-44 | the fingerprint is the four fields joined with vertical bars: it starts with the user agent followed by a vertical bar |
| DeviceId.FingerprintSplits | components/card-verify.tsx:39-44 | when the user agent and the language hold no vertical bar, the fingerprint holds exactly three, and splitting at them gives back the user agent, `WxH`, the language (or '') and the offset |
| DeviceId.LatinFingerprint | components/card-verify.tsx:39-45 | the fingerprint is Latin-1 exactly when the user agent and the language are; the printed numbers always are |
| DeviceId.FromFingerprint | components/card-verify.tsx:45 | the id is a prefix of `btoa(fingerprint)` of at most 32 characters. It is the whole encoding for fingerprints up to 24 characters and exactly 32 characters from 24 on. It uses only Base64 characters, and no '=' at all once the fingerprint has 24 characters or more. It is empty only for an empty fingerprint |
| DeviceId.Generate | components/card-verify.tsx:38-46 | the id exists exactly when the user agent and the language are Latin-1; it is then non-empty, at most 32 characters long, uses only Base64 characters, and is a prefix of `btoa` of the joined fingerprint |
| DeviceId.IdEncodesFirstBytes | components/card-verify.tsx:45 | from 24 characters of fingerprint on, the id is exactly the encoding of the first 24 fingerprint bytes |
| DeviceId.IdDependsOnFirstBytesOnly | components/card-verify.tsx:45 | two fingerprints that agree on their first 24 characters get the same id |
| DeviceId.IdDecodesToFingerprintPrefix | components/card-verify.tsx:45 | decoding the id gives the whole fingerprint when it has at most 24 characters, otherwise its first 24 characters |
| DeviceId.LongUserAgentDecidesId | components/card-verify.tsx:39-45 | with a user agent of 24 or more characters, screen size, language and time-zone offset have no influence on the id |
| DeviceId.UserAgentPrefixDecidesId | components/card-verify.tsx:39-45 | two browsers whose user agents agree on their first 24 characters get the same id, whatever their screens, languages and time zones |
| DeviceId.WindowsBrowsersShareId | components/card-verify.tsx:39-45 | every browser whose user agent starts with the 24 characters 'Mozilla/5.0 (Windows NT ' gets one and the same id |
| CardVerifyComponent.ApiKey | components/card-verify.tsx:7 | the API key is empty exactly when the environment variable is unset or empty |
| CardVerifyComponent.Validate | components/card-verify.tsx:53-67 | no check fails exactly when the key is not blank and the device id and API key are non-empty. A blank key reports '请输入卡密！' first, then an empty device id reports '设备ID生成失败，请刷新页面！', then an empty API key reports 'API密钥未配置，请联系管理员！' |
| CardVerifyComponent.RequestFor | components/card-verify.tsx:80-83 | the body carries the trimmed key (no surrounding white space; empty only for a blank key) and the stored device id |
| CardVerifyComponent.SuccessMessage | components/card-verify.tsx:94-100 | the message starts with the server's message and adds nothing exactly when data is null or the card type is neither 'time' nor 'count' |
| CardVerifyComponent.TimeCardShowsExpiry | components/card-verify.tsx:96-97 | a 'time' card's message is exactly the server message, '<br>过期时间：', then the expiry time, or '永久有效' when there is none |
| CardVerifyComponent.CountCardShowsCounts | components/card-verify.tsx:98-99 | a 'count' card's message is exactly the server message, '<br>剩余次数：', the remaining count, '/', and the total count; an absent count shows as "undefined" |
| CardVerifyComponent.Thrown | components/card-verify.tsx:112-114 | every thrown error is shown as '验证失败：' followed by its text, or by '网络异常，请检查网络或接口！' when the text is empty |
| CardVerifyComponent.Settle | components/card-verify.tsx:87-116 | success happens exactly for a 2xx response whose body has code 0. Only a success has effects: the storage flag, then the cookie, then one move to /lobby after 2000 ms. A non-2xx status shows '验证失败：接口请求失败：<status>'. A non-zero code shows the server's message, or '卡密验证失败！' when it is empty. A rejected fetch or a malformed body shows the thrown error's text |
| CardVerifyComponent.TransportFailuresArePrefixed | components/card-verify.tsx:87-115 | every failure that is not a refused card is an error shown behind '验证失败：' |
| CardVerifyComponent.CardVerify.constructor | components/card-verify.tsx:29-33 | a new widget has empty key, id and message, no result kind, is not loading, and its API key comes from the environment |
| CardVerifyComponent.CardVerify.Mount | components/card-verify.tsx:37-48 | mounting stores the generated device id and changes nothing else; where `btoa` throws, the id stays as it was |
| CardVerifyComponent.CardVerify.SetCardKey | components/card-verify.tsx:127-134 | typing replaces the card key unless the input is disabled by a request in flight |
| CardVerifyComponent.CardVerify.VerifyCard | components/card-verify.tsx:51-85 | a failed check shows its message as an error, sends nothing and leaves `isLoading` and the effects alone. Otherwise the widget is loading with '验证中，请稍候...' and exactly one POST of `{trimmed key, device id}` with the API key has been added |
| CardVerifyComponent.CardVerify.Press | components/card-verify.tsx:149-155 | a press while loading changes nothing; otherwise it behaves as VerifyCard |
| CardVerifyComponent.CardVerify.Complete | components/card-verify.tsx:87-119 | after the response the message, kind and new effects are those of Settle, `isLoading` is false again, and key and id are unchanged |
| LoginCardVerify.ApiKey | app/login/CardVerify.tsx:6 | the API key is never empty: an unset or empty variable gives '你的API密钥' |
| LoginCardVerify.Validate | app/login/CardVerify.tsx:35-39 | the only check fails exactly for a blank key, with '请输入卡密！' |
| LoginCardVerify.RequestFor | app/login/CardVerify.tsx:52 | the body carries the key exactly as typed and the stored device id |
| LoginCardVerify.SuccessMessage | app/login/CardVerify.tsx:57 | the message starts with the server's message. It adds something exactly for a 'count' card, and then adds '，剩余次数：' and the remaining count |
| LoginCardVerify.Settle | app/login/CardVerify.tsx:54-69 | success happens exactly for a parsed body with code 0 and non-null data, whatever the status. Its only effect is one move to /lobby after 2000 ms. A non-zero code shows the server's message, or '卡密无效！' when it is empty. A rejected fetch, a malformed body, or code 0 with null data shows '网络异常，请重试！' |
| LoginCardVerify.StatusIsIgnored | app/login/CardVerify.tsx:46-54 | two responses with the same body settle identically whatever their statuses |
| LoginCardVerify.CardVerify.constructor | app/login/CardVerify.tsx:10-14 | a new widget has empty key, id and message, no result kind, is not loading, and its API key is the configured or default one |
| LoginCardVerify.CardVerify.Mount | app/login/CardVerify.tsx:18-31 | mounting stores the generated device id and changes nothing else; where `btoa` throws, the id stays as it was |
| LoginCardVerify.CardVerify.SetCardKey | app/login/CardVerify.tsx:78-85 | typing replaces the card key unless the input is disabled by a request in flight |
| LoginCardVerify.CardVerify.VerifyCard | app/login/CardVerify.tsx:34-53 | a blank key shows '请输入卡密！' and sends nothing. Any other key, whatever the device id, makes the widget load with '验证中...' and adds exactly one POST of `{key as typed, device id}` |
| LoginCardVerify.CardVerify.Press | app/login/CardVerify.tsx:96-102 | a press while loading changes nothing; otherwise it behaves as VerifyCard |
| LoginCardVerify.CardVerify.Complete | app/login/CardVerify.tsx:54-70 | after the response the message, kind and new effects are those of Settle, `isLoading` is false again, and key and id are unchanged |
| Compare.SameBlankKeyCheck | app/login/CardVerify.tsx:35-39 | both widgets refuse exactly the blank keys, with the same message |
| Compare.PaddedKeySentDifferently | app/login/CardVerify.tsx:52 | a key typed with surrounding white space is sent bare by the component and padded by the login widget |
| Compare.AgreeOnOkResponses | app/login/CardVerify.tsx:54-64 | on a 2xx response with card data both widgets succeed or both fail |
| Compare.ErrorStatusDivides | app/login/CardVerify.tsx:46-60 | an error status with an accepting body is a failure for the component but a success, with the move to the lobby, for the login widget |

## Left out

- The network, `fetch` and JSON parsing are not modelled. The exchange is the input `Outcome`: a
  rejected fetch with its error text, or a status with a parsed or malformed body. The
  `Content-Type` header is not recorded; the API key header is.
- The `timeout: 8000` option at components/card-verify.tsx:84 is not a `fetch` option and enforces
  nothing. No timeout is modelled.
- Timers and the router are not modelled. A scheduled navigation is recorded as
  `NavigateAfter("/lobby", 2000)`, and its firing is not modelled. So is its lack of cancellation
  on unmount.
- `localStorage` and `document.cookie` are only entries in the effect log. A storage write that
  throws, which would divert a success into the `catch` branch, is not modelled.
- `navigator.userAgent`, `navigator.language`, `screen.width`, `screen.height` and
  `getTimezoneOffset()` are parameters. An absent language is `None`.
- React's error handling is not modelled. Where `btoa` throws inside the mount effect, nothing in
  either widget catches the exception: it leaves the effect and reaches React's error handling.
  The model instead keeps the device id unchanged (empty), which is a choice of the model. The
  component's empty-id check (components/card-verify.tsx:58) is therefore never reached for that
  cause. It covers only a request made before the mount effect has run.
- Strings are sequences of Unicode scalar values, not UTF-16 code units. Only Latin-1 input reaches
  `btoa`'s encoder, so this changes no modelled result.
- Numbers inside template literals are integers printed in decimal. Fractions, exponent forms and
  `NaN` are not modelled. A count field is present or absent, and absent prints "undefined". A
  JSON `null` count, which prints "null", is not modelled.
- Response fields follow the declared `VerifyResponse` type: `code` is a number and `message` a
  string. A missing or non-string `message`, or a non-numeric `code`, is not modelled.
- Rendering is not modelled: JSX, CSS classes, the raw-HTML display of the message through
  `dangerouslySetInnerHTML`, the button label, and the `console.error` log.
- React's batching of state updates, re-renders and async interleaving are not modelled. The
  `set*` calls update the fields at once, in source order.
- The mount effect runs once per widget. The model does not forbid calling `Mount` twice.
