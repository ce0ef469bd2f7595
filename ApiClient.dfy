/** The request gateway `apiClient` (src/api/client.ts): it builds a request
    from the caller's options, issues it, and classifies the answer as a
    success, an HTTP error or an in-band business error, with toasts, a session
    error record and a deferred logout as side effects.

    `fetch`, `response.json()`, the Zod validator, `JSON.stringify`, the toast
    library, the timer and `window.location` are replaced by inputs (the
    validator's verdict, the server's answer) and by emitted effect events. */
module ApiClient {
  import opened Js
  import opened Browser

  datatype HttpMethod = GET | POST | PUT | DELETE | PATCH

  /** The `body` option: absent, a `FormData` (its entries), or any other value. */
  datatype Body = NoBody | FormData(entries: seq<(string, string)>) | Value(v: JsValue)

  /** What `validateSchema.safeParse(body)` says: no schema was given, the body
      passes, or it fails with the given `JSON.stringify(error.format())` text. */
  datatype Schema = NoSchema | Accepts | Rejects(formatted: string)

  /** The options object; an empty `errorMessagePrefix` stands for an absent one
      (both are falsy). */
  datatype Options = Options(
    verb: HttpMethod,
    body: Body,
    headers: map<string, string>,
    validateSchema: Schema,
    showSuccessMessage: bool,
    showErrorMessage: bool,
    successMessage: string,
    errorMessagePrefix: string)

  /** The defaults `apiClient` destructures its options with. */
  const Defaults: Options := Options(GET, NoBody, map[], NoSchema, true, true, "操作成功", "")

  /** `VITE_API_BASE_URL` and `VITE_APP_ID`; an empty `appId` is an unset one. */
  datatype Config = Config(baseUrl: string, appId: string)

  /** The body handed to `fetch`: none, the `FormData` itself, a string sent
      verbatim, or `JSON.stringify(v)`. */
  datatype SentBody = NotSent | SentForm(entries: seq<(string, string)>) | SentText(text: string) | SentJson(v: JsValue)

  datatype Request = Request(url: string, verb: HttpMethod, headers: map<string, string>, body: SentBody)

  /** Building either yields the request or throws the validation error. */
  datatype Built = Sent(request: Request) | Invalid(message: string)

  /** The server's answer: `fetch` rejected, or a status with what
      `response.json()` resolves to (`None` when it rejects). */
  datatype Response = NetworkFailure | Reply(status: nat, json: Option<JsValue>)

  /** How one call ends: it resolves with a value, or it throws. */
  datatype Outcome =
    | Ok(data: JsValue)
    | ValidationError(message: string)
    | HttpError(message: string, status: nat, errors: Option<JsValue>)
    | BusinessError(message: string, code: JsValue)
    | NetworkError
    | MalformedJson
    /** The `TypeError` that reading `message` from a `null` body throws. */
    | NullBodyTypeError

  /** A step run by the timer that the 401 branch schedules. */
  datatype Deferred = RemoveLocal(key: string) | Redirect(href: string)

  /** A side effect of one call, in the order the call performs it. */
  datatype Effect =
    | Notify(toast: Toast)
    | SessionSet(key: string, value: StoredText)
    | Schedule(delayMs: nat, steps: seq<Deferred>)

  const ContentType := "Content-Type"
  const Authorization := "Authorization"
  const AppIdHeader := "appid"
  const JsonMediaType := "application/json"
  const TokenKey := "auth_token"
  const ApiErrorKey := "apiError"
  const LoginPath := "/login"
  const LogoutDelayMs := 1000
  const ValidationPrefix := "请求数据验证失败: "
  const HttpFailurePrefix := "API请求失败: "
  const UnknownBusinessError := "未知业务错误"
  const SessionExpiredNotice := "登录已过期或无效，请重新登录"
  const BusinessCode := 500

  function Lookup(m: map<string, string>, key: string): Option<string> {
    if key in m then Some(m[key]) else None
  }

  /** `if (token)`: a stored token that is present and non-empty. */
  predicate HasToken(token: Option<string>) {
    token.Some? && token.value != ""
  }

  /** `if (body)`: a `FormData` object is always truthy. */
  predicate BodyTruthy(b: Body) {
    b.FormData? || (b.Value? && Truthy(b.v))
  }

  /** A truthy body that is not `FormData`: it gets the JSON treatment. */
  predicate JsonBody(b: Body) {
    b.Value? && Truthy(b.v)
  }

  /** The validator runs, and rejects: no request is issued. */
  predicate Rejected(opts: Options) {
    JsonBody(opts.body) && opts.validateSchema.Rejects?
  }

  /** The request `apiClient` must hand to `fetch`, header by header and for the
      body case by case. */
  ghost predicate Prepared(config: Config, token: Option<string>, endpoint: string, opts: Options, req: Request) {
    && req.url == config.baseUrl + endpoint
    && req.verb == opts.verb
    && (!BodyTruthy(opts.body) ==> req.body == NotSent)
    && (opts.body.FormData? ==> req.body == SentForm(opts.body.entries))
    && (JsonBody(opts.body) && opts.body.v.Str? ==> req.body == SentText(opts.body.v.s))
    && (JsonBody(opts.body) && !opts.body.v.Str? ==> req.body == SentJson(opts.body.v))
    // the caller's value wins over the JSON default
    && Lookup(req.headers, ContentType) ==
         (if ContentType in opts.headers then Some(opts.headers[ContentType])
          else if JsonBody(opts.body) then Some(JsonMediaType)
          else None)
    // the stored token wins over the caller's value
    && Lookup(req.headers, Authorization) ==
         (if HasToken(token) then Some("Bearer " + token.value) else Lookup(opts.headers, Authorization))
    // the caller's value wins over the configured identity
    && Lookup(req.headers, AppIdHeader) ==
         (if AppIdHeader in opts.headers then Some(opts.headers[AppIdHeader])
          else if config.appId != "" then Some(config.appId)
          else None)
    // every other header is the caller's
    && forall key :: key != ContentType && key != Authorization && key != AppIdHeader ==>
         Lookup(req.headers, key) == Lookup(opts.headers, key)
  }

  /** `Prepared` pins the request down completely. */
  lemma PreparedIsUnique(config: Config, token: Option<string>, endpoint: string, opts: Options, a: Request, b: Request)
    requires Prepared(config, token, endpoint, opts, a)
    requires Prepared(config, token, endpoint, opts, b)
    ensures a == b
  {
    forall key
      ensures key in a.headers <==> key in b.headers
      ensures key in a.headers ==> a.headers[key] == b.headers[key]
    {
      assert Lookup(a.headers, key) == Lookup(b.headers, key);
    }
    assert a.headers == b.headers;
  }

  /** The first half of `apiClient`: the options object is built by reassigning
      its headers and body, the validator may throw before anything is sent. */
  method BuildRequest(config: Config, token: Option<string>, endpoint: string, opts: Options) returns (r: Built)
    ensures r.Invalid? <==> Rejected(opts)
    ensures r.Invalid? ==> r.message == ValidationPrefix + opts.validateSchema.formatted
    ensures r.Sent? ==> Prepared(config, token, endpoint, opts, r.request)
  {
    var headers := opts.headers;
    var body := NotSent;
    if BodyTruthy(opts.body) {
      if opts.body.FormData? {
        body := SentForm(opts.body.entries);
      } else {
        headers := map[ContentType := JsonMediaType] + headers;
        if opts.validateSchema.Rejects? {
          return Invalid(ValidationPrefix + opts.validateSchema.formatted);
        }
        if opts.body.v.Str? {
          body := SentText(opts.body.v.s);
        } else {
          body := SentJson(opts.body.v);
        }
      }
    }
    if HasToken(token) {
      headers := headers[Authorization := "Bearer " + token.value];
    }
    if config.appId != "" {
      headers := map[AppIdHeader := config.appId] + headers;
    }
    r := Sent(Request(config.baseUrl + endpoint, opts.verb, headers, body));
  }

  /** `response.ok`. */
  predicate Is2xx(status: nat) {
    200 <= status <= 299
  }

  /** `errorData`, as the corrected gateway reads it: an unparsable body and a
      `null` body both count as `{}`. */
  function ErrorData(json: Option<JsValue>): (d: JsValue)
    ensures d != Null
    ensures json.Some? && json.value != Null ==> d == json.value
  {
    if json.Some? && json.value != Null then json.value else Obj([])
  }

  /** `errorData.message || 'API请求失败: <status>'`: the value itself, which
      the session record keeps as it is. */
  function ErrorValue(json: Option<JsValue>, status: nat): (v: JsValue)
    ensures Truthy(v)
  {
    var m := Prop(ErrorData(json), "message");
    if Present(m) then m.value else Str(HttpFailurePrefix + NatText(status))
  }

  /** The `message` of the thrown `Error`: the string form of that value. */
  function ErrorMessage(json: Option<JsValue>, status: nat): string {
    Text(ErrorValue(json, status))
  }

  /** The message as the source computes it: `None` stands for the TypeError
      that `errorData.message` throws when the error body is JSON `null`. */
  function ErrorMessageAsWritten(json: Option<JsValue>, status: nat): Option<string> {
    var errorData := if json.Some? then json.value else Obj([]);
    if errorData == Null then None
    else
      var m := Prop(errorData, "message");
      Some(if Present(m) then Text(m.value) else HttpFailurePrefix + NatText(status))
  }

  /** The two readings agree on every error body except JSON `null`, where the
      source throws instead of producing its fallback message. */
  lemma ErrorMessageNullBody(status: nat)
    ensures ErrorMessageAsWritten(Some(Null), status) == None
    ensures ErrorMessage(Some(Null), status) == HttpFailurePrefix + NatText(status)
    ensures forall json :: json != Some(Null) ==> ErrorMessageAsWritten(json, status) == Some(ErrorMessage(json, status))
  {
  }

  /** `code === '500' || code === 500` on a truthy parsed body. */
  predicate IsBusinessFailure(data: JsValue) {
    Truthy(data) && (Prop(data, "code") == Some(Str("500")) || Prop(data, "code") == Some(Num(BusinessCode)))
  }

  /** `data.msg || '未知业务错误'`. */
  function BusinessMessage(data: JsValue): string {
    var m := Prop(data, "msg");
    if Present(m) then Text(m.value) else UnknownBusinessError
  }

  /** `data?.msg || successMessage`. */
  function SuccessText(data: JsValue, successMessage: string): string {
    var m := Prop(data, "msg");
    if Present(m) then Text(m.value) else successMessage
  }

  /** The toast text of an error, with the optional prefix. */
  function Prefixed(prefix: string, message: string): string {
    if prefix != "" then prefix + ": " + message else message
  }

  /** The session record `{status, message, endpoint}` the error page reads. */
  function ErrorRecord(status: nat, message: JsValue, endpoint: string): JsValue {
    Obj([("status", Num(status)), ("message", message), ("endpoint", Str(endpoint))])
  }

  /** How an issued request ends. */
  function Classify(respond: Response): Outcome {
    match respond
    case NetworkFailure => NetworkError
    case Reply(status, json) =>
      if !Is2xx(status) then HttpError(ErrorMessage(json, status), status, Prop(ErrorData(json), "errors"))
      else if status == 204 then Ok(Obj([]))
      else if json.None? then MalformedJson
      else if IsBusinessFailure(json.value) then BusinessError(BusinessMessage(json.value), Prop(json.value, "code").value)
      else Ok(json.value)
  }

  /** The side effects of an issued request, in order. */
  function SideEffects(endpoint: string, opts: Options, respond: Response): seq<Effect> {
    match respond
    case NetworkFailure => []
    case Reply(status, json) =>
      if !Is2xx(status) then
        if status == 401 then
          [Notify(Toast(Error, SessionExpiredNotice)), Schedule(LogoutDelayMs, [RemoveLocal(TokenKey), Redirect(LoginPath)])]
        else
          var message := ErrorMessage(json, status);
          (if opts.showErrorMessage then [Notify(Toast(Error, Prefixed(opts.errorMessagePrefix, message)))] else [])
          + [SessionSet(ApiErrorKey, Stringified(ErrorRecord(status, ErrorValue(json, status), endpoint)))]
      else if status == 204 || json.None? then []
      else if IsBusinessFailure(json.value) then
        if opts.showErrorMessage then [Notify(Toast(Error, Prefixed(opts.errorMessagePrefix, BusinessMessage(json.value))))] else []
      else if opts.showSuccessMessage then [Notify(Toast(Success, SuccessText(json.value, opts.successMessage)))]
      else []
  }

  /** How an issued request ends in the source as written: an error answer
      whose body is JSON `null` throws the `TypeError` before the HTTP error is
      built. */
  function ClassifyAsWritten(respond: Response): Outcome {
    match respond
    case NetworkFailure => NetworkError
    case Reply(status, json) =>
      if !Is2xx(status) then
        var errorData := if json.Some? then json.value else Obj([]);
        var message := ErrorMessageAsWritten(json, status);
        if message.None? then NullBodyTypeError
        else HttpError(message.value, status, Prop(errorData, "errors"))
      else Classify(respond)
  }

  /** The side effects in the source as written: the `TypeError` ends the call
      before any toast, record or timer. */
  function SideEffectsAsWritten(endpoint: string, opts: Options, respond: Response): seq<Effect> {
    if ClassifyAsWritten(respond) == NullBodyTypeError then [] else SideEffects(endpoint, opts, respond)
  }

  /** The source as written and the corrected gateway end every call the same
      way, with the same effects, except an error answer whose body is JSON
      `null`: there the source throws a `TypeError` and does nothing else,
      where the corrected gateway throws the HTTP error with the fallback
      message and still toasts, records or logs out. */
  lemma NullBodyEndsCallEarly(endpoint: string, opts: Options, respond: Response)
    ensures ClassifyAsWritten(respond) == NullBodyTypeError <==>
      respond.Reply? && !Is2xx(respond.status) && respond.json == Some(Null)
    ensures ClassifyAsWritten(respond) != NullBodyTypeError ==>
      ClassifyAsWritten(respond) == Classify(respond)
      && SideEffectsAsWritten(endpoint, opts, respond) == SideEffects(endpoint, opts, respond)
    ensures ClassifyAsWritten(respond) == NullBodyTypeError ==>
      && SideEffectsAsWritten(endpoint, opts, respond) == []
      && Classify(respond) == HttpError(HttpFailurePrefix + NatText(respond.status), respond.status, None)
      && |SideEffects(endpoint, opts, respond)| >= 1
  {
    if respond.Reply? && !Is2xx(respond.status) {
      ErrorMessageNullBody(respond.status);
    }
  }

  /** One call of `apiClient`: the request it issues (`None` when validation
      stops it first), how it ends, and what it does on the way. */
  method Invoke(config: Config, token: Option<string>, endpoint: string, opts: Options, respond: Response)
    returns (request: Option<Request>, outcome: Outcome, effects: seq<Effect>)
    ensures request.None? <==> Rejected(opts)
    ensures request.Some? ==> Prepared(config, token, endpoint, opts, request.value)
    ensures Rejected(opts) ==> outcome == ValidationError(ValidationPrefix + opts.validateSchema.formatted) && effects == []
    ensures !Rejected(opts) ==> outcome == Classify(respond) && effects == SideEffects(endpoint, opts, respond)
  {
    var built := BuildRequest(config, token, endpoint, opts);
    if built.Invalid? {
      return None, ValidationError(built.message), [];
    }
    request := Some(built.request);
    effects := [];
    if respond.NetworkFailure? {
      return request, NetworkError, effects;
    }
    var status := respond.status;
    if !Is2xx(status) {
      var errorData := ErrorData(respond.json);
      var errorMessage := ErrorValue(respond.json, status);
      outcome := HttpError(Text(errorMessage), status, Prop(errorData, "errors"));
      if status == 401 {
        effects := effects + [Notify(Toast(Error, SessionExpiredNotice))];
        effects := effects + [Schedule(LogoutDelayMs, [RemoveLocal(TokenKey), Redirect(LoginPath)])];
      } else {
        if opts.showErrorMessage {
          effects := effects + [Notify(Toast(Error, Prefixed(opts.errorMessagePrefix, Text(errorMessage))))];
        }
        effects := effects + [SessionSet(ApiErrorKey, Stringified(ErrorRecord(status, errorMessage, endpoint)))];
      }
      return;
    }
    if status == 204 {
      return request, Ok(Obj([])), effects;
    }
    if respond.json.None? {
      return request, MalformedJson, effects;
    }
    var data := respond.json.value;
    if IsBusinessFailure(data) {
      var errorMessage := BusinessMessage(data);
      if opts.showErrorMessage {
        effects := effects + [Notify(Toast(Error, Prefixed(opts.errorMessagePrefix, errorMessage)))];
      }
      return request, BusinessError(errorMessage, Prop(data, "code").value), effects;
    }
    if opts.showSuccessMessage {
      effects := effects + [Notify(Toast(Success, SuccessText(data, opts.successMessage)))];
    }
    outcome := Ok(data);
  }

  /** Without a server message the thrown error names the status: the text after
      the fixed prefix reads back as the status code. */
  lemma FallbackMessageNamesStatus(json: Option<JsValue>, status: nat)
    requires !Present(Prop(ErrorData(json), "message"))
    ensures var m := ErrorMessage(json, status);
      && |m| > |HttpFailurePrefix|
      && m[..|HttpFailurePrefix|] == HttpFailurePrefix
      && (forall i :: |HttpFailurePrefix| <= i < |m| ==> IsDigit(m[i]))
      && DecimalValue(m[|HttpFailurePrefix|..]) == status
  {
    var m := ErrorMessage(json, status);
    assert m[|HttpFailurePrefix|..] == NatText(status);
    NatTextRoundTrip(status);
  }

  /** Every non-2xx answer throws an HTTP error that carries the status, the
      body's per-field errors and the server's message or the fallback text. */
  lemma HttpErrorCarriesStatus(status: nat, json: Option<JsValue>)
    requires !Is2xx(status)
    ensures Classify(Reply(status, json)) ==
      HttpError(ErrorMessage(json, status), status, Prop(ErrorData(json), "errors"))
    ensures Present(Prop(ErrorData(json), "message")) ==>
      Classify(Reply(status, json)).message == Text(Prop(ErrorData(json), "message").value)
  {
  }

  /** A 401 always toasts the expiry notice and schedules the token removal and
      the redirect to the login page, in that order, whatever `showErrorMessage`
      says; it never writes the session record. */
  lemma UnauthorizedLogsOut(endpoint: string, opts: Options, json: Option<JsValue>)
    ensures var effects := SideEffects(endpoint, opts, Reply(401, json));
      && effects == SideEffects(endpoint, opts.(showErrorMessage := !opts.showErrorMessage), Reply(401, json))
      && |effects| == 2
      && effects[0] == Notify(Toast(Error, SessionExpiredNotice))
      && effects[1] == Schedule(LogoutDelayMs, [RemoveLocal(TokenKey), Redirect(LoginPath)])
      && forall e :: e in effects ==> !e.SessionSet?
    ensures Classify(Reply(401, json)).HttpError? && Classify(Reply(401, json)).status == 401
  {
  }

  /** Every other error status writes exactly one session record, as the last
      effect, holding the status, the thrown message and the endpoint; it toasts
      (with the optional prefix) exactly when `showErrorMessage`, and it never
      schedules a logout. */
  lemma OtherErrorsAreRecorded(endpoint: string, opts: Options, status: nat, json: Option<JsValue>)
    requires !Is2xx(status) && status != 401
    ensures var effects := SideEffects(endpoint, opts, Reply(status, json));
      && |effects| >= 1
      && effects[|effects| - 1] == SessionSet(ApiErrorKey, Stringified(ErrorRecord(status, ErrorValue(json, status), endpoint)))
      && (forall i :: 0 <= i < |effects| - 1 ==> !effects[i].SessionSet?)
      && ((exists i :: 0 <= i < |effects| && effects[i].Notify?) <==> opts.showErrorMessage)
      && (opts.showErrorMessage ==>
            effects[0] == Notify(Toast(Error, Prefixed(opts.errorMessagePrefix, Classify(Reply(status, json)).message))))
      && forall e :: e in effects ==> !e.Schedule?
  {
    var effects := SideEffects(endpoint, opts, Reply(status, json));
    if opts.showErrorMessage {
      assert effects[0].Notify?;
    } else {
      assert |effects| == 1 && !effects[0].Notify?;
    }
  }

  /** A 204 resolves with `{}` and does nothing else, whatever the body holds:
      it is never parsed. */
  lemma NoContentIsEmptySuccess(endpoint: string, opts: Options, json: Option<JsValue>)
    ensures Classify(Reply(204, json)) == Ok(Obj([]))
    ensures SideEffects(endpoint, opts, Reply(204, json)) == []
  {
  }

  /** On a 2xx answer other than 204 with a parsed body, the call throws a
      business error exactly when the body's `code` is `'500'` or `500`; the
      message is `msg`, or the fixed text when `msg` is falsy. */
  lemma BusinessErrorIff(status: nat, data: JsValue)
    requires Is2xx(status) && status != 204
    ensures Classify(Reply(status, Some(data))).BusinessError? <==>
      (Prop(data, "code") == Some(Str("500")) || Prop(data, "code") == Some(Num(500)))
    ensures Classify(Reply(status, Some(data))).BusinessError? ==>
      && Classify(Reply(status, Some(data))).code == Prop(data, "code").value
      && Classify(Reply(status, Some(data))).message ==
           (if Present(Prop(data, "msg")) then Text(Prop(data, "msg").value) else UnknownBusinessError)
    ensures !Classify(Reply(status, Some(data))).BusinessError? ==> Classify(Reply(status, Some(data))) == Ok(data)
  {
  }

  /** On a 2xx answer other than 204 with a parsed body, the effects are one
      toast or none: for a business failure the optionally prefixed business
      message, exactly when `showErrorMessage`; otherwise the success toast with
      the body's truthy `msg` (as a string) or else `successMessage`, exactly
      when `showSuccessMessage`. */
  lemma SuccessfulAnswerToasts(endpoint: string, opts: Options, status: nat, data: JsValue)
    requires Is2xx(status) && status != 204
    ensures IsBusinessFailure(data) ==>
      SideEffects(endpoint, opts, Reply(status, Some(data))) ==
      if opts.showErrorMessage then [Notify(Toast(Error, Prefixed(opts.errorMessagePrefix, BusinessMessage(data))))] else []
    ensures !IsBusinessFailure(data) ==>
      SideEffects(endpoint, opts, Reply(status, Some(data))) ==
      if opts.showSuccessMessage then [Notify(Toast(Success, SuccessText(data, opts.successMessage)))] else []
    ensures Present(Prop(data, "msg")) ==> SuccessText(data, opts.successMessage) == Text(Prop(data, "msg").value)
    ensures !Present(Prop(data, "msg")) ==> SuccessText(data, opts.successMessage) == opts.successMessage
    ensures opts.errorMessagePrefix != "" ==>
      Prefixed(opts.errorMessagePrefix, BusinessMessage(data)) == opts.errorMessagePrefix + ": " + BusinessMessage(data)
    ensures opts.errorMessagePrefix == "" ==> Prefixed(opts.errorMessagePrefix, BusinessMessage(data)) == BusinessMessage(data)
  {
  }

  /** A call that resolves never writes the session record and never logs out;
      its only possible effect is one success toast. A call that throws never
      shows a success toast. */
  lemma EffectsMatchOutcome(endpoint: string, opts: Options, respond: Response)
    ensures Classify(respond).Ok? ==>
      && |SideEffects(endpoint, opts, respond)| <= 1
      && forall e :: e in SideEffects(endpoint, opts, respond) ==> e.Notify? && e.toast.level == Success
    ensures !Classify(respond).Ok? ==>
      forall e :: e in SideEffects(endpoint, opts, respond) ==> !(e.Notify? && e.toast.level == Success)
  {
  }
}
