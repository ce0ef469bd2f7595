/** The error page (src/pages/Error/index.tsx): it takes over the error
    record the API client leaves in `sessionStorage` under `apiError`, and
    derives a title, a description and the retry action from it. */
module ErrorPage {
  import opened Js
  import opened Browser
  import ApiClient

  const ApiErrorKey := "apiError"
  const HomePath := "/"
  const UnknownTitle := "系统错误"
  const UnknownDescription := "发生了未知错误，请稍后再试。"
  const TitlePrefix := "错误 "
  const CodeDescriptionPrefix := "发生了错误，错误代码: "
  const RetryBackLabel := "返回重试"
  const RetryReloadLabel := "刷新页面"

  /** Where the retry button goes: one entry back in the history, or a path. */
  datatype Navigation = Back | GoTo(path: string)

  /** The fixed title of a well-known status, if it has one. */
  function KnownTitle(status: int): Option<string> {
    if status == 401 then Some("未授权访问")
    else if status == 403 then Some("拒绝访问")
    else if status == 404 then Some("资源未找到")
    else if status == 500 then Some("服务器内部错误")
    else None
  }

  /** The fixed description of a well-known status, if it has one. */
  function KnownDescription(status: int): Option<string> {
    if status == 401 then Some("您没有权限访问此资源，请登录后重试。")
    else if status == 403 then Some("您没有足够的权限执行此操作。")
    else if status == 404 then Some("请求的资源不存在。")
    else if status == 500 then Some("服务器发生了内部错误，请稍后再试或联系管理员。")
    else None
  }

  /** The status the `switch` compares with `===`: only a number can equal a
      case label. */
  function CaseOf(status: JsValue): int {
    if status.Num? then status.n else 0
  }

  /** `getErrorTitle` on the page's `errorInfo` (`Null` before anything is
      loaded). */
  function ErrorTitle(info: JsValue): string {
    var status := Prop(info, "status");
    if !Present(status) then UnknownTitle
    else if KnownTitle(CaseOf(status.value)).Some? then KnownTitle(CaseOf(status.value)).value
    else TitlePrefix + Text(status.value)
  }

  /** `getErrorDescription`: a truthy message is shown as it is, whatever its
      type; otherwise a text chosen by the status. */
  function ErrorDescription(info: JsValue): JsValue {
    var message, status := Prop(info, "message"), Prop(info, "status");
    if Present(message) then message.value
    else if !Present(status) then Str(UnknownDescription)
    else if KnownDescription(CaseOf(status.value)).Some? then Str(KnownDescription(CaseOf(status.value)).value)
    else Str(CodeDescriptionPrefix + Text(status.value))
  }

  /** `handleRetry`. */
  function RetryTarget(info: JsValue): Navigation {
    if Present(Prop(info, "endpoint")) then Back else GoTo(HomePath)
  }

  /** The label of the retry button. */
  function RetryLabel(info: JsValue): string {
    if Present(Prop(info, "endpoint")) then RetryBackLabel else RetryReloadLabel
  }

  /** Titles: the generic one without a status, a fixed one for the four
      well-known numeric statuses, otherwise one that names the status, which
      can be read back from it. */
  lemma TitleCases(info: JsValue)
    ensures !Present(Prop(info, "status")) ==> ErrorTitle(info) == UnknownTitle
    ensures Prop(info, "status") == Some(Num(401)) ==> ErrorTitle(info) == "未授权访问"
    ensures Prop(info, "status") == Some(Num(403)) ==> ErrorTitle(info) == "拒绝访问"
    ensures Prop(info, "status") == Some(Num(404)) ==> ErrorTitle(info) == "资源未找到"
    ensures Prop(info, "status") == Some(Num(500)) ==> ErrorTitle(info) == "服务器内部错误"
    ensures forall n: nat :: Prop(info, "status") == Some(Num(n)) && n != 0 && KnownTitle(n).None? ==>
      |ErrorTitle(info)| > 3 && ErrorTitle(info)[..3] == TitlePrefix && DecimalValue(ErrorTitle(info)[3..]) == n
  {
    forall n: nat | Prop(info, "status") == Some(Num(n)) && n != 0 && KnownTitle(n).None?
      ensures |ErrorTitle(info)| > 3 && ErrorTitle(info)[..3] == TitlePrefix && DecimalValue(ErrorTitle(info)[3..]) == n
    {
      assert ErrorTitle(info) == TitlePrefix + NatText(n);
      assert ErrorTitle(info)[3..] == NatText(n);
      NatTextRoundTrip(n);
    }
  }

  /** A truthy message always wins. Without one, the description is a string
      chosen by the same case as the title: the generic one exactly when the
      title is generic, the fixed text of each of the four well-known
      statuses, and otherwise one naming the same status as the title, whose
      digits read back as a numeric status. */
  lemma DescriptionFollowsTitle(info: JsValue)
    ensures Present(Prop(info, "message")) ==> ErrorDescription(info) == Prop(info, "message").value
    ensures !Present(Prop(info, "message")) ==>
      && ErrorDescription(info).Str?
      && (ErrorDescription(info) == Str(UnknownDescription) <==> ErrorTitle(info) == UnknownTitle)
    ensures !Present(Prop(info, "message")) && Prop(info, "status") == Some(Num(401)) ==>
      ErrorDescription(info) == Str("您没有权限访问此资源，请登录后重试。")
    ensures !Present(Prop(info, "message")) && Prop(info, "status") == Some(Num(403)) ==>
      ErrorDescription(info) == Str("您没有足够的权限执行此操作。")
    ensures !Present(Prop(info, "message")) && Prop(info, "status") == Some(Num(404)) ==>
      ErrorDescription(info) == Str("请求的资源不存在。")
    ensures !Present(Prop(info, "message")) && Prop(info, "status") == Some(Num(500)) ==>
      ErrorDescription(info) == Str("服务器发生了内部错误，请稍后再试或联系管理员。")
    ensures (!Present(Prop(info, "message")) && Present(Prop(info, "status"))
             && KnownTitle(CaseOf(Prop(info, "status").value)).None?) ==>
      var d, t := ErrorDescription(info).s, ErrorTitle(info);
      && |d| >= |CodeDescriptionPrefix| && d[..|CodeDescriptionPrefix|] == CodeDescriptionPrefix
      && |t| >= |TitlePrefix| && t[..|TitlePrefix|] == TitlePrefix
      && d[|CodeDescriptionPrefix|..] == t[|TitlePrefix|..]
    ensures forall n: nat :: (!Present(Prop(info, "message")) && Prop(info, "status") == Some(Num(n))
                              && n != 0 && KnownTitle(n).None?) ==>
      DecimalValue(ErrorDescription(info).s[|CodeDescriptionPrefix|..]) == n
  {
    if !Present(Prop(info, "message")) && Present(Prop(info, "status")) {
      var status := Prop(info, "status").value;
      var code := CaseOf(status);
      if KnownTitle(code).None? {
        var t := TitlePrefix + Text(status);
        assert t[..2] == "错误";
        assert UnknownTitle[..2] == "系统";
        assert t != UnknownTitle;
        var d := CodeDescriptionPrefix + Text(status);
        assert d[3] == '错' && UnknownDescription[3] == '未';
        assert d[|CodeDescriptionPrefix|..] == Text(status) == t[|TitlePrefix|..];
      }
    }
    forall n: nat | !Present(Prop(info, "message")) && Prop(info, "status") == Some(Num(n))
        && n != 0 && KnownTitle(n).None?
      ensures DecimalValue(ErrorDescription(info).s[|CodeDescriptionPrefix|..]) == n
    {
      assert ErrorDescription(info).s[|CodeDescriptionPrefix|..] == NatText(n);
      NatTextRoundTrip(n);
    }
  }

  /** The button's label and its action depend on the same test. */
  lemma RetryLabelMatchesTarget(info: JsValue)
    ensures RetryLabel(info) == RetryBackLabel <==> RetryTarget(info) == Back
    ensures RetryLabel(info) == RetryReloadLabel <==> RetryTarget(info) == GoTo(HomePath)
  {
  }

  /** The record the API client writes for a failed request (its status,
      the value it threw as message, the endpoint) is shown with the title of
      its status, exactly that value as the description, whose string form is
      the message of the thrown error, and a retry that goes back exactly when
      the endpoint is non-empty. */
  lemma ShowsClientRecord(status: nat, json: Option<JsValue>, endpoint: string)
    requires status != 0
    ensures var info := ApiClient.ErrorRecord(status, ApiClient.ErrorValue(json, status), endpoint);
      && ErrorTitle(info) == (if KnownTitle(status).Some? then KnownTitle(status).value else TitlePrefix + NatText(status))
      && ErrorDescription(info) == ApiClient.ErrorValue(json, status)
      && Text(ErrorDescription(info)) == ApiClient.ErrorMessage(json, status)
      && (RetryTarget(info) == Back <==> endpoint != "")
  {
    var info := ApiClient.ErrorRecord(status, ApiClient.ErrorValue(json, status), endpoint);
    var fields := info.fields;
    assert fields[..2][..1] == fields[..1];
    assert fields[..2] == fields[..|fields| - 1];
    assert LastBinding(fields, "message") == LastBinding(fields[..2], "message");
    assert LastBinding(fields, "status") == LastBinding(fields[..2], "status") == LastBinding(fields[..1], "status");
    assert Prop(info, "status") == Some(Num(status));
    assert Prop(info, "message") == Some(ApiClient.ErrorValue(json, status));
    assert Prop(info, "endpoint") == Some(Str(endpoint));
  }

  class ErrorPage {
    /** `errorInfo`: `Null` until a record is loaded. */
    var errorInfo: JsValue
    /** `sessionStorage`. */
    var session: map<string, StoredText>

    constructor (session: map<string, StoredText>)
      ensures errorInfo == Null && this.session == session
      ensures ErrorTitle(errorInfo) == UnknownTitle && RetryTarget(errorInfo) == GoTo(HomePath)
    {
      errorInfo := Null;
      this.session := session;
    }

    /** The mount effect: a truthy stored record that parses becomes the page's
        record and is removed, so a reload does not show it again; one that
        does not parse stays in storage and the page keeps no record. */
    method Mount()
      modifies this
      ensures ApiErrorKey in old(session) && old(session)[ApiErrorKey].Stringified? ==>
        errorInfo == old(session)[ApiErrorKey].v && session == old(session) - {ApiErrorKey}
      ensures !(ApiErrorKey in old(session) && old(session)[ApiErrorKey].Stringified?) ==>
        errorInfo == old(errorInfo) && session == old(session)
    {
      if StoredTruthy(session, ApiErrorKey) {
        var storedError := session[ApiErrorKey];
        if storedError.Stringified? {
          errorInfo := storedError.v;
          session := session - {ApiErrorKey};
        }
      }
    }
  }
}
