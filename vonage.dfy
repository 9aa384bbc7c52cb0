/**
 * The SMS wrapper around Vonage's SMS API that delivers one-time codes: the
 * message template substitution, the rule that skips sending when the
 * credentials are missing outside production, and the classification of the
 * provider's reply. The HTTP call is a parameter.
 */
module Vonage {
  import opened Wrappers
  import opened JsString
  import opened JsValues

  const DefaultSmsUrl := "https://rest.nexmo.com/sms/json"
  const DefaultFrom := "SportsAadhar"
  const DefaultTemplate := "Your verification code is {{OTP}}"
  const OtpPlaceholder := "{{OTP}}"
  const CodePlaceholder := "{{CODE}}"
  const MissingCredentials := "Missing VONAGE_API_KEY or VONAGE_API_SECRET"

  /** The environment settings of the wrapper. */
  datatype Env = Env(smsUrl: Option<string>, apiKey: Option<string>, apiSecret: Option<string>,
                     from: Option<string>, template: Option<string>, production: bool)

  /** An environment setting that is present and non-empty. */
  predicate Set(o: Option<string>) {
    o.Some? && o.value != ""
  }

  /** `process.env.X || fallback` */
  function SettingOr(o: Option<string>, fallback: string): (r: string)
  {
    if Set(o) then o.value else fallback
  }

  // ---------------------------------------------------------------- buildOtpMessage

  /** `template.replace('{{OTP}}', otp).replace('{{CODE}}', otp)` */
  function BuildOtpMessage(template: string, otp: string): (message: string)
    ensures '{' !in template ==> message == template
  {
    var message := ReplaceFirst(ReplaceFirst(template, OtpPlaceholder, otp), CodePlaceholder, otp);
    if '{' in template then message
    else
      NoBraceNoPlaceholder(template, OtpPlaceholder);
      ReplaceAbsent(template, OtpPlaceholder, otp);
      NoBraceNoPlaceholder(template, CodePlaceholder);
      ReplaceAbsent(template, CodePlaceholder, otp);
      message
  }

  /** No occurrence of `pat` starts anywhere in `s`. */
  predicate NoMatch(s: string, pat: string) {
    forall j :: 0 <= j <= |s| ==> !MatchesAt(s, pat, j)
  }

  /** Text without an opening brace holds neither placeholder. */
  lemma NoBraceNoPlaceholder(s: string, pat: string)
    requires '{' !in s && pat != [] && pat[0] == '{'
    ensures NoMatch(s, pat)
  {
    forall j | 0 <= j <= |s|
      ensures !MatchesAt(s, pat, j)
    {
    }
  }

  /** A template holding neither placeholder is sent as it is. */
  lemma NoPlaceholderUnchanged(template: string, otp: string)
    requires NoMatch(template, OtpPlaceholder) && NoMatch(template, CodePlaceholder)
    ensures BuildOtpMessage(template, otp) == template
  {
    ReplaceAbsent(template, OtpPlaceholder, otp);
    ReplaceAbsent(template, CodePlaceholder, otp);
  }

  /** With no brace before it, the first "{{OTP}}" is the one replaced and the rest is kept. */
  lemma FirstOtpReplaced(pre: string, post: string, otp: string)
    requires '{' !in pre
    ensures ReplaceFirst(pre + OtpPlaceholder + post, OtpPlaceholder, otp) == pre + otp + post
  {
    var s := pre + OtpPlaceholder + post;
    forall j | 0 <= j < |pre|
      ensures !MatchesAt(s, OtpPlaceholder, j)
    {
      assert s[j] == pre[j];
    }
    ReplaceFirstOccurrence(pre, OtpPlaceholder, post, otp);
  }

  /** Braceless text followed by text without "{{CODE}}" has no "{{CODE}}". */
  lemma NoCodeAfterBraceless(head: string, post: string)
    requires '{' !in head && NoMatch(post, CodePlaceholder)
    ensures NoMatch(head + post, CodePlaceholder)
  {
    var t := head + post;
    forall j | 0 <= j <= |t|
      ensures !MatchesAt(t, CodePlaceholder, j)
    {
      if j < |head| {
        assert t[j] == head[j];
      } else if j + 8 <= |t| {
        assert t[j..j + 8] == post[j - |head|..j - |head| + 8];
        assert !MatchesAt(post, CodePlaceholder, j - |head|);
      }
    }
  }

  /**
   * Only the first "{{OTP}}" is replaced: with no brace before it and none in
   * the code, the text after it keeps any later placeholder, provided it has
   * no "{{CODE}}".
   */
  lemma OnlyFirstOtpReplaced(pre: string, post: string, otp: string)
    requires '{' !in pre && '{' !in otp && NoMatch(post, CodePlaceholder)
    ensures BuildOtpMessage(pre + OtpPlaceholder + post, otp) == pre + otp + post
  {
    FirstOtpReplaced(pre, post, otp);
    assert '{' !in pre + otp;
    NoCodeAfterBraceless(pre + otp, post);
    assert pre + otp + post == (pre + otp) + post;
    ReplaceAbsent(pre + otp + post, CodePlaceholder, otp);
  }

  /**
   * The second replacement: in a template without "{{OTP}}", the first
   * "{{CODE}}" (with no brace before it) becomes the code and the rest is kept.
   */
  lemma FirstCodeReplaced(pre: string, post: string, otp: string)
    requires '{' !in pre && NoMatch(pre + CodePlaceholder + post, OtpPlaceholder)
    ensures BuildOtpMessage(pre + CodePlaceholder + post, otp) == pre + otp + post
  {
    var s := pre + CodePlaceholder + post;
    ReplaceAbsent(s, OtpPlaceholder, otp);
    forall j | 0 <= j < |pre|
      ensures !MatchesAt(s, CodePlaceholder, j)
    {
      assert s[j] == pre[j];
    }
    ReplaceFirstOccurrence(pre, CodePlaceholder, post, otp);
  }

  /** The default template gives "Your verification code is " followed by the code. */
  lemma DefaultTemplateMessage(otp: string)
    requires AllDigits(otp)
    ensures BuildOtpMessage(DefaultTemplate, otp) == "Your verification code is " + otp
  {
    var pre := "Your verification code is ";
    assert DefaultTemplate == pre + OtpPlaceholder + "";
    assert '{' !in pre by {
      forall i | 0 <= i < |pre| ensures pre[i] != '{' { }
    }
    assert '{' !in otp by {
      forall i | 0 <= i < |otp| ensures otp[i] != '{' { assert IsDigit(otp[i]); }
    }
    OnlyFirstOtpReplaced(pre, "", otp);
    assert pre + otp + "" == pre + otp;
  }

  // ---------------------------------------------------------------- sendOtpViaVonage

  /** The JSON request body of the SMS call. */
  datatype SmsRequest = SmsRequest(url: string, apiKey: string, apiSecret: string, from: string, to: string, text: string)

  /** One entry of the reply's `messages`: its `status` and `error-text`. */
  datatype Message = Message(status: Scalar, errorText: Scalar)

  /** The HTTP response; `messages` is `data.messages || []`, empty when the body is not JSON. */
  datatype SmsResponse = SmsResponse(ok: bool, status: nat, text: string, messages: seq<Message>)

  /** `{ skipped: true }` or `{ ok: true }` */
  datatype Sent = Skipped | Delivered

  /** The request made, if any, and what the call returns or throws. */
  datatype SendAttempt = SendAttempt(request: Option<SmsRequest>, result: Result<Sent, string>)

  /** `m.status && m.status !== '0'` */
  predicate Failed(m: Message) {
    Truthy(m.status) && m.status != Str("0")
  }

  /** `messages.find(...)`: the first failed message, if any. */
  function FindFailed(messages: seq<Message>): (r: Option<nat>)
    ensures r.Some? ==> r.value < |messages| && Failed(messages[r.value]) &&
                        forall i :: 0 <= i < r.value ==> !Failed(messages[i])
    ensures r.None? ==> forall i :: 0 <= i < |messages| ==> !Failed(messages[i])
  {
    if messages == [] then None
    else if Failed(messages[0]) then Some(0)
    else match FindFailed(messages[1..])
      case None => None
      case Some(k) => Some(k + 1)
  }

  /** What `sendOtpViaVonage(phone, otp)` requests and returns or throws. */
  function SendOtp(env: Env, phone: string, otp: string, post: SmsRequest -> SmsResponse): (a: SendAttempt)
    ensures a.request.Some? <==> Set(env.apiKey) && Set(env.apiSecret)
    ensures a.result == Success(Skipped) <==> a.request.None? && !env.production
    ensures a.result.Failure? && a.request.None? ==> a.result.error == MissingCredentials
  {
    if !Set(env.apiKey) || !Set(env.apiSecret) then
      if env.production then SendAttempt(None, Failure(MissingCredentials))
      else SendAttempt(None, Success(Skipped))
    else
      var request := SmsRequest(SettingOr(env.smsUrl, DefaultSmsUrl), env.apiKey.value, env.apiSecret.value,
                                SettingOr(env.from, DefaultFrom), phone,
                                BuildOtpMessage(SettingOr(env.template, DefaultTemplate), otp));
      var response := post(request);
      if !response.ok then
        SendAttempt(Some(request), Failure("Vonage SMS failed (" + NatText(response.status) + "): " + response.text))
      else
        match FindFailed(response.messages)
        case Some(k) =>
          var m := response.messages[k];
          SendAttempt(Some(request), Failure("Vonage SMS failed: " + Text(Or(m.errorText, m.status))))
        case None => SendAttempt(Some(request), Success(Delivered))
  }

  /** Missing credentials: production throws, elsewhere the call is skipped; either way nothing is sent. */
  lemma MissingCredentialsRule(env: Env, phone: string, otp: string, post: SmsRequest -> SmsResponse)
    requires !Set(env.apiKey) || !Set(env.apiSecret)
    ensures SendOtp(env, phone, otp, post).request.None?
    ensures SendOtp(env, phone, otp, post).result ==
      if env.production then Failure(MissingCredentials) else Success(Skipped)
  {
  }

  /** With credentials the request is made, and it carries the code in the templated text. */
  lemma CredentialsSend(env: Env, phone: string, otp: string, post: SmsRequest -> SmsResponse)
    requires Set(env.apiKey) && Set(env.apiSecret)
    ensures SendOtp(env, phone, otp, post).request.Some?
    ensures SendOtp(env, phone, otp, post).request.value.to == phone
    ensures SendOtp(env, phone, otp, post).request.value.text ==
      BuildOtpMessage(if Set(env.template) then env.template.value else DefaultTemplate, otp)
    ensures SendOtp(env, phone, otp, post).result != Success(Skipped)
  {
  }

  /**
   * Once sent, the call succeeds exactly when the response is ok and no
   * message has a truthy status other than '0'.
   */
  lemma DeliveredIff(env: Env, phone: string, otp: string, post: SmsRequest -> SmsResponse)
    requires SendOtp(env, phone, otp, post).request.Some?
    ensures var response := post(SendOtp(env, phone, otp, post).request.value);
      SendOtp(env, phone, otp, post).result == Success(Delivered) <==>
        response.ok && forall i :: 0 <= i < |response.messages| ==> !Failed(response.messages[i])
    ensures SendOtp(env, phone, otp, post).result.Success? ==> SendOtp(env, phone, otp, post).result == Success(Delivered)
  {
  }

  /** A status of '0', or none at all, counts as delivered; any other truthy status is a failure. */
  lemma StatusClassification(status: Scalar)
    ensures !Failed(Message(Str("0"), Missing))
    ensures !Failed(Message(Missing, Missing)) && !Failed(Message(Null, Missing))
    ensures Failed(Message(status, Missing)) <==> Truthy(status) && status != Str("0")
    ensures Failed(Message(Str("1"), Missing))
  {
  }

  /** The failure reported is that of the first failed message, by its error text or else its status. */
  lemma FirstFailureReported(env: Env, phone: string, otp: string, post: SmsRequest -> SmsResponse, k: nat)
    requires SendOtp(env, phone, otp, post).request.Some?
    requires var response := post(SendOtp(env, phone, otp, post).request.value);
      response.ok && k < |response.messages| && Failed(response.messages[k]) &&
      forall i :: 0 <= i < k ==> !Failed(response.messages[i])
    ensures var m := post(SendOtp(env, phone, otp, post).request.value).messages[k];
      SendOtp(env, phone, otp, post).result == Failure("Vonage SMS failed: " + Text(Or(m.errorText, m.status)))
  {
    var response := post(SendOtp(env, phone, otp, post).request.value);
    var r := FindFailed(response.messages);
    assert r.Some?;
    assert r.value == k;
  }
}
