/**
 * The notifications of the ntfy notifier as values: which auth events exist, and the title,
 * message, priority and tags each `notify_*` method hands to `send_notification`.
 */
module Notices {
  import opened Wrappers
  import opened Text

  /** A call of one `notify_*` method, with its arguments. */
  datatype Event =
    | AuthSuccess(via: string)
    | AuthFailure(error: string, retrySuggested: bool)
    | TokensExpiring(daysOld: int)
    | MfaRequired(methods: seq<string>)
    | RateLimited(retryAfterMinutes: int)

  /** The arguments of one `send_notification` call. */
  datatype Notice = Notice(title: string, message: string, priority: string, tags: seq<string>)

  const FailureHeader: string := "❌ Garmin Connect authentication failed:\n"
  const RetryHint: string := "\n\nAction needed: Check credentials or provide MFA code."
  const MfaHeader: string := "📱 Garmin Connect requires 2FA authentication.\n\n"
  const MethodsHeader: string := "Available automated methods:\n"
  const NoMethodsText: string :=
    "No automated MFA methods configured.\n\nOptions:\n"
    + "• Set GARMIN_MFA_CODE environment variable\n"
    + "• Create /tmp/garmin_mfa.txt file\n"
    + "• Set GARMIN_MFA_WEBHOOK endpoint\n"
    + "• Run: python authenticate.py"
  const AgingDays: int := 60
  const CriticalDays: int := 90

  /** notify_auth_failure's message: the error, then the action hint exactly when a retry is
      suggested. */
  function FailureMessage(error: string, retrySuggested: bool): (m: string)
    ensures |m| >= |FailureHeader| + |error|
    ensures m[..|FailureHeader| + |error|] == FailureHeader + error
    ensures retrySuggested ==> m[|FailureHeader| + |error|..] == RetryHint
    ensures !retrySuggested ==> |m| == |FailureHeader| + |error|
  {
    FailureHeader + error + (if retrySuggested then RetryHint else "")
  }

  /** notify_tokens_expiring: nothing for tokens up to 60 days old, "Aging" at high priority up
      to 90 days, "Critical" at urgent priority beyond. */
  function ExpiringNotice(daysOld: int): (r: Option<Notice>)
    ensures r.Some? <==> daysOld > AgingDays
    ensures daysOld > CriticalDays ==>
      r.Some? && r.value.title == "Garmin Tokens Critical" && r.value.priority == "urgent"
      && r.value.tags == ["critical", "garmin", "urgent"]
    ensures AgingDays < daysOld <= CriticalDays ==>
      r.Some? && r.value.title == "Garmin Tokens Aging" && r.value.priority == "high"
      && r.value.tags == ["warning", "garmin"]
  {
    var days := IntToString(daysOld);
    if daysOld > CriticalDays then
      Some(Notice("Garmin Tokens Critical",
        "🚨 Garmin tokens are " + days + " days old and may expire soon!\n\nAction required: Re-authenticate before tokens expire.",
        "urgent", ["critical", "garmin", "urgent"]))
    else if daysOld > AgingDays then
      Some(Notice("Garmin Tokens Aging",
        "⚠️ Garmin tokens are " + days + " days old.\n\nRecommended: Plan to re-authenticate soon.",
        "high", ["warning", "garmin"]))
    else None
  }

  /** One "• method" line per method, in order. */
  function Bullets(methods: seq<string>): string
  {
    if methods == [] then "" else "• " + methods[0] + "\n" + Bullets(methods[1..])
  }

  lemma {:induction false} BulletsAppend(a: seq<string>, b: seq<string>)
    ensures Bullets(a + b) == Bullets(a) + Bullets(b)
  {
    if a == [] {
      assert a + b == b;
    } else {
      assert (a + b)[0] == a[0];
      assert (a + b)[1..] == a[1..] + b;
      BulletsAppend(a[1..], b);
    }
  }

  /** The k-th method sits on its own line, after the lines of the methods before it and before
      the lines of the methods after it. */
  lemma BulletLine(methods: seq<string>, k: nat)
    requires k < |methods|
    ensures Bullets(methods) == Bullets(methods[..k]) + ("• " + methods[k] + "\n") + Bullets(methods[k + 1..])
  {
    var before, rest := methods[..k], methods[k..];
    assert methods == before + rest;
    BulletsAppend(before, rest);
    assert rest[0] == methods[k];
    assert rest[1..] == methods[k + 1..];
    var line := "• " + methods[k] + "\n";
    assert Bullets(rest) == line + Bullets(methods[k + 1..]);
  }

  /** notify_mfa_required's message. */
  function MfaRequiredText(methods: seq<string>): string
  {
    MfaHeader + if methods != [] then MethodsHeader + Bullets(methods) else NoMethodsText
  }

  /** notify_mfa_required builds its message with `+=`, one line per method. */
  method MfaRequiredMessage(methods: seq<string>) returns (message: string)
    ensures methods != [] ==> message == MfaHeader + MethodsHeader + Bullets(methods)
    ensures methods == [] ==> message == MfaHeader + NoMethodsText
    ensures message == MfaRequiredText(methods)
  {
    message := MfaHeader;
    if methods != [] {
      message := message + MethodsHeader;
      ghost var header := message;
      var i := 0;
      while i < |methods|
        invariant 0 <= i <= |methods|
        invariant message == header + Bullets(methods[..i])
      {
        ghost var line := "• " + methods[i] + "\n";
        BulletsAppend(methods[..i], [methods[i]]);
        assert methods[..i + 1] == methods[..i] + [methods[i]];
        assert Bullets([methods[i]]) == line + Bullets([]);
        message := message + "• " + methods[i] + "\n";
        assert message == header + Bullets(methods[..i]) + line;
        i := i + 1;
      }
      assert methods[..i] == methods;
      assert message == MfaHeader + (MethodsHeader + Bullets(methods));
    } else {
      message := message + NoMethodsText;
    }
  }

  /** What each notify_* call sends; None when notify_tokens_expiring sends nothing. */
  function Render(e: Event): Option<Notice>
  {
    match e
    case AuthSuccess(via) =>
      Some(Notice("Garmin Auth Success",
        "✅ Garmin Connect authentication successful using " + via + ".\nTokens refreshed and valid for ~3 months.",
        "low", ["success", "garmin"]))
    case AuthFailure(error, retry) =>
      Some(Notice("Garmin Auth Failed", FailureMessage(error, retry), "high", ["error", "garmin", "alert"]))
    case TokensExpiring(days) => ExpiringNotice(days)
    case MfaRequired(methods) =>
      Some(Notice("Garmin MFA Required", MfaRequiredText(methods), "high", ["mfa", "garmin", "auth"]))
    case RateLimited(minutes) =>
      Some(Notice("Garmin Rate Limited",
        "⏳ Garmin Connect API rate limit hit.\n\nRetry in ~" + IntToString(minutes) + " minutes.\nTokens will be refreshed automatically.",
        "low", ["ratelimit", "garmin"]))
  }
}
