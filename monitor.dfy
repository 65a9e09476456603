/**
 * check_auth_status: probe the stored tokens (which logs a token_validation attempt), then
 * summarise the audit log: the age of the last successful authentication and the alert it
 * triggers, the automated MFA channels when the tokens are invalid, and the failures of the
 * last day among the last ten entries.
 */
module Monitor {
  import opened Wrappers
  import opened AuditLog
  import opened Notices
  import opened Headless

  /** How many of the newest entries the failure summary looks at, and how many it shows. */
  const FailureWindow: nat := 10
  const FailuresShown: nat := 3

  datatype AgeWarning = NoWarning | Aging | Critical

  datatype Report = Report(
    lastSuccessDays: Option<int>,
    warning: AgeWarning,
    alert: Option<Event>,
    methods: Option<seq<string>>,
    recentFailures: seq<AuditEntry>,
    shownFailures: seq<AuditEntry>)

  /** The index of the newest entry that counts as a successful authentication. */
  function LatestSuccess(logs: seq<AuditEntry>): (r: Option<nat>)
    ensures r.Some? ==>
              r.value < |logs| && CountsAsSuccess(logs[r.value])
              && forall j | r.value < j < |logs| :: !CountsAsSuccess(logs[j])
    ensures r.None? ==> forall j | 0 <= j < |logs| :: !CountsAsSuccess(logs[j])
    decreases |logs|
  {
    if logs == [] then None
    else if CountsAsSuccess(logs[|logs| - 1]) then Some(|logs| - 1)
    else LatestSuccess(logs[..|logs| - 1])
  }

  /** The scan `for log in reversed(logs): ... break`. */
  method FindLastSuccess(logs: seq<AuditEntry>) returns (found: Option<AuditEntry>)
    ensures LatestSuccess(logs).None? ==> found.None?
    ensures LatestSuccess(logs).Some? ==> found == Some(logs[LatestSuccess(logs).value])
  {
    found := None;
    var i := |logs|;
    while i > 0
      invariant 0 <= i <= |logs|
      invariant forall j | i <= j < |logs| :: !CountsAsSuccess(logs[j])
      decreases i
    {
      i := i - 1;
      if CountsAsSuccess(logs[i]) {
        found := Some(logs[i]);
        break;
      }
    }
    if found.Some? {
      LatestSuccessIsLast(logs, i);
    } else {
      LatestSuccessNone(logs);
    }
  }

  lemma LatestSuccessIsLast(logs: seq<AuditEntry>, i: nat)
    requires i < |logs| && CountsAsSuccess(logs[i])
    requires forall j | i < j < |logs| :: !CountsAsSuccess(logs[j])
    ensures LatestSuccess(logs) == Some(i)
  {
    var r := LatestSuccess(logs);
    assert r.Some?;
  }

  lemma LatestSuccessNone(logs: seq<AuditEntry>)
    requires forall j | 0 <= j < |logs| :: !CountsAsSuccess(logs[j])
    ensures LatestSuccess(logs).None?
  {
  }

  predicate RecentFailure(e: AuditEntry, now: int) {
    !e.success && AgeDays(e.timestamp, now) < 1
  }

  /** The comprehension over the window: the failed entries less than a day old, in order. */
  function FilterRecent(window: seq<AuditEntry>, now: int): (r: seq<AuditEntry>)
    ensures |r| <= |window|
    ensures forall e :: e in r <==> e in window && RecentFailure(e, now)
    ensures |window| == 1 ==> r == if RecentFailure(window[0], now) then window else []
    decreases |window|
  {
    if window == [] then []
    else (if RecentFailure(window[0], now) then [window[0]] else []) + FilterRecent(window[1..], now)
  }

  /** The filter keeps the order of the window and every occurrence: filtering a concatenation
      concatenates the filtered parts. */
  lemma {:induction false} FilterRecentAppend(a: seq<AuditEntry>, b: seq<AuditEntry>, now: int)
    ensures FilterRecent(a + b, now) == FilterRecent(a, now) + FilterRecent(b, now)
    decreases |a|
  {
    if a == [] {
      assert a + b == b;
    } else {
      assert (a + b)[0] == a[0];
      assert (a + b)[1..] == a[1..] + b;
      FilterRecentAppend(a[1..], b, now);
    }
  }

  function RecentFailures(logs: seq<AuditEntry>, now: int): seq<AuditEntry> {
    FilterRecent(Last(logs, FailureWindow), now)
  }

  function Warning(days: int): (w: AgeWarning) {
    if days > CriticalDays then Critical else if days > AgingDays then Aging else NoWarning
  }

  /** The report check_auth_status prints (and the alert it sends), from the validity result
      and the log as it is after the validation entry was written. */
  function LastSuccessDays(valid: bool, log: LogFile, now: int): Option<int> {
    if valid && log.Entries? && LatestSuccess(log.logs).Some?
    then Some(AgeDays(log.logs[LatestSuccess(log.logs).value].timestamp, now)) else None
  }

  function StatusReport(env: map<string, string>, mfaFile: MfaFile, valid: bool, log: LogFile, now: int): Report {
    var days := LastSuccessDays(valid, log, now);
    var aged := days.Some? && days.value > AgingDays;
    var recent := if log.Entries? then RecentFailures(log.logs, now) else [];
    Report(days,
      if days.Some? then Warning(days.value) else NoWarning,
      if aged then Some(TokensExpiring(days.value)) else None,
      if valid then None else Some(InstructionMethods(env, mfaFile)),
      recent,
      Last(recent, FailuresShown))
  }

  /** The ageing alert fires only for valid tokens whose last success is more than 60 days old;
      it is exactly what the notifier turns into an "Aging" or "Critical" notice, the latter
      exactly when the warning is critical. */
  lemma AlertPolicy(env: map<string, string>, mfaFile: MfaFile, valid: bool, log: LogFile, now: int)
    ensures var r := StatusReport(env, mfaFile, valid, log, now);
      (r.alert.Some? <==> valid && r.lastSuccessDays.Some? && r.lastSuccessDays.value > AgingDays)
      && (r.alert.Some? ==>
            r.alert == Some(TokensExpiring(r.lastSuccessDays.value))
            && ExpiringNotice(r.lastSuccessDays.value).Some?
            && (r.warning == Critical <==> ExpiringNotice(r.lastSuccessDays.value).value.title == "Garmin Tokens Critical"))
      && (r.warning == Critical <==> r.lastSuccessDays.Some? && r.lastSuccessDays.value > CriticalDays)
  {
  }

  /** The age is measured from the newest successful fresh_login or token_validation entry. */
  lemma AgeFromLatestSuccess(env: map<string, string>, mfaFile: MfaFile, log: LogFile, now: int, i: nat)
    requires log.Entries? && i < |log.logs| && CountsAsSuccess(log.logs[i])
    requires forall j | i < j < |log.logs| :: !CountsAsSuccess(log.logs[j])
    ensures StatusReport(env, mfaFile, true, log, now).lastSuccessDays == Some(AgeDays(log.logs[i].timestamp, now))
  {
    LatestSuccessIsLast(log.logs, i);
  }

  /** The failure summary: at most three shown, the newest of the recent ones; each recent
      failure is among the last ten entries, failed, and less than a day old, and every such
      entry is recent. */
  lemma FailureSummary(env: map<string, string>, mfaFile: MfaFile, valid: bool, logs: seq<AuditEntry>, now: int)
    ensures var r := StatusReport(env, mfaFile, valid, Entries(logs), now);
      |r.shownFailures| == (if |r.recentFailures| < FailuresShown then |r.recentFailures| else FailuresShown)
      && |r.recentFailures| <= FailureWindow
      && r.shownFailures == r.recentFailures[|r.recentFailures| - |r.shownFailures|..]
      && (forall e :: e in r.recentFailures <==> e in Last(logs, FailureWindow) && RecentFailure(e, now))
      && r.recentFailures == FilterRecent(Last(logs, FailureWindow), now)
  {
  }

  /** The method listing appears exactly for invalid tokens, in the order env, file, webhook,
      each entry exactly when configured. */
  lemma MethodsListedWhenInvalid(env: map<string, string>, mfaFile: MfaFile, valid: bool, log: LogFile, now: int)
    ensures var r := StatusReport(env, mfaFile, valid, log, now);
      (r.methods.Some? <==> !valid)
      && (r.methods.Some? ==>
            (EnvLabel in r.methods.value <==> Truthy(Lookup(env, MfaCodeVar)))
            && (FileLabel in r.methods.value <==> !mfaFile.NoFile?)
            && (WebhookLabel in r.methods.value <==> Truthy(Lookup(env, WebhookVar)))
            && forall i, j :: 0 <= i < j < |r.methods.value| ==> LabelRank(r.methods.value[i]) < LabelRank(r.methods.value[j]))
  {
  }

  /** Because the token check logs a successful token_validation entry just before the log is
      read, a readable and writable log always yields age 0 when the report is made within a day
      of the check, and the ageing alert cannot fire. */
  lemma NoAlertRightAfterValidation(env: map<string, string>, mfaFile: MfaFile, before: LogFile, checkedAt: int, now: int)
    requires !before.Unreadable?
    requires checkedAt <= now < checkedAt + MicrosPerDay
    ensures var r := StatusReport(env, mfaFile, true, Logged(before, true, ValidationEntry(Works, checkedAt)), now);
      r.lastSuccessDays == Some(0) && r.alert.None? && r.warning == NoWarning
  {
    var log := Logged(before, true, ValidationEntry(Works, checkedAt));
    FreshSuccessAge(before, checkedAt, now);
    FreshReport(env, mfaFile, log, now);
  }

  lemma FreshSuccessAge(before: LogFile, checkedAt: int, now: int)
    requires !before.Unreadable?
    requires checkedAt <= now < checkedAt + MicrosPerDay
    ensures LastSuccessDays(true, Logged(before, true, ValidationEntry(Works, checkedAt)), now) == Some(0)
  {
    LoggedLast(before, ValidationEntry(Works, checkedAt));
    var log := Logged(before, true, ValidationEntry(Works, checkedAt));
    ValidatedWithinADay(log.logs, checkedAt, now);
    assert log == Entries(log.logs);
  }

  /** A log whose newest entry is a successful token validation less than a day old reports
      age 0. */
  lemma ValidatedWithinADay(logs: seq<AuditEntry>, checkedAt: int, now: int)
    requires |logs| > 0 && logs[|logs| - 1] == ValidationEntry(Works, checkedAt)
    requires checkedAt <= now < checkedAt + MicrosPerDay
    ensures LastSuccessDays(true, Entries(logs), now) == Some(0)
  {
    LatestSuccessIsLast(logs, |logs| - 1);
    WithinADay(now - checkedAt);
  }

  lemma FreshReport(env: map<string, string>, mfaFile: MfaFile, log: LogFile, now: int)
    requires LastSuccessDays(true, log, now) == Some(0)
    ensures var r := StatusReport(env, mfaFile, true, log, now);
      r.lastSuccessDays == Some(0) && r.alert.None? && r.warning == NoWarning
  {
  }

  lemma WithinADay(delta: int)
    requires 0 <= delta < MicrosPerDay
    ensures delta / MicrosPerDay == 0
  {
  }

  /** check_auth_status; returns the validity together with what it reports. */
  method CheckAuthStatus(auth: HeadlessGarminAuth, stored: TokenCheck, now: int) returns (isValid: bool, report: Report)
    modifies auth`log
    ensures auth.log == Logged(old(auth.log), auth.logWritable, ValidationEntry(stored, now))
    ensures isValid == stored.Works?
    ensures report == StatusReport(auth.env, auth.mfaFile, isValid, auth.log, now)
  {
    isValid := auth.CheckTokenValidity(stored, now);
    var days: Option<int> := None;
    var warning := NoWarning;
    var alert: Option<Event> := None;
    var methods: Option<seq<string>> := None;
    if isValid {
      if auth.log.Entries? {
        var last := FindLastSuccess(auth.log.logs);
        if last.Some? {
          var age := AgeDays(last.value.timestamp, now);
          days := Some(age);
          warning := Warning(age);
          if age > AgingDays {
            alert := Some(TokensExpiring(age));
          }
        }
      }
    } else {
      methods := Some(InstructionMethods(auth.env, auth.mfaFile));
    }
    var recent: seq<AuditEntry> := [];
    if auth.log.Entries? {
      recent := RecentFailures(auth.log.logs, now);
    }
    report := Report(days, warning, alert, methods, recent, Last(recent, FailuresShown));
  }
}
