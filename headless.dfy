/**
 * HeadlessGarminAuth: authentication without a console. Stored tokens are tried first; a fresh
 * login asks an ordered chain of MFA strategies for a code; every attempt is written to the
 * audit log and announced through the notifier.
 *
 * The library calls (garth login, token dump, the profile probe), the webhook request and the
 * file system are oracles: each is an input saying what that call returns or raises. The
 * notifier is the trace `events` of the `notify_*` calls made, in order.
 */
module Headless {
  import opened Wrappers
  import opened Text
  import opened AuditLog
  import opened Notices

  const EmailVar: string := "GARMIN_EMAIL"
  const PasswordVar: string := "GARMIN_PASSWORD"
  const TokensVar: string := "GARMINTOKENS"
  const TokensBase64Var: string := "GARMINTOKENS_BASE64"
  const MfaCodeVar: string := "GARMIN_MFA_CODE"
  const WebhookVar: string := "GARMIN_MFA_WEBHOOK"
  const DefaultTokenstore: string := "~/.garminconnect"
  const DefaultTokenstoreBase64: string := "~/.garminconnect_base64"

  /** The shortest code the file and webhook strategies accept. */
  const MinCodeLength: nat := 4

  const EnvLabel: string := "Environment variable (GARMIN_MFA_CODE)"
  const FileLabel: string := "Temporary file (/tmp/garmin_mfa.txt)"
  const WebhookLabel: string := "Webhook endpoint"

  const CredentialsError: string := "GARMIN_EMAIL and GARMIN_PASSWORD must be set"
  const InstructionsError: string := "2FA required for headless operation"
  const NoCodeError: string := "No MFA code available for headless operation"
  const RateLimitError: string := "Rate limited - please wait before retrying"
  const RateLimitMarker: string := "429"
  const SuccessVia: string := "fresh login with 2FA"
  const RateLimitMinutes: int := 60

  /** `os.environ.get(name)`. */
  function Lookup(env: map<string, string>, name: string): Option<string> {
    if name in env then Some(env[name]) else None
  }

  /** Python truthiness of an optional string: present and non-empty. */
  predicate Truthy(v: Option<string>) {
    v.Some? && v.value != ""
  }

  /** `os.getenv(name) or default`. */
  function LookupOr(env: map<string, string>, name: string, default: string): string {
    if Truthy(Lookup(env, name)) then env[name] else default
  }

  /** /tmp/garmin_mfa.txt: absent, present with some content, or present but unreadable. */
  datatype MfaFile = NoFile | File(content: string) | FileUnreadable

  /** What `requests.get(webhook_url)` gives: a response, or an exception. */
  datatype HttpReply = Response(status: int, text: string) | RequestFailed

  /** What one strategy call does: return a value (possibly None), or raise. */
  datatype Outcome = Returned(code: Option<string>) | Raised

  datatype Strategy = FromEnv | FromFile | FromWebhook | WithInstructions

  /** The strategies, in the order `get_mfa_headless` tries them. There is no mailbox strategy. */
  const Order: seq<Strategy> := [FromEnv, FromFile, FromWebhook, WithInstructions]

  /** The part of the state the strategy chain touches. */
  datatype ChainState = ChainState(mfaFile: MfaFile, events: seq<Event>)

  /** _get_mfa_from_env: any non-empty value, unchanged; there is no length check. */
  function EnvCode(env: map<string, string>): (r: Option<string>)
    ensures r.Some? <==> Truthy(Lookup(env, MfaCodeVar))
    ensures r.Some? ==> r == Lookup(env, MfaCodeVar) && r.value != ""
  {
    if Truthy(Lookup(env, MfaCodeVar)) then Lookup(env, MfaCodeVar) else None
  }

  /** The code _get_mfa_from_file accepts: the stripped content, when at least 4 characters. */
  function FileCode(f: MfaFile): (r: Option<string>)
    ensures r.Some? <==> f.File? && |Strip(f.content)| >= MinCodeLength
    ensures r.Some? ==> r.value == Strip(f.content) && |r.value| >= MinCodeLength
  {
    if f.File? && |Strip(f.content)| >= MinCodeLength then Some(Strip(f.content)) else None
  }

  /** The file once _get_mfa_from_file has run: deleted exactly when its code was accepted. */
  function FileAfter(f: MfaFile): (r: MfaFile)
    ensures r.NoFile? <==> f.NoFile? || FileCode(f).Some?
    ensures !r.NoFile? ==> r == f
  {
    if FileCode(f).Some? then NoFile else f
  }

  /** _get_mfa_from_webhook: a code only from a configured URL answering 200 with at least four
      characters once stripped; a failed request gives None. */
  function WebhookCode(env: map<string, string>, reply: HttpReply): (r: Option<string>)
    ensures r.Some? <==>
      Truthy(Lookup(env, WebhookVar)) && reply.Response? && reply.status == 200
      && |Strip(reply.text)| >= MinCodeLength
    ensures r.Some? ==> r.value == Strip(reply.text)
  {
    if Truthy(Lookup(env, WebhookVar)) && reply.Response? && reply.status == 200
      && |Strip(reply.text)| >= MinCodeLength
    then Some(Strip(reply.text)) else None
  }

  /** Rank of a method label in the fixed listing order. */
  function LabelRank(name: string): int {
    if name == EnvLabel then 0 else if name == FileLabel then 1 else if name == WebhookLabel then 2 else 3
  }

  /** The automated MFA methods listed to the user: each label exactly when its channel is
      configured (or, for the file, exists), in the order env, file, webhook. */
  function AvailableMethods(envSet: bool, fileExists: bool, webhookSet: bool): (r: seq<string>)
    ensures EnvLabel in r <==> envSet
    ensures FileLabel in r <==> fileExists
    ensures WebhookLabel in r <==> webhookSet
    ensures |r| == (if envSet then 1 else 0) + (if fileExists then 1 else 0) + (if webhookSet then 1 else 0)
    ensures forall i, j :: 0 <= i < j < |r| ==> LabelRank(r[i]) < LabelRank(r[j])
  {
    (if envSet then [EnvLabel] else []) + (if fileExists then [FileLabel] else [])
    + (if webhookSet then [WebhookLabel] else [])
  }

  /** The method labels _fail_with_instructions sees in a given state. */
  function InstructionMethods(env: map<string, string>, f: MfaFile): seq<string> {
    AvailableMethods(Truthy(Lookup(env, MfaCodeVar)), !f.NoFile?, Truthy(Lookup(env, WebhookVar)))
  }

  /** One strategy call. */
  function Step(s: Strategy, env: map<string, string>, reply: HttpReply, st: ChainState): (Outcome, ChainState) {
    match s
    case FromEnv => (Returned(EnvCode(env)), st)
    case FromFile =>
      if st.mfaFile.FileUnreadable? then (Raised, st)
      else (Returned(FileCode(st.mfaFile)), st.(mfaFile := FileAfter(st.mfaFile)))
    case FromWebhook => (Returned(WebhookCode(env, reply)), st)
    case WithInstructions =>
      (Raised, st.(events := st.events + [MfaRequired(InstructionMethods(env, st.mfaFile))]))
  }

  predicate Accepted(o: Outcome) {
    o.Returned? && Truthy(o.code)
  }

  /** The strategy loop: the first truthy value wins, a raising strategy is skipped, and running
      out of strategies raises (None here). */
  function ChainFrom(ss: seq<Strategy>, env: map<string, string>, reply: HttpReply, st: ChainState): (Option<string>, ChainState)
    decreases |ss|
  {
    if ss == [] then (None, st)
    else
      var (o, st1) := Step(ss[0], env, reply, st);
      if Accepted(o) then (o.code, st1) else ChainFrom(ss[1..], env, reply, st1)
  }

  /** get_mfa_headless in closed form: the env value if set; else the file's code if it has one
      (and the file is gone); else the webhook's code; else no code, one MfaRequired notice listing
      what is configured, and the file left as it was. */
  lemma ChainOutcome(env: map<string, string>, reply: HttpReply, st: ChainState)
    ensures var (code, st1) := ChainFrom(Order, env, reply, st);
      (EnvCode(env).Some? ==> code == EnvCode(env) && st1 == st)
      && (EnvCode(env).None? && FileCode(st.mfaFile).Some? ==>
            code == FileCode(st.mfaFile) && st1 == st.(mfaFile := NoFile))
      && (EnvCode(env).None? && FileCode(st.mfaFile).None? && WebhookCode(env, reply).Some? ==>
            code == WebhookCode(env, reply) && st1 == st)
      && (EnvCode(env).None? && FileCode(st.mfaFile).None? && WebhookCode(env, reply).None? ==>
            code.None?
            && st1 == st.(events := st.events + [MfaRequired(InstructionMethods(env, st.mfaFile))]))
  {
    var rest1, rest2 := Order[1..], Order[2..];
    assert rest1 == [FromFile, FromWebhook, WithInstructions];
    assert rest2 == [FromWebhook, WithInstructions];
    if EnvCode(env).None? {
      assert ChainFrom(Order, env, reply, st) == ChainFrom(rest1, env, reply, st);
      if FileCode(st.mfaFile).None? {
        assert ChainFrom(rest1, env, reply, st) == ChainFrom(rest2, env, reply, st);
        WebhookThenInstructions(env, reply, st);
      }
    }
  }

  /** The last two strategies: the webhook's code, else the instructions' notice and no code. */
  lemma WebhookThenInstructions(env: map<string, string>, reply: HttpReply, st: ChainState)
    ensures WebhookCode(env, reply).Some? ==>
      ChainFrom([FromWebhook, WithInstructions], env, reply, st) == (WebhookCode(env, reply), st)
    ensures WebhookCode(env, reply).None? ==>
      ChainFrom([FromWebhook, WithInstructions], env, reply, st)
        == (None, st.(events := st.events + [MfaRequired(InstructionMethods(env, st.mfaFile))]))
  {
    var last := [FromWebhook, WithInstructions][1..];
    assert last == [WithInstructions];
    assert last[1..] == [];
  }

  /** Whatever the inputs, the MfaRequired notice never offers the environment variable: the
      instructions are reached only once GARMIN_MFA_CODE turned out unset or empty. */
  lemma InstructionsNeverOfferEnv(env: map<string, string>, reply: HttpReply, st: ChainState)
    ensures var (_, st1) := ChainFrom(Order, env, reply, st);
      forall i | |st.events| <= i < |st1.events| ::
        st1.events[i].MfaRequired? && EnvLabel !in st1.events[i].methods
  {
    ChainOutcome(env, reply, st);
  }

  /** A file whose stripped content is shorter than four characters is never consumed. */
  lemma ShortFileKept(env: map<string, string>, reply: HttpReply, st: ChainState)
    requires st.mfaFile.File? && |Strip(st.mfaFile.content)| < MinCodeLength
    ensures ChainFrom(Order, env, reply, st).1.mfaFile == st.mfaFile
  {
    ChainOutcome(env, reply, st);
  }

  /** The chain only ever adds MfaRequired notices, and at most one. */
  lemma ChainEvents(env: map<string, string>, reply: HttpReply, st: ChainState)
    ensures var st1 := ChainFrom(Order, env, reply, st).1;
      |st.events| <= |st1.events| <= |st.events| + 1 && st1.events[..|st.events|] == st.events
      && forall i | |st.events| <= i < |st1.events| :: st1.events[i].MfaRequired?
  {
    ChainOutcome(env, reply, st);
  }

  /** What check_token_validity's probe (login from the token store, then get_full_name) does. */
  datatype TokenCheck = Works | Fails(error: string)

  /** What `garmin.login()` does with the password: raise before any MFA, finish without one, or
      ask `prompt_mfa` and then accept exactly `expected` (raising `rejection` otherwise). */
  datatype LoginScript = Rejected(error: string) | NoChallenge | Challenged(expected: string, rejection: string)

  /** What the two token writes raise, if anything: `garth.dump` and the base64 file write. */
  datatype SaveScript = SaveScript(dumpError: Option<string>, writeError: Option<string>)

  datatype AuthResult = Resumed | LoggedIn | Failed(message: string)

  /** The state authenticate can change. */
  datatype AuthState = AuthState(log: LogFile, mfaFile: MfaFile, events: seq<Event>, dirSaved: bool, base64Saved: bool)

  function ValidationEntry(stored: TokenCheck, at: int): AuditEntry {
    AuditEntry(at, stored.Works?, TokenValidation, if stored.Works? then None else Some(stored.error))
  }

  /** `garmin.login()` with `prompt_mfa=get_mfa_headless`: the error it raises, if any. */
  function LoginStage(env: map<string, string>, reply: HttpReply, login: LoginScript, s: AuthState): (Option<string>, AuthState) {
    match login
    case Rejected(e) => (Some(e), s)
    case NoChallenge => (None, s)
    case Challenged(expected, rejection) =>
      var (code, cs) := ChainFrom(Order, env, reply, ChainState(s.mfaFile, s.events));
      var s1 := s.(mfaFile := cs.mfaFile, events := cs.events);
      if code.None? then (Some(NoCodeError), s1)
      else if code.value == expected then (None, s1)
      else (Some(rejection), s1)
  }

  /** Saving the tokens in both formats. The two writes are not one atomic step: when the second
      fails the first stays done. */
  function SaveStage(save: SaveScript, s: AuthState): (Option<string>, AuthState) {
    if save.dumpError.Some? then (save.dumpError, s)
    else if save.writeError.Some? then (save.writeError, s.(dirSaved := true))
    else (None, s.(dirSaved := true, base64Saved := true))
  }

  /** The try block of the fresh login: login, then save. */
  function Attempt(env: map<string, string>, reply: HttpReply, login: LoginScript, save: SaveScript, s: AuthState): (Option<string>, AuthState) {
    var (e, s1) := LoginStage(env, reply, login, s);
    if e.Some? then (e, s1) else SaveStage(save, s1)
  }

  /** The end of the fresh login: log it, notify, and return or raise. */
  function FinishStage(logWritable: bool, err: Option<string>, s: AuthState, at: int): (AuthResult, AuthState) {
    if err.None? then
      (LoggedIn, s.(log := Logged(s.log, logWritable, AuditEntry(at, true, FreshLogin, None)),
                    events := s.events + [AuthSuccess(SuccessVia)]))
    else
      var e := err.value;
      var s1 := s.(log := Logged(s.log, logWritable, AuditEntry(at, false, FreshLogin, Some(e))));
      if Contains(e, RateLimitMarker) then (Failed(RateLimitError), s1.(events := s1.events + [RateLimited(RateLimitMinutes)]))
      else (Failed(e), s1.(events := s1.events + [AuthFailure(e, true)]))
  }

  predicate HasCredentials(env: map<string, string>) {
    Truthy(Lookup(env, EmailVar)) && Truthy(Lookup(env, PasswordVar))
  }

  /** authenticate, as a function of the environment, the oracles, two clock readings (the token
      check and the end of the fresh login) and the state before the call. */
  function AuthenticateSpec(env: map<string, string>, logWritable: bool, stored: TokenCheck, login: LoginScript,
                            reply: HttpReply, save: SaveScript, checkedAt: int, finishedAt: int, s: AuthState): (AuthResult, AuthState)
  {
    if !HasCredentials(env) then (Failed(CredentialsError), s)
    else
      var s1 := s.(log := Logged(s.log, logWritable, ValidationEntry(stored, checkedAt)));
      if stored.Works? then (Resumed, s1)
      else
        var (e, s2) := Attempt(env, reply, login, save, s1);
        FinishStage(logWritable, e, s2, finishedAt)
  }

  /** Missing credentials raise before anything is checked, logged or sent. */
  lemma MissingCredentialsChangeNothing(env: map<string, string>, logWritable: bool, stored: TokenCheck, login: LoginScript,
                                        reply: HttpReply, save: SaveScript, checkedAt: int, finishedAt: int, s: AuthState)
    requires !Truthy(Lookup(env, EmailVar)) || !Truthy(Lookup(env, PasswordVar))
    ensures AuthenticateSpec(env, logWritable, stored, login, reply, save, checkedAt, finishedAt, s) == (Failed(CredentialsError), s)
  {
  }

  /** Valid stored tokens are reused: one successful token_validation entry, no fresh login, no
      notification, no token write and no MFA strategy. */
  lemma ValidTokensSkipLogin(env: map<string, string>, logWritable: bool, login: LoginScript,
                             reply: HttpReply, save: SaveScript, checkedAt: int, finishedAt: int, s: AuthState)
    requires HasCredentials(env)
    ensures var (r, s1) := AuthenticateSpec(env, logWritable, Works, login, reply, save, checkedAt, finishedAt, s);
      r == Resumed
      && s1 == s.(log := Logged(s.log, logWritable, AuditEntry(checkedAt, true, TokenValidation, None)))
  {
  }

  /** A login refused with a text containing "429" is reported as a rate limit: the MFA chain
      never runs, the failure is logged under fresh_login, only notify_rate_limited is sent, and
      the caller sees the rate-limit message instead of the original error. */
  lemma RateLimitedBeforeMfa(env: map<string, string>, logWritable: bool, stored: TokenCheck, error: string,
                             reply: HttpReply, save: SaveScript, checkedAt: int, finishedAt: int, s: AuthState)
    requires HasCredentials(env) && stored.Fails?
    requires Contains(error, RateLimitMarker)
    ensures var (r, s1) := AuthenticateSpec(env, logWritable, stored, Rejected(error), reply, save, checkedAt, finishedAt, s);
      r == Failed(RateLimitError)
      && s1.mfaFile == s.mfaFile && s1.dirSaved == s.dirSaved && s1.base64Saved == s.base64Saved
      && s1.events == s.events + [RateLimited(RateLimitMinutes)]
      && s1.log == Logged(Logged(s.log, logWritable, ValidationEntry(stored, checkedAt)), logWritable,
                          AuditEntry(finishedAt, false, FreshLogin, Some(error)))
  {
  }

  /** A code the chain found but Garmin rejected with a "429" text is also reported as a rate
      limit, after the chain's own notices; nothing is saved. */
  lemma RateLimitedAfterWrongCode(env: map<string, string>, logWritable: bool, stored: TokenCheck,
                                  expected: string, rejection: string, reply: HttpReply, save: SaveScript,
                                  checkedAt: int, finishedAt: int, s: AuthState)
    requires HasCredentials(env) && stored.Fails?
    requires Contains(rejection, RateLimitMarker)
    requires var code := ChainFrom(Order, env, reply, ChainState(s.mfaFile, s.events)).0;
      code.Some? && code.value != expected
    ensures var cs := ChainFrom(Order, env, reply, ChainState(s.mfaFile, s.events)).1;
      var (r, s1) := AuthenticateSpec(env, logWritable, stored, Challenged(expected, rejection), reply, save,
                                      checkedAt, finishedAt, s);
      r == Failed(RateLimitError)
      && s1.mfaFile == cs.mfaFile && s1.dirSaved == s.dirSaved && s1.base64Saved == s.base64Saved
      && s1.events == cs.events + [RateLimited(RateLimitMinutes)]
      && s1.log == Logged(Logged(s.log, logWritable, ValidationEntry(stored, checkedAt)), logWritable,
                          AuditEntry(finishedAt, false, FreshLogin, Some(rejection)))
  {
  }

  /** The fresh login's try block sends at most one notice, an MfaRequired one. */
  lemma AttemptEvents(env: map<string, string>, reply: HttpReply, login: LoginScript, save: SaveScript, s: AuthState)
    ensures var s1 := Attempt(env, reply, login, save, s).1;
      |s.events| <= |s1.events| <= |s.events| + 1 && s1.events[..|s.events|] == s.events
      && forall i | |s.events| <= i < |s1.events| :: s1.events[i].MfaRequired?
  {
    if login.Challenged? {
      ChainEvents(env, reply, ChainState(s.mfaFile, s.events));
    }
  }

  /** Every call that gets past the credential check with stale tokens sends at most two
      notices: possibly one MfaRequired from the chain, then exactly one of AuthSuccess,
      RateLimited or AuthFailure; an AuthFailure never carries a "429" text. */
  lemma NoticesOfOneCall(env: map<string, string>, logWritable: bool, stored: TokenCheck, login: LoginScript,
                         reply: HttpReply, save: SaveScript, checkedAt: int, finishedAt: int, s: AuthState)
    requires HasCredentials(env) && stored.Fails?
    ensures var (r, s1) := AuthenticateSpec(env, logWritable, stored, login, reply, save, checkedAt, finishedAt, s);
      var n := |s.events|;
      n + 1 <= |s1.events| <= n + 2 && s1.events[..n] == s.events
      && (forall i | n <= i < |s1.events| - 1 :: s1.events[i].MfaRequired?)
      && var last := s1.events[|s1.events| - 1];
      (r == LoggedIn <==> last.AuthSuccess?)
      && (last.RateLimited? ==> r == Failed(RateLimitError))
      && (r.Failed? ==> last.RateLimited? || last.AuthFailure?)
      && (last.AuthFailure? ==> r == Failed(last.error) && !Contains(last.error, RateLimitMarker))
  {
    var s0 := s.(log := Logged(s.log, logWritable, ValidationEntry(stored, checkedAt)));
    var (e, s3) := Attempt(env, reply, login, save, s0);
    AttemptEvents(env, reply, login, save, s0);
    var (r, s4) := FinishStage(logWritable, e, s3, finishedAt);
    assert (r, s4) == AuthenticateSpec(env, logWritable, stored, login, reply, save, checkedAt, finishedAt, s);
    var ev := if e.None? then AuthSuccess(SuccessVia)
      else if Contains(e.value, RateLimitMarker) then RateLimited(RateLimitMinutes)
      else AuthFailure(e.value, true);
    assert s4.events == s3.events + [ev];
    assert s4.events[..|s3.events|] == s3.events;
    assert s4.events[..|s.events|] == s3.events[..|s.events|];
  }

  /** The token save is not atomic: when the directory dump succeeds and the base64 write fails,
      the directory tokens stay written although the call fails and logs a failure. */
  lemma PartialSave(env: map<string, string>, logWritable: bool, writeError: string,
                    reply: HttpReply, checkedAt: int, finishedAt: int, s: AuthState)
    requires HasCredentials(env) && !s.base64Saved
    ensures var (r, s1) := AuthenticateSpec(env, logWritable, Fails("expired"), NoChallenge, reply,
                                            SaveScript(None, Some(writeError)), checkedAt, finishedAt, s);
      r.Failed? && s1.dirSaved && !s1.base64Saved
      && s1.log == Logged(Logged(s.log, logWritable, ValidationEntry(Fails("expired"), checkedAt)), logWritable,
                          AuditEntry(finishedAt, false, FreshLogin, Some(writeError)))
  {
  }

  /** The try block finishes without an exception only when both token writes succeeded. */
  lemma AttemptSucceeded(env: map<string, string>, reply: HttpReply, login: LoginScript, save: SaveScript, s: AuthState)
    ensures var (e, s1) := Attempt(env, reply, login, save, s);
      e.None? ==> save == SaveScript(None, None) && s1.dirSaved && s1.base64Saved
  {
    var (e1, s1) := LoginStage(env, reply, login, s);
    if e1.None? {
      var (e2, s2) := SaveStage(save, s1);
      assert e2.None? ==> save.dumpError.None? && save.writeError.None?;
    }
  }

  /** A successful fresh login has written both token formats and announced itself last. */
  lemma LoggedInSavedBoth(env: map<string, string>, logWritable: bool, stored: TokenCheck, login: LoginScript,
                          reply: HttpReply, save: SaveScript, checkedAt: int, finishedAt: int, s: AuthState)
    ensures var (r, s1) := AuthenticateSpec(env, logWritable, stored, login, reply, save, checkedAt, finishedAt, s);
      r == LoggedIn ==>
        save == SaveScript(None, None) && s1.dirSaved && s1.base64Saved
        && |s1.events| > 0 && s1.events[|s1.events| - 1] == AuthSuccess(SuccessVia)
  {
    if HasCredentials(env) && stored.Fails? {
      var s0 := s.(log := Logged(s.log, logWritable, ValidationEntry(stored, checkedAt)));
      var (e, s2) := Attempt(env, reply, login, save, s0);
      AttemptSucceeded(env, reply, login, save, s0);
      var (r, s3) := FinishStage(logWritable, e, s2, finishedAt);
      assert (r, s3) == AuthenticateSpec(env, logWritable, stored, login, reply, save, checkedAt, finishedAt, s);
      if r == LoggedIn {
        assert e.None?;
        assert s3.events == s2.events + [AuthSuccess(SuccessVia)];
      }
    }
  }

  /** With GARMIN_MFA_CODE set, the chain answers with it, whatever the webhook would answer. */
  lemma ChainIgnoresWebhook(env: map<string, string>, reply1: HttpReply, reply2: HttpReply, st: ChainState)
    requires Truthy(Lookup(env, MfaCodeVar))
    ensures ChainFrom(Order, env, reply1, st) == ChainFrom(Order, env, reply2, st) == (EnvCode(env), st)
  {
    ChainOutcome(env, reply1, st);
    ChainOutcome(env, reply2, st);
  }

  /** With GARMIN_MFA_CODE set, the webhook is never consulted: the outcome is the same whatever
      it would answer, and the MFA file is never consumed. */
  lemma EnvCodeIgnoresWebhook(env: map<string, string>, logWritable: bool, stored: TokenCheck, login: LoginScript,
                              reply1: HttpReply, reply2: HttpReply, save: SaveScript, checkedAt: int, finishedAt: int, s: AuthState)
    requires Truthy(Lookup(env, MfaCodeVar))
    ensures AuthenticateSpec(env, logWritable, stored, login, reply1, save, checkedAt, finishedAt, s)
         == AuthenticateSpec(env, logWritable, stored, login, reply2, save, checkedAt, finishedAt, s)
    ensures AuthenticateSpec(env, logWritable, stored, login, reply1, save, checkedAt, finishedAt, s).1.mfaFile == s.mfaFile
  {
    if HasCredentials(env) && stored.Fails? {
      var s0 := s.(log := Logged(s.log, logWritable, ValidationEntry(stored, checkedAt)));
      AttemptIgnoresWebhook(env, reply1, reply2, login, save, s0);
      var (e, s2) := Attempt(env, reply1, login, save, s0);
      assert AuthenticateSpec(env, logWritable, stored, login, reply1, save, checkedAt, finishedAt, s)
          == FinishStage(logWritable, e, s2, finishedAt);
      assert AuthenticateSpec(env, logWritable, stored, login, reply2, save, checkedAt, finishedAt, s)
          == FinishStage(logWritable, e, s2, finishedAt);
    }
  }

  lemma AttemptIgnoresWebhook(env: map<string, string>, reply1: HttpReply, reply2: HttpReply, login: LoginScript,
                              save: SaveScript, s: AuthState)
    requires Truthy(Lookup(env, MfaCodeVar))
    ensures Attempt(env, reply1, login, save, s) == Attempt(env, reply2, login, save, s)
    ensures Attempt(env, reply1, login, save, s).1.mfaFile == s.mfaFile
  {
    if login.Challenged? {
      ChainIgnoresWebhook(env, reply1, reply2, ChainState(s.mfaFile, s.events));
    }
    assert LoginStage(env, reply1, login, s) == LoginStage(env, reply2, login, s);
    assert LoginStage(env, reply1, login, s).1.mfaFile == s.mfaFile;
  }

  class HeadlessGarminAuth {
    const env: map<string, string>
    const email: Option<string>
    const password: Option<string>
    const tokenstore: string
    const tokenstoreBase64: string
    /** Whether auth_log.json can be written. */
    const logWritable: bool

    var log: LogFile
    var mfaFile: MfaFile
    var events: seq<Event>
    var dirSaved: bool
    var base64Saved: bool

    constructor(env: map<string, string>, logWritable: bool, log: LogFile, mfaFile: MfaFile)
      ensures this.env == env && this.logWritable == logWritable
      ensures email == Lookup(env, EmailVar) && password == Lookup(env, PasswordVar)
      ensures tokenstore == LookupOr(env, TokensVar, DefaultTokenstore)
      ensures tokenstoreBase64 == LookupOr(env, TokensBase64Var, DefaultTokenstoreBase64)
      ensures this.log == log && this.mfaFile == mfaFile && events == [] && !dirSaved && !base64Saved
    {
      this.env := env;
      this.logWritable := logWritable;
      email := Lookup(env, EmailVar);
      password := Lookup(env, PasswordVar);
      tokenstore := LookupOr(env, TokensVar, DefaultTokenstore);
      tokenstoreBase64 := LookupOr(env, TokensBase64Var, DefaultTokenstoreBase64);
      this.log := log;
      this.mfaFile := mfaFile;
      events := [];
      dirSaved := false;
      base64Saved := false;
    }

    function State(): AuthState
      reads this
    {
      AuthState(log, mfaFile, events, dirSaved, base64Saved)
    }

    function Chain(): ChainState
      reads this
    {
      ChainState(mfaFile, events)
    }

    /** log_auth_attempt: read the list, append, keep the last 50, write; any failure is
        swallowed. */
    method LogAuthAttempt(entry: AuditEntry)
      modifies this`log
      ensures log == Logged(old(log), logWritable, entry)
    {
      var logs: seq<AuditEntry>;
      match log {
        case Unreadable => return;
        case Missing => logs := [];
        case Entries(l) => logs := l;
      }
      logs := logs + [entry];
      logs := Last(logs, MaxEntries);
      if logWritable {
        log := Entries(logs);
      }
    }

    method GetMfaFromEnv() returns (code: Option<string>)
      ensures code == EnvCode(env)
    {
      var v := Lookup(env, MfaCodeVar);
      if v.Some? && v.value != "" {
        return v;
      }
      return None;
    }

    method GetMfaFromFile() returns (o: Outcome)
      modifies this`mfaFile
      ensures (o, Chain()) == Step(FromFile, env, RequestFailed, old(Chain()))
    {
      match mfaFile
      case NoFile => return Returned(None);
      case FileUnreadable => return Raised;
      case File(content) =>
        var code := Strip(content);
        if code != "" && |code| >= MinCodeLength {
          mfaFile := NoFile;
          return Returned(Some(code));
        }
        return Returned(None);
    }

    method GetMfaFromWebhook(reply: HttpReply) returns (code: Option<string>)
      ensures code == WebhookCode(env, reply)
    {
      var url := Lookup(env, WebhookVar);
      if url.Some? && url.value != "" {
        if reply.Response? && reply.status == 200 {
          var text := Strip(reply.text);
          if text != "" && |text| >= MinCodeLength {
            return Some(text);
          }
        }
      }
      return None;
    }

    /** _fail_with_instructions: list the configured channels, notify, and raise. */
    method FailWithInstructions() returns (o: Outcome)
      modifies this`events
      ensures (o, Chain()) == Step(WithInstructions, env, RequestFailed, old(Chain()))
    {
      var available: seq<string> := [];
      if Truthy(Lookup(env, MfaCodeVar)) {
        available := available + [EnvLabel];
      }
      if !mfaFile.NoFile? {
        available := available + [FileLabel];
      }
      if Truthy(Lookup(env, WebhookVar)) {
        available := available + [WebhookLabel];
      }
      assert available == InstructionMethods(env, mfaFile);
      events := events + [MfaRequired(available)];
      return Raised;
    }

    /** get_mfa_headless; None stands for the final "No MFA code available" exception. */
    method GetMfaHeadless(reply: HttpReply) returns (code: Option<string>)
      modifies this`mfaFile, this`events
      ensures (code, Chain()) == ChainFrom(Order, env, reply, old(Chain()))
    {
      var i := 0;
      while i < |Order|
        invariant 0 <= i <= |Order|
        invariant ChainFrom(Order[i..], env, reply, Chain()) == ChainFrom(Order, env, reply, old(Chain()))
        decreases |Order| - i
      {
        var o: Outcome;
        match Order[i] {
          case FromEnv =>
            var c := GetMfaFromEnv();
            o := Returned(c);
          case FromFile =>
            o := GetMfaFromFile();
          case FromWebhook =>
            var c := GetMfaFromWebhook(reply);
            o := Returned(c);
          case WithInstructions =>
            o := FailWithInstructions();
        }
        assert Order[i..][1..] == Order[i + 1..];
        if o.Returned? && o.code.Some? && o.code.value != "" {
          return o.code;
        }
        i := i + 1;
      }
      return None;
    }

    /** check_token_validity. */
    method CheckTokenValidity(stored: TokenCheck, at: int) returns (valid: bool)
      modifies this`log
      ensures valid == stored.Works?
      ensures log == Logged(old(log), logWritable, ValidationEntry(stored, at))
    {
      match stored
      case Works =>
        LogAuthAttempt(AuditEntry(at, true, TokenValidation, None));
        return true;
      case Fails(e) =>
        LogAuthAttempt(AuditEntry(at, false, TokenValidation, Some(e)));
        return false;
    }

    /** garmin.login() with the MFA prompt wired to get_mfa_headless. */
    method Login(login: LoginScript, reply: HttpReply) returns (err: Option<string>)
      modifies this`mfaFile, this`events
      ensures (err, State()) == LoginStage(env, reply, login, old(State()))
    {
      match login
      case Rejected(e) => return Some(e);
      case NoChallenge => return None;
      case Challenged(expected, rejection) =>
        var code := GetMfaHeadless(reply);
        if code.None? {
          return Some(NoCodeError);
        }
        if code.value == expected {
          return None;
        }
        return Some(rejection);
    }

    method SaveTokens(save: SaveScript) returns (err: Option<string>)
      modifies this`dirSaved, this`base64Saved
      ensures (err, State()) == SaveStage(save, old(State()))
    {
      if save.dumpError.Some? {
        return save.dumpError;
      }
      dirSaved := true;
      if save.writeError.Some? {
        return save.writeError;
      }
      base64Saved := true;
      return None;
    }

    /** authenticate. */
    method Authenticate(stored: TokenCheck, login: LoginScript, reply: HttpReply, save: SaveScript,
                        checkedAt: int, finishedAt: int) returns (r: AuthResult)
      requires email == Lookup(env, EmailVar) && password == Lookup(env, PasswordVar)
      modifies this
      ensures (r, State()) == AuthenticateSpec(env, logWritable, stored, login, reply, save, checkedAt, finishedAt, old(State()))
    {
      if !Truthy(email) || !Truthy(password) {
        return Failed(CredentialsError);
      }
      ghost var s0 := State();
      var valid := CheckTokenValidity(stored, checkedAt);
      ghost var s1 := s0.(log := Logged(s0.log, logWritable, ValidationEntry(stored, checkedAt)));
      assert State() == s1;
      if valid {
        return Resumed;
      }
      ghost var (e, s2) := Attempt(env, reply, login, save, s1);
      assert AuthenticateSpec(env, logWritable, stored, login, reply, save, checkedAt, finishedAt, s0)
          == FinishStage(logWritable, e, s2, finishedAt);
      r := LoginFresh(login, reply, save, finishedAt);
    }

    /** The try block of the fresh login, then its logging and notification. */
    method LoginFresh(login: LoginScript, reply: HttpReply, save: SaveScript, at: int) returns (r: AuthResult)
      modifies this
      ensures var (e, s1) := Attempt(env, reply, login, save, old(State()));
        (r, State()) == FinishStage(logWritable, e, s1, at)
    {
      var err := Login(login, reply);
      if err.None? {
        err := SaveTokens(save);
      }
      r := Finish(err, at);
    }

    method Finish(err: Option<string>, finishedAt: int) returns (r: AuthResult)
      modifies this`log, this`events
      ensures (r, State()) == FinishStage(logWritable, err, old(State()), finishedAt)
    {
      ghost var s0 := State();
      if err.None? {
        var entry := AuditEntry(finishedAt, true, FreshLogin, None);
        LogAuthAttempt(entry);
        assert State() == s0.(log := Logged(s0.log, logWritable, entry));
        events := events + [AuthSuccess(SuccessVia)];
        return LoggedIn;
      }
      var e := err.value;
      var entry := AuditEntry(finishedAt, false, FreshLogin, Some(e));
      LogAuthAttempt(entry);
      ghost var s1 := s0.(log := Logged(s0.log, logWritable, entry));
      assert State() == s1;
      if Contains(e, RateLimitMarker) {
        events := events + [RateLimited(RateLimitMinutes)];
        assert State() == s1.(events := s1.events + [RateLimited(RateLimitMinutes)]);
        return Failed(RateLimitError);
      }
      events := events + [AuthFailure(e, true)];
      assert State() == s1.(events := s1.events + [AuthFailure(e, true)]);
      return Failed(e);
    }
  }
}
