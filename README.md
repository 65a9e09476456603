# Garmin Connect authentication helpers, modelled in Dafny

This project models the authentication side of the Garmin Connect MCP server. The parts modelled are:

- **Headless authenticator** (`HeadlessGarminAuth`, headless_auth.py). It reuses stored tokens when the probe accepts them. Otherwise it logs in afresh, asking an ordered chain of MFA strategies for a code: environment variable, then `/tmp/garmin_mfa.txt`, then a webhook, then a notification with instructions. It records every attempt in a JSON audit log capped at 50 entries and reports through the ntfy notifier.
- **ntfy notifier** (ntfy_notifier.py). It covers the primary and fallback URLs, the header set, the primary-then-fallback send, and the title, message, priority and tags of each `notify_*` call.
- **Status monitor** (monitor_auth.py). It covers the token probe, the age of the last successful authentication with its 60- and 90-day thresholds, the listing of MFA channels, and the failures of the last day.
- **Gmail code readers** (show_mfa_code.py, test_gmail_api.py, and `get_mfa_from_gmail` in monkey_patch_auth.py and auto_garth_auth.py). They choose a MIME part, strip tags with `<[^<]+?>`, and select a code: `\b(\d{6})\b`, `account\s+(\d{6})` ignoring case, and the non-`000000` fallback.
- **Prompt interception** (monkey_patch_auth.py). A patched `input` answers MFA prompts with a cached code read from Gmail.
- **Two-step challenge login** (auto_garth_auth.py).

Message bodies are decoded strings. Every foreign call is an input of the model that says what the call returns or raises. This covers garth and garminconnect logins, token dumps and probes, Gmail list and get, the webhook GET and the ntfy POST. In the headless authenticator and the monitor, the notifier is a trace of the `notify_*` calls made, as `Notices.Event` values. The notifier never raises there and its result is ignored. `Ntfy.NtfyNotifier` models what one such call posts. Two clocks appear. Audit-log timestamps are integer microseconds on the local clock, standing for the ISO strings the log stores, and `timedelta.days` is floor division. The `after:` bounds of the Gmail searches are integer epoch seconds, as `int(....timestamp())` gives them. So `GmailApiTest.CheckSearch`, `MonkeyPatch.RecentSearch`, `AutoGarth.ConnectSearch` and their `WindowSeconds` constants are in seconds.

One behaviour of test_gmail_api.py is modelled as written. `extract_body` imports `base64` inside the function, on its HTML and single-part paths only. That makes the name local to the whole function, so a text/plain part read before any HTML part raises an unbound-name error. `check_garmin_mfa_emails` then returns None (`GmailApiTest.PlainBeforeHtmlRaises`).

Modules: `Wrappers`, `Text` (Python string operations), `Patterns` (the regular expressions), `Mail`, `ShowMfaCode`, `GmailApiTest`, `GmailCode`, `Notices`, `Ntfy`, `AuditLog`, `Headless`, `Monitor`, `MonkeyPatch`, `AutoGarth`.

## Model

| member | source | states |
|---|---|---|
| Text.Strip | headless_auth.py:89 | `str.strip()`: the result is a slice s[a..b] of the input with only whitespace before a and after b, and it neither starts nor ends with whitespace; text without whitespace is unchanged |
| Text.Lower | auto_garth_auth.py:123 | `str.lower()` keeps the length and lowers each letter in place |
| Text.NatToString | ntfy_notifier.py:113 | the day count in a message is a non-empty run of decimal digits whose decimal value is the number, without a leading zero |
| Text.IntToString | ntfy_notifier.py:155 | an integer is written with a leading '-' exactly when negative, followed by digits without a leading zero whose decimal value is its absolute value |
| Mail.Listed | show_mfa_code.py:58-60 | a list call returns at most `maxResults` messages, the newest ones first, and all of them when there are fewer |
| Patterns.SearchSixDigitFrom | test_gmail_api.py:109-110 | `re.search(r'\b(\d{6})\b')`: the position found is a match and no match lies before it; None means there is no match at all |
| Patterns.FirstSixDigitCode | test_gmail_api.py:109-114 | the code is exactly six digits and is the text of the leftmost match; None exactly when nothing matches |
| Patterns.NoMatchInsideMatch | show_mfa_code.py:118 | a `\b\d{6}\b` match never starts inside another one, so findall loses nothing by resuming after a match |
| Patterns.MatchesAreMatches | show_mfa_code.py:118 | reference definition of the matches, one position at a time: every listed position starts a `\b\d{6}\b` match |
| Patterns.MatchesIncrease | show_mfa_code.py:118 | the reference lists its positions in strictly increasing order |
| Patterns.MatchesComplete | show_mfa_code.py:118 | every match at or after the start position is listed by the reference |
| Patterns.MatchesAfterMatch | show_mfa_code.py:118 | after a match at i, the next match starts at i + 6 or later |
| Patterns.FindAllIsEveryMatch | show_mfa_code.py:118 | `re.findall`, resuming after each match, returns the texts of exactly the matches of the reference, in order of position |
| Patterns.DropZeroCodes | show_mfa_code.py:122 | a code is in the filtered list exactly when it is in the input and is not `000000`; the list is no longer than the input |
| Patterns.DropZeroCodesAppend | show_mfa_code.py:122 | the filter works element by element: it distributes over concatenation, drops a lone `000000` and keeps any other lone code, so order and duplicates are kept |
| Patterns.SearchRealCodeFrom | show_mfa_code.py:118-125 | reference definition: the leftmost match at or after i that is not `000000` |
| Patterns.FallbackFromIsReference | show_mfa_code.py:118-125 | collecting with findall, dropping zeros and taking the first equals the reference search |
| Patterns.FallbackCodeIsLeftmostReal | show_mfa_code.py:118-126 | the fallback finds a code exactly when some non-zero six-digit run exists, and it is the leftmost one |
| Patterns.AccountCodeAt | show_mfa_code.py:106 | an `account\s+(\d{6})` match yields exactly six digits |
| Patterns.SearchAccountFrom | show_mfa_code.py:106-110 | the case-insensitive account search returns the leftmost match's digits, and None only when no position matches |
| Patterns.CloseFrom | show_mfa_code.py:91 | the lazy `+?` ends at the first '>' met before any '<' |
| Patterns.CloseFromNone | show_mfa_code.py:91 | no closing '>' is found exactly when a '<' or the end of the text comes before any '>' |
| Patterns.TagAt | show_mfa_code.py:91 | a tag match at i is '<', at least one character, no further '<', then '>'; it ends at the nearest such '>'; None exactly when no such span starts at i |
| Patterns.StripTagsDeletesOnly | show_mfa_code.py:91 | tag stripping only deletes characters: the output is a subsequence of the input |
| Patterns.StripTagsWithoutOpen | show_mfa_code.py:97 | text without '<' comes back from tag stripping unchanged |
| Patterns.DisplayedCode | show_mfa_code.py:106-125 | the code shown for a body is always six digits |
| ShowMfaCode.ExtractBody | show_mfa_code.py:79-97 | the part loop computes the body the display specification gives; a single part always goes through tag stripping |
| ShowMfaCode.LastPlainWins | show_mfa_code.py:81-85 | in a multipart payload the last text/plain part with text gives the body, unless a part without data aborted the read; when every earlier part has data, that text is the body |
| ShowMfaCode.HtmlFallback | show_mfa_code.py:86-91 | without a text/plain part, a non-empty body is the tag-stripped text of the first HTML part whose stripped text is not empty, every earlier HTML part having stripped to ""; an empty body means every HTML part stripped to "" |
| ShowMfaCode.DisplayedCodePrecedence | show_mfa_code.py:104-126 | the account match takes precedence; otherwise the code is the fallback's, found exactly when some non-zero six-digit run exists, and never `000000` |
| ShowMfaCode.ShowLatestMfa | show_mfa_code.py:54-133 | at most 10 mails are listed and at most the first 5 examined; each shown code is that of its mail's body; the reading stops at the first unreadable body; the latest code comes from mail 0 only |
| GmailApiTest.ExtractBody | test_gmail_api.py:123-144 | the loop with `break` computes the body extract_body gives; a single part gives its data or "" |
| GmailApiTest.PlainBeforeHtmlRaises | test_gmail_api.py:129-135 | as written, a text/plain part reached before any HTML part raises, so no body is read |
| GmailApiTest.FirstPlainWinsAfterHtml | test_gmail_api.py:129-138 | after the first HTML part has been decoded, the first text/plain part after it is the body and the scan stops |
| GmailApiTest.CheckGarminMfaEmails | test_gmail_api.py:63-121 | it searches the last 10 minutes from garmin.com with at most 10 results, reads only the newest mail, and returns the first six-digit run of its body or None; a credential failure escapes |
| GmailCode.FirstPlainPart | monkey_patch_auth.py:76-86 | the first text/plain part wins and HTML is never used; with no text/plain part the body is ""; a single body is read as it is |
| GmailCode.FirstPlainBody | monkey_patch_auth.py:78-83 | the loop with `break` computes that body |
| GmailCode.NewestCodeSource | monkey_patch_auth.py:67-97 | a code is six digits and comes from the newest listed mail's body; no mail, no data or no match gives None |
| GmailCode.FetchCode | monkey_patch_auth.py:21-101 | one Gmail read: the list call is made exactly when credentials were obtained, and the code is that of the newest mail |
| Notices.FailureMessage | ntfy_notifier.py:94-98 | the failure message starts with the header and the error, and the action hint is appended exactly when a retry is suggested |
| Notices.ExpiringNotice | ntfy_notifier.py:107-120 | nothing is sent at 60 days or less; "Critical" at urgent priority beyond 90 days; "Aging" at high priority for 61 to 90 days |
| Notices.BulletsAppend | ntfy_notifier.py:136-137 | the method lines of two lists, concatenated, are the lines of the concatenated list |
| Notices.BulletLine | ntfy_notifier.py:134-137 | each method gets its own "• method" line, after the lines of the methods before it |
| Notices.MfaRequiredMessage | ntfy_notifier.py:129-143 | the `+=` loop builds one bullet line per method, in input order; an empty list gives the fixed four-option text |
| Ntfy.NtfyNotifier.constructor | ntfy_notifier.py:18-27 | the primary URL is server + "/" + topic; the fallback is ntfy.sh with topic "garmin-mcp-" + USER; a default is used only when the variable is absent |
| Ntfy.NtfyNotifier.Bearer | ntfy_notifier.py:57-58 | a bearer token is used exactly when auth is requested and a non-empty token is configured |
| Ntfy.NtfyNotifier.Headers | ntfy_notifier.py:48-58 | the header set is exactly Content-Type, Title and Priority; `Tags` (joined with ",") is present iff there are tags; `Authorization: Bearer <token>` is present iff a bearer token is used |
| Ntfy.NtfyNotifier.SendToServer | ntfy_notifier.py:46-78 | one POST of the message with those headers; the result is true exactly on status 200, and false on another status or an exception |
| Ntfy.NtfyNotifier.Send | ntfy_notifier.py:29-44 | one post to the primary URL with the bearer token; a second post of the same message to the fallback URL, without an Authorization header, exactly when the primary fails; earlier posts untouched; the result is true iff one of the two sends succeeded |
| Ntfy.NtfyNotifier.Notify | ntfy_notifier.py:80-162 | each `notify_*` call posts its rendered notice as Send does, the fallback post carrying the same message without Authorization; notify_tokens_expiring posts nothing at 60 days or less |
| AuditLog.Last | headless_auth.py:50 | `logs[-n:]` is the whole list when it is short, else its last n entries |
| AuditLog.Appended | headless_auth.py:47-50 | after one append the log has one more entry, or exactly 50 when it was full; the new entry is last, and the kept entries are the newest suffix of old + [new] |
| AuditLog.Logged | headless_auth.py:40-56 | an unreadable or unwritable log file is left as it was and the failure never reaches the caller; a missing file starts a one-entry log |
| AuditLog.LoggedLast | headless_auth.py:40-53 | once the log can be read and written, the entry just logged is the newest one |
| AuditLog.LastOfLast | headless_auth.py:50 | truncating before later appends does not change which entries the last 50 are |
| AuditLog.AppendAllKeepsNewest | headless_auth.py:47-50 | after any number of attempts the log is the 50 newest of everything appended, in order: the oldest entries are evicted first |
| Headless.EnvCode | headless_auth.py:77-83 | the environment strategy returns GARMIN_MFA_CODE unchanged exactly when it is set and non-empty; there is no length check |
| Headless.FileCode | headless_auth.py:88-94 | the file strategy accepts exactly stripped content of length 4 or more, and returns that stripped content |
| Headless.FileAfter | headless_auth.py:93 | the MFA file is deleted exactly when its code is accepted |
| Headless.WebhookCode | headless_auth.py:97-110 | the webhook strategy returns a code only for a configured URL answering 200 with at least 4 stripped characters; a failed request gives None |
| Headless.AvailableMethods | headless_auth.py:114-120 | the method list holds the env, file and webhook labels, each exactly when configured or present, in that order |
| Headless.ChainOutcome | headless_auth.py:58-75 | the strategies run in the order env, file, webhook, instructions, and the first truthy code wins; when all three yield nothing, no code results and exactly one MfaRequired notice is sent |
| Headless.WebhookThenInstructions | headless_auth.py:70-75 | once env and file gave nothing, the webhook's code wins; without one, the instructions add one MfaRequired notice and no code results |
| Headless.InstructionsNeverOfferEnv | headless_auth.py:112-123 | the MfaRequired notice never lists the environment variable, since the instructions run only after that strategy found nothing |
| Headless.ShortFileKept | headless_auth.py:88-95 | a file whose stripped content is shorter than 4 characters is never deleted |
| Headless.ChainEvents | headless_auth.py:67-75 | the chain adds at most one notice, an MfaRequired one, and keeps the earlier notices |
| Headless.MissingCredentialsChangeNothing | headless_auth.py:163-164 | without email or password, authenticate raises before any token check, log entry or notice |
| Headless.ValidTokensSkipLogin | headless_auth.py:166-171 | valid stored tokens are reused: one successful token_validation entry, and no fresh login, notice, token write or MFA strategy |
| Headless.RateLimitedBeforeMfa | headless_auth.py:165-205 | whatever the failed token check, a login refused with "429" in its text logs one fresh_login failure, sends only notify_rate_limited, never runs the MFA chain, and raises the rate-limit message |
| Headless.RateLimitedAfterWrongCode | headless_auth.py:174-205 | a code from the chain that Garmin rejects with a "429" text is also a rate limit: after the chain's notices only notify_rate_limited is sent, nothing is saved, and the rate-limit message is raised |
| Headless.AttemptEvents | headless_auth.py:175-189 | the login and token save add at most one notice, an MfaRequired one |
| Headless.AttemptSucceeded | headless_auth.py:175-189 | the try block completes without an exception only when the dump and the base64 write both succeeded, and then both are written |
| Headless.NoticesOfOneCall | headless_auth.py:191-210 | a fresh login ends with exactly one of AuthSuccess, RateLimited or AuthFailure; AuthFailure is sent for an error without "429" and that error is re-raised |
| Headless.PartialSave | headless_auth.py:185-189 | the two token writes are not atomic: if the base64 write fails after the dump, the dump stays written while the call fails and logs a failure |
| Headless.LoggedInSavedBoth | headless_auth.py:184-197 | a successful fresh login has written both token formats, and its last notice is AuthSuccess("fresh login with 2FA") |
| Headless.EnvCodeIgnoresWebhook | headless_auth.py:60-83 | with GARMIN_MFA_CODE set, the outcome does not depend on what the webhook would answer, and the MFA file is untouched |
| Headless.ChainIgnoresWebhook | headless_auth.py:60-66 | with GARMIN_MFA_CODE set, the strategy chain returns that code whatever the webhook would answer, and changes nothing |
| Headless.AttemptIgnoresWebhook | headless_auth.py:175-189 | with GARMIN_MFA_CODE set, the login and token save do not depend on the webhook and leave the MFA file untouched |
| Headless.HeadlessGarminAuth.constructor | headless_auth.py:23-29 | credentials come from GARMIN_EMAIL and GARMIN_PASSWORD; each token store path falls back to its default when the variable is unset or empty |
| Headless.HeadlessGarminAuth.LogAuthAttempt | headless_auth.py:31-56 | the read-append-truncate-write updates the log as Logged says |
| Headless.HeadlessGarminAuth.GetMfaFromEnv | headless_auth.py:77-83 | returns the environment strategy's code |
| Headless.HeadlessGarminAuth.GetMfaFromFile | headless_auth.py:85-95 | returns the file strategy's outcome (an unreadable file raises) and deletes the file only when it accepts |
| Headless.HeadlessGarminAuth.GetMfaFromWebhook | headless_auth.py:97-110 | returns the webhook strategy's code |
| Headless.HeadlessGarminAuth.FailWithInstructions | headless_auth.py:112-146 | builds the method list by appends, sends one MfaRequired notice with it, and raises |
| Headless.HeadlessGarminAuth.GetMfaHeadless | headless_auth.py:58-75 | the loop with its early return computes the strategy chain |
| Headless.HeadlessGarminAuth.CheckTokenValidity | headless_auth.py:148-159 | the result is the probe's verdict, logged as a token_validation entry carrying the error on failure |
| Headless.HeadlessGarminAuth.Login | headless_auth.py:175-182 | the password login with get_mfa_headless as its MFA prompt |
| Headless.HeadlessGarminAuth.SaveTokens | headless_auth.py:184-189 | the dump, then the base64 write, each of which may raise |
| Headless.HeadlessGarminAuth.LoginFresh | headless_auth.py:175-210 | the try block of the fresh login followed by its logging and notification |
| Headless.HeadlessGarminAuth.Finish | headless_auth.py:191-210 | logs the fresh_login outcome, sends its notice, and returns or raises |
| Headless.HeadlessGarminAuth.Authenticate | headless_auth.py:161-210 | the result and the new state (log, MFA file, notices, token writes) are those of the authenticate specification |
| Monitor.LatestSuccess | monitor_auth.py:36-40 | the index found is a successful fresh_login or token_validation entry with no such entry after it; None means there is none |
| Monitor.FindLastSuccess | monitor_auth.py:36-40 | the reversed scan with `break` returns the entry LatestSuccess designates |
| Monitor.LatestSuccessIsLast | monitor_auth.py:37-40 | a success entry with no success after it is the one the scan designates |
| Monitor.LatestSuccessNone | monitor_auth.py:36-42 | without any success entry the scan finds nothing |
| Monitor.FilterRecent | monitor_auth.py:90-94 | the comprehension keeps exactly the failed entries less than a day old; a one-entry window is kept or dropped whole |
| Monitor.FilterRecentAppend | monitor_auth.py:90-94 | the filter distributes over concatenation, so it keeps order and duplicates |
| Monitor.AlertPolicy | monitor_auth.py:42-55 | the ageing alert fires exactly for valid tokens whose last success is more than 60 days old; it is a notice the notifier sends, "Critical" exactly when the warning is critical (beyond 90 days) |
| Monitor.AgeFromLatestSuccess | monitor_auth.py:36-44 | the age is measured from the newest successful fresh_login or token_validation entry |
| Monitor.FailureSummary | monitor_auth.py:90-98 | recent failures come only from the last 10 entries, are failed and less than a day old, and every such entry is counted, in log order (the filter of the 10-entry window); exactly the newest min(3, count) are shown |
| Monitor.MethodsListedWhenInvalid | monitor_auth.py:60-71 | the MFA channels are listed exactly for invalid tokens, env, file and webhook in that order, each exactly when configured |
| Monitor.NoAlertRightAfterValidation | monitor_auth.py:24-47 | when the probe's token_validation entry was written, a report made within a day finds age 0 and cannot fire the ageing alert |
| Monitor.FreshSuccessAge | monitor_auth.py:24-44 | after the probe's successful token_validation entry is written, a report made within a day measures age 0 |
| Monitor.ValidatedWithinADay | monitor_auth.py:36-44 | a log whose newest entry is a successful validation less than a day old gives age 0 |
| Monitor.FreshReport | monitor_auth.py:42-55 | with age 0 the report carries no warning and no ageing alert |
| Monitor.CheckAuthStatus | monitor_auth.py:14-105 | returns exactly the probe's verdict, logs the validation entry, and reports what StatusReport gives for the log after that entry |
| MonkeyPatch.RecentSearch | monkey_patch_auth.py:60-64 | the search is from:garmin.com over the last 5 minutes, at most 5 results, with no subject |
| MonkeyPatch.OtherPromptsDelegated | monkey_patch_auth.py:108-118 | a prompt with neither "MFA" nor any-case "code" goes to the original input unchanged, with no fetch |
| MonkeyPatch.CachedCodeReused | monkey_patch_auth.py:110-116 | once a code is cached, later MFA prompts get the same code without reading Gmail again |
| MonkeyPatch.FailedFetchRetried | monkey_patch_auth.py:111-115 | a failed fetch raises and leaves the cache empty, so the next MFA prompt reads Gmail again |
| MonkeyPatch.InputAlwaysRestored | monkey_patch_auth.py:136-179 | `builtins.input` is the original again on every exit path |
| MonkeyPatch.TriggerSucceedsGivesFalse | monkey_patch_auth.py:141-145 | a trigger login that needs no MFA gives False, saves no tokens and reads no mail |
| MonkeyPatch.TrueOnlyAfterSave | monkey_patch_auth.py:136-172 | True exactly when the credentials are set, the trigger login raised, the second login succeeded, and the dump and the probe succeeded; True implies the tokens were saved |
| MonkeyPatch.SecondLoginUsesTriggerCode | monkey_patch_auth.py:141-156 | a code fetched during the trigger login is reused for the second login, and Gmail is not read after the wait |
| MonkeyPatch.Runtime.constructor | monkey_patch_auth.py:19 | the process starts with no cached code and the original input |
| MonkeyPatch.Runtime.PatchedInput | monkey_patch_auth.py:107-118 | patched_input behaves as the input specification says, with the fetch being get_mfa_from_gmail's code |
| MonkeyPatch.Runtime.Login | monkey_patch_auth.py:141-156 | a garth login whose prompt goes through the patched input |
| MonkeyPatch.Runtime.MonkeyPatchAuth | monkey_patch_auth.py:123-179 | the result and the new state are those of the flow specification, each login reading the mailbox at its own time |
| AutoGarth.ConnectSearch | auto_garth_auth.py:56-60 | the search is from:garmin.com with subject "Garmin Connect" over the last 5 minutes, at most 5 results |
| AutoGarth.ChallengeWords | auto_garth_auth.py:122-124 | a GarthException counts as an MFA challenge exactly when its lowercased text contains "mfa", "verification" or "code" |
| AutoGarth.ChallengeIgnoresCase | auto_garth_auth.py:123 | text and its lowercase form are classified alike |
| AutoGarth.MailReadOnlyOnChallenge | auto_garth_auth.py:122-147 | Gmail is read exactly for a GarthException that reads like a challenge; any other GarthException gives False |
| AutoGarth.NoCodeNoSecondLogin | auto_garth_auth.py:132-135 | without a code the result is False and there is no second login |
| AutoGarth.DumpOnlyAfterLogin | auto_garth_auth.py:113-163 | tokens are dumped only after a first login that raised nothing or a successful second login; True needs the dump and the probe |
| AutoGarth.OnlyForeignErrorsEscape | auto_garth_auth.py:117-122 | only an exception from the first login that is not a GarthException escapes; every other path returns a boolean |
| AutoGarth.AutoGarthAuth | auto_garth_auth.py:99-167 | the outcome and trace are those of the flow specification, with the code read through FetchCode using this script's search |

## Left out

- Network, Gmail and garth calls are inputs of the model, not implementations: ntfy POSTs, the webhook GET, Gmail OAuth, list and get, garth login, dump, load and the profile probe.
- base64 and UTF-8 decoding: bodies are already-decoded strings.
- `print` output, the instruction banner and the `time.sleep` waits. They change nothing that is returned or stored.
- Text.Lower: ASCII letters only, where Python's `str.lower` also lowers other scripts. Likewise `\d` and `\w` in the patterns are ASCII, where Python's are Unicode-aware.
- Patterns.AccountCodeAt: the IGNORECASE match of "account" is ASCII case folding.
- File-system detail: the audit log is a value (missing, unreadable, or a list), and a malformed entry (a missing key) is not modelled. Deleting the MFA file is assumed to succeed. The second token load after a valid probe in authenticate (headless_auth.py:169-170) is assumed to succeed.
- Mail.Mailbox: a failed `messages().get` call is folded into ApiFailure. A message is always read in full or not at all.
- MonkeyPatch.Runtime.MonkeyPatchAuth: takes "credentials present" as a boolean instead of reading GARMIN_EMAIL and GARMIN_PASSWORD; AutoGarth.AutoGarthAuth does the same.
- The token-store path expansion and `os.getenv("GARMINTOKENS", ...)` defaults of the two garth scripts. They do not influence any outcome modelled.
- `NtfyNotifier.test_notification` and `send_test_notification` are test helpers outside the notification policy.
- `setup_cron_monitoring` in monitor_auth.py only prints a crontab line.
- The MCP server, the interactive setup scripts, and the scripts with hard-coded codes or their own copies of the Gmail extractor are not part of this model.
- Monitor.CheckAuthStatus: one `now` stands for the clock readings of the validation entry and of the report, where the source reads the clock separately for each (headless_auth.py:34, monitor_auth.py:43 and 93).
- FindAllSixDigitFrom: its own ensures state only that each item is six digits; that the items are exactly the matches of the reference, in order, is stated by Patterns.FindAllIsEveryMatch.
- CloseFrom: its own ensures state only the found case; the None case is stated by Patterns.CloseFromNone.
- Concurrency: the global code cache and `builtins.input` are modelled for one thread.
