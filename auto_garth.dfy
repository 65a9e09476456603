/**
 * auto_garth_auth.py: log in once; when garth raises an error that reads like an MFA challenge,
 * read the code from Gmail and log in a second time with it; then dump and probe the tokens.
 *
 * The garth calls are oracles; the Gmail read is GmailCode.FetchCode with this script's search.
 */
module AutoGarth {
  import opened Wrappers
  import opened Text
  import opened Mail
  import opened GmailCode

  const WindowSeconds: int := 300
  const ListLimit: nat := 5
  const Subject: string := "Garmin Connect"

  /** The words whose presence in the lowercased GarthException text signals an MFA challenge. */
  const ChallengeMarkers: seq<string> := ["mfa", "verification", "code"]

  /** The search this script sends: garmin.com, subject "Garmin Connect", the last five minutes,
      at most five results. */
  function ConnectSearch(now: int): (q: Search)
    ensures q.sender == GarminSender && q.subject == Some(Subject)
    ensures q.after == Some(now - WindowSeconds) && q.maxResults == ListLimit
  {
    Search(GarminSender, Some(Subject), Some(now - WindowSeconds), ListLimit)
  }

  /** The challenge test, for any marker list. */
  predicate MentionsAny(text: string, markers: seq<string>) {
    exists i | 0 <= i < |markers| :: Contains(Lower(text), markers[i])
  }

  predicate IsChallenge(text: string) {
    MentionsAny(text, ChallengeMarkers)
  }

  /** The challenge test is exactly the three substring checks of the source, case-insensitive. */
  lemma ChallengeWords(text: string)
    ensures IsChallenge(text) <==>
      Contains(Lower(text), "mfa") || Contains(Lower(text), "verification") || Contains(Lower(text), "code")
  {
    assert ChallengeMarkers[0] == "mfa" && ChallengeMarkers[1] == "verification" && ChallengeMarkers[2] == "code";
  }

  /** Case does not matter to the test: a text and its lowercase form are classified alike. */
  lemma ChallengeIgnoresCase(text: string)
    ensures IsChallenge(Lower(text)) <==> IsChallenge(text)
  {
    LowerIdempotent(text);
  }

  lemma LowerIdempotent(s: string)
    ensures Lower(Lower(s)) == Lower(s)
  {
    assert forall i | 0 <= i < |s| :: Lower(Lower(s))[i] == Lower(s)[i];
  }

  /** What the first `client.login(email, password)` does. */
  datatype FirstLogin = Succeeds | GarthError(text: string) | OtherError(text: string)

  /** How auto_garth_auth ends: it returns a boolean, or an exception escapes it. */
  datatype Outcome = Returned(ok: bool) | Propagated(error: string)

  /** What happened on the way, for the properties below. */
  datatype Trace = Trace(mailRead: bool, secondLogin: bool, tokensDumped: bool)

  /** auto_garth_auth. `fetched` is what the Gmail read returns, `mfaOk` whether the second login
      succeeds, `dumpOk` and `testOk` whether the dump and the probe succeed. */
  function AutoSpec(hasCredentials: bool, first: FirstLogin, fetched: Option<string>, mfaOk: bool,
                    dumpOk: bool, testOk: bool): (Outcome, Trace)
  {
    if !hasCredentials then (Returned(false), Trace(false, false, false))
    else
      match first
      case OtherError(e) => (Propagated(e), Trace(false, false, false))
      case GarthError(e) =>
        if !IsChallenge(e) then (Returned(false), Trace(false, false, false))
        else if !(fetched.Some? && fetched.value != "") then (Returned(false), Trace(true, false, false))
        else if !mfaOk then (Returned(false), Trace(true, true, false))
        else (Returned(dumpOk && testOk), Trace(true, true, dumpOk))
      case Succeeds => (Returned(dumpOk && testOk), Trace(false, false, dumpOk))
  }

  /** Gmail is read exactly for a GarthException that reads like a challenge; any other
      GarthException ends the call with False before anything else happens. */
  lemma MailReadOnlyOnChallenge(hasCredentials: bool, first: FirstLogin, fetched: Option<string>, mfaOk: bool, dumpOk: bool, testOk: bool)
    ensures var (_, t) := AutoSpec(hasCredentials, first, fetched, mfaOk, dumpOk, testOk);
      t.mailRead <==> hasCredentials && first.GarthError? && IsChallenge(first.text)
    ensures hasCredentials && first.GarthError? && !IsChallenge(first.text) ==>
      AutoSpec(hasCredentials, first, fetched, mfaOk, dumpOk, testOk) == (Returned(false), Trace(false, false, false))
  {
  }

  /** Without a code there is no second login and the result is False. */
  lemma NoCodeNoSecondLogin(first: FirstLogin, mfaOk: bool, dumpOk: bool, testOk: bool)
    requires first.GarthError? && IsChallenge(first.text)
    ensures AutoSpec(true, first, None, mfaOk, dumpOk, testOk) == (Returned(false), Trace(true, false, false))
  {
  }

  /** Tokens are dumped only after a first login that raised nothing or a successful second
      login, and True needs the dump and the probe to succeed. */
  lemma DumpOnlyAfterLogin(hasCredentials: bool, first: FirstLogin, fetched: Option<string>, mfaOk: bool, dumpOk: bool, testOk: bool)
    ensures var (o, t) := AutoSpec(hasCredentials, first, fetched, mfaOk, dumpOk, testOk);
      (t.tokensDumped ==> hasCredentials && dumpOk && (first.Succeeds? || (t.secondLogin && mfaOk)))
      && (o == Returned(true) ==> t.tokensDumped && testOk)
  {
  }

  /** An exception from the first login that is not a GarthException escapes the function;
      every other path returns a boolean. */
  lemma OnlyForeignErrorsEscape(hasCredentials: bool, first: FirstLogin, fetched: Option<string>, mfaOk: bool, dumpOk: bool, testOk: bool)
    ensures AutoSpec(hasCredentials, first, fetched, mfaOk, dumpOk, testOk).0.Propagated? <==>
      hasCredentials && first.OtherError?
  {
  }

  /** auto_garth_auth, with Gmail read through FetchCode. */
  method AutoGarthAuth(hasCredentials: bool, first: FirstLogin, mailbox: Mailbox, now: int, mfaOk: bool,
                       dumpOk: bool, testOk: bool) returns (o: Outcome, t: Trace, request: Option<Search>)
    ensures (o, t) == AutoSpec(hasCredentials, first, NewestCode(mailbox, ListLimit), mfaOk, dumpOk, testOk)
    ensures request.Some? ==> t.mailRead && request.value == ConnectSearch(now)
  {
    request := None;
    t := Trace(false, false, false);
    if !hasCredentials {
      return Returned(false), t, request;
    }
    match first {
      case OtherError(e) =>
        return Propagated(e), t, request;
      case GarthError(e) =>
        var lowered := Lower(e);
        if !(Contains(lowered, "mfa") || Contains(lowered, "verification") || Contains(lowered, "code")) {
          return Returned(false), t, request;
        }
        ChallengeWords(e);
        var code;
        code, request := FetchCode(mailbox, ConnectSearch(now));
        t := t.(mailRead := true);
        if !(code.Some? && code.value != "") {
          return Returned(false), t, request;
        }
        t := t.(secondLogin := true);
        if !mfaOk {
          return Returned(false), t, request;
        }
      case Succeeds =>
    }
    if !dumpOk {
      return Returned(false), t, request;
    }
    t := t.(tokensDumped := true);
    return Returned(testOk), t, request;
  }
}
