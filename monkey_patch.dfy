/**
 * monkey_patch_auth.py: replace `builtins.input` so that the MFA prompt garth shows is answered
 * with a code read from Gmail, cache that code process-wide, and log in twice: once to trigger
 * the MFA mail, once to use it.
 *
 * The garth logins, the token dump and the profile probe are oracles. A mail fetch is the value
 * get_mfa_from_gmail returns during a given login; its computation is GmailCode.NewestCode.
 */
module MonkeyPatch {
  import opened Wrappers
  import opened Text
  import opened Mail
  import opened GmailCode

  const WindowSeconds: int := 300
  const ListLimit: nat := 5
  const FetchError: string := "Could not retrieve MFA code from Gmail"

  /** The search get_mfa_from_gmail sends: the last five minutes from garmin.com, at most five. */
  function RecentSearch(now: int): (q: Search)
    ensures q.sender == GarminSender && q.subject == None && q.maxResults == ListLimit
    ensures q.after == Some(now - WindowSeconds)
  {
    Search(GarminSender, None, Some(now - WindowSeconds), ListLimit)
  }

  /** patched_input's test: "MFA" case-sensitively, or "code" in any case. */
  predicate Intercepts(prompt: string) {
    Contains(prompt, "MFA") || Contains(Lower(prompt), "code")
  }

  /** What a call of `input(prompt)` gives: the text answered, or an exception. */
  datatype Answer = Typed(text: string) | InputRaised(message: string)

  /** The process state the script touches: the global code cache, whether `builtins.input` is
      the patched function, how many times Gmail was read, and whether tokens were written. */
  datatype PatchState = PatchState(cache: Option<string>, inputPatched: bool, fetches: nat, tokensSaved: bool)

  /** One call of patched_input. `fetched` is what get_mfa_from_gmail returns if it is called;
      `console` is what the original input returns. */
  function InputSpec(s: PatchState, prompt: string, fetched: Option<string>, console: string): (Answer, PatchState) {
    if !Intercepts(prompt) then (Typed(console), s)
    else if s.cache.Some? then (Typed(s.cache.value), s)
    else
      var s1 := s.(cache := fetched, fetches := s.fetches + 1);
      if fetched.Some? && fetched.value != "" then (Typed(fetched.value), s1)
      else (InputRaised(FetchError), s1)
  }

  /** A prompt that is not an MFA prompt goes to the original input unchanged. */
  lemma OtherPromptsDelegated(s: PatchState, prompt: string, fetched: Option<string>, console: string)
    requires !Contains(prompt, "MFA") && !Contains(Lower(prompt), "code")
    ensures InputSpec(s, prompt, fetched, console) == (Typed(console), s)
  {
  }

  /** Once a code was fetched, every later MFA prompt gets the same code and Gmail is not read
      again, whatever the mailbox would now hold. */
  lemma CachedCodeReused(s: PatchState, p1: string, p2: string, fetched1: Option<string>, fetched2: Option<string>, console: string)
    requires Intercepts(p1) && Intercepts(p2)
    requires InputSpec(s, p1, fetched1, console).0.Typed?
    ensures var (a1, s1) := InputSpec(s, p1, fetched1, console);
      var (a2, s2) := InputSpec(s1, p2, fetched2, console);
      a2 == a1 && s2 == s1 && s1.fetches <= s.fetches + 1 && s1.cache == Some(a1.text)
  {
  }

  /** A failed fetch raises and leaves nothing cached, so the next MFA prompt reads Gmail again. */
  lemma FailedFetchRetried(s: PatchState, p1: string, p2: string, fetched2: Option<string>, console: string)
    requires Intercepts(p1) && Intercepts(p2) && s.cache.None?
    ensures var (a1, s1) := InputSpec(s, p1, None, console);
      var (a2, s2) := InputSpec(s1, p2, fetched2, console);
      a1 == InputRaised(FetchError) && s1.cache.None?
      && s2.fetches == s.fetches + 2 && s2.cache == fetched2
  {
  }

  /** What one `client.login(email, password)` does: raise before prompting, succeed without a
      prompt, or prompt through `input` and accept exactly `expected`, raising `rejection`
      otherwise (an exception from the prompt propagates). */
  datatype PromptLogin = LoginFails(error: string) | LoginOk | Prompts(prompt: string, expected: string, rejection: string)

  /** A login: the error it raises, if any. */
  function LoginSpec(login: PromptLogin, s: PatchState, fetched: Option<string>, console: string): (Option<string>, PatchState) {
    match login
    case LoginFails(e) => (Some(e), s)
    case LoginOk => (None, s)
    case Prompts(prompt, expected, rejection) =>
      var (a, s1) := InputSpec(s, prompt, fetched, console);
      if a.InputRaised? then (Some(a.message), s1)
      else if a.text == expected then (None, s1)
      else (Some(rejection), s1)
  }

  /** What the dump and the token probe do. */
  datatype Finish = Finish(dumpOk: bool, testOk: bool)

  /** monkey_patch_auth, as a function of the credentials, the two logins, the code each would
      fetch, the console and the finish. */
  function AuthSpec(hasCredentials: bool, login1: PromptLogin, fetched1: Option<string>,
                    login2: PromptLogin, fetched2: Option<string>, console: string, finish: Finish, s: PatchState): (bool, PatchState)
  {
    if !hasCredentials then (false, s)
    else
      var s0 := s.(inputPatched := true);
      var (e1, s1) := LoginSpec(login1, s0, fetched1, console);
      if e1.None? then (false, s1.(inputPatched := false))
      else
        var (e2, s2) := LoginSpec(login2, s1, fetched2, console);
        if e2.Some? || !finish.dumpOk then (false, s2.(inputPatched := false))
        else (finish.testOk, s2.(tokensSaved := true, inputPatched := false))
  }

  /** Whatever happens, `builtins.input` is the original function again when the call returns. */
  lemma InputAlwaysRestored(hasCredentials: bool, login1: PromptLogin, fetched1: Option<string>,
                            login2: PromptLogin, fetched2: Option<string>, console: string, finish: Finish, s: PatchState)
    requires !s.inputPatched
    ensures !AuthSpec(hasCredentials, login1, fetched1, login2, fetched2, console, finish, s).1.inputPatched
  {
  }

  /** A trigger login that needs no MFA ends the run with False and saves nothing. */
  lemma TriggerSucceedsGivesFalse(login2: PromptLogin, fetched1: Option<string>, fetched2: Option<string>,
                                  console: string, finish: Finish, s: PatchState)
    ensures var (ok, s1) := AuthSpec(true, LoginOk, fetched1, login2, fetched2, console, finish, s);
      !ok && s1.tokensSaved == s.tokensSaved && s1.cache == s.cache && s1.fetches == s.fetches
  {
  }

  /** True exactly when the trigger login raised, the second login succeeded, the tokens were
      written and the probe passed; True implies the tokens were saved. */
  lemma TrueOnlyAfterSave(hasCredentials: bool, login1: PromptLogin, fetched1: Option<string>,
                          login2: PromptLogin, fetched2: Option<string>, console: string, finish: Finish, s: PatchState)
    ensures var (ok, s1) := AuthSpec(hasCredentials, login1, fetched1, login2, fetched2, console, finish, s);
      var (e1, t1) := LoginSpec(login1, s.(inputPatched := true), fetched1, console);
      (ok <==> hasCredentials && e1.Some? && LoginSpec(login2, t1, fetched2, console).0.None?
               && finish.dumpOk && finish.testOk)
      && (ok ==> !login1.LoginOk? && s1.tokensSaved)
  {
  }

  /** When the trigger login already prompts and Gmail yields a code then (typically that of an
      older mail, since the new one has not arrived), the second login is answered with that
      same cached code and Gmail is not read after the wait. */
  lemma SecondLoginUsesTriggerCode(p1: string, rejection1: string, expected1: string, login2: PromptLogin,
                                   code: string, fetched2: Option<string>, console: string, finish: Finish, s: PatchState)
    requires s.cache.None? && Intercepts(p1) && code != "" && code != expected1
    requires login2.Prompts? && Intercepts(login2.prompt)
    ensures var (ok, s1) := AuthSpec(true, Prompts(p1, expected1, rejection1), Some(code), login2, fetched2, console, finish, s);
      s1.fetches == s.fetches + 1 && s1.cache == Some(code)
      && (ok ==> code == login2.expected)
  {
  }

  class Runtime {
    var cache: Option<string>
    var inputPatched: bool
    var fetches: nat
    var tokensSaved: bool

    constructor()
      ensures cache == None && !inputPatched && fetches == 0 && !tokensSaved
    {
      cache := None;
      inputPatched := false;
      fetches := 0;
      tokensSaved := false;
    }

    function State(): PatchState
      reads this
    {
      PatchState(cache, inputPatched, fetches, tokensSaved)
    }

    /** patched_input. `mailbox` is what Gmail holds if it is read now. */
    method PatchedInput(prompt: string, mailbox: Mailbox, now: int, console: string) returns (a: Answer)
      modifies this`cache, this`fetches
      ensures (a, State()) == InputSpec(old(State()), prompt, NewestCode(mailbox, ListLimit), console)
    {
      if Contains(prompt, "MFA") || Contains(Lower(prompt), "code") {
        if cache.None? {
          var fetched, _ := FetchCode(mailbox, RecentSearch(now));
          fetches := fetches + 1;
          cache := fetched;
          if !(cache.Some? && cache.value != "") {
            return InputRaised(FetchError);
          }
        }
        return Typed(cache.value);
      }
      return Typed(console);
    }

    method Login(login: PromptLogin, mailbox: Mailbox, now: int, console: string) returns (err: Option<string>)
      modifies this`cache, this`fetches
      ensures (err, State()) == LoginSpec(login, old(State()), NewestCode(mailbox, ListLimit), console)
    {
      match login
      case LoginFails(e) => return Some(e);
      case LoginOk => return None;
      case Prompts(prompt, expected, rejection) =>
        var a := PatchedInput(prompt, mailbox, now, console);
        if a.InputRaised? {
          return Some(a.message);
        }
        if a.text == expected {
          return None;
        }
        return Some(rejection);
    }

    /** monkey_patch_auth. Each login reads the mailbox as it is at that login's time. */
    method MonkeyPatchAuth(hasCredentials: bool, login1: PromptLogin, mailbox1: Mailbox, now1: int,
                           login2: PromptLogin, mailbox2: Mailbox, now2: int, console: string, finish: Finish)
      returns (ok: bool)
      modifies this
      ensures (ok, State()) == AuthSpec(hasCredentials, login1, NewestCode(mailbox1, ListLimit),
                                        login2, NewestCode(mailbox2, ListLimit), console, finish, old(State()))
    {
      if !hasCredentials {
        return false;
      }
      inputPatched := true;
      var err := Login(login1, mailbox1, now1, console);
      if err.None? {
        ok := false;
      } else {
        err := Login(login2, mailbox2, now2, console);
        if err.Some? || !finish.dumpOk {
          ok := false;
        } else {
          tokensSaved := true;
          ok := finish.testOk;
        }
      }
      inputPatched := false;
    }
  }
}
