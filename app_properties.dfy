/**
 * What the controller's transitions promise: the validators' effect on their
 * error slot, the submit decision procedure, token storage, the status check,
 * closing the modal, and the invariant every transition keeps.
 */
module AppProperties {
  import opened Wrappers
  import opened FieldChecks
  import opened AppSpec

  /** The text an error slot shows after a check: the message, or nothing. */
  function SlotText(v: Verdict): string {
    if v.Accepted? then "" else v.message
  }

  // ------------------------------------------------------------ validators

  /** An empty email is rejected as missing and marks the input; nothing else changes. */
  lemma EmptyEmailRequired(st: State)
    ensures ValidateEmail(st, "") == st.(form := st.form.(emailErrorText := EmailRequired, emailMarked := true))
  {
  }

  /**
   * A non-empty email that matches the regular expression clears the slot and
   * the mark; one that does not shows the shape message and marks the input.
   */
  lemma ValidateEmailFollowsPattern(st: State, email: string)
    requires email != ""
    ensures MatchesEmailPattern(email) ==>
      ValidateEmail(st, email) == st.(form := st.form.(emailErrorText := "", emailMarked := false))
    ensures !MatchesEmailPattern(email) ==>
      ValidateEmail(st, email) == st.(form := st.form.(emailErrorText := EmailInvalid, emailMarked := true))
  {
    match EmailCheck(email)
    case Accepted =>
    case Rejected(m) =>
  }

  /** The password check against JavaScript's length in UTF-16 code units. */
  lemma ValidatePasswordFollowsLength(st: State, password: string)
    ensures password == "" ==>
      ValidatePassword(st, password) == st.(form := st.form.(passwordErrorText := PasswordRequired, passwordMarked := true))
    ensures password != "" && Utf16Length(password) < MinPasswordLength ==>
      ValidatePassword(st, password) == st.(form := st.form.(passwordErrorText := PasswordTooShort, passwordMarked := true))
    ensures Utf16Length(password) >= MinPasswordLength ==>
      ValidatePassword(st, password) == st.(form := st.form.(passwordErrorText := "", passwordMarked := false))
  {
    match PasswordCheck(password)
    case Accepted =>
    case Rejected(m) =>
  }

  /** Typing clears that field's message only: the error mark stays and nothing is re-validated. */
  lemma InputClearsMessageOnly(st: State, f: Field, value: string)
    ensures f == EmailField ==> Input(st, f, value) == st.(form := st.form.(emailValue := value, emailErrorText := ""))
    ensures f == PasswordField ==> Input(st, f, value) == st.(form := st.form.(passwordValue := value, passwordErrorText := ""))
  {
  }

  // ------------------------------------------------------------ submit

  /** Running both checks touches the two slots and the two marks and nothing else. */
  lemma ValidateBoth(st: State, email: string, password: string)
    ensures ValidatePassword(ValidateEmail(st, email), password) ==
      st.(form := st.form.(
        emailErrorText := SlotText(EmailCheck(email)), emailMarked := EmailCheck(email).Rejected?,
        passwordErrorText := SlotText(PasswordCheck(password)), passwordMarked := PasswordCheck(password).Rejected?))
  {
    var afterEmail := st.(form := st.form.(emailErrorText := SlotText(EmailCheck(email)), emailMarked := EmailCheck(email).Rejected?));
    assert ValidateEmail(st, email) == afterEmail by {
      match EmailCheck(email)
      case Accepted =>
      case Rejected(m) =>
    }
    match PasswordCheck(password)
    case Accepted =>
    case Rejected(m) =>
  }

  /**
   * When either field fails, both checks still ran (each slot shows its own
   * verdict) and no identity call was made: session, location and timers are
   * untouched.
   */
  lemma SubmitRejectedMakesNoCall(st: State, login: Response, register: Response)
    requires !InputsAccepted(st.form.emailValue, st.form.passwordValue)
    ensures var r := Submit(st, login, register);
      && r.requests == st.requests
      && r.form.emailErrorText == SlotText(EmailCheck(st.form.emailValue))
      && r.form.passwordErrorText == SlotText(PasswordCheck(st.form.passwordValue))
      && r.form.emailMarked == EmailCheck(st.form.emailValue).Rejected?
      && r.form.passwordMarked == PasswordCheck(st.form.passwordValue).Rejected?
      && r.session == st.session && r.display == st.display
      && r.location == st.location && r.timers == st.timers
  {
    ValidateBoth(st, st.form.emailValue, st.form.passwordValue);
  }

  /** The state a submit reaches once both checks have passed. */
  lemma SubmitAccepted(st: State, login: Response, register: Response)
    requires InputsAccepted(st.form.emailValue, st.form.passwordValue)
    ensures var e, p := st.form.emailValue, st.form.passwordValue;
      var checked := st.(form := st.form.(emailErrorText := "", emailMarked := false,
                                          passwordErrorText := "", passwordMarked := false));
      Submit(st, login, register) == LoginOrRegister(checked, e, p, login, register)
  {
    ValidateBoth(st, st.form.emailValue, st.form.passwordValue);
  }

  /**
   * The identity calls one submit makes: none when a field fails; otherwise a
   * login, followed by a registration only when login threw. Never more than two.
   */
  lemma SubmitIdentityCalls(st: State, login: Response, register: Response)
    ensures var r := Submit(st, login, register);
      var e, p := st.form.emailValue, st.form.passwordValue;
      && |st.requests| <= |r.requests| <= |st.requests| + 2
      && r.requests[..|st.requests|] == st.requests
      && var calls := r.requests[|st.requests|..];
      && (!InputsAccepted(e, p) ==> calls == [])
      && (InputsAccepted(e, p) && Latin1(Credentials(e, p)) && login.Ok? ==>
            calls == [Login(Credentials(e, p))])
      && (InputsAccepted(e, p) && Latin1(Credentials(e, p)) && !login.Ok? ==>
            calls == [Login(Credentials(e, p)), Register(e, p)])
      && (InputsAccepted(e, p) && !Latin1(Credentials(e, p)) ==>
            calls == [Register(e, p)])
  {
    var e, p := st.form.emailValue, st.form.passwordValue;
    if InputsAccepted(e, p) {
      SubmitAccepted(st, login, register);
      var checked := st.(form := st.form.(emailErrorText := "", emailMarked := false,
                                          passwordErrorText := "", passwordMarked := false));
      if Latin1(Credentials(e, p)) {
        AuthenticateOutcome(checked, e, p, login);
        if !login.Ok? {
          RegisterOutcome(Authenticate(checked, e, p, login).state, e, p, register);
        }
      } else {
        RegisterOutcome(checked, e, p, register);
      }
    } else {
      SubmitRejectedMakesNoCall(st, login, register);
    }
  }

  /** The generic failure message is shown exactly when login and then registration both threw. */
  lemma SubmitFailureMessage(st: State, login: Response, register: Response)
    ensures Submit(st, login, register).form.emailErrorText == RegistrationFailed <==>
      && InputsAccepted(st.form.emailValue, st.form.passwordValue)
      && LoginThrows(st.form.emailValue, st.form.passwordValue, login)
      && !register.Ok?
  {
    var e, p := st.form.emailValue, st.form.passwordValue;
    if InputsAccepted(e, p) {
      SubmitAccepted(st, login, register);
    } else {
      SubmitRejectedMakesNoCall(st, login, register);
      assert RegistrationFailed != EmailRequired && RegistrationFailed != EmailInvalid && RegistrationFailed != "" by {
        assert |RegistrationFailed| != |EmailRequired| && |RegistrationFailed| != |EmailInvalid|;
      }
    }
  }

  /**
   * Credentials that Base64 encoding refuses never reach the login endpoint:
   * the submit goes straight to registration.
   */
  lemma NonLatin1CredentialsSkipLogin(st: State, login: Response, register: Response)
    requires InputsAccepted(st.form.emailValue, st.form.passwordValue)
    requires !Latin1(Credentials(st.form.emailValue, st.form.passwordValue))
    ensures Submit(st, login, register) == Submit(st, Throws, register)
    ensures Submit(st, login, register).requests == st.requests + [Register(st.form.emailValue, st.form.passwordValue)]
  {
    SubmitAccepted(st, login, register);
    SubmitAccepted(st, Throws, register);
  }

  /** The example of a malformed email: blocked, with the shape message and no call. */
  lemma NotAnEmailIsBlocked(st: State, login: Response, register: Response)
    requires st.form.emailValue == "not-an-email"
    ensures var r := Submit(st, login, register);
      r.requests == st.requests && r.form.emailErrorText == EmailInvalid && r.form.emailMarked
  {
    assert !IsEmailShape("not-an-email") by {
      assert '@' !in "not-an-email";
    }
    EmailShapeIsPattern("not-an-email");
    SubmitRejectedMakesNoCall(st, login, register);
  }

  /** A valid email with a password whose JavaScript length is seven: blocked with the length message. */
  lemma SevenCharacterPasswordIsBlocked(st: State, login: Response, register: Response)
    requires EmailCheck(st.form.emailValue).Accepted?
    requires Utf16Length(st.form.passwordValue) == 7
    ensures var r := Submit(st, login, register);
      && r.requests == st.requests
      && r.form.passwordErrorText == PasswordTooShort && r.form.emailErrorText == ""
  {
    SubmitRejectedMakesNoCall(st, login, register);
  }

  /**
   * Login refused but registration accepted with a token: the token is
   * stored, the success panel is up, one redirect is scheduled and none has
   * happened yet; exactly two calls. Firing the timer then navigates.
   */
  lemma RegisterAfterLoginRefused(st: State, token: string)
    requires InputsAccepted(st.form.emailValue, st.form.passwordValue)
    requires Latin1(Credentials(st.form.emailValue, st.form.passwordValue))
    requires token != "" && st.timers == []
    ensures var r := Submit(st, NotOk, Ok(Some(token)));
      && r.requests == st.requests + [Login(Credentials(st.form.emailValue, st.form.passwordValue)),
                                      Register(st.form.emailValue, st.form.passwordValue)]
      && r.session == Session(st.session.storage[TokenKey := token], Some(token), true)
      && r.display.successVisible && !r.display.formVisible && !r.display.headerVisible
      && r.timers == [token] && r.location == st.location
      && FireRedirectTimer(r).location == Some(AuthZoneUrl(token))
      && FireRedirectTimer(r).timers == []
  {
    SubmitAccepted(st, NotOk, Ok(Some(token)));
  }

  // ------------------------------------------------------------ identity calls

  /**
   * Login: a success with a token stores it, authenticates and navigates at
   * once; a success without one changes nothing and does not throw; anything
   * else throws. Each sends exactly one request when the credentials encode.
   */
  lemma AuthenticateOutcome(st: State, email: string, password: string, resp: Response)
    requires Latin1(Credentials(email, password))
    ensures var a := Authenticate(st, email, password, resp);
      var sent := st.(requests := st.requests + [Login(Credentials(email, password))]);
      && (resp.Ok? && Truthy(resp.token) ==>
            && !a.threw
            && a.state.session == Session(st.session.storage[TokenKey := resp.token.value], resp.token, true)
            && a.state.location == Some(AuthZoneUrl(resp.token.value))
            && a.state.form == st.form && a.state.display == st.display
            && a.state.timers == st.timers && a.state.requests == sent.requests)
      && (resp.Ok? && !Truthy(resp.token) ==> !a.threw && a.state == sent)
      && (!resp.Ok? ==> a.threw && a.state == sent)
  {
  }

  /**
   * Registration: a success with a token stores it, authenticates, shows the
   * success panel and schedules a redirect without navigating; a success
   * without one changes nothing; anything else throws.
   */
  lemma RegisterOutcome(st: State, email: string, password: string, resp: Response)
    ensures var r := RegisterUser(st, email, password, resp);
      var sent := st.(requests := st.requests + [Register(email, password)]);
      && (resp.Ok? && Truthy(resp.token) ==>
            && !r.threw
            && r.state.session == Session(st.session.storage[TokenKey := resp.token.value], resp.token, true)
            && r.state.location == st.location
            && r.state.timers == st.timers + [resp.token.value]
            && r.state.display == st.display.(headerVisible := false, formVisible := false, successVisible := true)
            && r.state.form == st.form && r.state.requests == sent.requests)
      && (resp.Ok? && !Truthy(resp.token) ==> !r.threw && r.state == sent)
      && (!resp.Ok? ==> r.threw && r.state == sent)
  {
  }

  /**
   * The status check: without a usable token it does nothing at all; on
   * success the token is kept and followed; on any failure the stored token
   * is removed and the session is anonymous. Other storage keys survive.
   */
  lemma CheckAuthStatusOutcome(st: State, resp: Response)
    ensures var r := CheckAuthStatus(st, resp);
      var token := st.session.authToken;
      && (!Truthy(token) ==> r == st)
      && (Truthy(token) && resp.Ok? ==>
            && r.session == st.session.(isAuthenticated := true)
            && r.location == Some(AuthZoneUrl(token.value))
            && r.requests == st.requests + [StatusCheck(token.value)])
      && (Truthy(token) && !resp.Ok? ==>
            && r.session.storage == st.session.storage - {TokenKey}
            && r.session.authToken == None && !r.session.isAuthenticated
            && r.location == st.location
            && r.requests == st.requests + [StatusCheck(token.value)])
      && r.form == st.form && r.display == st.display && r.timers == st.timers
  {
  }

  /** On page load a stored token is checked once; an empty or missing one makes no call. */
  lemma StartupChecksStoredToken(stored: map<string, string>, status: Response)
    ensures var r := Startup(stored, status);
      && (TokenKey in stored && stored[TokenKey] != "" ==> r.requests == [StatusCheck(stored[TokenKey])])
      && (TokenKey !in stored || stored[TokenKey] == "" ==> r.requests == [] && !r.session.isAuthenticated)
      && (r.session.isAuthenticated <==> TokenKey in stored && stored[TokenKey] != "" && status.Ok?)
  {
  }

  // ------------------------------------------------------------ modal

  /**
   * Closing: the modal is inactive, both messages and both marks are cleared,
   * the inputs are emptied and the form is shown in place of the success
   * panel; the header and the session are untouched.
   */
  lemma CloseModalOutcome(st: State)
    ensures var r := CloseModal(st);
      && r.form == Form("", "", "", "", false, false)
      && r.display == Display(false, st.display.headerVisible, true, false)
      && r.session == st.session
      && r.location == st.location && r.timers == st.timers && r.requests == st.requests
  {
  }

  /** Closing twice is closing once. */
  lemma CloseModalIdempotent(st: State)
    ensures CloseModal(CloseModal(st)) == CloseModal(st)
  {
  }

  /** After Escape the modal is never active, and a second Escape changes nothing. */
  lemma PressEscapeOutcome(st: State)
    ensures !PressEscape(st).display.modalActive
    ensures PressEscape(PressEscape(st)) == PressEscape(st)
  {
    CloseModalIdempotent(st);
  }

  // ------------------------------------------------------------ invariant

  lemma StartupCoherent(stored: map<string, string>, status: Response)
    ensures Coherent(Startup(stored, status))
  {
  }

  /** Submitting keeps the invariant, whatever the identity endpoint answers. */
  lemma SubmitKeepsCoherent(st: State, login: Response, register: Response)
    requires Coherent(st)
    ensures Coherent(Submit(st, login, register))
  {
    if InputsAccepted(st.form.emailValue, st.form.passwordValue) {
      SubmitAccepted(st, login, register);
    } else {
      SubmitRejectedMakesNoCall(st, login, register);
    }
  }

  lemma CheckAuthStatusKeepsCoherent(st: State, resp: Response)
    requires Coherent(st)
    ensures Coherent(CheckAuthStatus(st, resp))
  {
    CheckAuthStatusOutcome(st, resp);
  }

  lemma ValidatorsKeepCoherent(st: State, value: string)
    requires Coherent(st)
    ensures Coherent(ValidateEmail(st, value)) && Coherent(ValidatePassword(st, value))
  {
    ValidateBoth(st, value, "");
    ValidateBoth(st, "", value);
    assert ValidateEmail(st, value).display == st.display && ValidateEmail(st, value).session == st.session;
  }

  /** Opening, closing and Escape, typing and the redirect timer keep the invariant. */
  lemma PageEventsKeepCoherent(st: State, f: Field, value: string)
    requires Coherent(st)
    ensures Coherent(OpenModal(st)) && Coherent(CloseModal(st)) && Coherent(PressEscape(st))
    ensures Coherent(Input(st, f, value))
    ensures Coherent(FireRedirectTimer(st))
  {
    CloseModalOutcome(st);
    InputClearsMessageOnly(st, f, value);
  }
}
