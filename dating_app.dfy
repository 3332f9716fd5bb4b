/**
 * The client-side controller `DatingApp` (src/js/main.js) as a class. Its
 * own fields (`authToken`, `isAuthenticated`) sit beside the browser state
 * its methods write: the form inputs and error slots, the modal's display,
 * localStorage, the location, the scheduled redirects and the identity calls
 * made. Every method is proved to perform the matching transition of AppSpec,
 * whose properties are proved in AppProperties.
 */
module DatingAppModel {
  import opened Wrappers
  import opened FieldChecks
  import opened AppSpec
  import opened AppProperties

  class DatingApp {
    /** The form's inputs, error texts and error marks (DOM state). */
    var form: Form
    /** The modal's active flag and which of its parts are displayed (DOM state). */
    var display: Display
    /** localStorage. */
    var storage: map<string, string>
    var authToken: Option<string>
    var isAuthenticated: bool
    // the browser
    var location: Option<string>
    var timers: seq<string>
    var requests: seq<Request>

    /** The state this object and the page are in. */
    function View(): State
      reads this
    {
      State(form, display, Session(storage, authToken, isAuthenticated), location, timers, requests)
    }

    ghost predicate Valid()
      reads this
    {
      Coherent(View())
    }

    /**
     * Page load with `stored` in localStorage: read the token, and check it
     * with the endpoint (which answers `status`) when it is usable.
     */
    constructor (stored: map<string, string>, status: Response)
      ensures View() == Startup(stored, status)
      ensures Valid()
    {
      form := Form("", "", "", "", false, false);
      display := Display(false, true, true, false);
      storage := stored;
      authToken := Lookup(stored, TokenKey);
      isAuthenticated := false;
      location, timers, requests := None, [], [];
      new;
      if Truthy(authToken) {
        CheckAuthStatus(status);
      }
      StartupCoherent(stored, status);
    }

    method OpenModal()
      modifies this
      ensures View() == AppSpec.OpenModal(old(View()))
      ensures old(Valid()) ==> Valid()
    {
      display := display.(modalActive := true);
    }

    method CloseModal()
      modifies this
      ensures View() == AppSpec.CloseModal(old(View()))
      ensures old(Valid()) ==> Valid()
    {
      display := display.(modalActive := false);
      ResetForm();
    }

    /** The Escape key listener. */
    method PressEscape()
      modifies this
      ensures View() == AppSpec.PressEscape(old(View()))
      ensures old(Valid()) ==> Valid()
    {
      if display.modalActive {
        CloseModal();
      }
    }

    method ResetForm()
      modifies this
      ensures View() == AppSpec.ResetForm(old(View()))
      ensures old(Valid()) ==> Valid()
    {
      form := form.(emailValue := "", passwordValue := "");
      ClearAllErrors();
      HideSuccessMessage();
    }

    /** The input listener of field `f`: the browser takes the new value, the listener clears the message. */
    method Input(f: Field, value: string)
      modifies this
      ensures View() == AppSpec.Input(old(View()), f, value)
      ensures old(Valid()) ==> Valid()
    {
      if f == EmailField {
        form := form.(emailValue := value);
      } else {
        form := form.(passwordValue := value);
      }
      ClearError(f);
    }

    method ValidateEmail(email: string) returns (ok: bool)
      modifies this
      ensures ok <==> MatchesEmailPattern(email)
      ensures View() == AppSpec.ValidateEmail(old(View()), email)
      ensures old(Valid()) ==> Valid()
    {
      var verdict := EmailCheck(email);
      if verdict.Rejected? {
        ShowError(EmailField, verdict.message);
        form := form.(emailMarked := true);
        return false;
      }
      ClearError(EmailField);
      form := form.(emailMarked := false);
      ok := true;
    }

    method ValidatePassword(password: string) returns (ok: bool)
      modifies this
      ensures ok <==> Utf16Length(password) >= MinPasswordLength
      ensures View() == AppSpec.ValidatePassword(old(View()), password)
      ensures old(Valid()) ==> Valid()
    {
      var verdict := PasswordCheck(password);
      if verdict.Rejected? {
        ShowError(PasswordField, verdict.message);
        form := form.(passwordMarked := true);
        return false;
      }
      ClearError(PasswordField);
      form := form.(passwordMarked := false);
      ok := true;
    }

    method ShowError(f: Field, message: string)
      modifies this
      ensures View() == AppSpec.ShowError(old(View()), f, message)
      ensures old(Valid()) ==> Valid()
    {
      match f
      case EmailField => form := form.(emailErrorText := message);
      case PasswordField => form := form.(passwordErrorText := message);
    }

    method ClearError(f: Field)
      modifies this
      ensures View() == AppSpec.ClearError(old(View()), f)
      ensures old(Valid()) ==> Valid()
    {
      match f
      case EmailField => form := form.(emailErrorText := "");
      case PasswordField => form := form.(passwordErrorText := "");
    }

    method ClearAllErrors()
      modifies this
      ensures View() == AppSpec.ClearAllErrors(old(View()))
      ensures old(Valid()) ==> Valid()
    {
      ClearError(EmailField);
      ClearError(PasswordField);
      form := form.(emailMarked := false, passwordMarked := false);
    }

    method ShowSuccessMessage()
      modifies this
      ensures View() == AppSpec.ShowSuccessMessage(old(View()))
      ensures old(Valid()) ==> Valid()
    {
      display := display.(headerVisible := false, formVisible := false, successVisible := true);
    }

    method HideSuccessMessage()
      modifies this
      ensures View() == AppSpec.HideSuccessMessage(old(View()))
      ensures old(Valid()) ==> Valid()
    {
      display := display.(successVisible := false, formVisible := true);
    }

    /**
     * The submit listener. `login` and `register` are what the endpoint
     * would answer to the login and the registration call.
     */
    method HandleFormSubmit(login: Response, register: Response)
      modifies this
      ensures View() == Submit(old(View()), login, register)
      ensures old(Valid()) ==> Valid()
    {
      ghost var before := View();
      var email := form.emailValue;
      var password := form.passwordValue;
      var isEmailValid := ValidateEmail(email);
      var isPasswordValid := ValidatePassword(password);
      ValidateBoth(before, email, password);
      if !isEmailValid || !isPasswordValid {
        SubmitRejectedMakesNoCall(before, login, register);
        return;
      }
      SubmitAccepted(before, login, register);
      var loginThrew := AuthenticateUser(email, password, login);
      if loginThrew {
        var registerThrew := RegisterUser(email, password, register);
        if registerThrew {
          ShowError(EmailField, RegistrationFailed);
        }
      }
    }

    /** Login with `resp` as the endpoint's answer; `threw` says whether the call threw. */
    method AuthenticateUser(email: string, password: string, resp: Response) returns (threw: bool)
      modifies this
      ensures threw <==> LoginThrows(email, password, resp)
      ensures View() == Authenticate(old(View()), email, password, resp).state
      ensures old(Valid()) ==> Valid()
    {
      var credentials := Credentials(email, password);
      if !Latin1(credentials) {
        return true;
      }
      requests := requests + [Login(credentials)];
      if resp.Ok? {
        var token := resp.token;
        if Truthy(token) {
          authToken := token;
          storage := storage[TokenKey := token.value];
          isAuthenticated := true;
          RedirectToAuthZone(token.value);
        }
        threw := false;
      } else {
        threw := true;
      }
    }

    /** Registration with `resp` as the endpoint's answer; `threw` says whether the call threw. */
    method RegisterUser(email: string, password: string, resp: Response) returns (threw: bool)
      modifies this
      ensures threw <==> !resp.Ok?
      ensures View() == AppSpec.RegisterUser(old(View()), email, password, resp).state
      ensures old(Valid()) ==> Valid()
    {
      requests := requests + [Register(email, password)];
      if resp.Ok? {
        var token := resp.token;
        if Truthy(token) {
          authToken := token;
          storage := storage[TokenKey := token.value];
          isAuthenticated := true;
          ShowSuccessMessage();
          timers := timers + [token.value];
        }
        threw := false;
      } else {
        threw := true;
      }
    }

    /** The status check with `resp` as the endpoint's answer. */
    method CheckAuthStatus(resp: Response)
      modifies this
      ensures View() == AppSpec.CheckAuthStatus(old(View()), resp)
      ensures old(Valid()) ==> Valid()
    {
      if !Truthy(authToken) {
        return;
      }
      requests := requests + [StatusCheck(authToken.value)];
      if resp.Ok? {
        isAuthenticated := true;
        RedirectToAuthZone(authToken.value);
      } else {
        storage := storage - {TokenKey};
        authToken := None;
        isAuthenticated := false;
      }
    }

    method RedirectToAuthZone(token: string)
      modifies this
      ensures View() == Redirect(old(View()), token)
      ensures location.Some? && location.value[|AuthZonePrefix|..] == token
      ensures old(Valid()) ==> Valid()
    {
      location := Some(AuthZoneUrl(token));
    }

    /** The oldest scheduled redirect fires. */
    method FireRedirectTimer()
      modifies this
      ensures View() == AppSpec.FireRedirectTimer(old(View()))
      ensures old(Valid()) ==> Valid()
    {
      if timers != [] {
        var token := timers[0];
        timers := timers[1..];
        RedirectToAuthZone(token);
      }
    }
  }
}
