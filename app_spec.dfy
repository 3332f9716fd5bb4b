/**
 * The observable state of the signup page and one pure transition per
 * method of `DatingApp` (src/js/main.js). The class in DatingAppModel is
 * proved to move between these states; the lemmas here state what the
 * transitions promise.
 */
module AppSpec {
  import opened Wrappers
  import opened FieldChecks

  /** The localStorage key that holds the session token. */
  const TokenKey := "dating_auth_token"
  /** The members-area URL; the token follows it as a fragment. */
  const AuthZonePrefix := "https://www.dating.com/people/#token="
  const RegistrationFailed := "Registration failed. Please try again."

  /** What one call to the identity endpoint came back with. */
  datatype Response =
    | Ok(token: Option<string>)  // a success status, with the X-Token header if present
    | NotOk                      // a non-success status
    | Throws                     // the request itself failed

  /** A call made to the identity endpoint. */
  datatype Request =
    | Login(credentials: string)            // GET with Basic `email:password`
    | Register(email: string, password: string)  // PUT with a JSON body
    | StatusCheck(token: string)            // GET with Basic `token`

  /** The two fields of the form, naming both their error slots and their inputs. */
  datatype Field = EmailField | PasswordField

  /** The form's inputs, their error texts and their `error` marks. */
  datatype Form = Form(
    emailValue: string, passwordValue: string,
    emailErrorText: string, passwordErrorText: string,
    emailMarked: bool, passwordMarked: bool)

  /** Whether the modal is active, and which of its parts are displayed. */
  datatype Display = Display(modalActive: bool, headerVisible: bool, formVisible: bool, successVisible: bool)

  /** The localStorage contents and the controller's `authToken` and `isAuthenticated`. */
  datatype Session = Session(storage: map<string, string>, authToken: Option<string>, isAuthenticated: bool)

  /**
   * Everything the controller reads or writes: the form, the display, the
   * session, the page location, the scheduled redirects (oldest first) and
   * the log of identity calls.
   */
  datatype State = State(
    form: Form, display: Display, session: Session,
    location: Option<string>, timers: seq<string>, requests: seq<Request>)

  /** A state after an operation that may throw. */
  datatype Step = Step(state: State, threw: bool)

  /** JavaScript truthiness of a string or null: null and "" are false. */
  predicate Truthy(t: Option<string>) {
    t.Some? && t.value != ""
  }

  /** `localStorage.getItem`: the stored value, or null. */
  function Lookup(m: map<string, string>, key: string): Option<string> {
    if key in m then Some(m[key]) else None
  }

  /**
   * `getItem` after `setItem` returns the value just written, after
   * `removeItem` returns null, and neither disturbs any other key.
   */
  lemma StorageLaws(m: map<string, string>, key: string, v: string, other: string)
    ensures Lookup(m[key := v], key) == Some(v)
    ensures Lookup(m - {key}, key) == None
    ensures other != key ==> Lookup(m[key := v], other) == Lookup(m, other)
    ensures other != key ==> Lookup(m - {key}, other) == Lookup(m, other)
  {
  }

  /** `redirectToAuthZone`'s target. */
  function AuthZoneUrl(token: string): string {
    AuthZonePrefix + token
  }

  /** The token can be read back from a members-area URL, so distinct tokens give distinct URLs. */
  lemma AuthZoneUrlCarriesToken(token: string, other: string)
    ensures AuthZoneUrl(token)[..|AuthZonePrefix|] == AuthZonePrefix
    ensures AuthZoneUrl(token)[|AuthZonePrefix|..] == token
    ensures AuthZoneUrl(token) == AuthZoneUrl(other) ==> token == other
  {
    assert AuthZoneUrl(token)[|AuthZonePrefix|..] == token;
    assert AuthZoneUrl(other)[|AuthZonePrefix|..] == other;
  }

  /**
   * Invariant the controller keeps: its `authToken` mirrors the storage slot,
   * it is authenticated only with a usable token, and the form and the
   * success panel are never shown together (the header stays hidden once the
   * panel has been shown).
   */
  predicate Coherent(st: State) {
    && st.session.authToken == Lookup(st.session.storage, TokenKey)
    && (st.session.isAuthenticated ==> Truthy(st.session.authToken))
    && st.display.formVisible == !st.display.successVisible
    && (st.display.successVisible ==> !st.display.headerVisible)
  }

  // ---------------------------------------------------------------- transitions

  /** The constructor: read the storage slot; nothing else has happened yet. */
  function Loaded(stored: map<string, string>): State {
    State(Form("", "", "", "", false, false), Display(false, true, true, false),
          Session(stored, Lookup(stored, TokenKey), false), None, [], [])
  }

  function ShowError(st: State, f: Field, message: string): State {
    match f
    case EmailField => st.(form := st.form.(emailErrorText := message))
    case PasswordField => st.(form := st.form.(passwordErrorText := message))
  }

  function ClearError(st: State, f: Field): State {
    ShowError(st, f, "")
  }

  function ClearAllErrors(st: State): State {
    var cleared := ClearError(ClearError(st, EmailField), PasswordField);
    cleared.(form := cleared.form.(emailMarked := false, passwordMarked := false))
  }

  function ShowSuccessMessage(st: State): State {
    st.(display := st.display.(headerVisible := false, formVisible := false, successVisible := true))
  }

  function HideSuccessMessage(st: State): State {
    st.(display := st.display.(successVisible := false, formVisible := true))
  }

  /** `form.reset()` puts both inputs back to their empty default. */
  function ResetForm(st: State): State {
    HideSuccessMessage(ClearAllErrors(st.(form := st.form.(emailValue := "", passwordValue := ""))))
  }

  function OpenModal(st: State): State {
    st.(display := st.display.(modalActive := true))
  }

  function CloseModal(st: State): State {
    ResetForm(st.(display := st.display.(modalActive := false)))
  }

  /** The Escape key closes the modal only while it is active. */
  function PressEscape(st: State): State {
    if st.display.modalActive then CloseModal(st) else st
  }

  /** Typing into a field: the value changes and that field's message is cleared (not re-validated). */
  function Input(st: State, f: Field, value: string): State {
    match f
    case EmailField => ClearError(st.(form := st.form.(emailValue := value)), EmailField)
    case PasswordField => ClearError(st.(form := st.form.(passwordValue := value)), PasswordField)
  }

  /** Add or remove the `error` mark on a field's input. */
  function Mark(st: State, f: Field, marked: bool): State {
    match f
    case EmailField => st.(form := st.form.(emailMarked := marked))
    case PasswordField => st.(form := st.form.(passwordMarked := marked))
  }

  function ValidateEmail(st: State, email: string): State {
    match EmailCheck(email)
    case Accepted => Mark(ClearError(st, EmailField), EmailField, false)
    case Rejected(m) => Mark(ShowError(st, EmailField, m), EmailField, true)
  }

  function ValidatePassword(st: State, password: string): State {
    match PasswordCheck(password)
    case Accepted => Mark(ClearError(st, PasswordField), PasswordField, false)
    case Rejected(m) => Mark(ShowError(st, PasswordField, m), PasswordField, true)
  }

  function Redirect(st: State, token: string): State {
    st.(location := Some(AuthZoneUrl(token)))
  }

  /** Persist a token and mark the session authenticated. */
  function StoreToken(st: State, token: string): State {
    st.(session := Session(st.session.storage[TokenKey := token], Some(token), true))
  }

  /** The `email:password` pair that login sends, before Base64 encoding. */
  function Credentials(email: string, password: string): string {
    email + ":" + password
  }

  /** Login throws: Base64 encoding failed, or the response was not a success, or the request failed. */
  predicate LoginThrows(email: string, password: string, login: Response) {
    !Latin1(Credentials(email, password)) || !login.Ok?
  }

  /**
   * `authenticateUser`: Base64 encoding throws before any request when a
   * character is beyond 0xFF; otherwise one GET, and a token on success is
   * stored and followed at once.
   */
  function Authenticate(st: State, email: string, password: string, resp: Response): (a: Step)
    ensures a.threw == LoginThrows(email, password, resp)
  {
    var cred := Credentials(email, password);
    if !Latin1(cred) then Step(st, true)
    else
      var sent := st.(requests := st.requests + [Login(cred)]);
      match resp
      case Ok(t) => if Truthy(t) then Step(Redirect(StoreToken(sent, t.value), t.value), false) else Step(sent, false)
      case _ => Step(sent, true)
  }

  /**
   * `registerUser`: one PUT; a token on success is stored, the success panel
   * shown and a redirect scheduled.
   */
  function RegisterUser(st: State, email: string, password: string, resp: Response): (r: Step)
    ensures r.threw == !resp.Ok?
  {
    var sent := st.(requests := st.requests + [Register(email, password)]);
    match resp
    case Ok(t) =>
      if Truthy(t) then Step(ShowSuccessMessage(StoreToken(sent, t.value)).(timers := sent.timers + [t.value]), false)
      else Step(sent, false)
    case _ => Step(sent, true)
  }

  /** The scheduled redirect that fires next (the oldest one). */
  function FireRedirectTimer(st: State): State {
    if st.timers == [] then st else Redirect(st.(timers := st.timers[1..]), st.timers[0])
  }

  /** Both fields pass their checks. */
  predicate InputsAccepted(email: string, password: string) {
    EmailCheck(email).Accepted? && PasswordCheck(password).Accepted?
  }

  /**
   * The `try` part of `handleFormSubmit`: login; registration if login threw;
   * the generic message if registration threw as well.
   */
  function LoginOrRegister(st: State, email: string, password: string, login: Response, register: Response): State {
    var a := Authenticate(st, email, password, login);
    if !a.threw then a.state
    else
      var r := RegisterUser(a.state, email, password, register);
      if !r.threw then r.state else ShowError(r.state, EmailField, RegistrationFailed)
  }

  /** `handleFormSubmit`, with the responses the two identity calls would get. */
  function Submit(st: State, login: Response, register: Response): State {
    var email := st.form.emailValue;
    var password := st.form.passwordValue;
    var checked := ValidatePassword(ValidateEmail(st, email), password);
    if !InputsAccepted(email, password) then checked
    else LoginOrRegister(checked, email, password, login, register)
  }

  /** `checkAuthStatus`: with a usable token, one GET; anything but success forgets the token. */
  function CheckAuthStatus(st: State, resp: Response): State {
    if !Truthy(st.session.authToken) then st
    else
      var token := st.session.authToken.value;
      var sent := st.(requests := st.requests + [StatusCheck(token)]);
      if resp.Ok? then Redirect(sent.(session := sent.session.(isAuthenticated := true)), token)
      else sent.(session := Session(sent.session.storage - {TokenKey}, None, false))
  }

  /** Page load: construct, then check a stored token. */
  function Startup(stored: map<string, string>, status: Response): State {
    CheckAuthStatus(Loaded(stored), status)
  }
}
