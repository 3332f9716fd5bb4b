# DatingApp signup/login controller, modelled in Dafny

This project models `DatingApp`, the browser-side controller of a dating-site landing page
(`src/js/main.js`). The controller does three things:

- it validates the email and password fields of a signup modal;
- it logs in, or registers, against a remote identity endpoint (`GET` to log in, `PUT` to
  register, with the token returned in an `X-Token` header);
- it keeps the session token in localStorage under `dating_auth_token`. On page load it checks a
  stored token, and on success it sends the browser to the members area
  `https://www.dating.com/people/#token=<token>`.

The model has four modules:

- `FieldChecks` (`field_checks.dfy`) holds the two validators' decisions as pure functions. The
  email regular expression `^[^\s@]+@[^\s@]+\.[^\s@]+$` is written as a reference predicate
  (`MatchesEmailPattern`, with the exact character set of JavaScript's `\s`). It is proved equal to a
  field-by-field description: exactly one `@`, no whitespace, a non-empty local part, and a `.`
  inside the domain with a character on each side. The password length is JavaScript's
  `length`, counted in UTF-16 code units (`Utf16Length`).
- `AppSpec` (`app_spec.dfy`) holds the page state as a value `State` with these parts:
  - the form: input values, error texts and `error` marks;
  - the display: modal active, header, form and success panel;
  - the session: localStorage, `authToken` and `isAuthenticated`;
  - the location, the queue of scheduled redirects, and the log of identity calls.

  It also has one pure transition per method of the class. Each network answer is an input:
  `Ok(token)`, `NotOk` or `Throws`.
- `AppProperties` (`app_properties.dfy`) proves what those transitions promise.
- `DatingAppModel` (`dating_app.dfy`) is the class `DatingApp`. It has the controller's own fields
  (`authToken`, `isAuthenticated`) and fields for the page and browser state its methods write.
  Every method is proved to perform its `AppSpec` transition exactly. Every method also keeps the
  invariant `Coherent`: `authToken` always mirrors the localStorage slot; the session is
  authenticated only with a non-empty token; the form and the success panel are never shown
  together.

Behaviour of the code that the model keeps:

- A token counts only when it is truthy in JavaScript: `null` and `""` are both "no token".
- A login answer that is a success but carries no token changes nothing. It throws nothing, so
  registration is not attempted.
- `btoa` throws on any code unit above 0xFF. So credentials with such a character never reach
  the login endpoint: the submit goes straight to registration (`NonLatin1CredentialsSkipLogin`).
- `hideSuccessMessage` shows the form again but never restores the modal header.
- Each successful registration schedules its own redirect. The scheduled redirects are a queue
  that `FireRedirectTimer` consumes oldest first.
- A successful login or registration does not close the modal or reset the form. A login success
  navigates away at once (`src/js/main.js:192`). A registration success shows the success panel
  and schedules the redirect (`src/js/main.js:217-221`).

## Model

| member | source | states |
|---|---|---|
| FieldChecks.EmailShapeIsPattern | src/js/main.js:68 | the field-by-field email shape holds exactly when the regular expression matches, in both directions |
| FieldChecks.EmailCheck | src/js/main.js:67-86 | accepted exactly when the regular expression matches; rejected as "Email is required" exactly when the email is empty; otherwise the shape message |
| FieldChecks.PasswordCheck | src/js/main.js:88-106 | accepted exactly when the UTF-16 length is at least 8; "Password is required" exactly when empty; otherwise the length message; 8 characters always pass and fewer than 4 never do |
| FieldChecks.Utf16Length | src/js/main.js:97 | the UTF-16 length is between the number of characters and twice that |
| FieldChecks.Utf16OfBmp | src/js/main.js:97 | every character up to 0xFFFF counts once in the JavaScript length, so such a string's length is its number of characters |
| FieldChecks.BmpPasswordLength | src/js/main.js:97-105 | for a password of characters up to 0xFFFF, it passes exactly when it has at least 8 characters, and a shorter non-empty one gets the length message |
| FieldChecks.Count | src/js/main.js:68 | the count of a character is zero exactly when it does not occur, and never exceeds the length |
| FieldChecks.IndexOf | src/js/main.js:68 | the first `@` found is an `@` and none occurs before it |
| AppSpec.AuthZoneUrlCarriesToken | src/js/main.js:257-260 | the members-area URL is the fixed prefix followed by the token, so distinct tokens give distinct URLs |
| AppSpec.Authenticate | src/js/main.js:176-197 | login throws exactly when Base64 encoding fails or the answer is not a success |
| AppSpec.RegisterUser | src/js/main.js:199-227 | registration throws exactly when the answer is not a success |
| AppSpec.Lookup | src/js/main.js:6 | `localStorage.getItem`: the stored value, or null; `StorageLaws` states how it answers after a write or a removal |
| AppSpec.StorageLaws | src/js/main.js:190-251 | `getItem` after `setItem` (lines 190, 215) gives the value written, after `removeItem` (lines 245, 251) gives null, and neither changes what any other key gives |
| AppSpec.Truthy | src/js/main.js:12 | JavaScript truthiness of the token: false for `null` and for the empty string; its use at lines 188, 213 and 230 is stated by `AuthenticateOutcome`, `RegisterOutcome` and `CheckAuthStatusOutcome` |
| AppSpec.Loaded | src/js/main.js:2-9 | the constructor's state: the token read from storage, not authenticated, no call made; `StartupCoherent` proves it coherent |
| AppSpec.Startup | src/js/main.js:11-18 | construction followed by the status check when the stored token is truthy; `StartupChecksStoredToken` states its outcome |
| AppSpec.OpenModal | src/js/main.js:43-49 | only the modal becomes active; `PageEventsKeepCoherent` proves the invariant kept |
| AppSpec.CloseModal | src/js/main.js:51-57 | the modal becomes inactive and the form is reset; `CloseModalOutcome` and `CloseModalIdempotent` state the result |
| AppSpec.PressEscape | src/js/main.js:26-30 | the Escape listener closes the modal only while it is active; `PressEscapeOutcome` states the result |
| AppSpec.ResetForm | src/js/main.js:59-65 | both inputs emptied, all messages and marks cleared, the success panel hidden; stated through `CloseModalOutcome` |
| AppSpec.Input | src/js/main.js:34-35 | the input listeners store the value and clear that field's message; `InputClearsMessageOnly` states the result |
| AppSpec.ValidateEmail | src/js/main.js:67-86 | the email slot and mark follow `EmailCheck`; `EmptyEmailRequired` and `ValidateEmailFollowsPattern` state the result |
| AppSpec.ValidatePassword | src/js/main.js:88-106 | the password slot and mark follow `PasswordCheck`; `ValidatePasswordFollowsLength` states the result |
| AppSpec.ShowError | src/js/main.js:108-113 | writes the message into the chosen field's error slot only |
| AppSpec.ClearError | src/js/main.js:115-120 | empties the chosen field's error slot only |
| AppSpec.ClearAllErrors | src/js/main.js:122-127 | empties both slots and removes both marks |
| AppSpec.ShowSuccessMessage | src/js/main.js:129-139 | hides the header and the form and shows the success panel |
| AppSpec.HideSuccessMessage | src/js/main.js:141-149 | hides the success panel and shows the form, leaving the header as it is |
| AppSpec.FireRedirectTimer | src/js/main.js:219-221 | the oldest scheduled redirect is followed and leaves the queue; `RegisterAfterLoginRefused` states it after a registration |
| AppSpec.LoginOrRegister | src/js/main.js:164-173 | login; registration only if login threw; the generic message only if both threw; `SubmitIdentityCalls` and `SubmitFailureMessage` state the result |
| AppSpec.Submit | src/js/main.js:151-174 | both validators run; no call unless both fields pass, otherwise login-or-register; `SubmitRejectedMakesNoCall`, `SubmitAccepted` and `SubmitKeepsCoherent` state the result |
| AppSpec.CheckAuthStatus | src/js/main.js:229-255 | no call without a truthy token; success authenticates and navigates; any other answer forgets the token; `CheckAuthStatusOutcome` states the result |
| AppProperties.EmptyEmailRequired | src/js/main.js:71-75 | an empty email writes "Email is required", marks the input, and changes nothing else |
| AppProperties.ValidateEmailFollowsPattern | src/js/main.js:77-85 | a non-empty email that matches clears the message and the mark; one that does not shows the shape message and marks the input |
| AppProperties.ValidatePasswordFollowsLength | src/js/main.js:91-105 | empty gives the required message, under 8 code units the length message (both with the mark set); otherwise the message and the mark are cleared |
| AppProperties.InputClearsMessageOnly | src/js/main.js:34-35 | typing in a field clears that field's message only; the mark stays and nothing is re-validated |
| AppProperties.ValidateBoth | src/js/main.js:157-158 | the two checks together change only the two messages and the two marks |
| AppProperties.SubmitRejectedMakesNoCall | src/js/main.js:157-162 | when either field fails, both slots show their own verdict and no identity call is made; session, display, location and timers are unchanged |
| AppProperties.SubmitAccepted | src/js/main.js:160-173 | once both fields pass, the submit is the login-or-register step on the cleared form |
| AppProperties.SubmitIdentityCalls | src/js/main.js:157-173 | a submit makes no call if a field fails. Otherwise it makes a login, then a registration only if login threw. It never makes more than two calls, and the earlier log is kept |
| AppProperties.SubmitFailureMessage | src/js/main.js:164-173 | "Registration failed. Please try again." is shown exactly when the fields pass, login throws and registration throws |
| AppProperties.NonLatin1CredentialsSkipLogin | src/js/main.js:177 | credentials that Base64 encoding refuses never reach the login endpoint; the submit goes straight to registration |
| AppProperties.NotAnEmailIsBlocked | src/js/main.js:77-81 | submitting "not-an-email" makes no call and shows the shape message with the mark set |
| AppProperties.SevenCharacterPasswordIsBlocked | src/js/main.js:97-101 | a valid email with a password whose JavaScript length is 7 makes no call and shows the length message |
| AppProperties.RegisterAfterLoginRefused | src/js/main.js:164-168 | login refused and registration accepted: two calls, token stored, session authenticated, success panel shown, one redirect scheduled and not yet followed; firing it navigates to the members area |
| AppProperties.AuthenticateOutcome | src/js/main.js:186-196 | a success with a token stores it under `dating_auth_token`, authenticates and navigates at once. A success without a token changes nothing and does not throw. A non-success throws. Each case makes one login call |
| AppProperties.RegisterOutcome | src/js/main.js:211-226 | a success with a token stores it, authenticates, shows the success panel and schedules a redirect without navigating. A success without a token changes nothing. A non-success throws |
| AppProperties.CheckAuthStatusOutcome | src/js/main.js:229-255 | with no usable token, nothing at all happens. On success the token is kept and followed. On a non-success answer or a failed request, the storage is exactly the old storage without the token key, `authToken` becomes null and the session is anonymous |
| AppProperties.StartupChecksStoredToken | src/js/main.js:2-14 | on load, a non-empty stored token is checked once, and a missing or empty one makes no call. The session ends authenticated exactly when a stored token was confirmed |
| AppProperties.CloseModalOutcome | src/js/main.js:51-65 | closing deactivates the modal, empties both inputs, clears both messages and both marks, and shows the form instead of the success panel. The header and the session are unchanged |
| AppProperties.CloseModalIdempotent | src/js/main.js:51-65 | closing twice is the same as closing once |
| AppProperties.PressEscapeOutcome | src/js/main.js:26-30 | after Escape the modal is never active, and a second Escape changes nothing |
| AppProperties.StartupCoherent | src/js/main.js:2-18 | the page as loaded satisfies the invariant |
| AppProperties.SubmitKeepsCoherent | src/js/main.js:151-174 | a submit keeps the invariant whatever the endpoint answers |
| AppProperties.CheckAuthStatusKeepsCoherent | src/js/main.js:229-255 | the status check keeps the invariant |
| AppProperties.ValidatorsKeepCoherent | src/js/main.js:67-106 | both validators keep the invariant |
| AppProperties.PageEventsKeepCoherent | src/js/main.js:43-65 | opening and closing the modal, Escape, typing and a fired redirect keep the invariant |
| DatingAppModel.DatingApp.constructor | src/js/main.js:2-18 | reads the stored token and checks it when it is usable; the object starts in `Startup` and satisfies the invariant |
| DatingAppModel.DatingApp.OpenModal | src/js/main.js:43-49 | activates the modal and changes nothing else |
| DatingAppModel.DatingApp.CloseModal | src/js/main.js:51-57 | performs `CloseModal` and keeps the invariant |
| DatingAppModel.DatingApp.PressEscape | src/js/main.js:26-30 | performs `PressEscape` and keeps the invariant |
| DatingAppModel.DatingApp.ResetForm | src/js/main.js:59-65 | empties the inputs, clears all errors and hides the success panel |
| DatingAppModel.DatingApp.Input | src/js/main.js:34-35 | stores the typed value and clears that field's message |
| DatingAppModel.DatingApp.ValidateEmail | src/js/main.js:67-86 | returns true exactly when the regular expression matches, and writes that verdict into the email slot and mark |
| DatingAppModel.DatingApp.ValidatePassword | src/js/main.js:88-106 | returns true exactly when the UTF-16 length is at least 8, and writes that verdict into the password slot and mark |
| DatingAppModel.DatingApp.ShowError | src/js/main.js:108-113 | writes the message into the field's slot, nothing else |
| DatingAppModel.DatingApp.ClearError | src/js/main.js:115-120 | empties the field's slot, nothing else |
| DatingAppModel.DatingApp.ClearAllErrors | src/js/main.js:122-127 | empties both slots and removes both marks |
| DatingAppModel.DatingApp.ShowSuccessMessage | src/js/main.js:129-139 | hides the header and the form and shows the success panel |
| DatingAppModel.DatingApp.HideSuccessMessage | src/js/main.js:141-149 | hides the success panel and shows the form; the header stays as it is |
| DatingAppModel.DatingApp.HandleFormSubmit | src/js/main.js:151-174 | performs `Submit` (both checks, then login, then registration on a throw, then the generic message) and keeps the invariant |
| DatingAppModel.DatingApp.AuthenticateUser | src/js/main.js:176-197 | throws exactly when Base64 encoding fails or the answer is not a success, and performs `Authenticate` |
| DatingAppModel.DatingApp.RegisterUser | src/js/main.js:199-227 | throws exactly when the answer is not a success, and performs `RegisterUser` |
| DatingAppModel.DatingApp.CheckAuthStatus | src/js/main.js:229-255 | performs `CheckAuthStatus` and keeps the invariant |
| DatingAppModel.DatingApp.RedirectToAuthZone | src/js/main.js:257-260 | sets the location to the members-area prefix followed by the token, so the token can be read back from the location |
| DatingAppModel.DatingApp.FireRedirectTimer | src/js/main.js:219-221 | the oldest scheduled redirect is removed from the queue and followed |

## Left out

- `gulpfile.js`, the build pipeline, is not part of this model. It only composes third-party file
  transforms and has no logic of its own.
- Network I/O: `fetch`, HTTP headers and status codes are not modelled. Each identity call's
  outcome is an abstract input (`Response`). An answer counts as a success or not; reading the
  `X-Token` header gives `Ok(Some(token))` or `Ok(None)`.
- Parsing the registration error body (`response.json()` and its `message`) is not modelled. The
  resulting error only ever leads to the generic message, which is modelled.
- `btoa` is not modelled as Base64 encoding. Only its failure on code units above 0xFF is modelled.
  The login call is logged with the unencoded `email:password` pair.
- The 2-second `setTimeout` is not modelled as a delay. After a successful registration, the
  redirect goes into a queue and fires when `FireRedirectTimer` is called.
- Asynchrony is not modelled. A submit and a status check each run to completion in one step, so
  a status check answered after a submit has started, or a second submit during the first, is not
  modelled.
- Navigation does not unload the page in the model. The new location is recorded, and the model
  keeps accepting operations.
- DOM plumbing is not modelled: `focus`, `body.style.overflow`, event-listener registration in
  `bindEvents`, `setupModal`'s element lookups and `console.error`. The Escape and input listeners
  are modelled as `PressEscape` and `Input`. The blur listeners only call the validators.
- Missing page elements are not modelled. The page is assumed to contain every element the
  controller looks up, so the `if (element)` guards are always taken.
- `form.reset()` is modelled only as emptying both inputs. Their default values in the markup are
  assumed to be empty.
- The initial page comes from the markup, not from the controller. The model assumes the modal
  starts inactive, the header and the form shown and the success panel hidden, both error slots
  empty and neither input marked (`Loaded`). `StartupCoherent` depends on the display part.
- localStorage is modelled as a map that only this controller writes and that never fails.
  `localStorage.setItem` can throw when storage is full or disabled (lines 190 and 215). At line
  190 that happens after `authToken` is set; the exception would then reach the submit handler and
  make it try registration. Another tab can also rewrite `dating_auth_token`. Neither path is
  modelled, and the invariant that `authToken` mirrors the stored slot (`Coherent`) holds only
  under this assumption.
- Strings are sequences of Unicode scalar values. A lone UTF-16 surrogate, which a JavaScript
  string can hold, cannot be represented.
