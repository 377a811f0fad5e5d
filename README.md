# Login page state model

A Dafny model of the state logic of the CardDemo login page
(`app/pages/LoginPage.tsx`), without the React and MUI rendering. It covers four pieces:

- **Keystroke normaliser** (`handleInputChange`). An over-long input is dropped. An accepted input is stored upper-cased in its own field. The field's message is blanked, and a truthy authentication error is cleared.
- **Form validator** (`validateForm`) and the submit gate (`handleSubmit`). Each field gets at most one error: "required" for a blank value, otherwise "too long". `loginUser` is dispatched only when the error record is empty, and it is dispatched once.
- **Error mapper** (`getErrorMessage`). A closed four-entry table plus one fallback message.
- **Redirect guard.** The `hasRedirected` flag, the two effects that set and clear it, the choice of destination, the "Redirecting…" render guard, and the choice of alert under the form.

Files, one module each:

- `Optional.dfy`: `Option` and the JavaScript truthiness of an optional string. Absent and `""` are both falsy.
- `JsString.dfy`: `length` in UTF-16 code units, `trim()` with the ECMAScript white-space and line-terminator set, and `toUpperCase()` on ASCII letters.
- `FormValidator.dfy`: the credentials, the per-field check, the messages and the error record.
- `ErrorMapper.dfy`: the message table.
- `RedirectGuard.dfy`: one effect run as a pure `Step` on the flag. `Trace` extends it to a sequence of observations, with lemmas for at-most-once navigation per mounted page until sign-out and for re-arming after sign-out.
- `LoginPage.dfy`: the alert choice and the class `LoginState`.
  - `LoginState` holds the form values, the error record, the observed store error, the redirect flag and the log of dispatched `loginUser` requests.
  - Its methods are proved against the functions above.
  - A few client methods replay the page's scenarios.

Three behaviours of the code worth knowing:

- Editing a field sets its message to `''` but keeps the key. The alert condition counts keys, so "Please fix the errors above." stays up after every message has been blanked (`BlankedErrorsKeepNotice`).
- `handleSubmit` has no check of its own against concurrent submits. Only the disabled button, bound to `isLoading`, prevents them. This is not modelled.
- The form values are kept after a submission, whether it succeeds or fails.

## Model

| member | source | states |
|---|---|---|
| `FormValidator.Credentials.With` | app/pages/LoginPage.tsx:121 | `{ ...prev, [field]: value }`: the named field takes the value and the other field is unchanged |
| `JsString.Trim` | app/pages/LoginPage.tsx:99 | `trim()` yields the empty (falsy) string exactly when the value is blank (white space only) |
| `JsString.TrimEdges` | app/pages/LoginPage.tsx:105 | what `trim()` keeps starts and ends with a non-white-space character |
| `JsString.TrimRemovesOnlyWhiteSpace` | app/pages/LoginPage.tsx:99 | the trimmed string is a slice of the input and everything outside it is white space |
| `JsString.Length` | app/pages/LoginPage.tsx:120 | `length` counts UTF-16 code units: between one and two per character, zero only for the empty string |
| `JsString.LengthOfBmpString` | app/pages/LoginPage.tsx:101 | for characters inside the Basic Multilingual Plane `length` equals the number of characters |
| `JsString.ToUpperCase` | app/pages/LoginPage.tsx:121 | upper-casing maps each character, keeps `length`, and leaves no lower-case ASCII letter |
| `JsString.ToUpperCaseIdempotent` | app/pages/LoginPage.tsx:121 | upper-casing a stored value again changes nothing |
| `FormValidator.Check` | app/pages/LoginPage.tsx:99-109 | one field's `if … else if …`: the problem found, if any; `CheckMeaning` states its meaning |
| `FormValidator.Message` | app/pages/LoginPage.tsx:100-108 | the four messages, one per field and problem; `MessagesDistinct` proves them pairwise different |
| `FormValidator.CheckMeaning` | app/pages/LoginPage.tsx:99-109 | a field is "required" exactly when blank and "too long" exactly when non-blank and over 8 code units; it passes otherwise, so it never has both errors |
| `FormValidator.Validate` | app/pages/LoginPage.tsx:96-112 | the error record is empty exactly when both fields are non-blank and at most 8 code units long |
| `FormValidator.ValidateReports` | app/pages/LoginPage.tsx:97-110 | a field has a key exactly when it fails a check, and the key holds the message of its single problem, "required" first |
| `FormValidator.MessagesDistinct` | app/pages/LoginPage.tsx:100-108 | the four validation messages are pairwise different |
| `FormValidator.ValidateFieldsIndependent` | app/pages/LoginPage.tsx:99-109 | changing one field leaves the other field's entry unchanged |
| `FormValidator.BlankFieldBlocksSubmission` | app/pages/LoginPage.tsx:99-100 | a blank field is always reported as required, so the record is not empty |
| `FormValidator.ShortValuesNeverTooLong` | app/pages/LoginPage.tsx:101-108 | for values of at most 8 code units the only possible message is "required" |
| `FormValidator.EmptyUserIdScenario` | app/pages/LoginPage.tsx:96-112 | `{userId: "", password: "X"}` yields exactly one entry, the user identifier's "required" message |
| `ErrorMapper.ErrorMessage` | app/pages/LoginPage.tsx:163-172 | total and never empty; each of the four known strings gets its table message; the fallback appears exactly for unknown strings |
| `ErrorMapper.KnownMessagesDistinct` | app/pages/LoginPage.tsx:164-169 | two different known strings never share a message |
| `RedirectGuard.TargetPath` | app/pages/LoginPage.tsx:75-82 | a non-empty `from` other than `/login` wins; otherwise `/menu/admin` for role `admin` and `/menu/main` for any other role; never empty, never `/login` |
| `RedirectGuard.Step` | app/pages/LoginPage.tsx:68-94 | navigation (with `replace: true`) happens exactly when authenticated with a user and the flag is unset; unauthenticated clears the flag; authenticated keeps it set once set |
| `RedirectGuard.StepIdempotent` | app/pages/LoginPage.tsx:68-94 | re-running the effects on the same observation issues nothing and changes no state |
| `RedirectGuard.FlagPersists` | app/pages/LoginPage.tsx:72 | once set, the flag stays set while every observation is authenticated |
| `RedirectGuard.AtMostOnceUntilSignOut` | app/pages/LoginPage.tsx:58-94 | within one mounted page (one `hasRedirected` ref), between any two navigations there is an unauthenticated observation |
| `RedirectGuard.FlagAfterRepeated` | app/pages/LoginPage.tsx:69-72 | after one or more identical authenticated observations from an unset flag, the flag is set |
| `RedirectGuard.RepeatedObservationsNavigateOnce` | app/pages/LoginPage.tsx:69-86 | any number of identical authenticated observations navigate exactly once, at the first |
| `RedirectGuard.SignOutReenablesRedirect` | app/pages/LoginPage.tsx:89-94 | an authenticated observation right after an unauthenticated one always navigates |
| `RedirectGuard.SecondLoginScenario` | app/pages/LoginPage.tsx:68-94 | sign in, repeat, sign out, sign in gives navigations at the first and fourth observation only |
| `RedirectGuard.ShowForm` | app/pages/LoginPage.tsx:175 | the form is rendered unless the session is authenticated with a user; `NavigationHidesForm` ties it to the redirect |
| `RedirectGuard.NavigationHidesForm` | app/pages/LoginPage.tsx:175 | the guard navigates exactly when the form is hidden and the flag is unset |
| `LoginPage.SelectAlert` | app/pages/LoginPage.tsx:372-391 | a truthy auth error shows its mapped (non-empty) message; otherwise any key in the error record shows the generic notice; otherwise no alert |
| `LoginPage.FieldFlagged` | app/pages/LoginPage.tsx:123 | `fieldErrors[field]` is truthy, which also drives `error={!!fieldErrors…}` at lines 312 and 339; `BlankedErrorsKeepNotice` shows a key can exist while its field is not flagged |
| `LoginPage.BlankedErrorsKeepNotice` | app/pages/LoginPage.tsx:123-125 | an error record whose messages are all blank still shows the generic notice while no field is flagged |
| `LoginPage.LoginState.constructor` | app/pages/LoginPage.tsx:51-58 | a mounted page has empty values, an empty error record, the flag unset and nothing dispatched |
| `LoginPage.LoginState.OnInput` | app/pages/LoginPage.tsx:115-131 | over 8 code units changes nothing; otherwise only that field takes the upper-cased value, its truthy message becomes `''` with the key kept, and a truthy auth error is cleared; normalised values stay normalised |
| `LoginPage.LoginState.CloseAlert` | app/pages/LoginPage.tsx:159-161 | closing the alert clears the auth error |
| `LoginPage.LoginState.StoreErrorChanged` | app/pages/LoginPage.tsx:47 | the page shows the store's current error |
| `LoginPage.LoginState.ValidateForm` | app/pages/LoginPage.tsx:96-113 | stores the validator's record and returns true exactly when it is empty, i.e. the form is submittable; on normalised values only "required" can appear |
| `LoginPage.LoginState.Submit` | app/pages/LoginPage.tsx:133-148 | stores the record; dispatches nothing when it is non-empty and exactly one request with the current values when it is empty; the form values are kept |
| `LoginPage.LoginState.Observe` | app/pages/LoginPage.tsx:68-94 | one effect run is `Step` on the flag: at most one navigation, only when authenticated with a user and not yet redirected; sign-out clears the flag |

## Left out

- Rendering (app/pages/LoginPage.tsx:190-469): JSX, MUI styling, icons, the banner and the field helper texts. This is presentation. Only the error flag of a text field is kept, as `FieldFlagged`.
- `handleOpenDocs` and `handleKeyDown`. They only call `window.open`, `window.confirm` and `window.close`, which are browser I/O.
- The `showPassword` toggle and the `console.log` calls. They carry no logic.
- The `loginUser` thunk, the auth slice, its selectors and the router. They are not shown. A dispatch is recorded in `requests`. The store's answers reach the model as parameters: `StoreErrorChanged`, and `Observe`'s authentication, user and origin. Because the page swallows the thunk's outcome, no outcome is modelled.
- Asynchrony and effect scheduling. Each effect run is one `Observe` step, and the two effects are applied in source order. `StepIdempotent` shows that extra runs on unchanged inputs do nothing.
- Suppression of concurrent submits. It exists only as `disabled={isLoading}` on the controls (app/pages/LoginPage.tsx:314, 341, 397), not in `handleSubmit`.
- The `maxLength: 8` input attribute (app/pages/LoginPage.tsx:317, 344). The browser enforces it; the model relies on the handler's own length check.
- JsString.ToUpperCase: upper-cases ASCII letters only and always keeps the length, whereas JavaScript's `toUpperCase` applies full Unicode case mapping, which can lengthen a string (`ß` becomes `SS`). "Stored values are at most 8 code units" therefore holds under this assumption only.
- JsString.Length: a Dafny `string` holds Unicode scalar values, so a JavaScript value with a lone UTF-16 surrogate cannot be represented. For such a value `length` counts the surrogate as one unit; the model's code-unit count is exact only for well-formed strings.
- Mounting and unmounting. One `LoginState` is one mount of the page: `hasRedirected` is a `useRef` (app/pages/LoginPage.tsx:58), so each mount starts with the flag unset, and the navigation itself unmounts the page. A signed-in user who reaches `/login` again gets a fresh flag and a second navigation; the at-most-once guarantee holds per mounted page only.
- ErrorMapper.ErrorMessage: the table is a closed map. JavaScript's prototype keys (`errorMappings['toString']` is a function, not the fallback) are not modelled.
