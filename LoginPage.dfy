/** The login page's state with the rendering stripped away
    (app/pages/LoginPage.tsx): the form values, the per-field errors, the
    observed authentication error, the redirect flag and the log of
    `loginUser` dispatches. */
module LoginPage {
  import opened Optional
  import opened JsString
  import opened FormValidator
  import opened ErrorMapper
  import opened RedirectGuard

  /** `fieldErrors[field]` is truthy: the field carries a non-empty message.
      This is also what marks the text field as in error. */
  predicate FieldFlagged(errors: map<Field, string>, f: Field) {
    f in errors && errors[f] != ""
  }

  /** A value as the keystroke handler stores it: short enough and upper-cased. */
  predicate FieldNormalised(s: string) {
    Length(s) <= MaxLength && forall i :: 0 <= i < |s| ==> !IsLowerAscii(s[i])
  }

  /** Which alert the form shows under its fields. */
  datatype AlertKind = NoAlert | AuthAlert(message: string) | FixErrorsAlert

  /** `(authError || Object.keys(fieldErrors).length > 0) && (authError ? … : …)`:
      a truthy authentication error is shown through the error mapper and
      takes precedence; otherwise any key in the error record, even one whose
      message was blanked, shows the generic notice; otherwise nothing. */
  function SelectAlert(authError: Option<string>, fieldErrors: map<Field, string>): (a: AlertKind)
    ensures a == NoAlert <==> !Truthy(authError) && fieldErrors == map[]
    ensures a == FixErrorsAlert <==> !Truthy(authError) && fieldErrors != map[]
    ensures Truthy(authError) ==> a == AuthAlert(ErrorMessage(authError.value)) && a.message != ""
  {
    if Truthy(authError) || |fieldErrors| > 0 then
      if Truthy(authError) then AuthAlert(ErrorMessage(authError.value)) else FixErrorsAlert
    else NoAlert
  }

  /** Blanking every message does not remove the keys, so the generic notice
      stays up although no field is flagged any more. */
  lemma BlankedErrorsKeepNotice(authError: Option<string>, errors: map<Field, string>)
    requires !Truthy(authError) && errors != map[]
    requires forall f :: f in errors ==> errors[f] == ""
    ensures SelectAlert(authError, errors) == FixErrorsAlert
    ensures forall f :: !FieldFlagged(errors, f)
  {
  }

  class LoginState {
    var formData: Credentials
    var fieldErrors: map<Field, string>
    /** The session store's `lastError`, as the page last read it. */
    var authError: Option<string>
    /** `hasRedirected.current` */
    var hasRedirected: bool
    /** Every `loginUser(formData)` dispatched, oldest first. */
    var requests: seq<Credentials>

    /** Both form values are as the keystroke handler stores them. */
    predicate Normalised()
      reads this
    {
      FieldNormalised(formData.userId) && FieldNormalised(formData.password)
    }

    /** A freshly mounted page: empty form, no field errors, flag unset,
        nothing dispatched; the store's error is whatever it holds. */
    constructor (storeError: Option<string>)
      ensures formData == Credentials("", "") && fieldErrors == map[]
      ensures authError == storeError && !hasRedirected && requests == []
      ensures Normalised()
    {
      formData := Credentials("", "");
      fieldErrors := map[];
      authError := storeError;
      hasRedirected := false;
      requests := [];
    }

    /** `handleInputChange(field)`: an over-long raw value is dropped and
        nothing changes. Otherwise the field alone takes the upper-cased
        value, that field's message (if any) is blanked while its key stays,
        and a truthy authentication error is cleared. */
    method OnInput(field: Field, raw: string)
      modifies this`formData, this`fieldErrors, this`authError
      ensures Length(raw) > MaxLength ==>
        formData == old(formData) && fieldErrors == old(fieldErrors) && authError == old(authError)
      ensures Length(raw) <= MaxLength ==>
        && formData.Get(field) == ToUpperCase(raw)
        && (forall g :: g != field ==> formData.Get(g) == old(formData).Get(g))
        && fieldErrors == (if FieldFlagged(old(fieldErrors), field) then old(fieldErrors)[field := ""] else old(fieldErrors))
        && authError == (if Truthy(old(authError)) then None else old(authError))
      ensures fieldErrors.Keys == old(fieldErrors).Keys
      ensures old(Normalised()) ==> Normalised()
    {
      if Length(raw) <= MaxLength {
        formData := formData.With(field, ToUpperCase(raw));
        if FieldFlagged(fieldErrors, field) {
          fieldErrors := fieldErrors[field := ""];
        }
        if Truthy(authError) {
          authError := None;
        }
      }
    }

    /** `handleAlertClose`: `clearError()`. */
    method CloseAlert()
      modifies this`authError
      ensures authError == None
    {
      authError := None;
    }

    /** A re-render with the session store's current `lastError`. */
    method StoreErrorChanged(storeError: Option<string>)
      modifies this`authError
      ensures authError == storeError
    {
      authError := storeError;
    }

    /** `validateForm`: stores the error record and reports whether it is
        empty, that is whether the form may be submitted. On values the
        keystroke handler stored, the length check never fires. */
    method ValidateForm() returns (ok: bool)
      modifies this`fieldErrors
      ensures fieldErrors == Validate(formData)
      ensures ok <==> fieldErrors == map[]
      ensures ok <==> Submittable(formData)
      ensures Normalised() ==> forall f :: f in fieldErrors ==> fieldErrors[f] == Message(f, Required)
    {
      fieldErrors := Validate(formData);
      ok := |fieldErrors| == 0;
      if Normalised() {
        ShortValuesNeverTooLong(formData);
      }
    }

    /** `handleSubmit`: validation gates the dispatch. A failing form stores
        its errors and dispatches nothing; a passing one dispatches
        `loginUser` exactly once with the current form values. The outcome is
        caught, so the form (password included) is kept either way. */
    method Submit() returns (dispatched: bool)
      modifies this`fieldErrors, this`requests
      ensures fieldErrors == Validate(formData)
      ensures dispatched <==> Validate(formData) == map[]
      ensures requests == old(requests) + (if dispatched then [formData] else [])
    {
      dispatched := ValidateForm();
      if dispatched {
        requests := requests + [formData];
      }
    }

    /** One run of the two redirect effects: `Step` on the flag, with the
        navigation it issues. */
    method Observe(isAuthenticated: bool, user: Option<User>, from: Option<string>) returns (nav: Option<Navigation>)
      modifies this`hasRedirected
      ensures Reaction(hasRedirected, nav) == Step(old(hasRedirected), Observation(isAuthenticated, user, from))
      ensures nav.Some? <==> isAuthenticated && user.Some? && !old(hasRedirected)
      ensures nav.Some? ==> nav.value == Navigation(TargetPath(from, user.value.role), true)
      ensures !isAuthenticated ==> !hasRedirected
    {
      nav := None;
      if isAuthenticated && user.Some? && !hasRedirected {
        hasRedirected := true;
        nav := Some(Navigation(TargetPath(from, user.value.role), true));
      }
      if !isAuthenticated {
        hasRedirected := false;
      }
    }
  }

  /** A nine-character value is dropped. */
  method OverlongInputScenario() {
    var page := new LoginState(None);
    page.OnInput(Password, "PASSWORD1");
    assert page.formData == Credentials("", "");
  }

  /** An administrator signed in without an origin is sent to the admin
      menu once; the next observation of the same session does nothing. */
  method AdminRedirectScenario() {
    var page := new LoginState(None);
    var admin := User("ADMIN001", AdminRole);
    var nav := page.Observe(true, Some(admin), None);
    assert nav == Some(Navigation(AdminHome, true));
    nav := page.Observe(true, Some(admin), None);
    assert nav == None;
  }

  /** Sign in, sign out, sign in again from "/reports": a second navigation,
      to the origin rather than the role's menu. */
  method SecondSessionScenario(u: User) {
    var page := new LoginState(None);
    var nav := page.Observe(true, Some(u), None);
    assert nav.Some?;
    nav := page.Observe(false, None, None);
    assert nav == None && !page.hasRedirected;
    nav := page.Observe(true, Some(u), Some("/reports"));
    assert nav == Some(Navigation("/reports", true));
  }
}
