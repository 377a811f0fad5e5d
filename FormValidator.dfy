/** The credential pair the login form holds, and `validateForm`'s per-field
    checks (app/pages/LoginPage.tsx). */
module FormValidator {
  import opened Optional
  import opened JsString

  /** The two keys of `LoginCredentials`. */
  datatype Field = UserId | Password

  /** `LoginCredentials`: the form's user identifier and password. */
  datatype Credentials = Credentials(userId: string, password: string) {
    function Get(f: Field): string {
      match f
      case UserId => userId
      case Password => password
    }

    /** `{ ...prev, [field]: value }` */
    function With(f: Field, value: string): (c: Credentials)
      ensures c.Get(f) == value
      ensures forall g :: g != f ==> c.Get(g) == Get(g)
    {
      match f
      case UserId => this.(userId := value)
      case Password => this.(password := value)
    }
  }

  /** The longest value either field may hold, in JavaScript `length` units. */
  const MaxLength: nat := 8

  /** The two checks a field can fail. */
  datatype Problem = Required | TooLong

  /** The message `validateForm` stores for a field that fails a check. */
  function Message(f: Field, p: Problem): string {
    match (f, p)
    case (UserId, Required) => "Please enter your User ID."
    case (UserId, TooLong) => "User ID can be at most 8 characters."
    case (Password, Required) => "Please enter your password."
    case (Password, TooLong) => "Password can be at most 8 characters."
  }

  /** The `if … else if …` for one field. */
  function Check(value: string): Option<Problem> {
    if Trim(value) == "" then Some(Required)
    else if Length(value) > MaxLength then Some(TooLong)
    else None
  }

  /** A blank value (`!value.trim()`) is required, otherwise an over-long
      value is too long, otherwise it passes. The first check wins, so a
      field never has both problems. */
  lemma CheckMeaning(value: string)
    ensures Check(value) == Some(Required) <==> IsBlank(value)
    ensures Check(value) == Some(TooLong) <==> !IsBlank(value) && Length(value) > MaxLength
    ensures Check(value) == None <==> !IsBlank(value) && Length(value) <= MaxLength
  {
  }

  /** What submission needs of the form: every field non-blank and short enough. */
  predicate Submittable(c: Credentials) {
    Acceptable(c.userId) && Acceptable(c.password)
  }

  /** Non-blank and at most `MaxLength` code units long. */
  predicate Acceptable(value: string) {
    !IsBlank(value) && Length(value) <= MaxLength
  }

  /** The `errors` record `validateForm` builds, the user identifier first
      and then the password. It is empty exactly when the credentials may be
      submitted. */
  function Validate(c: Credentials): (errors: map<Field, string>)
    ensures errors == map[] <==> Submittable(c)
  {
    var user, password := Check(c.userId), Check(c.password);
    var first: map<Field, string> := if user.Some? then map[UserId := Message(UserId, user.value)] else map[];
    var errors := if password.Some? then first[Password := Message(Password, password.value)] else first;
    CheckMeaning(c.userId);
    CheckMeaning(c.password);
    assert Submittable(c) <==> user.None? && password.None?;
    assert user.Some? ==> UserId in errors;
    assert password.Some? ==> Password in errors;
    errors
  }

  /** What the record says about one field: it has a key exactly when the
      field is blank or too long, and the key carries the message for the
      one problem found, "required" taking precedence. */
  lemma ValidateReports(c: Credentials, f: Field)
    ensures f in Validate(c) <==> IsBlank(c.Get(f)) || Length(c.Get(f)) > MaxLength
    ensures f in Validate(c) ==>
      Validate(c)[f] == Message(f, if IsBlank(c.Get(f)) then Required else TooLong)
  {
  }

  /** The four messages are pairwise different, so a stored message tells
      which field failed which check. */
  lemma MessagesDistinct(f: Field, p: Problem, g: Field, q: Problem)
    requires (f, p) != (g, q)
    ensures Message(f, p) != Message(g, q)
  {
  }

  /** Each field is checked on its own: changing one field leaves the other
      field's entry in the record exactly as it was. */
  lemma ValidateFieldsIndependent(c: Credentials, f: Field, value: string, g: Field)
    requires g != f
    ensures g in Validate(c.With(f, value)) <==> g in Validate(c)
    ensures g in Validate(c) ==> Validate(c.With(f, value))[g] == Validate(c)[g]
  {
  }

  /** A blank field is always reported, so blank credentials never pass. */
  lemma BlankFieldBlocksSubmission(c: Credentials, f: Field)
    requires IsBlank(c.Get(f))
    ensures Validate(c) != map[]
    ensures Validate(c)[f] == Message(f, Required)
  {
  }

  /** The defensive length check: for values of at most eight code units the
      only message the validator can produce is the "required" one. */
  lemma {:induction false} ShortValuesNeverTooLong(c: Credentials)
    requires forall f: Field :: Length(c.Get(f)) <= MaxLength
    ensures forall f :: f in Validate(c) ==> Validate(c)[f] == Message(f, Required) && IsBlank(c.Get(f))
  {
    forall f ensures f in Validate(c) ==> Validate(c)[f] == Message(f, Required) && IsBlank(c.Get(f)) {
      ValidateReports(c, f);
    }
  }

  /** Empty user identifier with password "X": only the user identifier is reported. */
  lemma EmptyUserIdScenario()
    ensures Validate(Credentials("", "X")) == map[UserId := "Please enter your User ID."]
  {
  }
}
