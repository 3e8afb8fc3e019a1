/** The customer sign-in form, `client/src/pages/UserManagement/SignIn.jsx`:
    the per-field messages written into the error map while typing, and
    the submit guard, which reads the error map as it stood before the
    submit's own revalidation. */
module SignIn {
  import opened Patterns

  const EmailRequired := "Email is required"
  const EmailInvalid := "Enter a valid email address"
  const PasswordRequired := "Password is required"
  const PasswordTooShort := "Password must be at least 4 characters"

  /** The message `validateField` computes for input `id` holding `value`;
      inputs other than the e-mail and the password get "". */
  function FieldMessage(id: string, value: string): string {
    if id == "email" then
      if value == "" then EmailRequired
      else if !IsEmail(value) then EmailInvalid
      else ""
    else if id == "password" then
      if value == "" then PasswordRequired
      else if |value| < 4 then PasswordTooShort
      else ""
    else ""
  }

  /** The e-mail has no message exactly when it matches the address
      pattern, and the password exactly when it has at least 4 characters. */
  lemma FieldMessageMeaning(value: string)
    ensures FieldMessage("email", value) == "" <==> EmailPattern(value)
    ensures FieldMessage("password", value) == "" <==> |value| >= 4
  {
    if EmailPattern(value) {
      assert value != "" by {
        var i, j :| 0 < i && i + 1 < j && j + 1 < |value| && value[i] == '@' && value[j] == '.'
          && AllEmailChars(value[..i]) && AllEmailChars(value[i + 1..j]) && AllEmailChars(value[j + 1..]);
      }
    }
  }

  /** The error stored under `key`, `undefined` (here "") when none is. */
  function ErrorAt(errors: map<string, string>, key: string): string {
    if key in errors then errors[key] else ""
  }

  /** `errors.email || errors.password`: the guard that stops a submit. */
  predicate Blocked(errors: map<string, string>) {
    ErrorAt(errors, "email") != "" || ErrorAt(errors, "password") != ""
  }

  /** The error map once every key in `keys` has been validated again with
      its value in `data`. */
  function Revalidated(errors: map<string, string>, data: map<string, string>, keys: set<string>): (r: map<string, string>)
    requires keys <= data.Keys
    ensures r.Keys == errors.Keys + keys
    ensures forall k :: k in keys ==> r[k] == FieldMessage(k, data[k])
    ensures forall k :: k in errors && k !in keys ==> r[k] == errors[k]
  {
    map k | k in errors.Keys + keys :: if k in keys then FieldMessage(k, data[k]) else errors[k]
  }

  /** Error maps written only by typing already hold every typed value's
      message, so the submit's revalidation leaves them as they are. */
  lemma RevalidationChangesNothing(errors: map<string, string>, data: map<string, string>)
    requires data.Keys <= errors.Keys
    requires forall k :: k in data ==> errors[k] == FieldMessage(k, data[k])
    ensures Revalidated(errors, data, data.Keys) == errors
  {
  }

  /** The form's state: both objects start empty. */
  class SignInForm {
    var formData: map<string, string>
    var errors: map<string, string>

    /** Every stored error is the message of the value typed for it. */
    ghost predicate Current()
      reads this
    {
      formData.Keys <= errors.Keys && forall k :: k in formData ==> errors[k] == FieldMessage(k, formData[k])
    }

    constructor()
      ensures formData == map[] && errors == map[] && Current()
    {
      formData := map[];
      errors := map[];
    }

    /** `validateField`: computes the message and writes it under its own
        id only. */
    method ValidateField(id: string, value: string)
      modifies this
      ensures errors == old(errors)[id := FieldMessage(id, value)]
      ensures formData == old(formData)
    {
      errors := errors[id := FieldMessage(id, value)];
    }

    /** `handleChange`: stores the value and validates it. */
    method HandleChange(id: string, value: string)
      modifies this
      requires Current()
      ensures formData == old(formData)[id := value]
      ensures errors == old(errors)[id := FieldMessage(id, value)]
      ensures Current()
    {
      formData := formData[id := value];
      ValidateField(id, value);
    }

    /** `handleSubmit` up to the request: every typed key is validated
        again, but whether to send is decided on the errors as they were
        before, since the state updates land only after the handler. */
    method Submit() returns (sends: bool)
      modifies this
      ensures sends <==> !Blocked(old(errors))
      ensures errors == Revalidated(old(errors), formData, formData.Keys)
      ensures formData == old(formData)
    {
      var before := errors;
      var keys := formData.Keys;
      while keys != {}
        invariant keys <= formData.Keys && formData == old(formData)
        invariant errors == Revalidated(before, formData, formData.Keys - keys)
        decreases keys
      {
        var k :| k in keys;
        ValidateField(k, formData[k]);
        keys := keys - {k};
      }
      assert formData.Keys - keys == formData.Keys;
      sends := !Blocked(before);
    }
  }

  /** Once both fields have been typed in, a submit goes ahead exactly when
      the e-mail matches the pattern and the password has 4 characters. */
  lemma TypedFormSubmits(errors: map<string, string>, data: map<string, string>)
    requires data.Keys <= errors.Keys
    requires forall k :: k in data ==> errors[k] == FieldMessage(k, data[k])
    requires "email" in data && "password" in data
    ensures !Blocked(errors) <==> EmailPattern(data["email"]) && |data["password"]| >= 4
  {
    FieldMessageMeaning(data["email"]);
    FieldMessageMeaning(data["password"]);
  }

  /** But a form nobody typed in has no errors yet, so its submit is sent
      with neither an e-mail nor a password. */
  lemma UntouchedFormSubmits()
    ensures !Blocked(map[]) && Revalidated(map[], map[], {}) == map[]
  {
  }
}
