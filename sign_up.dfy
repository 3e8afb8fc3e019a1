/** The customer sign-up form, `client/src/pages/UserManagement/SignUp.jsx`:
    the per-field rules, the whole-form check run on submit, the button's
    "looks valid" test and the touched-gated revalidation while typing. */
module SignUp {
  import opened Text
  import opened Patterns

  datatype Field = Username | Email | Phonenumber | Address | Password

  /** The fields in the order the form object lists them. */
  const Fields: seq<Field> := [Username, Email, Phonenumber, Address, Password]

  /** One value per field: the form data, the error texts, the touched flags. */
  datatype PerField<T> = PerField(username: T, email: T, phonenumber: T, address: T, password: T) {
    function Get(f: Field): T {
      match f
      case Username => username
      case Email => email
      case Phonenumber => phonenumber
      case Address => address
      case Password => password
    }

    function Set(f: Field, v: T): (r: PerField<T>)
      ensures r.Get(f) == v
      ensures forall g :: g != f ==> r.Get(g) == Get(g)
    {
      match f
      case Username => this.(username := v)
      case Email => this.(email := v)
      case Phonenumber => this.(phonenumber := v)
      case Address => this.(address := v)
      case Password => this.(password := v)
    }
  }

  function Uniform<T>(v: T): PerField<T> {
    PerField(v, v, v, v, v)
  }

  const UsernameRequired := "Username is required"
  const UsernameTooShort := "Username must be at least 3 characters"
  const UsernameCharacters := "Username can only contain letters, numbers, and underscores"
  const EmailRequired := "Email is required"
  const EmailInvalid := "Please enter a valid email address"
  const PhoneRequired := "Phone number is required"
  const PhoneTenDigits := "Phone number must be exactly 10 digits"
  const AddressRequired := "Address is required"
  const AddressTooShort := "Address must be at least 10 characters"
  const PasswordRequired := "Password is required"
  const PasswordTooShort := "Password must be at least 6 characters"
  const PasswordTooWeak :=
    "Password must contain at least one uppercase letter, one lowercase letter, and one number"

  /** `validateField`: the first rule the value breaks, or "" when none. */
  function ValidateField(f: Field, value: string): string {
    match f
    case Username =>
      if IsBlank(value) then UsernameRequired
      else if |value| < 3 then UsernameTooShort
      else if !IsUsernameText(value) then UsernameCharacters
      else ""
    case Email =>
      if IsBlank(value) then EmailRequired
      else if !IsEmail(value) then EmailInvalid
      else ""
    case Phonenumber =>
      if IsBlank(value) then PhoneRequired
      else if !IsTenDigits(value) then PhoneTenDigits
      else ""
    case Address =>
      if IsBlank(value) then AddressRequired
      else if |value| < 10 then AddressTooShort
      else ""
    case Password =>
      if value == "" then PasswordRequired
      else if |value| < 6 then PasswordTooShort
      else if !PasswordPattern(value) then PasswordTooWeak
      else ""
  }

  /** What each field must be, as the form's rules describe it. */
  ghost predicate Acceptable(f: Field, value: string) {
    match f
    case Username => |value| >= 3 && forall k :: 0 <= k < |value| ==> IsWordChar(value[k])
    case Email => EmailPattern(value)
    case Phonenumber => |value| == 10 && AllDigits(value)
    case Address => !IsBlank(value) && |value| >= 10
    case Password => |value| >= 6 && PasswordPattern(value)
  }

  /** A field has no error exactly when its value is acceptable, and an
      acceptable value is never blank. */
  lemma ValidateFieldMeaning(f: Field, value: string)
    ensures ValidateField(f, value) == "" <==> Acceptable(f, value)
    ensures Acceptable(f, value) ==> !IsBlank(value)
  {
    if Acceptable(f, value) {
      match f
      case Username =>
        NotBlankWhenSomeNonSpace(value, 0);
      case Email =>
        var i, j :| 0 < i && i + 1 < j && j + 1 < |value| && value[i] == '@' && value[j] == '.'
          && AllEmailChars(value[..i]) && AllEmailChars(value[i + 1..j]) && AllEmailChars(value[j + 1..]);
        NotBlankWhenSomeNonSpace(value, i);
      case Phonenumber =>
        NotBlankWhenSomeNonSpace(value, 0);
      case Address =>
      case Password =>
        var p :| 0 <= p <= |value| && AheadInLine(value, p, LowerLetter) && AheadInLine(value, p, UpperLetter)
          && AheadInLine(value, p, Digit);
        var q :| p <= q < |value| && InClass(value[q], LowerLetter)
          && forall m :: p <= m < q ==> !IsLineTerminator(value[m]);
        NotBlankWhenSomeNonSpace(value, q);
    }
  }

  /** The errors of a whole form. */
  function AllErrors(data: PerField<string>): PerField<string> {
    PerField(ValidateField(Username, data.username), ValidateField(Email, data.email),
      ValidateField(Phonenumber, data.phonenumber), ValidateField(Address, data.address),
      ValidateField(Password, data.password))
  }

  lemma AllErrorsGet(data: PerField<string>, f: Field)
    ensures AllErrors(data).Get(f) == ValidateField(f, data.Get(f))
  {
    match f
    case Username =>
    case Email =>
    case Phonenumber =>
    case Address =>
    case Password =>
  }

  /** Every field of the form is acceptable. */
  ghost predicate FormAcceptable(data: PerField<string>) {
    && Acceptable(Username, data.username) && Acceptable(Email, data.email)
    && Acceptable(Phonenumber, data.phonenumber) && Acceptable(Address, data.address)
    && Acceptable(Password, data.password)
  }

  /** Each field's rule, read off its own error text. */
  lemma EveryFieldMeaning(data: PerField<string>)
    ensures AllErrors(data).username == "" <==> Acceptable(Username, data.username)
    ensures AllErrors(data).email == "" <==> Acceptable(Email, data.email)
    ensures AllErrors(data).phonenumber == "" <==> Acceptable(Phonenumber, data.phonenumber)
    ensures AllErrors(data).address == "" <==> Acceptable(Address, data.address)
    ensures AllErrors(data).password == "" <==> Acceptable(Password, data.password)
    ensures FormAcceptable(data) ==>
      !IsBlank(data.username) && !IsBlank(data.email) && !IsBlank(data.phonenumber)
      && !IsBlank(data.address) && !IsBlank(data.password)
  {
    ValidateFieldMeaning(Username, data.username);
    ValidateFieldMeaning(Email, data.email);
    ValidateFieldMeaning(Phonenumber, data.phonenumber);
    ValidateFieldMeaning(Address, data.address);
    ValidateFieldMeaning(Password, data.password);
  }

  /** No field in the list has an error exactly when the form is
      acceptable. */
  lemma NoErrorsIffAcceptable(data: PerField<string>)
    ensures (forall m :: 0 <= m < |Fields| ==> AllErrors(data).Get(Fields[m]) == "") <==> FormAcceptable(data)
  {
    ListedFieldsEmpty(AllErrors(data));
    EveryFieldMeaning(data);
  }

  /** Every listed field is empty exactly when all five are. */
  lemma ListedFieldsEmpty(e: PerField<string>)
    ensures (forall m :: 0 <= m < |Fields| ==> e.Get(Fields[m]) == "") <==>
      e.username == "" && e.email == "" && e.phonenumber == "" && e.address == "" && e.password == ""
  {
    assert e.Get(Fields[0]) == e.username && e.Get(Fields[1]) == e.email;
    assert e.Get(Fields[2]) == e.phonenumber && e.Get(Fields[3]) == e.address;
    assert e.Get(Fields[4]) == e.password;
  }

  /** `isFormValid`: no stored error is set and no field is blank. */
  predicate LooksValid(errors: PerField<string>, data: PerField<string>) {
    (forall f :: errors.Get(f) == "") && (forall f :: !IsBlank(data.Get(f)))
  }

  /** Once the stored errors are the form's own, the button's test agrees
      with the rules. */
  lemma LooksValidWhenCurrent(data: PerField<string>)
    ensures LooksValid(AllErrors(data), data) <==> FormAcceptable(data)
  {
    EveryFieldMeaning(data);
    var e := AllErrors(data);
    if FormAcceptable(data) {
      assert forall f :: e.Get(f) == "" && !IsBlank(data.Get(f)) by {
        forall f ensures e.Get(f) == "" && !IsBlank(data.Get(f)) {
          match f
          case Username =>
          case Email =>
          case Phonenumber =>
          case Address =>
          case Password =>
        }
      }
    }
    if LooksValid(e, data) {
      assert e.Get(Username) == "" && e.Get(Email) == "" && e.Get(Phonenumber) == "";
      assert e.Get(Address) == "" && e.Get(Password) == "";
    }
  }

  /** But stale errors mislead it: a two-letter user name typed before its
      field was ever left leaves no error behind. */
  lemma StaleErrorsLookValid()
    ensures var data := PerField("ab", "a@b.co", "0771234567", "12 Main Street", "Secret1");
      LooksValid(Uniform(""), data) && !FormAcceptable(data)
  {
    var data := PerField("ab", "a@b.co", "0771234567", "12 Main Street", "Secret1");
    forall f ensures !IsBlank(data.Get(f)) {
      NotBlankWhenSomeNonSpace(data.Get(f), 0);
    }
    assert !Acceptable(Username, data.Get(Username));
  }

  /** Errors that agree with the rules on every listed field are the
      form's errors, and they are all empty exactly when the form is
      acceptable. */
  lemma ErrorsOfEveryField(data: PerField<string>, e: PerField<string>)
    requires forall m :: 0 <= m < |Fields| ==> e.Get(Fields[m]) == ValidateField(Fields[m], data.Get(Fields[m]))
    ensures e == AllErrors(data)
    ensures (forall m :: 0 <= m < |Fields| ==> e.Get(Fields[m]) == "") <==> FormAcceptable(data)
  {
    assert e.Get(Fields[0]) == ValidateField(Username, data.username);
    assert e.Get(Fields[1]) == ValidateField(Email, data.email);
    assert e.Get(Fields[2]) == ValidateField(Phonenumber, data.phonenumber);
    assert e.Get(Fields[3]) == ValidateField(Address, data.address);
    assert e.Get(Fields[4]) == ValidateField(Password, data.password);
    NoErrorsIffAcceptable(data);
  }

  /** The loop of `validateForm` with the rule `validate`: each field in
      turn, the flag dropping to false at the first error. */
  method CheckEach(data: PerField<string>, validate: (Field, string) -> string)
    returns (valid: bool, newErrors: PerField<string>)
    ensures forall m :: 0 <= m < |Fields| ==> newErrors.Get(Fields[m]) == validate(Fields[m], data.Get(Fields[m]))
    ensures valid <==> forall m :: 0 <= m < |Fields| ==> newErrors.Get(Fields[m]) == ""
  {
    newErrors := Uniform("");
    valid := true;
    var n := 0;
    while n < |Fields|
      invariant 0 <= n <= |Fields|
      invariant forall m :: 0 <= m < n ==> newErrors.Get(Fields[m]) == validate(Fields[m], data.Get(Fields[m]))
      invariant valid <==> forall m :: 0 <= m < n ==> newErrors.Get(Fields[m]) == ""
    {
      var f := Fields[n];
      var error := validate(f, data.Get(f));
      newErrors := newErrors.Set(f, error);
      if error != "" {
        valid := false;
      }
      n := n + 1;
    }
  }

  /** `validateForm`'s loop with the form's own rules: it computes every
      field's error, and the flag says the form is acceptable. */
  method CheckAll(data: PerField<string>) returns (valid: bool, newErrors: PerField<string>)
    ensures newErrors == AllErrors(data)
    ensures valid <==> FormAcceptable(data)
  {
    valid, newErrors := CheckEach(data, ValidateField);
    ErrorsOfEveryField(data, newErrors);
  }

  /** The form's state. */
  class SignUpForm {
    var formData: PerField<string>
    var errors: PerField<string>
    var touched: PerField<bool>
    var submitError: string

    constructor()
      ensures formData == Uniform("") && errors == Uniform("") && touched == Uniform(false)
      ensures submitError == ""
    {
      formData := Uniform("");
      errors := Uniform("");
      touched := Uniform(false);
      submitError := "";
    }

    /** `handleChange`: stores the value and revalidates the field only if
        it has been touched. */
    method HandleChange(f: Field, value: string)
      modifies this
      ensures formData == old(formData).Set(f, value)
      ensures touched == old(touched) && submitError == old(submitError)
      ensures errors == if touched.Get(f) then old(errors).Set(f, ValidateField(f, value)) else old(errors)
    {
      formData := formData.Set(f, value);
      if touched.Get(f) {
        errors := errors.Set(f, ValidateField(f, value));
      }
    }

    /** `handleBlur`: marks the field touched and validates it. */
    method HandleBlur(f: Field, value: string)
      modifies this
      ensures touched == old(touched).Set(f, true)
      ensures errors == old(errors).Set(f, ValidateField(f, value))
      ensures formData == old(formData) && submitError == old(submitError)
    {
      touched := touched.Set(f, true);
      errors := errors.Set(f, ValidateField(f, value));
    }

    /** `validateForm`: validates every field, stores the errors, marks
        every field touched and reports whether none failed. */
    method ValidateForm() returns (valid: bool)
      modifies this
      ensures errors == AllErrors(formData) && touched == Uniform(true)
      ensures formData == old(formData) && submitError == old(submitError)
      ensures valid <==> FormAcceptable(formData)
    {
      valid, errors := CheckAll(formData);
      touched := Uniform(true);
    }

    /** `handleSubmit` up to the request: an invalid form sets the submit
        error and sends nothing. */
    method Submit() returns (sends: bool)
      modifies this
      ensures sends <==> FormAcceptable(old(formData))
      ensures submitError == if sends then "" else "Please fix the errors above"
      ensures errors == AllErrors(formData) && touched == Uniform(true) && formData == old(formData)
    {
      submitError := "";
      sends := ValidateForm();
      if !sends {
        submitError := "Please fix the errors above";
      }
    }

    /** `isFormValid` on the current state. */
    predicate IsFormValid()
      reads this
    {
      LooksValid(errors, formData)
    }
  }
}
