/** The registration form (`src/pages/Auth/Register.jsx`): field edits, the ordered
    checks run on submit, the trimmed data handed to the registration service, and the
    error shown for its answer. */
module Register {
  import opened Js

  const PasswordsDoNotMatch := "Passwords do not match"
  const PasswordTooShort := "Password must be at least 6 characters"
  const PhoneNot10Digits := "Phone number must be 10 digits"
  const RegistrationFailed := "Registration failed"
  const RegistrationError := "An error occurred during registration"

  const MinPasswordLength: nat := 6
  const PhoneLength: nat := 10

  /** The form's state object. */
  datatype FormData = FormData(fullName: string, email: string, password: string,
                               confirmPassword: string, phone: string)

  /** The `name` attribute of an input. */
  datatype Field = FullName | Email | Password | ConfirmPassword | Phone

  function Get(f: FormData, field: Field): string {
    match field
    case FullName => f.fullName
    case Email => f.email
    case Password => f.password
    case ConfirmPassword => f.confirmPassword
    case Phone => f.phone
  }

  /** `{...formData, [name]: value}`: the named field takes the value and no other changes. */
  function Update(f: FormData, field: Field, value: string): (g: FormData)
    ensures forall other :: Get(g, other) == if other == field then value else Get(f, other)
  {
    match field
    case FullName => f.(fullName := value)
    case Email => f.(email := value)
    case Password => f.(password := value)
    case ConfirmPassword => f.(confirmPassword := value)
    case Phone => f.(phone := value)
  }

  /** Writing a field twice keeps only the second value. */
  lemma UpdateTwice(f: FormData, field: Field, a: string, b: string)
    ensures Update(Update(f, field, a), field, b) == Update(f, field, b)
  {
  }

  /** Writing back a field's own value changes nothing. */
  lemma UpdateSame(f: FormData, field: Field)
    ensures Update(f, field, Get(f, field)) == f
  {
  }

  /** `s.length`: the number of UTF-16 code units, two for a character outside the
      Basic Multilingual Plane. */
  function Utf16Length(s: string): (n: nat)
    ensures |s| <= n <= 2 * |s|
  {
    if s == [] then 0 else (if s[0] as int > 0xFFFF then 2 else 1) + Utf16Length(s[1..])
  }

  /** `/^[0-9]{10}$/.test(phone)`. */
  predicate ValidPhone(phone: string) {
    |phone| == PhoneLength && AllDigits(phone)
  }

  /** The guards of `handleSubmit`, in order: the first failing one gives its message. */
  function Validate(f: FormData): (err: Option<string>)
    ensures f.password != f.confirmPassword ==> err == Some(PasswordsDoNotMatch)
    ensures err == Some(PasswordTooShort) <==>
      f.password == f.confirmPassword && Utf16Length(f.password) < MinPasswordLength
    ensures err == Some(PhoneNot10Digits) <==>
      f.password == f.confirmPassword && Utf16Length(f.password) >= MinPasswordLength && !ValidPhone(f.phone)
    ensures err == None <==>
      f.password == f.confirmPassword && Utf16Length(f.password) >= MinPasswordLength && ValidPhone(f.phone)
  {
    if f.password != f.confirmPassword then Some(PasswordsDoNotMatch)
    else if Utf16Length(f.password) < MinPasswordLength then Some(PasswordTooShort)
    else if !ValidPhone(f.phone) then Some(PhoneNot10Digits)
    else None
  }

  /** Six characters of the Basic Multilingual Plane are enough; three emoji are too (each
      counts twice), though they are only three characters. */
  lemma PasswordLengthCountsCodeUnits()
    ensures Utf16Length("abcdef") == 6
    ensures Utf16Length("\U{1F600}\U{1F600}\U{1F600}") == 6
  {
  }

  /** The object handed to `register`: names, email and phone trimmed, the password as
      typed, and no `confirmPassword`. */
  datatype RegisterData = RegisterData(fullName: string, email: string, password: string, phone: string)

  function MakeRegisterData(f: FormData): (d: RegisterData)
    ensures d.password == f.password
    ensures d.fullName == Trim(f.fullName) && d.email == Trim(f.email) && d.phone == Trim(f.phone)
  {
    RegisterData(Trim(f.fullName), Trim(f.email), f.password, Trim(f.phone))
  }

  /** A phone number that passed the check is sent exactly as typed. */
  lemma ValidPhoneUnchangedByTrim(f: FormData)
    requires ValidPhone(f.phone)
    ensures MakeRegisterData(f).phone == f.phone
  {
    TrimNoWhitespace(f.phone);
  }

  /** The service's answer: a result object, or a thrown error with an optional message. */
  datatype RegisterAnswer = Answered(success: bool, message: Option<string>) | Threw(errorMessage: Option<string>)

  /** The error shown once the service answered: none on success, else its message or the
      fallback. */
  function AnswerError(a: RegisterAnswer): (e: string)
    ensures a.Answered? && a.success ==> e == ""
    ensures a.Answered? && !a.success ==> e == OrDefault(a.message, RegistrationFailed) && e != ""
    ensures a.Threw? ==> e == OrDefault(a.errorMessage, RegistrationError) && e != ""
  {
    match a
    case Answered(success, message) => if success then "" else OrDefault(message, RegistrationFailed)
    case Threw(m) => OrDefault(m, RegistrationError)
  }

  /** The form component. */
  class RegisterForm {
    var formData: FormData
    var error: string
    var loading: bool

    constructor()
      ensures formData == FormData("", "", "", "", "") && error == "" && !loading
    {
      formData := FormData("", "", "", "", "");
      error := "";
      loading := false;
    }

    /** `handleChange`: one field changes and the error is cleared. */
    method HandleChange(field: Field, value: string)
      modifies this
      ensures formData == Update(old(formData), field, value)
      ensures error == "" && loading == old(loading)
    {
      formData := Update(formData, field, value);
      error := "";
    }

    /** `handleSubmit` up to the call: a failed check sets its message and sends nothing;
        otherwise the error is cleared, loading starts and the trimmed data is sent. */
    method HandleSubmit() returns (sent: Option<RegisterData>)
      modifies this
      ensures formData == old(formData)
      ensures sent.None? <==> Validate(formData).Some?
      ensures sent.None? ==> error == Validate(formData).value && loading == old(loading)
      ensures sent.Some? ==> sent.value == MakeRegisterData(formData) && error == "" && loading
    {
      error := "";
      if formData.password != formData.confirmPassword {
        error := PasswordsDoNotMatch;
        return None;
      }
      if Utf16Length(formData.password) < MinPasswordLength {
        error := PasswordTooShort;
        return None;
      }
      if !ValidPhone(formData.phone) {
        error := PhoneNot10Digits;
        return None;
      }
      loading := true;
      sent := Some(MakeRegisterData(formData));
    }

    /** The service settled: its error is shown and loading ends. */
    method Settle(answer: RegisterAnswer)
      modifies this
      ensures formData == old(formData)
      ensures error == (if answer.Answered? && answer.success then old(error) else AnswerError(answer))
      ensures !loading
    {
      match answer {
        case Answered(success, message) =>
          if !success {
            error := OrDefault(message, RegistrationFailed);
          }
        case Threw(m) =>
          error := OrDefault(m, RegistrationError);
      }
      loading := false;
    }
  }
}
