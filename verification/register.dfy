/**
  The sign-up form: four text fields and a captcha, validated on submit into
  a map of per-field messages; the form goes on to the profile page only
  when no message was produced.
 */
module Register {
  import opened Types
  import opened Strings
  import opened Forms

  datatype RegisterForm = RegisterForm(username: string, email: string, password: string, confirmPassword: string)

  const EmptyForm: RegisterForm := RegisterForm("", "", "", "")

  const UsernameRequired: string := "نام کاربری الزامی است"
  const UsernameTooShort: string := "نام کاربری باید حداقل ۳ کاراکتر باشد"
  const EmailRequired: string := "آدرس ایمیل الزامی است"
  const EmailInvalid: string := "آدرس ایمیل معتبر نیست"
  const ConfirmRequired: string := "تأیید رمز عبور الزامی است"
  const ConfirmMismatch: string := "رمز عبور و تأیید آن مطابقت ندارند"

  const MinUsername: nat := 3

  /** The page a successful sign-up moves to. */
  const SuccessTarget: string := "/profile"

  /** The username check: required (after trimming), then at least three
      characters counted on the untrimmed value. */
  function UsernameCheck(u: string): (e: Option<string>)
    ensures e.None? <==> !IsBlank(u) && |u| >= MinUsername
    ensures e.Some? ==> e.value == (if IsBlank(u) then UsernameRequired else UsernameTooShort)
  {
    if IsBlank(u) then Some(UsernameRequired)
    else if |u| < MinUsername then Some(UsernameTooShort)
    else None
  }

  /** The e-mail check: required (after trimming), then the pattern on the
      untrimmed value. */
  function EmailCheck(email: string): (e: Option<string>)
    ensures e.None? <==> MatchesEmailPattern(email)
    ensures e.Some? ==> e.value == (if IsBlank(email) then EmailRequired else EmailInvalid)
  {
    EmailShapeIffPattern(email);
    if IsBlank(email) then Some(EmailRequired)
    else if !EmailShape(email) then Some(EmailInvalid)
    else None
  }

  /** The confirmation check: required, then equal to the password. */
  function ConfirmCheck(password: string, confirm: string): (e: Option<string>)
    ensures e.None? <==> confirm != "" && confirm == password
    ensures e.Some? ==> e.value == (if confirm == "" then ConfirmRequired else ConfirmMismatch)
  {
    if confirm == "" then Some(ConfirmRequired)
    else if password != confirm then Some(ConfirmMismatch)
    else None
  }

  /** The four text inputs, named as in the markup. */
  datatype Field = Username | Email | Password | ConfirmPassword

  /** Where a message is kept: under an input, or under the captcha. */
  datatype Key = Input(field: Field) | Recaptcha

  function Get(f: RegisterForm, field: Field): string {
    match field
      case Username => f.username
      case Email => f.email
      case Password => f.password
      case ConfirmPassword => f.confirmPassword
  }

  /** The message, if any, that validation puts under a key. */
  function Check(f: RegisterForm, token: Option<string>, k: Key): Option<string> {
    match k
      case Input(Username) => UsernameCheck(f.username)
      case Input(Email) => EmailCheck(f.email)
      case Input(Password) => PasswordCheck(f.password)
      case Input(ConfirmPassword) => ConfirmCheck(f.password, f.confirmPassword)
      case Recaptcha => if CaptchaSolved(token) then None else Some(CaptchaMessage)
  }

  const AllKeys: set<Key> := {Input(Username), Input(Email), Input(Password), Input(ConfirmPassword), Recaptcha}

  /** Every key is one of the five. */
  lemma AllKeysComplete(k: Key)
    ensures k in AllKeys
  {
    if k.Input? {
      assert k.field == Username || k.field == Email || k.field == Password || k.field == ConfirmPassword;
    }
  }

  /** The submit-time validation: one message per failing field. */
  function Validate(f: RegisterForm, token: Option<string>): (r: Errors<Key>)
    ensures forall k :: k in r <==> Check(f, token, k).Some?
    ensures forall k :: k in r ==> r[k] == Check(f, token, k).value
  {
    assert forall k :: k in AllKeys by {
      forall k ensures k in AllKeys {
        AllKeysComplete(k);
      }
    }
    map k | k in AllKeys && Check(f, token, k).Some? :: Check(f, token, k).value
  }

  /** Each field's message appears under exactly its own condition. */
  lemma ValidateFields(f: RegisterForm, token: Option<string>)
    ensures Input(Username) in Validate(f, token) <==> IsBlank(f.username) || |f.username| < MinUsername
    ensures Input(Email) in Validate(f, token) <==> !MatchesEmailPattern(f.email)
    ensures Input(Password) in Validate(f, token) <==> |f.password| < MinPassword
    ensures Input(ConfirmPassword) in Validate(f, token) <==> f.confirmPassword == "" || f.confirmPassword != f.password
    ensures Recaptcha in Validate(f, token) <==> !CaptchaSolved(token)
  {
  }

  /** Every message produced is non-empty, so each failing field shows one. */
  lemma MessagesShow(f: RegisterForm, token: Option<string>)
    ensures forall k :: k in Validate(f, token) ==> HasError(Validate(f, token), k)
  {
    var r := Validate(f, token);
    forall k | k in r
      ensures r[k] != ""
    {
      match k
        case Input(Username) =>
        case Input(Email) =>
        case Input(Password) =>
        case Input(ConfirmPassword) =>
        case Recaptcha =>
    }
  }

  /** Every condition holds: a sign-up the page lets through. */
  ghost predicate AllHold(f: RegisterForm, token: Option<string>) {
    !IsBlank(f.username) && |f.username| >= MinUsername
    && MatchesEmailPattern(f.email)
    && |f.password| >= MinPassword && f.confirmPassword == f.password
    && CaptchaSolved(token)
  }

  /** Sign-up goes ahead exactly when the username has three or more
      characters and is not blank, the address matches the pattern, the
      password has six or more characters, the confirmation repeats it, and
      the captcha is solved. */
  lemma ValidIff(f: RegisterForm, token: Option<string>)
    ensures |Validate(f, token)| == 0 <==> AllHold(f, token)
  {
    if AllHold(f, token) {
      PassesWhenAllHold(f, token);
    } else {
      FailsWhenOneFails(f, token);
    }
  }

  lemma PassesWhenAllHold(f: RegisterForm, token: Option<string>)
    requires AllHold(f, token)
    ensures |Validate(f, token)| == 0
  {
    NoKeyPresent(f, token);
    var r := Validate(f, token);
    assert r.Keys == {};
    assert |r| == |r.Keys|;
  }

  lemma NoKeyPresent(f: RegisterForm, token: Option<string>)
    requires AllHold(f, token)
    ensures forall k :: k !in Validate(f, token)
  {
    forall k ensures k !in Validate(f, token) {
      CheckPasses(f, token, k);
    }
  }

  lemma CheckPasses(f: RegisterForm, token: Option<string>, k: Key)
    requires AllHold(f, token)
    ensures Check(f, token, k).None?
  {
    match k
      case Input(Username) =>
      case Input(Email) =>
      case Input(Password) =>
      case Input(ConfirmPassword) =>
      case Recaptcha =>
  }

  lemma FailsWhenOneFails(f: RegisterForm, token: Option<string>)
    requires !AllHold(f, token)
    ensures |Validate(f, token)| > 0
  {
    var r := Validate(f, token);
    var k: Key;
    if IsBlank(f.username) || |f.username| < MinUsername {
      k := Input(Username);
    } else if !MatchesEmailPattern(f.email) {
      k := Input(Email);
    } else if |f.password| < MinPassword {
      k := Input(Password);
    } else if f.confirmPassword != f.password {
      k := Input(ConfirmPassword);
    } else {
      k := Recaptcha;
    }
    assert k in r;
  }

  /** The page's state between events. */
  datatype Page = Page(form: RegisterForm, errors: Errors<Key>, token: Option<string>)

  const InitialPage: Page := Page(EmptyForm, map[], None)

  /** Typing into an input: its value is replaced and its message, if
      showing, is blanked. */
  function HandleInputChange(pg: Page, field: Field, value: string): (r: Page)
    ensures Get(r.form, field) == value
    ensures forall other :: other != field ==> Get(r.form, other) == Get(pg.form, other)
    ensures !HasError(r.errors, Input(field)) && r.errors.Keys == pg.errors.Keys
    ensures forall k :: k in pg.errors && k != Input(field) ==> r.errors[k] == pg.errors[k]
    ensures r.token == pg.token
  {
    var f := match field
      case Username => pg.form.(username := value)
      case Email => pg.form.(email := value)
      case Password => pg.form.(password := value)
      case ConfirmPassword => pg.form.(confirmPassword := value);
    pg.(form := f, errors := ClearError(pg.errors, Input(field)))
  }

  /** The captcha widget reports a token (null when it expires). */
  function OnRecaptchaChange(pg: Page, token: Option<string>): (r: Page)
    ensures r.token == token && r.form == pg.form
    ensures CaptchaSolved(token) ==> !HasError(r.errors, Recaptcha)
    ensures !CaptchaSolved(token) ==> r.errors == pg.errors
  {
    pg.(token := token, errors := OnCaptchaChange(pg.errors, Recaptcha, token))
  }

  /** Pressing submit: the messages are replaced by a fresh validation, and
      the page moves to the profile exactly when there are none. */
  function Submit(pg: Page): (r: (Page, Option<string>))
    ensures r.0.errors == Validate(pg.form, pg.token) && r.0.form == pg.form
    ensures r.1.Some? <==> AllHold(pg.form, pg.token)
    ensures r.1.Some? ==> r.1.value == SuccessTarget
  {
    var errors := Validate(pg.form, pg.token);
    ValidIff(pg.form, pg.token);
    (pg.(errors := errors), if |errors| == 0 then Some(SuccessTarget) else None)
  }

  /** The fresh page does not sign up, and says the username is required. */
  lemma EmptyFormRejected()
    ensures Submit(InitialPage).1.None?
    ensures Submit(InitialPage).0.errors[Input(Username)] == UsernameRequired
  {
    assert IsBlank("");
    assert Input(Username) in Validate(EmptyForm, None);
  }

  /** Filling the four inputs with acceptable values and solving the captcha
      signs up, whatever order the inputs were typed in. */
  lemma FilledFormAccepted(u: string, email: string, password: string, token: string)
    requires !IsBlank(u) && |u| >= MinUsername && MatchesEmailPattern(email)
    requires |password| >= MinPassword && token != ""
    ensures Submit(OnRecaptchaChange(
              HandleInputChange(HandleInputChange(HandleInputChange(HandleInputChange(
                InitialPage, Username, u), Email, email), Password, password), ConfirmPassword, password),
              Some(token))).1 == Some(SuccessTarget)
    ensures Submit(OnRecaptchaChange(
              HandleInputChange(HandleInputChange(HandleInputChange(HandleInputChange(
                InitialPage, ConfirmPassword, password), Password, password), Email, email), Username, u),
              Some(token))).1 == Some(SuccessTarget)
  {
  }
}
