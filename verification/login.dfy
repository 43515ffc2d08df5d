/**
  The sign-in form: a username-or-e-mail field, a password and a captcha,
  validated on submit into per-field messages; the form goes on to the
  profile page only when no message was produced.
 */
module Login {
  import opened Types
  import opened Strings
  import opened Forms

  datatype LoginForm = LoginForm(username: string, password: string)

  const EmptyForm: LoginForm := LoginForm("", "")

  const UsernameRequired: string := "نام کاربری یا ایمیل الزامی است"

  /** The page a successful sign-in moves to. */
  const SuccessTarget: string := "/profile"

  /** The two text inputs, named as in the markup. */
  datatype Field = Username | Password

  /** Where a message is kept: under an input, or under the captcha. */
  datatype Key = Input(field: Field) | Recaptcha

  function Get(f: LoginForm, field: Field): string {
    match field
      case Username => f.username
      case Password => f.password
  }

  /** The username check: only that it is not blank. */
  function UsernameCheck(u: string): (e: Option<string>)
    ensures e.None? <==> !IsBlank(u)
    ensures e.Some? ==> e.value == UsernameRequired
  {
    if IsBlank(u) then Some(UsernameRequired) else None
  }

  /** The message, if any, that validation puts under a key. */
  function Check(f: LoginForm, token: Option<string>, k: Key): Option<string> {
    match k
      case Input(Username) => UsernameCheck(f.username)
      case Input(Password) => PasswordCheck(f.password)
      case Recaptcha => if CaptchaSolved(token) then None else Some(CaptchaMessage)
  }

  const AllKeys: set<Key> := {Input(Username), Input(Password), Recaptcha}

  /** Every key is one of the three. */
  lemma AllKeysComplete(k: Key)
    ensures k in AllKeys
  {
    if k.Input? {
      assert k.field == Username || k.field == Password;
    }
  }

  /** The submit-time validation: one message per failing field. */
  function Validate(f: LoginForm, token: Option<string>): (r: Errors<Key>)
    ensures forall k :: k in r <==> Check(f, token, k).Some?
    ensures forall k :: k in r ==> r[k] == Check(f, token, k).value
  {
    assert forall k :: k in AllKeys by {
      forall k ensures k in AllKeys {
        AllKeysComplete(k);
      }
    }
    map k | k in AllKeys && Check(f, token, k).Some? :: Check(f, token, k).value
  }

  /** Each field's message appears under exactly its own condition, and
      says why. */
  lemma ValidateFields(f: LoginForm, token: Option<string>)
    ensures Input(Username) in Validate(f, token) <==> IsBlank(f.username)
    ensures Input(Password) in Validate(f, token) <==> |f.password| < MinPassword
    ensures Recaptcha in Validate(f, token) <==> !CaptchaSolved(token)
    ensures Input(Password) in Validate(f, token) ==>
      Validate(f, token)[Input(Password)] == (if f.password == "" then PasswordRequired else PasswordTooShort)
  {
  }

  /** Every condition holds: a sign-in the page lets through. */
  predicate AllHold(f: LoginForm, token: Option<string>) {
    !IsBlank(f.username) && |f.password| >= MinPassword && CaptchaSolved(token)
  }

  /** Sign-in goes ahead exactly when the username is not blank, the
      password has six or more characters and the captcha is solved. */
  lemma ValidIff(f: LoginForm, token: Option<string>)
    ensures |Validate(f, token)| == 0 <==> AllHold(f, token)
  {
    var r := Validate(f, token);
    if AllHold(f, token) {
      forall k ensures k !in r {
        CheckPasses(f, token, k);
      }
      assert r.Keys == {};
      assert |r| == |r.Keys|;
    } else {
      var k: Key;
      if IsBlank(f.username) {
        k := Input(Username);
      } else if |f.password| < MinPassword {
        k := Input(Password);
      } else {
        k := Recaptcha;
      }
      assert k in r;
    }
  }

  lemma CheckPasses(f: LoginForm, token: Option<string>, k: Key)
    requires AllHold(f, token)
    ensures Check(f, token, k).None?
  {
    match k
      case Input(Username) =>
      case Input(Password) =>
      case Recaptcha =>
  }

  /** The page's state between events. */
  datatype Page = Page(form: LoginForm, errors: Errors<Key>, token: Option<string>)

  const InitialPage: Page := Page(EmptyForm, map[], None)

  /** Typing into an input: its value is replaced and its message, if
      showing, is blanked. */
  function HandleInputChange(pg: Page, field: Field, value: string): (r: Page)
    ensures Get(r.form, field) == value
    ensures forall other :: other != field ==> Get(r.form, other) == Get(pg.form, other)
    ensures !HasError(r.errors, Input(field)) && r.errors.Keys == pg.errors.Keys
    ensures forall k :: k in pg.errors && k != Input(field) ==> r.errors[k] == pg.errors[k]
    ensures r.token == pg.token
  {
    var f := match field
      case Username => pg.form.(username := value)
      case Password => pg.form.(password := value);
    pg.(form := f, errors := ClearError(pg.errors, Input(field)))
  }

  /** The captcha widget reports a token (null when it expires). */
  function OnRecaptchaChange(pg: Page, token: Option<string>): (r: Page)
    ensures r.token == token && r.form == pg.form
    ensures CaptchaSolved(token) ==> !HasError(r.errors, Recaptcha)
    ensures !CaptchaSolved(token) ==> r.errors == pg.errors
  {
    pg.(token := token, errors := OnCaptchaChange(pg.errors, Recaptcha, token))
  }

  /** Pressing submit: the messages are replaced by a fresh validation, and
      the page moves to the profile exactly when there are none. */
  function Submit(pg: Page): (r: (Page, Option<string>))
    ensures r.0.errors == Validate(pg.form, pg.token) && r.0.form == pg.form
    ensures r.1.Some? <==> AllHold(pg.form, pg.token)
    ensures r.1.Some? ==> r.1.value == SuccessTarget
  {
    var errors := Validate(pg.form, pg.token);
    ValidIff(pg.form, pg.token);
    (pg.(errors := errors), if |errors| == 0 then Some(SuccessTarget) else None)
  }

  /** Typing a fixed username and password into the fresh page and solving
      the captcha lets sign-in through. */
  lemma TypingThenSolvingSignsIn(name: string, password: string, token: string)
    requires !IsBlank(name) && |password| >= MinPassword && token != ""
    ensures Submit(OnRecaptchaChange(HandleInputChange(HandleInputChange(InitialPage, Username, name), Password, password), Some(token))).1 == Some(SuccessTarget)
  {
  }
}
