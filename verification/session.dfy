/** The client side of the session: the sign-in form
    (src/views/auth/signIn/index.tsx), which posts the credentials and
    stores the returned token, and the navbar menu
    (src/components/navbar/NavbarLinksAdmin.tsx), which shows the stored
    username and logs out. Browser storage is a map from keys to strings;
    the network round trip is split into the request the form issues and
    the response it later receives. */
module Session {
  import opened Common

  /** `localStorage`: string keys to string values. */
  type Storage = map<string, string>

  const TokenKey := "token"
  const UsernameKey := "username"
  const DashboardPath := "/admin/default"
  const SignInPath := "/auth/sign-in"
  const ProfilePath := "/admin/profile"

  /** The four state variables of the sign-in form. */
  datatype SignInForm = SignInForm(username: string, password: string,
                                   showPassword: bool, loading: bool)

  /** The toasts the form can show. */
  datatype Toast = ValidationError | LoginSuccessful | LoginFailed | LoginError

  /** The body of the POST to the login endpoint. */
  datatype Credentials = Credentials(username: string, password: string)

  /** How the request ended: a 2xx response whose JSON body may or may not
      carry a `token` string, a 2xx response whose body is not JSON, a
      non-2xx response, or a failed fetch. */
  datatype LoginResponse = Ok(token: Option<string>) | OkUnreadable | NotOk | Thrown

  /** The form as first rendered. */
  function InitialForm(): (f: SignInForm)
    ensures f.username == "" && f.password == "" && !f.showPassword && !f.loading
  {
    SignInForm("", "", false, false)
  }

  /** Typing into the username input: the input shows what was typed and
      the password, its visibility and the loading state are untouched. */
  function EditUsername(f: SignInForm, value: string): (r: SignInForm)
    ensures r.username == value
    ensures r.password == f.password && r.showPassword == f.showPassword
    ensures r.loading == f.loading
  {
    f.(username := value)
  }

  /** Typing into the password input, the mirror image of `EditUsername`. */
  function EditPassword(f: SignInForm, value: string): (r: SignInForm)
    ensures r.password == value
    ensures r.username == f.username && r.showPassword == f.showPassword
    ensures r.loading == f.loading
  {
    f.(password := value)
  }

  /** The eye icon flips password visibility. */
  function TogglePassword(f: SignInForm): (r: SignInForm)
    ensures r.showPassword == !f.showPassword
    ensures r.username == f.username && r.password == f.password && r.loading == f.loading
  {
    f.(showPassword := !f.showPassword)
  }

  /** The `type` of the password input. */
  function InputType(f: SignInForm): (t: string)
    ensures t == "text" <==> f.showPassword
    ensures t == "password" <==> !f.showPassword
  {
    if f.showPassword then "text" else "password"
  }

  /** Toggling twice restores the form, and each toggle switches the input
      between masked and plain. */
  lemma ToggleTwice(f: SignInForm)
    ensures TogglePassword(TogglePassword(f)) == f
    ensures InputType(TogglePassword(f)) != InputType(f)
  {
  }

  /** What a click on "Sign In" does: the new form, an optional toast and
      the request issued, if any. */
  datatype StartResult = StartResult(form: SignInForm, toast: Option<Toast>,
                                     request: Option<Credentials>)

  /** A click on "Sign In". While a request is in flight the button is in
      its loading state and ignores the click. An empty username or
      password shows the validation toast and sends nothing. Otherwise the
      form enters the loading state and posts exactly what was typed. */
  function StartSignIn(f: SignInForm): (r: StartResult)
    ensures r.request.Some? <==> !f.loading && f.username != "" && f.password != ""
    ensures r.request.Some? ==>
              r.request.value == Credentials(f.username, f.password)
              && r.form == f.(loading := true) && r.toast.None?
    ensures r.toast == Some(ValidationError) <==>
              !f.loading && (f.username == "" || f.password == "")
    ensures r.request.None? ==> r.form == f
  {
    if f.loading then StartResult(f, None, None)
    else if f.username == "" || f.password == "" then StartResult(f, Some(ValidationError), None)
    else StartResult(f.(loading := true), None, Some(Credentials(f.username, f.password)))
  }

  /** Whatever the form held before, typing a username and a password and
      clicking "Sign In" posts exactly those two strings when both are
      non-empty, and posts nothing but the validation toast otherwise. */
  lemma TypedCredentialsSent(f: SignInForm, username: string, password: string)
    requires !f.loading
    ensures StartSignIn(EditPassword(EditUsername(f, username), password)).request
         == (if username != "" && password != "" then Some(Credentials(username, password))
             else None)
    ensures StartSignIn(EditPassword(EditUsername(f, username), password)).toast
         == (if username != "" && password != "" then None else Some(ValidationError))
  {
  }

  /** What the form does once the response is in: the new form, the new
      storage, the toast and the page navigated to, if any. */
  datatype FinishResult = FinishResult(form: SignInForm, storage: Storage, toast: Toast,
                                       navigate: Option<string>)

  /** The value `localStorage.setItem` stores for `data.token`: the string
      itself, or "undefined" when the body has no token. */
  function StoredToken(token: Option<string>): (v: string)
    ensures token.Some? ==> v == token.value
    ensures token.None? ==> v == "undefined"
  {
    if token.Some? then token.value else "undefined"
  }

  /** The rest of `handleSignIn`. The loading state always ends. Only a 2xx
      response with a JSON body writes the token, shows the success toast
      and goes to the dashboard; every other outcome leaves storage and the
      page as they were. */
  function FinishSignIn(f: SignInForm, storage: Storage, response: LoginResponse)
    : (r: FinishResult)
    ensures !r.form.loading && r.form == f.(loading := false)
    ensures r.navigate.Some? <==> response.Ok?
    ensures response.Ok? ==>
              && r.storage == storage[TokenKey := StoredToken(response.token)]
              && r.navigate == Some(DashboardPath)
              && r.toast == LoginSuccessful
    ensures !response.Ok? ==> r.storage == storage
    ensures response.NotOk? <==> r.toast == LoginFailed
    ensures (response.OkUnreadable? || response.Thrown?) <==> r.toast == LoginError
  {
    var done := f.(loading := false);
    match response
    case Ok(token) =>
      FinishResult(done, storage[TokenKey := StoredToken(token)], LoginSuccessful,
                   Some(DashboardPath))
    case OkUnreadable => FinishResult(done, storage, LoginError, None)
    case NotOk => FinishResult(done, storage, LoginFailed, None)
    case Thrown => FinishResult(done, storage, LoginError, None)
  }

  /** A full sign-in with a token in the answer stores that token, and
      nothing else in storage changes. */
  lemma {:induction false} SignInStoresToken(f: SignInForm, storage: Storage, token: string)
    requires !f.loading && f.username != "" && f.password != ""
    ensures var s := StartSignIn(f);
            var r := FinishSignIn(s.form, storage, Ok(Some(token)));
            && s.request == Some(Credentials(f.username, f.password))
            && TokenKey in r.storage && r.storage[TokenKey] == token
            && (forall k :: k in storage && k != TokenKey ==> k in r.storage && r.storage[k] == storage[k])
            && r.form == f && r.navigate == Some(DashboardPath)
  {
    var s := StartSignIn(f);
    assert s.form == f.(loading := true);
  }

  /** The name shown in the navbar: the stored username, or "User" when
      there is none or it is empty. */
  function DisplayName(storage: Storage): (name: string)
    ensures name != ""
    ensures UsernameKey in storage && storage[UsernameKey] != "" ==> name == storage[UsernameKey]
    ensures !(UsernameKey in storage && storage[UsernameKey] != "") ==> name == "User"
  {
    if UsernameKey in storage && storage[UsernameKey] != "" then storage[UsernameKey] else "User"
  }

  /** Signing in never writes a username, so the navbar name is whatever it
      was before. */
  lemma SignInKeepsDisplayName(f: SignInForm, storage: Storage, response: LoginResponse)
    ensures DisplayName(FinishSignIn(f, storage, response).storage) == DisplayName(storage)
  {
  }

  /** The storage and the page after a menu action. */
  datatype MenuResult = MenuResult(storage: Storage, navigate: string)

  /** "Log out": token and username are removed, every other key is kept,
      and the sign-in page is shown. */
  function Logout(storage: Storage): (r: MenuResult)
    ensures TokenKey !in r.storage && UsernameKey !in r.storage
    ensures forall k :: k in r.storage <==> k in storage && k != TokenKey && k != UsernameKey
    ensures forall k :: k in r.storage ==> r.storage[k] == storage[k]
    ensures r.navigate == SignInPath
  {
    MenuResult(storage - {TokenKey, UsernameKey}, SignInPath)
  }

  /** Logging out twice is logging out once, and afterwards the navbar
      greets "User". */
  lemma LogoutIdempotent(storage: Storage)
    ensures Logout(Logout(storage).storage) == Logout(storage)
    ensures DisplayName(Logout(storage).storage) == "User"
  {
  }

  /** "Profile Settings": goes to the profile page, storage untouched. */
  function ProfileSettings(storage: Storage): (r: MenuResult)
    ensures r.storage == storage && r.navigate == ProfilePath
  {
    MenuResult(storage, ProfilePath)
  }
}
