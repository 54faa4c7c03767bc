/**
 * The sign-in page's submit handler (frontend/src/pages/Auth.jsx): login
 * with a role-based redirect, or signup behind two password checks.
 */
module AuthPage {
  import opened Wrappers
  import opened MockDatabase
  import opened AuthContext

  datatype FormData = FormData(
    email: string,
    password: string,
    confirmPassword: string,
    role: string,
    name: string)

  /** The form as the page starts it and as a successful signup resets it. */
  const EmptyForm := FormData("", "", "", "user", "")

  const PasswordsDiffer := "Passwords do not match"
  const PasswordTooShort := "Password must be at least 6 characters"

  function AsSignupData(form: FormData): SignupData {
    SignupData(form.email, form.password, form.confirmPassword, form.role, form.name)
  }

  /** Where a successful login goes: the two dashboards for their roles, the upload page for anyone else. */
  function RedirectFor(role: string): (path: string)
    ensures role == "admin" <==> path == "/admin"
    ensures role == "scientist" <==> path == "/scientist"
    ensures role != "admin" && role != "scientist" <==> path == "/predict"
  {
    if role == "admin" then "/admin" else if role == "scientist" then "/scientist" else "/predict"
  }

  /** The checks before `signup` is called, in order: the confirmation first, then the length. */
  function SignupCheck(form: FormData): (r: Option<string>)
    ensures form.password != form.confirmPassword ==> r == Some(PasswordsDiffer)
    ensures form.password == form.confirmPassword && |form.password| < 6 ==> r == Some(PasswordTooShort)
    ensures r.None? <==> form.password == form.confirmPassword && |form.password| >= 6
  {
    if form.password != form.confirmPassword then Some(PasswordsDiffer)
    else if |form.password| < 6 then Some(PasswordTooShort)
    else None
  }

  /**
   * An account created from the page holds the password the two checks
   * accepted: at least six characters, equal to its confirmation.
   */
  lemma SignupStoresCheckedPassword(users: seq<User>, form: FormData, now: string)
    requires SignupCheck(form).None?
    ensures var o := SignupOutcome(users, AsSignupData(form), now);
      o.0.success ==>
        && |o.1| == |users| + 1
        && o.1[|users|].email == form.email && o.1[|users|].password == form.password
        && |o.1[|users|].password| >= 6 && o.1[|users|].password == form.confirmPassword
  {
  }

  /** The page's state. */
  class AuthForm {
    const auth: AuthProvider
    var isLogin: bool
    var formData: FormData
    var message: string
    var loading: bool

    constructor (auth: AuthProvider)
      ensures this.auth == auth
      ensures isLogin && formData == EmptyForm && message == "" && !loading
    {
      this.auth := auth;
      isLogin, formData, message, loading := true, EmptyForm, "", false;
    }

    /**
     * `handleSubmit`. In login mode a success navigates by role and a
     * failure shows the provider's message. In signup mode a failed check
     * shows its message without calling `signup`; otherwise the provider's
     * message is shown and a success switches to login mode with the form
     * reset. Loading has ended afterwards. The browser's own checks on the
     * inputs (`required`, `type="email"`, `minLength`) run before this
     * handler and are not part of it.
     */
    method HandleSubmit(now: string) returns (navigation: Option<string>)
      modifies this, auth, auth.storage
      ensures !loading
      ensures old(isLogin) ==>
        var r := LoginOutcome(old(auth.storage.GetAllUsers()), old(formData).email, old(formData).password);
        && isLogin && formData == old(formData)
        && auth.storage.userDatabase == old(auth.storage.userDatabase)
        && (r.success ==>
              && navigation == Some(RedirectFor(r.user.value.role)) && message == ""
              && auth.currentUser == r.user && auth.storage.userSession == r.user)
        && (!r.success ==>
              && navigation == None && message == r.message
              && auth.currentUser == old(auth.currentUser) && auth.storage.userSession == old(auth.storage.userSession))
      ensures !old(isLogin) ==>
        && navigation == None
        && auth.currentUser == old(auth.currentUser) && auth.storage.userSession == old(auth.storage.userSession)
      ensures !old(isLogin) && SignupCheck(old(formData)).Some? ==>
        && message == SignupCheck(old(formData)).value
        && !isLogin && formData == old(formData)
        && auth.storage.userDatabase == old(auth.storage.userDatabase)
      ensures !old(isLogin) && SignupCheck(old(formData)).None? ==>
        var o := SignupOutcome(old(auth.storage.GetAllUsers()), AsSignupData(old(formData)), now);
        && message == o.0.message
        && (o.0.success ==>
              && isLogin && formData == EmptyForm && auth.storage.userDatabase == Some(o.1)
              && |o.1| > 0 && |o.1[|o.1| - 1].password| >= 6)
        && (!o.0.success ==>
              && !isLogin && formData == old(formData)
              && auth.storage.userDatabase == old(auth.storage.userDatabase))
    {
      loading := true;
      message := "";
      navigation := None;
      if isLogin {
        var result := auth.Login(formData.email, formData.password);
        if result.success {
          navigation := Some(RedirectFor(result.user.value.role));
        } else {
          message := result.message;
        }
      } else {
        if formData.password != formData.confirmPassword {
          message := PasswordsDiffer;
          loading := false;
          return;
        }
        if |formData.password| < 6 {
          message := PasswordTooShort;
          loading := false;
          return;
        }
        SignupStoresCheckedPassword(auth.storage.GetAllUsers(), formData, now);
        var result := auth.Signup(AsSignupData(formData), now);
        if result.success {
          message := result.message;
          isLogin := true;
          formData := EmptyForm;
        } else {
          message := result.message;
        }
      }
      loading := false;
    }
  }
}
