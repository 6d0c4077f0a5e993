/** src/pages/LoginPage.tsx: the sign-in page, with one tab for readers and one for
    administrators. Both tabs check their fields by the same rules before calling `login`. */
module LoginPage {
  import opened Common
  import Store

  const UsernameRequired := "Username is required"
  const PasswordRequired := "Password is required"
  const PasswordTooShort := "Password must be at least 5 characters"
  const MinPasswordLength := 5

  /** The `name` of the two inputs of a tab. */
  datatype CredentialField = Username | Password

  datatype Credentials = Credentials(username: string, password: string)
  {
    /** `{ ...prev, [name]: value }` */
    function With(field: CredentialField, value: string): Credentials {
      match field
      case Username => this.(username := value)
      case Password => this.(password := value)
    }
  }

  /** The message under each input; the empty string shows nothing. */
  datatype CredentialErrors = CredentialErrors(username: string, password: string)
  {
    predicate IsClear() { username == [] && password == [] }

    function Get(field: CredentialField): string {
      match field
      case Username => username
      case Password => password
    }

    function Cleared(field: CredentialField): (e: CredentialErrors)
      ensures e.Get(field) == []
      ensures forall f :: f != field ==> e.Get(f) == Get(f)
    {
      match field
      case Username => this.(username := "")
      case Password => this.(password := "")
    }
  }

  /** The field check both validators run: a blank user name is missing; a blank password is
      missing, and a non-blank one is too short when its `length` (UTF-16 code units, spaces
      around it included) is below five. */
  function CredentialErrorsOf(c: Credentials): (e: CredentialErrors)
    ensures e.username == UsernameRequired <==> IsBlank(c.username)
    ensures e.username == [] <==> !IsBlank(c.username)
    ensures e.password == PasswordRequired <==> IsBlank(c.password)
    ensures e.password == PasswordTooShort <==> !IsBlank(c.password) && Utf16Length(c.password) < MinPasswordLength
    ensures e.password == [] <==> !IsBlank(c.password) && Utf16Length(c.password) >= MinPasswordLength
  {
    var username := if IsBlank(c.username) then UsernameRequired else "";
    var password :=
      if IsBlank(c.password) then PasswordRequired
      else if Utf16Length(c.password) < MinPasswordLength then PasswordTooShort
      else "";
    CredentialErrors(username, password)
  }

  /** What a validator returns: both fields pass. */
  predicate CredentialsPass(c: Credentials) {
    !IsBlank(c.username) && !IsBlank(c.password) && Utf16Length(c.password) >= MinPasswordLength
  }

  lemma CredentialsPassIffClear(c: Credentials)
    ensures CredentialsPass(c) <==> CredentialErrorsOf(c).IsClear()
  {
  }

  /** Credentials the store accepts always get past the page's own check, so the check never
      keeps a valid account from signing in. */
  lemma AcceptedCredentialsPass(c: Credentials)
    requires Store.CheckCredentials(c.username, c.password).Some?
    ensures CredentialsPass(c)
  {
    var name := ToLower(Trim(c.username));
    if Store.CheckCredentials(c.username, c.password) == Some(Store.RegularUser) {
      assert name == "user" && c.password == "password";
      KnownAccountPasses(c.username, c.password, name);
    } else {
      assert name == "admin" && c.password == "admin123";
      KnownAccountPasses(c.username, c.password, name);
    }
  }

  lemma KnownAccountPasses(username: string, password: string, name: string)
    requires name == ToLower(Trim(username)) && |name| > 0
    requires password == "password" || password == "admin123"
    ensures CredentialsPass(Credentials(username, password))
  {
    BlankIffTrimEmpty(username);
    assert !IsSpace(password[0]);
  }

  /** The length rule counts the untrimmed password: spaces in front of a non-blank password
      count toward its five units, so "    x" passes although its trimmed form has one. */
  lemma PaddedPasswordPasses(username: string, pad: string, p: string)
    requires !IsBlank(username) && IsBlank(pad) && !IsBlank(p)
    ensures CredentialErrorsOf(Credentials(username, pad + p)).IsClear() <==>
            Utf16Length(pad) + Utf16Length(p) >= MinPasswordLength
  {
    Utf16LengthAppend(pad, p);
    var k :| 0 <= k < |p| && !IsSpace(p[k]);
    assert (pad + p)[|pad| + k] == p[k];
  }

  /** The length rule counts UTF-16 code units, so a password with a character outside the Basic
      Multilingual Plane passes with fewer than five characters: "ab\U{1F600}c" has length 5. */
  lemma AstralCharactersCountTwice(username: string)
    requires !IsBlank(username)
    ensures |"ab\U{1F600}c"| < MinPasswordLength
    ensures CredentialErrorsOf(Credentials(username, "ab\U{1F600}c")).IsClear()
  {
    var p := "ab\U{1F600}c";
    assert p[..3] == "ab\U{1F600}" && p[..3][..2] == "ab" && "ab"[..1] == "a";
    assert !IsSpace(p[0]);
  }

  /** The redirect effect: once signed in, an administrator is sent to the admin area and
      everyone else to the dashboard; nothing happens while signed out. */
  function RedirectTarget(isAuthenticated: bool, user: Option<Store.User>): (target: Option<string>)
    ensures target.None? <==> !isAuthenticated
    ensures target == Some("/admin") <==> isAuthenticated && user.Some? && user.value.isAdmin
    ensures target == Some("/dashboard") <==> isAuthenticated && !(user.Some? && user.value.isAdmin)
  {
    if !isAuthenticated then None
    else if user.Some? && user.value.isAdmin then Some("/admin")
    else Some("/dashboard")
  }

  /** Where a successful sign-in lands depends on the account, not on the tab it was typed
      into: the administrator's credentials lead to the admin area from either tab. */
  lemma SignInRedirectsByAccount(c: Credentials)
    requires Store.CheckCredentials(c.username, c.password).Some?
    ensures RedirectTarget(true, Store.CheckCredentials(c.username, c.password)) == Some("/admin")
      <==> ToLower(Trim(c.username)) == "admin" && c.password == "admin123"
  {
  }

  /** The page's state: the two tabs' inputs and their messages. */
  class LoginPage {
    var userCredentials: Credentials
    var adminCredentials: Credentials
    var userErrors: CredentialErrors
    var adminErrors: CredentialErrors

    constructor ()
      ensures userCredentials == Credentials("", "") && adminCredentials == Credentials("", "")
      ensures userErrors == CredentialErrors("", "") && adminErrors == CredentialErrors("", "")
    {
      userCredentials, adminCredentials := Credentials("", ""), Credentials("", "");
      userErrors, adminErrors := CredentialErrors("", ""), CredentialErrors("", "");
    }

    /** `validateUserFields`. */
    method ValidateUserFields() returns (ok: bool)
      modifies this`userErrors
      ensures userErrors == CredentialErrorsOf(userCredentials)
      ensures ok <==> CredentialsPass(userCredentials)
    {
      userErrors := CredentialErrorsOf(userCredentials);
      ok := userErrors.username == [] && userErrors.password == [];
    }

    /** `validateAdminFields`: the same rules on the administrator tab. */
    method ValidateAdminFields() returns (ok: bool)
      modifies this`adminErrors
      ensures adminErrors == CredentialErrorsOf(adminCredentials)
      ensures ok <==> CredentialsPass(adminCredentials)
    {
      adminErrors := CredentialErrorsOf(adminCredentials);
      ok := adminErrors.username == [] && adminErrors.password == [];
    }

    /** `handleUserChange`: stores the typed value and clears that input's message only. */
    method HandleUserChange(field: CredentialField, value: string)
      modifies this`userCredentials, this`userErrors
      ensures userCredentials == old(userCredentials).With(field, value)
      ensures userErrors == old(userErrors).Cleared(field)
    {
      userCredentials := userCredentials.With(field, value);
      if userErrors.Get(field) != [] {
        userErrors := userErrors.Cleared(field);
      } else {
        assert userErrors == userErrors.Cleared(field) by {
          if field == Username { } else { }
        }
      }
    }

    /** `handleAdminChange`: the same on the administrator tab. */
    method HandleAdminChange(field: CredentialField, value: string)
      modifies this`adminCredentials, this`adminErrors
      ensures adminCredentials == old(adminCredentials).With(field, value)
      ensures adminErrors == old(adminErrors).Cleared(field)
    {
      adminCredentials := adminCredentials.With(field, value);
      if adminErrors.Get(field) != [] {
        adminErrors := adminErrors.Cleared(field);
      } else {
        assert adminErrors == adminErrors.Cleared(field) by {
          if field == Username { } else { }
        }
      }
    }

    /** `handleUserLogin`: signs in only after the tab's check passes. */
    method HandleUserLogin(auth: Store.AuthStore)
      modifies this`userErrors, auth
      ensures userErrors == CredentialErrorsOf(userCredentials)
      ensures CredentialsPass(userCredentials) ==>
        && auth.Valid() && !auth.isAuthLoading
        && auth.user == Store.CheckCredentials(userCredentials.username, userCredentials.password)
        && auth.loginError == (if auth.user.None? then Some(Store.InvalidCredentials) else None)
      ensures !CredentialsPass(userCredentials) ==> unchanged(auth)
    {
      var ok := ValidateUserFields();
      if ok {
        auth.Login(userCredentials.username, userCredentials.password);
      }
    }

    /** `handleAdminLogin`: the same on the administrator tab. */
    method HandleAdminLogin(auth: Store.AuthStore)
      modifies this`adminErrors, auth
      ensures adminErrors == CredentialErrorsOf(adminCredentials)
      ensures CredentialsPass(adminCredentials) ==>
        && auth.Valid() && !auth.isAuthLoading
        && auth.user == Store.CheckCredentials(adminCredentials.username, adminCredentials.password)
        && auth.loginError == (if auth.user.None? then Some(Store.InvalidCredentials) else None)
      ensures !CredentialsPass(adminCredentials) ==> unchanged(auth)
    {
      var ok := ValidateAdminFields();
      if ok {
        auth.Login(adminCredentials.username, adminCredentials.password);
      }
    }
  }
}
