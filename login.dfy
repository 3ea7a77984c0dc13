/**
 * The login page: a client-side account store kept in two local-storage slots, a
 * sign-in / sign-up form with field validation, a submit status, the signed-in
 * user, and a hidden click counter.
 */
module Login {
  import opened Wrappers
  import opened JsBuiltins

  /** A registered account. The same record, password included, serves as the session. */
  datatype Account = Account(name: string, email: string, password: string)

  /** The form's three inputs. */
  datatype FormData = FormData(name: string, email: string, password: string)

  const EmptyForm := FormData("", "", "")

  /** The keys of the error map: one per input, and one for the whole form. */
  datatype Field = Name | Email | Password | Form

  /** The submit button's state. */
  datatype Status = Idle | Loading | Success

  const EmailRequired := "Email is required"
  const EmailInvalid := "Please enter a valid email address"
  const PasswordRequired := "Password is required"
  const PasswordTooShort := "Password must be at least 6 characters"
  const NameRequired := "Name is required"
  const EmailTaken := "This email is already registered."
  const BadCredentials := "Invalid email or password."

  /** The shortest password the form accepts. */
  const MinPasswordLength := 6

  /** `s[at]` is an '@' and `s[dot]` a '.', each with a non-blank character before and after it, and only non-blank characters between them. */
  predicate EmailShapeAt(s: string, at: int, dot: int)
    requires 1 <= at && at + 2 <= dot && dot + 1 < |s|
  {
    !IsWhiteSpace(s[at - 1]) && s[at] == '@' && s[dot] == '.' && !IsWhiteSpace(s[dot + 1]) &&
    forall k :: at < k < dot ==> !IsWhiteSpace(s[k])
  }

  /**
   * `/\S+@\S+\.\S+/.test(s)`. The pattern is not anchored, so it holds when some part
   * of `s` is a non-blank run, an '@', a non-blank run, a '.', and a non-blank run;
   * runs of one character are enough.
   */
  predicate MatchesEmailPattern(s: string): (m: bool)
    ensures m ==> 5 <= |s|
    ensures m ==> exists at | 1 <= at < |s| - 3 :: s[at] == '@' && !IsWhiteSpace(s[at - 1])
  {
    exists at, dot | 1 <= at < |s| && at + 2 <= dot < |s| - 1 :: EmailShapeAt(s, at, dot)
  }

  /** The pattern is not anchored: text before or after a matching string never stops the match. */
  lemma MatchSurvivesSurroundings(pre: string, s: string, post: string)
    requires MatchesEmailPattern(s)
    ensures MatchesEmailPattern(pre + s + post)
  {
    var at, dot :| 1 <= at < |s| && at + 2 <= dot < |s| - 1 && EmailShapeAt(s, at, dot);
    var t := pre + s + post;
    forall k | 0 <= k < |s| ensures t[|pre| + k] == s[k] { }
    assert EmailShapeAt(t, |pre| + at, |pre| + dot);
  }

  /** A plain address matches. */
  lemma PlainAddressMatches()
    ensures MatchesEmailPattern("alex@x.com")
  {
    assert EmailShapeAt("alex@x.com", 4, 6);
  }

  /** Since the pattern is not anchored, text around an address does not stop the match. */
  lemma SurroundedAddressMatches()
    ensures MatchesEmailPattern("mail alex@x.com now")
  {
    PlainAddressMatches();
    MatchSurvivesSurroundings("mail ", "alex@x.com", " now");
    assert "mail " + "alex@x.com" + " now" == "mail alex@x.com now";
  }

  /** An address without any '@' never matches. */
  lemma NoAtSignNoMatch(s: string)
    requires forall i :: 0 <= i < |s| ==> s[i] != '@'
    ensures !MatchesEmailPattern(s)
  {
  }

  /**
   * The errors `validate` collects: the email is required and must match the
   * pattern, the password is required and at least six characters long, and the
   * name is required only when signing up.
   */
  function FieldErrors(isLogin: bool, form: FormData): (errors: map<Field, string>)
    ensures Email in errors <==> form.email == "" || !MatchesEmailPattern(form.email)
    ensures Email in errors ==> errors[Email] == if form.email == "" then EmailRequired else EmailInvalid
    ensures Password in errors <==> |form.password| < MinPasswordLength
    ensures Password in errors ==> errors[Password] == if form.password == "" then PasswordRequired else PasswordTooShort
    ensures Name in errors <==> !isLogin && form.name == ""
    ensures Name in errors ==> errors[Name] == NameRequired
    ensures Form !in errors
  {
    var emailErrors: map<Field, string> :=
      if form.email == "" then map[Email := EmailRequired]
      else if !MatchesEmailPattern(form.email) then map[Email := EmailInvalid]
      else map[];
    var passwordErrors :=
      if form.password == "" then emailErrors[Password := PasswordRequired]
      else if |form.password| < MinPasswordLength then emailErrors[Password := PasswordTooShort]
      else emailErrors;
    if !isLogin && form.name == "" then passwordErrors[Name := NameRequired] else passwordErrors
  }

  /** The form is valid exactly when every field check passes; in sign-in mode the name plays no part. */
  lemma ValidIff(isLogin: bool, form: FormData)
    ensures FieldErrors(isLogin, form) == map[] <==>
      form.email != "" && MatchesEmailPattern(form.email) &&
      |form.password| >= MinPasswordLength && (isLogin || form.name != "")
    ensures isLogin ==> FieldErrors(isLogin, form) == FieldErrors(isLogin, form.(name := ""))
  {
    var errors := FieldErrors(isLogin, form);
    if form.email != "" && MatchesEmailPattern(form.email) &&
       |form.password| >= MinPasswordLength && (isLogin || form.name != "") {
      assert errors.Keys == {};
    }
    if isLogin {
      var other := FieldErrors(isLogin, form.(name := ""));
      assert errors.Keys == other.Keys;
    }
  }

  /** `users.find(u => u.email === email)` */
  function FindByEmail(users: seq<Account>, email: string): (r: Option<Account>)
    ensures r.Some? ==> r.value in users && r.value.email == email
    ensures r.None? <==> forall i :: 0 <= i < |users| ==> users[i].email != email
    ensures r.Some? ==> (exists i :: 0 <= i < |users| && users[i] == r.value &&
                                     (forall j :: 0 <= j < i ==> users[j].email != email))
  {
    Find(users, (u: Account) => u.email == email)
  }

  /** `users.find(u => u.email === email && u.password === password)`: both must match exactly. */
  function FindByCredentials(users: seq<Account>, email: string, password: string): (r: Option<Account>)
    ensures r.Some? ==> r.value in users && r.value.email == email && r.value.password == password
    ensures r.None? <==> forall i :: 0 <= i < |users| ==> users[i].email != email || users[i].password != password
    ensures r.Some? ==> (exists i :: 0 <= i < |users| && users[i] == r.value &&
                                     (forall j :: 0 <= j < i ==> users[j].email != email || users[j].password != password))
  {
    Find(users, (u: Account) => u.email == email && u.password == password)
  }

  /** No two stored accounts share an email. */
  predicate DistinctEmails(users: seq<Account>) {
    forall i, j :: 0 <= i < j < |users| ==> users[i].email != users[j].email
  }

  /** Registering only a fresh email keeps the stored emails distinct. */
  lemma RegisterKeepsEmailsDistinct(users: seq<Account>, account: Account)
    requires DistinctEmails(users) && FindByEmail(users, account.email).None?
    ensures DistinctEmails(users + [account])
  {
  }

  /** With distinct emails, an account's own email and password find exactly that account. */
  lemma CredentialsFindTheAccount(users: seq<Account>, i: int)
    requires DistinctEmails(users) && 0 <= i < |users|
    ensures FindByCredentials(users, users[i].email, users[i].password) == Some(users[i])
  {
    var email, password := users[i].email, users[i].password;
    FindOnly(users, (u: Account) => u.email == email && u.password == password, i);
  }

  /** With distinct emails, an account's email with any other password finds nothing. */
  lemma WrongPasswordFindsNothing(users: seq<Account>, i: int, password: string)
    requires DistinctEmails(users) && 0 <= i < |users| && password != users[i].password
    ensures FindByCredentials(users, users[i].email, password) == None
  {
    var email := users[i].email;
    forall j | 0 <= j < |users| ensures users[j].email != email || users[j].password != password {
      if j != i && j < i {
        assert users[j].email != users[i].email;
      } else if j != i {
        assert users[i].email != users[j].email;
      }
    }
  }

  /** The two local-storage keys: 'loving_homes_users' (absent reads as no accounts) and 'loving_homes_current_user'. */
  class Storage {
    var users: seq<Account>
    var currentUser: Option<Account>

    constructor (users: seq<Account>, currentUser: Option<Account>)
      ensures this.users == users && this.currentUser == currentUser
    {
      this.users := users;
      this.currentUser := currentUser;
    }
  }

  /** What the delayed submit callback captured when it was scheduled: the mode and the form. */
  datatype Pending = Pending(isLogin: bool, form: FormData)

  class LoginPage {
    const store: Storage
    var isLogin: bool
    var clicks: nat
    var form: FormData
    var errors: map<Field, string>
    var status: Status
    var currentUser: Option<Account>

    /** The click counter stays below three, and success is shown only with a signed-in user. */
    ghost predicate Valid()
      reads this
    {
      clicks < 3 && (status == Success ==> currentUser.Some?)
    }

    /** The page's initial state, over the browser's storage. */
    constructor (store: Storage)
      ensures Valid() && this.store == store
      ensures isLogin && clicks == 0 && form == EmptyForm && errors == map[] && status == Idle && currentUser == None
    {
      this.store := store;
      isLogin := true;
      clicks := 0;
      form := EmptyForm;
      errors := map[];
      status := Idle;
      currentUser := None;
    }

    /** The mount effect: a stored session is taken as it is, without checking it against the accounts. */
    method RestoreSession()
      requires Valid()
      modifies this`currentUser
      ensures Valid()
      ensures currentUser == if store.currentUser.Some? then store.currentUser else old(currentUser)
    {
      var storedUser := store.currentUser;
      if storedUser.Some? {
        currentUser := storedUser;
      }
    }

    /** A click on the logo: the third click in a row fires the hidden message and starts the count again. */
    method HandleEasterEgg() returns (woof: bool)
      requires Valid()
      modifies this`clicks
      ensures Valid()
      ensures woof <==> old(clicks) + 1 == 3
      ensures clicks == if woof then 0 else old(clicks) + 1
    {
      clicks := clicks + 1;
      woof := clicks == 3;
      if woof {
        clicks := 0;
      }
    }

    /** `validate`: collect the field errors into a fresh map, show it, and report whether it is empty. */
    method Validate() returns (ok: bool)
      modifies this`errors
      ensures errors == FieldErrors(isLogin, form)
      ensures ok <==> errors == map[]
    {
      var newErrors: map<Field, string> := map[];
      if form.email == "" {
        newErrors := newErrors[Email := EmailRequired];
      } else if !MatchesEmailPattern(form.email) {
        newErrors := newErrors[Email := EmailInvalid];
      }
      if form.password == "" {
        newErrors := newErrors[Password := PasswordRequired];
      } else if |form.password| < MinPasswordLength {
        newErrors := newErrors[Password := PasswordTooShort];
      }
      if !isLogin && form.name == "" {
        newErrors := newErrors[Name := NameRequired];
      }
      errors := newErrors;
      ok := |newErrors.Keys| == 0;
      assert ok ==> newErrors == map[];
    }

    /**
     * `handleSubmit`: only a valid form sets the status to loading and schedules the
     * storage work, which captures the current mode and form; an invalid form leaves
     * the status alone. Storage is not touched here.
     */
    method HandleSubmit() returns (pending: Option<Pending>)
      requires Valid()
      modifies this`errors, this`status
      ensures Valid()
      ensures errors == FieldErrors(isLogin, form)
      ensures pending.Some? <==> errors == map[]
      ensures pending.Some? ==> pending.value == Pending(isLogin, form) && status == Loading
      ensures pending.None? ==> status == old(status)
    {
      var ok := Validate();
      if ok {
        status := Loading;
        pending := Some(Pending(isLogin, form));
      } else {
        pending := None;
      }
    }

    /**
     * The delayed callback of a submit. Signing up with a stored email reports it and
     * changes nothing stored; with a fresh email the account is appended, stored as the
     * session and signed in. Signing in finds the first account with that email and
     * password and makes it the session; when there is none it reports bad credentials
     * and changes nothing stored.
     */
    method CompleteSubmit(p: Pending)
      requires Valid()
      modifies this`errors, this`status, this`currentUser, store
      ensures Valid()
      ensures DistinctEmails(old(store.users)) ==> DistinctEmails(store.users)
      ensures !p.isLogin && FindByEmail(old(store.users), p.form.email).Some? ==>
        errors == map[Email := EmailTaken] && status == Idle && currentUser == old(currentUser) &&
        store.users == old(store.users) && store.currentUser == old(store.currentUser)
      ensures !p.isLogin && FindByEmail(old(store.users), p.form.email).None? ==>
        var account := Account(p.form.name, p.form.email, p.form.password);
        store.users == old(store.users) + [account] && store.currentUser == Some(account) &&
        currentUser == Some(account) && status == Success && errors == old(errors)
      ensures p.isLogin && FindByCredentials(old(store.users), p.form.email, p.form.password).Some? ==>
        currentUser == FindByCredentials(old(store.users), p.form.email, p.form.password) &&
        store.currentUser == currentUser && store.users == old(store.users) &&
        status == Success && errors == old(errors)
      ensures p.isLogin && FindByCredentials(old(store.users), p.form.email, p.form.password).None? ==>
        errors == map[Form := BadCredentials] && status == Idle && currentUser == old(currentUser) &&
        store.users == old(store.users) && store.currentUser == old(store.currentUser)
    {
      var users := store.users;
      if !p.isLogin {
        var existingUser := FindByEmail(users, p.form.email);
        if existingUser.Some? {
          errors := map[Email := EmailTaken];
          status := Idle;
          return;
        }
        var newUser := Account(p.form.name, p.form.email, p.form.password);
        if DistinctEmails(users) {
          RegisterKeepsEmailsDistinct(users, newUser);
        }
        users := users + [newUser];
        store.users := users;
        store.currentUser := Some(newUser);
        currentUser := Some(newUser);
        status := Success;
      } else {
        var user := FindByCredentials(users, p.form.email, p.form.password);
        if user.Some? {
          store.currentUser := user;
          currentUser := user;
          status := Success;
        } else {
          errors := map[Form := BadCredentials];
          status := Idle;
        }
      }
    }

    /** Sign out: the session is removed, the form is cleared, and the page returns to sign-in mode. */
    method Logout()
      requires Valid()
      modifies this`currentUser, this`form, this`status, this`isLogin, store`currentUser
      ensures Valid()
      ensures store.currentUser == None && currentUser == None
      ensures form == EmptyForm && status == Idle && isLogin
    {
      store.currentUser := None;
      currentUser := None;
      form := EmptyForm;
      status := Idle;
      isLogin := true;
    }

    /** Switch between sign-in and sign-up: errors, status and form are reset. */
    method ToggleMode()
      requires Valid()
      modifies this`isLogin, this`errors, this`status, this`form
      ensures Valid()
      ensures isLogin == !old(isLogin) && errors == map[] && status == Idle && form == EmptyForm
    {
      isLogin := !isLogin;
      errors := map[];
      status := Idle;
      form := EmptyForm;
    }
  }

  /** A visitor signs up with a fresh address and is signed in. */
  method SignUp(name: string, email: string, password: string) returns (store: Storage)
    requires name != "" && MatchesEmailPattern(email) && |password| >= MinPasswordLength
    ensures store.users == [Account(name, email, password)]
    ensures store.currentUser == Some(Account(name, email, password))
  {
    store := new Storage([], None);
    var page := new LoginPage(store);
    page.RestoreSession();
    page.ToggleMode();
    page.form := FormData(name, email, password);
    ValidIff(false, page.form);
    var pending := page.HandleSubmit();
    page.CompleteSubmit(pending.value);
    assert page.currentUser == store.currentUser && page.status == Success;
  }

  /** A reload restores the stored session until the visitor signs out. */
  method Reload(store: Storage)
    requires store.currentUser.Some?
    modifies store
    ensures store.currentUser == None && store.users == old(store.users)
  {
    var reloaded := new LoginPage(store);
    reloaded.RestoreSession();
    assert reloaded.currentUser == old(store.currentUser);
    reloaded.Logout();

    var signedOut := new LoginPage(store);
    signedOut.RestoreSession();
    assert signedOut.currentUser == None;
  }

  /** Signing in to a stored account: a wrong password is refused, the right one signs in. */
  method SignInAttempts(store: Storage, wrong: string)
    requires |store.users| == 1 && MatchesEmailPattern(store.users[0].email)
    requires |store.users[0].password| >= MinPasswordLength
    requires |wrong| >= MinPasswordLength && wrong != store.users[0].password
    modifies store
  {
    var account := store.users[0];
    var page := new LoginPage(store);

    page.form := FormData("", account.email, wrong);
    ValidIff(true, page.form);
    var first := page.HandleSubmit();
    WrongPasswordFindsNothing(store.users, 0, wrong);
    page.CompleteSubmit(first.value);
    assert page.errors == map[Form := BadCredentials] && page.currentUser == None;

    page.form := FormData("", account.email, account.password);
    ValidIff(true, page.form);
    var second := page.HandleSubmit();
    CredentialsFindTheAccount(store.users, 0);
    page.CompleteSubmit(second.value);
    assert page.currentUser == Some(account) && store.currentUser == Some(account);
  }

  /** A password shorter than six characters is stopped by validation, before storage is read. */
  method ShortPasswordStopsEarly(page: LoginPage)
    requires page.Valid()
    modifies page
  {
    page.form := FormData("", "alex@x.com", "wrong");
    var pending := page.HandleSubmit();
    assert pending == None && page.errors[Password] == PasswordTooShort;
  }

  /** Signing out twice leaves the same state as signing out once. */
  method LogoutTwice(page: LoginPage)
    requires page.Valid()
    modifies page, page.store
  {
    page.Logout();
    var once := (page.currentUser, page.form, page.status, page.isLogin, page.errors, page.clicks,
                 page.store.users, page.store.currentUser);
    page.Logout();
    assert once == (page.currentUser, page.form, page.status, page.isLogin, page.errors, page.clicks,
                    page.store.users, page.store.currentUser);
  }
}
