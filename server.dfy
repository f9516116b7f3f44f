/**
  The request handlers as they run: an `App` object owns the credential
  store and the client's session and updates them in place, and a `User`
  object is the row the handlers build and query. Each handler is proved to
  do exactly what the corresponding function of module Auth describes.
 */
module Server {
  import opened Wrappers
  import opened PyStr
  import opened Auth

  /** A row of the user table, as the handlers hold it in memory. */
  class User {
    const username: string
    var passwordHash: Option<Digest>

    /** A new row whose digest is not set yet. */
    constructor (username: string)
      ensures this.username == username && passwordHash == None
    {
      this.username := username;
      passwordHash := None;
    }

    /** A row read back from the table. */
    constructor FromRow(username: string, digest: Digest)
      ensures this.username == username && passwordHash == Some(digest)
    {
      this.username := username;
      passwordHash := Some(digest);
    }

    /** Hashes the password with a fresh salt and keeps only the digest. */
    method SetPassword(scheme: HashScheme, salt: Salt, password: string)
      modifies this
      ensures passwordHash == Some(scheme.hash(salt, password))
    {
      passwordHash := Some(scheme.hash(salt, password));
    }

    /** Whether the password matches the stored digest. */
    predicate CheckPassword(scheme: HashScheme, password: string)
      reads this
      requires passwordHash.Some?
      ensures Sound(scheme) && (exists salt :: passwordHash.value == scheme.hash(salt, password)) ==>
        CheckPassword(scheme, password)
    {
      scheme.check(passwordHash.value, password)
    }
  }

  class App {
    const scheme: HashScheme
    var store: Store
    var session: Option<string>

    ghost predicate Valid()
      reads this
    {
      Auth.Valid(State(store, session))
    }

    function Snapshot(): State
      reads this
    {
      State(store, session)
    }

    /** An empty user table and no one logged in. */
    constructor (scheme: HashScheme)
      ensures Valid()
      ensures this.scheme == scheme && store == map[] && session == None
    {
      this.scheme := scheme;
      store := map[];
      session := None;
    }

    /** The first row whose username is `username`, or null. */
    method FindUser(username: string) returns (user: User?)
      ensures user == null <==> username !in store
      ensures user != null ==>
        fresh(user) && user.username == username && user.passwordHash == Some(store[username])
    {
      if username in store {
        user := new User.FromRow(username, store[username]);
      } else {
        user := null;
      }
    }

    /** `POST /register`. The digest is staged, then committed unless the
        transaction fails, in which case it is rolled back. */
    method Register(form: Form, salt: Salt, failure: bool) returns (resp: Response)
      requires Valid()
      modifies this
      ensures Valid()
      ensures Outcome(Snapshot(), resp) == Auth.Register(scheme, old(Snapshot()), form, salt, failure)
    {
      var username := Strip(FormGet(form, "username"));
      var password := FormGet(form, "password");
      if username == [] || password == [] {
        return Fail(MissingCredentials);
      }
      if |username| < MinUsernameLength {
        return Fail(UsernameTooShort);
      }
      if |password| < MinPasswordLength {
        return Fail(PasswordTooShort);
      }
      var existing := FindUser(username);
      if existing != null {
        return Fail(UsernameTaken);
      }
      var user := new User(username);
      user.SetPassword(scheme, salt, password);
      var staged := store[user.username := user.passwordHash.value];
      if failure {
        // rollback: the staged row is dropped, the store and session stay
        return Fail(RegistrationFailed);
      }
      store := staged;
      session := Some(username);
      resp := Redirect(DashboardRoute);
    }

    /** `POST /login`. */
    method Login(form: Form) returns (resp: Response)
      requires Valid()
      modifies this
      ensures Valid()
      ensures Outcome(Snapshot(), resp) == Auth.Login(scheme, old(Snapshot()), form)
    {
      var username := Strip(FormGet(form, "username"));
      var password := FormGet(form, "password");
      if username == [] || password == [] {
        return Fail(MissingCredentials);
      }
      var user := FindUser(username);
      if user != null && user.CheckPassword(scheme, password) {
        session := Some(username);
        resp := Redirect(DashboardRoute);
      } else {
        resp := Fail(InvalidCredentials);
      }
    }

    /** `GET /logout`. */
    method Logout() returns (resp: Response)
      requires Valid()
      modifies this
      ensures Valid()
      ensures Outcome(Snapshot(), resp) == Auth.Logout(old(Snapshot()))
    {
      session := None;
      resp := Redirect(HomeRoute);
    }
  }

  /** What a client of the handlers can rely on without looking inside
      them: on any valid app, a client registers a free name with a long
      enough password, logs out and logs back in with the same form. When
      the registration commits, the client sees the dashboard for the
      stripped name and exactly that one record was added; when its
      transaction fails, nothing was stored and the dashboard sends the
      client home. */
  method RegisterLogoutLogin(app: App, form: Form, salt: Salt, failure: bool) returns (page: Response)
    requires app.Valid() && Sound(app.scheme)
    requires |UsernameField(form)| >= MinUsernameLength && |PasswordField(form)| >= MinPasswordLength
    requires UsernameField(form) !in app.store
    modifies app
    ensures app.Valid()
    ensures page == if failure then Redirect(HomeRoute) else Render(DashboardPage(UsernameField(form)))
    ensures !failure ==>
      app.store == old(app.store)[UsernameField(form) := app.scheme.hash(salt, PasswordField(form))]
    ensures !failure ==> app.session == Some(UsernameField(form))
    ensures failure ==> app.store == old(app.store) && app.session == None
  {
    var r := app.Register(form, salt, failure);
    r := app.Logout();
    r := app.Login(form);
    page := Dashboard(app.session);
  }
}
