/**
  The decision core of the authentication flow: what each request handler
  answers and how it changes the credential store and the session identity,
  written as functions of the state before the request.

  The password-hashing library is a parameter (`HashScheme`); the only thing
  the proofs assume of it is `Sound`: a digest made from a password is
  accepted for that password. The salt the library draws at random is an
  input of `Register`, and so is whether the storage transaction fails.
 */
module Auth {
  import opened Wrappers
  import opened PyStr

  type Salt = seq<bv8>
  type Digest = string

  /** The user table: one password digest per username (the unique column). */
  type Store = map<string, Digest>

  /** The submitted form fields. */
  type Form = map<string, string>

  /** The password-hashing library: `hash` makes a salted digest, `check`
      tests a password against a stored digest. */
  datatype HashScheme = HashScheme(hash: (Salt, string) -> Digest, check: (Digest, string) -> bool)

  /** What the proofs assume of the library: it accepts every password for
      a digest made from that password, whatever the salt. */
  ghost predicate Sound(scheme: HashScheme) {
    forall salt, password :: scheme.check(scheme.hash(salt, password), password)
  }

  /** The error strings the handlers render on the index page. */
  datatype Error =
    | MissingCredentials
    | UsernameTooShort
    | PasswordTooShort
    | UsernameTaken
    | RegistrationFailed
    | InvalidCredentials
  {
    function Message(): string {
      match this
      case MissingCredentials => "Please enter both username and password"
      case UsernameTooShort => "Username must be at least 3 characters long"
      case PasswordTooShort => "Password must be at least 6 characters long"
      case UsernameTaken => "Username taken, please try another"
      case RegistrationFailed => "Registration failed, please try again"
      case InvalidCredentials => "Invalid username or password"
    }
  }

  /** Each error is rendered as its own fixed string, and no two errors
      share a string. */
  lemma MessagesAreFixedStrings()
    ensures MissingCredentials.Message() == "Please enter both username and password"
    ensures UsernameTooShort.Message() == "Username must be at least 3 characters long"
    ensures PasswordTooShort.Message() == "Password must be at least 6 characters long"
    ensures UsernameTaken.Message() == "Username taken, please try another"
    ensures RegistrationFailed.Message() == "Registration failed, please try again"
    ensures InvalidCredentials.Message() == "Invalid username or password"
    ensures forall e1: Error, e2: Error :: e1 != e2 ==> e1.Message() != e2.Message()
  {
  }

  datatype Route = HomeRoute | DashboardRoute

  /** A rendered template: the index page with an optional error, or the
      dashboard greeting a user. */
  datatype Page = IndexPage(error: Option<Error>) | DashboardPage(username: string)

  datatype Response = Render(page: Page) | Redirect(target: Route)

  const MinUsernameLength: nat := 3
  const MinPasswordLength: nat := 6

  /** What registration guarantees of every stored username. */
  predicate WellFormedUsername(u: string) {
    |u| >= MinUsernameLength && Stripped(u)
  }

  ghost predicate StoreInvariant(store: Store) {
    forall u :: u in store ==> WellFormedUsername(u)
  }

  /** The credential store and the session identity of one client. */
  datatype State = State(store: Store, session: Option<string>)

  /** The store invariant, and a session identity always names a stored user. */
  ghost predicate Valid(st: State) {
    && StoreInvariant(st.store)
    && (st.session.Some? ==> st.session.value in st.store)
  }

  /** Every record of `before` is still in `after`, with the same digest. */
  ghost predicate Extends(before: Store, after: Store) {
    forall u :: u in before ==> u in after && after[u] == before[u]
  }

  /** The state after a request, and the answer to it. */
  datatype Outcome = Outcome(next: State, response: Response)

  function Fail(e: Error): Response {
    Render(IndexPage(Some(e)))
  }

  /** `request.form.get(key, '')`. */
  function FormGet(form: Form, key: string): (r: string)
    ensures key in form ==> r == form[key]
    ensures key !in form ==> r == []
  {
    if key in form then form[key] else ""
  }

  /** The username as both handlers read it: stripped. */
  function UsernameField(form: Form): string {
    Strip(FormGet(form, "username"))
  }

  /** The password as both handlers read it: not stripped. */
  function PasswordField(form: Form): string {
    FormGet(form, "password")
  }

  /** The checks `register` makes before it writes anything, in their order;
      `None` when all pass. */
  function ValidateRegistration(store: Store, username: string, password: string): (r: Option<Error>)
    ensures r.None? <==> |username| >= MinUsernameLength && |password| >= MinPasswordLength && username !in store
    ensures r.None? && Stripped(username) ==> WellFormedUsername(username)
  {
    if username == [] || password == [] then Some(MissingCredentials)
    else if |username| < MinUsernameLength then Some(UsernameTooShort)
    else if |password| < MinPasswordLength then Some(PasswordTooShort)
    else if username in store then Some(UsernameTaken)
    else None
  }

  /** `POST /register`. `failure` stands for an exception inside the
      transaction (hashing, add or commit), after which it is rolled back. */
  function Register(scheme: HashScheme, st: State, form: Form, salt: Salt, failure: bool): (out: Outcome)
    ensures out.response.Render? ==> out.next == st
    ensures out.response.Redirect? ==>
      var u, p := UsernameField(form), PasswordField(form);
      && out.response == Redirect(DashboardRoute)
      && WellFormedUsername(u) && |p| >= MinPasswordLength
      && u !in st.store
      && out.next.store == st.store[u := scheme.hash(salt, p)]
      && out.next.session == Some(u)
    ensures Valid(st) ==> Valid(out.next)
    ensures Extends(st.store, out.next.store)
  {
    var username, password := UsernameField(form), PasswordField(form);
    match ValidateRegistration(st.store, username, password)
    case Some(e) => Outcome(st, Fail(e))
    case None =>
      assert WellFormedUsername(username);
      if failure then Outcome(st, Fail(RegistrationFailed))
      else
        Outcome(State(st.store[username := scheme.hash(salt, password)], Some(username)), Redirect(DashboardRoute))
  }

  /** `POST /login`. */
  function Login(scheme: HashScheme, st: State, form: Form): (out: Outcome)
    ensures out.next.store == st.store
    ensures
      var u, p := UsernameField(form), PasswordField(form);
      out.response.Redirect? <==> u != [] && p != [] && u in st.store && scheme.check(st.store[u], p)
    ensures out.response.Redirect? ==>
      out.response == Redirect(DashboardRoute) && out.next.session == Some(UsernameField(form))
    ensures out.response.Render? ==> out.next == st
    ensures
      var u, p := UsernameField(form), PasswordField(form);
      out.response.Render? ==>
        out.response == Fail(if u == [] || p == [] then MissingCredentials else InvalidCredentials)
    ensures Valid(st) ==> Valid(out.next)
  {
    var username, password := UsernameField(form), PasswordField(form);
    if username == [] || password == [] then
      Outcome(st, Fail(MissingCredentials))
    else if username in st.store && scheme.check(st.store[username], password) then
      Outcome(st.(session := Some(username)), Redirect(DashboardRoute))
    else
      Outcome(st, Fail(InvalidCredentials))
  }

  /** `GET /logout`. */
  function Logout(st: State): (out: Outcome)
    ensures out.next.session.None? && out.next.store == st.store
    ensures out.response == Redirect(HomeRoute)
    ensures Valid(st) ==> Valid(out.next)
  {
    Outcome(st.(session := None), Redirect(HomeRoute))
  }

  /** `GET /dashboard`. */
  function Dashboard(session: Option<string>): (r: Response)
    ensures r.Render? <==> session.Some?
    ensures r.Render? ==> r.page == DashboardPage(session.value)
    ensures r.Redirect? ==> r.target == HomeRoute
  {
    if session.Some? then Render(DashboardPage(session.value)) else Redirect(HomeRoute)
  }

  /** `GET /`. */
  function Home(session: Option<string>): (r: Response)
    ensures r == Redirect(DashboardRoute) <==> session.Some?
    ensures session.None? ==> r == Render(IndexPage(None))
  {
    if session.Some? then Redirect(DashboardRoute) else Render(IndexPage(None))
  }

  // ---------------------------------------------------------------------
  // Registration

  /** The order in which `register` reports its errors, stated on the
      stripped username and the raw password. */
  lemma RegisterErrorPrecedence(scheme: HashScheme, st: State, form: Form, salt: Salt, failure: bool)
    ensures
      var u, p := UsernameField(form), PasswordField(form);
      var r := Register(scheme, st, form, salt, failure).response;
      && (r == Fail(MissingCredentials) <==> u == [] || p == [])
      && (r == Fail(UsernameTooShort) <==> u != [] && p != [] && |u| < 3)
      && (r == Fail(PasswordTooShort) <==> |u| >= 3 && p != [] && |p| < 6)
      && (r == Fail(UsernameTaken) <==> |u| >= 3 && |p| >= 6 && u in st.store)
      && (r == Fail(RegistrationFailed) <==> |u| >= 3 && |p| >= 6 && u !in st.store && failure)
      && (r == Redirect(DashboardRoute) <==> |u| >= 3 && |p| >= 6 && u !in st.store && !failure)
  {
  }

  /** A missing or all-whitespace username field is reported as a missing
      credential, by both `register` and `login`. */
  lemma BlankUsernameRejected(scheme: HashScheme, st: State, form: Form, salt: Salt, failure: bool)
    requires AllSpace(FormGet(form, "username"))
    ensures Register(scheme, st, form, salt, failure) == Outcome(st, Fail(MissingCredentials))
    ensures Login(scheme, st, form) == Outcome(st, Fail(MissingCredentials))
  {
    StripEmptyIffAllSpace(FormGet(form, "username"));
  }

  /** A successful registration adds exactly one record and leaves every
      other record as it was. */
  lemma RegisterAddsOneRecord(scheme: HashScheme, st: State, form: Form, salt: Salt, failure: bool)
    requires Register(scheme, st, form, salt, failure).response == Redirect(DashboardRoute)
    ensures
      var u, after := UsernameField(form), Register(scheme, st, form, salt, failure).next.store;
      && after.Keys == st.store.Keys + {u}
      && |after| == |st.store| + 1
      && (forall v :: v in st.store ==> after[v] == st.store[v])
  {
  }

  // ---------------------------------------------------------------------
  // Login

  /** An unknown username and a wrong password get the same answer and
      leave the state as it was. */
  lemma LoginFailuresIndistinguishable(scheme: HashScheme, st: State, unknown: Form, wrong: Form)
    requires UsernameField(unknown) != [] && PasswordField(unknown) != []
    requires UsernameField(unknown) !in st.store
    requires UsernameField(wrong) != [] && PasswordField(wrong) != []
    requires UsernameField(wrong) in st.store
    requires !scheme.check(st.store[UsernameField(wrong)], PasswordField(wrong))
    ensures Login(scheme, st, unknown) == Login(scheme, st, wrong) == Outcome(st, Fail(InvalidCredentials))
  {
  }

  /** Logging out twice is logging out once. */
  lemma LogoutIdempotent(st: State)
    ensures Logout(Logout(st).next) == Logout(st)
  {
  }

  /** In a valid state the dashboard is shown only to a registered user. */
  lemma DashboardOnlyForStoredUsers(st: State, name: string)
    requires Valid(st)
    requires Dashboard(st.session) == Render(DashboardPage(name))
    ensures name in st.store && WellFormedUsername(name)
  {
  }

  /** `/` and `/dashboard` never redirect to each other in a loop. */
  lemma NoRedirectLoop(session: Option<string>)
    ensures !(Home(session) == Redirect(DashboardRoute) && Dashboard(session) == Redirect(HomeRoute))
  {
  }

  // ---------------------------------------------------------------------
  // Sequences of requests

  datatype Request =
    | RegisterRequest(form: Form, salt: Salt, failure: bool)
    | LoginRequest(form: Form)
    | LogoutRequest
    | DashboardRequest
    | HomeRequest

  /** One request, dispatched to its handler. */
  function Handle(scheme: HashScheme, st: State, req: Request): (out: Outcome)
    ensures Valid(st) ==> Valid(out.next)
    ensures Extends(st.store, out.next.store)
  {
    match req
    case RegisterRequest(form, salt, failure) => Register(scheme, st, form, salt, failure)
    case LoginRequest(form) => Login(scheme, st, form)
    case LogoutRequest => Logout(st)
    case DashboardRequest => Outcome(st, Dashboard(st.session))
    case HomeRequest => Outcome(st, Home(st.session))
  }

  /** The state after serving `reqs` in order. */
  function Run(scheme: HashScheme, st: State, reqs: seq<Request>): State
    decreases |reqs|
  {
    if reqs == [] then st else Run(scheme, Handle(scheme, st, reqs[0]).next, reqs[1..])
  }

  /** Every handler keeps the store invariant and the session invariant. */
  lemma {:induction false} RunPreservesValid(scheme: HashScheme, st: State, reqs: seq<Request>)
    requires Valid(st)
    ensures Valid(Run(scheme, st, reqs))
    decreases |reqs|
  {
    if reqs != [] {
      RunPreservesValid(scheme, Handle(scheme, st, reqs[0]).next, reqs[1..]);
    }
  }

  /** No request removes a record or changes a stored digest. */
  lemma {:induction false} RunKeepsRecords(scheme: HashScheme, st: State, reqs: seq<Request>)
    ensures Extends(st.store, Run(scheme, st, reqs).store)
    decreases |reqs|
  {
    if reqs != [] {
      RunKeepsRecords(scheme, Handle(scheme, st, reqs[0]).next, reqs[1..]);
    }
  }

  /** After a successful registration with (u, p), whatever requests follow,
      logging in with the same stripped username and the same password
      succeeds and makes u the session identity. */
  lemma RegisterThenLogin(scheme: HashScheme, st: State, form: Form, salt: Salt, failure: bool,
                          reqs: seq<Request>, login: Form)
    requires Sound(scheme)
    requires Register(scheme, st, form, salt, failure).response == Redirect(DashboardRoute)
    requires UsernameField(login) == UsernameField(form) && PasswordField(login) == PasswordField(form)
    ensures
      var later := Run(scheme, Register(scheme, st, form, salt, failure).next, reqs);
      Login(scheme, later, login) == Outcome(later.(session := Some(UsernameField(form))), Redirect(DashboardRoute))
  {
    var registered := Register(scheme, st, form, salt, failure).next;
    RunKeepsRecords(scheme, registered, reqs);
    var u, p := UsernameField(form), PasswordField(form);
    assert registered.store[u] == scheme.hash(salt, p);
  }

  /** Registering a taken username again, however much later, is refused and
      leaves the state, and so the first account's digest, as it was. */
  lemma SecondRegistrationRefused(scheme: HashScheme, st: State, form: Form, salt: Salt, failure: bool,
                                  reqs: seq<Request>, again: Form, salt2: Salt, failure2: bool)
    requires Register(scheme, st, form, salt, failure).response == Redirect(DashboardRoute)
    requires UsernameField(again) == UsernameField(form)
    ensures
      var later := Run(scheme, Register(scheme, st, form, salt, failure).next, reqs);
      var second := Register(scheme, later, again, salt2, failure2);
      && second.next == later
      && second.response != Redirect(DashboardRoute)
      && (|PasswordField(again)| >= MinPasswordLength ==> second.response == Fail(UsernameTaken))
      && UsernameField(form) in later.store
      && later.store[UsernameField(form)] == scheme.hash(salt, PasswordField(form))
  {
    var registered := Register(scheme, st, form, salt, failure).next;
    RunKeepsRecords(scheme, registered, reqs);
  }

  // ---------------------------------------------------------------------
  // A worked session

  /** A form carrying both fields. */
  function Credentials(username: string, password: string): Form {
    map["username" := username, "password" := password]
  }

  /** Short username, short password, a registration, a duplicate, logging
      in after logging out, and the dashboard before and after logout. */
  lemma AliceWalkThrough(scheme: HashScheme, salt1: Salt, salt2: Salt)
    requires Sound(scheme)
    ensures
      var empty := State(map[], None);
      && Register(scheme, empty, Credentials("ab", "longpassword"), salt1, false) == Outcome(empty, Fail(UsernameTooShort))
      && Register(scheme, empty, Credentials("alice", "short"), salt1, false) == Outcome(empty, Fail(PasswordTooShort))
      && var registered := Register(scheme, empty, Credentials("alice", "longpassword"), salt1, false);
      && registered.response == Redirect(DashboardRoute)
      && registered.next == State(map["alice" := scheme.hash(salt1, "longpassword")], Some("alice"))
      && Register(scheme, registered.next, Credentials("alice", "other1234"), salt2, false)
         == Outcome(registered.next, Fail(UsernameTaken))
      && var loggedOut := Logout(registered.next).next;
      && var loggedIn := Login(scheme, loggedOut, Credentials("alice", "longpassword"));
      && loggedIn == Outcome(registered.next, Redirect(DashboardRoute))
      && Dashboard(loggedIn.next.session) == Render(DashboardPage("alice"))
      && Dashboard(Logout(loggedIn.next).next.session) == Redirect(HomeRoute)
  {
  }
}
