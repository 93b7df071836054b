/** The account routes (backend/src/routes/auth.routes.ts): signup inserts a
    user with a fresh wallet, login checks the credentials without writing,
    and `/me` returns the caller's document without its password. Token
    signing is an oracle: a token stands for the user id it was signed for. */
module AuthRoutes {
  import opened Common
  import opened UserModel
  import opened Store

  datatype SignupRequest = SignupRequest(name: string, email: string, password: string)

  /** A body field a validator can reject. */
  datatype Field = NameField | EmailField | PasswordField

  datatype SignupResponse =
    | SignupRejected(errors: seq<Field>)   // 400, the fields the validators rejected
    | EmailTaken                            // 400 "User already exists with this email"
    | Registered(userId: Id, user: User)    // 201, with a token signed for userId
    | SignupFailed                          // 500 "Server error"

  datatype LoginResponse =
    | LoginRejected(errors: seq<Field>)    // 400, the fields the validators rejected
    | InvalidCredentials                    // 400 "Invalid credentials"
    | LoggedIn(userId: Id, user: User)      // 200, with a token signed for userId

  /** The user document as `select('-password')` returns it. */
  datatype PublicUser = PublicUser(name: string, email: string, wallet: int, transactions: seq<Transaction>)

  datatype MeResponse = MeNotFound | Profile(user: PublicUser)   // 404 "User not found" | 200

  const EmailTakenMessage: string := "User already exists with this email"
  const InvalidCredentialsMessage: string := "Invalid credentials"

  /** The signup validators, in declaration order: the name after the `trim`
      sanitizer must not be empty, the email must pass `isEmail` (a library
      check kept abstract) and the password needs six characters. */
  function SignupErrors(req: SignupRequest, isEmail: string -> bool): (errors: seq<Field>)
    ensures errors == [] <==> Trim(req.name) != [] && isEmail(req.email) && |req.password| >= 6
    ensures NameField in errors <==> Trim(req.name) == []
    ensures EmailField in errors <==> !isEmail(req.email)
    ensures PasswordField in errors <==> |req.password| < 6
  {
    Flag(Trim(req.name) == [], NameField)
    + Flag(!isEmail(req.email), EmailField)
    + Flag(|req.password| < 6, PasswordField)
  }

  /** The error entry of one field: present exactly when its check fails. */
  function Flag(failed: bool, field: Field): (errors: seq<Field>)
    ensures errors == [] <==> !failed
    ensures forall f :: f in errors <==> failed && f == field
  {
    if failed then [field] else []
  }

  /** `findOne({ email })` finds a user: the query runs the email's setters,
      so it compares normalized emails. */
  predicate EmailInUse(users: map<Id, User>, email: string)
  {
    exists id :: id in users && users[id].email == NormalizeEmail(email)
  }

  /** The document signup builds: trimmed name, the schema's setters, wallet
      2000 and an empty ledger. */
  function SignupDocument(req: SignupRequest): (d: User)
    ensures d == User(Trim(req.name), NormalizeEmail(req.email), Plain(req.password), DefaultWallet, [])
  {
    TrimIdempotent(req.name);
    NewUser(Trim(req.name), req.email, req.password, Some(DefaultWallet), Some([]))
  }

  /** The user signup stores: its document with the password hashed. */
  function Registrant(req: SignupRequest, salt: nat): User
  {
    User(Trim(req.name), NormalizeEmail(req.email), Digest(Plain(req.password), salt), DefaultWallet, [])
  }

  /** The signup document saves exactly when the trimmed name, the normalized
      email and the password pass the schema, and it is stored hashed. */
  lemma SaveSignupDocument(req: SignupRequest, salt: nat)
    ensures SaveUser(SignupDocument(req), true, salt).UserSaved? <==>
              Trim(req.name) != [] && NormalizeEmail(req.email) != [] && |req.password| >= 6
    ensures SaveUser(SignupDocument(req), true, salt).UserSaved? ==>
              SaveUser(SignupDocument(req), true, salt).user == Registrant(req, salt)
  {
  }

  /** The insert of a validated, unused email: the save, then the new user
      under the fresh id. */
  function Register(s: State, req: SignupRequest, salt: nat): (State, SignupResponse)
  {
    match SaveUser(SignupDocument(req), true, salt)
    case UserRejected(_) => (s, SignupFailed)
    case UserSaved(u) => (s.(users := s.users[s.nextId := u], nextId := s.nextId + 1), Registered(s.nextId, u))
  }

  lemma {:induction false} RegisterOutcome(s: State, req: SignupRequest, salt: nat)
    ensures Register(s, req, salt) ==
      if Trim(req.name) != [] && NormalizeEmail(req.email) != [] && |req.password| >= 6
      then (s.(users := s.users[s.nextId := Registrant(req, salt)], nextId := s.nextId + 1),
            Registered(s.nextId, Registrant(req, salt)))
      else (s, SignupFailed)
  {
    SaveSignupDocument(req, salt);
  }

  /** The specification of `POST /auth/signup`: validation before any read,
      the duplicate check, then the insert under a fresh id; `salt` stands for
      `bcrypt.genSalt`. A document the schema rejects is a 500. */
  function SignUp(s: State, req: SignupRequest, isEmail: string -> bool, salt: nat): (State, SignupResponse)
  {
    var errors := SignupErrors(req, isEmail);
    if errors != [] then (s, SignupRejected(errors))
    else if EmailInUse(s.users, req.email) then (s, EmailTaken)
    else Register(s, req, salt)
  }

  /** `POST /auth/signup` on the database. */
  method Signup(db: Database, req: SignupRequest, isEmail: string -> bool, salt: nat) returns (resp: SignupResponse)
    requires db.Valid()
    modifies db
    ensures db.Valid()
    ensures (db.Contents(), resp) == SignUp(old(db.Contents()), req, isEmail, salt)
  {
    SignupPreservesConsistency(db.Contents(), req, isEmail, salt);
    var errors := SignupErrors(req, isEmail);
    if errors != [] {
      return SignupRejected(errors);
    }
    if EmailInUse(db.users, req.email) {
      return EmailTaken;
    }
    resp := RegisterUser(db, req, salt);
  }

  /** The insert: `user.save()` runs the validators and the hashing hook,
      then the new user is stored under the fresh id. */
  method RegisterUser(db: Database, req: SignupRequest, salt: nat) returns (resp: SignupResponse)
    modifies db
    ensures (db.Contents(), resp) == Register(old(db.Contents()), req, salt)
  {
    var saved := SaveUser(SignupDocument(req), true, salt);
    if saved.UserRejected? {
      return SignupFailed;
    }
    db.users := db.users[db.nextId := saved.user];
    resp := Registered(db.nextId, saved.user);
    db.nextId := db.nextId + 1;
  }

  /** A request the validators reject is answered with the failing fields,
      and a taken email with its own message; neither writes anything. */
  lemma SignupRejections(s: State, req: SignupRequest, isEmail: string -> bool, salt: nat)
    ensures SignupErrors(req, isEmail) != [] ==>
              SignUp(s, req, isEmail, salt) == (s, SignupRejected(SignupErrors(req, isEmail)))
    ensures SignupErrors(req, isEmail) == [] && EmailInUse(s.users, req.email) ==>
              SignUp(s, req, isEmail, salt) == (s, EmailTaken)
    ensures !SignUp(s, req, isEmail, salt).1.Registered? ==> SignUp(s, req, isEmail, salt).0 == s
  {
  }

  /** A valid signup with an unused email inserts exactly one user under a
      fresh id: the trimmed name, the normalized email, the hashed password,
      wallet 2000 and an empty ledger; the password then matches the hash. */
  lemma {:induction false} SignupSuccess(s: State, req: SignupRequest, isEmail: string -> bool, salt: nat)
    requires IdsFresh(s)
    requires SignupErrors(req, isEmail) == [] && !EmailInUse(s.users, req.email)
    requires NormalizeEmail(req.email) != []
    ensures var (s', r) := SignUp(s, req, isEmail, salt);
            && r == Registered(s.nextId, s'.users[s.nextId])
            && s.nextId !in s.users
            && s'.users == s.users[s.nextId := User(Trim(req.name), NormalizeEmail(req.email),
                                                    Digest(Plain(req.password), salt), 2000, [])]
            && s'.products == s.products && s'.orders == s.orders
            && PasswordMatches(req.password, s'.users[s.nextId].password)
  {
    RegisterOutcome(s, req, salt);
  }

  /** With a valid request and an unused email, the only server error is an
      email that `isEmail` accepts but that is blank once trimmed. */
  lemma SignupServerErrorOnlyForBlankEmail(s: State, req: SignupRequest, isEmail: string -> bool, salt: nat)
    ensures SignUp(s, req, isEmail, salt).1 == SignupFailed <==>
              SignupErrors(req, isEmail) == [] && !EmailInUse(s.users, req.email)
              && NormalizeEmail(req.email) == []
  {
    RegisterOutcome(s, req, salt);
  }

  /** Signup keeps every committed state consistent: the new user is valid
      and balanced (2000 and no entries), its email normalized and unique. */
  lemma {:induction false} SignupPreservesConsistency(s: State, req: SignupRequest, isEmail: string -> bool, salt: nat)
    requires Consistent(s)
    ensures Consistent(SignUp(s, req, isEmail, salt).0)
  {
    SignupOutcome(s, req, isEmail, salt);
    var r := SignUp(s, req, isEmail, salt).1;
    if r.Registered? {
      InsertUserKeepsRegistry(s, r.user);
    }
  }

  /** Signup either writes nothing or adds one stored user, with a
      normalized email no one else has, under the fresh id. */
  lemma {:induction false} SignupOutcome(s: State, req: SignupRequest, isEmail: string -> bool, salt: nat)
    ensures var (s', r) := SignUp(s, req, isEmail, salt);
            && (!r.Registered? ==> s' == s)
            && (r.Registered? ==>
                  && s' == s.(users := s.users[s.nextId := r.user], nextId := s.nextId + 1)
                  && StoredUser(r.user) && r.user.email == NormalizeEmail(r.user.email)
                  && forall id :: id in s.users ==> s.users[id].email != r.user.email)
  {
    RegisterOutcome(s, req, salt);
    if && SignupErrors(req, isEmail) == [] && !EmailInUse(s.users, req.email)
       && Trim(req.name) != [] && NormalizeEmail(req.email) != [] && |req.password| >= 6
    {
      var u := Registrant(req, salt);
      assert SignUp(s, req, isEmail, salt) ==
        (s.(users := s.users[s.nextId := u], nextId := s.nextId + 1), Registered(s.nextId, u));
      RegistrantStored(req, salt);
    } else {
      assert !SignUp(s, req, isEmail, salt).1.Registered?;
    }
  }

  /** The user signup stores passes the schema, is balanced and has a
      normalized email. */
  lemma {:induction false} RegistrantStored(req: SignupRequest, salt: nat)
    requires Trim(req.name) != [] && NormalizeEmail(req.email) != []
    ensures StoredUser(Registrant(req, salt))
    ensures Registrant(req, salt).email == NormalizeEmail(Registrant(req, salt).email)
  {
    NormalizeEmailIdempotent(req.email);
    assert Net([]) == 0;
  }

  /** Inserting a stored user with a normalized email no one has under the
      fresh id keeps the state consistent. */
  lemma {:induction false} InsertUserKeepsRegistry(s: State, u: User)
    requires Consistent(s)
    requires StoredUser(u) && u.email == NormalizeEmail(u.email)
    requires forall id :: id in s.users ==> s.users[id].email != u.email
    ensures Consistent(s.(users := s.users[s.nextId := u], nextId := s.nextId + 1))
  {
    assert s.nextId !in s.users;
    InsertUserKeepsStored(s.users, s.nextId, u);
    InsertUserKeepsUnique(s.users, s.nextId, u);
  }

  lemma {:induction false} InsertUserKeepsStored(users: map<Id, User>, id: Id, u: User)
    requires UsersStored(users) && StoredUser(u)
    ensures UsersStored(users[id := u])
  {
    var users' := users[id := u];
    forall k | k in users'
      ensures StoredUser(users'[k])
    {
      if k != id {
        assert users'[k] == users[k];
      }
    }
  }

  lemma {:induction false} InsertUserKeepsUnique(users: map<Id, User>, id: Id, u: User)
    requires EmailsUnique(users) && id !in users
    requires u.email == NormalizeEmail(u.email)
    requires forall k :: k in users ==> users[k].email != u.email
    ensures EmailsUnique(users[id := u])
  {
    InsertUserKeepsNormalized(users, id, u);
    InsertUserKeepsDistinct(users, id, u);
  }

  lemma {:induction false} InsertUserKeepsNormalized(users: map<Id, User>, id: Id, u: User)
    requires EmailsNormalized(users) && u.email == NormalizeEmail(u.email)
    ensures EmailsNormalized(users[id := u])
  {
    var users' := users[id := u];
    forall k | k in users'
      ensures users'[k].email == NormalizeEmail(users'[k].email)
    {
      if k != id {
        assert users'[k] == users[k];
      }
    }
  }

  lemma {:induction false} InsertUserKeepsDistinct(users: map<Id, User>, id: Id, u: User)
    requires EmailsDistinct(users) && id !in users
    requires forall k :: k in users ==> users[k].email != u.email
    ensures EmailsDistinct(users[id := u])
  {
    var users' := users[id := u];
    forall a, b | a in users' && b in users' && users'[a].email == users'[b].email
      ensures a == b
    {
      if a != id && b != id {
        assert users'[a] == users[a] && users'[b] == users[b];
      }
    }
  }

  /** The login validators: an email `isEmail` accepts and a non-empty password. */
  function LoginErrors(email: string, password: string, isEmail: string -> bool): (errors: seq<Field>)
    ensures errors == [] <==> isEmail(email) && password != []
    ensures EmailField in errors <==> !isEmail(email)
    ensures PasswordField in errors <==> password == []
    ensures NameField !in errors
  {
    Flag(!isEmail(email), EmailField) + Flag(password == [], PasswordField)
  }

  /** `findOne({ email })`: some user stored under the normalized email, if any. */
  ghost function FindByEmail(users: map<Id, User>, email: string): (found: Option<Id>)
    ensures found.None? <==> !EmailInUse(users, email)
    ensures found.Some? ==> found.value in users && users[found.value].email == NormalizeEmail(email)
  {
    if EmailInUse(users, email)
    then Some(var id :| id in users && users[id].email == NormalizeEmail(email); id)
    else None
  }

  /** `POST /auth/login`: a function of the user collection, so it writes
      nothing. An unknown email and a wrong password give the same answer. */
  ghost function Login(users: map<Id, User>, email: string, password: string, isEmail: string -> bool): (r: LoginResponse)
    ensures r.LoginRejected? <==> LoginErrors(email, password, isEmail) != []
    ensures r.LoginRejected? ==> r.errors == LoginErrors(email, password, isEmail)
    ensures r.LoggedIn? ==> && r.userId in users && r.user == users[r.userId]
                            && users[r.userId].email == NormalizeEmail(email)
                            && PasswordMatches(password, users[r.userId].password)
  {
    var errors := LoginErrors(email, password, isEmail);
    if errors != [] then LoginRejected(errors)
    else match FindByEmail(users, email)
      case None => InvalidCredentials
      case Some(id) => if PasswordMatches(password, users[id].password) then LoggedIn(id, users[id]) else InvalidCredentials
  }

  /** With unique emails, a well-formed login succeeds exactly when a user
      holds that email and the password matches its hash; every other
      well-formed attempt, unknown email or wrong password, gets the one
      `InvalidCredentials` answer. */
  lemma {:induction false} LoginIffCredentials(users: map<Id, User>, email: string, password: string, isEmail: string -> bool)
    requires EmailsDistinct(users)
    requires LoginErrors(email, password, isEmail) == []
    ensures Login(users, email, password, isEmail).LoggedIn? <==>
              exists id :: id in users && users[id].email == NormalizeEmail(email)
                           && PasswordMatches(password, users[id].password)
    ensures !Login(users, email, password, isEmail).LoggedIn? ==>
              Login(users, email, password, isEmail) == InvalidCredentials
  {
    var r := Login(users, email, password, isEmail);
    if id :| id in users && users[id].email == NormalizeEmail(email) && PasswordMatches(password, users[id].password) {
      var found := FindByEmail(users, email);
      assert found.Some? && found.value == id;
      assert r.LoggedIn?;
    }
  }

  /** The user signup has just inserted can log in with the email as typed
      and the password it chose. */
  lemma {:induction false} SignupThenLogin(s: State, req: SignupRequest, isEmail: string -> bool, salt: nat)
    requires Consistent(s)
    requires SignupErrors(req, isEmail) == [] && !EmailInUse(s.users, req.email)
    requires NormalizeEmail(req.email) != []
    ensures var s' := SignUp(s, req, isEmail, salt).0;
            Login(s'.users, req.email, req.password, isEmail) == LoggedIn(s.nextId, s'.users[s.nextId])
  {
    SignupSuccess(s, req, isEmail, salt);
    SignupPreservesConsistency(s, req, isEmail, salt);
    var s' := SignUp(s, req, isEmail, salt).0;
    LoginIffCredentials(s'.users, req.email, req.password, isEmail);
    assert s'.users[s.nextId].email == NormalizeEmail(req.email);
    var r := Login(s'.users, req.email, req.password, isEmail);
    assert r.LoggedIn?;
    assert s'.users[r.userId].email == s'.users[s.nextId].email;
  }

  /** `GET /auth/me` for the id the middleware put on the request. */
  function Me(users: map<Id, User>, userId: Id): (r: MeResponse)
    ensures r.MeNotFound? <==> userId !in users
    ensures r.Profile? ==> && r.user.name == users[userId].name && r.user.email == users[userId].email
                           && r.user.wallet == users[userId].wallet
                           && r.user.transactions == users[userId].transactions
  {
    if userId !in users then MeNotFound
    else
      var u := users[userId];
      Profile(PublicUser(u.name, u.email, u.wallet, u.transactions))
  }

  /** Right after signup the new user's profile shows wallet 2000 and no entries. */
  lemma {:induction false} SignupThenMe(s: State, req: SignupRequest, isEmail: string -> bool, salt: nat)
    requires IdsFresh(s)
    requires SignupErrors(req, isEmail) == [] && !EmailInUse(s.users, req.email)
    requires NormalizeEmail(req.email) != []
    ensures Me(SignUp(s, req, isEmail, salt).0.users, s.nextId) ==
              Profile(PublicUser(Trim(req.name), NormalizeEmail(req.email), 2000, []))
  {
    SignupSuccess(s, req, isEmail, salt);
  }
}
