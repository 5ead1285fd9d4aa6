/** Registration, login and the current-user lookup (backend/routes/auth.js).
    The `users` table is a map from email to row. Password hashing and token
    signing are foreign code: they enter as function values (`Crypto`) and as
    the record of what the signer is given (`Token`). */
module Auth {
  import opened Wrappers
  import opened Http
  import V = Validators

  /** One row of the `users` table; `passwordHash` is what the hasher produced. */
  datatype UserRow = UserRow(id: int, email: string, passwordHash: string, name: string, createdAt: int)

  /** The user as the routes return it: no password hash. */
  datatype PublicUser = PublicUser(id: int, email: string, name: string)

  /** The row returned by GET /me. */
  datatype Profile = Profile(id: int, email: string, name: string, createdAt: int)

  /** The token payload. */
  datatype Claims = Claims(userId: int, email: string)

  /** A signed token, as the signer is asked for it: the payload, the secret
      it is signed with and its lifetime in seconds. */
  datatype Token = Token(claims: Claims, secret: string, lifetimeSeconds: nat)

  /** The body of a successful register or login. */
  datatype Session = Session(message: string, token: Token, user: PublicUser)

  /** The adaptive password hash (password, cost rounds, random salt) and its
      comparison function. */
  datatype Crypto = Crypto(hash: (string, nat, nat) -> string, compare: (string, string) -> bool)

  /** The one property of the hash the routes rely on: a password matches
      every hash made of it. */
  ghost predicate Sound(c: Crypto) {
    forall password, rounds, salt :: c.compare(password, c.hash(password, rounds, salt))
  }

  const BcryptRounds := 10
  /** The `expiresIn: '7d'` option, in seconds. */
  const TokenLifetimeSeconds := 7 * 24 * 60 * 60
  const DefaultSecret := "your-secret-key-change-in-production"
  const EmailExists := "Email already exists"
  const InvalidCredentials := "Invalid email or password"
  const UserNotFound := "User not found"

  /** `process.env.JWT_SECRET || <default>`: an unset or empty variable falls
      back to the built-in secret. */
  function SigningSecret(env: Option<string>): string {
    if env.Some? && env.value != "" then env.value else DefaultSecret
  }

  /** The token issued to a user, on register and on login alike. */
  function Issue(user: UserRow, env: Option<string>): (t: Token)
    ensures t.claims == Claims(user.id, user.email)
    ensures t.lifetimeSeconds == 604800
    ensures env.Some? && env.value != "" ==> t.secret == env.value
    ensures env.None? || env.value == "" ==> t.secret == "your-secret-key-change-in-production"
  {
    Token(Claims(user.id, user.email), SigningSecret(env), TokenLifetimeSeconds)
  }

  function Public(user: UserRow): PublicUser {
    PublicUser(user.id, user.email, user.name)
  }

  /** Email is the key of its row. */
  ghost predicate KeyedByEmail(users: map<string, UserRow>) {
    forall e :: e in users ==> users[e].email == e
  }

  /** The `id` column is a primary key. */
  ghost predicate UniqueIds(users: map<string, UserRow>) {
    forall e, f :: e in users && f in users && e != f ==> users[e].id != users[f].id
  }

  // ---------------------------------------------------------------------
  // POST /register

  datatype RegisterRequest = RegisterRequest(email: Option<string>, password: Option<string>, name: Option<string>)

  /** The messages of the failed validators, in declaration order. */
  function RegisterErrors(req: RegisterRequest): (errs: seq<string>)
    ensures errs == [] <==> V.IsEmail(req.email) && V.MinLength(req.password, 6) && V.NotEmpty(req.name)
    ensures "Valid email required" in errs <==> !V.IsEmail(req.email)
    ensures "Password must be at least 6 characters" in errs <==> !V.MinLength(req.password, 6)
    ensures "Name is required" in errs <==> !V.NotEmpty(req.name)
  {
    (if V.IsEmail(req.email) then [] else ["Valid email required"])
    + (if V.MinLength(req.password, 6) then [] else ["Password must be at least 6 characters"])
    + (if V.NotEmpty(req.name) then [] else ["Name is required"])
  }

  // ---------------------------------------------------------------------
  // POST /login

  datatype LoginRequest = LoginRequest(email: Option<string>, password: Option<string>)

  function LoginErrors(req: LoginRequest): (errs: seq<string>)
    ensures errs == [] <==> V.IsEmail(req.email) && V.NotEmpty(req.password)
  {
    (if V.IsEmail(req.email) then [] else ["Valid email required"])
    + (if V.NotEmpty(req.password) then [] else ["Password is required"])
  }

  /** POST /login: a lookup and a comparison, nothing is written. An unknown
      email and a wrong password get the same 401 reply. */
  function Login(users: map<string, UserRow>, req: LoginRequest, crypto: Crypto, env: Option<string>): (r: Reply<Session>)
    ensures LoginErrors(req) != [] ==> r == Invalid(LoginErrors(req))
    ensures r.Ok? <==>
      && LoginErrors(req) == []
      && req.email.value in users
      && crypto.compare(req.password.value, users[req.email.value].passwordHash)
    ensures r.Ok? ==>
      && r.status == 200
      && r.body.user == Public(users[req.email.value])
      && r.body.token == Issue(users[req.email.value], env)
    ensures LoginErrors(req) == [] && !r.Ok? ==> r == Fail(401, InvalidCredentials)
  {
    var errs := LoginErrors(req);
    if errs != [] then Invalid(errs)
    else if req.email.value !in users then Fail(401, InvalidCredentials)
    else
      var user := users[req.email.value];
      if !crypto.compare(req.password.value, user.passwordHash) then Fail(401, InvalidCredentials)
      else Ok(200, Session("Login successful", Issue(user, env), Public(user)))
  }

  // ---------------------------------------------------------------------
  // GET /me

  /** GET /me for the user id the token carries: that user's profile, or 404
      when no row has that id. */
  ghost function Me(users: map<string, UserRow>, userId: int): (r: Reply<Profile>)
    ensures r.Ok? <==> exists e :: e in users && users[e].id == userId
    ensures r.Ok? ==>
      && r.status == 200
      && r.body.id == userId
      && exists e :: e in users && users[e] == UserRow(userId, r.body.email, users[e].passwordHash, r.body.name, r.body.createdAt)
    ensures !r.Ok? ==> r == Fail(404, UserNotFound)
  {
    if exists e :: e in users && users[e].id == userId then
      var e :| e in users && users[e].id == userId;
      var u := users[e];
      Ok(200, Profile(u.id, u.email, u.name, u.createdAt))
    else Fail(404, UserNotFound)
  }

  /** With ids unique, GET /me by a row's id returns exactly that row. */
  lemma MeFindsRow(users: map<string, UserRow>, email: string)
    requires UniqueIds(users) && email in users
    ensures var u := users[email];
      Me(users, u.id) == Ok(200, Profile(u.id, u.email, u.name, u.createdAt))
  {
    var r := Me(users, users[email].id);
    var e :| e in users && users[e] == UserRow(users[email].id, r.body.email, users[e].passwordHash, r.body.name, r.body.createdAt);
    assert e == email;
  }

  // ---------------------------------------------------------------------
  // The users table

  class UserStore {
    var users: map<string, UserRow>
    /** The id the next INSERT receives (a SERIAL column). */
    var nextId: int

    ghost predicate Valid()
      reads this
    {
      && KeyedByEmail(users)
      && (forall e :: e in users ==> users[e].id < nextId)
      && UniqueIds(users)
    }

    constructor ()
      ensures Valid() && users == map[] && nextId == 1
    {
      users := map[];
      nextId := 1;
    }

    /** POST /register: validation before any lookup, a duplicate email is
        rejected without an insert, otherwise one row is inserted holding the
        hash of the password and a token for it is issued. */
    method Register(req: RegisterRequest, crypto: Crypto, salt: nat, env: Option<string>, now: int)
      returns (reply: Reply<Session>)
      requires Valid()
      modifies this
      ensures Valid()
      ensures RegisterErrors(req) != [] ==>
        reply == Invalid(RegisterErrors(req)) && users == old(users) && nextId == old(nextId)
      ensures RegisterErrors(req) == [] && req.email.value in old(users) ==>
        reply == Fail(400, EmailExists) && users == old(users) && nextId == old(nextId)
      ensures RegisterErrors(req) == [] && req.email.value !in old(users) ==>
        var row := UserRow(old(nextId), req.email.value, crypto.hash(req.password.value, BcryptRounds, salt), req.name.value, now);
        && users == old(users)[req.email.value := row]
        && nextId == old(nextId) + 1
        && reply == Ok(201, Session("User registered successfully", Issue(row, env), Public(row)))
    {
      var errs := RegisterErrors(req);
      if errs != [] {
        return Invalid(errs);
      }
      var email := req.email.value;
      if email in users {
        return Fail(400, EmailExists);
      }
      var hashed := crypto.hash(req.password.value, BcryptRounds, salt);
      var row := UserRow(nextId, email, hashed, req.name.value, now);
      users := users[email := row];
      nextId := nextId + 1;
      reply := Ok(201, Session("User registered successfully", Issue(row, env), Public(row)));
    }
  }

  /** Logging in with the credentials just registered succeeds, and the token
      carries the same user id and email as the one register issued. */
  lemma LoginAfterRegister(users: map<string, UserRow>, req: RegisterRequest, crypto: Crypto, salt: nat, env: Option<string>, id: int, now: int)
    requires Sound(crypto)
    requires RegisterErrors(req) == []
    ensures var row := UserRow(id, req.email.value, crypto.hash(req.password.value, BcryptRounds, salt), req.name.value, now);
      var r := Login(users[req.email.value := row], LoginRequest(req.email, req.password), crypto, env);
      && r.Ok?
      && r.body.token == Issue(row, env)
      && r.body.user == Public(row)
  {
  }

  /** A rejected login leaves nothing to distinguish an unknown email from a
      wrong password: both replies are the same value. */
  lemma UniformLoginFailure(users: map<string, UserRow>, email: string, wrong: string, crypto: Crypto, env: Option<string>)
    requires V.IsEmail(Some(email)) && wrong != ""
    requires email in users && !crypto.compare(wrong, users[email].passwordHash)
    ensures Login(users, LoginRequest(Some(email), Some(wrong)), crypto, env)
         == Login(users - {email}, LoginRequest(Some(email), Some(wrong)), crypto, env)
         == Fail(401, InvalidCredentials)
  {
  }
}
