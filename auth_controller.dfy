/** Account creation and sign-in (backend/controllers/auth.controller.js).
    Errors passed to `next` reach the error middleware of backend/index.js,
    which answers with the error's status code, or 500 when it has none. */
module AuthController {
  import opened JsValues
  import opened JsText
  import opened UserModel
  import opened Db

  /** The bcrypt cost factor `hashSync` is called with. */
  const SALT_ROUNDS := 10
  /** `expiresIn: '7d'`, in seconds. */
  const SEVEN_DAYS := 7 * 24 * 60 * 60

  const FIELDS_REQUIRED := "username, email, and password are required"
  const USER_CREATED := "User created successfully"
  /** The message of the validation error `save` raises for a blank username. */
  const USERNAME_REQUIRED := "User validation failed: username: Path `username` is required."
  /** The start of the message of the error the unique `email` index raises;
      the server goes on to name the collection, the index and the key. */
  const DUPLICATE_EMAIL := "E11000 duplicate key error"
  const USER_NOT_FOUND := "User not found"
  const WRONG_CREDENTIALS := "Wrong credentials"
  /** What `bcryptjs.compareSync` throws when the password is undefined. */
  const ILLEGAL_ARGUMENTS := "Illegal arguments: undefined, string"

  // ----- signup ---------------------------------------------------------

  /** The sign-up body; an absent text field is the empty string. */
  datatype SignupInput = SignupInput(username: string, email: string, password: string, location: Location)

  /** `username`, `email` and `password` are all truthy. */
  predicate HasSignupFields(b: SignupInput) {
    b.username != "" && b.email != "" && b.password != ""
  }

  /** `bcryptjs.hashSync(password, 10)` with the salt it draws. */
  function HashPassword(password: string, salt: string): (h: PasswordHash)
    ensures h.rounds == SALT_ROUNDS
    ensures forall plain :: Matches(plain, h) <==> plain == password
  {
    Bcrypt(SALT_ROUNDS, salt, password)
  }

  /** `new User({ username, email, password: hashedPassword, location })` at `now`. */
  function NewUser(b: SignupInput, salt: string, now: int): (u: User)
    ensures u.username == Trim(b.username) && u.email == b.email
    ensures u.password == HashPassword(b.password, salt)
    ensures u.location == TrimLocation(b.location)
    ensures u.createdAt == now && u.updatedAt == now
    ensures UserModel.SatisfiesSchema(u) <==> Trim(b.username) != "" && b.email != ""
  {
    TrimIdempotent(b.username);
    User(Trim(b.username), b.email, HashPassword(b.password, salt), TrimLocation(b.location), now, now)
  }

  /** `POST /auth/signup`: 400 for a missing field; a blank username fails
      validation and a taken email the unique index, both as 500; otherwise the
      user is stored with the hash of the password, never the password. */
  method Signup(db: Store, b: SignupInput, salt: string, now: int) returns (res: Response<string>)
    requires db.Valid()
    modifies db
    ensures db.Valid()
    ensures !HasSignupFields(b) ==> res == Failure(400, FIELDS_REQUIRED)
    ensures HasSignupFields(b) && Trim(b.username) == "" ==> res == Failure(500, USERNAME_REQUIRED)
    ensures HasSignupFields(b) && Trim(b.username) != "" && Registered(old(db.users), b.email) ==>
      res.Failure? && res.code == 500 && DUPLICATE_EMAIL <= res.message
    ensures res.Failure? ==> unchanged(db)
    ensures res.Success? <==> HasSignupFields(b) && Trim(b.username) != "" && !Registered(old(db.users), b.email)
    ensures res.Success? ==>
      && res == Success(201, USER_CREATED)
      && db.users == old(db.users)[old(db.nextId) := NewUser(b, salt, now)]
      && db.nextId == old(db.nextId) + 1
      && db.donors == old(db.donors) && db.requests == old(db.requests) && db.smsSent == old(db.smsSent)
  {
    if !HasSignupFields(b) {
      return Failure(400, FIELDS_REQUIRED);
    }
    var u := NewUser(b, salt, now);
    if !UserModel.SatisfiesSchema(u) {
      return Failure(500, USERNAME_REQUIRED);
    }
    if Registered(db.users, b.email) {
      return Failure(500, DUPLICATE_EMAIL);
    }
    var id := db.nextId;
    db.users := db.users[id := u];
    db.nextId := id + 1;
    res := Success(201, USER_CREATED);
  }

  // ----- signin ---------------------------------------------------------

  /** The JWT claims `signin` signs: the id, and either the state and city or
      the coordinates. */
  datatype Payload = Payload(
    id: ObjectId,
    state: Option<string>,
    city: Option<string>,
    latitude: Option<real>,
    longitude: Option<real>)

  /** The payload for a user: state and city when both are truthy, otherwise
      the coordinates (whichever of them exist). */
  function TokenPayload(id: ObjectId, loc: Location): (p: Payload)
    ensures p.id == id
    ensures p.state.Some? <==> TruthyText(loc.state) && TruthyText(loc.city)
    ensures p.city.Some? <==> p.state.Some?
    ensures p.state.Some? ==> p.state == loc.state && p.city == loc.city
    ensures p.state.Some? ==> p.latitude.None? && p.longitude.None?
    ensures p.state.None? ==> p.latitude == loc.latitude && p.longitude == loc.longitude
  {
    if TruthyText(loc.state) && TruthyText(loc.city) then Payload(id, loc.state, loc.city, None, None)
    else Payload(id, None, None, loc.latitude, loc.longitude)
  }

  /** A signed token, kept symbolic: its claims and its `exp` (seconds). */
  datatype SignedToken = SignedToken(payload: Payload, exp: int)

  /** The stored user as the response shows it: every path but `password`. */
  datatype PublicUser = PublicUser(
    id: ObjectId,
    username: string,
    email: string,
    location: Location,
    createdAt: int,
    updatedAt: int)

  /** `const { password, ...rest } = validUser._doc`: every stored path but
      the password, which the public view has no room for. */
  function PublicView(id: ObjectId, u: User): (v: PublicUser)
    ensures v.id == id && v.username == u.username && v.email == u.email
    ensures v.location == u.location && v.createdAt == u.createdAt && v.updatedAt == u.updatedAt
  {
    PublicUser(id, u.username, u.email, u.location, u.createdAt, u.updatedAt)
  }

  datatype SigninReply = SigninReply(token: SignedToken, user: PublicUser)

  /** `POST /auth/signin` at `now` (seconds); `password` is `None` when the
      body has none. 404 for an unknown email, checked first; then a missing
      password makes `compareSync` throw, which the error middleware answers
      with 500; then 401 for a wrong password; otherwise a token valid for
      seven days and the user without the password. It changes nothing. */
  method SignIn(db: Store, email: string, password: Option<string>, now: int) returns (res: Response<SigninReply>)
    requires db.Valid()
    ensures res == Failure(404, USER_NOT_FOUND) <==> !Registered(db.users, email)
    ensures res == Failure(500, ILLEGAL_ARGUMENTS) <==> Registered(db.users, email) && password.None?
    ensures res == Failure(401, WRONG_CREDENTIALS) <==>
      && password.Some?
      && exists id :: id in db.users && db.users[id].email == email && !Matches(password.value, db.users[id].password)
    ensures res.Failure? ==>
      res == Failure(404, USER_NOT_FOUND) || res == Failure(500, ILLEGAL_ARGUMENTS) || res == Failure(401, WRONG_CREDENTIALS)
    ensures res.Success? ==>
      && res.code == 200
      && password.Some?
      && var id := res.body.user.id;
         && id in db.users && db.users[id].email == email
         && Matches(password.value, db.users[id].password)
         && res.body.user == PublicView(id, db.users[id])
         && res.body.token == SignedToken(TokenPayload(id, db.users[id].location), now + SEVEN_DAYS)
  {
    if !Registered(db.users, email) {
      return Failure(404, USER_NOT_FOUND);
    }
    var id :| id in db.users && db.users[id].email == email;
    var u := db.users[id];
    if password.None? {
      return Failure(500, ILLEGAL_ARGUMENTS);
    }
    if !Matches(password.value, u.password) {
      return Failure(401, WRONG_CREDENTIALS);
    }
    res := Success(200, SigninReply(SignedToken(TokenPayload(id, u.location), now + SEVEN_DAYS), PublicView(id, u)));
  }

  /** Signing up and then signing in with the same email and password gives
      the new user a token; any other password is refused. */
  method SignupThenSignIn(db: Store, b: SignupInput, salt: string, now: int, later: int, other: string)
    returns (signedUp: Response<string>, signedIn: Response<SigninReply>, refused: Response<SigninReply>)
    requires db.Valid()
    requires HasSignupFields(b) && Trim(b.username) != "" && !Registered(db.users, b.email)
    requires other != b.password
    modifies db
    ensures signedUp == Success(201, USER_CREATED)
    ensures signedIn.Success? && signedIn.body.user.id == old(db.nextId)
    ensures signedIn.body.user.username == Trim(b.username)
    ensures signedIn.body.token.exp == later + SEVEN_DAYS
    ensures refused == Failure(401, WRONG_CREDENTIALS)
  {
    signedUp := Signup(db, b, salt, now);
    var id := old(db.nextId);
    assert db.users[id].email == b.email && Matches(b.password, db.users[id].password);
    assert forall k :: k in db.users && db.users[k].email == b.email ==> k == id;
    signedIn := SignIn(db, b.email, Some(b.password), later);
    refused := SignIn(db, b.email, Some(other), later);
  }
}
