/** The `User` collection's schema (backend/models/user.model.js): field
    types, required paths, `trim` setters and the unique index on `email`. */
module UserModel {
  import opened JsValues
  import opened JsText

  /** A document identifier; the store hands out fresh ones. */
  type ObjectId = nat

  /** The optional coarse location a user (or a donation) carries. */
  datatype Location = Location(
    latitude: Option<real>,
    longitude: Option<real>,
    city: Option<string>,
    state: Option<string>)

  function NoLocation(): Location {
    Location(None, None, None, None)
  }

  /** A bcrypt digest, kept symbolic: the cost factor, the salt and the
      password it was computed from. Only `Matches` looks inside it. */
  datatype PasswordHash = Bcrypt(rounds: nat, salt: string, secret: string)

  /** `bcrypt.compareSync(plain, hash)`. */
  predicate Matches(plain: string, hash: PasswordHash) {
    hash.secret == plain
  }

  datatype User = User(
    username: string,
    email: string,
    password: PasswordHash,
    location: Location,
    createdAt: int,
    updatedAt: int)

  function TrimOpt(s: Option<string>): Option<string> {
    if s.Some? then Some(Trim(s.value)) else None
  }

  /** The `trim: true` setters on `location.city` and `location.state`. */
  function TrimLocation(l: Location): (r: Location)
    ensures r.latitude == l.latitude && r.longitude == l.longitude
    ensures r.city == TrimOpt(l.city) && r.state == TrimOpt(l.state)
    ensures LocationTrimmed(r)
    ensures LocationTrimmed(l) ==> r == l
  {
    TrimIdempotentOpt(l.city);
    TrimIdempotentOpt(l.state);
    l.(city := TrimOpt(l.city), state := TrimOpt(l.state))
  }

  lemma TrimIdempotentOpt(s: Option<string>)
    ensures TrimOpt(TrimOpt(s)) == TrimOpt(s)
  {
    if s.Some? { TrimIdempotent(s.value); }
  }

  predicate LocationTrimmed(l: Location) {
    TrimOpt(l.city) == l.city && TrimOpt(l.state) == l.state
  }

  /** What the schema demands of a stored user: `username` required and
      trimmed, `email` required, `location.city`/`state` trimmed; `password`
      is a digest and so always present. A valid user has a username that is
      not blank and is left as it is by the `trim` setters. */
  predicate SatisfiesSchema(u: User)
    ensures SatisfiesSchema(u) ==> !AllSpace(u.username) && TrimLocation(u.location) == u.location
  {
    TrimEmptyIffAllSpace(u.username);
    && u.username != ""
    && Trim(u.username) == u.username
    && u.email != ""
    && LocationTrimmed(u.location)
  }

  /** The unique index on `email`: no two users share one. */
  ghost predicate EmailsUnique(users: map<ObjectId, User>) {
    forall a, b :: a in users && b in users && users[a].email == users[b].email ==> a == b
  }

  /** Some user has this email (`User.findOne({ email })` finds one). */
  predicate Registered(users: map<ObjectId, User>, email: string) {
    exists id :: id in users && users[id].email == email
  }
}
