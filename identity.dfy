/** Signup and login over the Users collection, taken as a sequence in store
    order. `findOne({ email })` is the first user in that order whose email
    matches. */
module Identity {
  import opened Records

  /** Some stored user has this email. */
  ghost predicate EmailTaken(users: seq<User>, email: string) {
    exists i :: 0 <= i < |users| && users[i].email == email
  }

  /** `i` is the position of the first user with this email. */
  ghost predicate FirstWithEmail(users: seq<User>, email: string, i: int) {
    0 <= i < |users| && users[i].email == email &&
    forall j :: 0 <= j < i ==> users[j].email != email
  }

  /** No two stored users share an email (the schema's `unique: true`). */
  ghost predicate EmailsDistinct(users: seq<User>) {
    forall i, j :: 0 <= i < j < |users| ==> users[i].email != users[j].email
  }

  /** Some stored user has exactly this email and this password. */
  ghost predicate Registered(users: seq<User>, email: string, password: string) {
    exists i :: 0 <= i < |users| && users[i].email == email && users[i].password == password
  }

  /** `Users.findOne({ email })`: the position of the first match, if any. */
  function FindByEmail(users: seq<User>, email: string): (r: Option<nat>)
    ensures r.None? <==> !EmailTaken(users, email)
    ensures r.Some? ==> FirstWithEmail(users, email, r.value)
  {
    if |users| == 0 then None
    else if users[0].email == email then Some(0)
    else
      match FindByEmail(users[1..], email)
      case None =>
        assert forall i :: 1 <= i < |users| ==> users[i] == users[1..][i - 1];
        None
      case Some(i) =>
        assert forall j :: 1 <= j <= i ==> users[j] == users[1..][j - 1];
        Some(i + 1)
  }

  /** `req.body.role || "customer"`: an absent or empty role is falsy. */
  function DefaultRole(role: Option<string>): (r: string)
    ensures r != ""
    ensures role.Some? && role.value != "" ==> r == role.value
    ensures role.None? || role.value == "" ==> r == "customer"
  {
    match role
    case Some(s) => if s != "" then s else "customer"
    case None => "customer"
  }

  /** The record `new Users({...})` builds for a signup; `isApproved` takes
      its schema default. */
  function NewUser(id: nat, req: SignupRequest): (u: User)
    ensures u.id == id && u.name == req.username && u.email == req.email && u.password == req.password
    ensures u.role == DefaultRole(req.role) && u.role != "" && !u.isApproved
  {
    User(id, req.username, req.email, req.password, DefaultRole(req.role), false)
  }

  /** `{ user: { id: user.id, role: user.role } }`. */
  function ClaimsOf(u: User): (c: Claims)
    ensures c.user.id == u.id && c.user.role == u.role
  {
    Claims(ClaimUser(u.id, u.role))
  }

  /** The /login handler: it only reads the users. */
  function Login(users: seq<User>, email: string, password: string): (r: Response)
    ensures !EmailTaken(users, email) ==> r == Rejected(HTTP_OK, WRONG_EMAIL)
    ensures forall i {:trigger FirstWithEmail(users, email, i)} :: FirstWithEmail(users, email, i) ==>
      r == if users[i].password == password
           then LoggedIn(ClaimsOf(users[i]), users[i].role)
           else Rejected(HTTP_OK, WRONG_PASSWORD)
  {
    match FindByEmail(users, email)
    case None => Rejected(HTTP_OK, WRONG_EMAIL)
    case Some(i) =>
      if password == users[i].password then LoggedIn(ClaimsOf(users[i]), users[i].role)
      else Rejected(HTTP_OK, WRONG_PASSWORD)
  }

  /** With distinct emails, login succeeds exactly for a stored email and
      password pair, and the token names that user. */
  lemma LoginSucceedsIff(users: seq<User>, email: string, password: string)
    requires EmailsDistinct(users)
    ensures Login(users, email, password).LoggedIn? <==> Registered(users, email, password)
    ensures forall i :: 0 <= i < |users| && users[i].email == email && users[i].password == password ==>
      Login(users, email, password) == LoggedIn(ClaimsOf(users[i]), users[i].role)
  {
  }

  /** A successful signup appends a user whose email was free; that user can
      then log in with the same password and receives the same claims the
      signup token carried. */
  lemma LoginAfterSignup(users: seq<User>, id: nat, req: SignupRequest)
    requires !EmailTaken(users, req.email)
    ensures Login(users + [NewUser(id, req)], req.email, req.password)
      == LoggedIn(ClaimsOf(NewUser(id, req)), DefaultRole(req.role))
  {
    var users' := users + [NewUser(id, req)];
    assert FirstWithEmail(users', req.email, |users|) by {
      forall j | 0 <= j < |users|
        ensures users'[j].email != req.email
      {
        assert users'[j] == users[j];
      }
    }
  }

  /** Appending a user whose email is free keeps emails distinct. */
  lemma AppendFreshEmailKeepsDistinct(users: seq<User>, u: User)
    requires EmailsDistinct(users) && !EmailTaken(users, u.email)
    ensures EmailsDistinct(users + [u])
  {
  }
}
