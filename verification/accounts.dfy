/**
  The credential handlers: signup, signin and "who am I". The user collection
  is a sequence in insertion order, so `findOne` is the first match; password
  hashing and comparison (bcrypt) and token signing are parameters.
 */
module Accounts {
  import opened Wrappers
  import opened Text
  import opened Http
  import opened Entities
  import opened Auth

  /** The shortest password signup accepts. */
  const MinPasswordLength := 6

  /** `bcrypt.hash(password, 10)`. */
  type Hasher = string -> string

  /** `bcrypt.compare(password, digest)`. */
  type Comparer = (string, string) -> bool

  datatype SignupRequest = SignupRequest(name: Option<string>, email: Option<string>, password: Option<string>)

  datatype SigninRequest = SigninRequest(email: Option<string>, password: Option<string>)

  /** The success body of signup and signin: a token and the safe projection of the user. */
  datatype AuthReply = AuthReply(token: string, user: SafeUser)

  /** The store's unique index on `email`. */
  predicate UniqueEmails(users: seq<User>) {
    forall i, j :: 0 <= i < j < |users| ==> users[i].email != users[j].email
  }

  /** The store's `_id` key: no two users share an id. */
  predicate UniqueIds(users: seq<User>) {
    forall i, j :: 0 <= i < j < |users| ==> users[i].id != users[j].id
  }

  predicate HasEmail(users: seq<User>, email: string) {
    exists k :: 0 <= k < |users| && users[k].email == email
  }

  /** `User.findOne({ email })`. */
  function FindByEmail(users: seq<User>, email: string): (r: Option<nat>)
    ensures r.Some? ==> r.value < |users| && users[r.value].email == email
    ensures r.Some? ==> forall k :: 0 <= k < r.value ==> users[k].email != email
    ensures r.None? <==> !HasEmail(users, email)
  {
    FindFirst(users, (u: User) => u.email == email)
  }

  /** `User.findById(id)`. */
  function FindById(users: seq<User>, id: Id): (r: Option<nat>)
    ensures r.Some? ==> r.value < |users| && users[r.value].id == id
    ensures r.None? <==> forall k :: 0 <= k < |users| ==> users[k].id != id
  {
    FindFirst(users, (u: User) => u.id == id)
  }

  /** The reply for an authenticated user: a token over the user's claims and the safe projection. */
  function Reply(user: User, sign: Signer): (r: AuthReply)
    ensures r.user.id == user.id && r.user.name == user.name && r.user.email == user.email && r.user.role == user.role
    ensures r.token == sign(ClaimsOf(user))
  {
    AuthReply(sign(ClaimsOf(user)), Project(user))
  }

  /** The signup request passes the presence checks: a name, a non-empty normalised email, a password. */
  predicate SignupFieldsPresent(req: SignupRequest) {
    Truthy(req.name) && NormalizeEmail(req.email) != "" && Truthy(req.password)
  }

  /**
    `POST /api/auth/signup`. Missing fields give 400, then a password shorter
    than six characters gives 400, then an already registered normalised email
    gives 409; otherwise a customer with the normalised email and the hashed
    password is appended, and its token and safe projection are returned.
   */
  function Signup(req: SignupRequest, users: seq<User>, newId: Id, hash: Hasher, sign: Signer)
    : (r: (Result<AuthReply, HttpError>, seq<User>))
    ensures !SignupFieldsPresent(req) ==> r == (Err(SignupFieldsRequired), users)
    ensures SignupFieldsPresent(req) && |req.password.value| < MinPasswordLength ==> r == (Err(PasswordTooShort), users)
    ensures SignupFieldsPresent(req) && |req.password.value| >= MinPasswordLength ==>
      (r.0 == Err(EmailExists) <==> HasEmail(users, NormalizeEmail(req.email)))
    ensures r.0.Ok? <==>
      SignupFieldsPresent(req) && |req.password.value| >= MinPasswordLength && !HasEmail(users, NormalizeEmail(req.email))
    ensures r.0.Err? ==> r.1 == users
    ensures r.0.Ok? ==>
      && SignupFieldsPresent(req) && |req.password.value| >= MinPasswordLength
      && !HasEmail(users, NormalizeEmail(req.email))
      && |r.1| == |users| + 1 && r.1[..|users|] == users
      && var u := r.1[|users|];
      && u == User(newId, req.name.value, NormalizeEmail(req.email), Customer, hash(req.password.value))
      && r.0.value == Reply(u, sign)
    ensures UniqueEmails(users) ==> UniqueEmails(r.1)
  {
    var email := NormalizeEmail(req.email);
    if !Truthy(req.name) || email == "" || !Truthy(req.password) then
      (Err(SignupFieldsRequired), users)
    else if |req.password.value| < MinPasswordLength then
      (Err(PasswordTooShort), users)
    else if FindByEmail(users, email).Some? then
      (Err(EmailExists), users)
    else
      var user := User(newId, req.name.value, email, Customer, hash(req.password.value));
      var users' := users + [user];
      assert users'[..|users|] == users;
      (Ok(Reply(user, sign)), users')
  }

  /** The signin request passes the presence checks: a non-empty normalised email and a password. */
  predicate SigninFieldsPresent(req: SigninRequest) {
    NormalizeEmail(req.email) != "" && Truthy(req.password)
  }

  /**
    `POST /api/auth/signin`. Missing fields give 400; an unknown email and a
    wrong password both give the same 401; otherwise the first user with the
    normalised email whose digest matches gets a token.
   */
  function Signin(req: SigninRequest, users: seq<User>, compare: Comparer, sign: Signer)
    : (r: Result<AuthReply, HttpError>)
    ensures !SigninFieldsPresent(req) ==> r == Err(SigninFieldsRequired)
    ensures SigninFieldsPresent(req) && !HasEmail(users, NormalizeEmail(req.email)) ==> r == Err(InvalidCredentials)
    ensures r.Err? ==> r.error == SigninFieldsRequired || r.error == InvalidCredentials
    ensures SigninFieldsPresent(req) && HasEmail(users, NormalizeEmail(req.email)) ==>
      var i := FindByEmail(users, NormalizeEmail(req.email)).value;
      && (r.Ok? <==> compare(req.password.value, users[i].passwordHash))
      && (r.Ok? ==> r.value == Reply(users[i], sign))
    ensures r.Ok? ==>
      && SigninFieldsPresent(req)
      && (exists k :: 0 <= k < |users| && users[k].email == NormalizeEmail(req.email)
            && compare(req.password.value, users[k].passwordHash) && r.value == Reply(users[k], sign))
  {
    var email := NormalizeEmail(req.email);
    if email == "" || !Truthy(req.password) then
      Err(SigninFieldsRequired)
    else
      match FindByEmail(users, email)
      case None => Err(InvalidCredentials)
      case Some(i) =>
        if !compare(req.password.value, users[i].passwordHash) then Err(InvalidCredentials)
        else Ok(Reply(users[i], sign))
  }

  /**
    Signin does not reveal whether an account exists: a store without the email
    and a store whose account for it has another password answer identically.
   */
  lemma SigninIndistinguishable(req: SigninRequest, absent: seq<User>, present: seq<User>, k: nat,
                                compare: Comparer, sign: Signer)
    requires SigninFieldsPresent(req)
    requires !HasEmail(absent, NormalizeEmail(req.email))
    requires UniqueEmails(present) && k < |present| && present[k].email == NormalizeEmail(req.email)
    requires !compare(req.password.value, present[k].passwordHash)
    ensures Signin(req, absent, compare, sign) == Signin(req, present, compare, sign) == Err(InvalidCredentials)
  {
  }

  /**
    Signing in after a successful signup with the same email and password
    succeeds for the new user, provided the digest matches its password: the
    same projection, and a token over the same claims. The two requests sign at
    different moments, so each has its own signer and the tokens may differ.
   */
  lemma SignupThenSignin(req: SignupRequest, users: seq<User>, newId: Id, hash: Hasher, compare: Comparer,
                         signUp: Signer, signIn: Signer)
    requires Signup(req, users, newId, hash, signUp).0.Ok?
    requires compare(req.password.value, hash(req.password.value))
    ensures var (reply, users') := Signup(req, users, newId, hash, signUp);
      var r := Signin(SigninRequest(req.email, req.password), users', compare, signIn);
      && r.Ok? && r.value.user == reply.value.user
      && r.value.token == signIn(ClaimsOf(users'[|users|]))
      && reply.value.token == signUp(ClaimsOf(users'[|users|]))
  {
  }

  /** A signup whose email normalises to a registered one is refused with 409, whatever its case or padding. */
  lemma SignupDuplicateConflicts(req: SignupRequest, users: seq<User>, k: nat, newId: Id, hash: Hasher, sign: Signer)
    requires SignupFieldsPresent(req) && |req.password.value| >= MinPasswordLength
    requires k < |users| && users[k].email == NormalizeEmail(req.email)
    ensures Signup(req, users, newId, hash, sign) == (Err(EmailExists), users)
  {
  }

  /**
    A registered email, stored in normal form, conflicts whatever the case of
    its letters and whatever whitespace surrounds it in the signup request.
   */
  lemma RegisteredEmailConflicts(req: SignupRequest, users: seq<User>, k: nat, pre: string, variant: string, post: string,
                                 newId: Id, hash: Hasher, sign: Signer)
    requires Truthy(req.name) && Truthy(req.password) && |req.password.value| >= MinPasswordLength
    requires k < |users| && users[k].email != "" && IsTrimmed(users[k].email) && HasNoUpper(users[k].email)
    requires SameUpToCase(variant, users[k].email) && AllWhitespace(pre) && AllWhitespace(post)
    requires req.email == Some(pre + variant + post)
    ensures Signup(req, users, newId, hash, sign) == (Err(EmailExists), users)
  {
    NormalizePaddingIgnored(pre, variant, post);
    CaseIgnored(variant, users[k].email);
    NormalizeCanonical(users[k].email);
  }

  /**
    `GET /api/auth/me`: the guard's answer when there is no valid token, 404
    when the claimed user no longer exists, its safe projection otherwise.
   */
  function Me(header: Option<string>, verify: Verifier, users: seq<User>): (r: Result<SafeUser, HttpError>)
    ensures RequireAuth(header, verify).Err? ==> r == Err(RequireAuth(header, verify).error)
    ensures r == Err(UserNotFound) <==>
      RequireAuth(header, verify).Ok? &&
      forall k :: 0 <= k < |users| ==> users[k].id != RequireAuth(header, verify).value.userId
    ensures r.Ok? <==>
      RequireAuth(header, verify).Ok? &&
      exists k :: 0 <= k < |users| && users[k].id == RequireAuth(header, verify).value.userId
    ensures r.Ok? ==>
      exists k :: 0 <= k < |users| && users[k].id == RequireAuth(header, verify).value.userId
        && r.value == Project(users[k])
  {
    var claim :- RequireAuth(header, verify);
    match FindById(users, claim.userId)
    case None => Err(UserNotFound)
    case Some(i) => Ok(Project(users[i]))
  }
}
