/** `POST /signup` and `POST /login` over the users table. `bcrypt.hash`,
    `bcrypt.compare` and `jwt.sign` are the parameters `hash`, `matches` and
    `sign`. */
module AuthRoutes {
  import opened Common
  import opened Store

  const Taken := "มีชื่อผู้ใช้นี้ในระบบแล้ว"
  const Added := "เพิ่มผู้ใช้แล้ว"
  const BadCredentials := "ข้อมูลไม่ถูกต้อง"
  const DefaultRole := "tenant"

  /** `User.findOne({ where: { username } })` */
  function FindUser(users: seq<User>, username: string): (r: Option<User>)
    ensures r.Some? ==> r.value in users && r.value.username == username
    ensures r.None? <==> forall i :: 0 <= i < |users| ==> users[i].username != username
  {
    if users == [] then None
    else if users[0].username == username then Some(users[0])
    else FindUser(users[1..], username)
  }

  /** With unique usernames the user found is the only one with that name. */
  lemma FindUserUnique(users: seq<User>, username: string, i: nat)
    requires UsernamesUnique(users) && i < |users| && users[i].username == username
    ensures FindUser(users, username) == Some(users[i])
  {
    var u := FindUser(users, username).value;
    var j :| 0 <= j < |users| && users[j] == u;
    assert users[j].username == users[i].username;
  }

  /** `role || 'tenant'`: a missing or empty role falls back to 'tenant'; any
      other text is kept as given. */
  function RoleOrDefault(role: Option<string>): (r: string)
    ensures r != ""
    ensures role.Some? && role.value != "" ==> r == role.value
    ensures role.None? || role.value == "" ==> r == DefaultRole
  {
    if role.Some? && role.value != "" then role.value else DefaultRole
  }

  /** Where a signup's database or hashing call throws, if one does. */
  datatype SignupFailure = NoFailure | LookupFails | CreateFails

  /** The body of a successful signup. */
  datatype SignupBody = SignupBody(message: string, userId: nat)

  /** `POST /signup`: answers the new user's id. */
  method Signup(db: Database, username: string, password: string, role: Option<string>,
                hash: string -> string, failure: SignupFailure) returns (r: Reply<SignupBody>)
    requires db.Valid()
    modifies db
    ensures db.Valid()
    ensures db.logs == old(db.logs) && db.alerts == old(db.alerts) && db.tenants == old(db.tenants)
    ensures db.sources == old(db.sources) && db.nextAlertId == old(db.nextAlertId)
    ensures r.Ok? <==> failure == NoFailure && FindUser(old(db.users), username).None?
    ensures r.Ok? ==> r.body == SignupBody(Added, old(db.nextUserId)) && db.nextUserId == old(db.nextUserId) + 1
    ensures r.Ok? ==>
      db.users == old(db.users) + [User(old(db.nextUserId), username, hash(password), RoleOrDefault(role))]
    ensures r.Error? ==> db.users == old(db.users) && db.nextUserId == old(db.nextUserId)
    ensures r.Error? ==>
      if failure != LookupFails && FindUser(old(db.users), username).Some? then r == Error(400, Taken)
      else r == Error(500, ServerError)
  {
    if failure == LookupFails {
      return Error(500, ServerError);
    }
    var existing := FindUser(db.users, username);
    if existing.Some? {
      return Error(400, Taken);
    }
    var hashed := hash(password);
    if failure == CreateFails {
      return Error(500, ServerError);
    }
    var user := User(db.nextUserId, username, hashed, RoleOrDefault(role));
    db.users := db.users + [user];
    db.nextUserId := db.nextUserId + 1;
    r := Ok(SignupBody(Added, user.id));
  }

  /** Two signups in a row with the same username: the second answers 400
      and the table keeps one user of that name. */
  method SignupTwice(db: Database, username: string, password: string, role: Option<string>,
                     hash: string -> string) returns (first: Reply<SignupBody>, second: Reply<SignupBody>)
    requires db.Valid()
    modifies db
    ensures second == Error(400, Taken)
    ensures exists i :: 0 <= i < |db.users| && db.users[i].username == username
    ensures UsernamesUnique(db.users)
  {
    first := Signup(db, username, password, role, hash, NoFailure);
    if first.Ok? {
      assert db.users[|db.users| - 1].username == username;
    }
    second := Signup(db, username, password, role, hash, NoFailure);
  }

  /** The body of a successful login. */
  datatype LoginBody = LoginBody(token: string, role: string)

  /** `POST /login`. It reads the users table and changes nothing. */
  function Login(users: seq<User>, username: string, password: string,
                 matches: (string, string) -> bool, sign: Claims -> string, fails: bool): (r: Reply<LoginBody>)
    ensures r.Error? ==> r == Error(401, BadCredentials) || r == Error(500, ServerError)
    ensures r == Error(500, ServerError) <==> fails
    ensures !fails ==>
      (FindUser(users, username).None? || !matches(password, FindUser(users, username).value.password) ==>
         r == Error(401, BadCredentials))
    ensures r.Ok? ==> exists i :: (0 <= i < |users| && users[i].username == username
      && matches(password, users[i].password)
      && r.body == LoginBody(sign(Claims(users[i].id, users[i].username, users[i].role)), users[i].role))
  {
    if fails then Error(500, ServerError)
    else
      match FindUser(users, username)
      case None => Error(401, BadCredentials)
      case Some(u) =>
        if !matches(password, u.password) then Error(401, BadCredentials)
        else Ok(LoginBody(sign(Claims(u.id, u.username, u.role)), u.role))
  }

  /** An unknown username and a wrong password get the same answer: the
      401 `BadCredentials`. */
  lemma LoginDoesNotTell(users: seq<User>, unknown: string, known: nat, password: string,
                         matches: (string, string) -> bool, sign: Claims -> string)
    requires UsernamesUnique(users) && known < |users|
    requires forall i :: 0 <= i < |users| ==> users[i].username != unknown
    requires !matches(password, users[known].password)
    ensures Login(users, unknown, password, matches, sign, false) ==
      Login(users, users[known].username, password, matches, sign, false)
    ensures Login(users, unknown, password, matches, sign, false) == Error(401, BadCredentials)
  {
    FindUserUnique(users, users[known].username, known);
  }

  /** With unique usernames a login succeeds exactly for the stored user's
      password, and the token carries that user's id, name and role. */
  lemma LoginSucceeds(users: seq<User>, i: nat, password: string,
                      matches: (string, string) -> bool, sign: Claims -> string)
    requires UsernamesUnique(users) && i < |users|
    ensures Login(users, users[i].username, password, matches, sign, false).Ok?
      <==> matches(password, users[i].password)
    ensures matches(password, users[i].password) ==>
      Login(users, users[i].username, password, matches, sign, false) ==
        Ok(LoginBody(sign(Claims(users[i].id, users[i].username, users[i].role)), users[i].role))
  {
    FindUserUnique(users, users[i].username, i);
  }
}
