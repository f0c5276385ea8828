/** The credential registry: `users_db` and the password functions around it. */
module Credentials {
  import opened Results

  /** The password-hashing context. `hash` stands for the salted, slow one-way
      hash and `verify` for its check; the salt bcrypt draws at random is an
      explicit argument. Nothing is known about the two functions except what
      `Sound` demands of them. */
  datatype HashScheme = HashScheme(hash: (string, int) -> string, verify: (string, string) -> bool)

  /** A password always verifies against any hash computed from it. */
  ghost predicate Sound(h: HashScheme) {
    forall password: string, salt: int :: h.verify(password, h.hash(password, salt))
  }

  /** A stored principal. It has no field for the raw password. */
  datatype UserRecord = UserRecord(username: string, email: string, hashedPassword: string)

  type Users = map<string, UserRecord>

  /** Every record is stored under its own username. */
  predicate WellFormed(users: Users) {
    forall name :: name in users ==> users[name].username == name
  }

  /** `get_user`: the record stored under `username`, if any. */
  function GetUser(users: Users, username: string): (r: Option<UserRecord>)
    ensures r.Some? <==> username in users
    ensures r.Some? ==> r.value == users[username]
  {
    if username in users then Some(users[username]) else None
  }

  /** `authenticate_user`: `None` plays the part of the source's `False`, the
      one failure value for an unknown user and for a wrong password alike. */
  function AuthenticateUser(h: HashScheme, users: Users, username: string, password: string): (r: Option<UserRecord>)
    requires WellFormed(users)
    ensures r.Some? <==> username in users && h.verify(password, users[username].hashedPassword)
    ensures r.Some? ==> r.value == users[username] && r.value.username == username
  {
    match GetUser(users, username)
    case None => None
    case Some(user) =>
      if !h.verify(password, user.hashedPassword) then None else Some(user)
  }

  /** The registry after `register`: a duplicate username is refused, otherwise
      the new record holds the hash of the password under `salt`. */
  function Enroll(h: HashScheme, users: Users, username: string, email: string, password: string, salt: int): (r: Result<Users>)
    ensures r.Err? <==> username in users
    ensures r.Err? ==> r.error == DuplicateUsername
    ensures r.Ok? ==> r.value.Keys == users.Keys + {username}
    ensures r.Ok? ==> forall name :: name in users ==> r.value[name] == users[name]
    ensures r.Ok? ==> r.value[username] == UserRecord(username, email, h.hash(password, salt))
  {
    if username in users then Err(DuplicateUsername)
    else Ok(users[username := UserRecord(username, email, h.hash(password, salt))])
  }

  /** Registration keeps every record under its own name. */
  lemma EnrollKeepsWellFormed(h: HashScheme, users: Users, username: string, email: string, password: string, salt: int)
    requires WellFormed(users)
    requires Enroll(h, users, username, email, password, salt).Ok?
    ensures WellFormed(Enroll(h, users, username, email, password, salt).value)
  {
    var after := Enroll(h, users, username, email, password, salt).value;
    forall name | name in after ensures after[name].username == name {
      if name != username {
        assert name in users;
      }
    }
  }

  /** Whoever registered with a password can then authenticate with it, and
      gets back exactly the stored record. */
  lemma EnrollThenAuthenticate(h: HashScheme, users: Users, username: string, email: string, password: string, salt: int)
    requires Sound(h) && WellFormed(users)
    requires username !in users
    ensures Enroll(h, users, username, email, password, salt).Ok?
    ensures WellFormed(Enroll(h, users, username, email, password, salt).value)
    ensures AuthenticateUser(h, Enroll(h, users, username, email, password, salt).value, username, password)
            == Some(UserRecord(username, email, h.hash(password, salt)))
  {
    EnrollKeepsWellFormed(h, users, username, email, password, salt);
    assert h.verify(password, h.hash(password, salt));
  }

  /** An unknown username and a wrong password give the same answer. */
  lemma FailuresIndistinguishable(h: HashScheme, users: Users, unknown: string, anyPassword: string, known: string, wrongPassword: string)
    requires WellFormed(users)
    requires unknown !in users
    requires known in users && !h.verify(wrongPassword, users[known].hashedPassword)
    ensures AuthenticateUser(h, users, unknown, anyPassword) == AuthenticateUser(h, users, known, wrongPassword) == None
  {
  }
}
