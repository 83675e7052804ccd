/**
 * The `POST /register` route of `server/routes/auth.js`: the older
 * registration handler, which hashes the password itself, signs the token
 * with `process.env.JWT_SECRET` and no fallback, and answers every thrown
 * error with 500.
 *
 * Whether the database is reachable and whether `save` succeeds are
 * parameters (the `User` model module is not part of this model); the id,
 * the salt and the hash and sign functions are parameters too.
 */
module RouterRegister {
  import opened Wrappers
  import opened Users

  const MSG_MISSING: string := "Todos los campos son requeridos"
  const MSG_DUPLICATE: string := "El correo ya está registrado"
  const MSG_SERVER: string := "Error en el servidor. Por favor intente nuevamente."

  /** The request body; a missing field is the empty string. */
  datatype RegisterBody = RegisterBody(name: string, email: string, password: string)

  /** What the route's database calls do: `findOne` and `save` succeed or throw. */
  datatype Database = Database(reachable: bool, saveSucceeds: bool)

  /** `jwt.sign` throws when the secret is missing or empty. */
  predicate SignThrows(env: Option<string>) {
    env.None? || env.value == ""
  }

  /** The reply of the catch block. */
  const SERVER_ERROR: Reply := Reply(500, Message(Some(false), MSG_SERVER))

  /** The reply and the users collection after one request. */
  datatype Result = Result(reply: Reply, users: map<string, UserRecord>)

  /** What `router.post('/register', …)` answers and stores, as a function of the collection before it. */
  function Registration(users: map<string, UserRecord>, body: RegisterBody, db: Database, freshId: string, salt: string,
                        hash: (string, string) -> string, sign: (Claims, string) -> string, env: Option<string>): (r: Result)
    ensures r.users == users || (body.email !in users && body.email in r.users && r.users == users[body.email := r.users[body.email]])
    ensures r.reply.status == 200 <==>
              && body.name != "" && body.email != "" && body.password != ""
              && db.reachable && db.saveSucceeds && body.email !in users && !SignThrows(env)
    ensures r.users != users ==> body.email in r.users && r.users[body.email].password == hash(body.password, salt)
    ensures body.name == "" || body.email == "" || body.password == "" ==>
              r == Result(Reply(400, Message(Some(false), MSG_MISSING)), users)
    ensures body.name != "" && body.email != "" && body.password != "" ==>
              if !db.reachable then r == Result(SERVER_ERROR, users)
              else if body.email in users then r == Result(Reply(400, Message(Some(false), MSG_DUPLICATE)), users)
              else if !db.saveSucceeds then r == Result(SERVER_ERROR, users)
              else
                && r.users == users[body.email := UserRecord(freshId, body.name, body.email, hash(body.password, salt))]
                && r.reply == if SignThrows(env) then SERVER_ERROR
                              else Reply(200, Registered(sign(Claims("id", freshId), env.value),
                                                         PublicUser(freshId, body.name, body.email)))
  {
    var record := UserRecord(freshId, body.name, body.email, hash(body.password, salt));
    if body.name == "" || body.email == "" || body.password == "" then
      Result(Reply(400, Message(Some(false), MSG_MISSING)), users)
    else if !db.reachable then
      Result(SERVER_ERROR, users)
    else if body.email in users then
      Result(Reply(400, Message(Some(false), MSG_DUPLICATE)), users)
    else if !db.saveSucceeds then
      Result(SERVER_ERROR, users)
    else
      var after := users[body.email := record];
      assert after[body.email] == record;
      if SignThrows(env) then Result(SERVER_ERROR, after)
      else Result(Reply(200, Registered(sign(Claims("id", freshId), env.value), Public(record))), after)
  }

  /** `router.post('/register', …)`. */
  method Register(store: UserStore, body: RegisterBody, db: Database, freshId: string, salt: string,
                  hash: (string, string) -> string, sign: (Claims, string) -> string, env: Option<string>)
    returns (reply: Reply)
    requires store.Valid()
    modifies store
    ensures store.Valid()
    ensures Result(reply, store.users) == Registration(old(store.users), body, db, freshId, salt, hash, sign, env)
  {
    if body.name == "" || body.email == "" || body.password == "" {
      return Reply(400, Message(Some(false), MSG_MISSING));
    }
    if !db.reachable {
      return SERVER_ERROR;
    }
    var existing := store.FindOne(body.email);
    if existing.Some? {
      return Reply(400, Message(Some(false), MSG_DUPLICATE));
    }
    var hashedPassword := hash(body.password, salt);
    var newUser := UserRecord(freshId, body.name, body.email, hashedPassword);
    if !db.saveSucceeds {
      return SERVER_ERROR;
    }
    store.Insert(newUser);
    if SignThrows(env) {
      return SERVER_ERROR;
    }
    var token := sign(Claims("id", newUser.id), env.value);
    reply := Reply(200, Registered(token, Public(newUser)));
  }

  /**
   * Without a secret, a request for a new address stores the user and yet
   * answers 500; the same request sent again is then refused as a duplicate,
   * so the address can never complete registration through this route.
   */
  lemma RetryAfterMissingSecret(users: map<string, UserRecord>, body: RegisterBody, db: Database, freshId: string,
                                salt: string, hash: (string, string) -> string, sign: (Claims, string) -> string,
                                env: Option<string>, retryId: string)
    requires body.name != "" && body.email != "" && body.password != ""
    requires db.reachable && db.saveSucceeds && body.email !in users && SignThrows(env)
    ensures var first := Registration(users, body, db, freshId, salt, hash, sign, env);
            var second := Registration(first.users, body, db, retryId, salt, hash, sign, env);
            && first.reply == SERVER_ERROR && body.email in first.users
            && second.reply == Reply(400, Message(Some(false), MSG_DUPLICATE)) && second.users == first.users
  {
  }

  /** A request for an address already registered changes nothing, whatever else holds. */
  lemma DuplicateChangesNothing(users: map<string, UserRecord>, body: RegisterBody, db: Database, freshId: string,
                                salt: string, hash: (string, string) -> string, sign: (Claims, string) -> string,
                                env: Option<string>)
    requires body.email in users
    ensures Registration(users, body, db, freshId, salt, hash, sign, env).users == users
  {
  }
}
