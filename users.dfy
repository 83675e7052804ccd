/**
 * What the two registration handlers and the JWT middleware share: the
 * users collection keyed by e-mail, the user as sent back to the client,
 * token claims and the JSON replies. Hashing, signing and verifying are
 * parameters of the handlers, never computed here.
 */
module Users {
  import opened Wrappers

  /** A stored user document; `password` is whatever the handler stored. */
  datatype UserRecord = UserRecord(id: string, name: string, email: string, password: string)

  /** The user object of a reply: `{ id, name, email }`, with no password. */
  datatype PublicUser = PublicUser(id: string, name: string, email: string)

  /** The payload of a signed token: one claim naming the user's id. */
  datatype Claims = Claims(key: string, subject: string)

  /** A JSON reply body: a message (with or without `success`), or a completed registration. */
  datatype Body = Message(success: Option<bool>, message: string) | Registered(token: string, user: PublicUser)

  /** A reply: its status and its body. */
  datatype Reply = Reply(status: nat, body: Body)

  /** The user object a reply exposes for a stored record. */
  function Public(u: UserRecord): (p: PublicUser)
    ensures p.id == u.id && p.name == u.name && p.email == u.email
  {
    PublicUser(u.id, u.name, u.email)
  }

  /** The users collection, looked up by e-mail (`User.findOne({ email })`). */
  class UserStore {
    var users: map<string, UserRecord>

    /** Every user is filed under its own e-mail. */
    ghost predicate Valid()
      reads this
    {
      forall e :: e in users ==> users[e].email == e
    }

    constructor ()
      ensures Valid() && users == map[]
    {
      users := map[];
    }

    /** `User.findOne({ email })` on a reachable database. */
    function FindOne(email: string): (r: Option<UserRecord>)
      reads this
      requires Valid()
      ensures r.Some? <==> email in users
      ensures r.Some? ==> r.value == users[email] && r.value.email == email
    {
      if email in users then Some(users[email]) else None
    }

    /** Saves a new user under its e-mail. */
    method Insert(u: UserRecord)
      requires Valid()
      requires u.email !in users
      modifies this
      ensures Valid()
      ensures users == old(users)[u.email := u]
      ensures |users| == |old(users)| + 1
    {
      users := users[u.email := u];
    }
  }
}
