/**
 * The `/api/auth/register` handler of `server/server.js`, with the user
 * schema it saves through (required fields, minimum lengths, the e-mail
 * pattern), the pre-save hook that hashes the password, and the
 * classification of errors into statuses.
 *
 * The database's reachability, the new document's id, the salt, and the
 * hash and sign functions are parameters.
 */
module ServerRegister {
  import opened Wrappers
  import opened Text
  import opened Users
  import ClientAuth

  const MSG_MISSING: string := "Nombre, email y contraseña son requeridos"
  const MSG_DUPLICATE: string := "El email ya está registrado"
  const MSG_DB_DOWN: string := "Error de conexión con la base de datos"
  const MSG_SERVER: string := "Error en el servidor. Por favor intente nuevamente."
  const MSG_NAME_SHORT: string := "El nombre debe tener al menos 3 caracteres"
  const MSG_EMAIL_INVALID: string := "Por favor ingrese un email válido"
  const MSG_PASSWORD_SHORT: string := "La contraseña debe tener al menos 6 caracteres"
  const TIMEOUT_PHRASE: string := "buffering timed out"
  const DEFAULT_SECRET: string := "secret_dev"

  // ---------------------------------------------------------------------
  // The e-mail pattern /^\w+([\.-]?\w+)*@\w+([\.-]?\w+)*(\.\w{2,3})+$/
  // ---------------------------------------------------------------------

  /** `\w`. */
  predicate IsWordChar(c: char) {
    'A' <= c <= 'Z' || 'a' <= c <= 'z' || '0' <= c <= '9' || c == '_'
  }

  /** `[\.-]`. */
  predicate IsSeparator(c: char) {
    c == '.' || c == '-'
  }

  /**
   * The language of `\w+([\.-]?\w+)*`: word characters and single
   * separators, beginning and ending with a word character.
   */
  predicate DottedWord(s: string) {
    && |s| > 0 && IsWordChar(s[0]) && IsWordChar(s[|s| - 1])
    && (forall k :: 0 <= k < |s| ==> IsWordChar(s[k]) || IsSeparator(s[k]))
    && (forall k :: 0 <= k < |s| - 1 && IsSeparator(s[k]) ==> IsWordChar(s[k + 1]))
  }

  /** `\w{2,3}`. */
  predicate ShortLabel(s: string) {
    2 <= |s| <= 3 && forall k :: 0 <= k < |s| ==> IsWordChar(s[k])
  }

  /** The language of `(\.\w{2,3})+`. */
  predicate LabelTail(t: string)
    decreases |t|
  {
    && |t| >= 3 && t[0] == '.'
    && ((ShortLabel(t[1..3]) && (|t| == 3 || LabelTail(t[3..])))
        || (|t| >= 4 && ShortLabel(t[1..4]) && (|t| == 4 || LabelTail(t[4..]))))
  }

  /** The schema's `match` on `email`. */
  predicate SchemaEmail(e: string) {
    exists i, k :: 0 < i < k < |e| && e[i] == '@'
                   && DottedWord(e[..i]) && DottedWord(e[i + 1..k]) && LabelTail(e[k..])
  }

  /** Every character of a tail is a dot or a word character, and it ends with a word character. */
  lemma {:induction false} LabelTailChars(t: string)
    requires LabelTail(t)
    ensures forall k :: 0 <= k < |t| ==> t[k] == '.' || IsWordChar(t[k])
    ensures IsWordChar(t[|t| - 1])
    decreases |t|
  {
    var n := if ShortLabel(t[1..3]) && (|t| == 3 || LabelTail(t[3..])) then 3 else 4;
    assert ShortLabel(t[1..n]);
    forall k | 1 <= k < n ensures IsWordChar(t[k]) {
      assert t[k] == t[1..n][k - 1];
    }
    if |t| > n {
      LabelTailChars(t[n..]);
      forall k | n <= k < |t| ensures t[k] == '.' || IsWordChar(t[k]) {
        assert t[k] == t[n..][k - n];
      }
      assert t[|t| - 1] == t[n..][|t[n..]| - 1];
    }
  }

  /** The address ends in a dot followed by two or three word characters. */
  predicate EndsWithShortLabel(e: string) {
    || (|e| >= 3 && e[|e| - 3] == '.' && ShortLabel(e[|e| - 2..]))
    || (|e| >= 4 && e[|e| - 4] == '.' && ShortLabel(e[|e| - 3..]))
  }

  /** How a string ends does not depend on what precedes its suffix. */
  lemma EndsWithShortLabelSuffix(pre: string, t: string)
    requires EndsWithShortLabel(t)
    ensures EndsWithShortLabel(pre + t)
  {
    var e := pre + t;
    assert e[|e| - 2..] == t[|t| - 2..];
    if |t| >= 3 {
      assert e[|e| - 3] == t[|t| - 3];
    }
    if |t| >= 4 {
      assert e[|e| - 3..] == t[|t| - 3..];
      assert e[|e| - 4] == t[|t| - 4];
    }
  }

  /** The last label of a tail is two or three word characters after a dot. */
  lemma {:induction false} LabelTailEnd(t: string)
    requires LabelTail(t)
    ensures EndsWithShortLabel(t)
    decreases |t|
  {
    var n := if ShortLabel(t[1..3]) && (|t| == 3 || LabelTail(t[3..])) then 3 else 4;
    if |t| == n {
      assert t[|t| - (n - 1)..] == t[1..n];
    } else {
      LabelTailEnd(t[n..]);
      EndsWithShortLabelSuffix(t[..n], t[n..]);
      assert t[..n] + t[n..] == t;
    }
  }

  /** An address the schema accepts ends in a dot and a final label of two or three word characters. */
  lemma SchemaEmailFinalLabel(e: string)
    ensures SchemaEmail(e) ==> EndsWithShortLabel(e)
  {
    if SchemaEmail(e) {
      var i, k :| 0 < i < k < |e| && e[i] == '@'
                  && DottedWord(e[..i]) && DottedWord(e[i + 1..k]) && LabelTail(e[k..]);
      LabelTailEnd(e[k..]);
      EndsWithShortLabelSuffix(e[..k], e[k..]);
      assert e[..k] + e[k..] == e;
    }
  }

  /** Word characters and separators are neither blanks nor '@'. */
  lemma PatternCharIsRunChar(c: char)
    requires IsWordChar(c) || IsSeparator(c)
    ensures !IsWhitespace(c) && c != '@'
  {
  }

  /** A dotted word is one of the client's runs. */
  lemma DottedWordIsRun(s: string)
    requires DottedWord(s)
    ensures ClientAuth.EmailRun(s)
  {
    forall k | 0 <= k < |s| ensures !IsWhitespace(s[k]) && s[k] != '@' {
      PatternCharIsRunChar(s[k]);
    }
  }

  /** What follows the first dot of a tail is one of the client's runs. */
  lemma LabelTailRestIsRun(t: string)
    requires LabelTail(t)
    ensures ClientAuth.EmailRun(t[1..])
  {
    LabelTailChars(t);
    forall k | 0 <= k < |t[1..]| ensures !IsWhitespace(t[1..][k]) && t[1..][k] != '@' {
      assert t[1..][k] == t[k + 1];
      PatternCharIsRunChar(t[k + 1]);
    }
  }

  /**
   * The server's pattern is stricter than the client's `validateEmail`:
   * every address the schema accepts passes the client check.
   */
  lemma SchemaEmailIsClientEmail(e: string)
    requires SchemaEmail(e)
    ensures ClientAuth.ValidateEmail(e)
  {
    var i, k :| 0 < i < k < |e| && e[i] == '@'
                && DottedWord(e[..i]) && DottedWord(e[i + 1..k]) && LabelTail(e[k..]);
    DottedWordIsRun(e[..i]);
    DottedWordIsRun(e[i + 1..k]);
    LabelTailRestIsRun(e[k..]);
    assert e[k..][1..] == e[k + 1..];
    assert e[k] == e[k..][0] == '.';
  }

  /** The client accepts "a@b.info"; the schema refuses it, its last label being four letters long. */
  lemma ClientOnlyAddress()
    ensures ClientAuth.ValidateEmail("a@b.info")
    ensures !SchemaEmail("a@b.info")
  {
    var e := "a@b.info";
    assert ClientAuth.EmailRun(e[..1]) && ClientAuth.EmailRun(e[2..3]) && ClientAuth.EmailRun(e[4..]);
    assert e[1] == '@' && e[3] == '.';
    SchemaEmailFinalLabel(e);
    assert e[|e| - 3] != '.' && e[|e| - 4] != '.';
  }

  // ---------------------------------------------------------------------
  // Schema validation and the pre-save hook
  // ---------------------------------------------------------------------

  /**
   * The messages of the schema's failed validators for a document whose
   * three fields are non-empty, in the order of the schema's paths.
   */
  function ValidationMessages(name: string, email: string, password: string): (msgs: seq<string>)
    ensures msgs == [] <==> |name| >= 3 && SchemaEmail(email) && |password| >= 6
    ensures MSG_NAME_SHORT in msgs <==> |name| < 3
    ensures MSG_EMAIL_INVALID in msgs <==> !SchemaEmail(email)
    ensures MSG_PASSWORD_SHORT in msgs <==> |password| < 6
  {
    (if |name| < 3 then [MSG_NAME_SHORT] else [])
    + (if SchemaEmail(email) then [] else [MSG_EMAIL_INVALID])
    + (if |password| < 6 then [MSG_PASSWORD_SHORT] else [])
  }

  /** A user document before it is saved. */
  class UserDocument {
    var name: string
    var email: string
    var password: string
    var passwordModified: bool

    /** `new User({ name, email, password })`: every path it sets counts as modified. */
    constructor (name: string, email: string, password: string)
      ensures this.name == name && this.email == email && this.password == password
      ensures passwordModified
    {
      this.name := name;
      this.email := email;
      this.password := password;
      passwordModified := true;
    }

    /** The `pre('save')` hook: the password is replaced by its hash only when it was modified. */
    method PreSave(salt: string, hash: (string, string) -> string)
      modifies this
      ensures password == if old(passwordModified) then hash(old(password), salt) else old(password)
      ensures name == old(name) && email == old(email) && passwordModified == old(passwordModified)
    {
      if !passwordModified {
        return;
      }
      password := hash(password, salt);
    }
  }

  // ---------------------------------------------------------------------
  // Errors
  // ---------------------------------------------------------------------

  /** A thrown error as the catch block reads it. */
  datatype ServerError = ServerError(name: string, code: Option<int>, message: string, fieldMessages: seq<string>)

  /**
   * The catch block: the status and message for an error, tried in order:
   * validation, duplicate key, buffering timeout, anything else.
   */
  method ClassifyError(error: ServerError) returns (statusCode: nat, errorMessage: string)
    ensures error.name == "ValidationError" ==> statusCode == 400 && errorMessage == Join(error.fieldMessages, ", ")
    ensures error.name != "ValidationError" && error.code == Some(11000) ==>
              statusCode == 409 && errorMessage == MSG_DUPLICATE
    ensures error.name != "ValidationError" && error.code != Some(11000) && Contains(error.message, TIMEOUT_PHRASE) ==>
              statusCode == 503 && errorMessage == MSG_DB_DOWN
    ensures error.name != "ValidationError" && error.code != Some(11000) && !Contains(error.message, TIMEOUT_PHRASE) ==>
              statusCode == 500 && errorMessage == MSG_SERVER
  {
    errorMessage := MSG_SERVER;
    statusCode := 500;
    if error.name == "ValidationError" {
      errorMessage := Join(error.fieldMessages, ", ");
      statusCode := 400;
    } else if error.code == Some(11000) {
      errorMessage := MSG_DUPLICATE;
      statusCode := 409;
    } else if Contains(error.message, TIMEOUT_PHRASE) {
      errorMessage := MSG_DB_DOWN;
      statusCode := 503;
    }
  }

  /**
   * The message of the error Mongoose raises when an operation waits for a
   * lost connection longer than its buffering timeout.
   */
  function BufferingMessage(operation: string, timeoutMs: nat): string {
    "Operation `" + operation + "` " + TIMEOUT_PHRASE + " after " + NatToString(timeoutMs) + "ms"
  }

  /**
   * Whatever the operation and the timeout, the buffering-timeout message
   * holds the phrase the catch block looks for, so it is answered 503.
   */
  lemma BufferingTimeoutIsDbDown(operation: string, timeoutMs: nat)
    ensures Contains(BufferingMessage(operation, timeoutMs), TIMEOUT_PHRASE)
  {
    var pre := "Operation `" + operation + "` ";
    var post := " after " + NatToString(timeoutMs) + "ms";
    assert BufferingMessage(operation, timeoutMs) == pre + TIMEOUT_PHRASE + post;
    ContainsSelfAndEmpty(TIMEOUT_PHRASE);
    ContainsInContext(pre, TIMEOUT_PHRASE, post, TIMEOUT_PHRASE);
  }

  /** `process.env.JWT_SECRET || 'secret_dev'`. */
  function SignSecret(env: Option<string>): string {
    if env.Some? && env.value != "" then env.value else DEFAULT_SECRET
  }

  /** The request body; a missing field is the empty string. */
  datatype RegisterBody = RegisterBody(name: string, email: string, password: string)

  /**
   * `POST /api/auth/register`. `connected` is false when the connection was
   * lost after start-up, so that `users.findOne()` waits out Mongoose's
   * 10000 ms buffering timeout; `freshId` is the id the new document gets.
   */
  method Register(store: UserStore, body: RegisterBody, connected: bool, freshId: string, salt: string,
                  hash: (string, string) -> string, sign: (Claims, string) -> string, env: Option<string>)
    returns (reply: Reply)
    requires store.Valid()
    modifies store
    ensures store.Valid()
    ensures body.name == "" || body.email == "" || body.password == "" ==>
              reply == Reply(400, Message(Some(false), MSG_MISSING)) && store.users == old(store.users)
    ensures body.name != "" && body.email != "" && body.password != "" ==>
              if !connected then
                reply == Reply(503, Message(Some(false), MSG_DB_DOWN)) && store.users == old(store.users)
              else if body.email in old(store.users) then
                reply == Reply(409, Message(Some(false), MSG_DUPLICATE)) && store.users == old(store.users)
              else if ValidationMessages(body.name, body.email, body.password) != [] then
                && reply == Reply(400, Message(Some(false), Join(ValidationMessages(body.name, body.email, body.password), ", ")))
                && store.users == old(store.users)
              else
                && reply == Reply(201, Registered(sign(Claims("userId", freshId), SignSecret(env)),
                                                  PublicUser(freshId, body.name, body.email)))
                && store.users == old(store.users)[body.email := UserRecord(freshId, body.name, body.email, hash(body.password, salt))]
  {
    if body.name == "" || body.email == "" || body.password == "" {
      return Reply(400, Message(Some(false), MSG_MISSING));
    }
    var error: Option<ServerError> := None;
    if !connected {
      error := Some(ServerError("MongooseError", None, BufferingMessage("users.findOne()", 10000), []));
    } else if store.FindOne(body.email).Some? {
      return Reply(409, Message(Some(false), MSG_DUPLICATE));
    } else {
      var doc := new UserDocument(body.name, body.email, body.password);
      var failures := ValidationMessages(doc.name, doc.email, doc.password);
      if failures != [] {
        error := Some(ServerError("ValidationError", None, "User validation failed", failures));
      } else {
        doc.PreSave(salt, hash);
        var saved := UserRecord(freshId, doc.name, doc.email, doc.password);
        store.Insert(saved);
        var token := sign(Claims("userId", saved.id), SignSecret(env));
        return Reply(201, Registered(token, Public(saved)));
      }
    }
    BufferingTimeoutIsDbDown("users.findOne()", 10000);
    var status, message := ClassifyError(error.value);
    reply := Reply(status, Message(Some(false), message));
  }
}
