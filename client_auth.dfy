/**
 * The browser-side session logic of `public/auth.js`: the registration
 * validation chain, the e-mail shape check, login/register/logout over
 * `localStorage`, the token-expiry check and the route guard.
 *
 * The network reply, the clock and the token decoder (`JSON.parse(atob(…))`)
 * are parameters. A form field that is missing counts as the empty string:
 * both are falsy.
 */
module ClientAuth {
  import opened Wrappers
  import opened Text

  const MSG_REQUIRED: string := "Todos los campos son requeridos"
  const MSG_MISMATCH: string := "Las contraseñas no coinciden"
  const MSG_SHORT_PASSWORD: string := "La contraseña debe tener al menos 6 caracteres"
  const MSG_BAD_EMAIL: string := "El correo electrónico no es válido"
  const MSG_INCOMPLETE: string := "Respuesta del servidor incompleta"
  const MSG_OFFLINE: string := "No se pudo conectar con el servidor. Verifica tu conexión."
  const MSG_REGISTERED: string := "¡Registro exitoso! Redirigiendo..."
  const MSG_LOGIN_REQUIRED: string := "Email y contraseña son requeridos"
  const MSG_LOGIN_DEFAULT: string := "Error al iniciar sesión"
  const REGISTER_ERROR: string := "Error en el registro"
  const LOGIN_ERROR: string := "Error en el login"

  const HOME: string := "/index.html"
  const LOGOUT_TARGET: string := "/login.html?logout=true"
  const LOGIN_REDIRECT: string := "/login.html?redirect="
  const PUBLIC_ROUTES: seq<string> := ["/login.html", "/register.html"]

  // ---------------------------------------------------------------------
  // E-mail shape: /^[^\s@]+@[^\s@]+\.[^\s@]+$/
  // ---------------------------------------------------------------------

  /** One `[^\s@]+` run: non-empty, with no whitespace and no '@'. */
  predicate EmailRun(t: string) {
    |t| > 0 && forall k :: 0 <= k < |t| ==> !IsWhitespace(t[k]) && t[k] != '@'
  }

  /** `validateEmail`: the whole string is a run, '@', a run, '.', a run. */
  predicate ValidateEmail(email: string) {
    exists i, j :: 0 <= i < j < |email| && email[i] == '@' && email[j] == '.'
                   && EmailRun(email[..i]) && EmailRun(email[i + 1..j]) && EmailRun(email[j + 1..])
  }

  /**
   * The same language described without backtracking: no whitespace, a
   * non-empty part before the first '@', no second '@', and a '.' after it
   * that is neither the first character of the domain nor the last character.
   */
  predicate EmailLayout(email: string) {
    var at := IndexOf(email, '@');
    && (forall k :: 0 <= k < |email| ==> !IsWhitespace(email[k]))
    && 0 < at && at + 3 <= |email|
    && '@' !in email[at + 1..]
    && '.' in email[at + 2..|email| - 1]
  }

  /** The regular expression and the layout accept the same strings. */
  lemma ValidateEmailLayout(email: string)
    ensures ValidateEmail(email) <==> EmailLayout(email)
  {
    if ValidateEmail(email) {
      var i, j :| 0 <= i < j < |email| && email[i] == '@' && email[j] == '.'
                  && EmailRun(email[..i]) && EmailRun(email[i + 1..j]) && EmailRun(email[j + 1..]);
      LayoutOfRuns(email, i, j);
    }
    if EmailLayout(email) {
      var at := IndexOf(email, '@');
      var m :| 0 <= m < |email[at + 2..|email| - 1]| && email[at + 2..|email| - 1][m] == '.';
      LayoutSingleAt(email);
      RunsOfLayout(email, at, at + 2 + m);
    }
  }

  lemma LayoutOfRuns(email: string, i: nat, j: nat)
    requires 0 <= i < j < |email| && email[i] == '@' && email[j] == '.'
    requires EmailRun(email[..i]) && EmailRun(email[i + 1..j]) && EmailRun(email[j + 1..])
    ensures EmailLayout(email)
  {
    forall k | 0 <= k < i ensures email[k] != '@' {
      assert email[k] == email[..i][k];
    }
    assert IndexOf(email, '@') == i;
    forall k | 0 <= k < |email| ensures !IsWhitespace(email[k]) && (k != i ==> email[k] != '@') {
      if k < i {
        assert email[k] == email[..i][k];
      } else if i < k < j {
        assert email[k] == email[i + 1..j][k - i - 1];
      } else if j < k {
        assert email[k] == email[j + 1..][k - j - 1];
      }
    }
    assert '@' !in email[i + 1..];
    assert email[i + 2..|email| - 1][j - i - 2] == '.';
  }

  lemma RunsOfLayout(email: string, i: nat, j: nat)
    requires forall k :: 0 <= k < |email| ==> !IsWhitespace(email[k])
    requires forall k :: 0 <= k < |email| && k != i ==> email[k] != '@'
    requires 0 < i && i + 2 <= j < |email| - 1 && email[i] == '@' && email[j] == '.'
    ensures ValidateEmail(email)
  {
    RunOfSlice(email, 0, i);
    RunOfSlice(email, i + 1, j);
    RunOfSlice(email, j + 1, |email|);
    assert email[..i] == email[0..i] && email[j + 1..] == email[j + 1..|email|];
    RunsAreEmail(email, i, j);
  }

  /** Three runs around an '@' and a '.' make an address `validateEmail` accepts. */
  lemma RunsAreEmail(email: string, i: nat, j: nat)
    requires 0 <= i < j < |email| && email[i] == '@' && email[j] == '.'
    requires EmailRun(email[..i]) && EmailRun(email[i + 1..j]) && EmailRun(email[j + 1..])
    ensures ValidateEmail(email)
  {
  }

  /** A stretch of a blank-free `email` with no '@' is a run. */
  lemma RunOfSlice(email: string, lo: nat, hi: nat)
    requires lo < hi <= |email|
    requires forall k :: 0 <= k < |email| ==> !IsWhitespace(email[k])
    requires forall k :: lo <= k < hi ==> email[k] != '@'
    ensures EmailRun(email[lo..hi])
  {
    forall k | 0 <= k < hi - lo ensures !IsWhitespace(email[lo..hi][k]) && email[lo..hi][k] != '@' {
      assert email[lo..hi][k] == email[lo + k];
    }
  }

  /** Under the layout, the first '@' is the only one. */
  lemma LayoutSingleAt(email: string)
    requires EmailLayout(email)
    ensures forall k :: 0 <= k < |email| && k != IndexOf(email, '@') ==> email[k] != '@'
  {
    var at := IndexOf(email, '@');
    OnlyAt(email, at);
  }

  /** No '@' before `at` and none after it: `at` is the only '@'. */
  lemma OnlyAt(email: string, at: nat)
    requires at < |email|
    requires forall i :: 0 <= i < at ==> email[i] != '@'
    requires '@' !in email[at + 1..]
    ensures forall k :: 0 <= k < |email| && k != at ==> email[k] != '@'
  {
    forall k | at < k < |email| ensures email[k] != '@' {
      assert email[k] == email[at + 1..][k - at - 1];
    }
  }

  /**
   * `validateEmail` rejects a string with whitespace in it, one with no '@',
   * and one with two '@'.
   */
  lemma EmailRejections(email: string, k1: nat, k2: nat)
    ensures k1 < |email| && IsWhitespace(email[k1]) ==> !ValidateEmail(email)
    ensures '@' !in email ==> !ValidateEmail(email)
    ensures k1 < k2 < |email| && email[k1] == '@' && email[k2] == '@' ==> !ValidateEmail(email)
  {
    ValidateEmailLayout(email);
    if EmailLayout(email) {
      LayoutSingleAt(email);
    }
  }

  /** An example address `validateEmail` rejects. */
  lemma RejectedExample()
    ensures !ValidateEmail("not-an-email")
  {
    EmailRejections("not-an-email", 0, 0);
  }

  /** An example address `validateEmail` accepts. */
  lemma AcceptedExample()
    ensures ValidateEmail("user@example.com")
  {
    var good := "user@example.com";
    assert good[..4] == "user" && good[5..12] == "example" && good[13..] == "com";
    assert EmailRun(good[..4]) && EmailRun(good[5..12]) && EmailRun(good[13..]);
    assert good[4] == '@' && good[12] == '.';
  }

  // ---------------------------------------------------------------------
  // Registration and login
  // ---------------------------------------------------------------------

  /** The registration form; a missing field is the empty string. */
  datatype RegistrationForm = RegistrationForm(name: string, email: string, password: string, confirmPassword: string)

  /**
   * The first rule of the registration chain that the form breaks: all four
   * fields, then matching passwords, then the password length, then the
   * e-mail shape.
   */
  function RegistrationError(f: RegistrationForm): (r: Option<string>)
    ensures r == Some(MSG_REQUIRED) <==> f.name == "" || f.email == "" || f.password == "" || f.confirmPassword == ""
    ensures r == Some(MSG_MISMATCH) <==>
              f.name != "" && f.email != "" && f.password != "" && f.confirmPassword != ""
              && f.password != f.confirmPassword
    ensures r == Some(MSG_SHORT_PASSWORD) <==>
              f.name != "" && f.email != "" && f.password != "" && f.confirmPassword != ""
              && f.password == f.confirmPassword && |f.password| < 6
    ensures r == Some(MSG_BAD_EMAIL) <==>
              f.name != "" && f.email != "" && f.password == f.confirmPassword && |f.password| >= 6
              && !ValidateEmail(f.email)
    ensures r.None? <==>
              f.name != "" && f.email != "" && f.password == f.confirmPassword && |f.password| >= 6
              && ValidateEmail(f.email)
  {
    if f.name == "" || f.email == "" || f.password == "" || f.confirmPassword == "" then Some(MSG_REQUIRED)
    else if f.password != f.confirmPassword then Some(MSG_MISMATCH)
    else if |f.password| < 6 then Some(MSG_SHORT_PASSWORD)
    else if !ValidateEmail(f.email) then Some(MSG_BAD_EMAIL)
    else None
  }

  /**
   * A JSON body as the client reads it: text that does not parse (with the
   * parser's error message), or the fields the client looks at. `user` is
   * the JSON text of the user object.
   */
  datatype JsonBody = Unparsable(error: string) | Parsed(message: Option<string>, token: Option<string>, user: Option<string>)

  /** What `fetch` gives: a rejected promise with its error message, or a status and a body. */
  datatype Reply = FetchFailed(error: string) | HttpReply(status: nat, body: JsonBody)

  /** How a register or login call ends: signed in, or rejected with an error message. */
  datatype Outcome = SignedIn(token: string, user: string) | Failed(message: string)

  /** The outcome together with whether a request was sent at all. */
  datatype Attempt = Attempt(outcome: Outcome, fetched: bool)

  /** A JavaScript string value that is truthy: present and not empty. */
  predicate Truthy(v: Option<string>) {
    v.Some? && v.value != ""
  }

  /** `response.ok`. */
  predicate IsOkStatus(status: nat) {
    200 <= status <= 299
  }

  /** The default error message for a non-ok status, e.g. "Error en el login (401)". */
  function StatusMessage(prefix: string, status: nat): string {
    prefix + " (" + NatToString(status) + ")"
  }

  /** What the client makes of the server's reply, shared by register and login. */
  function ReplyOutcome(reply: Reply, prefix: string): Outcome {
    match reply
    case FetchFailed(error) => Failed(error)
    case HttpReply(status, body) =>
      if !IsOkStatus(status) then
        Failed(if body.Parsed? && Truthy(body.message) then body.message.value else StatusMessage(prefix, status))
      else
        match body
        case Unparsable(error) => Failed(error)
        case Parsed(_, token, user) =>
          if Truthy(token) && user.Some? then SignedIn(token.value, user.value) else Failed(MSG_INCOMPLETE)
  }

  /** `Auth.register`: the validation chain, then the request. */
  function RegistrationAttempt(f: RegistrationForm, reply: Reply): Attempt {
    match RegistrationError(f)
    case Some(message) => Attempt(Failed(message), false)
    case None => Attempt(ReplyOutcome(reply, REGISTER_ERROR), true)
  }

  /** `Auth.login`: both fields, then the request. */
  function LoginAttempt(email: string, password: string, reply: Reply): Attempt {
    if email == "" || password == "" then Attempt(Failed(MSG_LOGIN_REQUIRED), false)
    else Attempt(ReplyOutcome(reply, LOGIN_ERROR), true)
  }

  /** The message register shows for an error: a failed connection gets a friendlier text. */
  function RegisterShown(message: string): (shown: string)
    ensures Contains(message, "Failed to fetch") ==> shown == MSG_OFFLINE
    ensures !Contains(message, "Failed to fetch") ==> shown == message
  {
    if Contains(message, "Failed to fetch") then MSG_OFFLINE else message
  }

  /** The message login shows for an error: an empty message gets a default text. */
  function LoginShown(message: string): (shown: string)
    ensures shown != ""
    ensures message != "" ==> shown == message
  {
    if message == "" then MSG_LOGIN_DEFAULT else message
  }

  /** A form that breaks a rule is rejected with that rule's message, and no request is sent. */
  lemma InvalidFormNotSent(f: RegistrationForm, reply: Reply)
    requires RegistrationError(f).Some?
    ensures RegistrationAttempt(f, reply) == Attempt(Failed(RegistrationError(f).value), false)
  {
  }

  /**
   * A call signs in exactly when the server answered with an ok status and a
   * body carrying a non-empty token and a user; those are what is kept.
   */
  lemma SignedInExactly(reply: Reply, prefix: string)
    ensures ReplyOutcome(reply, prefix).SignedIn? <==>
              && reply.HttpReply? && IsOkStatus(reply.status) && reply.body.Parsed?
              && Truthy(reply.body.token) && reply.body.user.Some?
    ensures ReplyOutcome(reply, prefix).SignedIn? ==>
              ReplyOutcome(reply, prefix) == SignedIn(reply.body.token.value, reply.body.user.value)
  {
  }

  /**
   * For a non-ok status the error is the server's message when it sent one,
   * and otherwise a default that names the status.
   */
  lemma NonOkMessage(status: nat, body: JsonBody, prefix: string)
    requires !IsOkStatus(status)
    ensures var o := ReplyOutcome(HttpReply(status, body), prefix);
            && o.Failed?
            && (body.Parsed? && Truthy(body.message) ==> o.message == body.message.value)
            && (!(body.Parsed? && Truthy(body.message)) ==>
                  && StartsWith(o.message, prefix)
                  && Contains(o.message, NatToString(status)))
  {
    var digits := NatToString(status);
    ContainsSelfAndEmpty(digits);
    ContainsInContext(prefix + " (", digits, ")", digits);
  }

  // ---------------------------------------------------------------------
  // Session check
  // ---------------------------------------------------------------------

  /** The decoded token payload: its `exp` claim in seconds, if any. */
  datatype Payload = Payload(exp: Option<int>)

  /** What `isAuthenticated` finds in storage. */
  datatype Session = NoToken | Unreadable | Expired | Active

  /**
   * The payload segment `token.split('.')[1]`; when it is missing, `atob`
   * receives `undefined`, which it reads as the text "undefined".
   */
  function PayloadSegment(token: string): string {
    var parts := Split(token, '.');
    if |parts| >= 2 then parts[1] else "undefined"
  }

  /**
   * The state of the stored token at `nowMs` milliseconds: `decode` stands
   * for `JSON.parse(atob(…))` and gives `None` when either throws. An `exp`
   * of 0 is falsy and counts as absent.
   */
  function SessionAt(storage: map<string, string>, nowMs: int, decode: string -> Option<Payload>): Session {
    if "token" !in storage || storage["token"] == "" then NoToken
    else
      match decode(PayloadSegment(storage["token"]))
      case None => Unreadable
      case Some(p) => if p.exp.Some? && p.exp.value != 0 && p.exp.value * 1000 < nowMs then Expired else Active
  }

  /**
   * A session that is active at some moment was active at every earlier
   * moment, and one that has expired stays expired.
   */
  lemma ExpiryIsMonotone(storage: map<string, string>, t1: int, t2: int, decode: string -> Option<Payload>)
    requires t1 <= t2
    ensures SessionAt(storage, t2, decode) == Active ==> SessionAt(storage, t1, decode) == Active
    ensures SessionAt(storage, t1, decode) == Expired ==> SessionAt(storage, t2, decode) == Expired
  {
  }

  /**
   * The session is active exactly when a non-empty token decodes to a
   * payload whose `exp` is absent, zero, or not before the current second.
   */
  lemma ActiveExactly(storage: map<string, string>, nowMs: int, decode: string -> Option<Payload>)
    ensures SessionAt(storage, nowMs, decode) == Active <==>
              && "token" in storage && storage["token"] != ""
              && var p := decode(PayloadSegment(storage["token"]));
                 p.Some? && (p.value.exp.None? || p.value.exp.value == 0 || p.value.exp.value * 1000 >= nowMs)
  {
  }

  // ---------------------------------------------------------------------
  // URL encoding of the redirect target
  // ---------------------------------------------------------------------

  /** The characters `encodeURIComponent` leaves as they are. */
  predicate IsUriUnreserved(c: char) {
    'A' <= c <= 'Z' || 'a' <= c <= 'z' || '0' <= c <= '9'
    || c == '-' || c == '_' || c == '.' || c == '!' || c == '~' || c == '*' || c == '\'' || c == '(' || c == ')'
  }

  /** An upper-case hexadecimal digit. */
  predicate IsUpperHex(c: char) {
    '0' <= c <= '9' || 'A' <= c <= 'F'
  }

  /** A character `encodeURIComponent` may produce. */
  predicate IsEncodedChar(c: char) {
    IsUriUnreserved(c) || c == '%' || IsUpperHex(c)
  }

  function HexDigit(n: nat): (c: char)
    requires n < 16
    ensures IsUpperHex(c)
  {
    "0123456789ABCDEF"[n]
  }

  /** The UTF-8 bytes of a character. */
  function Utf8(c: char): (bytes: seq<nat>)
    ensures 1 <= |bytes| <= 4
    ensures forall k :: 0 <= k < |bytes| ==> bytes[k] < 256
    ensures c as int < 0x80 <==> bytes == [c as int]
  {
    var n := c as int;
    if n < 0x80 then [n]
    else if n < 0x800 then [0xC0 + n / 64, 0x80 + n % 64]
    else if n < 0x10000 then [0xE0 + n / 4096, 0x80 + (n / 64) % 64, 0x80 + n % 64]
    else [0xF0 + n / 262144, 0x80 + (n / 4096) % 64, 0x80 + (n / 64) % 64, 0x80 + n % 64]
  }

  /** `%XX` for each byte. */
  function PercentBytes(bytes: seq<nat>): (r: string)
    requires forall k :: 0 <= k < |bytes| ==> bytes[k] < 256
    ensures |r| == 3 * |bytes|
    ensures forall k :: 0 <= k < |r| ==> r[k] == '%' || IsUpperHex(r[k])
    ensures |bytes| > 0 ==> r[0] == '%'
  {
    if bytes == [] then ""
    else ['%', HexDigit(bytes[0] / 16), HexDigit(bytes[0] % 16)] + PercentBytes(bytes[1..])
  }

  /** One character of `encodeURIComponent`. */
  function EncodeChar(c: char): (r: string)
    ensures IsUriUnreserved(c) ==> r == [c]
    ensures !IsUriUnreserved(c) ==> |r| >= 3 && r[0] == '%'
    ensures forall k :: 0 <= k < |r| ==> IsEncodedChar(r[k])
  {
    if IsUriUnreserved(c) then [c] else PercentBytes(Utf8(c))
  }

  /**
   * `encodeURIComponent(s)`: unreserved characters stay, every other
   * character becomes the `%XX` escapes of its UTF-8 bytes.
   */
  function EncodeURIComponent(s: string): (r: string)
    ensures forall k :: 0 <= k < |r| ==> IsEncodedChar(r[k])
    ensures (forall k :: 0 <= k < |s| ==> IsUriUnreserved(s[k])) ==> r == s
    ensures |r| >= |s|
    decreases |s|
  {
    if s == [] then ""
    else
      var head := EncodeChar(s[0]);
      var tail := EncodeURIComponent(s[1..]);
      EncodedConcat(head, tail);
      head + tail
  }

  /** Joining two encoded strings gives an encoded string. */
  lemma EncodedConcat(a: string, b: string)
    requires forall k :: 0 <= k < |a| ==> IsEncodedChar(a[k])
    requires forall k :: 0 <= k < |b| ==> IsEncodedChar(b[k])
    ensures forall k :: 0 <= k < |a + b| ==> IsEncodedChar((a + b)[k])
  {
    forall k | 0 <= k < |a + b| ensures IsEncodedChar((a + b)[k]) {
      if k < |a| {
        assert (a + b)[k] == a[k];
      } else {
        assert (a + b)[k] == b[k - |a|];
      }
    }
  }

  /**
   * The encoded path is a single query value: it holds none of the
   * characters that would end it or start another component.
   */
  lemma RedirectValueIsOpaque(path: string)
    ensures var v := EncodeURIComponent(path);
            '&' !in v && '#' !in v && '?' !in v && '/' !in v && '=' !in v && ' ' !in v
  {
  }

  // ---------------------------------------------------------------------
  // The browser: localStorage and window.location
  // ---------------------------------------------------------------------

  class Browser {
    var storage: map<string, string>
    var location: string

    constructor (storage: map<string, string>, location: string)
      ensures this.storage == storage && this.location == location
    {
      this.storage := storage;
      this.location := location;
    }

    /**
     * `Auth.register`: on success keeps the token and the user and sends the
     * page home (after a delay the model leaves out); on failure changes
     * nothing. `shown` is the message put on screen.
     */
    method Register(form: RegistrationForm, reply: Reply) returns (outcome: Outcome, fetched: bool, shown: string)
      modifies this
      ensures Attempt(outcome, fetched) == RegistrationAttempt(form, reply)
      ensures outcome.SignedIn? ==>
                storage == old(storage)["token" := outcome.token]["user" := outcome.user] && location == HOME
      ensures outcome.Failed? ==> storage == old(storage) && location == old(location)
      ensures shown == if outcome.SignedIn? then MSG_REGISTERED else RegisterShown(outcome.message)
    {
      var error := RegistrationError(form);
      if error.Some? {
        return Failed(error.value), false, RegisterShown(error.value);
      }
      fetched := true;
      outcome := ReplyOutcome(reply, REGISTER_ERROR);
      if outcome.SignedIn? {
        storage := storage["token" := outcome.token];
        storage := storage["user" := outcome.user];
        location := HOME;
        shown := MSG_REGISTERED;
      } else {
        shown := RegisterShown(outcome.message);
      }
    }

    /** `Auth.login`: on success keeps the token and the user and goes home at once. */
    method Login(email: string, password: string, reply: Reply) returns (outcome: Outcome, fetched: bool, shown: Option<string>)
      modifies this
      ensures Attempt(outcome, fetched) == LoginAttempt(email, password, reply)
      ensures outcome.SignedIn? ==>
                storage == old(storage)["token" := outcome.token]["user" := outcome.user] && location == HOME
      ensures outcome.Failed? ==> storage == old(storage) && location == old(location)
      ensures shown == if outcome.SignedIn? then None else Some(LoginShown(outcome.message))
    {
      if email == "" || password == "" {
        return Failed(MSG_LOGIN_REQUIRED), false, Some(LoginShown(MSG_LOGIN_REQUIRED));
      }
      fetched := true;
      outcome := ReplyOutcome(reply, LOGIN_ERROR);
      if outcome.SignedIn? {
        storage := storage["token" := outcome.token];
        storage := storage["user" := outcome.user];
        location := HOME;
        shown := None;
      } else {
        shown := Some(LoginShown(outcome.message));
      }
    }

    /** `Auth.logout`: forgets exactly the token and the user and goes to the login page. */
    method Logout()
      modifies this
      ensures storage == old(storage) - {"token", "user"}
      ensures location == LOGOUT_TARGET
    {
      storage := storage - {"token"};
      storage := storage - {"user"};
      location := LOGOUT_TARGET;
    }

    /** `Auth.isAuthenticated` at `nowMs`: an expired token logs out; nothing else changes anything. */
    method IsAuthenticated(nowMs: int, decode: string -> Option<Payload>) returns (r: bool)
      modifies this
      ensures r <==> SessionAt(old(storage), nowMs, decode) == Active
      ensures SessionAt(old(storage), nowMs, decode) == Expired ==>
                storage == old(storage) - {"token", "user"} && location == LOGOUT_TARGET
      ensures SessionAt(old(storage), nowMs, decode) != Expired ==>
                storage == old(storage) && location == old(location)
    {
      if "token" !in storage || storage["token"] == "" {
        return false;
      }
      var payload := decode(PayloadSegment(storage["token"]));
      if payload.None? {
        return false;
      }
      var exp := payload.value.exp;
      if exp.Some? && exp.value != 0 && exp.value * 1000 < nowMs {
        Logout();
        return false;
      }
      return true;
    }

    /**
     * The `DOMContentLoaded` route guard on `path`: a signed-in user is sent
     * home from the login and register pages, a user who is not signed in
     * is sent from any other page to the login page with the path to come
     * back to.
     */
    method RouteGuard(path: string, nowMs: int, decode: string -> Option<Payload>)
      modifies this
      ensures var s := SessionAt(old(storage), nowMs, decode);
              && (s == Expired ==> storage == old(storage) - {"token", "user"})
              && (s != Expired ==> storage == old(storage))
              && (path in PUBLIC_ROUTES && s == Active ==> location == HOME)
              && (path in PUBLIC_ROUTES && s == Expired ==> location == LOGOUT_TARGET)
              && (path in PUBLIC_ROUTES && (s == NoToken || s == Unreadable) ==> location == old(location))
              && (path !in PUBLIC_ROUTES && s == Active ==> location == old(location))
              && (path !in PUBLIC_ROUTES && s != Active ==> location == LOGIN_REDIRECT + EncodeURIComponent(path))
    {
      var authenticated := IsAuthenticated(nowMs, decode);
      if path in PUBLIC_ROUTES {
        if authenticated {
          location := HOME;
        }
      } else if !authenticated {
        location := LOGIN_REDIRECT + EncodeURIComponent(path);
      }
    }
  }
}
