/**
 * `authenticateJWT` of `server/middlewares/auth.js`: the token is the
 * second space-separated word of the Authorization header; a missing token
 * is answered 401, a token that does not verify 403, and a verified one
 * passes its claims on to the next handler.
 *
 * `jwt.verify` is the parameter `verify`, a partial function of the token
 * and the secret.
 */
module AuthMiddleware {
  import opened Wrappers
  import opened Text
  import opened Users

  const DEFAULT_SECRET: string := "tu_secreto_jwt"
  const MSG_UNAUTHORIZED: string := "Acceso no autorizado"
  const MSG_FORBIDDEN: string := "Token inválido o expirado"

  /** `req.header('Authorization')?.split(' ')[1]`, when it is truthy. */
  function BearerToken(header: Option<string>): (token: Option<string>)
    ensures token.Some? ==> token.value != "" && ' ' !in token.value
  {
    match header
    case None => None
    case Some(h) =>
      var parts := Split(h, ' ');
      if |parts| >= 2 && parts[1] != "" then Some(parts[1]) else None
  }

  /** `process.env.JWT_SECRET || 'tu_secreto_jwt'`. */
  function VerifySecret(env: Option<string>): string {
    if env.Some? && env.value != "" then env.value else DEFAULT_SECRET
  }

  /** Which of the three ways the middleware ends. */
  datatype Outcome = Unauthorized | Forbidden | Next(claims: Claims)

  function Authenticate(header: Option<string>, env: Option<string>, verify: (string, string) -> Option<Claims>): Outcome {
    match BearerToken(header)
    case None => Unauthorized
    case Some(token) =>
      match verify(token, VerifySecret(env))
      case None => Forbidden
      case Some(claims) => Next(claims)
  }

  /**
   * The token is the word after the first space, whatever the word before
   * it: the scheme is not checked.
   */
  lemma {:induction false} TokenAfterAnyScheme(scheme: string, token: string, rest: string)
    requires ' ' !in scheme && ' ' !in token && token != ""
    requires rest == "" || rest[0] == ' '
    ensures BearerToken(Some(scheme + " " + token + rest)) == Some(token)
  {
    var h := scheme + " " + token + rest;
    assert h[..|scheme|] == scheme;
    SplitHead(h, ' ', |scheme|);
    var tail := h[|scheme| + 1..];
    assert tail == token + rest;
    if rest == "" {
      assert ' ' !in tail;
      assert Split(tail, ' ') == [tail];
    } else {
      assert tail[..|token|] == token;
      SplitHead(tail, ' ', |token|);
    }
    assert Split(h, ' ')[1] == Split(h, ' ')[1..][0] == Split(tail, ' ')[0];
    assert Split(tail, ' ')[0] == token;
    assert |Split(h, ' ')| >= 2;
  }

  /**
   * 401 exactly when there is no header, the header has no space, or the
   * word after the first space is empty.
   */
  lemma UnauthorizedExactly(header: Option<string>, env: Option<string>, verify: (string, string) -> Option<Claims>)
    ensures Authenticate(header, env, verify) == Unauthorized <==>
              header.None? || ' ' !in header.value || Split(header.value, ' ')[1] == ""
  {
  }

  /** A verified token passes exactly the claims `verify` decoded; a rejected one is 403. */
  lemma VerifiedOrForbidden(header: Option<string>, env: Option<string>, verify: (string, string) -> Option<Claims>)
    requires BearerToken(header).Some?
    ensures var o := Authenticate(header, env, verify);
            var decoded := verify(BearerToken(header).value, VerifySecret(env));
            && (decoded.None? <==> o == Forbidden)
            && (decoded.Some? ==> o == Next(decoded.value))
  {
  }

  /** One request passing through the middleware: `req.user`, the reply written, and the calls of `next`. */
  class Exchange {
    var user: Option<Claims>
    var reply: Option<Reply>
    var nextCalls: nat

    constructor ()
      ensures user.None? && reply.None? && nextCalls == 0
    {
      user := None;
      reply := None;
      nextCalls := 0;
    }
  }

  /** `authenticateJWT(req, res, next)`. */
  method AuthenticateJWT(ex: Exchange, header: Option<string>, env: Option<string>,
                         verify: (string, string) -> Option<Claims>)
    modifies ex
    ensures match Authenticate(header, env, verify)
            case Unauthorized =>
              && ex.reply == Some(Reply(401, Message(None, MSG_UNAUTHORIZED)))
              && ex.user == old(ex.user) && ex.nextCalls == old(ex.nextCalls)
            case Forbidden =>
              && ex.reply == Some(Reply(403, Message(None, MSG_FORBIDDEN)))
              && ex.user == old(ex.user) && ex.nextCalls == old(ex.nextCalls)
            case Next(claims) =>
              && ex.user == Some(claims) && ex.nextCalls == old(ex.nextCalls) + 1
              && ex.reply == old(ex.reply)
  {
    var token := BearerToken(header);
    if token.None? {
      ex.reply := Some(Reply(401, Message(None, MSG_UNAUTHORIZED)));
      return;
    }
    var decoded := verify(token.value, VerifySecret(env));
    if decoded.None? {
      ex.reply := Some(Reply(403, Message(None, MSG_FORBIDDEN)));
      return;
    }
    ex.user := decoded;
    ex.nextCalls := ex.nextCalls + 1;
  }
}
