/** The route guard of backend/middlewares/auth.middleware.js: it takes the
    token from the `Authorization` header, has it verified, and either answers
    the request itself or attaches the user id and passes it on. */
module AuthMiddleware {
  import opened JsValues
  import opened JsText
  import opened UserModel
  import opened AuthController

  const TOKEN_REQUIRED := "Access token required"
  const INVALID_TOKEN := "Invalid token"

  /** `req.headers['authorization']?.split(' ')[1]`: the second space-separated
      piece of the header, `None` when there is no header or no second piece. */
  function BearerToken(header: Option<string>): (t: Option<string>)
    ensures header.None? ==> t.None?
    ensures header.Some? ==> t == Piece(header.value, ' ', 1)
  {
    if header.None? then None else Piece(header.value, ' ', 1)
  }

  /** A header written as section 2.1 of RFC 6750 prescribes (`Bearer`, one
      space, a token without spaces) yields exactly that token. */
  lemma BearerTokenOfScheme(scheme: string, token: string)
    requires ' ' !in scheme && ' ' !in token
    ensures BearerToken(Some(scheme + " " + token)) == Some(token)
  {
    var pieces := [scheme, token];
    assert NoSeparator(pieces, ' ');
    SplitJoin(pieces, ' ');
    assert Join(pieces, ' ') == scheme + [' '] + Join([token], ' ');
  }

  /** A header without a space holds no token. */
  lemma BearerTokenNeedsSpace(header: string)
    requires ' ' !in header
    ensures BearerToken(Some(header)).None?
  {
    assert NoSeparator([header], ' ');
    SplitJoin([header], ' ');
  }

  /** What the middleware does with a request: answer it, or call `next`
      with `req.userId` set. */
  datatype Gate = Respond(code: nat, message: string) | Next(userId: ObjectId)

  /** The decision for a header. `verify` is `jwt.verify` with the server's
      secret: the decoded claims of a token it accepts (signature and expiry
      good), `None` for a token it rejects. */
  function Authorize(header: Option<string>, verify: string -> Option<Payload>): (g: Gate)
    ensures g == Respond(401, TOKEN_REQUIRED) <==> !TruthyText(BearerToken(header))
    ensures g == Respond(403, INVALID_TOKEN) <==>
      TruthyText(BearerToken(header)) && verify(BearerToken(header).value).None?
    ensures g.Next? <==> TruthyText(BearerToken(header)) && verify(BearerToken(header).value).Some?
    ensures g.Next? ==> g.userId == verify(BearerToken(header).value).value.id
  {
    var token := BearerToken(header);
    if !TruthyText(token) then Respond(401, TOKEN_REQUIRED)
    else
      var claims := verify(token.value);
      if claims.None? then Respond(403, INVALID_TOKEN) else Next(claims.value.id)
  }

  /** A request signed in with a token the server issued reaches the handler
      as that token's user. */
  lemma IssuedTokenPasses(token: string, claims: Payload, verify: string -> Option<Payload>)
    requires ' ' !in token && token != ""
    requires verify(token) == Some(claims)
    ensures Authorize(Some("Bearer " + token), verify) == Next(claims.id)
  {
    BearerTokenOfScheme("Bearer", token);
    assert "Bearer" + " " + token == "Bearer " + token;
  }

  /** The request and response objects as far as the middleware touches them. */
  class Exchange {
    var userId: Option<ObjectId>
    var status: Option<nat>
    var message: Option<string>
    /** How many times `next` has been called. */
    var nextCalls: nat

    constructor ()
      ensures userId.None? && status.None? && message.None? && nextCalls == 0
    {
      userId, status, message, nextCalls := None, None, None, 0;
    }
  }

  /** `authenticateToken(req, res, next)`: a refused request gets its answer
      and `next` is not called; an accepted one carries the token's user id and
      `next` is called exactly once. */
  method AuthenticateToken(ex: Exchange, header: Option<string>, verify: string -> Option<Payload>)
    modifies ex
    ensures Authorize(header, verify).Respond? ==>
      && ex.status == Some(Authorize(header, verify).code)
      && ex.message == Some(Authorize(header, verify).message)
      && ex.nextCalls == old(ex.nextCalls) && ex.userId == old(ex.userId)
    ensures Authorize(header, verify).Next? ==>
      && ex.userId == Some(Authorize(header, verify).userId)
      && ex.nextCalls == old(ex.nextCalls) + 1
      && ex.status == old(ex.status) && ex.message == old(ex.message)
  {
    var token := BearerToken(header);
    if !TruthyText(token) {
      ex.status, ex.message := Some(401), Some(TOKEN_REQUIRED);
      return;
    }
    var claims := verify(token.value);
    if claims.None? {
      ex.status, ex.message := Some(403), Some(INVALID_TOKEN);
      return;
    }
    ex.userId := Some(claims.value.id);
    ex.nextCalls := ex.nextCalls + 1;
  }
}
