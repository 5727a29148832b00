/** The authentication middlewares (api/src/middlewares/auth.middleware.js):
    `requireAuth` reads a bearer token from the Authorization header and
    attaches the token's subject and role to the request; `requireRole`
    lets through only the roles it was built with. */
module AuthMiddleware {
  import opened Common
  import Text

  /** The payload `jwt.verify` hands back: the subject and the role, either
      of which a token may lack. */
  datatype Claims = Claims(sub: Option<string>, role: Option<string>)

  /** `jwt.verify` with the server's secret: the payload, or None where it
      throws (bad signature, expired, malformed). The signature scheme is
      not part of this model. */
  type TokenVerifier = string -> Option<Claims>

  const MissingHeaderMessage := "Missing or invalid Authorization header"
  const InvalidTokenMessage := "Invalid or expired token"
  const UnauthorizedMessage := "Unauthorized"
  const ForbiddenMessage := "Forbidden"

  const BearerScheme := "Bearer"

  /** The header split on single spaces: the first piece must be exactly
      "Bearer" and the second must be non-empty; later pieces are ignored.
      An absent header reads as "". */
  function BearerToken(header: Option<string>): (token: Option<string>)
    ensures token.Some? ==> token.value != "" && ' ' !in token.value
    ensures header.None? ==> token.None?
  {
    var parts := Text.Split(header.GetOr(""), ' ');
    if parts[0] == BearerScheme && |parts| >= 2 && parts[1] != "" then Some(parts[1]) else None
  }

  /** `h` is "Bearer", one space, `token`, and then either nothing or a
      space. */
  predicate IsBearerHeader(h: string, token: string) {
    && token != ""
    && ' ' !in token
    && |h| >= |BearerScheme| + 1 + |token|
    && h[..|BearerScheme| + 1 + |token|] == BearerScheme + " " + token
    && (|h| == |BearerScheme| + 1 + |token| || h[|BearerScheme| + 1 + |token|] == ' ')
  }

  /** Every header of the accepted shape yields its token. */
  lemma {:induction false} BearerTokenOf(token: string, rest: string)
    requires token != "" && ' ' !in token
    requires rest == "" || rest[0] == ' '
    ensures BearerToken(Some(BearerScheme + " " + token + rest)) == Some(token)
  {
    var h := BearerScheme + " " + token + rest;
    assert h == BearerScheme + [' '] + (token + rest);
    Text.SplitAfterPart(BearerScheme, token + rest, ' ');
    if rest == "" {
      assert token + rest == token;
      Text.SplitWithoutSeparator(token, ' ');
    } else {
      assert token + rest == token + [' '] + rest[1..];
      Text.SplitAfterPart(token, rest[1..], ' ');
    }
  }

  /** The parser accepts a header exactly when it has that shape, and the
      token is the piece after "Bearer ". */
  lemma {:induction false} BearerTokenCharacterized(h: string, token: string)
    ensures BearerToken(Some(h)) == Some(token) <==> IsBearerHeader(h, token)
  {
    var n := |BearerScheme| + 1 + |token|;
    if IsBearerHeader(h, token) {
      assert h == BearerScheme + " " + token + h[n..];
      BearerTokenOf(token, h[n..]);
    }
    if BearerToken(Some(h)) == Some(token) {
      var parts := Text.Split(h, ' ');
      Text.JoinSplit(h, ' ');
      assert Text.Join(parts, ' ') == parts[0] + [' '] + Text.Join(parts[1..], ' ');
      var tail := parts[1..];
      if |tail| == 1 {
        assert Text.Join(tail, ' ') == token;
        assert h == BearerScheme + " " + token;
      } else {
        assert Text.Join(tail, ' ') == token + [' '] + Text.Join(tail[1..], ' ');
        assert h == BearerScheme + " " + token + ([' '] + Text.Join(tail[1..], ' '));
      }
    }
  }

  /** Two spaces after "Bearer" leave an empty second piece: refused. */
  lemma DoubleSpaceIsRefused()
    ensures BearerToken(Some("Bearer  x")) == None
  {
    assert !IsBearerHeader("Bearer  x", "x");
    BearerTokenCharacterized("Bearer  x", " x");
  }

  /** A third piece is ignored: "Bearer x y" carries token "x". */
  lemma ExtraPieceIsIgnored()
    ensures BearerToken(Some("Bearer x y")) == Some("x")
  {
    BearerTokenOf("x", " y");
    assert "Bearer" + " " + "x" + " y" == "Bearer x y";
  }

  /** `requireAuth`: 401 for a header of the wrong shape, 401 for a token
      the verifier refuses, and otherwise the request with `user` set to the
      payload's subject and role (its email is not copied). */
  function RequireAuth(req: Request, verify: TokenVerifier): (r: Result<Request, Verdict>)
    ensures BearerToken(req.authorization).None? ==> r == Err(Halt(StatusUnauthorized, MissingHeaderMessage))
    ensures BearerToken(req.authorization).Some? && verify(BearerToken(req.authorization).value).None? ==>
      r == Err(Halt(StatusUnauthorized, InvalidTokenMessage))
    ensures r.Ok? <==> BearerToken(req.authorization).Some? && verify(BearerToken(req.authorization).value).Some?
    ensures r.Ok? ==>
      var claims := verify(BearerToken(req.authorization).value).value;
      r.value == req.(user := Some(ReqUser(claims.sub, claims.role)))
  {
    match BearerToken(req.authorization)
    case None => Err(Halt(StatusUnauthorized, MissingHeaderMessage))
    case Some(token) =>
      match verify(token)
      case None => Err(Halt(StatusUnauthorized, InvalidTokenMessage))
      case Some(claims) => Ok(req.(user := Some(ReqUser(claims.sub, claims.role))))
  }

  /** The role `req.user` carries, if it is a non-empty string. */
  function ActorRole(user: Option<ReqUser>): Option<string> {
    if user.Some? && user.value.role.Some? && user.value.role.value != "" then user.value.role else None
  }

  /** `requireRole(...roles)`: 401 when the request carries no (or an empty)
      role, 403 when its role is not among `roles`, and pass otherwise. It
      never answers anything else. */
  function RequireRole(roles: seq<string>, user: Option<ReqUser>): (v: Verdict)
    ensures !v.Crash?
    ensures v == Pass <==> ActorRole(user).Some? && ActorRole(user).value in roles
    ensures v == Halt(StatusUnauthorized, UnauthorizedMessage) <==> ActorRole(user).None?
    ensures v == Halt(StatusForbidden, ForbiddenMessage) <==> ActorRole(user).Some? && ActorRole(user).value !in roles
  {
    if ActorRole(user).None? then Halt(StatusUnauthorized, UnauthorizedMessage)
    else if ActorRole(user).value !in roles then Halt(StatusForbidden, ForbiddenMessage)
    else Pass
  }
}
