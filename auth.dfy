/** The authentication middleware of middleware/auth.js: it reads the
    Authorization header, drops one optional `Bearer ` prefix, verifies what
    remains and either calls the next handler with the decoded payload as
    `req.user` or answers 401. Token verification (JWT with the process-wide
    secret, including expiry) is the function parameter `verify`. */
module Auth {
  import opened Common

  const BEARER_PREFIX: string := "Bearer "
  const NO_TOKEN_MESSAGE: string := "Access Denied. No token provided."
  const INVALID_TOKEN_MESSAGE: string := "Invalid or expired token."

  /** The decoded token payload; the register and login handlers sign `{ id }`. */
  datatype Claims = Claims(id: Id)

  /** What the middleware does with a request: call `next` once with
      `req.user` set, or answer with an error status and message. */
  datatype Verdict = Next(user: Claims) | Reject(code: nat, message: string)

  predicate HasBearerPrefix(header: string)
  {
    |header| >= |BEARER_PREFIX| && header[..|BEARER_PREFIX|] == BEARER_PREFIX
  }

  /** The token carried by a header: everything after a leading `Bearer `,
      or the whole header when it does not start so. */
  function CleanToken(header: string): (token: string)
    ensures HasBearerPrefix(header) ==> BEARER_PREFIX + token == header
    ensures !HasBearerPrefix(header) ==> token == header
  {
    if HasBearerPrefix(header) then header[|BEARER_PREFIX|..] else header
  }

  /** Prefixing a token with `Bearer ` and cleaning it gives the token back. */
  lemma CleanTokenOfBearer(token: string)
    ensures CleanToken(BEARER_PREFIX + token) == token
  {
    assert (BEARER_PREFIX + token)[..|BEARER_PREFIX|] == BEARER_PREFIX;
  }

  /** The prefix is removed once only: `Bearer Bearer x` yields `Bearer x`. */
  lemma CleanTokenStripsOnce(token: string)
    ensures CleanToken(BEARER_PREFIX + (BEARER_PREFIX + token)) == BEARER_PREFIX + token
  {
    CleanTokenOfBearer(BEARER_PREFIX + token);
  }

  /** The middleware's decision. A missing or empty header is refused before
      any verification; otherwise the cleaned token is verified, and a
      failure is refused with the invalid-token message. */
  function Authenticate(header: Option<string>, verify: string -> Option<Claims>): (v: Verdict)
    ensures v.Reject? ==> v.code == UNAUTHORIZED
    ensures !Truthy(header) <==> v == Reject(UNAUTHORIZED, NO_TOKEN_MESSAGE)
    ensures Truthy(header) && verify(CleanToken(header.value)).None?
            <==> v == Reject(UNAUTHORIZED, INVALID_TOKEN_MESSAGE)
    ensures v.Next? <==> Truthy(header) && verify(CleanToken(header.value)).Some?
    ensures v.Next? ==> v.user == verify(CleanToken(header.value)).value
  {
    if !Truthy(header) then Reject(UNAUTHORIZED, NO_TOKEN_MESSAGE)
    else match verify(CleanToken(header.value))
      case None => Reject(UNAUTHORIZED, INVALID_TOKEN_MESSAGE)
      case Some(decoded) => Next(decoded)
  }

  /** A header `Bearer <t>` authenticates exactly as the raw token `<t>`
      does, for any non-empty token that does not itself start with the prefix. */
  lemma BearerAndRawAgree(token: string, verify: string -> Option<Claims>)
    requires token != "" && !HasBearerPrefix(token)
    ensures Authenticate(Some(BEARER_PREFIX + token), verify) == Authenticate(Some(token), verify)
  {
    CleanTokenOfBearer(token);
  }
}
