/** The two authentication middlewares. Both read the `Authorization`
    header, take the text after a case-sensitive `Bearer ` prefix as a JWT
    and ask the token verifier for its payload; the verifier is a
    parameter. */
module Middleware {
  import opened Common

  const BearerPrefix: string := "Bearer "

  /** The part of a verified token the middlewares use: its subject. */
  datatype Payload = Payload(sub: string)

  /** What a middleware does with a request: refuses it with 401, or calls
      the next handler once, with the address it set (if any). */
  datatype AuthOutcome = Unauthorized(message: string) | Next(address: Option<string>)

  /** The token carried by the header: present when the header is there and
      starts with the prefix, and then it is everything after the prefix's
      seven characters. */
  function BearerToken(header: Option<string>): (t: Option<string>)
    ensures t.Some? <==> header.Some? && |BearerPrefix| <= |header.value| && header.value[..|BearerPrefix|] == BearerPrefix
    ensures t.Some? ==> header.value == BearerPrefix + t.value
  {
    if Truthy(header) && |BearerPrefix| <= |header.value| && header.value[..|BearerPrefix|] == BearerPrefix then
      var token := header.value[7..];
      assert header.value == header.value[..7] + token;
      Some(token)
    else None
  }

  /** A `Bearer ` header always yields exactly the token it was built from. */
  lemma BearerRoundTrip(token: string)
    ensures BearerToken(Some(BearerPrefix + token)) == Some(token)
  {
    assert (BearerPrefix + token)[..|BearerPrefix|] == BearerPrefix;
  }

  /** The prefix is case-sensitive: `bearer ` is not accepted. */
  lemma LowerCaseSchemeRefused(token: string)
    ensures BearerToken(Some("bearer " + token)).None?
  {
    assert ("bearer " + token)[0] == 'b';
  }

  /** `requireAuth`: 401 without a bearer header or when the token does not
      verify; otherwise the address becomes the token's subject and the next
      handler runs. */
  function RequireAuth(header: Option<string>, verify: string -> Option<Payload>): (r: AuthOutcome)
    ensures BearerToken(header).None? ==> r == Unauthorized("Missing or invalid Authorization header")
    ensures BearerToken(header).Some? && verify(BearerToken(header).value).None? ==>
      r == Unauthorized("Invalid or expired token")
    ensures r.Next? <==> BearerToken(header).Some? && verify(BearerToken(header).value).Some?
    ensures r.Next? ==> r.address == Some(verify(BearerToken(header).value).value.sub)
  {
    match BearerToken(header)
    case None => Unauthorized("Missing or invalid Authorization header")
    case Some(token) =>
      match verify(token)
      case None => Unauthorized("Invalid or expired token")
      case Some(payload) => Next(Some(payload.sub))
  }

  /** `optionalAuth`: never refuses; the address is set only for a bearer
      header whose token verifies, and then to the token's subject. */
  function OptionalAuth(header: Option<string>, verify: string -> Option<Payload>): (r: AuthOutcome)
    ensures r.Next?
    ensures r.address.Some? <==> BearerToken(header).Some? && verify(BearerToken(header).value).Some?
    ensures r.address.Some? ==> r.address.value == verify(BearerToken(header).value).value.sub
  {
    match BearerToken(header)
    case None => Next(None)
    case Some(token) =>
      match verify(token)
      case None => Next(None)
      case Some(payload) => Next(Some(payload.sub))
  }

  /** The two middlewares agree whenever the stricter one lets a request
      through: it then sets the very same address. */
  lemma OptionalAgreesWithRequired(header: Option<string>, verify: string -> Option<Payload>)
    ensures RequireAuth(header, verify).Next? ==> OptionalAuth(header, verify) == RequireAuth(header, verify)
    ensures RequireAuth(header, verify).Unauthorized? ==> OptionalAuth(header, verify) == Next(None)
  {
  }
}
