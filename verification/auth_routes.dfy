/** The sign-in routes: GET /nonce hands out a nonce for a well-formed
    Ethereum address, POST /verify exchanges a signed sign-in message for a
    JWT. Signature checking and token signing are parameters. */
module AuthRoutes {
  import opened Common
  import Nonces

  /** `/^0x[a-fA-F0-9]{40}$/`: "0x" and exactly forty hex digits of either
      case, nothing before and nothing after. */
  predicate IsEthAddress(s: string) {
    && |s| == 42
    && s[0] == '0' && s[1] == 'x'
    && forall i :: 2 <= i < 42 ==> IsHexDigit(s[i])
  }

  /** The pattern test, scanning the text once. */
  method MatchesAddressPattern(s: string) returns (ok: bool)
    ensures ok <==> IsEthAddress(s)
  {
    if |s| != 42 || s[0] != '0' || s[1] != 'x' {
      return false;
    }
    var i := 2;
    while i < |s|
      invariant 2 <= i <= |s|
      invariant forall k :: 2 <= k < i ==> IsHexDigit(s[k])
    {
      if !IsHexDigit(s[i]) {
        return false;
      }
      i := i + 1;
    }
    return true;
  }

  /** Lower-casing a well-formed address gives a well-formed address, so the
      address stored with a nonce has the same shape as the one requested. */
  lemma LowerCasedAddressStaysWellFormed(s: string)
    requires IsEthAddress(s)
    ensures IsEthAddress(ToLower(s))
  {
    var t := ToLower(s);
    assert t[0] == AsciiLower(s[0]) && t[1] == AsciiLower(s[1]);
    forall i | 2 <= i < 42 ensures IsHexDigit(t[i]) {
      assert t[i] == AsciiLower(s[i]);
    }
  }

  /** GET /nonce: 400 when the address is missing or empty, 400 when it is
      not a well-formed address, otherwise a fresh nonce for it. A nonce
      text already in the table makes the insert throw, which the server
      answers with 500. */
  function GetNonce(t: Nonces.NonceTable, address: Option<string>, nonce: string, now: int)
    : (r: (Nonces.NonceTable, Response<Nonces.Issued>))
    ensures !Truthy(address) ==> r.1 == Error(400, "Missing address parameter") && r.0 == t
    ensures Truthy(address) && !IsEthAddress(address.value) ==>
      r.1 == Error(400, "Invalid Ethereum address format") && r.0 == t
    ensures r.1.Ok? <==> Truthy(address) && IsEthAddress(address.value) && nonce !in t
    ensures r.1.Ok? ==>
      && r.1.body == Nonces.Issued(nonce, now + Nonces.NonceExpiresMs)
      && nonce in r.0 && r.0[nonce].address == ToLower(address.value) && !r.0[nonce].used
      && IsEthAddress(r.0[nonce].address)
    ensures r.1.Error? ==> r.0 == t
  {
    if !Truthy(address) then (t, Error(400, "Missing address parameter"))
    else if !IsEthAddress(address.value) then (t, Error(400, "Invalid Ethereum address format"))
    else
      var g := Nonces.GenerateNonce(t, nonce, address.value, now);
      LowerCasedAddressStaysWellFormed(address.value);
      match g.1
      case None => (t, Error(500, "Internal Server Error"))
      case Some(issued) => (g.0, Ok(issued))
  }

  /** A nonce issued by GET /nonce can be redeemed, once, by a sign-in
      message for the same address in any letter case before it expires. */
  lemma IssuedNonceRedeemable(t: Nonces.NonceTable, address: string, nonce: string, now: int,
                              spelling: string, at: int)
    requires GetNonce(t, Some(address), nonce, now).1.Ok?
    requires ToLower(spelling) == ToLower(address) && at <= now + Nonces.NonceExpiresMs
    ensures Nonces.ValidateNonce(GetNonce(t, Some(address), nonce, now).0, nonce, spelling, at).1
  {
  }

  /** The outcome of checking a sign-in message: the wrapper around the
      signature library reports the signer's lower-cased address, or why
      the message was refused. */
  datatype SiweResult = Verified(address: string) | NotVerified(error: string)

  /** A signed token and its expiry time. */
  datatype Grant = Grant(token: string, expiresAt: string)

  datatype VerifyBody = VerifyBody(message: Option<string>, signature: Option<string>)

  datatype VerifyReply = VerifyReply(token: string, address: string, expiresAt: string)

  /** POST /verify: 400 when the message or the signature is missing or
      empty; 401 with the signature check's reason when the message does
      not check out; otherwise a token for the verified address. */
  function PostVerify(body: VerifyBody, check: (string, string) -> SiweResult, createToken: string -> Grant)
    : (r: Response<VerifyReply>)
    ensures !Truthy(body.message) || !Truthy(body.signature) ==> r == Error(400, "Missing message or signature")
    ensures Truthy(body.message) && Truthy(body.signature) ==>
      match check(body.message.value, body.signature.value)
      case NotVerified(e) => r == Error(401, e)
      case Verified(a) => r.Ok? && r.body.address == a && r.body.token == createToken(a).token
                          && r.body.expiresAt == createToken(a).expiresAt
    ensures r.Ok? ==> Truthy(body.message) && Truthy(body.signature)
  {
    if !Truthy(body.message) || !Truthy(body.signature) then Error(400, "Missing message or signature")
    else
      match check(body.message.value, body.signature.value)
      case NotVerified(e) => Error(401, e)
      case Verified(a) =>
        var grant := createToken(a);
        Ok(VerifyReply(grant.token, a, grant.expiresAt))
  }

  /** A token is only ever issued for an address the checker vouched for. */
  lemma TokenOnlyForVerifiedSigner(body: VerifyBody, check: (string, string) -> SiweResult, createToken: string -> Grant)
    requires PostVerify(body, check, createToken).Ok?
    ensures body.message.Some? && body.signature.Some?
    ensures check(body.message.value, body.signature.value) == Verified(PostVerify(body, check, createToken).body.address)
  {
  }
}
