/** The `nonces` table of sign-in: single-use nonces bound to a lower-cased
    address, each expiring five minutes after it is issued. Times are
    milliseconds since the epoch, passed in by the caller; the random nonce
    text is passed in as well. */
module Nonces {
  import opened Common

  /** How long a nonce stays valid: five minutes. */
  const NonceExpiresMs: int := 5 * 60 * 1000

  /** One row: the lower-cased address, the expiry time and the used flag. */
  datatype NonceRow = NonceRow(address: string, expiresAt: int, used: bool)

  /** The table, keyed by the nonce (its primary key). */
  type NonceTable = map<string, NonceRow>

  /** What `generateNonce` hands back. */
  datatype Issued = Issued(nonce: string, expiresAt: int)

  /** Every stored address is already lower case. */
  predicate LowerCased(t: NonceTable) {
    forall n :: n in t ==> ToLower(t[n].address) == t[n].address
  }

  /** `generateNonce`: stores an unused row for `nonce` with the lower-cased
      address and an expiry five minutes from `now`. A nonce already in the
      table violates the primary key: the insert fails and nothing changes. */
  function GenerateNonce(t: NonceTable, nonce: string, address: string, now: int): (r: (NonceTable, Option<Issued>))
    ensures nonce in t ==> r.1.None? && r.0 == t
    ensures nonce !in t ==> r.1 == Some(Issued(nonce, now + NonceExpiresMs))
    ensures r.1.Some? ==>
      && nonce in r.0
      && r.0[nonce] == NonceRow(ToLower(address), now + 300000, false)
      && forall n :: n != nonce ==> (n in r.0 <==> n in t) && (n in t ==> r.0[n] == t[n])
    ensures LowerCased(t) ==> LowerCased(r.0)
  {
    if nonce in t then (t, None)
    else
      ToLowerIdempotent(address);
      (t[nonce := NonceRow(ToLower(address), now + NonceExpiresMs, false)], Some(Issued(nonce, now + NonceExpiresMs)))
  }

  /** A row that `validateNonce` accepts at `now` for `address`. */
  predicate Redeemable(t: NonceTable, nonce: string, address: string, now: int) {
    && nonce in t
    && t[nonce].address == ToLower(address)
    && !t[nonce].used
    && !(t[nonce].expiresAt < now)
  }

  /** `validateNonce`: true, and the row marked used, exactly when an unused
      row matches the nonce and the lower-cased address and has not expired.
      A missing, used, mismatched or expired row gives false and changes
      nothing; in particular an expired row is not marked. */
  function ValidateNonce(t: NonceTable, nonce: string, address: string, now: int): (r: (NonceTable, bool))
    ensures r.1 <==> Redeemable(t, nonce, address, now)
    ensures r.1 ==> nonce in r.0 && r.0[nonce].used
    ensures r.1 ==> forall n :: (n in r.0 <==> n in t) && (n in t && n != nonce ==> r.0[n] == t[n])
    ensures r.1 ==> r.0[nonce].address == t[nonce].address && r.0[nonce].expiresAt == t[nonce].expiresAt
    ensures !r.1 ==> r.0 == t
  {
    if nonce !in t then (t, false)
    else
      var row := t[nonce];
      if row.address != ToLower(address) || row.used then (t, false)
      else if row.expiresAt < now then (t, false)
      else (t[nonce := row.(used := true)], true)
  }

  /** A nonce is good for one sign-in only: once accepted, it is refused for
      every address at every later (or earlier) time. */
  lemma SingleUse(t: NonceTable, nonce: string, address: string, now: int, address': string, later: int)
    requires ValidateNonce(t, nonce, address, now).1
    ensures !ValidateNonce(ValidateNonce(t, nonce, address, now).0, nonce, address', later).1
  {
  }

  /** The address comparison ignores (ASCII) case: any spelling of the
      address that lower-cases to the same text is treated alike. */
  lemma AddressCaseInsensitive(t: NonceTable, nonce: string, a: string, b: string, now: int)
    requires ToLower(a) == ToLower(b)
    ensures ValidateNonce(t, nonce, a, now) == ValidateNonce(t, nonce, b, now)
  {
  }

  /** A freshly issued nonce is accepted for the same address, in any case,
      up to and including the instant it expires, and refused one
      millisecond later. */
  lemma IssuedNonceLifetime(t: NonceTable, nonce: string, address: string, spelling: string, now: int)
    requires nonce !in t
    requires ToLower(spelling) == ToLower(address)
    ensures var t' := GenerateNonce(t, nonce, address, now).0;
      && ValidateNonce(t', nonce, spelling, now).1
      && ValidateNonce(t', nonce, spelling, now + NonceExpiresMs).1
      && !ValidateNonce(t', nonce, spelling, now + NonceExpiresMs + 1).1
  {
  }

  /** Whether `cleanupExpiredNonces` removes a row at `now`. */
  predicate Stale(row: NonceRow, now: int) {
    row.expiresAt < now || row.used
  }

  /** `cleanupExpiredNonces`: deletes exactly the expired or used rows and
      reports how many it deleted. */
  function CleanupExpiredNonces(t: NonceTable, now: int): (r: (NonceTable, nat))
    ensures forall n :: n in r.0 <==> n in t && !Stale(t[n], now)
    ensures forall n :: n in r.0 ==> r.0[n] == t[n]
    ensures r.1 == |t.Keys| - |r.0.Keys|
    ensures r.1 == |set n | n in t && Stale(t[n], now)|
  {
    var gone := set n | n in t && Stale(t[n], now);
    var kept := map n | n in t && !Stale(t[n], now) :: t[n];
    assert t.Keys == kept.Keys + gone;
    assert kept.Keys * gone == {};
    (kept, |gone|)
  }

  /** Cleaning up never takes away a nonce that could still be redeemed. */
  lemma CleanupKeepsRedeemable(t: NonceTable, nonce: string, address: string, now: int)
    requires Redeemable(t, nonce, address, now)
    ensures Redeemable(CleanupExpiredNonces(t, now).0, nonce, address, now)
  {
  }
}
