/**
  `generate_jwt`: the claim set of RFC 7519 built for an authenticated user
  (`sub`, section 4.1.2; `iss`, section 4.1.1; `iat`, section 4.1.6; `exp`,
  section 4.1.4) plus a private `id` claim, signed with a shared secret. The
  signature is opaque: a function `sign(claims, secret)` given by the caller.
*/
module Session {
  import opened Wrappers
  import opened Users

  const Issuer: string := "AnkiCC"

  const SecondsPerDay: nat := 86400

  /** `chrono::Duration::days(180)` in seconds. */
  const Lifetime: nat := 180 * SecondsPerDay

  const TwoToThe64: nat := 0x1_0000_0000_0000_0000

  type u64 = x: int | 0 <= x < 0x1_0000_0000_0000_0000

  /** `timestamp() as u64`: the `i64` reading reinterpreted modulo 2^64. */
  function AsU64(t: int): (r: u64)
    ensures 0 <= t < TwoToThe64 ==> r == t
    ensures -0x8000_0000_0000_0000 <= t < 0 ==> r == t + TwoToThe64
  {
    t % TwoToThe64
  }

  /**
    The two `Utc::now()` readings of one call, in seconds since the epoch:
    the first gives `iat`, the second, taken a moment later, gives `exp`.
  */
  datatype Clock = Clock(issuedAt: int, expiryBase: int)

  datatype Claims = Claims(sub: string, iss: string, iat: u64, exp: u64, id: string)

  function SessionClaims(user: User, clock: Clock): (c: Claims)
    requires user.id.Some?
    ensures c.sub == user.username
    ensures c.iss == Issuer
    ensures c.id == ToHex(user.id.value) && |c.id| == 24
    ensures 0 <= clock.issuedAt < TwoToThe64 ==> c.iat == clock.issuedAt
    ensures 0 <= clock.expiryBase + Lifetime < TwoToThe64 ==> c.exp == clock.expiryBase + Lifetime
  {
    Claims(user.username, Issuer, AsU64(clock.issuedAt), AsU64(clock.expiryBase + Lifetime), ToHex(user.id.value))
  }

  /** The token: the claims of the user, signed with the secret. */
  function GenerateJwt(user: User, secret: string, sign: (Claims, string) -> string, clock: Clock): (token: string)
    requires user.id.Some?
    ensures exists c: Claims ::
      && c.sub == user.username && c.iss == Issuer && c.id == ToHex(user.id.value)
      && (0 <= clock.issuedAt < TwoToThe64 ==> c.iat == clock.issuedAt)
      && (0 <= clock.expiryBase + Lifetime < TwoToThe64 ==> c.exp == clock.expiryBase + Lifetime)
      && token == sign(c, secret)
  {
    var c := SessionClaims(user, clock);
    assert c.sub == user.username;
    sign(c, secret)
  }

  /**
    The validity window is 180 days plus the time between the two clock
    readings: exactly 180 days only when both readings agree, and shorter
    when the wall clock steps back between them.
  */
  lemma ExpiryWindow(user: User, clock: Clock)
    requires user.id.Some?
    requires 0 <= clock.issuedAt < TwoToThe64
    requires 0 <= clock.expiryBase + Lifetime < TwoToThe64
    ensures var c := SessionClaims(user, clock);
      c.exp - c.iat == Lifetime + (clock.expiryBase - clock.issuedAt)
    ensures var c := SessionClaims(user, clock);
      c.exp - c.iat == Lifetime <==> clock.issuedAt == clock.expiryBase
    ensures var c := SessionClaims(user, clock);
      c.exp - c.iat < Lifetime <==> clock.expiryBase < clock.issuedAt
  {
  }

  /** Only the username, the id and the clock enter the claims: not the password, not the counter. */
  lemma ClaimsIdentifyUser(a: User, b: User, clock: Clock)
    requires a.id.Some? && b.id.Some?
    ensures SessionClaims(a, clock) == SessionClaims(b, clock) <==> a.username == b.username && a.id == b.id
  {
    ObjectIdHex(a.id.value, b.id.value);
  }
}
