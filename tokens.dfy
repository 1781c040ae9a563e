/** The registration token handed out once an email address is verified (lib/jwt.ts): a signed
    claim of that address, valid for one hour. Signing and the signature check are left to the
    token library; what the handlers see is the decoded claim, or none. The library keeps time
    in whole seconds: it stamps `exp` as the issue second plus the lifetime, and refuses a token
    once the current second reaches `exp`. */
module RegistrationTokens {

  import opened Wrappers

  /** One hour, the `expiresIn: '1h'` of the signature, in seconds. */
  const LifetimeSeconds := 3600

  /** The claim { email, verified: true } together with the `exp` second the library adds. */
  datatype RegistrationToken = RegistrationToken(email: string, verified: bool, expiresAt: int)

  /** `Math.floor(ms / 1000)`: the whole second a millisecond clock reading falls in. Dafny's
      division by a positive divisor rounds down, as `Math.floor` does. */
  function Seconds(ms: int): int
  {
    ms / 1000
  }

  /** `signVerificationToken(email)` at time `now` (milliseconds). */
  function Issue(email: string, now: int): (t: RegistrationToken)
    // The token admits its own address at once ...
    ensures Accepts(Some(t), email, now)
    // ... never once the hour is over ...
    ensures forall later :: later >= now + LifetimeSeconds * 1000 ==> !Accepts(Some(t), email, later)
    // ... and never another address.
    ensures forall e, at :: e != email ==> !Accepts(Some(t), e, at)
  {
    RegistrationToken(email, true, Seconds(now) + LifetimeSeconds)
  }

  /** The test donor registration applies to `verifyRegistrationToken(token)`: the token decoded
      (`decoded` is None when its signature or format is bad), its `exp` second had not been
      reached at `now`, and it names the address being registered. The `verified` flag is not
      consulted. */
  predicate Accepts(decoded: Option<RegistrationToken>, email: string, now: int)
  {
    decoded.Some? && Seconds(now) < decoded.value.expiresAt && decoded.value.email == email
  }

  /** A token issued for an address admits exactly that address, until the second the hour
      ends in: for at least 3599 whole seconds after issue, and for less than 3600. */
  lemma IssuedTokenAccepted(email: string, issuedAt: int, now: int, other: string)
    ensures Accepts(Some(Issue(email, issuedAt)), email, now) <==>
            Seconds(now) < Seconds(issuedAt) + LifetimeSeconds
    ensures issuedAt <= now <= issuedAt + (LifetimeSeconds - 1) * 1000 ==>
              Accepts(Some(Issue(email, issuedAt)), email, now)
    ensures now >= issuedAt + LifetimeSeconds * 1000 ==>
              !Accepts(Some(Issue(email, issuedAt)), email, now)
    ensures other != email ==> !Accepts(Some(Issue(email, issuedAt)), other, now)
  {
  }
}
