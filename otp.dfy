/** One-time codes for email verification (app/api/auth/otp/route.ts): `send` replaces every
    code of an address with a fresh six-digit one valid for ten minutes; `verify` consumes a
    matching, unexpired code and answers with a registration token. */
module OtpRoute {

  import opened Wrappers
  import opened Text
  import opened Query
  import opened Schema
  import opened Database
  import opened RegistrationTokens

  /** Ten minutes, the lifetime of a code. */
  const CodeLifetimeMs := 600000

  /** `Math.floor(100000 + random * 900000)`, before it is turned into text. */
  function OtpNumber(random: real): (n: int)
    requires 0.0 <= random < 1.0
    ensures 100000 <= n <= 999999
  {
    (100000.0 + random * 900000.0).Floor
  }

  /** `generateOTP()`, where `random` is the value `Math.random()` returned. */
  function GenerateOtp(random: real): (code: string)
    requires 0.0 <= random < 1.0
    ensures |code| == 6
    ensures forall i :: 0 <= i < |code| ==> IsDigit(code[i])
    ensures 100000 <= DecimalValue(code) <= 999999
  {
    var n := OtpNumber(random);
    SixDigits(n);
    DecimalRoundTrip(n);
    NatToDecimal(n)
  }

  function ForEmail(email: string): VerificationToken -> bool
  {
    (t: VerificationToken) => t.identifier == email
  }

  function NotForEmail(email: string): VerificationToken -> bool
  {
    (t: VerificationToken) => t.identifier != email
  }

  /** The `findFirst` of verify: this address, this code, and an expiry after `now`. */
  function Matches(email: string, code: string, now: int): VerificationToken -> bool
  {
    (t: VerificationToken) => t.identifier == email && t.token == code && t.expires > now
  }

  /** What a successful call answers with. */
  datatype OtpBody = Sent | Verified(token: RegistrationToken)

  /** `POST /api/auth/otp` with body { action, email, otp }, at time `now`; `random` is the
      value `Math.random()` would return. */
  method Post(db: Db, action: Option<string>, email: Option<string>, otp: Option<string>,
              now: int, random: real) returns (r: Reply<OtpBody>, mail: seq<Email>)
    requires db.Valid()
    requires 0.0 <= random < 1.0
    modifies db`tokens
    ensures db.Valid()
    ensures Blank(email) ==>
              r == Fail(400, "Email is required") && db.tokens == old(db.tokens) && mail == []
    ensures !Blank(email) && action != Some("send") && action != Some("verify") ==>
              r == Fail(400, "Invalid action") && db.tokens == old(db.tokens) && mail == []
    // send: the address's old codes are gone and one fresh code expiring in ten minutes is added.
    ensures !Blank(email) && action == Some("send") ==>
              var row := VerificationToken(email.value, GenerateOtp(random), now + CodeLifetimeMs);
              r == Ok(200, Sent) && mail == [Email(email.value, "Your Verification Code")] &&
              db.tokens == Filter(old(db.tokens), NotForEmail(email.value)) + [row] &&
              Count(db.tokens, ForEmail(email.value)) == 1 &&
              (forall i :: 0 <= i < |db.tokens| && db.tokens[i].identifier == email.value ==>
                           db.tokens[i] == row) &&
              Filter(db.tokens, NotForEmail(email.value)) ==
              Filter(old(db.tokens), NotForEmail(email.value))
    ensures !Blank(email) && action == Some("verify") && Blank(otp) ==>
              r == Fail(400, "OTP is required") && db.tokens == old(db.tokens) && mail == []
    // verify: it succeeds exactly when a stored code for the address matches and is unexpired.
    ensures !Blank(email) && action == Some("verify") && !Blank(otp) ==>
              mail == [] &&
              (r.Ok? <==> exists i :: 0 <= i < |old(db.tokens)| &&
                                      Matches(email.value, otp.value, now)(old(db.tokens)[i]))
    ensures !Blank(email) && action == Some("verify") && !Blank(otp) && r.Fail? ==>
              r == Fail(400, "Invalid or Expired OTP") && db.tokens == old(db.tokens)
    // A verified code is deleted, so it cannot be verified a second time.
    ensures !Blank(email) && action == Some("verify") && !Blank(otp) && r.Ok? ==>
              FindFirst(old(db.tokens), Matches(email.value, otp.value, now)).Some? &&
              db.tokens == RemoveAt(old(db.tokens),
                                    FindFirst(old(db.tokens), Matches(email.value, otp.value, now)).value) &&
              r == Ok(200, Verified(Issue(email.value, now))) &&
              forall i :: 0 <= i < |db.tokens| ==> TokenKeyOf(db.tokens[i]) != (email.value, otp.value)
  {
    mail := [];
    if Blank(email) {
      return Fail(400, "Email is required"), mail;
    }
    var e := email.value;
    if action == Some("send") {
      var code := GenerateOtp(random);
      var row := VerificationToken(e, code, now + CodeLifetimeMs);
      ReplaceCodes(db, row);
      mail := [Email(e, "Your Verification Code")];
      return Ok(200, Sent), mail;
    } else if action == Some("verify") {
      if Blank(otp) {
        return Fail(400, "OTP is required"), mail;
      }
      var record := FindFirst(db.tokens, Matches(e, otp.value, now));
      if record.None? {
        return Fail(400, "Invalid or Expired OTP"), mail;
      }
      var token := Issue(e, now);
      ConsumeCode(db, record.value);
      return Ok(200, Verified(token)), mail;
    }
    return Fail(400, "Invalid action"), mail;
  }

  /** `deleteMany({ where: { identifier } })` followed by `create` of the fresh code. */
  method ReplaceCodes(db: Db, row: VerificationToken)
    requires db.Valid()
    modifies db`tokens
    ensures db.Valid()
    ensures db.tokens == Filter(old(db.tokens), NotForEmail(row.identifier)) + [row]
    ensures Count(db.tokens, ForEmail(row.identifier)) == 1
    ensures forall i :: 0 <= i < |db.tokens| && db.tokens[i].identifier == row.identifier ==>
                        db.tokens[i] == row
    ensures Filter(db.tokens, NotForEmail(row.identifier)) ==
            Filter(old(db.tokens), NotForEmail(row.identifier))
  {
    Replaced(db.tokens, row);
    db.tokens := Filter(db.tokens, NotForEmail(row.identifier)) + [row];
  }

  /** The codes left by dropping the address's codes and appending `row`: keyed, with `row`
      the address's only code, and the other addresses' codes as they were. */
  lemma Replaced(tokens: seq<VerificationToken>, row: VerificationToken)
    requires TokensValid(tokens)
    ensures var r := Filter(tokens, NotForEmail(row.identifier)) + [row];
            && TokensValid(r)
            && Count(r, ForEmail(row.identifier)) == 1
            && (forall i :: 0 <= i < |r| && r[i].identifier == row.identifier ==> r[i] == row)
            && Filter(r, NotForEmail(row.identifier)) == Filter(tokens, NotForEmail(row.identifier))
  {
    var e := row.identifier;
    var kept := Filter(tokens, NotForEmail(e));
    FilterKeepsKeysDistinct(tokens, NotForEmail(e), TokenKeyOf);
    AppendDistinct(kept, row, TokenKeyOf);
    CountZero(kept, ForEmail(e));
    CountAppend(kept, [row], ForEmail(e));
    FilterAppend(kept, [row], NotForEmail(e));
    FilterAll(kept, NotForEmail(e));
  }

  /** `delete({ where: { identifier_token } })` of the matched code at k. */
  method ConsumeCode(db: Db, k: nat)
    requires db.Valid() && k < |db.tokens|
    modifies db`tokens
    ensures db.Valid()
    ensures db.tokens == RemoveAt(old(db.tokens), k)
    ensures forall i :: 0 <= i < |db.tokens| ==> TokenKeyOf(db.tokens[i]) != TokenKeyOf(old(db.tokens)[k])
  {
    RemoveKeepsDistinct(db.tokens, k, TokenKeyOf);
    forall i | 0 <= i < |db.tokens| && i != k
      ensures TokenKeyOf(db.tokens[i]) != TokenKeyOf(db.tokens[k])
    {
      if i < k {
        assert TokenKeyOf(db.tokens[i]) != TokenKeyOf(db.tokens[k]);
      }
    }
    db.tokens := RemoveAt(db.tokens, k);
  }

  /** Verifying the same code twice: the second attempt fails and changes nothing. */
  method VerifyTwice(db: Db, email: Option<string>, otp: Option<string>, now: int, later: int)
    returns (first: Reply<OtpBody>, second: Reply<OtpBody>)
    requires db.Valid()
    modifies db`tokens
    ensures first.Ok? ==> second == Fail(400, "Invalid or Expired OTP")
  {
    var mail;
    first, mail := Post(db, Some("verify"), email, otp, now, 0.0);
    second, mail := Post(db, Some("verify"), email, otp, later, 0.0);
  }
}
