/**
 * Credentials and signed tokens: numeric codes, peppered password hashing,
 * the email-verification, verification-link and password tokens, their
 * legacy wrappers and the deprecated SHA-256 helpers.
 *
 * Argon2 and SHA-256 are function parameters (`hasher`, `verifier`, `sha`);
 * the timed serializer is the symbolic `Token` of DocStore.
 */
module Tokens {
  import opened Wrappers
  import opened DocStore
  import Ids

  const Day: int := 24 * 60 * 60
  /** The default maximum token age: seven days. */
  const DefaultMaxAge: int := 7 * Day

  /** The process environment (`os.environ`). */
  type Env = map<string, string>

  /** `not os.environ.get(name)`: the setting is absent or empty. */
  predicate Unset(env: Env, name: string) {
    name !in env || env[name] == ""
  }

  function Setting(env: Env, name: string): string {
    if name in env then env[name] else ""
  }

  /** The signing secrets are both configured. */
  predicate SignerConfigured(env: Env) {
    !Unset(env, "SECRET_KEY") && !Unset(env, "SECURITY_PASSWORD_SALT")
  }

  function Pepper(env: Env): string {
    Setting(env, "SECURITY_PASSWORD_PEPPER")
  }

  /** `generate_verification_code(length)`: one decimal digit per draw. */
  function GenerateVerificationCode(draws: seq<nat>): (r: string)
    ensures |r| == |draws|
    ensures forall i :: 0 <= i < |r| ==> '0' <= r[i] <= '9'
  {
    Ids.Choose(Ids.Digits, draws)
  }

  /** What the Argon2 `verify` call does with a stored hash and a candidate. */
  datatype Check = Accepted | Mismatch | Failed

  /**
   * `hash_password`: hashes the password with the pepper appended; a missing
   * pepper only weakens the input, and a hashing failure gives None.
   */
  function HashPassword(env: Env, password: string, hasher: string -> Option<string>): (r: Option<string>)
    ensures r.None? <==> hasher(password + Pepper(env)).None?
    ensures r.Some? ==> Some(r.value) == hasher(password + Pepper(env))
    ensures Unset(env, "SECURITY_PASSWORD_PEPPER") ==> r == hasher(password)
  {
    var peppered := password + Pepper(env);
    assert Unset(env, "SECURITY_PASSWORD_PEPPER") ==> peppered == password;
    hasher(peppered)
  }

  /** `verify_password`: true only when the hasher accepts password + pepper; mismatch and errors give false. */
  function VerifyPassword(env: Env, storedHash: string, password: string,
                          verifier: (string, string) -> Check): (r: bool)
    ensures r <==> verifier(storedHash, password + Pepper(env)) == Accepted
    ensures verifier(storedHash, password + Pepper(env)) == Failed ==> !r
  {
    match verifier(storedHash, password + Pepper(env))
    case Accepted => true
    case Mismatch => false
    case Failed => false
  }

  /** A password hashed under one configuration verifies under the same one, given a sound hasher. */
  lemma HashThenVerify(env: Env, password: string, hasher: string -> Option<string>,
                       verifier: (string, string) -> Check)
    requires hasher(password + Pepper(env)).Some?
    requires verifier(hasher(password + Pepper(env)).value, password + Pepper(env)) == Accepted
    ensures HashPassword(env, password, hasher).Some?
    ensures VerifyPassword(env, HashPassword(env, password, hasher).value, password, verifier)
  {
  }

  /** The outcome of `serializer.loads`. */
  datatype Loaded = Valid(payload: Doc) | Expired | BadSignature

  /** `URLSafeTimedSerializer(key).dumps(payload, salt=salt)` at second `now`. */
  function Dumps(payload: Doc, key: string, salt: string, now: int): Token {
    Signed(payload, key, salt, now)
  }

  /**
   * `serializer.loads(token, salt=salt, max_age=maxAge)` at second `now`: the
   * signature must come from the same key and salt, then the age must lie in
   * `0..maxAge`.
   */
  function Loads(token: Token, key: string, salt: string, maxAge: int, now: int): (r: Loaded)
    ensures r.Valid? <==> token.Signed? && token.key == key && token.salt == salt
                          && 0 <= now - token.issuedAt <= maxAge
    ensures r.Valid? ==> r.payload == token.payload
    ensures r == BadSignature <==> !(token.Signed? && token.key == key && token.salt == salt)
  {
    match token
    case Forged(_) => BadSignature
    case Signed(p, k, s, t) =>
      if k != key || s != salt then BadSignature
      else if now - t > maxAge then Expired
      else if now - t < 0 then Expired
      else Valid(p)
  }

  const Purpose: string := "email_verification"

  /** The payload of an email-verification token. */
  function VerificationPayload(email: string, code: string, now: int): Doc {
    map["email" := Str(email), "code" := Str(code), "created_at" := Int(now), "purpose" := Str(Purpose)]
  }

  /** `generate_verification_token`: None unless SECRET_KEY and SECURITY_PASSWORD_SALT are set. */
  function GenerateVerificationToken(env: Env, email: string, code: string, expirationDays: int, now: int)
    : (r: Option<Token>)
    ensures r.Some? <==> SignerConfigured(env)
    ensures r.Some? ==> (r.value.Signed? && r.value.issuedAt == now
                         && r.value.payload == VerificationPayload(email, code, now))
  {
    if !SignerConfigured(env) then None
    else Some(Dumps(VerificationPayload(email, code, now), env["SECRET_KEY"], env["SECURITY_PASSWORD_SALT"], now))
  }

  /**
   * `verify_verification_token`: the payload only when the signature is
   * good and at most `expirationDays` days old, the purpose is email
   * verification and the code matches.
   */
  function VerifyVerificationToken(env: Env, token: Token, code: string, expirationDays: int, now: int)
    : (r: Option<Doc>)
    ensures r.Some? <==>
      && SignerConfigured(env)
      && Loads(token, Setting(env, "SECRET_KEY"), Setting(env, "SECURITY_PASSWORD_SALT"),
               expirationDays * Day, now).Valid?
      && PyEq(Get(token.payload, "purpose"), Str(Purpose))
      && PyEq(Get(token.payload, "code"), Str(code))
    ensures r.Some? ==> r.value == token.payload
  {
    if !SignerConfigured(env) then None
    else
      match Loads(token, env["SECRET_KEY"], env["SECURITY_PASSWORD_SALT"], expirationDays * Day, now)
      case Valid(p) =>
        if !PyEq(Get(p, "purpose"), Str(Purpose)) then None
        else if PyEq(Get(p, "code"), Str(code)) then Some(p)
        else None
      case _ => None
  }

  /** A verification token verifies with its own code until exactly `days` days have passed, and not after. */
  lemma VerificationTokenRoundTrip(env: Env, email: string, code: string, days: int, issued: int, now: int)
    requires SignerConfigured(env)
    ensures var t := GenerateVerificationToken(env, email, code, days, issued).value;
      && (0 <= now - issued <= days * Day ==>
            VerifyVerificationToken(env, t, code, days, now) == Some(VerificationPayload(email, code, issued)))
      && (now - issued > days * Day ==> VerifyVerificationToken(env, t, code, days, now).None?)
      && (now < issued ==> VerifyVerificationToken(env, t, code, days, now).None?)
  {
  }

  /** A wrong code is refused even on a genuine, fresh token. */
  lemma VerificationTokenWrongCode(env: Env, email: string, code: string, other: string, days: int, now: int)
    requires SignerConfigured(env) && other != code
    ensures VerifyVerificationToken(env, GenerateVerificationToken(env, email, code, days, now).value,
                                    other, days, now).None?
  {
  }

  /** The seven-day boundary: one second before it the token verifies, one second after it does not. */
  lemma SevenDayBoundary(env: Env, email: string, code: string, issued: int)
    requires SignerConfigured(env)
    ensures var t := GenerateVerificationToken(env, email, code, 7, issued).value;
      && VerifyVerificationToken(env, t, code, 7, issued + 7 * Day - 1).Some?
      && VerifyVerificationToken(env, t, code, 7, issued + 7 * Day + 1).None?
  {
  }

  /** Legacy seconds-to-days conversion: 7 days when no expiration is given, otherwise whole days and at least 1. */
  function LegacyDays(expiration: Option<int>): (r: int)
    ensures r >= 1
    ensures expiration.None? ==> r == 7
    ensures expiration.Some? ==> r == if expiration.value / Day < 1 then 1 else expiration.value / Day
  {
    match expiration
    case None => 7
    case Some(e) => if e / Day < 1 then 1 else e / Day
  }

  /** Python's `//` floors; for the positive divisor used here that is Dafny's `/`. */
  lemma LegacyDaysExamples()
    ensures LegacyDays(Some(3 * Day + 5)) == 3
    ensures LegacyDays(Some(3600)) == 1
    ensures LegacyDays(Some(-5)) == 1
  {
  }

  /**
   * Legacy `generate_token`. The expiration it converts is handed on as
   * `expiration_days`, which the generator never reads: the token is the
   * same whatever expiration is given.
   */
  function GenerateToken(env: Env, email: string, code: string, expiration: Option<int>, now: int)
    : (r: Option<Token>)
    ensures r.Some? <==> SignerConfigured(env)
    ensures r == GenerateVerificationToken(env, email, code, 7, now)
    ensures r.Some? ==> r.value.payload == VerificationPayload(email, code, now) && r.value.issuedAt == now
  {
    GenerateVerificationToken(env, email, code, LegacyDays(expiration), now)
  }

  /** Legacy `verify_token`: the maximum age is `LegacyDays(expiration)` whole days. */
  function VerifyToken(env: Env, token: Token, code: string, expiration: Option<int>, now: int)
    : (r: Option<Doc>)
    ensures r == VerifyVerificationToken(env, token, code, LegacyDays(expiration), now)
    ensures token.Signed? && now - token.issuedAt > LegacyDays(expiration) * Day ==> r.None?
  {
    VerifyVerificationToken(env, token, code, LegacyDays(expiration), now)
  }

  /** A sub-day legacy expiration still grants a whole day. */
  lemma LegacyExpirationNeverBelowOneDay(env: Env, email: string, code: string, seconds: int, issued: int)
    requires SignerConfigured(env)
    ensures var t := GenerateToken(env, email, code, Some(seconds), issued).value;
      VerifyToken(env, t, code, Some(seconds), issued + Day).Some?
  {
  }

  /** The payload of a verification-link token. */
  function LinkPayload(email: string, userType: string, days: int, now: int): Doc {
    map["email" := Str(email), "user_type" := Str(userType), "created_at" := Int(now),
        "expires_in_days" := Int(days)]
  }

  /** `generate_verification_link_token`: None unless the signer is configured. */
  function GenerateVerificationLinkToken(env: Env, email: string, userType: string, days: int, now: int)
    : (r: Option<Token>)
    ensures r.Some? <==> SignerConfigured(env)
    ensures r.Some? ==> (r.value.Signed? && r.value.issuedAt == now
                         && r.value.payload == LinkPayload(email, userType, days, now))
  {
    if !SignerConfigured(env) then None
    else Some(Dumps(LinkPayload(email, userType, days, now), env["SECRET_KEY"], env["SECURITY_PASSWORD_SALT"], now))
  }

  /** The maximum age `verify_link_token` applies: the argument, or seven days. */
  function LinkMaxAge(maxAge: Option<int>): int {
    maxAge.GetOr(DefaultMaxAge)
  }

  /**
   * `verify_link_token`: the payload of any genuine token younger than the
   * maximum age; no purpose check, and the payload's `expires_in_days` is
   * not consulted.
   */
  function VerifyLinkToken(env: Env, token: Token, maxAge: Option<int>, now: int): (r: Option<Doc>)
    ensures r.Some? <==> (SignerConfigured(env)
      && Loads(token, Setting(env, "SECRET_KEY"), Setting(env, "SECURITY_PASSWORD_SALT"), LinkMaxAge(maxAge), now).Valid?)
    ensures r.Some? ==> r.value == token.payload
  {
    if !SignerConfigured(env) then None
    else
      match Loads(token, env["SECRET_KEY"], env["SECURITY_PASSWORD_SALT"], LinkMaxAge(maxAge), now)
      case Valid(p) => Some(p)
      case _ => None
  }

  /** A link token minted for one day still verifies six days later: `expires_in_days` is ignored. */
  lemma LinkTokenIgnoresExpiresInDays(env: Env, email: string, userType: string, issued: int)
    requires SignerConfigured(env)
    ensures var t := GenerateVerificationLinkToken(env, email, userType, 1, issued).value;
      VerifyLinkToken(env, t, None, issued + 6 * Day) == Some(LinkPayload(email, userType, 1, issued))
  {
  }

  /** Without a purpose check, a code token is accepted as a link token; the converse is refused. */
  lemma TokenPurposes(env: Env, email: string, code: string, userType: string, now: int)
    requires SignerConfigured(env)
    ensures VerifyLinkToken(env, GenerateVerificationToken(env, email, code, 7, now).value, None, now).Some?
    ensures VerifyVerificationToken(env, GenerateVerificationLinkToken(env, email, userType, 7, now).value,
                                    code, 7, now).None?
  {
    var link := LinkPayload(email, userType, 7, now);
    assert Get(link, "purpose") == Null;
  }

  /** `generate_password_token`: a token carrying the peppered Argon2 hash. */
  function GeneratePasswordToken(env: Env, password: string, userType: string, days: int,
                                 hasher: string -> Option<string>, now: int): (r: Option<Token>)
    ensures r.Some? <==> SignerConfigured(env) && hasher(password + Pepper(env)).Some?
    ensures r.Some? ==> (r.value.Signed? && r.value.issuedAt == now
      && Get(r.value.payload, "password_hash") == Str(hasher(password + Pepper(env)).value))
  {
    if !SignerConfigured(env) then None
    else
      match hasher(password + Pepper(env))
      case None => None
      case Some(h) =>
        var payload := map["password_hash" := Str(h), "user_type" := Str(userType),
                            "created_at" := Int(now), "expires_in_days" := Int(days)];
        Some(Dumps(payload, env["SECRET_KEY"], env["SECURITY_PASSWORD_SALT"], now))
  }

  /**
   * `verify_password_token`: the payload when the token is genuine and
   * fresh, carries a password hash, and the hasher accepts the password.
   */
  function VerifyPasswordToken(env: Env, token: Token, password: string, maxAge: Option<int>,
                               verifier: (string, string) -> Check, now: int): (r: Option<Doc>)
    ensures r.Some? <==> (SignerConfigured(env)
      && Loads(token, Setting(env, "SECRET_KEY"), Setting(env, "SECURITY_PASSWORD_SALT"), LinkMaxAge(maxAge), now).Valid?
      && Get(token.payload, "password_hash").Str? && Get(token.payload, "password_hash").s != ""
      && verifier(Get(token.payload, "password_hash").s, password + Pepper(env)) == Accepted)
    ensures r.Some? ==> r.value == token.payload
  {
    if !SignerConfigured(env) then None
    else
      match Loads(token, env["SECRET_KEY"], env["SECURITY_PASSWORD_SALT"], LinkMaxAge(maxAge), now)
      case Valid(p) =>
        var stored := Get(p, "password_hash");
        if !Truthy(stored) then None
        else if !stored.Str? then None
        else if verifier(stored.s, password + Pepper(env)) == Accepted then Some(p)
        else None
      case _ => None
  }

  /** A fresh password token verifies with the password it was made from, given a sound hasher. */
  lemma PasswordTokenRoundTrip(env: Env, password: string, userType: string, days: int,
                               hasher: string -> Option<string>, verifier: (string, string) -> Check,
                               issued: int, now: int)
    requires SignerConfigured(env)
    requires hasher(password + Pepper(env)).Some? && hasher(password + Pepper(env)).value != ""
    requires verifier(hasher(password + Pepper(env)).value, password + Pepper(env)) == Accepted
    requires 0 <= now - issued <= DefaultMaxAge
    ensures var t := GeneratePasswordToken(env, password, userType, days, hasher, issued).value;
      VerifyPasswordToken(env, t, password, None, verifier, now) == Some(t.payload)
  {
  }

  /** `generate_password_hash_legacy`: unsalted, unpeppered SHA-256. */
  function LegacyPasswordHash(password: string, sha: string -> string): (r: string)
    ensures forall other :: sha(other) == sha(password) ==> VerifyLegacyPasswordHash(other, r, sha)
  {
    sha(password)
  }

  /** `verify_password_hash_legacy`: recompute and compare. */
  predicate VerifyLegacyPasswordHash(password: string, hashValue: string, sha: string -> string) {
    sha(password) == hashValue
  }

  /** The legacy pair round-trips, and any password with a different digest is refused. */
  lemma LegacyHashRoundTrip(password: string, other: string, sha: string -> string)
    ensures VerifyLegacyPasswordHash(password, LegacyPasswordHash(password, sha), sha)
    ensures sha(other) != sha(password) ==> !VerifyLegacyPasswordHash(other, LegacyPasswordHash(password, sha), sha)
  {
  }
}
