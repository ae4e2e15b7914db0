/**
 * The email-verification record: construction, its CouchDB form, expiry and
 * the five-attempt limit.
 *
 * Timestamps are integer seconds; the record's id suffix (`uuid4`) and the
 * clock are inputs.
 */
module Verifications {
  import opened Wrappers
  import opened Text
  import opened DocStore
  import Tokens

  /** Attempts after which a verification fails. */
  const MaxAttempts: int := 5

  datatype Verification = Verification(
    id: Value,
    email: string,
    code: Value,
    token: Value,
    attempts: int,
    status: Value,
    createdAt: Value,
    expiresAt: int)

  /** `Verification(email, code, token, expires_at, attempts, status)` at second `now`. */
  function New(email: string, code: Value, token: Value, expiresAt: Option<int>, attempts: int,
               status: Value, now: int, uuid: string): (r: Verification)
    ensures r.email == Lower(email) && Lower(r.email) == r.email
    ensures expiresAt.None? ==> r.expiresAt == now + 7 * Tokens.Day
    ensures expiresAt.Some? ==> r.expiresAt == expiresAt.value
    ensures r.id == Str("verification:" + uuid) && r.createdAt == Int(now)
    ensures r.code == code && r.token == token && r.attempts == attempts && r.status == status
  {
    LowerIdempotent(email);
    Verification(Str("verification:" + uuid), Lower(email), code, token, attempts, status, Int(now),
                 expiresAt.GetOr(now + 7 * Tokens.Day))
  }

  /** `to_dict`. */
  function ToDict(v: Verification): (r: Doc)
    ensures r.Keys == {"_id", "type", "email", "code", "token", "attempts", "status", "created_at", "expires_at"}
    ensures r["type"] == Str("verification") && r["email"] == Str(v.email)
  {
    map["_id" := v.id, "type" := Str("verification"), "email" := Str(v.email), "code" := v.code,
        "token" := v.token, "attempts" := Int(v.attempts), "status" := v.status,
        "created_at" := v.createdAt, "expires_at" := Int(v.expiresAt)]
  }

  /**
   * `from_dict`: None when the record cannot be rebuilt (the email is not a
   * string, attempts is not an integer, expires_at is not a timestamp). A
   * missing expires_at gets the seven-day default from `now`.
   */
  function FromDict(data: Doc, now: int): (r: Option<Verification>)
    ensures r.Some? <==> (Get(data, "email").Str?
                          && (("attempts" in data) ==> Numeric(data["attempts"]).Some?)
                          && (Get(data, "expires_at").Null? || Get(data, "expires_at").Int?))
    ensures r.Some? ==> (r.value.email == Lower(Get(data, "email").s)
                         && r.value.id == Get(data, "_id")
                         && r.value.createdAt == Get(data, "created_at")
                         && r.value.status == GetDefault(data, "status", Str("pending")))
    ensures r.Some? && "attempts" !in data ==> r.value.attempts == 0
    ensures r.Some? && Get(data, "expires_at").Null? ==> r.value.expiresAt == now + 7 * Tokens.Day
  {
    var email := Get(data, "email");
    var attempts := Numeric(GetDefault(data, "attempts", Int(0)));
    var expires := Get(data, "expires_at");
    if !email.Str? || attempts.None? then None
    else if !(expires.Null? || expires.Int?) then None
    else
      var v := New(email.s, Get(data, "code"), Get(data, "token"),
                   if expires.Int? then Some(expires.i) else None,
                   attempts.value, GetDefault(data, "status", Str("pending")), now, "");
      Some(v.(id := Get(data, "_id"), createdAt := Get(data, "created_at")))
  }

  /** Reading back what `to_dict` wrote rebuilds the record, since the stored email is already lower-case. */
  lemma FromDictToDict(v: Verification, now: int)
    requires Lower(v.email) == v.email
    ensures FromDict(ToDict(v), now) == Some(v)
  {
  }

  /** A freshly built record survives a store round trip unchanged. */
  lemma NewRoundTrip(email: string, code: Value, token: Value, expiresAt: Option<int>, attempts: int,
                     status: Value, created: int, uuid: string, now: int)
    ensures var v := New(email, code, token, expiresAt, attempts, status, created, uuid);
      FromDict(ToDict(v), now) == Some(v)
  {
    var v := New(email, code, token, expiresAt, attempts, status, created, uuid);
    FromDictToDict(v, now);
  }

  /** `is_expired`: strictly after the expiry second. */
  predicate IsExpired(v: Verification, now: int) {
    now > v.expiresAt
  }

  /** `get_time_remaining`, in seconds, never negative. */
  function TimeRemaining(v: Verification, now: int): (r: int)
    ensures r >= 0
    ensures IsExpired(v, now) ==> r == 0
    ensures r > 0 ==> !IsExpired(v, now) && now + r == v.expiresAt
    ensures !IsExpired(v, now) && now != v.expiresAt ==> r > 0
  {
    if v.expiresAt - now > 0 then v.expiresAt - now else 0
  }

  /** `increment_attempts`: one more attempt; the status becomes failed from the fifth on. */
  function Increment(v: Verification): (r: Verification)
    ensures r.attempts == v.attempts + 1
    ensures r.attempts >= MaxAttempts ==> r.status == Str("failed")
    ensures r.attempts < MaxAttempts ==> r.status == v.status
    ensures r.(attempts := v.attempts, status := v.status) == v
  {
    var w := v.(attempts := v.attempts + 1);
    if w.attempts >= MaxAttempts then w.(status := Str("failed")) else w
  }

  /** `n` successive calls of `increment_attempts`. */
  function IncrementTimes(v: Verification, n: nat): Verification
    decreases n
  {
    if n == 0 then v else Increment(IncrementTimes(v, n - 1))
  }

  /** `can_attempt_verification`. */
  predicate CanAttempt(v: Verification, now: int) {
    PyEq(v.status, Str("pending")) && v.attempts < MaxAttempts && !IsExpired(v, now)
  }

  /**
   * Repeated increments add exactly `n` attempts and change nothing else
   * except the status; once the fifth attempt is reached the status is
   * failed and no further attempt is allowed.
   */
  lemma {:induction false} IncrementTimesSpec(v: Verification, n: nat, now: int)
    ensures IncrementTimes(v, n).attempts == v.attempts + n
    ensures IncrementTimes(v, n).(attempts := v.attempts, status := v.status) == v
    ensures n > 0 && v.attempts + n >= MaxAttempts ==> IncrementTimes(v, n).status == Str("failed")
    ensures v.attempts + n >= MaxAttempts ==> !CanAttempt(IncrementTimes(v, n), now)
    ensures v.attempts + n < MaxAttempts ==> IncrementTimes(v, n).status == v.status
    decreases n
  {
    if n > 0 {
      IncrementTimesSpec(v, n - 1, now);
    }
  }

  /** Five increments from a fresh record block further attempts. */
  lemma FiveIncrementsBlock(v: Verification, now: int)
    requires v.attempts == 0
    ensures CanAttempt(v, now) ==> !CanAttempt(IncrementTimes(v, 5), now)
    ensures IncrementTimes(v, 4).status == v.status
  {
    IncrementTimesSpec(v, 5, now);
    IncrementTimesSpec(v, 4, now);
  }

  /** `mark_as_verified`. */
  function MarkVerified(v: Verification): (r: Verification)
    ensures forall k :: k in ToDict(v) && k != "status" ==> ToDict(r)[k] == ToDict(v)[k]
    ensures ToDict(r)["status"] == Str("verified")
  {
    v.(status := Str("verified"))
  }

  /** `mark_as_expired`. */
  function MarkExpired(v: Verification): (r: Verification)
    ensures forall k :: k in ToDict(v) && k != "status" ==> ToDict(r)[k] == ToDict(v)[k]
    ensures ToDict(r)["status"] == Str("expired")
  {
    v.(status := Str("expired"))
  }

  /** A verified or expired record admits no further attempt, at any time. */
  lemma MarkedBlocksAttempts(v: Verification, now: int)
    ensures !CanAttempt(MarkVerified(v), now)
    ensures !CanAttempt(MarkExpired(v), now)
  {
  }
}
