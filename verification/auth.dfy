/**
 * Registration and email-link verification: looking an account up by
 * email, allocating the six-character identifier, `create_user` and
 * `verify_link`.
 *
 * The signer's configuration, the Argon2 hasher, the 50 candidate draws of
 * the allocator, whether the verification email went out, and the clock
 * are inputs.
 */
module Accounts {
  import opened Wrappers
  import opened Text
  import opened DocStore
  import opened Replies
  import Ids
  import Tokens

  /** The user types `create_user` accepts. */
  const UserTypes: set<string> := {"patient", "doctor", "admin"}

  /** How many candidates the allocator tries. */
  const MaxAttempts: nat := 50

  /** `string.ascii_uppercase + string.digits`: the allocator's alphabet. */
  const Alphanumerics: string := Ids.Letters + Ids.Digits

  /** The partitions the allocator consults, in order. */
  const IdPartitions: seq<string> := ["patient", "clinician", "moodist"]

  function EmailSelector(email: Value): Doc {
    map["email" := email]
  }

  /**
   * `find_user_by_email`: the first account in the user type's partition
   * with that email; None when there is none or the partition cannot be
   * reached.
   */
  function FindUserByEmail(db: Db, email: Value, userType: string): (r: Option<Doc>)
    ensures r.Some? ==> r.value in Docs(db, DatabaseName(userType)) && "email" in r.value
                        && PyEq(r.value["email"], email)
    ensures r.None? <==> (DatabaseName(userType) in db.down
                          || forall d :: d in Docs(db, DatabaseName(userType)) ==> !Matches(d, EmailSelector(email)))
  {
    FindOne(db, DatabaseName(userType), EmailSelector(email))
  }

  /**
   * The allocator's check of one candidate: some reachable partition holds
   * a document with that `_id` or with that `unique_id`. An unreachable
   * partition finds nothing.
   */
  predicate Taken(db: Db, id: string) {
    exists p :: p in IdPartitions
      && (GetDocument(db, p, id).Some? || FindOne(db, p, map["unique_id" := Str(id)]).Some?)
  }

  /** Attempt `i` draws six characters from A-Z0-9. */
  function Candidate(draws: seq<seq<nat>>, i: nat): (r: string)
    requires i < |draws|
    ensures |r| == |draws[i]|
    ensures forall k :: 0 <= k < |r| ==> r[k] in Alphanumerics
  {
    Ids.Choose(Alphanumerics, draws[i])
  }

  /** The attempts from `i` on: the first whose candidate is free, if any. */
  function FirstFreeAttempt(db: Db, draws: seq<seq<nat>>, i: nat): (r: Option<nat>)
    requires |draws| == MaxAttempts && i <= MaxAttempts
    ensures r.Some? ==> i <= r.value < MaxAttempts && !Taken(db, Candidate(draws, r.value))
    ensures r.Some? ==> forall j :: i <= j < r.value ==> Taken(db, Candidate(draws, j))
    ensures r.None? ==> forall j :: i <= j < MaxAttempts ==> Taken(db, Candidate(draws, j))
    decreases MaxAttempts - i
  {
    if i == MaxAttempts then None
    else if !Taken(db, Candidate(draws, i)) then Some(i)
    else FirstFreeAttempt(db, draws, i + 1)
  }

  /**
   * `generate_unique_id(user_type, client)`: the first of 50 candidates
   * that no reachable partition holds, or None when all 50 are taken.
   */
  function AllocateUniqueId(db: Db, draws: seq<seq<nat>>): (r: Option<string>)
    requires |draws| == MaxAttempts && forall i :: 0 <= i < |draws| ==> |draws[i]| == 6
    ensures r.Some? ==> |r.value| == 6 && !Taken(db, r.value)
    ensures r.Some? ==> forall k :: 0 <= k < 6 ==> r.value[k] in Alphanumerics
    ensures r.Some? ==> exists i :: 0 <= i < MaxAttempts && r.value == Candidate(draws, i)
                                    && forall j :: 0 <= j < i ==> Taken(db, Candidate(draws, j))
    ensures r.None? <==> forall j :: 0 <= j < MaxAttempts ==> Taken(db, Candidate(draws, j))
  {
    match FirstFreeAttempt(db, draws, 0)
    case None => None
    case Some(i) => Some(Candidate(draws, i))
  }

  /** The account is verified as the routes read it: status verified or active, or a truthy `is_verified`. */
  predicate AlreadyVerified(u: Doc) {
    Get(u, "status") in {Str("verified"), Str("active")} || Truthy(Get(u, "is_verified"))
  }

  /** The checked email and password of a registration. */
  datatype Credentials = Credentials(email: string, password: Value)

  /**
   * The checks `create_user` makes before the store is read: a known user
   * type, a body, and a non-empty email (stripped and lower-cased) and
   * password.
   */
  function CreateCheck(userType: string, body: Doc): (r: Checked<Credentials>)
    ensures userType !in UserTypes ==> r == Fail(InvalidUserType)
    ensures userType in UserTypes && |body| == 0 ==> r == Fail(InvalidRequest)
    ensures (userType in UserTypes && |body| > 0 && TextField(body, "email").Some?
             && (Lower(Strip(TextField(body, "email").value)) == "" || !Truthy(GetDefault(body, "password", Str(""))))
            ) ==> r == Fail(MissingField)
    ensures userType in UserTypes && |body| > 0 && TextField(body, "email").None? ==> r == Fail(InternalError)
    ensures r.Fail? ==> IsBadRequest(r.reason) || r.reason == InternalError
    ensures r.Pass? <==> (userType in UserTypes && |body| > 0 && TextField(body, "email").Some?
                          && Lower(Strip(TextField(body, "email").value)) != ""
                          && Truthy(GetDefault(body, "password", Str(""))))
    ensures r.Pass? ==> (userType in UserTypes && TextField(body, "email").Some?
      && r.value.email == Lower(Strip(TextField(body, "email").value)) && r.value.email != ""
      && r.value.password == GetDefault(body, "password", Str("")) && Truthy(r.value.password))
  {
    if userType !in UserTypes then Fail(InvalidUserType)
    else if |body| == 0 then Fail(InvalidRequest)
    else
      match TextField(body, "email")
      case None => Fail(InternalError)
      case Some(raw) => FieldsCheck(Lower(Strip(raw)), GetDefault(body, "password", Str("")))
  }

  /** The field check of `create_user`: both the normalised email and the password must be non-empty. */
  function FieldsCheck(email: string, password: Value): (r: Checked<Credentials>)
    ensures r.Fail? <==> email == "" || !Truthy(password)
    ensures r.Fail? ==> r.reason == MissingField
    ensures r.Pass? ==> r.value == Credentials(email, password)
  {
    if email == "" || !Truthy(password) then Fail(MissingField)
    else Pass(Credentials(email, password))
  }

  /** The account document `create_user` saves. */
  function PendingUser(id: Value, userType: string, email: string, hash: string, token: Token,
                       existing: Option<Doc>, now: int): (r: Doc)
    ensures {"_id", "email", "password", "is_verified", "status", "verification_token", "token_expires_at"} <= r.Keys
    ensures r["_id"] == id && r["email"] == Str(email) && r["password"] == Str(hash)
    ensures r["is_verified"] == Bool(false) && r["status"] == Str("pending_verification")
    ensures r["verification_token"] == Tok(token) && r["token_expires_at"] == Int(now + Tokens.DefaultMaxAge)
    ensures "_rev" in r <==> existing.Some? && "_rev" in existing.value
    ensures "_rev" in r ==> r["_rev"] == existing.value["_rev"]
    ensures !AlreadyVerified(r)
  {
    var d := map["_id" := id, "type" := Str(userType), "user_type" := Str(userType), "email" := Str(email),
                 "password" := Str(hash), "is_verified" := Bool(false), "status" := Str("pending_verification"),
                 "created_at" := Int(now), "updated_at" := Int(now), "verification_token" := Tok(token),
                 "token_expires_at" := Int(now + Tokens.DefaultMaxAge)];
    if existing.Some? && "_rev" in existing.value then d["_rev" := existing.value["_rev"]] else d
  }

  /**
   * The document a registration of a not-yet-verified account saves, or
   * the 500 that stops it: no signer configuration, a password that cannot
   * be hashed, or no free identifier for a new account. An existing
   * account keeps its `_id`.
   */
  function RegistrationDoc(db: Db, env: Tokens.Env, hasher: string -> Option<string>, userType: string,
                           q: Credentials, existing: Option<Doc>, draws: seq<seq<nat>>, now: int)
    : (r: Checked<Doc>)
    requires |draws| == MaxAttempts && forall i :: 0 <= i < |draws| ==> |draws[i]| == 6
    ensures r.Fail? ==> r.reason == InternalError
    ensures !Tokens.SignerConfigured(env) ==> r == Fail(InternalError)
    ensures r.Pass? ==> (Tokens.SignerConfigured(env) && q.password.Str?
      && Tokens.HashPassword(env, q.password.s, hasher).Some?
      && Tokens.HashPassword(env, q.password.s, hasher).value != ""
      && Get(r.value, "email") == Str(q.email) && !AlreadyVerified(r.value)
      && Get(r.value, "password") == Str(Tokens.HashPassword(env, q.password.s, hasher).value)
      && Get(r.value, "verification_token").Tok?)
    ensures r.Pass? && existing.Some? ==> (Get(r.value, "_id") == Get(existing.value, "_id")
      && ("_rev" in r.value <==> "_rev" in existing.value)
      && ("_rev" in existing.value ==> r.value["_rev"] == existing.value["_rev"]))
    ensures r.Pass? && existing.None? ==> (AllocateUniqueId(db, draws).Some?
      && Get(r.value, "_id") == Str(AllocateUniqueId(db, draws).value) && "_rev" !in r.value)
    ensures existing.None? && AllocateUniqueId(db, draws).None? ==> r == Fail(InternalError)
  {
    match Tokens.GenerateVerificationLinkToken(env, q.email, userType, 7, now)
    case None => Fail(InternalError)
    case Some(token) =>
      if !q.password.Str? then Fail(InternalError)
      else
        match Tokens.HashPassword(env, q.password.s, hasher)
        case None => Fail(InternalError)
        case Some(hash) =>
          if hash == "" then Fail(InternalError)
          else if existing.Some? then
            Pass(PendingUser(Get(existing.value, "_id"), userType, q.email, hash, token, existing, now))
          else
            match AllocateUniqueId(db, draws)
            case None => Fail(InternalError)
            case Some(id) => Pass(PendingUser(Str(id), userType, q.email, hash, token, existing, now))
  }

  /** What a registration answers when it does not fail. */
  datatype Registration =
    | AlreadyRegistered
    | LinkSent(token: Token, expiresAt: int)

  /**
   * The store part of `create_user` for checked credentials: an already
   * verified account is told to reset its password and nothing is
   * written; otherwise the pending account document is saved, and a
   * failed email still leaves it saved.
   */
  function Register(db: Db, env: Tokens.Env, hasher: string -> Option<string>, userType: string,
                    q: Credentials, draws: seq<seq<nat>>, sent: bool, now: int): (r: (Db, Reply<Registration>))
    requires |draws| == MaxAttempts && forall i :: 0 <= i < |draws| ==> |draws[i]| == 6
    ensures var existing := FindUserByEmail(db, Str(q.email), userType);
      && (r.1 == Ok(200, AlreadyRegistered) <==> existing.Some? && AlreadyVerified(existing.value))
      && (r.1 == Ok(200, AlreadyRegistered) ==> r.0 == db)
      && (!(existing.Some? && AlreadyVerified(existing.value)) ==>
            var doc := RegistrationDoc(db, env, hasher, userType, q, existing, draws, now);
            && (doc.Fail? ==> r == (db, Err(InternalError)))
            && (doc.Pass? && DatabaseName(userType) in db.down ==> r == (db, Err(InternalError)))
            && (doc.Pass? && DatabaseName(userType) !in db.down ==>
                  && Saved(db, r.0, DatabaseName(userType), doc.value)
                  && (r.1.Ok? <==> sent)
                  && (!sent ==> r.1 == Err(InternalError))))
    ensures r.1.Ok? && r.1.value.LinkSent? ==> r.1.status == 201 && r.1.value.expiresAt == now + Tokens.DefaultMaxAge
  {
    var existing := FindUserByEmail(db, Str(q.email), userType);
    if existing.Some? && AlreadyVerified(existing.value) then (db, Ok(200, AlreadyRegistered))
    else
      match RegistrationDoc(db, env, hasher, userType, q, existing, draws, now)
      case Fail(reason) => (db, Err(reason))
      case Pass(doc) =>
        match SaveDocument(db, DatabaseName(userType), doc)
        case None => (db, Err(InternalError))
        case Some(db2) =>
          if !sent then (db2, Err(InternalError))
          else (db2, Ok(201, LinkSent(Get(doc, "verification_token").token, now + Tokens.DefaultMaxAge)))
  }

  /** `create_user(user_type)` with request body `body`. */
  function CreateUser(db: Db, env: Tokens.Env, hasher: string -> Option<string>, userType: string, body: Doc,
                      draws: seq<seq<nat>>, sent: bool, now: int): (r: (Db, Reply<Registration>))
    requires |draws| == MaxAttempts && forall i :: 0 <= i < |draws| ==> |draws[i]| == 6
    ensures CreateCheck(userType, body).Fail? ==> r == (db, Err(CreateCheck(userType, body).reason))
    ensures CreateCheck(userType, body).Pass? ==>
      r == Register(db, env, hasher, userType, CreateCheck(userType, body).value, draws, sent, now)
  {
    match CreateCheck(userType, body)
    case Fail(reason) => (db, Err(reason))
    case Pass(q) => Register(db, env, hasher, userType, q, draws, sent, now)
  }

  /**
   * The partition `get_database_name` gives for a payload's `user_type`:
   * any value that is not a known string maps to `moodist`, and an
   * unhashable one (a dict or a list) makes the lookup raise.
   */
  function PartitionFor(userType: Value): (r: Option<string>)
    ensures userType.Str? ==> r == Some(DatabaseName(userType.s))
    ensures r.None? <==> userType.Obj? || userType.Lines?
  {
    match userType
    case Str(s) => Some(DatabaseName(s))
    case Obj(_) => None
    case Lines(_) => None
    case _ => Some("moodist")
  }

  /** The account after verification: the verification fields go, the identifier and timestamps come. */
  function VerifiedUser(user: Doc, uid: string, now: int): (r: Doc)
    ensures r.Keys == (user.Keys - {"verification_token", "token_expires_at"})
                      + {"status", "is_verified", "unique_id", "verified_at", "updated_at"}
    ensures r["status"] == Str("verified") && r["is_verified"] == Bool(true) && r["unique_id"] == Str(uid)
    ensures r["verified_at"] == Int(now) && r["updated_at"] == Int(now)
    ensures forall k :: (k in user && k !in {"verification_token", "token_expires_at", "status", "is_verified",
                                             "unique_id", "verified_at", "updated_at"}) ==> r[k] == user[k]
    ensures AlreadyVerified(r)
  {
    var v := user["status" := Str("verified")]["is_verified" := Bool(true)]["unique_id" := Str(uid)]
                 ["verified_at" := Int(now)]["updated_at" := Int(now)];
    v - {"verification_token", "token_expires_at"}
  }

  /** What the token of a verification link leads to: the account's partition and email, or why it is refused. */
  function LinkTarget(env: Tokens.Env, token: Token, now: int): (r: Checked<(string, Value)>)
    ensures Tokens.VerifyLinkToken(env, token, None, now).None? ==> r == Fail(InvalidLink)
    ensures Tokens.VerifyLinkToken(env, token, None, now).Some? ==>
      var payload := Tokens.VerifyLinkToken(env, token, None, now).value;
      var email := Get(payload, "email");
      var userType := Get(payload, "user_type");
      && (|payload| == 0 ==> r == Fail(InvalidLink))
      && (|payload| > 0 && (!Truthy(email) || !Truthy(userType)) ==> r == Fail(InvalidPayload))
      && (|payload| > 0 && Truthy(email) && Truthy(userType) && PartitionFor(userType).None?
          ==> r == Fail(InternalError))
      && (|payload| > 0 && Truthy(email) && Truthy(userType) && PartitionFor(userType).Some?
          ==> r == Pass((PartitionFor(userType).value, email)))
    ensures r.Pass? ==> (Tokens.VerifyLinkToken(env, token, None, now).Some?
      && var payload := Tokens.VerifyLinkToken(env, token, None, now).value;
         && |payload| > 0 && Truthy(Get(payload, "email")) && Truthy(Get(payload, "user_type"))
         && PartitionFor(Get(payload, "user_type")).Some?
         && r.value == (PartitionFor(Get(payload, "user_type")).value, Get(payload, "email")))
    ensures r.Fail? ==> r.reason in {InvalidLink, InvalidPayload, InternalError}
  {
    match Tokens.VerifyLinkToken(env, token, None, now)
    case None => Fail(InvalidLink)
    case Some(payload) =>
      if |payload| == 0 then Fail(InvalidLink)
      else
        var email := Get(payload, "email");
        var userType := Get(payload, "user_type");
        if !Truthy(email) || !Truthy(userType) then Fail(InvalidPayload)
        else
          match PartitionFor(userType)
          case None => Fail(InternalError)
          case Some(part) => Pass((part, email))
  }

  /**
   * The store part of `verify_link` for the account with `email` in
   * partition `part`: an already verified account answers "Email verified"
   * with no write; otherwise the account gets a freshly allocated
   * identifier and is saved as verified, and nothing is written when
   * allocation fails.
   */
  function VerifyAccountIn(db: Db, part: string, email: Value, draws: seq<seq<nat>>, now: int): (r: (Db, Reply<()>))
    requires |draws| == MaxAttempts && forall i :: 0 <= i < |draws| ==> |draws[i]| == 6
    ensures r.1.Err? ==> r.0 == db
    ensures r.1 == Err(UserNotFound) <==> FindOne(db, part, EmailSelector(email)).None?
    ensures r.1.Err? ==> r.1.reason in {UserNotFound, InternalError}
    ensures FindOne(db, part, EmailSelector(email)).Some? && AlreadyVerified(FindOne(db, part, EmailSelector(email)).value)
            ==> r == (db, Ok(200, ()))
    ensures (FindOne(db, part, EmailSelector(email)).Some? && !AlreadyVerified(FindOne(db, part, EmailSelector(email)).value)
             && AllocateUniqueId(db, draws).None?) ==> r == (db, Err(InternalError))
    ensures (FindOne(db, part, EmailSelector(email)).Some? && !AlreadyVerified(FindOne(db, part, EmailSelector(email)).value)
             && AllocateUniqueId(db, draws).Some?) ==>
      && r.1 == Ok(200, ())
      && Saved(db, r.0, part, VerifiedUser(FindOne(db, part, EmailSelector(email)).value,
                                           AllocateUniqueId(db, draws).value, now))
  {
    match FindOne(db, part, EmailSelector(email))
    case None => (db, Err(UserNotFound))
    case Some(user) =>
      if AlreadyVerified(user) then (db, Ok(200, ()))
      else
        match AllocateUniqueId(db, draws)
        case None => (db, Err(InternalError))
        case Some(uid) =>
          match SaveDocument(db, part, VerifiedUser(user, uid, now))
          case None => (db, Err(InternalError))
          case Some(db2) => (db2, Ok(200, ()))
  }

  /** `verify_link(token)`; the link's maximum age is the seven-day default. */
  function VerifyLink(db: Db, env: Tokens.Env, token: Token, draws: seq<seq<nat>>, now: int)
    : (r: (Db, Reply<()>))
    requires |draws| == MaxAttempts && forall i :: 0 <= i < |draws| ==> |draws[i]| == 6
    ensures LinkTarget(env, token, now).Fail? ==> r == (db, Err(LinkTarget(env, token, now).reason))
    ensures LinkTarget(env, token, now).Pass? ==>
      r == VerifyAccountIn(db, LinkTarget(env, token, now).value.0, LinkTarget(env, token, now).value.1, draws, now)
  {
    match LinkTarget(env, token, now)
    case Fail(reason) => (db, Err(reason))
    case Pass((part, email)) => VerifyAccountIn(db, part, email, draws, now)
  }
}
