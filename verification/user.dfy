/**
 * The account record: construction with peppered password hashing, its
 * CouchDB form, the verification transition and the small queries on it.
 */
module Users {
  import opened Wrappers
  import opened Text
  import opened DocStore
  import Tokens

  datatype User = User(
    id: Value,
    userType: Value,
    email: string,
    password: Value,
    firstName: Option<string>,
    lastName: Option<string>,
    isVerified: Value,
    isActive: Value,
    status: Value,
    createdAt: Value,
    updatedAt: Value,
    verifiedAt: Value,
    uniqueId: Value)

  const PendingVerification: string := "pending_verification"

  function NameValue(n: Option<string>): Value {
    match n
    case None => Null
    case Some(s) => Str(s)
  }

  /**
   * `User(email, password, ...)` at second `now`: None where the
   * constructor raises, which is when a non-empty password fails to hash
   * (an empty hash counts as a failure).
   */
  function NewUser(env: Tokens.Env, hasher: string -> Option<string>, email: string, password: string,
                   userType: Value, firstName: Option<string>, lastName: Option<string>,
                   isVerified: Value, isActive: Value, uniqueId: Value, status: Value, now: int)
    : (r: Option<User>)
    ensures r.None? <==> (password != "" && !(Tokens.HashPassword(env, password, hasher).Some?
                                              && Tokens.HashPassword(env, password, hasher).value != ""))
    ensures r.Some? ==> (r.value.email == Lower(email) && r.value.id == Str("user:" + Lower(email))
                         && r.value.createdAt == Int(now) && r.value.updatedAt == Int(now)
                         && r.value.verifiedAt == Null && r.value.uniqueId == uniqueId)
    ensures r.Some? ==> Lower(r.value.email) == r.value.email
    ensures r.Some? && password == "" ==> r.value.password == Null
    ensures r.Some? && password != "" ==> r.value.password == Str(Tokens.HashPassword(env, password, hasher).value)
  {
    LowerIdempotent(email);
    var base := User(Str("user:" + Lower(email)), userType, Lower(email), Null, firstName, lastName,
                     isVerified, isActive, status, Int(now), Int(now), Null, uniqueId);
    if password == "" then Some(base)
    else
      match Tokens.HashPassword(env, password, hasher)
      case Some(h) => if h != "" then Some(base.(password := Str(h))) else None
      case None => None
  }

  /** The keys `to_dict` always writes. */
  const StoredKeys: set<string> := {"_id", "type", "user_type", "email", "password", "first_name",
    "last_name", "is_verified", "is_active", "status", "created_at", "updated_at", "verified_at"}

  /** The stored value of field `key` of `u`. */
  function Field(u: User, key: string): Value {
    if key == "_id" then u.id
    else if key == "type" then Str("user")
    else if key == "user_type" then u.userType
    else if key == "email" then Str(u.email)
    else if key == "password" then u.password
    else if key == "first_name" then NameValue(u.firstName)
    else if key == "last_name" then NameValue(u.lastName)
    else if key == "is_verified" then u.isVerified
    else if key == "is_active" then u.isActive
    else if key == "status" then u.status
    else if key == "created_at" then u.createdAt
    else if key == "updated_at" then u.updatedAt
    else if key == "verified_at" then u.verifiedAt
    else Null
  }

  /** `to_dict`: every field, plus `unique_id` only when it is set. */
  function ToDict(u: User): (r: Doc)
    ensures "unique_id" in r <==> Truthy(u.uniqueId)
    ensures "unique_id" in r ==> r["unique_id"] == u.uniqueId
    ensures r.Keys - {"unique_id"} == StoredKeys
    ensures r["type"] == Str("user") && r["email"] == Str(u.email) && r["_id"] == u.id
  {
    var d := map k | k in StoredKeys :: Field(u, k);
    if Truthy(u.uniqueId) then d["unique_id" := u.uniqueId] else d
  }

  /** A stored name that the record can hold: a string or null. */
  predicate NameField(v: Value) {
    v.Null? || v.Str?
  }

  function NameOf(v: Value): Option<string> {
    if v.Str? then Some(v.s) else None
  }

  /**
   * `from_dict`: None when the email is not a string (the constructor
   * cannot lower-case it) or a name is neither a string nor null. The
   * email is lower-cased and absent fields take the constructor defaults.
   */
  function FromDict(data: Doc): (r: Option<User>)
    ensures r.Some? <==> (Get(data, "email").Str? && NameField(Get(data, "first_name"))
                          && NameField(Get(data, "last_name")))
    ensures r.Some? ==> (r.value.email == Lower(Get(data, "email").s)
                         && r.value.id == Get(data, "_id") && r.value.password == Get(data, "password")
                         && r.value.status == GetDefault(data, "status", Str(PendingVerification))
                         && r.value.userType == GetDefault(data, "user_type", Str("patient"))
                         && r.value.isVerified == GetDefault(data, "is_verified", Bool(false))
                         && r.value.uniqueId == Get(data, "unique_id"))
  {
    var email := Get(data, "email");
    if !email.Str? || !NameField(Get(data, "first_name")) || !NameField(Get(data, "last_name")) then None
    else
      Some(User(Get(data, "_id"), GetDefault(data, "user_type", Str("patient")), Lower(email.s),
                Get(data, "password"), NameOf(Get(data, "first_name")), NameOf(Get(data, "last_name")),
                GetDefault(data, "is_verified", Bool(false)), GetDefault(data, "is_active", Bool(false)),
                GetDefault(data, "status", Str(PendingVerification)), Get(data, "created_at"),
                Get(data, "updated_at"), Get(data, "verified_at"), Get(data, "unique_id")))
  }

  /**
   * The stored form is a fixed point of a read: `to_dict(from_dict(to_dict(u)))
   * == to_dict(u)` for a record whose email is lower-case, and the record
   * itself comes back unless its `unique_id` is falsy but not null. Every
   * record `NewUser` builds meets the precondition.
   */
  lemma ToDictFromDict(u: User)
    requires Lower(u.email) == u.email
    ensures FromDict(ToDict(u)).Some?
    ensures ToDict(FromDict(ToDict(u)).value) == ToDict(u)
    ensures Truthy(u.uniqueId) || u.uniqueId == Null ==> FromDict(ToDict(u)) == Some(u)
  {
    var w := u.(uniqueId := if Truthy(u.uniqueId) then u.uniqueId else Null);
    ReadBack(u);
    SameStoredFields(u, w);
  }

  /** Reading the stored form back gives the record, with a falsy `unique_id` read as null. */
  lemma ReadBack(u: User)
    requires Lower(u.email) == u.email
    ensures FromDict(ToDict(u)) == Some(u.(uniqueId := if Truthy(u.uniqueId) then u.uniqueId else Null))
  {
    var d := ToDict(u);
    assert forall k :: k in StoredKeys ==> k in d && d[k] == Field(u, k);
    assert NameOf(NameValue(u.firstName)) == u.firstName;
    assert NameOf(NameValue(u.lastName)) == u.lastName;
  }

  /** Two records that differ at most in `unique_id`, with the same truthiness there, store alike. */
  lemma SameStoredFields(u: User, w: User)
    requires w == u.(uniqueId := w.uniqueId)
    requires Truthy(u.uniqueId) == Truthy(w.uniqueId)
    requires Truthy(u.uniqueId) ==> w.uniqueId == u.uniqueId
    ensures ToDict(w) == ToDict(u)
  {
    assert forall k :: Field(w, k) == Field(u, k);
    var a := map k | k in StoredKeys :: Field(u, k);
    var b := map k | k in StoredKeys :: Field(w, k);
    assert a == b;
  }

  /** `verify_account(unique_id)` at second `now`. */
  function VerifyAccount(u: User, uniqueId: Value, now: int): (r: User)
    ensures r.isVerified == Bool(true) && r.isActive == Bool(true) && r.status == Str("verified")
    ensures r.verifiedAt == Int(now) && r.updatedAt == Int(now)
    ensures r.uniqueId == (if Truthy(uniqueId) then uniqueId else u.uniqueId)
    ensures r.(isVerified := u.isVerified, isActive := u.isActive, status := u.status,
               verifiedAt := u.verifiedAt, updatedAt := u.updatedAt, uniqueId := u.uniqueId) == u
  {
    u.(isVerified := Bool(true), isActive := Bool(true), status := Str("verified"),
       verifiedAt := Int(now), updatedAt := Int(now),
       uniqueId := if Truthy(uniqueId) then uniqueId else u.uniqueId)
  }

  /** `is_pending_verification`. */
  predicate IsPending(u: User) {
    PyEq(u.status, Str(PendingVerification)) && !Truthy(u.isVerified)
  }

  /** Python's `x in list`: some element compares equal. */
  predicate InList(v: Value, xs: seq<Value>)
    decreases |xs|
  {
    |xs| > 0 && (PyEq(v, xs[0]) || InList(v, xs[1..]))
  }

  /** `can_resend_verification`. */
  predicate CanResend(u: User) {
    InList(u.status, [Str(PendingVerification)]) && !Truthy(u.isVerified)
  }

  /** Both queries agree on every record, and a verified account answers neither. */
  lemma PendingIffCanResend(u: User, uniqueId: Value, now: int)
    ensures IsPending(u) <==> CanResend(u)
    ensures !IsPending(VerifyAccount(u, uniqueId, now)) && !CanResend(VerifyAccount(u, uniqueId, now))
  {
    assert InList(u.status, [Str(PendingVerification)]) <==> PyEq(u.status, Str(PendingVerification)) by {
      assert [Str(PendingVerification)][1..] == [];
    }
    var v := VerifyAccount(u, uniqueId, now);
    assert [Str(PendingVerification)][1..] == [];
  }

  /** `update_password`: on a failed or empty hash nothing changes and the answer is false. */
  function UpdatePassword(u: User, newPassword: string, env: Tokens.Env, hasher: string -> Option<string>,
                          now: int): (r: (User, bool))
    ensures !r.1 ==> r.0 == u
    ensures r.1 <==> (Tokens.HashPassword(env, newPassword, hasher).Some?
                      && Tokens.HashPassword(env, newPassword, hasher).value != "")
    ensures r.1 ==> (r.0 == u.(password := r.0.password, updatedAt := Int(now))
                     && r.0.password == Str(Tokens.HashPassword(env, newPassword, hasher).value))
  {
    match Tokens.HashPassword(env, newPassword, hasher)
    case Some(h) => if h != "" then (u.(password := Str(h), updatedAt := Int(now)), true) else (u, false)
    case None => (u, false)
  }

  /** After a successful update the stored hash verifies the new password, given a sound hasher. */
  lemma UpdatePasswordThenVerify(u: User, newPassword: string, env: Tokens.Env,
                                 hasher: string -> Option<string>, verifier: (string, string) -> Tokens.Check,
                                 now: int)
    requires UpdatePassword(u, newPassword, env, hasher, now).1
    requires verifier(hasher(newPassword + Tokens.Pepper(env)).value, newPassword + Tokens.Pepper(env))
             == Tokens.Accepted
    ensures Tokens.VerifyPassword(env, UpdatePassword(u, newPassword, env, hasher, now).0.password.s,
                                  newPassword, verifier)
  {
  }

  /** `get_display_name`. */
  function DisplayName(u: User): (r: string)
    ensures |r| > 0 <==> (u.firstName.Some? && u.firstName.value != "") || u.email != ""
    ensures u.firstName.Some? && u.firstName.value != "" ==>
      |r| >= |u.firstName.value| && r[..|u.firstName.value|] == u.firstName.value
    ensures u.firstName.None? || u.firstName.value == "" ==> r == u.email
    ensures u.firstName.Some? && u.firstName.value != "" && u.lastName.Some? && u.lastName.value != ""
            ==> r == u.firstName.value + " " + u.lastName.value
    ensures u.firstName.Some? && u.firstName.value != "" && (u.lastName.None? || u.lastName.value == "")
            ==> r == u.firstName.value
  {
    match (u.firstName, u.lastName)
    case (Some(f), Some(l)) =>
      if f != "" && l != "" then f + " " + l
      else if f != "" then f
      else u.email
    case (Some(f), None) => if f != "" then f else u.email
    case _ => u.email
  }

  /**
   * With both names set and no space in the first name, splitting the
   * display name at its first space gives the two names back.
   */
  lemma DisplayNameSplits(u: User)
    requires u.firstName.Some? && u.firstName.value != "" && ' ' !in u.firstName.value
    requires u.lastName.Some? && u.lastName.value != ""
    ensures Before(DisplayName(u), ' ') == u.firstName.value
    ensures After(DisplayName(u), ' ') == Some(u.lastName.value)
  {
    SplitFirstWord(u.firstName.value, u.lastName.value);
  }
}
