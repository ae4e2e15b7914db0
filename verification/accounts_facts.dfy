/**
 * The account life cycle across routes: registration leaves a pending
 * account, verification makes it verified once and for all, and a
 * verified account cannot register again. Also why an identifier the
 * registration allocator hands out can be refused by `connect`.
 */
module AccountFacts {
  import opened Wrappers
  import opened Text
  import opened DocStore
  import opened Replies
  import opened Accounts
  import Ids
  import Tokens
  import Connections

  /** At most one account (one `_id`) in partition `part` holds that email. */
  predicate OneAccountPerEmail(db: Db, part: string, email: Value) {
    forall d, e :: d in Docs(db, part) && e in Docs(db, part)
                   && Matches(d, EmailSelector(email)) && Matches(e, EmailSelector(email))
                   ==> Get(d, "_id") == Get(e, "_id")
  }

  /**
   * A link minted for a non-empty email and user type is accepted for up to
   * seven days, whatever `expires_in_days` it carries, and `verify_link`
   * then verifies the account with that email in the type's partition.
   */
  lemma GenuineLinkAccepted(db: Db, env: Tokens.Env, email: string, userType: string, days: int,
                            draws: seq<seq<nat>>, issued: int, now: int)
    requires Tokens.SignerConfigured(env)
    requires email != "" && userType != ""
    requires 0 <= now - issued <= Tokens.DefaultMaxAge
    requires |draws| == MaxAttempts && forall i :: 0 <= i < |draws| ==> |draws[i]| == 6
    ensures var link := Tokens.GenerateVerificationLinkToken(env, email, userType, days, issued).value;
      && LinkTarget(env, link, now) == Pass((DatabaseName(userType), Str(email)))
      && VerifyLink(db, env, link, draws, now) == VerifyAccountIn(db, DatabaseName(userType), Str(email), draws, now)
  {
    var link := Tokens.GenerateVerificationLinkToken(env, email, userType, days, issued).value;
    var payload := Tokens.LinkPayload(email, userType, days, issued);
    assert Tokens.VerifyLinkToken(env, link, None, now) == Some(payload);
    assert Get(payload, "email") == Str(email) && Get(payload, "user_type") == Str(userType);
  }

  /** Verifying keeps an account's email and `_id`. */
  lemma VerifiedKeepsIdentity(user: Doc, uid: string, now: int, email: Value)
    requires Matches(user, EmailSelector(email))
    ensures Matches(VerifiedUser(user, uid, now), EmailSelector(email))
    ensures Get(VerifiedUser(user, uid, now), "_id") == Get(user, "_id")
  {
    assert "email" in user;
  }

  /** Saving the verified form of an account that is alone with its email: the email then finds that form. */
  lemma SavedVerifiedIsFound(db: Db, after: Db, part: string, email: Value, user: Doc, uid: string, now: int)
    requires user in Docs(db, part) && Matches(user, EmailSelector(email))
    requires OneAccountPerEmail(db, part, email)
    requires Saved(db, after, part, VerifiedUser(user, uid, now))
    ensures FindOne(after, part, EmailSelector(email)) == Some(VerifiedUser(user, uid, now))
  {
    var sel := EmailSelector(email);
    var v := VerifiedUser(user, uid, now);
    VerifiedKeepsIdentity(user, uid, now, email);
    forall d | d in Docs(db, part) && Matches(d, sel) ensures Get(d, "_id") == Get(v, "_id") {
      assert Get(d, "_id") == Get(user, "_id");
    }
    SavedIsFound(db, after, part, sel, v);
  }

  /** After verifying an account that is alone with its email, the email finds the verified document. */
  lemma VerifiedIsFound(db: Db, part: string, email: Value, draws: seq<seq<nat>>, now: int)
    requires |draws| == MaxAttempts && forall i :: 0 <= i < |draws| ==> |draws[i]| == 6
    requires VerifyAccountIn(db, part, email, draws, now).1.Ok? && OneAccountPerEmail(db, part, email)
    ensures FindOne(VerifyAccountIn(db, part, email, draws, now).0, part, EmailSelector(email)).Some?
    ensures AlreadyVerified(FindOne(VerifyAccountIn(db, part, email, draws, now).0, part, EmailSelector(email)).value)
  {
    var user := FindOne(db, part, EmailSelector(email)).value;
    if !AlreadyVerified(user) {
      var uid := AllocateUniqueId(db, draws).value;
      SavedVerifiedIsFound(db, VerifyAccountIn(db, part, email, draws, now).0, part, email, user, uid, now);
    }
  }

  /** `verify_link` is idempotent: once it succeeded, verifying again answers the same and writes nothing. */
  lemma VerifyTwiceWritesOnce(db: Db, part: string, email: Value, draws: seq<seq<nat>>, draws2: seq<seq<nat>>,
                              now: int, later: int)
    requires |draws| == MaxAttempts && forall i :: 0 <= i < |draws| ==> |draws[i]| == 6
    requires |draws2| == MaxAttempts && forall i :: 0 <= i < |draws2| ==> |draws2[i]| == 6
    requires VerifyAccountIn(db, part, email, draws, now).1.Ok? && OneAccountPerEmail(db, part, email)
    ensures var after := VerifyAccountIn(db, part, email, draws, now).0;
      VerifyAccountIn(after, part, email, draws2, later) == (after, Ok(200, ()))
  {
    VerifiedIsFound(db, part, email, draws, now);
  }

  /** A verified account that tries to register again is sent to password reset and nothing is written. */
  lemma VerifiedCannotReregister(db: Db, email: string, userType: string, draws: seq<seq<nat>>, now: int,
                                 env: Tokens.Env, hasher: string -> Option<string>, password: Value,
                                 draws2: seq<seq<nat>>, sent: bool, later: int)
    requires |draws| == MaxAttempts && forall i :: 0 <= i < |draws| ==> |draws[i]| == 6
    requires |draws2| == MaxAttempts && forall i :: 0 <= i < |draws2| ==> |draws2[i]| == 6
    requires var part := DatabaseName(userType);
      VerifyAccountIn(db, part, Str(email), draws, now).1.Ok? && OneAccountPerEmail(db, part, Str(email))
    ensures var after := VerifyAccountIn(db, DatabaseName(userType), Str(email), draws, now).0;
      Register(after, env, hasher, userType, Credentials(email, password), draws2, sent, later)
        == (after, Ok(200, AlreadyRegistered))
  {
    VerifiedIsFound(db, DatabaseName(userType), Str(email), draws, now);
  }

  /**
   * After a registration that saved its document, the email finds that
   * document and it is pending: the state machine starts in
   * `pending_verification` whether the account is new or re-registered.
   */
  lemma RegisteredIsPending(db: Db, env: Tokens.Env, hasher: string -> Option<string>, userType: string,
                            q: Credentials, draws: seq<seq<nat>>, sent: bool, now: int)
    requires |draws| == MaxAttempts && forall i :: 0 <= i < |draws| ==> |draws[i]| == 6
    requires OneAccountPerEmail(db, DatabaseName(userType), Str(q.email))
    requires var r := Register(db, env, hasher, userType, q, draws, sent, now);
      r.1 != Ok(200, AlreadyRegistered) && r.0 != db
    ensures var after := Register(db, env, hasher, userType, q, draws, sent, now).0;
      && FindUserByEmail(after, Str(q.email), userType).Some?
      && !AlreadyVerified(FindUserByEmail(after, Str(q.email), userType).value)
  {
    var part := DatabaseName(userType);
    var sel := EmailSelector(Str(q.email));
    var existing := FindUserByEmail(db, Str(q.email), userType);
    var doc := RegistrationDoc(db, env, hasher, userType, q, existing, draws, now).value;
    var after := Register(db, env, hasher, userType, q, draws, sent, now).0;
    assert Saved(db, after, part, doc);
    assert Matches(doc, sel);
    if existing.Some? {
      assert Get(doc, "_id") == Get(existing.value, "_id");
    }
    SavedIsFound(db, after, part, sel, doc);
  }

  lemma AlphanumericChar(c: char)
    requires c in Alphanumerics
    ensures IsUpperChar(c) != IsDigit(c)
    ensures !IsSpace(c) && !IsLowerChar(c)
  {
    assert c in Ids.Letters || c in Ids.Digits;
    if c in Ids.Letters {
      Ids.LettersAreUpper(c);
    }
  }

  /** An allocated identifier reads the same after `.strip().upper()`. */
  lemma AllocatedIsNormal(id: string)
    requires |id| == 6 && forall k :: 0 <= k < 6 ==> id[k] in Alphanumerics
    ensures NormalizeId(id) == id
  {
    AlphanumericChar(id[0]);
    AlphanumericChar(id[5]);
    assert LStripBy(id, IsSpace) == id;
    assert RStripBy(id, IsSpace) == id;
    forall k | 0 <= k < 6 ensures UpperChar(id[k]) == id[k] {
      AlphanumericChar(id[k]);
    }
  }

  /**
   * The registration allocator draws from A-Z0-9 but `connect` accepts
   * letters only: an allocated identifier is accepted exactly when it has
   * no digit, so a patient whose identifier holds a digit cannot be
   * connected to.
   */
  lemma AllocatedWithDigitRejected(db: Db, draws: seq<seq<nat>>)
    requires |draws| == MaxAttempts && forall i :: 0 <= i < |draws| ==> |draws[i]| == 6
    requires AllocateUniqueId(db, draws).Some?
    ensures var id := AllocateUniqueId(db, draws).value;
      var check := Connections.ConnectCheck(map["patient_unique_id" := Str(id)]);
      && (check.Pass? <==> forall k :: 0 <= k < |id| ==> !IsDigit(id[k]))
      && ((exists k :: 0 <= k < |id| && IsDigit(id[k])) ==> check == Fail(InvalidUniqueId))
  {
    var id := AllocateUniqueId(db, draws).value;
    AllocatedIsNormal(id);
    Ids.ValidUniqueIdIff(id);
    forall k | 0 <= k < 6 ensures IsUpperChar(id[k]) != IsDigit(id[k]) {
      AlphanumericChar(id[k]);
    }
  }
}
