/**
 * The clinician side of the patient relationship: token authentication,
 * connecting to a patient by public identifier, listing, removing and
 * checking connections.
 *
 * A connection is a document in the `connections` partition; JWT decoding
 * is a function parameter, the new connection's `uuid4` and the clock are
 * inputs.
 */
module Connections {
  import opened Wrappers
  import opened Text
  import opened DocStore
  import opened Replies
  import opened Sorting
  import Ids

  /** What decoding a bearer token with PyJWT gives. */
  datatype JwtResult = Decoded(claims: Doc) | SignatureExpired | Malformed

  /** The authenticated clinician, as `require_jwt_auth` attaches it to the request. */
  datatype Principal = Principal(clinicianId: Value, email: Value)

  /** The second space-separated word of the header; the first word is never inspected. */
  function BearerToken(header: string): Option<string> {
    SecondField(header, ' ')
  }

  function TokenSelector(token: string): Doc {
    map["access_token" := Str(token), "active" := Bool(true)]
  }

  /**
   * `require_jwt_auth` at second `now`: a missing header, a header without
   * a second word, a token PyJWT rejects, a token without an active
   * `auth_tokens` record, an expired record, and claims without
   * `clinician_id`/`email` each refuse the request, in that order.
   */
  function Authenticate(db: Db, header: Option<string>, decode: string -> JwtResult, now: int)
    : (r: Reply<Principal>)
    ensures header.None? || header.value == "" ==> r == Err(MissingToken)
    ensures header.Some? && header.value != "" && ' ' !in header.value ==> r == Err(InvalidTokenFormat)
    ensures header.Some? && ' ' in header.value && decode(BearerToken(header.value).value) == SignatureExpired
            ==> r == Err(TokenExpired)
    ensures header.Some? && ' ' in header.value && decode(BearerToken(header.value).value) == Malformed
            ==> r == Err(InvalidToken)
    ensures header.Some? && ' ' in header.value && decode(BearerToken(header.value).value).Decoded?
            && ("auth_tokens" in db.down
                || forall d :: d in Docs(db, "auth_tokens") ==> !Matches(d, TokenSelector(BearerToken(header.value).value)))
            ==> r == Err(InvalidToken)
    ensures header.Some? && ' ' in header.value ==>
      var token := BearerToken(header.value).value;
      decode(token).Decoded? && FindOne(db, "auth_tokens", TokenSelector(token)).Some? ==>
        var claims := decode(token).claims;
        var expires := Get(FindOne(db, "auth_tokens", TokenSelector(token)).value, "expires_at");
        && (!expires.Int? ==> r == Err(AuthenticationError))
        && (expires.Int? && now > expires.i ==> r == Err(TokenExpired))
        && (expires.Int? && now <= expires.i && ("clinician_id" !in claims || "email" !in claims)
            ==> r == Err(AuthenticationError))
        && (expires.Int? && now <= expires.i && "clinician_id" in claims && "email" in claims
            ==> r == Ok(200, Principal(claims["clinician_id"], claims["email"])))
    ensures r.Ok? ==> (header.Some? && ' ' in header.value
      && var token := BearerToken(header.value).value;
         && decode(token).Decoded?
         && FindOne(db, "auth_tokens", TokenSelector(token)).Some?
         && var rec := FindOne(db, "auth_tokens", TokenSelector(token)).value;
            && rec in Docs(db, "auth_tokens") && Matches(rec, TokenSelector(token))
            && Get(rec, "expires_at").Int? && now <= Get(rec, "expires_at").i
            && "clinician_id" in decode(token).claims && "email" in decode(token).claims
            && r.value == Principal(decode(token).claims["clinician_id"], decode(token).claims["email"]))
  {
    if header.None? || header.value == "" then Err(MissingToken)
    else
      match BearerToken(header.value)
      case None => Err(InvalidTokenFormat)
      case Some(token) =>
        match decode(token)
        case SignatureExpired => Err(TokenExpired)
        case Malformed => Err(InvalidToken)
        case Decoded(claims) =>
          match FindOne(db, "auth_tokens", TokenSelector(token))
          case None => Err(InvalidToken)
          case Some(rec) =>
            if !Get(rec, "expires_at").Int? then Err(AuthenticationError)
            else if now > Get(rec, "expires_at").i then Err(TokenExpired)
            else if "clinician_id" !in claims || "email" !in claims then Err(AuthenticationError)
            else Ok(200, Principal(claims["clinician_id"], claims["email"]))
  }

  /** The scheme word is ignored: `Basic t` authenticates exactly like `Bearer t`. */
  lemma AuthIgnoresScheme(db: Db, scheme: string, token: string, decode: string -> JwtResult, now: int)
    requires ' ' !in scheme && ' ' !in token
    ensures Authenticate(db, Some(scheme + " " + token), decode, now)
         == Authenticate(db, Some("Bearer " + token), decode, now)
  {
    SplitFirstWord(scheme, token);
    SplitFirstWord("Bearer", token);
    assert "Bearer " + token == "Bearer" + " " + token;
    assert |Before(token, ' ')| == |token|;
    assert Before(token, ' ') == token[..|token|] == token;
    assert BearerToken(scheme + " " + token) == BearerToken("Bearer " + token) == Some(token);
    AuthReadsOnlyToken(db, scheme + " " + token, "Bearer " + token, decode, now);
  }

  /** Two non-empty headers with the same second word authenticate alike. */
  lemma AuthReadsOnlyToken(db: Db, h1: string, h2: string, decode: string -> JwtResult, now: int)
    requires h1 != "" && h2 != "" && BearerToken(h1) == BearerToken(h2)
    ensures Authenticate(db, Some(h1), decode, now) == Authenticate(db, Some(h2), decode, now)
  {
  }

  /** A token PyJWT rejects is refused whatever the store holds. */
  lemma AuthDecodesBeforeStore(db1: Db, db2: Db, header: string, decode: string -> JwtResult, now: int)
    requires BearerToken(header).Some? && !decode(BearerToken(header).value).Decoded?
    ensures Authenticate(db1, Some(header), decode, now) == Authenticate(db2, Some(header), decode, now)
    ensures Authenticate(db1, Some(header), decode, now).Err?
  {
  }

  /** The selector of a caller's active connection to a patient. */
  function ActiveSelector(clinicianId: Value, uid: string): Doc {
    map["clinician_id" := clinicianId, "patient_unique_id" := Str(uid), "status" := Str("active")]
  }

  /** The selector `connect` uses to detect an existing connection. */
  function ExistingSelector(clinicianId: Value, patientId: Value, uid: string): Doc {
    map["clinician_id" := clinicianId, "patient_id" := patientId, "patient_unique_id" := Str(uid),
        "status" := Str("active")]
  }

  function PatientSelector(uid: string): Doc {
    map["unique_id" := Str(uid)]
  }

  /** The connection document `connect` writes. */
  function ConnectionDoc(uuid: string, clinicianId: Value, patientId: Value, uid: string, now: int): (r: Doc)
    ensures Get(r, "_id") == Str(uuid) && Get(r, "connection_id") == Str(uuid)
    ensures Get(r, "reference_lines") == Lines([])
    ensures Matches(r, ExistingSelector(clinicianId, patientId, uid))
  {
    map["_id" := Str(uuid), "connection_id" := Str(uuid), "clinician_id" := clinicianId,
        "patient_id" := patientId, "patient_unique_id" := Str(uid), "status" := Str("active"),
        "reference_lines" := Lines([]), "created_at" := Int(now), "updated_at" := Int(now)]
  }

  /** The checks `connect` makes on its body before any store access. */
  function ConnectCheck(body: Doc): (r: Checked<string>)
    ensures r.Pass? ==> Ids.ValidUniqueId(r.value)
    ensures r.Fail? ==> IsBadRequest(r.reason) || r.reason == InternalError
    ensures |body| == 0 ==> r == Fail(InvalidRequest)
    ensures |body| > 0 && TextField(body, "patient_unique_id").None? ==> r == Fail(InternalError)
    ensures |body| > 0 && TextField(body, "patient_unique_id").Some? ==>
      var uid := NormalizeId(TextField(body, "patient_unique_id").value);
      && (r.Pass? <==> Ids.ValidUniqueId(uid))
      && (uid == "" ==> r == Fail(MissingField))
      && (uid != "" && !Ids.ValidUniqueId(uid) ==> r == Fail(InvalidUniqueId))
    ensures r.Pass? ==> TextField(body, "patient_unique_id").Some?
                        && r.value == NormalizeId(TextField(body, "patient_unique_id").value)
  {
    if |body| == 0 then Fail(InvalidRequest)
    else
      match TextField(body, "patient_unique_id")
      case None => Fail(InternalError)
      case Some(s) => UidCheck(NormalizeId(s), MissingField)
  }

  /** No active connection links the caller, the patient document and the identifier. */
  ghost predicate NoActiveConnection(db: Db, clinicianId: Value, patientId: Value, uid: string) {
    forall c :: c in Docs(db, "connections") ==> !Matches(c, ExistingSelector(clinicianId, patientId, uid))
  }

  /**
   * What a successful connect did: a patient holds the identifier, the
   * caller had no active connection to it, and the new connection document
   * was saved.
   */
  ghost predicate Connected(before: Db, after: Db, clinicianId: Value, uid: string, uuid: string, now: int) {
    && FindOne(before, "patient", PatientSelector(uid)).Some?
    && var patient := FindOne(before, "patient", PatientSelector(uid)).value;
       && patient in Docs(before, "patient")
       && "unique_id" in patient && patient["unique_id"] == Str(uid)
       && NoActiveConnection(before, clinicianId, Get(patient, "_id"), uid)
       && Saved(before, after, "connections", ConnectionDoc(uuid, clinicianId, Get(patient, "_id"), uid, now))
  }

  /** The store part of `connect_to_patient`, once the identifier `uid` has passed the checks. */
  function ConnectTo(db: Db, clinicianId: Value, uid: string, uuid: string, now: int): (r: (Db, Reply<Doc>))
    ensures r.1.Err? ==> r.0 == db
    ensures r.1.Err? ==> r.1.reason in {PatientNotFound, ConnectionExists, InternalError}
    ensures r.1 == Err(PatientNotFound) <==> FindOne(db, "patient", PatientSelector(uid)).None?
    ensures r.1 == Err(ConnectionExists) <==> ("connections" !in db.down
      && FindOne(db, "patient", PatientSelector(uid)).Some?
      && !NoActiveConnection(db, clinicianId, Get(FindOne(db, "patient", PatientSelector(uid)).value, "_id"), uid))
    ensures r.1 == Err(InternalError) ==> "connections" in db.down
    ensures r.1.Ok? ==> (Connected(db, r.0, clinicianId, uid, uuid, now)
      && r.1 == Ok(201, map["connection_id" := Str(uuid), "patient_unique_id" := Str(uid), "connected_at" := Int(now)]))
  {
    match FindOne(db, "patient", PatientSelector(uid))
    case None => (db, Err(PatientNotFound))
    case Some(patient) =>
      var pid := Get(patient, "_id");
      assert "unique_id" in patient && PyEq(patient["unique_id"], Str(uid));
      assert patient["unique_id"] == Str(uid);
      if FindOne(db, "connections", ExistingSelector(clinicianId, pid, uid)).Some? then
        (db, Err(ConnectionExists))
      else
        match SaveDocument(db, "connections", ConnectionDoc(uuid, clinicianId, pid, uid, now))
        case None => (db, Err(InternalError))
        case Some(db2) =>
          (db2, Ok(201, map["connection_id" := Str(uuid), "patient_unique_id" := Str(uid),
                            "connected_at" := Int(now)]))
  }

  /**
   * `connect_to_patient` for clinician `clinicianId`: the body checks come
   * first and refuse the request without reading the store.
   */
  function Connect(db: Db, clinicianId: Value, body: Doc, uuid: string, now: int): (r: (Db, Reply<Doc>))
    ensures ConnectCheck(body).Fail? ==> r == (db, Err(ConnectCheck(body).reason))
    ensures ConnectCheck(body).Pass? ==> r == ConnectTo(db, clinicianId, ConnectCheck(body).value, uuid, now)
  {
    match ConnectCheck(body)
    case Fail(reason) => (db, Err(reason))
    case Pass(uid) => ConnectTo(db, clinicianId, uid, uuid, now)
  }

  /** The entry `list_connections` reports for one connection. */
  function Summary(c: Doc): Doc {
    map["connection_id" := Get(c, "connection_id"), "patient_unique_id" := Get(c, "patient_unique_id"),
        "connected_at" := Get(c, "created_at")]
  }

  function Summaries(cs: seq<Doc>): (r: seq<Doc>)
    ensures |r| == |cs| && forall i :: 0 <= i < |cs| ==> r[i] == Summary(cs[i])
  {
    if |cs| == 0 then [] else [Summary(cs[0])] + Summaries(cs[1..])
  }

  /** The sort key: the connection time, with anything that is not a timestamp sorting last. */
  function ConnectedKey(x: Doc): int {
    match Get(x, "connected_at")
    case Int(t) => t
    case _ => -1
  }

  /** The sort order of the listing: `a` was connected no earlier than `b`. */
  predicate LaterConnected(a: Doc, b: Doc) {
    ConnectedKey(a) >= ConnectedKey(b)
  }

  lemma LaterConnectedOrders()
    ensures TotalPreorder(LaterConnected)
  {
  }

  function ListSelector(clinicianId: Value): Doc {
    map["clinician_id" := clinicianId, "status" := Str("active")]
  }

  /** `list_connections`: the caller's active connections, newest first; `total_count` is the length. */
  function ListConnections(db: Db, clinicianId: Value): (r: seq<Doc>)
    ensures SortedBy(r, LaterConnected)
    ensures multiset(r) == multiset(Summaries(FindAll(db, "connections", ListSelector(clinicianId))))
    ensures "connections" in db.down ==> r == []
  {
    LaterConnectedOrders();
    SortBy(Summaries(FindAll(db, "connections", ListSelector(clinicianId))), LaterConnected)
  }

  /** Every listed entry summarises an active connection of the caller, and each such connection is listed. */
  lemma ListIsExactlyOwnActive(db: Db, clinicianId: Value)
    requires "connections" !in db.down
    ensures forall x :: x in ListConnections(db, clinicianId) ==>
      exists c :: c in Docs(db, "connections") && Matches(c, ListSelector(clinicianId)) && x == Summary(c)
    ensures forall c :: c in Docs(db, "connections") && Matches(c, ListSelector(clinicianId)) ==>
      Summary(c) in ListConnections(db, clinicianId)
    ensures |ListConnections(db, clinicianId)| == |Filter(Docs(db, "connections"), ListSelector(clinicianId))|
  {
    var f := Filter(Docs(db, "connections"), ListSelector(clinicianId));
    var r := ListConnections(db, clinicianId);
    var s := Summaries(f);
    forall x | x in r
      ensures exists c :: c in Docs(db, "connections") && Matches(c, ListSelector(clinicianId)) && x == Summary(c)
    {
      assert x in multiset(r);
      assert x in multiset(s);
      assert x in s;
      var i :| 0 <= i < |s| && s[i] == x;
      assert f[i] in f;
    }
    forall c | c in Docs(db, "connections") && Matches(c, ListSelector(clinicianId))
      ensures Summary(c) in r
    {
      assert c in f;
      var i :| 0 <= i < |f| && f[i] == c;
      assert s[i] == Summary(c);
      assert Summary(c) in multiset(s);
      assert Summary(c) in multiset(r);
    }
    assert |r| == |multiset(r)| == |multiset(s)| == |s|;
  }

  /** The selector of the caller's active connection with connection id `cid`. */
  function ByConnectionId(cid: string, clinicianId: Value): (r: Doc)
    ensures Matches(r, ListSelector(clinicianId))
    ensures "connection_id" in r && r["connection_id"] == Str(cid) && "patient_unique_id" !in r
  {
    map["connection_id" := Str(cid), "clinician_id" := clinicianId, "status" := Str("active")]
  }

  /** The selector of the caller's active connection to the patient `uid`. */
  function ByPatient(uid: string, clinicianId: Value): (r: Doc)
    ensures Matches(r, ListSelector(clinicianId))
    ensures "patient_unique_id" in r && r["patient_unique_id"] == Str(uid) && "connection_id" !in r
  {
    ActiveSelector(clinicianId, uid)
  }

  /**
   * The body checks of `remove_connection`: the selector is by connection
   * id when one is given, otherwise by patient identifier, and always
   * limited to the caller's active connections.
   */
  function RemoveCheck(body: Doc, clinicianId: Value): (r: Checked<Doc>)
    ensures r.Pass? ==> Matches(r.value, ListSelector(clinicianId))
    ensures r.Fail? ==> IsBadRequest(r.reason) || r.reason == InternalError
    ensures |body| == 0 ==> r == Fail(InvalidRequest)
    ensures |body| > 0 && (TextField(body, "connection_id").None? || TextField(body, "patient_unique_id").None?)
            ==> r == Fail(InternalError)
    ensures |body| > 0 && TextField(body, "connection_id").Some? && TextField(body, "patient_unique_id").Some? ==>
      var cid := Strip(TextField(body, "connection_id").value);
      var uid := NormalizeId(TextField(body, "patient_unique_id").value);
      && (cid == "" && uid == "" ==> r == Fail(MissingField))
      && (cid != "" ==> r == Pass(ByConnectionId(cid, clinicianId)))
      && (cid == "" && uid != "" ==> r == Pass(ByPatient(uid, clinicianId)))
  {
    if |body| == 0 then Fail(InvalidRequest)
    else
      match (TextField(body, "connection_id"), TextField(body, "patient_unique_id"))
      case (Some(a), Some(b)) =>
        var cid := Strip(a);
        var uid := NormalizeId(b);
        if cid == "" && uid == "" then Fail(MissingField)
        else if cid != "" then Pass(ByConnectionId(cid, clinicianId))
        else Pass(ByPatient(uid, clinicianId))
      case _ => Fail(InternalError)
  }

  /** `after` is `before` with the caller's active connection `c` deleted, and nothing else changed. */
  ghost predicate RemovedConnection(before: Db, after: Db, clinicianId: Value, c: Doc) {
    && c in Docs(before, "connections") && Matches(c, ListSelector(clinicianId)) && "_id" in c
    && SameExcept(after, before, "connections")
    && Docs(after, "connections") == WithoutId(Docs(before, "connections"), c["_id"])
    && |Docs(after, "connections")| < |Docs(before, "connections")|
  }

  /**
   * `remove_connection`: the first connection the selector finds is
   * deleted, with its embedded reference lines.
   */
  function RemoveConnection(db: Db, clinicianId: Value, body: Doc): (r: (Db, Reply<()>))
    ensures r.1.Err? ==> r.0 == db
    ensures RemoveCheck(body, clinicianId).Fail? ==> r.1 == Err(RemoveCheck(body, clinicianId).reason)
    ensures RemoveCheck(body, clinicianId).Pass? ==>
      (r.1 == Err(ConnectionNotFound) <==> FindOne(db, "connections", RemoveCheck(body, clinicianId).value).None?)
    ensures RemoveCheck(body, clinicianId).Pass? && FindOne(db, "connections", RemoveCheck(body, clinicianId).value).Some? ==>
      var c := FindOne(db, "connections", RemoveCheck(body, clinicianId).value).value;
      && Matches(c, RemoveCheck(body, clinicianId).value)
      && ("_id" !in c ==> r == (db, Err(InternalError)))
      && ("_id" in c ==> r.1 == Ok(200, ()) && RemovedConnection(db, r.0, clinicianId, c))
  {
    match RemoveCheck(body, clinicianId)
    case Fail(reason) => (db, Err(reason))
    case Pass(sel) =>
      match FindOne(db, "connections", sel)
      case None => (db, Err(ConnectionNotFound))
      case Some(c) =>
        if "_id" !in c then (db, Err(InternalError))
        else
          assert Matches(c, ListSelector(clinicianId));
          var db2 := DeleteDocument(db, "connections", c["_id"]).0;
          assert RemovedConnection(db, db2, clinicianId, c);
          (db2, Ok(200, ()))
  }

  /**
   * `check_connection_status`: whether the caller has an active connection
   * to the patient, and when the first one found was created.
   */
  function ConnectionStatus(db: Db, clinicianId: Value, rawId: string): (r: Reply<Doc>)
    ensures !Ids.ValidUniqueId(NormalizeId(rawId)) ==> r == Err(InvalidUniqueId)
    ensures Ids.ValidUniqueId(NormalizeId(rawId)) ==> r.Ok? && r.status == 200
    ensures r.Ok? ==> "connected" in r.value && r.value["connected"].Bool?
    ensures r.Ok? ==> && r.value.Keys == {"connected", "patient_unique_id", "connected_at"}
                      && r.value["patient_unique_id"] == Str(NormalizeId(rawId))
    ensures r.Ok? ==>
      var found := FindOne(db, "connections", ActiveSelector(clinicianId, NormalizeId(rawId)));
      && r.value["connected"] == Bool(found.Some?)
      && r.value["connected_at"] == (if found.Some? then Get(found.value, "created_at") else Null)
    ensures r.Ok? && r.value["connected"] == Bool(true) ==>
      exists c :: c in Docs(db, "connections") && Matches(c, ActiveSelector(clinicianId, NormalizeId(rawId)))
    ensures r.Ok? && r.value["connected"] == Bool(false) ==>
      "connections" in db.down
      || forall c :: c in Docs(db, "connections") ==> !Matches(c, ActiveSelector(clinicianId, NormalizeId(rawId)))
  {
    var uid := NormalizeId(rawId);
    if !Ids.ValidUniqueId(uid) then Err(InvalidUniqueId)
    else
      match FindOne(db, "connections", ActiveSelector(clinicianId, uid))
      case Some(c) =>
        assert c in Docs(db, "connections") && Matches(c, ActiveSelector(clinicianId, uid));
        Ok(200, map["connected" := Bool(true), "patient_unique_id" := Str(uid), "connected_at" := Get(c, "created_at")])
      case None =>
        Ok(200, map["connected" := Bool(false), "patient_unique_id" := Str(uid), "connected_at" := Null])
  }
}
