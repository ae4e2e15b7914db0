/**
 * The patient side of the public identifier: rotating it to a random or a
 * chosen value, which severs every active connection to the patient, and
 * looking a patient up by it.
 *
 * The six random draws of `generate_random_unique_id` and the clock are
 * inputs.
 */
module Patients {
  import opened Wrappers
  import opened Text
  import opened DocStore
  import opened Replies
  import opened Connections
  import Ids

  /** What a successful rotation reports. */
  datatype Rotation = Rotation(oldId: string, newId: string, removed: nat)

  /** The selector `remove_patient_connections` deletes by: whatever identifier the connection was made with. */
  function PatientConnectionsSelector(patientId: Value): Doc {
    map["patient_id" := patientId, "status" := Str("active")]
  }

  /** The selector whose matches are reported as `connections_removed`. */
  function CountSelector(patientId: Value, uid: string): Doc {
    map["patient_id" := patientId, "patient_unique_id" := Str(uid), "status" := Str("active")]
  }

  /** Every found connection has the two keys the deletion loop reads, so the loop runs to the end. */
  predicate Deletable(cs: seq<Doc>) {
    forall i :: 0 <= i < |cs| ==> "_id" in cs[i] && "connection_id" in cs[i]
  }

  /** No two documents share an `_id`, as CouchDB guarantees. */
  predicate UniqueIds(docs: seq<Doc>) {
    forall i, j :: 0 <= i < j < |docs| ==> Get(docs[i], "_id") != Get(docs[j], "_id")
  }

  /**
   * The deletion loop of `remove_patient_connections` over the found
   * connections `cs`: each is deleted by `_id`; a missing `_id` (before its
   * delete) or a missing `connection_id` (after it) raises, which ends the
   * loop and is swallowed.
   */
  function DeleteEach(db: Db, cs: seq<Doc>): (r: Db)
    ensures SameExcept(r, db, "connections")
    ensures forall d :: d in Docs(r, "connections") ==> d in Docs(db, "connections")
    ensures forall d :: d in Docs(db, "connections") && (forall i :: 0 <= i < |cs| ==> Get(d, "_id") != Get(cs[i], "_id"))
                        ==> d in Docs(r, "connections")
    ensures "connections" !in db.down && Deletable(cs) ==>
      forall d, i :: d in Docs(r, "connections") && 0 <= i < |cs| ==> Get(d, "_id") != Get(cs[i], "_id")
    decreases |cs|
  {
    if |cs| == 0 then db
    else if "_id" !in cs[0] then db
    else
      var db2 := DeleteDocument(db, "connections", cs[0]["_id"]).0;
      DeleteStep(db, cs[0]["_id"]);
      if "connection_id" !in cs[0] then db2
      else
        var r := DeleteEach(db2, cs[1..]);
        DeleteEachCombine(db, cs, r);
        r
  }

  /** The four promises of `DeleteEach` about deleting `cs` from `db`, giving `r`. */
  ghost predicate DeletedEach(db: Db, cs: seq<Doc>, r: Db) {
    && SameExcept(r, db, "connections")
    && (forall d :: d in Docs(r, "connections") ==> d in Docs(db, "connections"))
    && (forall d :: d in Docs(db, "connections") && (forall i :: 0 <= i < |cs| ==> Get(d, "_id") != Get(cs[i], "_id"))
                    ==> d in Docs(r, "connections"))
    && ("connections" !in db.down && Deletable(cs) ==>
          forall d, i :: d in Docs(r, "connections") && 0 <= i < |cs| ==> Get(d, "_id") != Get(cs[i], "_id"))
  }

  /** Deleting the first connection, then the rest, deletes them all. */
  lemma DeleteEachCombine(db: Db, cs: seq<Doc>, r: Db)
    requires |cs| > 0 && "_id" in cs[0]
    requires DeletedEach(DeleteDocument(db, "connections", cs[0]["_id"]).0, cs[1..], r)
    ensures DeletedEach(db, cs, r)
  {
    var id := cs[0]["_id"];
    var db2 := DeleteDocument(db, "connections", id).0;
    var rest := cs[1..];
    DeleteStep(db, id);
    forall d | d in Docs(db, "connections") && (forall i :: 0 <= i < |cs| ==> Get(d, "_id") != Get(cs[i], "_id"))
      ensures d in Docs(r, "connections")
    {
      assert Get(d, "_id") != Get(cs[0], "_id");
      forall i | 0 <= i < |rest| ensures Get(d, "_id") != Get(rest[i], "_id") {
        assert rest[i] == cs[i + 1];
      }
    }
    if "connections" !in db.down && Deletable(cs) {
      forall i | 0 <= i < |rest| ensures "_id" in rest[i] && "connection_id" in rest[i] {
        assert rest[i] == cs[i + 1];
      }
      forall d, i | d in Docs(r, "connections") && 0 <= i < |cs| ensures Get(d, "_id") != Get(cs[i], "_id") {
        if i == 0 {
          assert d in Docs(db2, "connections");
        } else {
          assert cs[i] == rest[i - 1];
        }
      }
    }
  }

  /** One delete of the loop: it removes documents with that `_id` and keeps every other one. */
  lemma DeleteStep(db: Db, id: Value)
    ensures var r := DeleteDocument(db, "connections", id).0;
      && SameExcept(r, db, "connections")
      && (forall d :: d in Docs(r, "connections") ==> d in Docs(db, "connections"))
      && (forall d :: d in Docs(db, "connections") && Get(d, "_id") != id ==> d in Docs(r, "connections"))
      && ("connections" !in db.down ==> forall d :: d in Docs(r, "connections") ==> Get(d, "_id") != id)
  {
  }

  /** `remove_patient_connections`: deletes the patient's active connections; failures are swallowed. */
  function RemovePatientConnections(db: Db, patientId: Value): (r: Db)
    ensures SameExcept(r, db, "connections")
    ensures forall d :: d in Docs(r, "connections") ==> d in Docs(db, "connections")
    ensures "connections" in db.down ==> r == db
    ensures "connections" !in db.down && Deletable(FindAll(db, "connections", PatientConnectionsSelector(patientId))) ==>
      forall d :: d in Docs(r, "connections") ==> !Matches(d, PatientConnectionsSelector(patientId))
    ensures UniqueIds(Docs(db, "connections")) ==>
      forall d :: d in Docs(db, "connections") && !Matches(d, PatientConnectionsSelector(patientId))
                  ==> d in Docs(r, "connections")
  {
    var sel := PatientConnectionsSelector(patientId);
    var cs := FindAll(db, "connections", sel);
    var r := DeleteEach(db, cs);
    if "connections" in db.down then r
    else
      MatchesGone(db, cs, r, sel);
      OthersKept(db, cs, r, sel);
      r
  }

  /** Once every found connection is deleted by `_id`, none of the remaining ones matches. */
  lemma MatchesGone(db: Db, cs: seq<Doc>, r: Db, sel: Doc)
    requires "connections" !in db.down && cs == Filter(Docs(db, "connections"), sel)
    requires DeletedEach(db, cs, r)
    ensures Deletable(cs) ==> forall d :: d in Docs(r, "connections") ==> !Matches(d, sel)
  {
    if Deletable(cs) {
      forall d | d in Docs(r, "connections") ensures !Matches(d, sel) {
        assert d !in cs by {
          forall i | 0 <= i < |cs| ensures cs[i] != d {
            assert Get(d, "_id") != Get(cs[i], "_id");
          }
        }
      }
    }
  }

  /** With unique `_id`s, deleting the found connections keeps every connection that did not match. */
  lemma OthersKept(db: Db, cs: seq<Doc>, r: Db, sel: Doc)
    requires "connections" !in db.down && cs == Filter(Docs(db, "connections"), sel)
    requires DeletedEach(db, cs, r)
    ensures UniqueIds(Docs(db, "connections")) ==>
      forall d :: d in Docs(db, "connections") && !Matches(d, sel) ==> d in Docs(r, "connections")
  {
    if UniqueIds(Docs(db, "connections")) {
      var docs := Docs(db, "connections");
      forall d | d in docs && !Matches(d, sel) ensures d in Docs(r, "connections") {
        forall i | 0 <= i < |cs| ensures Get(d, "_id") != Get(cs[i], "_id") {
          assert cs[i] in cs;
          var a :| 0 <= a < |docs| && docs[a] == d;
          var b :| 0 <= b < |docs| && docs[b] == cs[i];
          assert a != b;
        }
      }
    }
  }

  /** The patient document after rotation: the identifier and the two timestamps change, nothing else. */
  function RotatedDoc(patient: Doc, newUid: string, now: int): (r: Doc)
    ensures r.Keys == patient.Keys + {"unique_id", "updated_at", "unique_id_changed_at"}
    ensures r["unique_id"] == Str(newUid) && r["unique_id_changed_at"] == Int(now) && r["updated_at"] == Int(now)
    ensures forall k :: k in patient && k !in {"unique_id", "updated_at", "unique_id_changed_at"} ==> r[k] == patient[k]
  {
    patient["unique_id" := Str(newUid)]["updated_at" := Int(now)]["unique_id_changed_at" := Int(now)]
  }

  /**
   * The store part both rotation routes share, for the patient document
   * found under `oldUid`: count the connections made with the old
   * identifier, save the rotated document, then sever the patient's
   * connections.
   */
  function Rotate(db: Db, patient: Doc, oldUid: string, newUid: string, now: int): (r: (Db, Reply<Rotation>))
    ensures r.1.Err? <==> "patient" in db.down
    ensures r.1.Err? ==> r == (db, Err(InternalError))
    ensures r.1.Ok? ==> (r.1.status == 200
      && r.1.value == Rotation(oldUid, newUid, |FindAll(db, "connections", CountSelector(Get(patient, "_id"), oldUid))|))
    ensures r.1.Ok? ==> Docs(r.0, "patient") == Upsert(Docs(db, "patient"), RotatedDoc(patient, newUid, now))
    ensures r.1.Ok? ==> forall n :: n != "patient" && n != "connections" ==> Docs(r.0, n) == Docs(db, n)
    ensures r.1.Ok? ==> r.0.down == db.down
    ensures r.1.Ok? ==> forall d :: d in Docs(r.0, "connections") ==> d in Docs(db, "connections")
    ensures (r.1.Ok? && "connections" !in db.down
             && Deletable(FindAll(db, "connections", PatientConnectionsSelector(Get(patient, "_id"))))) ==>
      forall d :: d in Docs(r.0, "connections") ==> !Matches(d, PatientConnectionsSelector(Get(patient, "_id")))
    ensures r.1.Ok? && UniqueIds(Docs(db, "connections")) ==>
      forall d :: d in Docs(db, "connections") && !Matches(d, PatientConnectionsSelector(Get(patient, "_id")))
                  ==> d in Docs(r.0, "connections")
  {
    var pid := Get(patient, "_id");
    var count := |FindAll(db, "connections", CountSelector(pid, oldUid))|;
    match SaveDocument(db, "patient", RotatedDoc(patient, newUid, now))
    case None => (db, Err(InternalError))
    case Some(db2) =>
      assert Docs(db2, "connections") == Docs(db, "connections");
      assert FindAll(db2, "connections", PatientConnectionsSelector(pid))
          == FindAll(db, "connections", PatientConnectionsSelector(pid));
      (RemovePatientConnections(db2, pid), Ok(200, Rotation(oldUid, newUid, count)))
  }

  /** `data.get(key, '').strip().upper()`, None where the value is not a string. */
  function IdField(body: Doc, key: string): (r: Option<string>)
    ensures r.None? <==> TextField(body, key).None?
    ensures r.Some? ==> r.value == NormalizeId(TextField(body, key).value)
  {
    match TextField(body, key)
    case None => None
    case Some(s) => Some(NormalizeId(s))
  }

  /** The checks of `generate_new_unique_id`: a body, then a current identifier that is present and well formed. */
  function GenerateCheck(body: Doc): (r: Checked<string>)
    ensures r.Pass? ==> Ids.ValidUniqueId(r.value) && IdField(body, "current_unique_id") == Some(r.value)
    ensures r.Fail? ==> IsBadRequest(r.reason) || r.reason == InternalError
    ensures |body| == 0 ==> r == Fail(InvalidRequest)
    ensures |body| > 0 && IdField(body, "current_unique_id").None? ==> r == Fail(InternalError)
    ensures |body| > 0 && IdField(body, "current_unique_id").Some? ==>
      r == UidCheck(IdField(body, "current_unique_id").value, MissingField)
  {
    if |body| == 0 then Fail(InvalidRequest)
    else
      match IdField(body, "current_unique_id")
      case None => Fail(InternalError)
      case Some(current) => UidCheck(current, MissingField)
  }

  /**
   * `generate_new_unique_id`: six random letters replace the identifier,
   * with no check that they differ from the current one or from any other
   * patient's.
   */
  function GenerateNewUniqueId(db: Db, body: Doc, draws: seq<nat>, now: int): (r: (Db, Reply<Rotation>))
    requires |draws| == 6
    ensures GenerateCheck(body).Fail? ==> r == (db, Err(GenerateCheck(body).reason))
    ensures (GenerateCheck(body).Pass? && FindOne(db, "patient", PatientSelector(GenerateCheck(body).value)).None?)
            ==> r == (db, Err(PatientNotFound))
    ensures (GenerateCheck(body).Pass? && FindOne(db, "patient", PatientSelector(GenerateCheck(body).value)).Some?)
            ==> r == Rotate(db, FindOne(db, "patient", PatientSelector(GenerateCheck(body).value)).value,
                            GenerateCheck(body).value, Ids.GenerateRandomUniqueId(draws), now)
    ensures r.1.Ok? ==> Ids.ValidUniqueId(r.1.value.newId)
  {
    match GenerateCheck(body)
    case Fail(reason) => (db, Err(reason))
    case Pass(current) =>
      match FindOne(db, "patient", PatientSelector(current))
      case None => (db, Err(PatientNotFound))
      case Some(patient) => Rotate(db, patient, current, Ids.GenerateRandomUniqueId(draws), now)
  }

  /** The checked current and new identifiers of a change request. */
  datatype Change = Change(current: string, next: string)

  /** The checks on the two normalised identifiers, in the order `change_unique_id` makes them. */
  function ChangePairCheck(current: string, next: string): (r: Checked<Change>)
    ensures current == "" || next == "" ==> r == Fail(MissingField)
    ensures (current != "" && next != "" && (!Ids.ValidUniqueId(current) || !Ids.ValidUniqueId(next)))
            ==> r == Fail(InvalidUniqueId)
    ensures Ids.ValidUniqueId(current) && current == next ==> r == Fail(SameUniqueId)
    ensures r.Pass? <==> Ids.ValidUniqueId(current) && Ids.ValidUniqueId(next) && current != next
    ensures r.Pass? ==> r.value == Change(current, next)
  {
    if current == "" || next == "" then Fail(MissingField)
    else if !Ids.ValidUniqueId(current) || !Ids.ValidUniqueId(next) then Fail(InvalidUniqueId)
    else if current == next then Fail(SameUniqueId)
    else Pass(Change(current, next))
  }

  /**
   * The checks of `change_unique_id`, all before the store is read: a body,
   * both identifiers present, both well formed, and different.
   */
  function ChangeCheck(body: Doc): (r: Checked<Change>)
    ensures |body| == 0 ==> r == Fail(InvalidRequest)
    ensures |body| > 0 && (IdField(body, "current_unique_id").None? || IdField(body, "new_unique_id").None?)
            ==> r == Fail(InternalError)
    ensures |body| > 0 && IdField(body, "current_unique_id").Some? && IdField(body, "new_unique_id").Some? ==>
      r == ChangePairCheck(IdField(body, "current_unique_id").value, IdField(body, "new_unique_id").value)
  {
    if |body| == 0 then Fail(InvalidRequest)
    else
      match (IdField(body, "current_unique_id"), IdField(body, "new_unique_id"))
      case (Some(current), Some(next)) => ChangePairCheck(current, next)
      case _ => Fail(InternalError)
  }

  /**
   * `change_unique_id`: 404 when no patient holds the current identifier,
   * 409 when a patient document already holds the new one (only the
   * patient partition is consulted), otherwise the rotation.
   */
  function ChangeUniqueId(db: Db, body: Doc, now: int): (r: (Db, Reply<Rotation>))
    ensures ChangeCheck(body).Fail? ==> r == (db, Err(ChangeCheck(body).reason))
    ensures ChangeCheck(body).Pass? ==>
      var q := ChangeCheck(body).value;
      && (r.1 == Err(PatientNotFound) <==> FindOne(db, "patient", PatientSelector(q.current)).None?)
      && (r.1 == Err(UniqueIdTaken) <==> (FindOne(db, "patient", PatientSelector(q.current)).Some?
                                          && FindOne(db, "patient", PatientSelector(q.next)).Some?))
      && (FindOne(db, "patient", PatientSelector(q.current)).Some?
          && FindOne(db, "patient", PatientSelector(q.next)).None? ==>
            r == Rotate(db, FindOne(db, "patient", PatientSelector(q.current)).value, q.current, q.next, now))
    ensures r.1.Err? ==> r.0 == db
  {
    match ChangeCheck(body)
    case Fail(reason) => (db, Err(reason))
    case Pass(q) =>
      match FindOne(db, "patient", PatientSelector(q.current))
      case None => (db, Err(PatientNotFound))
      case Some(patient) =>
        if FindOne(db, "patient", PatientSelector(q.next)).Some? then (db, Err(UniqueIdTaken))
        else
          assert "patient" !in db.down;
          Rotate(db, patient, q.current, q.next, now)
  }

  /** The keys `get_patient_info` reports. */
  const InfoKeys: set<string> := {"patient_id", "unique_id", "created_at", "updated_at", "unique_id_changed_at"}

  /** What `get_patient_info` reports of a patient document. */
  function Info(p: Doc): (r: Doc)
    ensures r.Keys == InfoKeys && "password" !in r
    ensures r["patient_id"] == Get(p, "_id")
    ensures forall k :: k in InfoKeys && k != "patient_id" ==> r[k] == Get(p, k)
  {
    map["patient_id" := Get(p, "_id"), "unique_id" := Get(p, "unique_id"),
        "created_at" := Get(p, "created_at"), "updated_at" := Get(p, "updated_at"),
        "unique_id_changed_at" := Get(p, "unique_id_changed_at")]
  }

  /** `request.args.get('unique_id', '').strip().upper()` and its checks. */
  function InfoCheck(args: map<string, string>): (r: Checked<string>)
    ensures var uid := NormalizeId(if "unique_id" in args then args["unique_id"] else "");
      && (uid == "" ==> r == Fail(MissingParameter))
      && (uid != "" && !Ids.ValidUniqueId(uid) ==> r == Fail(InvalidUniqueId))
      && (Ids.ValidUniqueId(uid) ==> r == Pass(uid))
  {
    UidCheck(NormalizeId(if "unique_id" in args then args["unique_id"] else ""), MissingParameter)
  }

  /**
   * `get_patient_info` for the query arguments `args`: the patient's id,
   * identifier and timestamps only, never the password hash.
   */
  function GetPatientInfo(db: Db, args: map<string, string>): (r: Reply<Doc>)
    ensures InfoCheck(args).Fail? ==> r == Err(InfoCheck(args).reason)
    ensures InfoCheck(args).Pass? ==>
      (r == Err(PatientNotFound) <==> FindOne(db, "patient", PatientSelector(InfoCheck(args).value)).None?)
    ensures InfoCheck(args).Pass? && FindOne(db, "patient", PatientSelector(InfoCheck(args).value)).Some? ==>
      r == Ok(200, Info(FindOne(db, "patient", PatientSelector(InfoCheck(args).value)).value))
    ensures r.Ok? ==> (InfoCheck(args).Pass?
      && FindOne(db, "patient", PatientSelector(InfoCheck(args).value)).Some?
      && r == Ok(200, Info(FindOne(db, "patient", PatientSelector(InfoCheck(args).value)).value)))
  {
    match InfoCheck(args)
    case Fail(reason) => Err(reason)
    case Pass(uid) =>
      match FindOne(db, "patient", PatientSelector(uid))
      case None => Err(PatientNotFound)
      case Some(p) =>
        Ok(200, Info(p))
  }
}
