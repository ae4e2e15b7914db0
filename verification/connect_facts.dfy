/**
 * Properties of `connect_to_patient` that relate several calls or several
 * stores.
 */
module ConnectFacts {
  import opened DocStore
  import opened Replies
  import opened Connections

  /** A refused body is refused identically whatever the store holds. */
  lemma ConnectValidatesFirst(db1: Db, db2: Db, clinicianId: Value, body: Doc, uuid: string, now: int)
    requires ConnectCheck(body).Fail?
    ensures Connect(db1, clinicianId, body, uuid, now).1 == Connect(db2, clinicianId, body, uuid, now).1
    ensures Connect(db1, clinicianId, body, uuid, now).0 == db1
  {
  }

  /**
   * With a fresh connection id, a successful connect adds exactly one active
   * connection with no reference lines, and leaves every other document alone.
   */
  lemma ConnectAddsOne(db: Db, clinicianId: Value, uid: string, uuid: string, now: int)
    requires ConnectTo(db, clinicianId, uid, uuid, now).1.Ok?
    requires forall c :: c in Docs(db, "connections") ==> Get(c, "_id") != Str(uuid)
    ensures FindOne(db, "patient", PatientSelector(uid)).Some?
    ensures var pid := Get(FindOne(db, "patient", PatientSelector(uid)).value, "_id");
      var db2 := ConnectTo(db, clinicianId, uid, uuid, now).0;
      && SameExcept(db2, db, "connections")
      && Docs(db2, "connections") == Docs(db, "connections") + [ConnectionDoc(uuid, clinicianId, pid, uid, now)]
  {
    var db2 := ConnectTo(db, clinicianId, uid, uuid, now).0;
    assert Connected(db, db2, clinicianId, uid, uuid, now);
    var patient := FindOne(db, "patient", PatientSelector(uid)).value;
    var doc := ConnectionDoc(uuid, clinicianId, Get(patient, "_id"), uid, now);
    assert Get(doc, "_id") == Str(uuid);
    SavedFreshAppends(db, db2, doc);
  }

  /** A second identical connect is refused with 409 and changes nothing. */
  lemma ConnectTwiceConflicts(db: Db, clinicianId: Value, uid: string, uuid: string, uuid2: string,
                              now: int, later: int)
    requires ConnectTo(db, clinicianId, uid, uuid, now).1.Ok?
    ensures var db2 := ConnectTo(db, clinicianId, uid, uuid, now).0;
      ConnectTo(db2, clinicianId, uid, uuid2, later) == (db2, Err(ConnectionExists))
  {
    var db2 := ConnectTo(db, clinicianId, uid, uuid, now).0;
    assert Connected(db, db2, clinicianId, uid, uuid, now);
    ConnectedThenConflict(db, db2, clinicianId, uid, uuid, uuid2, now, later);
  }

  lemma ConnectedThenConflict(db: Db, db2: Db, clinicianId: Value, uid: string, uuid: string, uuid2: string,
                              now: int, later: int)
    requires Connected(db, db2, clinicianId, uid, uuid, now)
    ensures ConnectTo(db2, clinicianId, uid, uuid2, later) == (db2, Err(ConnectionExists))
  {
    var patient := FindOne(db, "patient", PatientSelector(uid)).value;
    var doc := ConnectionDoc(uuid, clinicianId, Get(patient, "_id"), uid, now);
    assert Saved(db, db2, "connections", doc);
    assert doc in Docs(db2, "connections");
    assert Docs(db2, "patient") == Docs(db, "patient") && db2.down == db.down;
    FindOneSame(db, db2, "patient", PatientSelector(uid));
    assert !NoActiveConnection(db2, clinicianId, Get(patient, "_id"), uid);
  }

  /**
   * After a successful connect, asking for the status of the same patient
   * identifier answers that the caller is connected.
   */
  lemma ConnectThenConnected(db: Db, clinicianId: Value, body: Doc, uuid: string, now: int)
    requires Connect(db, clinicianId, body, uuid, now).1.Ok?
    ensures ConnectCheck(body).Pass? && TextField(body, "patient_unique_id").Some?
    ensures var status := ConnectionStatus(Connect(db, clinicianId, body, uuid, now).0, clinicianId,
                                           TextField(body, "patient_unique_id").value);
      && status.Ok?
      && status.value["connected"] == Bool(true)
      && status.value["patient_unique_id"] == Str(ConnectCheck(body).value)
  {
    var uid := ConnectCheck(body).value;
    var db2 := Connect(db, clinicianId, body, uuid, now).0;
    assert Connect(db, clinicianId, body, uuid, now) == ConnectTo(db, clinicianId, uid, uuid, now);
    ConnectedIsActive(db, db2, clinicianId, uid, uuid, now);
  }

  /** The connection a connect saves is an active connection of the caller to that identifier. */
  lemma ConnectedIsActive(db: Db, db2: Db, clinicianId: Value, uid: string, uuid: string, now: int)
    requires Connected(db, db2, clinicianId, uid, uuid, now)
    ensures FindOne(db2, "connections", ActiveSelector(clinicianId, uid)).Some?
  {
    var patient := FindOne(db, "patient", PatientSelector(uid)).value;
    var doc := ConnectionDoc(uuid, clinicianId, Get(patient, "_id"), uid, now);
    assert doc in Docs(db2, "connections");
    assert Matches(doc, ActiveSelector(clinicianId, uid));
    assert "connections" !in db2.down;
  }

  lemma SavedFreshAppends(db: Db, db2: Db, doc: Doc)
    requires Saved(db, db2, "connections", doc)
    requires forall c :: c in Docs(db, "connections") ==> Get(c, "_id") != Get(doc, "_id")
    ensures Docs(db2, "connections") == Docs(db, "connections") + [doc]
  {
  }
}
