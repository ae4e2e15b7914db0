/**
 * What a rotation of a patient's public identifier leaves behind, and what
 * the random rotation does not check.
 */
module PatientFacts {
  import opened Wrappers
  import opened Text
  import opened DocStore
  import opened Replies
  import opened Connections
  import opened Patients
  import Ids

  /**
   * A rotation to an identifier no patient document held: afterwards that
   * identifier finds exactly the rotated document.
   */
  lemma RotateToFreeId(db: Db, patient: Doc, oldUid: string, newUid: string, now: int)
    requires Rotate(db, patient, oldUid, newUid, now).1.Ok?
    requires FindOne(db, "patient", PatientSelector(newUid)).None?
    ensures FindOne(Rotate(db, patient, oldUid, newUid, now).0, "patient", PatientSelector(newUid))
         == Some(RotatedDoc(patient, newUid, now))
  {
    var after := Rotate(db, patient, oldUid, newUid, now).0;
    var p2 := RotatedDoc(patient, newUid, now);
    var sel := PatientSelector(newUid);
    assert "patient" !in db.down;
    assert "patient" !in after.down;
    assert p2 in Docs(after, "patient") && Matches(p2, sel);
    var found := FindOne(after, "patient", sel);
    assert found.Some?;
    assert found.value in Docs(after, "patient") && Matches(found.value, sel);
  }

  /**
   * A successful `change_unique_id`: the new identifier now finds the
   * patient's document with only `unique_id`, `updated_at` and
   * `unique_id_changed_at` changed; no active connection to the patient
   * is left; and the reported count is that of the connections made under
   * the old identifier.
   */
  lemma ChangeEffects(db: Db, body: Doc, now: int)
    requires ChangeUniqueId(db, body, now).1.Ok?
    ensures ChangeCheck(body).Pass?
    ensures var q := ChangeCheck(body).value;
      var after := ChangeUniqueId(db, body, now).0;
      && FindOne(db, "patient", PatientSelector(q.current)).Some?
      && var patient := FindOne(db, "patient", PatientSelector(q.current)).value;
         && FindOne(after, "patient", PatientSelector(q.next)) == Some(RotatedDoc(patient, q.next, now))
         && ChangeUniqueId(db, body, now).1.value
            == Rotation(q.current, q.next, |FindAll(db, "connections", CountSelector(Get(patient, "_id"), q.current))|)
         && ("connections" !in db.down
             && Deletable(FindAll(db, "connections", PatientConnectionsSelector(Get(patient, "_id")))) ==>
               forall d :: d in Docs(after, "connections") ==> !Matches(d, PatientConnectionsSelector(Get(patient, "_id"))))
  {
    var q := ChangeCheck(body).value;
    var patient := FindOne(db, "patient", PatientSelector(q.current)).value;
    assert ChangeUniqueId(db, body, now) == Rotate(db, patient, q.current, q.next, now);
    RotateToFreeId(db, patient, q.current, q.next, now);
  }

  /**
   * After a successful `change_unique_id`, `get_patient_info` asked with
   * the new identifier as the client sent it answers with the rotated
   * patient document, which carries that identifier.
   */
  lemma ChangeThenInfo(db: Db, body: Doc, now: int)
    requires ChangeUniqueId(db, body, now).1.Ok?
    ensures ChangeCheck(body).Pass? && TextField(body, "new_unique_id").Some?
    ensures var q := ChangeCheck(body).value;
      var args := map["unique_id" := TextField(body, "new_unique_id").value];
      && FindOne(db, "patient", PatientSelector(q.current)).Some?
      && var rotated := RotatedDoc(FindOne(db, "patient", PatientSelector(q.current)).value, q.next, now);
         && GetPatientInfo(ChangeUniqueId(db, body, now).0, args) == Ok(200, Info(rotated))
         && Info(rotated)["unique_id"] == Str(q.next)
  {
    ChangeEffects(db, body, now);
    var q := ChangeCheck(body).value;
    var args := map["unique_id" := TextField(body, "new_unique_id").value];
    assert InfoCheck(args) == Pass(q.next);
  }

  /** The index in A-Z of an upper-case letter. */
  lemma LetterIndex(c: char)
    requires IsUpperChar(c)
    ensures 0 <= c as int - 'A' as int < 26
    ensures Ids.Letters[c as int - 'A' as int] == c
  {
    assert Ids.Letters == "ABCDEFGHIJKLMNOPQRSTUVWXYZ";
  }

  /** Every valid identifier is what some six draws spell. */
  lemma DrawsSpelling(s: string) returns (draws: seq<nat>)
    requires Ids.ValidUniqueId(s)
    ensures |draws| == 6 && Ids.GenerateRandomUniqueId(draws) == s
  {
    Ids.ValidUniqueIdIff(s);
    draws := seq(6, i requires 0 <= i < 6 => (s[i] as int - 'A' as int) as nat);
    forall i | 0 <= i < 6 ensures Ids.Letters[draws[i] % 26] == s[i] {
      LetterIndex(s[i]);
    }
  }

  /**
   * `generate_new_unique_id` makes no distinctness check: for any patient
   * it finds, some draw of six letters hands back the identifier the
   * patient already had, and the route still succeeds.
   */
  lemma GenerateMayKeepSameId(db: Db, body: Doc, now: int)
    requires GenerateCheck(body).Pass? && "patient" !in db.down
    requires FindOne(db, "patient", PatientSelector(GenerateCheck(body).value)).Some?
    ensures exists draws: seq<nat> :: (|draws| == 6
      && GenerateNewUniqueId(db, body, draws, now).1.Ok?
      && GenerateNewUniqueId(db, body, draws, now).1.value.newId == GenerateCheck(body).value)
  {
    var current := GenerateCheck(body).value;
    var draws := DrawsSpelling(current);
    var patient := FindOne(db, "patient", PatientSelector(current)).value;
    assert GenerateNewUniqueId(db, body, draws, now) == Rotate(db, patient, current, current, now);
  }
}
