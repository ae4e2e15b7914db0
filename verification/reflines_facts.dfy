/**
 * Properties of the reference-line operations taken together: how ids are
 * numbered and reused, that the operations keep ids distinct, and that
 * adding, editing and deleting a line undo or find each other.
 */
module ReferenceLineFacts {
  import opened Wrappers
  import opened DocStore
  import opened Replies
  import opened Connections
  import opened ReferenceLines

  /** Deleting distributes over concatenation, so the kept lines stay in their order. */
  lemma {:induction false} RemoveLinesAppend(a: seq<RefLine>, b: seq<RefLine>, id: int)
    ensures RemoveLines(a + b, id) == RemoveLines(a, id) + RemoveLines(b, id)
  {
    if |a| > 0 {
      assert (a + b)[1..] == a[1..] + b;
      RemoveLinesAppend(a[1..], b, id);
    } else {
      assert a + b == b;
    }
  }

  /** Deleting an id no line has changes nothing. */
  lemma {:induction false} RemoveAbsent(lines: seq<RefLine>, id: int)
    requires forall i :: 0 <= i < |lines| ==> lines[i].refId != id
    ensures RemoveLines(lines, id) == lines
  {
    if |lines| > 0 {
      RemoveAbsent(lines[1..], id);
      assert lines == [lines[0]] + lines[1..];
    }
  }

  /** Deleting keeps the remaining ids pairwise distinct. */
  lemma {:induction false} RemoveKeepsDistinct(lines: seq<RefLine>, id: int)
    requires DistinctIds(lines)
    ensures DistinctIds(RemoveLines(lines, id))
  {
    if |lines| > 0 {
      assert DistinctIds(lines[1..]);
      RemoveKeepsDistinct(lines[1..], id);
      var rest := RemoveLines(lines[1..], id);
      if lines[0].refId != id {
        forall k | 0 <= k < |rest| ensures rest[k].refId != lines[0].refId {
          assert rest[k] in lines[1..];
        }
        ConsDistinct(lines[0], rest);
      }
    }
  }

  /** A line whose id no other line has keeps a distinct list distinct when put in front. */
  lemma ConsDistinct(x: RefLine, rest: seq<RefLine>)
    requires DistinctIds(rest)
    requires forall k :: 0 <= k < |rest| ==> rest[k].refId != x.refId
    ensures DistinctIds([x] + rest)
  {
    var r := [x] + rest;
    forall i, j | 0 <= i < j < |r| ensures r[i].refId != r[j].refId {
      assert r[j] == rest[j - 1];
      if i > 0 {
        assert r[i] == rest[i - 1];
      }
    }
  }

  /** An added line gets an id no existing line has, so ids stay distinct and the list grows by one. */
  lemma AddKeepsDistinct(c: Doc, clinicianId: Value, description: string, datetime: int, now: int)
    requires LinesOf(c).Some? && DistinctIds(LinesOf(c).value)
    ensures AppendLine(c, clinicianId, description, datetime, now).Ok?
    ensures var after := LinesOf(AppendLine(c, clinicianId, description, datetime, now).value.0).value;
      && DistinctIds(after)
      && |after| == |LinesOf(c).value| + 1
  {
    var lines := LinesOf(c).value;
    var r := AppendLine(c, clinicianId, description, datetime, now);
    var after := lines + [r.value.1];
    assert LinesOf(r.value.0).value == after;
    forall i, j | 0 <= i < j < |after| ensures after[i].refId != after[j].refId {
      if j == |lines| {
        assert after[i] == lines[i];
      } else {
        assert after[i] == lines[i] && after[j] == lines[j];
      }
    }
  }

  /** Editing never renumbers a line, so ids stay distinct. */
  lemma {:induction false} UpdateKeepsIds(lines: seq<RefLine>, id: int, description: string,
                                          datetime: Option<int>, now: int)
    ensures var r := UpdateFirst(lines, id, description, datetime, now);
      forall i :: 0 <= i < |lines| ==> r[i].refId == lines[i].refId
    ensures DistinctIds(lines) ==> DistinctIds(UpdateFirst(lines, id, description, datetime, now))
  {
    var r := UpdateFirst(lines, id, description, datetime, now);
    if FirstIndex(lines, id).Some? {
      var k := FirstIndex(lines, id).value;
      forall i | 0 <= i < |lines| ensures r[i].refId == lines[i].refId {
        if i == k {
          assert r[k] == Edited(lines[k], description, datetime, now);
        }
      }
    }
  }

  /**
   * Ids are fresh only against the ids present: once the highest line is
   * deleted, the next add may hand out an id at most the deleted one.
   */
  lemma DeleteHighestFreesId(lines: seq<RefLine>)
    requires |lines| > 0 && MaxRefId(lines) >= 1
    ensures NextRefId(RemoveLines(lines, MaxRefId(lines))) <= MaxRefId(lines)
  {
    var m := MaxRefId(lines);
    var kept := RemoveLines(lines, m);
    if |kept| > 0 {
      var i :| 0 <= i < |kept| && kept[i].refId == NextRefId(kept) - 1;
      assert kept[i] in lines;
    }
  }

  /** With lines 1, 2, 3: deleting 3 makes the next id 3 again; deleting 2 makes it 4. */
  lemma RefIdReuseExample(a: RefLine, b: RefLine, c: RefLine)
    requires a.refId == 1 && b.refId == 2 && c.refId == 3
    ensures NextRefId([a, b, c]) == 4
    ensures NextRefId(RemoveLines([a, b, c], 3)) == 3
    ensures NextRefId(RemoveLines([a, b, c], 2)) == 4
  {
    assert RemoveLines([c], 3) == [];
    assert RemoveLines([b, c], 3) == [b];
    assert RemoveLines([a, b, c], 3) == [a, b];
    assert RemoveLines([c], 2) == [c];
    assert RemoveLines([b, c], 2) == [c];
    assert RemoveLines([a, b, c], 2) == [a, c];
  }

  /** Deleting the line an add just made gives back exactly the lines there were. */
  lemma AddThenDeleteRestores(c: Doc, clinicianId: Value, description: string, datetime: int, now: int, later: int)
    requires LinesOf(c).Some?
    ensures AppendLine(c, clinicianId, description, datetime, now).Ok?
    ensures var added := AppendLine(c, clinicianId, description, datetime, now).value;
      var dropped := DropLine(added.0, added.1.refId, later);
      dropped.Ok? && LinesOf(dropped.value.0) == LinesOf(c)
  {
    var lines := LinesOf(c).value;
    var added := AppendLine(c, clinicianId, description, datetime, now).value;
    var id := added.1.refId;
    RemoveLinesAppend(lines, [added.1], id);
    RemoveAbsent(lines, id);
    assert RemoveLines([added.1], id) == [];
    assert RemoveLines(lines + [added.1], id) == lines;
  }

  /** An edit of the line an add just made finds it: the last line, and no other, changes. */
  lemma AddThenEditFinds(c: Doc, clinicianId: Value, description: string, datetime: int, now: int,
                         newDescription: string, newDatetime: Option<int>, later: int)
    requires LinesOf(c).Some?
    ensures AppendLine(c, clinicianId, description, datetime, now).Ok?
    ensures var added := AppendLine(c, clinicianId, description, datetime, now).value;
      var edited := EditLine(added.0, added.1.refId, newDescription, newDatetime, later);
      && edited.Ok?
      && edited.value.1 == Edited(added.1, newDescription, newDatetime, later)
      && LinesOf(edited.value.0) == Some(LinesOf(c).value + [edited.value.1])
  {
    var lines := LinesOf(c).value;
    var added := AppendLine(c, clinicianId, description, datetime, now).value;
    var after := lines + [added.1];
    assert LinesOf(added.0) == Some(after);
    assert after[|lines|] == added.1;
    assert FirstIndex(after, added.1.refId) == Some(|lines|);
    var edited := EditLine(added.0, added.1.refId, newDescription, newDatetime, later);
    ReplaceLast(lines, added.1, edited.value.1);
  }

  /** Replacing the last element of `lines + [x]` by `y` gives `lines + [y]`. */
  lemma ReplaceLast(lines: seq<RefLine>, x: RefLine, y: RefLine)
    ensures (lines + [x])[|lines| := y] == lines + [y]
  {
  }

  /** Once a line is deleted, editing or deleting it again answers 404. */
  lemma DeleteThenNotFound(c: Doc, refId: int, now: int, description: string, datetime: Option<int>, later: int)
    requires DropLine(c, refId, now).Ok?
    ensures var c2 := DropLine(c, refId, now).value.0;
      && EditLine(c2, refId, description, datetime, later) == Err(ReferenceNotFound)
      && DropLine(c2, refId, later) == Err(ReferenceNotFound)
  {
    var kept := RemoveLines(LinesOf(c).value, refId);
    forall i | 0 <= i < |kept| ensures kept[i].refId != refId {
      assert kept[i] in kept;
    }
  }
  /** At most one active connection of the caller to the patient, as `connect` keeps it. */
  predicate OneActiveConnection(db: Db, clinicianId: Value, uid: string) {
    forall d, e :: d in Docs(db, "connections") && e in Docs(db, "connections")
                   && Matches(d, ActiveSelector(clinicianId, uid)) && Matches(e, ActiveSelector(clinicianId, uid))
                   ==> Get(d, "_id") == Get(e, "_id")
  }

  /**
   * After a successful add, listing the patient's reference lines answers
   * with the lines held before plus the added one.
   */
  lemma AddThenListed(db: Db, clinicianId: Value, rawId: string, body: Doc, iso: string -> Option<int>, now: int)
    requires AddRefLine(db, clinicianId, rawId, body, iso, now).1.Ok?
    requires OneActiveConnection(db, clinicianId, NormalizeId(rawId))
    ensures Connection(db, clinicianId, NormalizeId(rawId)).Some?
    ensures LinesOf(Connection(db, clinicianId, NormalizeId(rawId)).value).Some?
    ensures var added := AddRefLine(db, clinicianId, rawId, body, iso, now);
      var listed := GetRefLines(added.0, clinicianId, rawId);
      && listed.Ok?
      && added.1.value in listed.value
      && multiset(listed.value)
         == multiset(LinesOf(Connection(db, clinicianId, NormalizeId(rawId)).value).value) + multiset{added.1.value}
  {
    var uid := NormalizeId(rawId);
    var q := LineRequestCheck(rawId, body, iso).value;
    var c := Connection(db, clinicianId, uid).value;
    var change := AppendLine(c, clinicianId, q.description, q.datetime.GetOr(now), now);
    var added := AddRefLine(db, clinicianId, rawId, body, iso, now);
    assert added == AddTo(db, clinicianId, uid, q.description, q.datetime.GetOr(now), now);
    AddedIsConnection(db, added.0, clinicianId, uid, c, change);
    var line := change.value.1;
    var lines2 := LinesOf(c).value + [line];
    assert added.1.value == line;
    assert LinesOf(change.value.0) == Some(lines2);
    var listed := GetRefLines(added.0, clinicianId, rawId);
    assert listed.Ok? && multiset(listed.value) == multiset(lines2);
    assert multiset(lines2) == multiset(LinesOf(c).value) + multiset{line};
    assert line in multiset(listed.value);
  }

  /** After an add is saved, the handlers find the connection in its changed form. */
  lemma AddedIsConnection(db: Db, db2: Db, clinicianId: Value, uid: string, c: Doc, change: Reply<(Doc, RefLine)>)
    requires Connection(db, clinicianId, uid) == Some(c)
    requires OneActiveConnection(db, clinicianId, uid)
    requires LinesOf(c).Some? && change.Ok?
    requires OnlyLinesChanged(c, change.value.0, LinesOf(c).value + [change.value.1], change.value.1.createdAt)
    requires Rewritten(db, db2, c, change)
    ensures Connection(db2, clinicianId, uid) == Some(change.value.0)
  {
    var c2 := change.value.0;
    var sel := ActiveSelector(clinicianId, uid);
    LinesChangeKeepsMatch(c, c2, LinesOf(c).value + [change.value.1], change.value.1.createdAt, sel);
    OnlyActiveConnection(db, clinicianId, uid, c, c2);
    SavedIsFound(db, db2, "connections", sel, c2);
  }

  /** Under `OneActiveConnection`, every active connection of the caller shares the found one's `_id`. */
  lemma OnlyActiveConnection(db: Db, clinicianId: Value, uid: string, c: Doc, c2: Doc)
    requires OneActiveConnection(db, clinicianId, uid)
    requires c in Docs(db, "connections") && Matches(c, ActiveSelector(clinicianId, uid))
    requires Get(c2, "_id") == Get(c, "_id")
    ensures forall d :: d in Docs(db, "connections") && Matches(d, ActiveSelector(clinicianId, uid))
                        ==> Get(d, "_id") == Get(c2, "_id")
  {
  }

  /** A change of the lines alone keeps the `_id`, and a match of a selector that names neither changed key. */
  lemma LinesChangeKeepsMatch(c: Doc, c2: Doc, lines: seq<RefLine>, now: int, sel: Doc)
    requires OnlyLinesChanged(c, c2, lines, now) && Matches(c, sel)
    requires "reference_lines" !in sel && "updated_at" !in sel
    ensures Matches(c2, sel)
    ensures Get(c2, "_id") == Get(c, "_id")
  {
    forall k | k in sel ensures k in c2 && PyEq(c2[k], sel[k]) {
      assert k in c && c2[k] == c[k];
    }
  }
}
