/**
 * What the mood-log operations promise together: which score dictionaries
 * pass and which question an error names, that a saved log counts for
 * today and is listed, and that a limit cuts the lookup before sorting.
 */
module MoodLogFacts {
  import opened Wrappers
  import opened Text
  import opened DocStore
  import opened Sorting
  import opened MoodLogs

  lemma QuestionKeys()
    ensures QuestionKey(1) == "q1" && QuestionKey(2) == "q2" && QuestionKey(3) == "q3"
    ensures QuestionKey(4) == "q4" && QuestionKey(5) == "q5"
  {
  }

  /** Extra keys and boolean answers pass. */
  lemma ExtraKeysPass(scores: map<string, Value>)
    requires scores == map["q1" := Int(0), "q2" := Int(3), "q3" := Bool(true), "q4" := Int(2),
                           "q5" := Int(1), "note" := Str("tired")]
    ensures ScoreCheck(Obj(scores)) == None
  {
    QuestionKeys();
    forall q | 1 <= q <= 5 ensures Answered(scores, q) {
    }
  }

  /** The error names the lowest question at fault, here a missing one before an out-of-range one. */
  lemma LowestQuestionNamed(scores: map<string, Value>)
    requires scores == map["q1" := Int(0), "q3" := Int(1), "q4" := Int(7), "q5" := Int(1)]
    ensures ScoreCheck(Obj(scores)) == Some(MissingScore(2))
    ensures Message(ScoreCheck(Obj(scores)).value) == "Missing score for question 2"
  {
    QuestionKeys();
    assert Answered(scores, 1) && QuestionKey(2) !in scores;
    assert Decimal(2) == "2";
  }

  /** Filtering distributes over appending one document. */
  lemma {:induction false} FilterAppendOne(docs: seq<Doc>, x: Doc, sel: Doc)
    ensures Filter(docs + [x], sel) == Filter(docs, sel) + (if Matches(x, sel) then [x] else [])
  {
    if |docs| > 0 {
      assert (docs + [x])[1..] == docs[1..] + [x];
      FilterAppendOne(docs[1..], x, sel);
    } else {
      assert docs + [x] == [x];
    }
  }

  /** The stored log, `_id` included, is one of its user's logs for that day, with its timestamp. */
  lemma StoredLogFacts(userId: string, scores: Value, today: string, timestamp: string, docId: string)
    ensures var stored := LogDoc(userId, scores, today, timestamp)["_id" := Str(docId)];
      && Matches(stored, LogSelector(userId))
      && Matches(stored, TodaySelector(userId, today))
      && Timestamp(stored) == Some(timestamp)
  {
  }

  /** After a log is stored, `has_logged_today` for its user and date answers True. */
  lemma SaveThenLoggedToday(db: Db, userId: string, scores: Value, today: string, timestamp: string, docId: string)
    requires SaveMoodLog(db, userId, scores, today, timestamp, docId).1.Stored?
    ensures HasLoggedToday(SaveMoodLog(db, userId, scores, today, timestamp, docId).0, userId, today)
  {
    var after := SaveMoodLog(db, userId, scores, today, timestamp, docId).0;
    var stored := LogDoc(userId, scores, today, timestamp)["_id" := Str(docId)];
    assert stored in Docs(after, LogPartition);
    StoredLogFacts(userId, scores, today, timestamp, docId);
  }

  /**
   * After a log is stored, listing the user's logs without a limit shows
   * it alongside every log listed before.
   */
  lemma SaveThenListed(db: Db, userId: string, scores: Value, today: string, timestamp: string, docId: string)
    requires SaveMoodLog(db, userId, scores, today, timestamp, docId).1.Stored?
    requires StringTimestamps(Find(db, LogPartition, LogSelector(userId), None))
    ensures var after := SaveMoodLog(db, userId, scores, today, timestamp, docId).0;
      var stored := LogDoc(userId, scores, today, timestamp)["_id" := Str(docId)];
      multiset(GetUserLogs(after, userId, None)) == multiset(GetUserLogs(db, userId, None)) + multiset{stored}
  {
    var after := SaveMoodLog(db, userId, scores, today, timestamp, docId).0;
    var stored := LogDoc(userId, scores, today, timestamp)["_id" := Str(docId)];
    var sel := LogSelector(userId);
    var before := Docs(db, LogPartition);
    FindInSpec(before, sel, None);
    FindInSpec(before + [stored], sel, None);
    FilterAppendOne(before, stored, sel);
    StoredLogFacts(userId, scores, today, timestamp, docId);
    var found := Find(db, LogPartition, sel, None);
    var found2 := Find(after, LogPartition, sel, None);
    assert found2 == found + [stored];
    assert StringTimestamps(found2) by {
      forall i | 0 <= i < |found2| ensures Timestamp(found2[i]).Some? {
        if i < |found| {
          assert found2[i] == found[i];
        } else {
          assert found2[i] == stored;
        }
      }
    }
  }

  /**
   * A limit keeps the first logs in partition order, not the most recent:
   * when the older log's `_id` sorts before the newer one's (the order
   * CouchDB lists a database in), `limit=1` returns the older.
   */
  lemma LimitCutsBeforeSorting(userId: string, older: Doc, newer: Doc)
    requires Matches(older, LogSelector(userId)) && Timestamp(older).Some?
    requires LaterLog(newer, older) && !LaterLog(older, newer)
    requires Get(older, "_id").Str? && Get(newer, "_id").Str?
    requires StrLe(Get(older, "_id").s, Get(newer, "_id").s) && Get(older, "_id") != Get(newer, "_id")
    ensures GetUserLogs(Db(map[LogPartition := [older, newer]], {}), userId, Some(1)) == [older]
  {
    var db := Db(map[LogPartition := [older, newer]], {});
    var sel := LogSelector(userId);
    FindInSpec([older, newer], sel, Some(1));
    assert Filter([older, newer], sel)[0] == older;
    var found := Find(db, LogPartition, sel, Some(1));
    assert found == [older];
    assert StringTimestamps(found);
    LaterLogOrders();
    SortOfSorted(found, LaterLog);
  }
}
