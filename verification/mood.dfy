/**
 * Mood logs: five questionnaire scores a user records, kept in their own
 * partition. The clock is a parameter: `today` is the Melbourne date
 * (`%Y-%m-%d`) and `timestamp` the ISO time of the same instant.
 */
module MoodLogs {
  import opened Wrappers
  import opened Text
  import opened DocStore
  import opened Sorting

  const LogPartition: string := "mood_logs"

  /** `f"q{q}"`. */
  function QuestionKey(q: nat): string
    requires q < 10
  {
    "q" + [DigitChar(q)]
  }

  /** `isinstance(v, int) and 0 <= v <= 3`; Python's booleans are integers. */
  predicate ValidScore(v: Value) {
    Numeric(v).Some? && 0 <= Numeric(v).value <= 3
  }

  /** Question `q` is answered with a valid score. */
  predicate Answered(fields: map<string, Value>, q: nat)
    requires q < 10
  {
    QuestionKey(q) in fields && ValidScore(fields[QuestionKey(q)])
  }

  /** Why `save_mood_log` refuses its scores. */
  datatype ScoreError = NotADictionary | MissingScore(q: nat) | BadScore(q: nat)

  /** The error text `save_mood_log` reports. */
  function Message(e: ScoreError): string {
    match e
    case NotADictionary => "Scores must be a dictionary"
    case MissingScore(q) => "Missing score for question " + Decimal(q)
    case BadScore(q) => "Score for question " + Decimal(q) + " must be an integer between 0 and 3"
  }

  /** The validation loop from question `q` on: the first question that is missing or out of range. */
  function FirstBadScore(fields: map<string, Value>, q: nat): (r: Option<ScoreError>)
    requires 1 <= q <= 6
    decreases 6 - q
    ensures r.None? <==> forall k :: q <= k <= 5 ==> Answered(fields, k)
    ensures r.Some? ==> !r.value.NotADictionary? && q <= r.value.q <= 5
    ensures r.Some? ==> forall k :: q <= k < r.value.q ==> Answered(fields, k)
    ensures r.Some? && r.value.MissingScore? ==> QuestionKey(r.value.q) !in fields
    ensures r.Some? && r.value.BadScore? ==>
      QuestionKey(r.value.q) in fields && !ValidScore(fields[QuestionKey(r.value.q)])
  {
    if q == 6 then None
    else if QuestionKey(q) !in fields then
      assert !Answered(fields, q);
      Some(MissingScore(q))
    else if !ValidScore(fields[QuestionKey(q)]) then
      assert !Answered(fields, q);
      Some(BadScore(q))
    else FirstBadScore(fields, q + 1)
  }

  /**
   * The validation at the top of `save_mood_log`: a dictionary answering
   * q1 to q5 with integers from 0 to 3 passes, whatever else it holds;
   * otherwise the error names the lowest question at fault.
   */
  function ScoreCheck(scores: Value): (r: Option<ScoreError>)
    ensures !scores.Obj? <==> r == Some(NotADictionary)
    ensures r.None? <==> scores.Obj? && forall q :: 1 <= q <= 5 ==> Answered(scores.fields, q)
    ensures r.Some? && !r.value.NotADictionary? ==>
      && 1 <= r.value.q <= 5
      && (forall q :: 1 <= q < r.value.q ==> Answered(scores.fields, q))
      && !Answered(scores.fields, r.value.q)
      && (r.value.MissingScore? <==> QuestionKey(r.value.q) !in scores.fields)
  {
    match scores
    case Obj(fields) => FirstBadScore(fields, 1)
    case _ => Some(NotADictionary)
  }

  /** The dictionary `save_mood_log` returns. */
  datatype SaveResult = Stored(id: string) | Failed(error: string)

  /** The document a mood log is stored as (the store adds its `_id`). */
  function LogDoc(userId: string, scores: Value, today: string, timestamp: string): Doc {
    map["user_id" := Str(userId), "log_date" := Str(today), "timestamp" := Str(timestamp),
        "scores" := scores, "type" := Str("mood_log")]
  }

  /**
   * `save_mood_log(user_id, scores)`; `docId` is the identifier the store
   * hands out. The scores are stored exactly as given, extra keys included.
   */
  function SaveMoodLog(db: Db, userId: string, scores: Value, today: string, timestamp: string, docId: string)
    : (r: (Db, SaveResult))
    ensures r.1.Failed? ==> r.0 == db
    ensures ScoreCheck(scores).Some? ==> r.1 == Failed(Message(ScoreCheck(scores).value))
    ensures ScoreCheck(scores).None? && (LogPartition in db.down || HasId(Docs(db, LogPartition), docId))
            ==> r.1 == Failed("Failed to save mood log")
    ensures r.1.Stored? <==> ScoreCheck(scores).None? && LogPartition !in db.down && !HasId(Docs(db, LogPartition), docId)
    ensures r.1.Stored? ==>
      && r.1.id == docId
      && SameExcept(r.0, db, LogPartition)
      && Docs(r.0, LogPartition) == Docs(db, LogPartition) + [LogDoc(userId, scores, today, timestamp)["_id" := Str(docId)]]
  {
    match ScoreCheck(scores)
    case Some(e) => (db, Failed(Message(e)))
    case None =>
      match CreateDocument(db, LogPartition, LogDoc(userId, scores, today, timestamp), docId)
      case None => (db, Failed("Failed to save mood log"))
      case Some(db2) => (db2, Stored(docId))
  }

  function TodaySelector(userId: string, today: string): Doc {
    map["user_id" := Str(userId), "log_date" := Str(today)]
  }

  /** `has_logged_today(user_id)`: whether some log of the user carries today's date; False when the lookup fails. */
  function HasLoggedToday(db: Db, userId: string, today: string): (r: bool)
    ensures r <==> LogPartition !in db.down
                   && exists d :: d in Docs(db, LogPartition) && Matches(d, TodaySelector(userId, today))
  {
    |FindAll(db, LogPartition, TodaySelector(userId, today))| > 0
  }

  /** `x.get('timestamp', '')` when it is a string; None when the sort would compare it with a string and raise. */
  function Timestamp(d: Doc): Option<string> {
    match GetDefault(d, "timestamp", Str(""))
    case Str(s) => Some(s)
    case _ => None
  }

  /** The sort order of `get_user_logs`: `a`'s timestamp is at least `b`'s as strings. */
  predicate LaterLog(a: Doc, b: Doc) {
    StrLe(Timestamp(b).GetOr(""), Timestamp(a).GetOr(""))
  }

  lemma LaterLogOrders()
    ensures TotalPreorder(LaterLog)
  {
    forall a: Doc, b: Doc ensures LaterLog(a, b) || LaterLog(b, a) {
      StrLeTotal(Timestamp(a).GetOr(""), Timestamp(b).GetOr(""));
    }
    forall a: Doc, b: Doc, c: Doc | LaterLog(a, b) && LaterLog(b, c) ensures LaterLog(a, c) {
      StrLeTrans(Timestamp(c).GetOr(""), Timestamp(b).GetOr(""), Timestamp(a).GetOr(""));
    }
  }

  function LogSelector(userId: string): Doc {
    map["user_id" := Str(userId), "type" := Str("mood_log")]
  }

  /** Every log has a string timestamp or none, so the sort compares strings only. */
  predicate StringTimestamps(logs: seq<Doc>) {
    forall i :: 0 <= i < |logs| ==> Timestamp(logs[i]).Some?
  }

  /**
   * `get_user_logs(user_id, limit)`: the lookup is cut at `limit` first,
   * in store order, and only then sorted most recent first.
   */
  function GetUserLogs(db: Db, userId: string, limit: Option<int>): (r: seq<Doc>)
    ensures var found := Find(db, LogPartition, LogSelector(userId), limit);
      && (StringTimestamps(found) ==> SortedBy(r, LaterLog) && multiset(r) == multiset(found))
      && (!StringTimestamps(found) ==> r == [])
  {
    var found := Find(db, LogPartition, LogSelector(userId), limit);
    if StringTimestamps(found) then
      LaterLogOrders();
      SortBy(found, LaterLog)
    else []
  }
}
