/**
 * Reference lines: the dated notes a clinician keeps inside one of their
 * active connection documents, read, added, edited and deleted through the
 * `/patient/<id>/reference-lines` routes.
 *
 * Each handler is split the same way: the request checks that run before
 * the store is read, the change to the connection document, and the store
 * step that finds the caller's connection and saves the changed document.
 * ISO-8601 parsing is the parameter `iso`; the clock is `now`.
 */
module ReferenceLines {
  import opened Wrappers
  import opened Text
  import opened DocStore
  import opened Replies
  import opened Sorting
  import opened Connections
  import Ids

  /** The longest description accepted, in characters. */
  const MaxDescription := 500

  /** The checked input of an add or edit request. */
  datatype LineRequest = LineRequest(uid: string, description: string, datetime: Option<int>)

  /** The description of a non-empty body: stripped, non-empty and at most 500 characters. */
  function DescriptionCheck(body: Doc): (r: Checked<string>)
    ensures TextField(body, "description").Some? && Strip(TextField(body, "description").value) == ""
            ==> r == Fail(MissingField)
    ensures (TextField(body, "description").Some?
             && |Strip(TextField(body, "description").value)| > MaxDescription) ==> r == Fail(InvalidField)
    ensures TextField(body, "description").None? ==> r == Fail(InternalError)
    ensures r.Pass? <==> (TextField(body, "description").Some?
                          && 0 < |Strip(TextField(body, "description").value)| <= MaxDescription)
    ensures r.Pass? ==> ("description" in body && body["description"].Str?
      && r.value == Strip(body["description"].s) && 0 < |r.value| <= MaxDescription)
  {
    match TextField(body, "description")
    case None => Fail(InternalError)
    case Some(text) =>
      var description := Strip(text);
      if description == "" then Fail(MissingField)
      else if |description| > MaxDescription then Fail(InvalidField)
      else Pass(description)
  }

  /**
   * The optional `datetime`: a falsy value means none was supplied, a string
   * must parse, and anything else makes the handler raise.
   */
  function DatetimeCheck(body: Doc, iso: string -> Option<int>): (r: Checked<Option<int>>)
    ensures r.Pass? && r.value.None? <==> !Truthy(Get(body, "datetime"))
    ensures r.Pass? && r.value.Some? <==> (Truthy(Get(body, "datetime")) && Get(body, "datetime").Str?
                                          && iso(Get(body, "datetime").s).Some?)
    ensures r.Pass? && r.value.Some? ==> r.value == iso(Get(body, "datetime").s)
    ensures r == Fail(InvalidDatetime) <==> (Truthy(Get(body, "datetime")) && Get(body, "datetime").Str?
                                            && iso(Get(body, "datetime").s).None?)
    ensures r.Fail? ==> r.reason in {InvalidDatetime, InternalError}
  {
    var given := Get(body, "datetime");
    if !Truthy(given) then Pass(None)
    else if !given.Str? then Fail(InternalError)
    else
      match iso(given.s)
      case None => Fail(InvalidDatetime)
      case Some(t) => Pass(Some(t))
  }

  /**
   * The checks `add_patient_reference_line` and
   * `update_patient_reference_line` share, in the order they run: the path
   * identifier, a non-empty body, the description, then the datetime.
   */
  function LineRequestCheck(rawId: string, body: Doc, iso: string -> Option<int>): (r: Checked<LineRequest>)
    ensures !Ids.ValidUniqueId(NormalizeId(rawId)) ==> r == Fail(InvalidUniqueId)
    ensures Ids.ValidUniqueId(NormalizeId(rawId)) && |body| == 0 ==> r == Fail(InvalidRequest)
    ensures Ids.ValidUniqueId(NormalizeId(rawId)) && |body| > 0 && DescriptionCheck(body).Fail?
            ==> r == Fail(DescriptionCheck(body).reason)
    ensures (Ids.ValidUniqueId(NormalizeId(rawId)) && |body| > 0 && DescriptionCheck(body).Pass?
             && DatetimeCheck(body, iso).Fail?) ==> r == Fail(DatetimeCheck(body, iso).reason)
    ensures (Ids.ValidUniqueId(NormalizeId(rawId)) && |body| > 0 && DescriptionCheck(body).Pass?
             && DatetimeCheck(body, iso).Pass?)
            ==> r == Pass(LineRequest(NormalizeId(rawId), DescriptionCheck(body).value, DatetimeCheck(body, iso).value))
    ensures r.Pass? ==> (r.value.uid == NormalizeId(rawId) && Ids.ValidUniqueId(r.value.uid)
      && Pass(r.value.description) == DescriptionCheck(body)
      && Pass(r.value.datetime) == DatetimeCheck(body, iso))
  {
    var uid := NormalizeId(rawId);
    if !Ids.ValidUniqueId(uid) then Fail(InvalidUniqueId)
    else if |body| == 0 then Fail(InvalidRequest)
    else
      match DescriptionCheck(body)
      case Fail(reason) => Fail(reason)
      case Pass(description) =>
        match DatetimeCheck(body, iso)
        case Fail(reason) => Fail(reason)
        case Pass(datetime) => Pass(LineRequest(uid, description, datetime))
  }

  /** `connection.get('reference_lines', [])`; None where the stored value is not a list of lines. */
  function LinesOf(c: Doc): (r: Option<seq<RefLine>>)
    ensures "reference_lines" !in c ==> r == Some([])
    ensures "reference_lines" in c ==> (r.Some? <==> c["reference_lines"].Lines?)
    ensures r.Some? && "reference_lines" in c ==> r.value == c["reference_lines"].lines
  {
    if "reference_lines" !in c then Some([])
    else match c["reference_lines"]
      case Lines(ls) => Some(ls)
      case _ => None
  }

  /** A stored value a `for` loop runs over without raising and without finding anything: `""` or `{}`. */
  predicate EmptyIterable(v: Value) {
    v == Str("") || v == Obj(map[])
  }

  /**
   * The lines the edit and delete handlers iterate over. These handlers
   * only loop over `connection.get('reference_lines', [])`, so an empty
   * string or object reads as no lines, where `LinesOf` fails.
   */
  function LoopLines(c: Doc): (r: Option<seq<RefLine>>)
    ensures LinesOf(c).Some? ==> r == LinesOf(c)
    ensures r.Some? <==> LinesOf(c).Some? || ("reference_lines" in c && EmptyIterable(c["reference_lines"]))
    ensures LinesOf(c).None? && r.Some? ==> r.value == []
  {
    match LinesOf(c)
    case Some(lines) => Some(lines)
    case None => if EmptyIterable(c["reference_lines"]) then Some([]) else None
  }

  /** The largest `ref_id` present. */
  function MaxRefId(lines: seq<RefLine>): (m: int)
    requires |lines| > 0
    ensures forall i :: 0 <= i < |lines| ==> lines[i].refId <= m
    ensures exists i :: 0 <= i < |lines| && lines[i].refId == m
  {
    if |lines| == 1 then lines[0].refId
    else
      var m := MaxRefId(lines[1..]);
      if lines[0].refId >= m then lines[0].refId
      else
        assert forall i :: 1 <= i < |lines| ==> lines[i].refId == lines[1..][i - 1].refId;
        m
  }

  /**
   * `max([ref.get('ref_id', 0) for ref in reference_lines], default=0) + 1`:
   * one more than the largest id present, and 1 for an empty list. It is
   * fresh only against the ids present now.
   */
  function NextRefId(lines: seq<RefLine>): (r: int)
    ensures forall i :: 0 <= i < |lines| ==> lines[i].refId < r
    ensures |lines| == 0 ==> r == 1
    ensures |lines| > 0 ==> exists i :: 0 <= i < |lines| && lines[i].refId == r - 1
  {
    if |lines| == 0 then 1 else MaxRefId(lines) + 1
  }

  /** No two lines share a `ref_id`. */
  predicate DistinctIds(lines: seq<RefLine>) {
    forall i, j :: 0 <= i < j < |lines| ==> lines[i].refId != lines[j].refId
  }

  /** The position of the first line with `ref_id` equal to `id`, as the update loop finds it. */
  function FirstIndex(lines: seq<RefLine>, id: int): (r: Option<nat>)
    ensures r.None? <==> forall i :: 0 <= i < |lines| ==> lines[i].refId != id
    ensures r.Some? ==> r.value < |lines| && lines[r.value].refId == id
    ensures r.Some? ==> forall j :: 0 <= j < r.value ==> lines[j].refId != id
  {
    if |lines| == 0 then None
    else if lines[0].refId == id then Some(0)
    else
      match FirstIndex(lines[1..], id)
      case None => None
      case Some(k) => Some(k + 1)
  }

  /** One line edited: new description, the datetime only when one was supplied, and the edit time. */
  function Edited(l: RefLine, description: string, datetime: Option<int>, now: int): RefLine {
    l.(description := description, datetime := datetime.GetOr(l.datetime), updatedAt := Some(now))
  }

  /** The update loop: only the first line with that id is edited, every other line stays as it was. */
  function UpdateFirst(lines: seq<RefLine>, id: int, description: string, datetime: Option<int>, now: int)
    : (r: seq<RefLine>)
    ensures |r| == |lines|
    ensures FirstIndex(lines, id).None? ==> r == lines
    ensures FirstIndex(lines, id).Some? ==>
      var k := FirstIndex(lines, id).value;
      && r[k] == Edited(lines[k], description, datetime, now)
      && forall j :: 0 <= j < |lines| && j != k ==> r[j] == lines[j]
  {
    if |lines| == 0 then []
    else if lines[0].refId == id then [Edited(lines[0], description, datetime, now)] + lines[1..]
    else [lines[0]] + UpdateFirst(lines[1..], id, description, datetime, now)
  }

  /** `[ref for ref in reference_lines if ref.get('ref_id') != ref_id]`. */
  function RemoveLines(lines: seq<RefLine>, id: int): (r: seq<RefLine>)
    ensures forall l :: l in r <==> l in lines && l.refId != id
    ensures |r| <= |lines|
    ensures |r| == |lines| <==> forall i :: 0 <= i < |lines| ==> lines[i].refId != id
  {
    if |lines| == 0 then []
    else if lines[0].refId == id then RemoveLines(lines[1..], id)
    else [lines[0]] + RemoveLines(lines[1..], id)
  }

  /** Only `reference_lines` and `updated_at` of a connection document differ. */
  predicate OnlyLinesChanged(c: Doc, c2: Doc, lines: seq<RefLine>, now: int) {
    && c2.Keys == c.Keys + {"reference_lines", "updated_at"}
    && c2["reference_lines"] == Lines(lines)
    && c2["updated_at"] == Int(now)
    && forall k :: k in c && k != "reference_lines" && k != "updated_at" ==> c2[k] == c[k]
  }

  function WithLines(c: Doc, lines: seq<RefLine>, now: int): (r: Doc)
    ensures OnlyLinesChanged(c, r, lines, now)
    ensures LinesOf(r) == Some(lines)
  {
    c["reference_lines" := Lines(lines)]["updated_at" := Int(now)]
  }

  /**
   * The document change of an add: a line numbered `NextRefId` of the
   * existing lines, dated `datetime`, appended at the end.
   */
  function AppendLine(c: Doc, clinicianId: Value, description: string, datetime: int, now: int)
    : (r: Reply<(Doc, RefLine)>)
    ensures r.Err? <==> LinesOf(c).None?
    ensures r.Err? ==> r.reason == InternalError
    ensures r.Ok? ==> (r.status == 201
      && r.value.1 == RefLine(NextRefId(LinesOf(c).value), datetime, description, now, None, clinicianId)
      && LinesOf(r.value.0) == Some(LinesOf(c).value + [r.value.1])
      && OnlyLinesChanged(c, r.value.0, LinesOf(c).value + [r.value.1], now))
  {
    match LinesOf(c)
    case None => Err(InternalError)
    case Some(lines) =>
      var line := RefLine(NextRefId(lines), datetime, description, now, None, clinicianId);
      Ok(201, (WithLines(c, lines + [line], now), line))
  }

  /** The document change of an edit: the first line with id `refId` is edited; 404 when there is none. */
  function EditLine(c: Doc, refId: int, description: string, datetime: Option<int>, now: int)
    : (r: Reply<(Doc, RefLine)>)
    ensures r == Err(InternalError) <==> LoopLines(c).None?
    ensures r == Err(ReferenceNotFound) <==>
      LoopLines(c).Some? && forall i :: 0 <= i < |LoopLines(c).value| ==> LoopLines(c).value[i].refId != refId
    ensures r.Ok? ==> (r.status == 200
      && var lines := LoopLines(c).value;
         var k := FirstIndex(lines, refId).value;
         && r.value.1 == Edited(lines[k], description, datetime, now)
         && LinesOf(r.value.0) == Some(lines[k := r.value.1])
         && OnlyLinesChanged(c, r.value.0, lines[k := r.value.1], now))
  {
    match LoopLines(c)
    case None => Err(InternalError)
    case Some(lines) =>
      match FirstIndex(lines, refId)
      case None => Err(ReferenceNotFound)
      case Some(k) =>
        var updated := UpdateFirst(lines, refId, description, datetime, now);
        assert updated == lines[k := updated[k]];
        Ok(200, (WithLines(c, updated, now), updated[k]))
  }

  /** The document change of a delete: every line with id `refId` goes; 404 when there is none. */
  function DropLine(c: Doc, refId: int, now: int): (r: Reply<(Doc, ())>)
    ensures r == Err(InternalError) <==> LoopLines(c).None?
    ensures r == Err(ReferenceNotFound) <==>
      LoopLines(c).Some? && forall i :: 0 <= i < |LoopLines(c).value| ==> LoopLines(c).value[i].refId != refId
    ensures r.Ok? ==> (r.status == 200
      && LinesOf(r.value.0) == Some(RemoveLines(LoopLines(c).value, refId))
      && |RemoveLines(LoopLines(c).value, refId)| < |LoopLines(c).value|
      && OnlyLinesChanged(c, r.value.0, RemoveLines(LoopLines(c).value, refId), now))
  {
    match LoopLines(c)
    case None => Err(InternalError)
    case Some(lines) =>
      var kept := RemoveLines(lines, refId);
      if |kept| == |lines| then Err(ReferenceNotFound)
      else Ok(200, (WithLines(c, kept, now), ()))
  }

  /** The caller's active connection to the patient, as the handlers look it up. */
  function Connection(db: Db, clinicianId: Value, uid: string): Option<Doc> {
    FindOne(db, "connections", ActiveSelector(clinicianId, uid))
  }

  /** What a document change `change` of connection `c` does to the store: `c` is saved in its changed form. */
  ghost predicate Rewritten<T>(before: Db, after: Db, c: Doc, change: Reply<(Doc, T)>) {
    change.Ok? && Saved(before, after, "connections", change.value.0)
  }

  /** The store step of an add, once the request has passed its checks. */
  function AddTo(db: Db, clinicianId: Value, uid: string, description: string, datetime: int, now: int)
    : (r: (Db, Reply<RefLine>))
    ensures r.1.Err? ==> r.0 == db
    ensures r.1 == Err(NoConnection) <==> Connection(db, clinicianId, uid).None?
    ensures r.1.Err? ==> r.1.reason in {NoConnection, InternalError}
    ensures Connection(db, clinicianId, uid).Some? ==>
      var change := AppendLine(Connection(db, clinicianId, uid).value, clinicianId, description, datetime, now);
      && (r.1.Ok? <==> change.Ok?)
      && (r.1.Ok? ==> Rewritten(db, r.0, Connection(db, clinicianId, uid).value, change)
                      && r.1 == Ok(201, change.value.1))
  {
    match Connection(db, clinicianId, uid)
    case None => (db, Err(NoConnection))
    case Some(c) =>
      match AppendLine(c, clinicianId, description, datetime, now)
      case Err(reason) => (db, Err(reason))
      case Ok(_, (c2, line)) =>
        match SaveDocument(db, "connections", c2)
        case None => (db, Err(InternalError))
        case Some(db2) => (db2, Ok(201, line))
  }

  /** `add_patient_reference_line`: the datetime defaults to the current time. */
  function AddRefLine(db: Db, clinicianId: Value, rawId: string, body: Doc, iso: string -> Option<int>, now: int)
    : (r: (Db, Reply<RefLine>))
    ensures LineRequestCheck(rawId, body, iso).Fail? ==> r == (db, Err(LineRequestCheck(rawId, body, iso).reason))
    ensures LineRequestCheck(rawId, body, iso).Pass? ==>
      var q := LineRequestCheck(rawId, body, iso).value;
      r == AddTo(db, clinicianId, q.uid, q.description, q.datetime.GetOr(now), now)
  {
    match LineRequestCheck(rawId, body, iso)
    case Fail(reason) => (db, Err(reason))
    case Pass(q) => AddTo(db, clinicianId, q.uid, q.description, q.datetime.GetOr(now), now)
  }

  /** The store step of an edit. */
  function EditIn(db: Db, clinicianId: Value, uid: string, refId: int, description: string,
                  datetime: Option<int>, now: int): (r: (Db, Reply<RefLine>))
    ensures r.1.Err? ==> r.0 == db
    ensures r.1 == Err(NoConnection) <==> Connection(db, clinicianId, uid).None?
    ensures r.1.Err? ==> r.1.reason in {NoConnection, ReferenceNotFound, InternalError}
    ensures Connection(db, clinicianId, uid).Some? ==>
      var change := EditLine(Connection(db, clinicianId, uid).value, refId, description, datetime, now);
      && (r.1 == Err(ReferenceNotFound) <==> change == Err(ReferenceNotFound))
      && (r.1.Ok? <==> change.Ok?)
      && (r.1.Ok? ==> Rewritten(db, r.0, Connection(db, clinicianId, uid).value, change)
                      && r.1 == Ok(200, change.value.1))
  {
    match Connection(db, clinicianId, uid)
    case None => (db, Err(NoConnection))
    case Some(c) =>
      match EditLine(c, refId, description, datetime, now)
      case Err(reason) => (db, Err(reason))
      case Ok(_, (c2, line)) =>
        match SaveDocument(db, "connections", c2)
        case None => (db, Err(InternalError))
        case Some(db2) => (db2, Ok(200, line))
  }

  /** `update_patient_reference_line` for line `refId`. */
  function UpdateRefLine(db: Db, clinicianId: Value, rawId: string, refId: int, body: Doc,
                         iso: string -> Option<int>, now: int): (r: (Db, Reply<RefLine>))
    ensures LineRequestCheck(rawId, body, iso).Fail? ==> r == (db, Err(LineRequestCheck(rawId, body, iso).reason))
    ensures LineRequestCheck(rawId, body, iso).Pass? ==>
      var q := LineRequestCheck(rawId, body, iso).value;
      r == EditIn(db, clinicianId, q.uid, refId, q.description, q.datetime, now)
  {
    match LineRequestCheck(rawId, body, iso)
    case Fail(reason) => (db, Err(reason))
    case Pass(q) => EditIn(db, clinicianId, q.uid, refId, q.description, q.datetime, now)
  }

  /** The store step of a delete. */
  function DropFrom(db: Db, clinicianId: Value, uid: string, refId: int, now: int): (r: (Db, Reply<()>))
    ensures r.1.Err? ==> r.0 == db
    ensures r.1 == Err(NoConnection) <==> Connection(db, clinicianId, uid).None?
    ensures r.1.Err? ==> r.1.reason in {NoConnection, ReferenceNotFound, InternalError}
    ensures Connection(db, clinicianId, uid).Some? ==>
      var change := DropLine(Connection(db, clinicianId, uid).value, refId, now);
      && (r.1 == Err(ReferenceNotFound) <==> change == Err(ReferenceNotFound))
      && (r.1.Ok? <==> change.Ok?)
      && (r.1.Ok? ==> Rewritten(db, r.0, Connection(db, clinicianId, uid).value, change) && r.1.status == 200)
  {
    match Connection(db, clinicianId, uid)
    case None => (db, Err(NoConnection))
    case Some(c) =>
      match DropLine(c, refId, now)
      case Err(reason) => (db, Err(reason))
      case Ok(_, (c2, _)) =>
        match SaveDocument(db, "connections", c2)
        case None => (db, Err(InternalError))
        case Some(db2) => (db2, Ok(200, ()))
  }

  /** `delete_patient_reference_line`: the identifier is the only request check; there is no body. */
  function DeleteRefLine(db: Db, clinicianId: Value, rawId: string, refId: int, now: int): (r: (Db, Reply<()>))
    ensures !Ids.ValidUniqueId(NormalizeId(rawId)) ==> r == (db, Err(InvalidUniqueId))
    ensures Ids.ValidUniqueId(NormalizeId(rawId)) ==> r == DropFrom(db, clinicianId, NormalizeId(rawId), refId, now)
  {
    var uid := NormalizeId(rawId);
    if !Ids.ValidUniqueId(uid) then (db, Err(InvalidUniqueId))
    else DropFrom(db, clinicianId, uid, refId, now)
  }

  /** The sort order of the listing: `a`'s datetime is at least `b`'s. */
  predicate LaterLine(a: RefLine, b: RefLine) {
    a.datetime >= b.datetime
  }

  lemma LaterLineOrders()
    ensures TotalPreorder(LaterLine)
  {
  }

  /**
   * `get_patient_reference_lines`: the connection's lines, most recent
   * datetime first, lines with equal datetimes in their stored order;
   * nothing is written.
   */
  function GetRefLines(db: Db, clinicianId: Value, rawId: string): (r: Reply<seq<RefLine>>)
    ensures !Ids.ValidUniqueId(NormalizeId(rawId)) ==> r == Err(InvalidUniqueId)
    ensures (Ids.ValidUniqueId(NormalizeId(rawId)) && Connection(db, clinicianId, NormalizeId(rawId)).None?)
            ==> r == Err(NoConnection)
    ensures r.Err? ==> r.reason in {InvalidUniqueId, NoConnection, InternalError}
    ensures r == Err(InternalError) <==> (Ids.ValidUniqueId(NormalizeId(rawId))
      && Connection(db, clinicianId, NormalizeId(rawId)).Some?
      && LinesOf(Connection(db, clinicianId, NormalizeId(rawId)).value).None?)
    ensures (Ids.ValidUniqueId(NormalizeId(rawId)) && Connection(db, clinicianId, NormalizeId(rawId)).Some?
             && LinesOf(Connection(db, clinicianId, NormalizeId(rawId)).value).Some?) ==> r.Ok?
    ensures r.Ok? ==> forall x :: (Ties(r.value, x, LaterLine)
      == Ties(LinesOf(Connection(db, clinicianId, NormalizeId(rawId)).value).value, x, LaterLine))
    ensures r.Ok? ==> (r.status == 200 && SortedBy(r.value, LaterLine)
      && Connection(db, clinicianId, NormalizeId(rawId)).Some?
      && LinesOf(Connection(db, clinicianId, NormalizeId(rawId)).value).Some?
      && multiset(r.value) == multiset(LinesOf(Connection(db, clinicianId, NormalizeId(rawId)).value).value))
  {
    var uid := NormalizeId(rawId);
    if !Ids.ValidUniqueId(uid) then Err(InvalidUniqueId)
    else
      match Connection(db, clinicianId, uid)
      case None => Err(NoConnection)
      case Some(c) =>
        match LinesOf(c)
        case None => Err(InternalError)
        case Some(lines) =>
          LaterLineOrders();
          var sorted := SortBy(lines, LaterLine);
          assert forall x :: Ties(sorted, x, LaterLine) == Ties(lines, x, LaterLine) by {
            forall x { SortByStable(lines, x, LaterLine); }
          }
          Ok(200, sorted)
  }
}
