/**
 * The CouchDB document store as the service sees it: named partitions
 * (CouchDB databases), each an ordered sequence of JSON-like documents in
 * the order they were added.
 *
 * A partition named in `down` is one whose database handle cannot be
 * obtained: lookups in it find nothing and saves to it raise.
 */
module DocStore {
  import opened Wrappers

  /** A reference line embedded in a connection document. */
  datatype RefLine = RefLine(
    refId: int,
    datetime: int,
    description: string,
    createdAt: int,
    updatedAt: Option<int>,
    clinicianId: Value)

  /**
   * A token from the URL-safe timed serializer, modelled symbolically: a
   * genuine token records the payload, secret key, salt and second at which
   * it was signed; anything else presented as a token is `Forged`.
   */
  datatype Token =
    | Signed(payload: map<string, Value>, key: string, salt: string, issuedAt: int)
    | Forged(text: string)

  /** A JSON value as stored in a document (timestamps are whole seconds). */
  datatype Value =
    | Null
    | Str(s: string)
    | Int(i: int)
    | Bool(b: bool)
    | Obj(fields: map<string, Value>)
    | Lines(lines: seq<RefLine>)
    | Tok(token: Token)

  type Doc = map<string, Value>

  /** `doc.get(key)`. */
  function Get(d: Doc, key: string): Value {
    if key in d then d[key] else Null
  }

  /** `dict.get(key, default)`: the default only when the key is absent. */
  function GetDefault(d: Doc, key: string, default: Value): (r: Value)
    ensures key in d ==> r == d[key]
    ensures key !in d ==> r == default
  {
    if key in d then d[key] else default
  }

  /** Python truthiness. */
  predicate Truthy(v: Value) {
    match v
    case Null => false
    case Str(s) => s != ""
    case Int(i) => i != 0
    case Bool(b) => b
    case Obj(m) => |m| > 0
    case Lines(ls) => |ls| > 0
    case Tok(_) => true
  }

  /** The numeric value of an int or a bool (Python's bool is an int). */
  function Numeric(v: Value): Option<int> {
    match v
    case Int(i) => Some(i)
    case Bool(b) => Some(if b then 1 else 0)
    case _ => None
  }

  /** Python `==` on values: `True == 1` and `False == 0`. */
  predicate PyEq(a: Value, b: Value) {
    if Numeric(a).Some? && Numeric(b).Some? then Numeric(a) == Numeric(b) else a == b
  }

  /** A selector matches when every one of its keys is present with an equal value. */
  predicate Matches(d: Doc, sel: Doc) {
    forall k :: k in sel ==> k in d && PyEq(d[k], sel[k])
  }

  /**
   * The number of results a `limit` argument allows: None when the limit is
   * falsy (absent or 0), otherwise the count at which the scan stops (a
   * negative limit stops after the first match).
   */
  function Cap(limit: Option<int>): Option<nat> {
    match limit
    case None => None
    case Some(n) => if n == 0 then None else if n >= 1 then Some(n) else Some(1)
  }

  /** The first `k` elements, or all of them when there are fewer. */
  function TakeUpTo(s: seq<Doc>, k: nat): seq<Doc> {
    if k < |s| then s[..k] else s
  }

  /** All matching documents, in store order. */
  function Filter(docs: seq<Doc>, sel: Doc): (r: seq<Doc>)
    ensures forall d :: d in r <==> d in docs && Matches(d, sel)
    ensures |r| <= |docs|
  {
    if |docs| == 0 then []
    else if Matches(docs[0], sel) then [docs[0]] + Filter(docs[1..], sel)
    else Filter(docs[1..], sel)
  }

  /** The scanning loop of `find_documents`, with the results so far in `acc`. */
  function Collect(docs: seq<Doc>, sel: Doc, limit: Option<int>, acc: seq<Doc>): seq<Doc>
  {
    if |docs| == 0 then acc
    else if Matches(docs[0], sel) then
      var acc' := acc + [docs[0]];
      if Cap(limit).Some? && |acc'| >= Cap(limit).value then acc'
      else Collect(docs[1..], sel, limit, acc')
    else Collect(docs[1..], sel, limit, acc)
  }

  /** `find_documents` over one partition's documents. */
  function FindIn(docs: seq<Doc>, sel: Doc, limit: Option<int>): seq<Doc> {
    Collect(docs, sel, limit, [])
  }

  lemma AppendAssoc(a: seq<Doc>, b: seq<Doc>, c: seq<Doc>)
    ensures (a + b) + c == a + (b + c)
  {
  }

  lemma TakeUpToCons(x: Doc, rest: seq<Doc>, k: nat)
    requires k >= 1
    ensures TakeUpTo([x] + rest, k) == [x] + TakeUpTo(rest, k - 1)
  {
    if k - 1 < |rest| {
      assert ([x] + rest)[..k] == [x] + rest[..k - 1];
    }
  }

  lemma {:induction false} CollectSpec(docs: seq<Doc>, sel: Doc, limit: Option<int>, acc: seq<Doc>)
    requires Cap(limit).None? || |acc| < Cap(limit).value
    ensures Cap(limit).None? ==> Collect(docs, sel, limit, acc) == acc + Filter(docs, sel)
    ensures Cap(limit).Some? ==>
      Collect(docs, sel, limit, acc) == acc + TakeUpTo(Filter(docs, sel), Cap(limit).value - |acc|)
    decreases |docs|, 1
  {
    if |docs| == 0 {
      assert Filter(docs, sel) == [];
    } else if Matches(docs[0], sel) {
      CollectSpecMatch(docs, sel, limit, acc);
    } else {
      assert Filter(docs, sel) == Filter(docs[1..], sel);
      assert Collect(docs, sel, limit, acc) == Collect(docs[1..], sel, limit, acc);
      CollectSpec(docs[1..], sel, limit, acc);
    }
  }

  /** The step of `CollectSpec` where the first document matches. */
  lemma {:induction false} CollectSpecMatch(docs: seq<Doc>, sel: Doc, limit: Option<int>, acc: seq<Doc>)
    requires |docs| > 0 && Matches(docs[0], sel)
    requires Cap(limit).None? || |acc| < Cap(limit).value
    ensures Cap(limit).None? ==> Collect(docs, sel, limit, acc) == acc + Filter(docs, sel)
    ensures Cap(limit).Some? ==>
      Collect(docs, sel, limit, acc) == acc + TakeUpTo(Filter(docs, sel), Cap(limit).value - |acc|)
    decreases |docs|, 0
  {
    var acc' := acc + [docs[0]];
    var rest := Filter(docs[1..], sel);
    assert Filter(docs, sel) == [docs[0]] + rest;
    if Cap(limit).Some? && |acc'| >= Cap(limit).value {
      assert Collect(docs, sel, limit, acc) == acc';
      TakeUpToCons(docs[0], rest, 1);
      assert TakeUpTo(rest, 0) == [];
    } else {
      assert Collect(docs, sel, limit, acc) == Collect(docs[1..], sel, limit, acc');
      CollectSpec(docs[1..], sel, limit, acc');
      if Cap(limit).Some? {
        var k := Cap(limit).value - |acc|;
        TakeUpToCons(docs[0], rest, k);
        AppendAssoc(acc, [docs[0]], TakeUpTo(rest, k - 1));
      } else {
        AppendAssoc(acc, [docs[0]], rest);
      }
    }
  }

  /**
   * `find_documents` returns the matching documents in store order, cut
   * after `limit` results when the limit is truthy and unlimited otherwise.
   */
  lemma FindInSpec(docs: seq<Doc>, sel: Doc, limit: Option<int>)
    ensures Cap(limit).None? ==> FindIn(docs, sel, limit) == Filter(docs, sel)
    ensures Cap(limit).Some? ==> FindIn(docs, sel, limit) == TakeUpTo(Filter(docs, sel), Cap(limit).value)
  {
    CollectSpec(docs, sel, limit, []);
  }

  /** Every result matches and comes from the partition; a lookup comes back empty exactly when nothing matches. */
  lemma FindInFacts(docs: seq<Doc>, sel: Doc, limit: Option<int>)
    ensures forall d :: d in FindIn(docs, sel, limit) ==> d in docs && Matches(d, sel)
    ensures FindIn(docs, sel, limit) == [] <==> forall d :: d in docs ==> !Matches(d, sel)
    ensures Cap(limit).Some? ==> |FindIn(docs, sel, limit)| <= Cap(limit).value
  {
    FindInSpec(docs, sel, limit);
    var f := Filter(docs, sel);
    if f != [] {
      assert f[0] in f;
      if Cap(limit).Some? {
        assert TakeUpTo(f, Cap(limit).value)[0] == f[0];
      }
    }
  }

  /** The store: partitions by name, and the partitions that cannot be reached. */
  datatype Db = Db(parts: map<string, seq<Doc>>, down: set<string>)

  /** A partition's documents; a database that does not exist yet is empty (get_db creates it). */
  function Docs(db: Db, name: string): seq<Doc> {
    if name in db.parts then db.parts[name] else []
  }

  /** Replaces partition `name` by `docs`, leaving every other partition alone. */
  function WithDocs(db: Db, name: string, docs: seq<Doc>): (r: Db)
    ensures Docs(r, name) == docs && r.down == db.down
    ensures forall n :: n != name ==> Docs(r, n) == Docs(db, n)
  {
    db.(parts := db.parts[name := docs])
  }

  /** Two stores agree on everything except partition `name`. */
  ghost predicate SameExcept(a: Db, b: Db, name: string) {
    a.down == b.down && forall n :: n != name ==> Docs(a, n) == Docs(b, n)
  }

  /** `client.find_documents(name, sel, limit)`. */
  function Find(db: Db, name: string, sel: Doc, limit: Option<int>): (r: seq<Doc>)
    ensures name in db.down ==> r == []
    ensures forall d :: d in r ==> d in Docs(db, name) && Matches(d, sel)
    ensures name !in db.down ==>
      (r == [] <==> forall d :: d in Docs(db, name) ==> !Matches(d, sel))
    ensures Cap(limit).Some? ==> |r| <= Cap(limit).value
  {
    if name in db.down then []
    else
      FindInFacts(Docs(db, name), sel, limit);
      FindIn(Docs(db, name), sel, limit)
  }

  /** `find_documents(name, sel)` with no limit: every match, in store order. */
  function FindAll(db: Db, name: string, sel: Doc): (r: seq<Doc>)
    ensures name in db.down ==> r == []
    ensures name !in db.down ==> r == Filter(Docs(db, name), sel)
  {
    if name in db.down then []
    else
      FindInSpec(Docs(db, name), sel, None);
      Find(db, name, sel, None)
  }

  /** `find_documents(name, sel, limit=1)`, read as its first result: the first match in store order. */
  function FindOne(db: Db, name: string, sel: Doc): (r: Option<Doc>)
    ensures r.Some? ==> r.value in Docs(db, name) && Matches(r.value, sel)
    ensures r.None? <==> name in db.down || forall d :: d in Docs(db, name) ==> !Matches(d, sel)
    ensures r.Some? ==> name !in db.down && r.value == Filter(Docs(db, name), sel)[0]
  {
    if name in db.down then None
    else
      FindInSpec(Docs(db, name), sel, Some(1));
      var found := Find(db, name, sel, Some(1));
      if found == [] then None else Some(found[0])
  }

  /** A lookup depends only on the partition's documents and whether it is reachable. */
  lemma FindOneSame(db1: Db, db2: Db, name: string, sel: Doc)
    requires Docs(db1, name) == Docs(db2, name) && (name in db1.down <==> name in db2.down)
    ensures FindOne(db1, name, sel) == FindOne(db2, name, sel)
  {
  }

  /** The documents with `_id` different from `id`, in order. */
  function WithoutId(docs: seq<Doc>, id: Value): (r: seq<Doc>)
    ensures forall d :: d in r <==> d in docs && Get(d, "_id") != id
    ensures |r| <= |docs|
    ensures (forall d :: d in docs ==> Get(d, "_id") != id) ==> r == docs
    ensures (exists d :: d in docs && Get(d, "_id") == id) ==> |r| < |docs|
  {
    if |docs| == 0 then []
    else if Get(docs[0], "_id") == id then WithoutId(docs[1..], id)
    else [docs[0]] + WithoutId(docs[1..], id)
  }

  /** `client.get_document(name, id)`: None for a missing id or an unreachable partition. */
  function GetDocument(db: Db, name: string, id: string): (r: Option<Doc>)
    ensures r.Some? ==> r.value in Docs(db, name) && Get(r.value, "_id") == Str(id)
    ensures r.None? <==> name in db.down || forall d :: d in Docs(db, name) ==> Get(d, "_id") != Str(id)
  {
    if name in db.down then None
    else
      var hits := Filter(Docs(db, name), map["_id" := Str(id)]);
      if hits == [] then None else Some(hits[0])
  }

  /**
   * `client.delete_document(id, name)`: removes the document with that id
   * and reports whether there was one; without one nothing changes.
   */
  function DeleteDocument(db: Db, name: string, id: Value): (r: (Db, bool))
    ensures r.1 <==> name !in db.down && exists d :: d in Docs(db, name) && Get(d, "_id") == id
    ensures !r.1 ==> r.0 == db
    ensures r.1 ==> SameExcept(r.0, db, name) && Docs(r.0, name) == WithoutId(Docs(db, name), id)
  {
    if name in db.down || forall d :: d in Docs(db, name) ==> Get(d, "_id") != id then (db, false)
    else (WithDocs(db, name, WithoutId(Docs(db, name), id)), true)
  }

  /** `doc.update(updates)`: the keys of both, with the values of `updates` winning. */
  function Patched(d: Doc, updates: Doc): (r: Doc)
    ensures r.Keys == d.Keys + updates.Keys
    ensures forall k :: k in updates ==> r[k] == updates[k]
    ensures forall k :: k in d && k !in updates ==> r[k] == d[k]
  {
    d + updates
  }

  /** Applies `updates` on top of every document whose `_id` is `id`; the others stay as they are. */
  function Patch(docs: seq<Doc>, id: Value, updates: Doc): (r: seq<Doc>)
    ensures |r| == |docs|
    ensures forall i :: 0 <= i < |docs| ==> r[i] == (if Get(docs[i], "_id") == id then Patched(docs[i], updates) else docs[i])
  {
    if |docs| == 0 then []
    else
      var head := if Get(docs[0], "_id") == id then Patched(docs[0], updates) else docs[0];
      [head] + Patch(docs[1..], id, updates)
  }

  /**
   * `client.update_document(id, updates, name)`: overwrites only the given
   * keys of an existing document; None (here `false`) when it is absent.
   */
  function UpdateDocument(db: Db, name: string, id: string, updates: Doc): (r: (Db, bool))
    ensures r.1 <==> name !in db.down && exists d :: d in Docs(db, name) && Get(d, "_id") == Str(id)
    ensures !r.1 ==> r.0 == db
    ensures r.1 ==> SameExcept(r.0, db, name) && Docs(r.0, name) == Patch(Docs(db, name), Str(id), updates)
  {
    if name in db.down || forall d :: d in Docs(db, name) ==> Get(d, "_id") != Str(id) then (db, false)
    else (WithDocs(db, name, Patch(Docs(db, name), Str(id), updates)), true)
  }

  /** Puts `doc` in place of every document whose `_id` is `id`. */
  function Replace(docs: seq<Doc>, id: Value, doc: Doc): (r: seq<Doc>)
    ensures |r| == |docs|
    ensures forall i :: 0 <= i < |docs| ==> r[i] == (if Get(docs[i], "_id") == id then doc else docs[i])
  {
    if |docs| == 0 then []
    else [if Get(docs[0], "_id") == id then doc else docs[0]] + Replace(docs[1..], id, doc)
  }

  /** Stores `doc` whole: it replaces the documents with the same `_id`, or is appended when there is none. */
  function Upsert(docs: seq<Doc>, doc: Doc): (r: seq<Doc>)
    ensures doc in r
    ensures (forall d :: d in docs ==> Get(d, "_id") != Get(doc, "_id")) ==> r == docs + [doc]
    ensures forall d :: d in r ==> d == doc || (d in docs && Get(d, "_id") != Get(doc, "_id"))
    ensures forall d :: d in docs && Get(d, "_id") != Get(doc, "_id") ==> d in r
  {
    var id := Get(doc, "_id");
    if exists i :: 0 <= i < |docs| && Get(docs[i], "_id") == id then
      var r := Replace(docs, id, doc);
      assert forall d :: d in r ==> d == doc || (d in docs && Get(d, "_id") != id);
      assert forall d :: d in docs && Get(d, "_id") != id ==> d in r by {
        forall d | d in docs && Get(d, "_id") != id ensures d in r {
          var i :| 0 <= i < |docs| && docs[i] == d;
          assert r[i] == d;
        }
      }
      r
    else docs + [doc]
  }

  /** `client.save_document(name, doc)`: None where the source raises because the database cannot be obtained. */
  function SaveDocument(db: Db, name: string, doc: Doc): (r: Option<Db>)
    ensures r.None? <==> name in db.down
    ensures r.Some? ==> SameExcept(r.value, db, name) && Docs(r.value, name) == Upsert(Docs(db, name), doc)
  {
    if name in db.down then None else Some(WithDocs(db, name, Upsert(Docs(db, name), doc)))
  }

  /** Some document of the partition already has `_id` `id`. */
  predicate HasId(docs: seq<Doc>, id: string) {
    exists i :: 0 <= i < |docs| && Get(docs[i], "_id") == Str(id)
  }

  /**
   * `client.create_document(doc, name)`: the store gives the new document
   * the identifier `id`; None where the source returns None, because the
   * database cannot be obtained or the save conflicts with an existing
   * document of that identifier.
   */
  function CreateDocument(db: Db, name: string, doc: Doc, id: string): (r: Option<Db>)
    ensures r.None? <==> name in db.down || HasId(Docs(db, name), id)
    ensures r.Some? ==> SameExcept(r.value, db, name)
    ensures r.Some? ==> Docs(r.value, name) == Docs(db, name) + [doc["_id" := Str(id)]]
  {
    if name in db.down || HasId(Docs(db, name), id) then None
    else Some(WithDocs(db, name, Docs(db, name) + [doc["_id" := Str(id)]]))
  }

  /** `after` is `before` with `doc` saved to partition `name` and nothing else changed. */
  ghost predicate Saved(before: Db, after: Db, name: string, doc: Doc) {
    name !in before.down && SameExcept(after, before, name) && Docs(after, name) == Upsert(Docs(before, name), doc)
  }

  /**
   * After a save, a selector that the saved document matches, and that
   * before matched only documents with the same `_id`, finds exactly it.
   */
  lemma SavedIsFound(before: Db, after: Db, name: string, sel: Doc, doc: Doc)
    requires Saved(before, after, name, doc) && Matches(doc, sel)
    requires forall d :: d in Docs(before, name) && Matches(d, sel) ==> Get(d, "_id") == Get(doc, "_id")
    ensures FindOne(after, name, sel) == Some(doc)
  {
    assert name !in after.down;
    assert doc in Docs(after, name);
    var found := FindOne(after, name, sel).value;
    assert found in Docs(after, name) && Matches(found, sel);
  }

  /** `get_database_name`: the partition holding a user type's accounts. */
  function DatabaseName(userType: string): (r: string)
    ensures r == "patient" <==> userType == "patient"
    ensures r == "clinician" <==> userType == "doctor"
    ensures r == "moodist" <==> userType != "patient" && userType != "doctor"
  {
    if userType == "patient" then "patient"
    else if userType == "doctor" then "clinician"
    else "moodist"
  }

  /** `get_user_database`: the partition for a user type, None when it cannot be reached. */
  function GetUserDatabase(db: Db, userType: string): (r: Option<seq<Doc>>)
    ensures r.Some? ==> r.value == Docs(db, DatabaseName(userType))
    ensures r.None? <==> DatabaseName(userType) in db.down
  {
    var name := DatabaseName(userType);
    if name in db.down then None else Some(Docs(db, name))
  }
}
