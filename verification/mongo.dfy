/** The lead collection as an ordered sequence of documents, and the three
    Mongo primitives the API uses on it: insert_one, find / find_one with an
    equality or `$in` filter, and delete_one by `_id`. Documents are kept in
    insertion order, which is the natural order a plain `find` returns. */
module Mongo {
  import opened Wrappers
  import opened PyValue

  /** A stored document: its ObjectId (as a number) and its other fields. */
  datatype Doc = Doc(id: nat, fields: map<string, Value>)

  /** The collection, with the counter the next ObjectId is drawn from. */
  datatype Store = Store(docs: seq<Doc>, nextId: nat)

  /** Every ObjectId is unique and was handed out by the counter. */
  predicate Valid(st: Store) {
    && (forall i :: 0 <= i < |st.docs| ==> st.docs[i].id < st.nextId)
    && (forall i, j :: 0 <= i < j < |st.docs| ==> st.docs[i].id != st.docs[j].id)
  }

  /** `st'` keeps every document of `st`, unchanged and in place, and may hold
      more after them. */
  predicate Extends(st: Store, st': Store) {
    |st.docs| <= |st'.docs| && st'.docs[..|st.docs|] == st.docs
  }

  /** A field as a query sees it: a missing field compares like null. */
  function Field(d: Doc, k: string): Value {
    Get(d.fields, k, Null)
  }

  /** Mongo's equality match: the field equals the value, or is an array
      holding it. */
  predicate ValueMatches(fv: Value, v: Value) {
    fv == v || (fv.List? && v in fv.items)
  }

  /** One filter condition: `{k: v}` or `{k: {"$in": vs}}`. */
  datatype Cond = Eq(v: Value) | In(vs: seq<Value>)

  /** A filter document: every key's condition must hold. */
  type Query = map<string, Cond>

  predicate Holds(d: Doc, k: string, c: Cond) {
    match c
    case Eq(v) => ValueMatches(Field(d, k), v)
    case In(vs) => exists i :: 0 <= i < |vs| && ValueMatches(Field(d, k), vs[i])
  }

  predicate Matches(d: Doc, q: Query) {
    forall k :: k in q ==> Holds(d, k, q[k])
  }

  /** `insert_one(fields)`: appends one document under a fresh ObjectId and
      returns that id; nothing else changes. */
  function InsertOne(st: Store, fields: map<string, Value>): (r: (Store, nat))
    requires Valid(st)
    ensures Valid(r.0)
    ensures r.0.docs == st.docs + [Doc(r.1, fields)]
    ensures forall i :: 0 <= i < |st.docs| ==> st.docs[i].id != r.1
  {
    (Store(st.docs + [Doc(st.nextId, fields)], st.nextId + 1), st.nextId)
  }

  /** The position of the first document matching `q`, if any. */
  function FirstMatch(docs: seq<Doc>, q: Query): (r: Option<nat>)
    ensures r.Some? ==> r.value < |docs| && Matches(docs[r.value], q)
    ensures r.Some? ==> forall j :: 0 <= j < r.value ==> !Matches(docs[j], q)
    ensures r.None? <==> forall j :: 0 <= j < |docs| ==> !Matches(docs[j], q)
  {
    if |docs| == 0 then None
    else if Matches(docs[0], q) then Some(0)
    else match FirstMatch(docs[1..], q)
      case None => None
      case Some(k) => Some(k + 1)
  }

  /** `find_one(q)`: the first matching document in natural order. */
  function FindOne(st: Store, q: Query): (r: Option<Doc>)
    ensures r.Some? ==> r.value in st.docs && Matches(r.value, q)
    ensures r.None? <==> forall j :: 0 <= j < |st.docs| ==> !Matches(st.docs[j], q)
  {
    match FirstMatch(st.docs, q)
    case None => None
    case Some(k) => Some(st.docs[k])
  }

  /** The matching documents, in natural order. */
  function FilterDocs(docs: seq<Doc>, q: Query): (r: seq<Doc>)
    ensures |r| <= |docs|
    ensures forall i :: 0 <= i < |r| ==> r[i] in docs && Matches(r[i], q)
    ensures forall i :: 0 <= i < |docs| && Matches(docs[i], q) ==> docs[i] in r
  {
    if |docs| == 0 then []
    else
      var rest := FilterDocs(docs[1..], q);
      assert forall i :: 1 <= i < |docs| ==> docs[i] == docs[1..][i - 1];
      if Matches(docs[0], q) then [docs[0]] + rest else rest
  }

  /** `find(q).to_list(length=limit)`: at most `limit` matching documents;
      when no more than `limit` documents match, all of them. */
  function Find(st: Store, q: Query, limit: nat): (r: seq<Doc>)
    ensures |r| <= limit
    ensures forall i :: 0 <= i < |r| ==> r[i] in st.docs && Matches(r[i], q)
    ensures |FilterDocs(st.docs, q)| <= limit ==>
              forall i :: 0 <= i < |st.docs| && Matches(st.docs[i], q) ==> st.docs[i] in r
  {
    var all := FilterDocs(st.docs, q);
    if |all| <= limit then all else all[..limit]
  }

  /** `delete_one({"_id": id})`: removes the document with that ObjectId, if
      there is one, and reports how many were deleted. */
  function DeleteById(st: Store, id: nat): (r: (Store, nat))
    requires Valid(st)
    ensures Valid(r.0)
    ensures r.1 == 1 <==> exists i :: 0 <= i < |st.docs| && st.docs[i].id == id
    ensures r.1 == 0 ==> r.0 == st
    ensures r.1 <= 1 && |r.0.docs| == |st.docs| - r.1
    ensures forall d :: d in r.0.docs <==> d in st.docs && d.id != id
  {
    match IdPosition(st.docs, id)
    case None => (st, 0)
    case Some(k) =>
      var docs' := st.docs[..k] + st.docs[k + 1..];
      RemoveAt(st, k);
      (Store(docs', st.nextId), 1)
  }

  function IdPosition(docs: seq<Doc>, id: nat): (r: Option<nat>)
    ensures r.Some? ==> r.value < |docs| && docs[r.value].id == id
    ensures r.None? <==> forall j :: 0 <= j < |docs| ==> docs[j].id != id
  {
    if |docs| == 0 then None
    else if docs[0].id == id then Some(0)
    else match IdPosition(docs[1..], id)
      case None => None
      case Some(k) => Some(k + 1)
  }

  /** Removing the document at position `k` keeps the store valid and keeps
      exactly the documents with another id. */
  lemma RemoveAt(st: Store, k: nat)
    requires Valid(st) && k < |st.docs|
    ensures var docs' := st.docs[..k] + st.docs[k + 1..];
      && Valid(Store(docs', st.nextId))
      && forall d :: d in docs' <==> d in st.docs && d.id != st.docs[k].id
  {
    var docs' := st.docs[..k] + st.docs[k + 1..];
    assert forall i :: 0 <= i < |docs'| ==> docs'[i] == st.docs[if i < k then i else i + 1];
    forall d | d in st.docs && d.id != st.docs[k].id ensures d in docs' {
      var i :| 0 <= i < |st.docs| && st.docs[i] == d;
      if i < k { assert docs'[i] == d; } else { assert docs'[i - 1] == d; }
    }
  }
}
