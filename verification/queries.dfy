/** The lead-store queries of the crawler API: duplicate check and insert
    keyed by `place_id`, the filtered listing, lookup by `place_id` and
    deletion by ObjectId text. */
module Queries {
  import opened Wrappers
  import opened PyValue
  import opened Mongo
  import ObjectIds

  /** The `to_list(length=...)` cap of the filtered listing. */
  const FindLimit: nat := 1000

  /** Python truthiness of an optional string argument. */
  predicate Given(s: Option<string>) {
    s.Some? && |s.value| > 0
  }

  function PlaceIdQuery(placeId: Value): Query {
    map["place_id" := Eq(placeId)]
  }

  /** `is_duplicate`: true exactly when some stored lead's `place_id`
      matches. */
  function IsDuplicate(st: Store, placeId: Value): (r: bool)
    ensures r <==> exists i :: 0 <= i < |st.docs| && ValueMatches(Field(st.docs[i], "place_id"), placeId)
  {
    var q := PlaceIdQuery(placeId);
    assert forall d :: Matches(d, q) <==> ValueMatches(Field(d, "place_id"), placeId) by {
      forall d ensures Matches(d, q) <==> ValueMatches(Field(d, "place_id"), placeId) {
        assert "place_id" in q;
      }
    }
    FindOne(st, q).Some?
  }

  /** `insert_lead`: stores exactly one new record holding `data`, under an
      ObjectId no other record has, leaves the others as they were and
      returns the new ObjectId's text. */
  function InsertLead(st: Store, data: map<string, Value>): (r: (Store, string))
    requires Valid(st)
    ensures Valid(r.0)
    ensures |r.0.docs| == |st.docs| + 1 && r.0.docs[..|st.docs|] == st.docs
    ensures r.0.docs[|st.docs|].fields == data
    ensures forall i :: 0 <= i < |st.docs| ==> st.docs[i].id != r.0.docs[|st.docs|].id
    ensures r.1 == ObjectIds.Text(r.0.docs[|st.docs|].id)
  {
    var (st', id) := InsertOne(st, data);
    assert st'.docs[..|st.docs|] == st.docs;
    (st', ObjectIds.Text(id))
  }

  /** The filter built by `get_leads_by_filter` (and by the `/leads` route):
      a `state` condition only for a non-empty state, a `types` membership
      condition only for a non-empty type, nothing else. */
  function LeadsQuery(state: Option<string>, type_: Option<string>): (q: Query)
    ensures "state" in q <==> Given(state)
    ensures "types" in q <==> Given(type_)
    ensures forall k :: k in q ==> k == "state" || k == "types"
    ensures Given(state) ==> q["state"] == Eq(Str(state.value))
    ensures Given(type_) ==> q["types"] == In([Str(type_.value)])
  {
    var q0: Query := map[];
    var q1 := if Given(state) then q0["state" := Eq(Str(state.value))] else q0;
    if Given(type_) then q1["types" := In([Str(type_.value)])] else q1
  }

  /** What the filter of `LeadsQuery` demands of one lead. */
  predicate PassesFilter(d: Doc, state: Option<string>, type_: Option<string>) {
    && (Given(state) ==> ValueMatches(Field(d, "state"), Str(state.value)))
    && (Given(type_) ==> ValueMatches(Field(d, "types"), Str(type_.value)))
  }

  lemma LeadsQueryMeaning(d: Doc, state: Option<string>, type_: Option<string>)
    ensures Matches(d, LeadsQuery(state, type_)) <==> PassesFilter(d, state, type_)
  {
    var q := LeadsQuery(state, type_);
    if Given(type_) {
      assert Holds(d, "types", q["types"]) <==> ValueMatches(Field(d, "types"), Str(type_.value)) by {
        if ValueMatches(Field(d, "types"), Str(type_.value)) {
          assert ValueMatches(Field(d, "types"), q["types"].vs[0]);
        }
      }
    }
  }

  /** With an empty filter every document matches, in order. */
  lemma {:induction false} FilterEverything(docs: seq<Doc>, q: Query)
    requires forall i :: 0 <= i < |docs| ==> Matches(docs[i], q)
    ensures FilterDocs(docs, q) == docs
  {
    if |docs| > 0 {
      FilterEverything(docs[1..], q);
      assert docs == [docs[0]] + docs[1..];
    }
  }

  /** `get_leads_by_filter`: at most 1000 stored leads, each passing the
      filters; with neither filter the first 1000 leads in natural order; and
      when no more than 1000 leads pass, every one of them. */
  function GetLeadsByFilter(st: Store, state: Option<string>, type_: Option<string>): (r: seq<Doc>)
    ensures |r| <= FindLimit
    ensures forall i :: 0 <= i < |r| ==> r[i] in st.docs && PassesFilter(r[i], state, type_)
    ensures !Given(state) && !Given(type_) ==>
              r == st.docs[..if |st.docs| <= FindLimit then |st.docs| else FindLimit]
    ensures |FilterDocs(st.docs, LeadsQuery(state, type_))| <= FindLimit ==>
              forall i :: 0 <= i < |st.docs| && PassesFilter(st.docs[i], state, type_) ==> st.docs[i] in r
  {
    var q := LeadsQuery(state, type_);
    assert forall d :: Matches(d, q) <==> PassesFilter(d, state, type_) by {
      forall d ensures Matches(d, q) <==> PassesFilter(d, state, type_) {
        LeadsQueryMeaning(d, state, type_);
      }
    }
    assert !Given(state) && !Given(type_) ==> FilterDocs(st.docs, q) == st.docs by {
      if !Given(state) && !Given(type_) {
        FilterEverything(st.docs, q);
      }
    }
    Find(st, q, FindLimit)
  }

  /** `get_lead_by_place_id`: the first lead whose `place_id` matches, found
      exactly when `is_duplicate` reports one. */
  function GetLeadByPlaceId(st: Store, placeId: Value): (r: Option<Doc>)
    ensures r.Some? ==> r.value in st.docs && ValueMatches(Field(r.value, "place_id"), placeId)
    ensures r.Some? <==> IsDuplicate(st, placeId)
  {
    var q := PlaceIdQuery(placeId);
    assert forall d :: Matches(d, q) <==> ValueMatches(Field(d, "place_id"), placeId) by {
      forall d ensures Matches(d, q) <==> ValueMatches(Field(d, "place_id"), placeId) {
        assert "place_id" in q;
      }
    }
    FindOne(st, q)
  }

  /** `delete_lead_by_id`: a string that is not 24 hex digits raises
      InvalidId; otherwise only the lead with that ObjectId is removed, and
      the reported count says whether there was one. */
  function DeleteLeadById(st: Store, leadId: string): (r: Result<(Store, nat), PyError>)
    requires Valid(st)
    ensures r.Err? <==> ObjectIds.Parse(leadId).None?
    ensures r.Err? ==> r.error == InvalidId
    ensures r.Ok? ==> Valid(r.value.0)
    ensures r.Ok? ==> var id := ObjectIds.Parse(leadId).value;
              && (forall d :: d in r.value.0.docs <==> d in st.docs && d.id != id)
              && (r.value.1 == 1 <==> exists i :: 0 <= i < |st.docs| && st.docs[i].id == id)
              && (r.value.1 == 0 ==> r.value.0 == st)
  {
    match ObjectIds.Parse(leadId)
    case None => Err(InvalidId)
    case Some(id) => Ok(DeleteById(st, id))
  }

  /** Deleting by the text `insert_lead` returned removes exactly the lead just
      inserted, giving back the earlier collection. */
  lemma InsertThenDelete(st: Store, data: map<string, Value>)
    requires Valid(st)
    requires st.nextId < ObjectIds.Pow16(ObjectIds.IdDigits)
    ensures var (st', text) := InsertLead(st, data);
      && DeleteLeadById(st', text).Ok?
      && DeleteLeadById(st', text).value.1 == 1
      && DeleteLeadById(st', text).value.0.docs == st.docs
  {
    var (st', text) := InsertLead(st, data);
    var id := st'.docs[|st.docs|].id;
    assert id == st.nextId;
    ObjectIds.ParseText(id);
    assert IdPosition(st'.docs, id) == Some(|st.docs|) by {
      assert IdPosition(st'.docs, id).Some?;
      var k := IdPosition(st'.docs, id).value;
      assert st'.docs[k].id == id;
    }
    assert st'.docs[..|st.docs|] + st'.docs[|st.docs| + 1..] == st.docs;
  }
}
