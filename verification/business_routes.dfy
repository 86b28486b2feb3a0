/** The crawler routes of `routes/business.py`: `/crawl` searches each
    requested type around a known region and saves the results, `/leads`
    lists stored leads under optional filters, and `/leads/summary` reshapes
    the per-state, per-tag counts into a nested dict. The nearby search is a
    function parameter; the coroutines run in sequence. */
module BusinessRoutes {
  import opened Wrappers
  import opened PyValue
  import opened Mongo
  import opened Queries
  import opened BusinessManager
  import Regions
  import Helpers
  import ObjectIds
  import SeqFacts

  /** The search radius in metres the crawl passes. */
  const Radius: int := 5000

  /** The nearby search: a centre "lat,lng", a radius and a place type, and
      the response or the exception it raised. */
  type Search = (string, int, string) -> Result<Value, PyError>

  /** The two replies of `/crawl`. */
  datatype CrawlReply =
    | RegionNotFound(error: string)
    | CrawlComplete(message: string, businessesSaved: nat)

  function NotFoundMessage(region: string): string {
    "Region '" + region + "' not found in config"
  }

  /** The results one type hands to the save: the search's response, its
      `places` (default `[]`), iterated; or the exception one of them raised. */
  function TypeResults(location: string, t: string, search: Search): (r: Result<seq<Value>, PyError>)
    ensures search(location, Radius, t).Err? ==> r == Err(search(location, Radius, t).error)
    ensures search(location, Radius, t).Ok? && GetOn(search(location, Radius, t).value, "places", List([])).Err? ==> r.Err?
    ensures r.Ok? ==>
      && search(location, Radius, t).Ok?
      && GetOn(search(location, Radius, t).value, "places", List([])).Ok?
      && Iterate(GetOn(search(location, Radius, t).value, "places", List([])).value) == r
  {
    var response :- search(location, Radius, t);
    var places :- GetOn(response, "places", List([]));
    Iterate(places)
  }

  /** The type's search, lookup and save all finish without an exception. */
  predicate TypeCompletes(st: Store, location: string, state: string, region: string, t: string, search: Search)
    requires Valid(st)
  {
    TypeResults(location, t, search).Ok? && FilterAndSave(st, TypeResults(location, t, search).value, state, region).1.Ok?
  }

  /** One type of the crawl: search, take `places` (default `[]`), save.
      Any exception is caught and the type adds 0. A search or an iteration
      that raises leaves the store as it was; a save that raises stopped at
      one result, and the records it inserted for the results before it stay
      in the store. A type that completes
      counts exactly the records it added. */
  function TypeOutcome(st: Store, location: string, state: string, region: string, t: string, search: Search): (r: (Store, nat))
    requires Valid(st)
    ensures Valid(r.0) && Extends(st, r.0)
    ensures search(location, Radius, t).Err? ==> r == (st, 0)
    ensures search(location, Radius, t).Ok? && GetOn(search(location, Radius, t).value, "places", List([])).Err? ==> r == (st, 0)
    ensures TypeCompletes(st, location, state, region, t, search) ==> r.1 == |r.0.docs| - |st.docs|
    ensures !TypeCompletes(st, location, state, region, t, search) ==> r.1 == 0
    ensures TypeResults(location, t, search).Err? ==> r == (st, 0)
    ensures TypeResults(location, t, search).Ok? && !TypeCompletes(st, location, state, region, t, search) ==>
              exists k :: StopsOn(r.0.docs, TypeResults(location, t, search).value, k, state, region)
  {
    match TypeResults(location, t, search)
    case Err(_) => (st, 0)
    case Ok(results) =>
      var saved := FilterAndSave(st, results, state, region);
      (saved.0, if saved.1.Ok? then saved.1.value else 0)
  }

  /** A type adds only fresh records of the region and counts no more than
      it added. */
  lemma TypeAddsFreshRecords(st: Store, location: string, state: string, region: string, t: string, search: Search)
    requires Valid(st)
    ensures var r := TypeOutcome(st, location, state, region, t, search);
      r.1 <= |r.0.docs| - |st.docs| && FreshRecords(r.0.docs, |st.docs|, state, region)
  {
  }

  /** The store and running total after the first types of the list, one
      `TypeOutcome` after another. */
  function Crawl(st: Store, location: string, state: string, region: string, types: seq<string>, search: Search): (r: (Store, nat))
    requires Valid(st)
    ensures Valid(r.0) && Extends(st, r.0)
    decreases |types|
  {
    if |types| == 0 then (st, 0)
    else
      var before := Crawl(st, location, state, region, types[..|types| - 1], search);
      var last := TypeOutcome(before.0, location, state, region, types[|types| - 1], search);
      (last.0, before.1 + last.1)
  }

  /** Whatever the searches return, the crawl only adds fresh records of
      the region, and its total counts no more than it added. */
  lemma {:induction false} CrawlAddsFreshRecords(st: Store, location: string, state: string, region: string,
                                                 types: seq<string>, search: Search)
    requires Valid(st)
    ensures var r := Crawl(st, location, state, region, types, search);
      r.1 <= |r.0.docs| - |st.docs| && FreshRecords(r.0.docs, |st.docs|, state, region)
    decreases |types|
  {
    if |types| > 0 {
      var before := Crawl(st, location, state, region, types[..|types| - 1], search);
      CrawlAddsFreshRecords(st, location, state, region, types[..|types| - 1], search);
      var last := TypeOutcome(before.0, location, state, region, types[|types| - 1], search);
      TypeAddsFreshRecords(before.0, location, state, region, types[|types| - 1], search);
      FreshCompose(st.docs, before.0.docs, last.0.docs, state, region);
    }
  }

  /** Every type of the list completes, each on the store the types before
      it left. */
  predicate AllComplete(st: Store, location: string, state: string, region: string, types: seq<string>, search: Search)
    requires Valid(st)
    decreases |types|
  {
    |types| == 0 ||
      (AllComplete(st, location, state, region, types[..|types| - 1], search)
       && TypeCompletes(Crawl(st, location, state, region, types[..|types| - 1], search).0,
                        location, state, region, types[|types| - 1], search))
  }

  /** When no type raises, the crawl's total is exactly the number of
      records it added. */
  lemma {:induction false} CompleteCrawlCountsAll(st: Store, location: string, state: string, region: string,
                                                  types: seq<string>, search: Search)
    requires Valid(st)
    requires AllComplete(st, location, state, region, types, search)
    ensures Crawl(st, location, state, region, types, search).1
      == |Crawl(st, location, state, region, types, search).0.docs| - |st.docs|
    decreases |types|
  {
    if |types| > 0 {
      CompleteCrawlCountsAll(st, location, state, region, types[..|types| - 1], search);
    }
  }

  /** Records added in two runs are the records of one run. */
  lemma FreshCompose(docs: seq<Doc>, docs1: seq<Doc>, docs2: seq<Doc>, state: string, region: string)
    requires |docs| <= |docs1| <= |docs2| && docs2[..|docs1|] == docs1
    requires FreshRecords(docs1, |docs|, state, region)
    requires FreshRecords(docs2, |docs1|, state, region)
    ensures FreshRecords(docs2, |docs|, state, region)
  {
    forall i | |docs| <= i < |docs1| ensures docs2[i] == docs1[i] && docs2[..i] == docs1[..i] {
      assert docs2[..|docs1|][i] == docs2[i];
      assert docs2[..|docs1|][..i] == docs2[..i];
    }
  }

  /** `crawl_businesses` over the region table `coords` (the route reads
      `REGION_COORDINATES`, `Regions.RegionCoordinates` here): an unknown
      region is refused before any search; otherwise every type is searched,
      in order, whatever happened to the earlier ones, and the reply carries
      the total the types saved. */
  method CrawlBusinesses(st: Store, coords: map<string, string>, state: string, region: string,
                         types: seq<string>, search: Search)
    returns (st': Store, reply: CrawlReply)
    requires Valid(st)
    ensures Valid(st') && Extends(st, st')
    ensures region !in coords ==>
      st' == st && reply == RegionNotFound(NotFoundMessage(region))
    ensures region in coords ==>
      && reply.CrawlComplete? && reply.message == "Crawling complete"
      && st' == Crawl(st, coords[region], state, region, types, search).0
      && reply.businessesSaved == Crawl(st, coords[region], state, region, types, search).1
    ensures reply.CrawlComplete? ==> reply.businessesSaved <= |st'.docs| - |st.docs|
    ensures region in coords && AllComplete(st, coords[region], state, region, types, search) ==>
      reply.businessesSaved == |st'.docs| - |st.docs|
    ensures FreshRecords(st'.docs, |st.docs|, state, region)
  {
    if region !in coords {
      return st, RegionNotFound(NotFoundMessage(region));
    }
    var total;
    st', total := SearchTypes(st, coords[region], state, region, types, search);
    CrawlAddsFreshRecords(st, coords[region], state, region, types, search);
    if AllComplete(st, coords[region], state, region, types, search) {
      CompleteCrawlCountsAll(st, coords[region], state, region, types, search);
    }
    reply := CrawlComplete("Crawling complete", total);
  }

  /** The loop of lines 29-44: each type in turn, searched around
      `location` and saved, the total summed. */
  method SearchTypes(st: Store, location: string, state: string, region: string, types: seq<string>, search: Search)
    returns (st': Store, total: nat)
    requires Valid(st)
    ensures st' == Crawl(st, location, state, region, types, search).0
    ensures total == Crawl(st, location, state, region, types, search).1
  {
    total := 0;
    st' := st;
    for n := 0 to |types|
      invariant st' == Crawl(st, location, state, region, types[..n], search).0
      invariant total == Crawl(st, location, state, region, types[..n], search).1
    {
      var outcome := TypeOutcome(st', location, state, region, types[n], search);
      ghost var next := Crawl(st, location, state, region, types[..n + 1], search);
      assert next.0 == outcome.0 && next.1 == total + outcome.1 by {
        SeqFacts.PrefixSnoc(types, n);
        CrawlSnoc(st, location, state, region, types[..n], types[n], search);
      }
      st', total := outcome.0, total + outcome.1;
    }
    assert types[..|types|] == types;
  }

  /** One more type: the crawl so far, then that type. */
  lemma CrawlSnoc(st: Store, location: string, state: string, region: string, types: seq<string>, t: string, search: Search)
    requires Valid(st)
    ensures Crawl(st, location, state, region, types + [t], search).0
      == TypeOutcome(Crawl(st, location, state, region, types, search).0, location, state, region, t, search).0
    ensures Crawl(st, location, state, region, types + [t], search).1
      == Crawl(st, location, state, region, types, search).1
       + TypeOutcome(Crawl(st, location, state, region, types, search).0, location, state, region, t, search).1
  {
    var ts := types + [t];
    assert ts[..|ts| - 1] == types;
    assert ts[|ts| - 1] == t;
  }

  /** A type whose search raises changes nothing: the crawl goes on to the
      remaining types as if it had not been asked for. */
  lemma {:induction false} FailingTypeIsSkipped(st: Store, location: string, state: string, region: string,
                                                a: seq<string>, t: string, b: seq<string>, search: Search)
    requires Valid(st)
    requires search(location, Radius, t).Err?
    ensures Crawl(st, location, state, region, a + [t] + b, search).0 == Crawl(st, location, state, region, a + b, search).0
    ensures Crawl(st, location, state, region, a + [t] + b, search).1 == Crawl(st, location, state, region, a + b, search).1
    decreases |b|
  {
    if |b| == 0 {
      SkipLast(st, location, state, region, a, t, search);
      assert a + [t] + b == a + [t] && a + b == a;
    } else {
      FailingTypeIsSkipped(st, location, state, region, a, t, b[..|b| - 1], search);
      SkipStep(st, location, state, region, a, t, b, search);
    }
  }

  /** A failing type at the end of the list adds nothing. */
  lemma SkipLast(st: Store, location: string, state: string, region: string, a: seq<string>, t: string, search: Search)
    requires Valid(st)
    requires search(location, Radius, t).Err?
    ensures Crawl(st, location, state, region, a + [t], search).0 == Crawl(st, location, state, region, a, search).0
    ensures Crawl(st, location, state, region, a + [t], search).1 == Crawl(st, location, state, region, a, search).1
  {
    CrawlSnoc(st, location, state, region, a, t, search);
  }

  /** The skipped type stays skipped when one more type follows. */
  lemma SkipStep(st: Store, location: string, state: string, region: string, a: seq<string>, t: string, b: seq<string>, search: Search)
    requires Valid(st) && |b| > 0
    requires Crawl(st, location, state, region, a + [t] + b[..|b| - 1], search).0 == Crawl(st, location, state, region, a + b[..|b| - 1], search).0
    requires Crawl(st, location, state, region, a + [t] + b[..|b| - 1], search).1 == Crawl(st, location, state, region, a + b[..|b| - 1], search).1
    ensures Crawl(st, location, state, region, a + [t] + b, search).0 == Crawl(st, location, state, region, a + b, search).0
    ensures Crawl(st, location, state, region, a + [t] + b, search).1 == Crawl(st, location, state, region, a + b, search).1
  {
    var b', x := b[..|b| - 1], b[|b| - 1];
    SnocCongruence(st, location, state, region, a + [t] + b', a + b', x, search);
    SeqFacts.SplitLast(b);
    SeqFacts.AppendAssoc(a + [t], b', [x]);
    SeqFacts.AppendAssoc(a, b', [x]);
  }

  /** Two type lists that crawl alike still crawl alike with one more type
      after each. */
  lemma SnocCongruence(st: Store, location: string, state: string, region: string,
                       xs: seq<string>, ys: seq<string>, x: string, search: Search)
    requires Valid(st)
    requires Crawl(st, location, state, region, xs, search).0 == Crawl(st, location, state, region, ys, search).0
    requires Crawl(st, location, state, region, xs, search).1 == Crawl(st, location, state, region, ys, search).1
    ensures Crawl(st, location, state, region, xs + [x], search).0 == Crawl(st, location, state, region, ys + [x], search).0
    ensures Crawl(st, location, state, region, xs + [x], search).1 == Crawl(st, location, state, region, ys + [x], search).1
  {
    CrawlSnoc(st, location, state, region, xs, x, search);
    CrawlSnoc(st, location, state, region, ys, x, search);
  }

  /** When every search raises, nothing is saved and the store is unchanged. */
  lemma {:induction false} NothingFoundSavesNothing(st: Store, location: string, state: string, region: string,
                                                    types: seq<string>, search: Search)
    requires Valid(st)
    requires forall i :: 0 <= i < |types| ==> search(location, Radius, types[i]).Err?
    ensures Crawl(st, location, state, region, types, search) == (st, 0)
    decreases |types|
  {
    if |types| > 0 {
      NothingFoundSavesNothing(st, location, state, region, types[..|types| - 1], search);
    }
  }

  /** A city listed under a state is never refused as unknown. */
  lemma ListedCityIsCrawled(i: nat, region: string)
    requires i < |Regions.AuRegions| && region in Regions.AuRegions[i].1
    ensures region in Regions.RegionCoordinates
  {
    Regions.CityHasCoordinates(i, region);
  }

  /** A lead as `/leads` returns it: its fields with `_id` as the ObjectId's
      text. */
  function Rendered(d: Doc): (r: map<string, Value>)
    ensures r.Keys == d.fields.Keys + {"_id"}
    ensures r["_id"] == Str(ObjectIds.Text(d.id)) && |ObjectIds.Text(d.id)| == ObjectIds.IdDigits
    ensures forall k :: k in d.fields && k != "_id" ==> r[k] == d.fields[k]
  {
    d.fields["_id" := Str(ObjectIds.Text(d.id))]
  }

  /** `get_leads`: at most 1000 stored leads that pass the optional filters,
      each rendered with a string `_id`. */
  function GetLeads(st: Store, state: Option<string>, type_: Option<string>): (r: seq<map<string, Value>>)
    ensures |r| <= FindLimit
    ensures forall i :: 0 <= i < |r| ==> exists d :: d in st.docs && PassesFilter(d, state, type_) && r[i] == Rendered(d)
    ensures forall i :: 0 <= i < |r| ==> "_id" in r[i] && r[i]["_id"].Str?
  {
    var docs := Find(st, LeadsQuery(state, type_), FindLimit);
    assert forall i :: 0 <= i < |docs| ==> PassesFilter(docs[i], state, type_) by {
      forall i | 0 <= i < |docs| ensures PassesFilter(docs[i], state, type_) {
        LeadsQueryMeaning(docs[i], state, type_);
      }
    }
    seq(|docs|, i requires 0 <= i < |docs| => Rendered(docs[i]))
  }

  /** The route lists the same leads, in the same order, as
      `get_leads_by_filter`. */
  lemma GetLeadsAgreesWithQueries(st: Store, state: Option<string>, type_: Option<string>)
    ensures var docs := GetLeadsByFilter(st, state, type_);
      |GetLeads(st, state, type_)| == |docs| &&
      forall i :: 0 <= i < |docs| ==> GetLeads(st, state, type_)[i] == Rendered(docs[i])
  {
  }

  /** A record the crawl inserts has no `types` field: its place types are
      stored under `tags`. */
  lemma CrawledRecordHasNoTypes(result: Value, state: string, region: string)
    requires LeadRecord(result, state, region).Ok?
    ensures "types" !in LeadRecord(result, state, region).value
    ensures "tags" in LeadRecord(result, state, region).value
  {
    var rec := Helpers.TransformPlaceResult(result).value;
    assert rec.Keys == Helpers.RecordKeys;
    TypesIsNoRecordKey();
  }

  lemma TypesIsNoRecordKey()
    ensures "types" !in Helpers.RecordKeys && "tags" in Helpers.RecordKeys
  {
  }

  /** As written, a type filter never matches a lead the crawl stored, even
      one whose tags hold that type. */
  lemma TypeFilterMissesCrawledLeads(d: Doc, result: Value, state: string, region: string, t: string)
    requires LeadRecord(result, state, region) == Ok(d.fields)
    requires |t| > 0
    ensures !PassesFilter(d, None, Some(t))
  {
    CrawledRecordHasNoTypes(result, state, region);
  }

  /** The evidently intended filter: the type is looked up in `tags`, the
      field the crawl fills. */
  function TagsQuery(state: Option<string>, type_: Option<string>): (q: Query)
    ensures "state" in q <==> Given(state)
    ensures "tags" in q <==> Given(type_)
    ensures forall k :: k in q ==> k == "state" || k == "tags"
  {
    var q0: Query := map[];
    var q1 := if Given(state) then q0["state" := Eq(Str(state.value))] else q0;
    if Given(type_) then q1["tags" := In([Str(type_.value)])] else q1
  }

  /** What the intended filter demands of one lead. */
  predicate PassesTagFilter(d: Doc, state: Option<string>, type_: Option<string>) {
    && (Given(state) ==> ValueMatches(Field(d, "state"), Str(state.value)))
    && (Given(type_) ==> ValueMatches(Field(d, "tags"), Str(type_.value)))
  }

  lemma TagsQueryMeaning(d: Doc, state: Option<string>, type_: Option<string>)
    ensures Matches(d, TagsQuery(state, type_)) <==> PassesTagFilter(d, state, type_)
  {
    var q := TagsQuery(state, type_);
    if Given(type_) {
      assert Holds(d, "tags", q["tags"]) <==> ValueMatches(Field(d, "tags"), Str(type_.value)) by {
        if ValueMatches(Field(d, "tags"), Str(type_.value)) {
          assert ValueMatches(Field(d, "tags"), q["tags"].vs[0]);
        }
      }
    }
  }

  /** `/leads` with the intended filter. */
  function GetLeadsByTag(st: Store, state: Option<string>, type_: Option<string>): (r: seq<map<string, Value>>)
    ensures |r| <= FindLimit
    ensures forall i :: 0 <= i < |r| ==> TagListed(r[i], st.docs, state, type_)
    ensures |FilterDocs(st.docs, TagsQuery(state, type_))| <= FindLimit ==>
      forall i :: 0 <= i < |st.docs| && PassesTagFilter(st.docs[i], state, type_) ==> Rendered(st.docs[i]) in r
  {
    var docs := Find(st, TagsQuery(state, type_), FindLimit);
    var r := seq(|docs|, i requires 0 <= i < |docs| => Rendered(docs[i]));
    FoundPassFilter(docs, state, type_);
    PassingAreFound(st, docs, state, type_);
    RenderedAll(docs, r);
    RenderedSound(st.docs, docs, r, state, type_);
    r
  }

  /** Every document the tag query finds passes the tag filter. */
  lemma FoundPassFilter(docs: seq<Doc>, state: Option<string>, type_: Option<string>)
    requires forall i :: 0 <= i < |docs| ==> Matches(docs[i], TagsQuery(state, type_))
    ensures forall i :: 0 <= i < |docs| ==> PassesTagFilter(docs[i], state, type_)
  {
    forall i | 0 <= i < |docs| ensures PassesTagFilter(docs[i], state, type_) {
      TagsQueryMeaning(docs[i], state, type_);
    }
  }

  /** A find that returns every match returns every document passing the
      tag filter. */
  lemma PassingAreFound(st: Store, docs: seq<Doc>, state: Option<string>, type_: Option<string>)
    requires docs == Find(st, TagsQuery(state, type_), FindLimit)
    ensures |FilterDocs(st.docs, TagsQuery(state, type_))| <= FindLimit ==>
      forall i :: 0 <= i < |st.docs| && PassesTagFilter(st.docs[i], state, type_) ==> st.docs[i] in docs
  {
    if |FilterDocs(st.docs, TagsQuery(state, type_))| <= FindLimit {
      forall i | 0 <= i < |st.docs| && PassesTagFilter(st.docs[i], state, type_) ensures st.docs[i] in docs {
        TagsQueryMeaning(st.docs[i], state, type_);
      }
    }
  }

  /** `x` is the rendering of a stored lead that passes the tag filter. */
  ghost predicate TagListed(x: map<string, Value>, docs: seq<Doc>, state: Option<string>, type_: Option<string>) {
    exists d :: d in docs && PassesTagFilter(d, state, type_) && x == Rendered(d)
  }

  /** Every listed lead is the rendering of a stored lead that passes the
      tag filter. */
  lemma RenderedSound(all: seq<Doc>, docs: seq<Doc>, r: seq<map<string, Value>>, state: Option<string>, type_: Option<string>)
    requires |r| == |docs| && forall i :: 0 <= i < |docs| ==> r[i] == Rendered(docs[i])
    requires forall i :: 0 <= i < |docs| ==> docs[i] in all && PassesTagFilter(docs[i], state, type_)
    ensures forall i :: 0 <= i < |r| ==> TagListed(r[i], all, state, type_)
  {
    forall i | 0 <= i < |r| ensures TagListed(r[i], all, state, type_) {
      var d := docs[i];
      assert d in all && PassesTagFilter(d, state, type_) && r[i] == Rendered(d);
    }
  }

  /** Rendering keeps every document: a found document's rendering is
      listed. */
  lemma RenderedAll(docs: seq<Doc>, r: seq<map<string, Value>>)
    requires |r| == |docs| && forall i :: 0 <= i < |docs| ==> r[i] == Rendered(docs[i])
    ensures forall d :: d in docs ==> Rendered(d) in r
  {
    forall d | d in docs ensures Rendered(d) in r {
      var k :| 0 <= k < |docs| && docs[k] == d;
      assert r[k] == Rendered(d);
    }
  }

  /** With the intended filter, a crawled lead whose tags list the type
      passes it. */
  lemma TagFilterFindsCrawledLeads(d: Doc, result: Value, state: string, region: string, t: string)
    requires LeadRecord(result, state, region) == Ok(d.fields)
    requires result.Dict? && Get(result.fields, "types", List([])).List? && Str(t) in Get(result.fields, "types", List([])).items
    ensures PassesTagFilter(d, None, Some(t))
    ensures PassesTagFilter(d, Some(state), Some(t)) || |state| == 0
  {
    CrawledRecordHasNoTypes(result, state, region);
    assert Field(d, "tags") == Get(result.fields, "types", List([]));
    assert Field(d, "state") == Str(state);
  }

  /** With the corrected filter, a crawled lead whose place types include
      the type is listed, alone or under its own state, whenever no more
      than 1000 leads pass. */
  lemma CrawledLeadIsListed(st: Store, k: nat, result: Value, state: string, region: string, t: string)
    requires k < |st.docs| && LeadRecord(result, state, region) == Ok(st.docs[k].fields)
    requires result.Dict? && Get(result.fields, "types", List([])).List? && Str(t) in Get(result.fields, "types", List([])).items
    ensures |FilterDocs(st.docs, TagsQuery(None, Some(t)))| <= FindLimit ==>
      Rendered(st.docs[k]) in GetLeadsByTag(st, None, Some(t))
    ensures |state| > 0 && |FilterDocs(st.docs, TagsQuery(Some(state), Some(t)))| <= FindLimit ==>
      Rendered(st.docs[k]) in GetLeadsByTag(st, Some(state), Some(t))
  {
    TagFilterFindsCrawledLeads(st.docs[k], result, state, region, t);
  }

  /** One aggregate item as the summary loop reads it: skipped, or a state,
      a type and a count. */
  datatype Row = Skip | Row(state: Value, type_: Value, count: Value)

  /** Lines 83-90 for one item. `item["_id"]` and `item["count"]` are read
      before the skip test, so a missing count raises even on a skipped
      item; a truthy list or dict key cannot be hashed. */
  function ItemRow(item: Value): (r: Result<Row, PyError>)
    ensures r.Ok? && r.value.Row? ==>
      Truthy(r.value.state) && Truthy(r.value.type_) && Hashable(r.value.state) && Hashable(r.value.type_)
    ensures r.Ok? ==> Subscript(item, "count").Ok?
    ensures r.Ok? && r.value.Row? ==> r.value.count == Subscript(item, "count").value
    ensures r.Ok? ==> WellShaped(item)
    ensures !item.Dict? ==> r == Err(TypeError)
    ensures item.Dict? && "_id" !in item.fields ==> r == Err(KeyError)
    ensures item.Dict? && "_id" in item.fields && !item.fields["_id"].Dict? ==> r == Err(AttributeError)
    ensures item.Dict? && "_id" in item.fields && item.fields["_id"].Dict? && "count" !in item.fields ==> r == Err(KeyError)
    ensures WellShaped(item) ==>
      var state := Get(item.fields["_id"].fields, "state", Null);
      var btype := Get(item.fields["_id"].fields, "type", Null);
      && (r == Ok(Skip) <==> !Truthy(state) || !Truthy(btype))
      && (r.Err? <==> Truthy(state) && Truthy(btype) && !(Hashable(state) && Hashable(btype)))
      && (r.Err? ==> r.error == TypeError)
      && (r.Ok? && r.value.Row? ==> r.value == Row(state, btype, item.fields["count"]))
  {
    var ids :- Subscript(item, "_id");
    if !ids.Dict? then Err(AttributeError)
    else
      var state := Get(ids.fields, "state", Null);
      var btype := Get(ids.fields, "type", Null);
      var count :- Subscript(item, "count");
      if !Truthy(state) || !Truthy(btype) then Ok(Skip)
      else if !Hashable(state) || !Hashable(btype) then Err(TypeError)
      else Ok(Row(state, btype, count))
  }

  /** An aggregate item with a dict `_id` and a count, so that only its
      key's values decide its row. */
  predicate WellShaped(item: Value) {
    item.Dict? && "_id" in item.fields && item.fields["_id"].Dict? && "count" in item.fields
  }

  /** The rows of every item, or the exception of the first bad one. */
  function Rows(items: seq<Value>): (r: Result<seq<Row>, PyError>)
    ensures r.Ok? ==> |r.value| == |items| && forall i :: 0 <= i < |items| ==> ItemRow(items[i]) == Ok(r.value[i])
    ensures r.Err? <==> exists i :: 0 <= i < |items| && ItemRow(items[i]).Err?
    ensures r.Err? ==> exists i ::
      && 0 <= i < |items| && ItemRow(items[i]) == Err(r.error)
      && (forall j :: 0 <= j < i ==> ItemRow(items[j]).Ok?)
  {
    var rs := seq(|items|, i requires 0 <= i < |items| => ItemRow(items[i]));
    assert forall i :: 0 <= i < |items| ==> rs[i] == ItemRow(items[i]);
    Collect(rs)
  }

  /** Row `i` sets `summary[s][t]`. */
  predicate Keyed(rows: seq<Row>, i: int, s: Value, t: Value)
    requires 0 <= i < |rows|
  {
    rows[i].Row? && rows[i].state == s && rows[i].type_ == t
  }

  /** Row `i` sets a key of `summary[s]`. */
  predicate Names(rows: seq<Row>, i: int, s: Value)
    requires 0 <= i < |rows|
  {
    rows[i].Row? && rows[i].state == s
  }

  /** A state is a key exactly when some row names it. */
  ghost predicate StatesListed(summary: map<Value, map<Value, Value>>, rows: seq<Row>) {
    forall s :: s in summary <==> exists i :: 0 <= i < |rows| && Names(rows, i, s)
  }

  /** `t` is a key under `s` exactly when some row names both. */
  ghost predicate PairListed(summary: map<Value, map<Value, Value>>, rows: seq<Row>, s: Value, t: Value) {
    s in summary && t in summary[s] <==> exists i :: 0 <= i < |rows| && Keyed(rows, i, s, t)
  }

  ghost predicate PairsListed(summary: map<Value, map<Value, Value>>, rows: seq<Row>) {
    forall s, t :: PairListed(summary, rows, s, t)
  }

  /** A pair's count is that of the last row naming it. */
  ghost predicate LastCounts(summary: map<Value, map<Value, Value>>, rows: seq<Row>) {
    forall s, t, i ::
      (0 <= i < |rows| && Keyed(rows, i, s, t) && (forall j :: i < j < |rows| ==> !Keyed(rows, j, s, t)))
      ==> s in summary && t in summary[s] && summary[s][t] == rows[i].count
  }

  /** The nested summary of a list of rows. */
  ghost predicate Summarises(summary: map<Value, map<Value, Value>>, rows: seq<Row>) {
    StatesListed(summary, rows) && PairsListed(summary, rows) && LastCounts(summary, rows)
  }

  /** The loop of lines 82-90 over the rows. */
  method Reshape(rows: seq<Row>) returns (summary: map<Value, map<Value, Value>>)
    ensures Summarises(summary, rows)
  {
    summary := map[];
    for n := 0 to |rows|
      invariant Summarises(summary, rows[..n])
    {
      var prev := summary;
      if rows[n].Row? {
        var s, t := rows[n].state, rows[n].type_;
        var inner := if s in summary then summary[s] else map[];
        summary := summary[s := inner[t := rows[n].count]];
      }
      ReshapeStep(prev, summary, rows, n);
    }
    assert rows[..|rows|] == rows;
  }

  /** One turn of the loop keeps `Summarises` for one more row. */
  lemma ReshapeStep(prev: map<Value, map<Value, Value>>, summary: map<Value, map<Value, Value>>, rows: seq<Row>, n: nat)
    requires n < |rows| && Summarises(prev, rows[..n])
    requires !rows[n].Row? ==> summary == prev
    requires rows[n].Row? ==> var s, t := rows[n].state, rows[n].type_;
      summary == prev[s := (if s in prev then prev[s] else map[])[t := rows[n].count]]
    ensures Summarises(summary, rows[..n + 1])
  {
    var r, r' := rows[..n], rows[..n + 1];
    assert r' == r + [rows[n]];
    StepStates(prev, summary, r, rows[n]);
    StepTypes(prev, summary, r, rows[n]);
    StepCounts(prev, summary, r, rows[n]);
  }

  /** The states after one more row. */
  lemma StepStates(prev: map<Value, map<Value, Value>>, summary: map<Value, map<Value, Value>>, r: seq<Row>, row: Row)
    requires Summarises(prev, r)
    requires !row.Row? ==> summary == prev
    requires row.Row? ==> summary == prev[row.state := (if row.state in prev then prev[row.state] else map[])[row.type_ := row.count]]
    ensures StatesListed(summary, r + [row])
  {
    var r' := r + [row];
    forall s ensures s in summary <==> exists i :: 0 <= i < |r'| && Names(r', i, s) {
      if s in prev {
        var i :| 0 <= i < |r| && Names(r, i, s);
        assert r'[i] == r[i];
        assert Names(r', i, s);
      }
      if row.Row? && row.state == s {
        assert Names(r', |r|, s);
      }
      if exists i :: 0 <= i < |r'| && Names(r', i, s) {
        var i :| 0 <= i < |r'| && Names(r', i, s);
        if i < |r| {
          assert r'[i] == r[i];
          assert Names(r, i, s);
        }
      }
    }
  }

  /** The types under each state after one more row. */
  lemma StepTypes(prev: map<Value, map<Value, Value>>, summary: map<Value, map<Value, Value>>, r: seq<Row>, row: Row)
    requires Summarises(prev, r)
    requires !row.Row? ==> summary == prev
    requires row.Row? ==> summary == prev[row.state := (if row.state in prev then prev[row.state] else map[])[row.type_ := row.count]]
    ensures PairsListed(summary, r + [row])
  {
    var r' := r + [row];
    forall s, t ensures PairListed(summary, r', s, t) {
      var before := s in prev && t in prev[s];
      var now := row.Row? && row.state == s && row.type_ == t;
      assert s in summary && t in summary[s] <==> before || now;
      if before {
        assert PairListed(prev, r, s, t);
        var i :| 0 <= i < |r| && Keyed(r, i, s, t);
        assert r'[i] == r[i];
        assert Keyed(r', i, s, t);
      }
      if now {
        assert Keyed(r', |r|, s, t);
      }
      if exists i :: 0 <= i < |r'| && Keyed(r', i, s, t) {
        var i :| 0 <= i < |r'| && Keyed(r', i, s, t);
        if i < |r| {
          assert r'[i] == r[i];
          assert Keyed(r, i, s, t);
          assert PairListed(prev, r, s, t);
        } else {
          assert r'[i] == row;
        }
      }
    }
  }

  /** The counts after one more row: the last row naming a pair wins. */
  lemma StepCounts(prev: map<Value, map<Value, Value>>, summary: map<Value, map<Value, Value>>, r: seq<Row>, row: Row)
    requires Summarises(prev, r)
    requires !row.Row? ==> summary == prev
    requires row.Row? ==> summary == prev[row.state := (if row.state in prev then prev[row.state] else map[])[row.type_ := row.count]]
    ensures LastCounts(summary, r + [row])
  {
    var r' := r + [row];
    var n := |r|;
    forall s, t, i | 0 <= i < |r'| && Keyed(r', i, s, t) && (forall j :: i < j < |r'| ==> !Keyed(r', j, s, t))
      ensures s in summary && t in summary[s] && summary[s][t] == r'[i].count
    {
      if i < n {
        assert r'[i] == r[i];
        assert Keyed(r, i, s, t);
        forall j | i < j < n ensures !Keyed(r, j, s, t) {
          assert r'[j] == r[j];
          assert !Keyed(r', j, s, t);
        }
        assert !Keyed(r', n, s, t);
      }
    }
  }

  /** `leads_summary` over the aggregate's items: the first bad item raises
      and nothing is returned; otherwise the nested summary of all rows. */
  method LeadsSummary(items: seq<Value>) returns (r: Result<map<Value, map<Value, Value>>, PyError>)
    ensures r.Err? <==> exists i :: 0 <= i < |items| && ItemRow(items[i]).Err?
    ensures r.Ok? ==> Rows(items).Ok? && Summarises(r.value, Rows(items).value)
  {
    match Rows(items)
    case Err(e) =>
      return Err(e);
    case Ok(rows) =>
      var summary := Reshape(rows);
      return Ok(summary);
  }

  /** An item whose state or type is falsy leaves no trace in the summary. */
  lemma SkippedItemsLeaveNoKey(items: seq<Value>, summary: map<Value, map<Value, Value>>, s: Value)
    requires Rows(items).Ok? && Summarises(summary, Rows(items).value)
    requires !Truthy(s)
    ensures s !in summary
  {
    var rows := Rows(items).value;
    forall i | 0 <= i < |rows| ensures !Names(rows, i, s) {
      assert ItemRow(items[i]) == Ok(rows[i]);
    }
  }
}
