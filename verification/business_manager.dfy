/** `BusinessManager.filter_and_save_results`: walks a batch of place
    results in order, skips a result whose id is missing or already stored,
    and inserts the normalised record of every other result, stamped with the
    crawl's state and region. */
module BusinessManager {
  import opened Wrappers
  import opened PyValue
  import opened Mongo
  import opened Queries
  import Helpers

  /** Some stored lead's `place_id` matches `id` (what `find_one` finds). */
  predicate Stored(docs: seq<Doc>, id: Value) {
    exists i :: 0 <= i < |docs| && ValueMatches(Field(docs[i], "place_id"), id)
  }

  /** The id a result is checked under; `result.get` on anything but a dict
      raises AttributeError. */
  function ResultId(result: Value): (r: Result<Value, PyError>)
    ensures r.Err? <==> !result.Dict?
    ensures r.Err? ==> r.error == AttributeError
    ensures r.Ok? ==> r.value == Helpers.PlaceIdOf(result.fields)
  {
    if result.Dict? then Ok(Helpers.PlaceIdOf(result.fields)) else Err(AttributeError)
  }

  /** The result a crawl raises at, on the store it has reached: it is not a
      dict, or its id is truthy and unmatched and normalising it fails. */
  predicate RaisesOn(docs: seq<Doc>, result: Value, state: string, region: string) {
    || !result.Dict?
    || (&& Truthy(Helpers.PlaceIdOf(result.fields))
        && !Stored(docs, Helpers.PlaceIdOf(result.fields))
        && LeadRecord(result, state, region).Err?)
  }

  /** The record inserted for one result: its normalised record with `state`
      and `region` set to the crawl's arguments. */
  function LeadRecord(result: Value, state: string, region: string): (r: Result<map<string, Value>, PyError>)
    ensures r.Err? <==> Helpers.TransformPlaceResult(result).Err?
    ensures r.Err? ==> r.error == AttributeError
    ensures r.Ok? ==> Get(r.value, "state", Null) == Str(state) && Get(r.value, "region", Null) == Str(region)
    ensures r.Ok? ==> Get(r.value, "place_id", Null) == Helpers.PlaceIdOf(result.fields)
    ensures r.Ok? ==> r.value.Keys == Helpers.RecordKeys + {"state", "region"}
    ensures r.Ok? ==> forall k :: k in Helpers.RecordKeys ==> r.value[k] == Helpers.TransformPlaceResult(result).value[k]
  {
    var rec :- Helpers.TransformPlaceResult(result);
    Ok(Stamp(rec, state, region))
  }

  /** `business_data["state"] = state; business_data["region"] = region`
      on a normalised record: two keys added, every other field kept. */
  function Stamp(rec: map<string, Value>, state: string, region: string): (r: map<string, Value>)
    requires rec.Keys == Helpers.RecordKeys
    ensures r.Keys == Helpers.RecordKeys + {"state", "region"}
    ensures r["state"] == Str(state) && r["region"] == Str(region)
    ensures forall k :: k in Helpers.RecordKeys ==> r[k] == rec[k]
  {
    CrawlKeysAreNew();
    rec["state" := Str(state)]["region" := Str(region)]
  }

  /** A crawl record never carries its own `_id`, so the database picks
      its ObjectId. */
  lemma CrawlRecordHasNoId(result: Value, state: string, region: string)
    requires LeadRecord(result, state, region).Ok?
    ensures "_id" !in LeadRecord(result, state, region).value
  {
    IdIsNotCrawlKey();
  }

  /** `_id` is neither a normalised record's key nor one the crawl adds: no
      such key has three letters. */
  lemma IdIsNotCrawlKey()
    ensures "_id" !in Helpers.RecordKeys + {"state", "region"}
  {
    assert forall k :: k in Helpers.RecordKeys + {"state", "region"} ==> |k| != 3;
  }

  /** The two keys a crawl adds are not among the normalised record's. */
  lemma CrawlKeysAreNew()
    ensures "state" !in Helpers.RecordKeys && "region" !in Helpers.RecordKeys
  {
  }

  /** What the loop consults about one result: the id lookup, and the record
      it would insert. Both are pure, so the record is only consulted (and
      its exception only raised) when the result is not skipped. */
  datatype Entry = Entry(id: Result<Value, PyError>, record: Result<map<string, Value>, PyError>)

  /** An entry as one result produces it: the record carries the id it was
      checked under and the crawl's state and region. */
  predicate Coherent(e: Entry, state: string, region: string) {
    && (e.id.Err? ==> e.id.error == AttributeError)
    && (e.record.Err? ==> e.record.error == AttributeError)
    && (e.id.Ok? && e.record.Ok? ==>
          && Get(e.record.value, "place_id", Null) == e.id.value
          && Get(e.record.value, "state", Null) == Str(state)
          && Get(e.record.value, "region", Null) == Str(region))
  }

  function EntryOf(result: Value, state: string, region: string): (e: Entry)
    ensures Coherent(e, state, region)
    ensures e.id.Ok? <==> result.Dict?
  {
    Entry(ResultId(result), LeadRecord(result, state, region))
  }

  /** Every entry has an id, and every truthy one is stored. */
  predicate AllSaved(docs: seq<Doc>, batch: seq<Entry>) {
    forall k :: 0 <= k < |batch| ==>
      batch[k].id.Ok? && (Truthy(batch[k].id.value) ==> Stored(docs, batch[k].id.value))
  }

  /** The records a run added after position `n`: each carries the crawl's
      state and region and a truthy `place_id` no earlier record matched. */
  predicate FreshRecords(docs: seq<Doc>, n: nat, state: string, region: string) {
    forall i :: n <= i < |docs| ==>
      && Field(docs[i], "state") == Str(state)
      && Field(docs[i], "region") == Str(region)
      && Truthy(Field(docs[i], "place_id"))
      && !Stored(docs[..i], Field(docs[i], "place_id"))
  }

  /** The entry a run raises at, on the store it has reached: its id lookup
      fails, or its id is truthy and unmatched, so its record is built, and
      building it fails. */
  predicate Raises(docs: seq<Doc>, e: Entry) {
    e.id.Err? || (Truthy(e.id.value) && !Stored(docs, e.id.value) && e.record.Err?)
  }

  /** A run stopped at entry `k`: every entry before it was saved, and entry
      `k` raised. */
  predicate StopsAt(docs: seq<Doc>, batch: seq<Entry>, k: int) {
    0 <= k < |batch| && AllSaved(docs, batch[..k]) && Raises(docs, batch[k])
  }

  /** Every record added after position `n` is the record of some entry. */
  predicate FromBatch(docs: seq<Doc>, n: nat, batch: seq<Entry>) {
    forall i :: n <= i < |docs| ==> exists k :: 0 <= k < |batch| && batch[k].record == Ok(docs[i].fields)
  }

  /** The loop of `filter_and_save_results` over the entries of a batch. */
  function Save(st: Store, batch: seq<Entry>, state: string, region: string): (r: (Store, Result<nat, PyError>))
    requires Valid(st)
    requires forall k :: 0 <= k < |batch| ==> Coherent(batch[k], state, region)
    ensures Valid(r.0) && Extends(st, r.0)
    ensures |r.0.docs| - |st.docs| <= |batch|
    ensures r.1.Err? ==> r.1.error == AttributeError
    ensures r.1.Ok? ==> r.1.value == |r.0.docs| - |st.docs|
    ensures r.1.Ok? ==> AllSaved(r.0.docs, batch)
    ensures FreshRecords(r.0.docs, |st.docs|, state, region)
    ensures FromBatch(r.0.docs, |st.docs|, batch)
    decreases |batch|
  {
    if |batch| == 0 then (st, Ok(0))
    else
      assert Coherent(batch[0], state, region);
      match batch[0].id
      case Err(e) => (st, Err(e))
      case Ok(id) =>
        if !Truthy(id) || IsDuplicate(st, id) then
          var r := Save(st, batch[1..], state, region);
          SkipStep(st, r.0, batch);
          r
        else
          match batch[0].record
          case Err(e) => (st, Err(e))
          case Ok(data) =>
            var (st1, _) := InsertLead(st, data);
            var r := Save(st1, batch[1..], state, region);
            InsertStep(st, st1, r.0, batch, state, region);
            (r.0, if r.1.Ok? then Ok(r.1.value + 1) else r.1)
  }

  /** A run that raises stopped at some entry: every entry before it was
      saved, and the records inserted for them stay in the store it returns. */
  lemma {:induction false} SaveStops(st: Store, batch: seq<Entry>, state: string, region: string)
    requires Valid(st)
    requires forall k :: 0 <= k < |batch| ==> Coherent(batch[k], state, region)
    ensures var r := Save(st, batch, state, region);
      r.1.Err? ==> exists k :: StopsAt(r.0.docs, batch, k)
    decreases |batch|
  {
    if |batch| > 0 {
      assert Coherent(batch[0], state, region);
      match batch[0].id
      case Err(_) =>
        assert StopsAt(st.docs, batch, 0);
      case Ok(id) =>
        if !Truthy(id) || IsDuplicate(st, id) {
          SaveStops(st, batch[1..], state, region);
          var r := Save(st, batch[1..], state, region);
          if Truthy(id) {
            StoredExtends(st.docs, r.0.docs, id);
          }
          StopsLater(r.0.docs, batch);
        } else {
          match batch[0].record
          case Err(_) =>
            assert StopsAt(st.docs, batch, 0);
          case Ok(data) =>
            var (st1, _) := InsertLead(st, data);
            SaveStops(st1, batch[1..], state, region);
            var r := Save(st1, batch[1..], state, region);
            assert ValueMatches(Field(st1.docs[|st.docs|], "place_id"), id);
            StoredExtends(st1.docs, r.0.docs, id);
            StopsLater(r.0.docs, batch);
        }
    }
  }

  /** A record of `docs` is still there in any extension of it. */
  lemma StoredExtends(docs: seq<Doc>, docs': seq<Doc>, id: Value)
    requires |docs| <= |docs'| && docs'[..|docs|] == docs
    requires Stored(docs, id)
    ensures Stored(docs', id)
  {
    var i :| 0 <= i < |docs| && ValueMatches(Field(docs[i], "place_id"), id);
    assert docs'[i] == docs[i];
  }

  /** The bookkeeping of a skipped head: what the rest of the batch promises
      about `st'` also holds for the whole batch. */
  lemma SkipStep(st: Store, st': Store, batch: seq<Entry>)
    requires |batch| > 0 && batch[0].id.Ok?
    requires !Truthy(batch[0].id.value) || Stored(st.docs, batch[0].id.value)
    requires Extends(st, st')
    requires FromBatch(st'.docs, |st.docs|, batch[1..])
    ensures FromBatch(st'.docs, |st.docs|, batch)
    ensures AllSaved(st'.docs, batch[1..]) ==> AllSaved(st'.docs, batch)
  {
    forall i | |st.docs| <= i < |st'.docs|
      ensures exists k :: 0 <= k < |batch| && batch[k].record == Ok(st'.docs[i].fields)
    {
      var k :| 0 <= k < |batch[1..]| && batch[1..][k].record == Ok(st'.docs[i].fields);
      assert batch[1..][k] == batch[k + 1];
    }
    if AllSaved(st'.docs, batch[1..]) {
      var id := batch[0].id.value;
      if Truthy(id) {
        StoredExtends(st.docs, st'.docs, id);
      }
      forall k | 1 <= k < |batch| ensures batch[k] == batch[1..][k - 1] { }
    }
  }

  /** A run that saved the head of the batch and then stopped in its rest
      stopped in the whole batch, one entry later. */
  lemma StopsLater(docs: seq<Doc>, batch: seq<Entry>)
    requires |batch| > 0 && batch[0].id.Ok?
    requires Truthy(batch[0].id.value) ==> Stored(docs, batch[0].id.value)
    ensures (exists k :: StopsAt(docs, batch[1..], k)) ==> exists k :: StopsAt(docs, batch, k)
  {
    if k :| StopsAt(docs, batch[1..], k) {
      assert batch[1..][k] == batch[k + 1];
      var pre := batch[..k + 1];
      forall j | 0 <= j < |pre|
        ensures pre[j].id.Ok? && (Truthy(pre[j].id.value) ==> Stored(docs, pre[j].id.value))
      {
        if j > 0 {
          assert pre[j] == batch[1..][..k][j - 1];
        }
      }
      assert StopsAt(docs, batch, k + 1);
    }
  }

  /** The bookkeeping of an inserted head. */
  lemma InsertStep(st: Store, st1: Store, st': Store, batch: seq<Entry>, state: string, region: string)
    requires |batch| > 0 && batch[0].id.Ok? && batch[0].record.Ok?
    requires Coherent(batch[0], state, region)
    requires !Stored(st.docs, batch[0].id.value) && Truthy(batch[0].id.value)
    requires |st1.docs| == |st.docs| + 1 && st1.docs[..|st.docs|] == st.docs
    requires st1.docs[|st.docs|].fields == batch[0].record.value
    requires Extends(st1, st')
    requires FreshRecords(st'.docs, |st1.docs|, state, region)
    requires FromBatch(st'.docs, |st1.docs|, batch[1..])
    ensures FreshRecords(st'.docs, |st.docs|, state, region)
    ensures FromBatch(st'.docs, |st.docs|, batch)
    ensures AllSaved(st'.docs, batch[1..]) ==> AllSaved(st'.docs, batch)
  {
    var n := |st.docs|;
    assert st'.docs[n] == st1.docs[n];
    assert st'.docs[..n] == st.docs;
    forall i | n <= i < |st'.docs|
      ensures exists k :: 0 <= k < |batch| && batch[k].record == Ok(st'.docs[i].fields)
    {
      if i == n {
        assert batch[0].record == Ok(st'.docs[i].fields);
      } else {
        var k :| 0 <= k < |batch[1..]| && batch[1..][k].record == Ok(st'.docs[i].fields);
        assert batch[1..][k] == batch[k + 1];
      }
    }
    if AllSaved(st'.docs, batch[1..]) {
      assert ValueMatches(Field(st'.docs[n], "place_id"), batch[0].id.value);
      forall k | 1 <= k < |batch| ensures batch[k] == batch[1..][k - 1] { }
    }
  }

  /** The entries of a batch of results. */
  function Entries(results: seq<Value>, state: string, region: string): (batch: seq<Entry>)
    ensures |batch| == |results|
    ensures forall k :: 0 <= k < |results| ==> batch[k] == EntryOf(results[k], state, region)
  {
    seq(|results|, k requires 0 <= k < |results| => EntryOf(results[k], state, region))
  }

  /** Every result of the batch is a dict whose id, when it has one, is
      stored: what a batch that ran to the end leaves behind. */
  predicate AllStored(docs: seq<Doc>, results: seq<Value>) {
    forall k :: 0 <= k < |results| ==>
      && results[k].Dict?
      && (Truthy(Helpers.PlaceIdOf(results[k].fields)) ==> Stored(docs, Helpers.PlaceIdOf(results[k].fields)))
  }

  /** A crawl stopped at result `k`: every result before it was saved, and
      result `k` raised. */
  predicate StopsOn(docs: seq<Doc>, results: seq<Value>, k: int, state: string, region: string) {
    0 <= k < |results| && AllStored(docs, results[..k]) && RaisesOn(docs, results[k], state, region)
  }

  /** `filter_and_save_results`, returning the collection it leaves and the
      count or the exception it raised. The collection only grows, and every
      record it gains carries the given state and region, a truthy `place_id`
      that no earlier record matched, and the fields of one of the results.
      When the batch runs to the end, the count is the number of records
      added and every result with an id is stored. An exception stops the
      batch but keeps the records inserted before it. */
  function FilterAndSave(st: Store, results: seq<Value>, state: string, region: string): (r: (Store, Result<nat, PyError>))
    requires Valid(st)
    ensures Valid(r.0) && Extends(st, r.0)
    ensures |r.0.docs| - |st.docs| <= |results|
    ensures r.1.Err? ==> r.1.error == AttributeError
    ensures r.1.Ok? ==> r.1.value == |r.0.docs| - |st.docs|
    ensures r.1.Ok? ==> AllStored(r.0.docs, results)
    ensures FreshRecords(r.0.docs, |st.docs|, state, region)
    ensures forall i :: |st.docs| <= i < |r.0.docs| ==>
              exists k :: 0 <= k < |results| && LeadRecord(results[k], state, region) == Ok(r.0.docs[i].fields)
    ensures r.1.Err? ==> exists k :: StopsOn(r.0.docs, results, k, state, region)
  {
    var batch := Entries(results, state, region);
    var r := Save(st, batch, state, region);
    SaveStops(st, batch, state, region);
    StopsOnResults(r.0.docs, results, batch, state, region);
    assert r.1.Ok? ==> AllStored(r.0.docs, results) by {
      if r.1.Ok? {
        forall k | 0 <= k < |results| ensures batch[k] == EntryOf(results[k], state, region) { }
      }
    }
    r
  }

  /** Where the entries of a batch stop, its results stop. */
  lemma StopsOnResults(docs: seq<Doc>, results: seq<Value>, batch: seq<Entry>, state: string, region: string)
    requires batch == Entries(results, state, region)
    ensures (exists k :: StopsAt(docs, batch, k)) ==> exists k :: StopsOn(docs, results, k, state, region)
  {
    if k :| StopsAt(docs, batch, k) {
      forall j | 0 <= j < k
        ensures results[..k][j].Dict?
        ensures Truthy(Helpers.PlaceIdOf(results[..k][j].fields)) ==> Stored(docs, Helpers.PlaceIdOf(results[..k][j].fields))
      {
        assert batch[..k][j] == EntryOf(results[j], state, region);
      }
      assert batch[k] == EntryOf(results[k], state, region);
      assert StopsOn(docs, results, k, state, region);
    }
  }

  /** Two records added by one batch never share a `place_id`, even when the
      batch repeats it. */
  lemma NoRepeatInBatch(st: Store, results: seq<Value>, state: string, region: string, i: nat, j: nat)
    requires Valid(st)
    requires var st' := FilterAndSave(st, results, state, region).0;
      |st.docs| <= i < j < |st'.docs|
    ensures var st' := FilterAndSave(st, results, state, region).0;
      Field(st'.docs[i], "place_id") != Field(st'.docs[j], "place_id")
  {
    var st' := FilterAndSave(st, results, state, region).0;
    FreshDistinct(st'.docs, |st.docs|, state, region, i, j);
  }

  lemma FreshDistinct(docs: seq<Doc>, n: nat, state: string, region: string, i: nat, j: nat)
    requires FreshRecords(docs, n, state, region)
    requires n <= i < j < |docs|
    ensures Field(docs[i], "place_id") != Field(docs[j], "place_id")
  {
    assert docs[..j][i] == docs[i];
  }

  /** A run over entries that are all saved already adds nothing. */
  lemma {:induction false} SavedBatchIsSkipped(st: Store, batch: seq<Entry>, state: string, region: string)
    requires Valid(st)
    requires forall k :: 0 <= k < |batch| ==> Coherent(batch[k], state, region)
    requires AllSaved(st.docs, batch)
    ensures Save(st, batch, state, region) == (st, Ok(0))
  {
    if |batch| > 0 {
      assert AllSaved(st.docs, batch[1..]) by {
        forall k | 0 <= k < |batch[1..]| ensures batch[1..][k] == batch[k + 1] { }
      }
      SavedBatchIsSkipped(st, batch[1..], state, region);
    }
  }

  /** `filter_and_save_results` is idempotent: after a batch has run to the
      end, running it again returns 0 and leaves the collection unchanged. */
  lemma SecondRunSavesNothing(st: Store, results: seq<Value>, state: string, region: string)
    requires Valid(st)
    requires FilterAndSave(st, results, state, region).1.Ok?
    ensures var st' := FilterAndSave(st, results, state, region).0;
      FilterAndSave(st', results, state, region) == (st', Ok(0))
  {
    var st' := FilterAndSave(st, results, state, region).0;
    var batch := Entries(results, state, region);
    assert AllSaved(st'.docs, batch) by {
      forall k | 0 <= k < |batch| ensures batch[k] == EntryOf(results[k], state, region) { }
    }
    SavedBatchIsSkipped(st', batch, state, region);
  }
}
