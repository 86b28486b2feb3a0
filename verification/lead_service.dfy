/** `insert_leads`: the second ingestion path. Each lead dict is validated
    into the `LeadDB` record (missing fields take their defaults), then
    inserted into a collection with a unique index on `(name, address)`; a
    lead whose pair is taken, or whose insert fails otherwise, is skipped. */
module LeadService {
  import opened Wrappers
  import opened PyValue
  import opened Mongo
  import ObjectIds
  import PyStr

  /** The declared type of a `LeadDB` field. */
  datatype Kind = OptText | OptNumber | OptTexts | Flag

  /** A field of the `LeadDB` model with the value it takes when absent. */
  datatype FieldSpec = FieldSpec(key: string, kind: Kind, default: Value)

  /** The fields of `LeadCreate` followed by those `LeadDB` adds, in
      declaration order. */
  const LeadSchema: seq<FieldSpec> := [
    FieldSpec("name", OptText, Null),
    FieldSpec("address", OptText, Null),
    FieldSpec("phone", OptText, Null),
    FieldSpec("website", OptText, Null),
    FieldSpec("status", OptText, Null),
    FieldSpec("rating", OptNumber, Null),
    FieldSpec("total_reviews", OptNumber, Null),
    FieldSpec("opening_hours", OptTexts, List([])),
    FieldSpec("contacted", Flag, Bool(false)),
    FieldSpec("email_sent", Flag, Bool(false)),
    FieldSpec("sms_sent", Flag, Bool(false)),
    FieldSpec("cold_called", Flag, Bool(false)),
    FieldSpec("tags", OptTexts, List([]))
  ]

  /** Every key of `LeadSchema` is declared once. */
  predicate DistinctKeys(specs: seq<FieldSpec>) {
    forall i, j :: 0 <= i < j < |specs| ==> specs[i].key != specs[j].key
  }

  function SchemaKeys(specs: seq<FieldSpec>): set<string> {
    set i | 0 <= i < |specs| :: specs[i].key
  }

  /** The value already has the field's declared type: an optional field
      also holds None, a list of strings holds strings only. */
  predicate Conforms(kind: Kind, v: Value) {
    match kind
    case OptText => v.Null? || v.Str?
    case OptNumber => v.Null? || v.Num?
    case OptTexts => v.Null? || (v.List? && forall i :: 0 <= i < |v.items| ==> v.items[i].Str?)
    case Flag => v.Bool?
  }

  /** The words pydantic reads, once lowered, as True and as False. */
  const TrueWords: set<string> := {"1", "on", "t", "true", "y", "yes"}
  const FalseWords: set<string> := {"0", "off", "f", "false", "n", "no"}

  lemma WordsDisjoint()
    ensures forall w :: w in TrueWords ==> w !in FalseWords
  {
  }

  /** A value a field of the kind takes, possibly after conversion: None
      for an optional field; a str, int or bool for a str; an int or bool
      for a number; a list of those for a list of strings; and for a bool,
      a bool, 1, 0, or one of the words. */
  predicate Admits(kind: Kind, v: Value) {
    match kind
    case OptText => v.Null? || v.Str? || v.Num? || v.Bool?
    case OptNumber => v.Null? || v.Num? || v.Bool?
    case OptTexts => v.Null? || (v.List? && forall i :: 0 <= i < |v.items| ==> v.items[i].Str? || v.items[i].Num? || v.items[i].Bool?)
    case Flag =>
      || v.Bool? || v == Num(0) || v == Num(1)
      || (v.Str? && (PyStr.AsciiLower(v.s) in TrueWords || PyStr.AsciiLower(v.s) in FalseWords))
  }

  /** pydantic's `str_validator`: a str is kept, an int or a bool becomes
      its `str()`. */
  function TextValue(v: Value): (r: Result<Value, PyError>)
    ensures r.Ok? <==> v.Str? || v.Num? || v.Bool?
    ensures r.Ok? ==> r.value.Str?
    ensures v.Str? ==> r == Ok(v)
    ensures v.Num? && r.Ok? ==> PyStr.IntValue(r.value.s) == Some(v.n)
    ensures r.Err? ==> r.error == ValidationError
  {
    match v
    case Str(_) => Ok(v)
    case Num(n) => PyStr.IntTextRoundTrip(n); Ok(Str(PyStr.IntText(n)))
    case Bool(b) => Ok(Str(if b then "True" else "False"))
    case _ => Err(ValidationError)
  }

  /** `int_validator` and `float_validator` on the values modelled: an int
      is kept, a bool becomes 1 or 0. */
  function NumberValue(v: Value): (r: Result<Value, PyError>)
    ensures r.Ok? <==> v.Num? || v.Bool?
    ensures v.Num? ==> r == Ok(v)
    ensures v.Bool? ==> r == Ok(Num(if v.b then 1 else 0))
    ensures r.Err? ==> r.error == ValidationError
  {
    match v
    case Num(_) => Ok(v)
    case Bool(b) => Ok(Num(if b then 1 else 0))
    case _ => Err(ValidationError)
  }

  /** `List[str]`: a list whose every item `TextValue` takes, item by item. */
  function TextsValue(v: Value): (r: Result<Value, PyError>)
    ensures r.Ok? <==> v.List? && forall i :: 0 <= i < |v.items| ==> TextValue(v.items[i]).Ok?
    ensures r.Ok? ==> r.value.List? && |r.value.items| == |v.items|
    ensures r.Ok? ==> forall i :: 0 <= i < |v.items| ==> TextValue(v.items[i]) == Ok(r.value.items[i])
    ensures v.List? && (forall i :: 0 <= i < |v.items| ==> v.items[i].Str?) ==> r == Ok(v)
    ensures r.Err? ==> r.error == ValidationError
  {
    if !v.List? then Err(ValidationError)
    else
      var rs := seq(|v.items|, i requires 0 <= i < |v.items| => TextValue(v.items[i]));
      assert forall i :: 0 <= i < |v.items| ==> rs[i] == TextValue(v.items[i]);
      var xs :- Collect(rs);
      assert (forall i :: 0 <= i < |v.items| ==> v.items[i].Str?) ==> xs == v.items;
      Ok(List(xs))
  }

  /** `bool_validator`: a bool is kept; 1, 0 and the lowered words become
      True or False. */
  function FlagValue(v: Value): (r: Result<Value, PyError>)
    ensures r.Ok? ==> r.value.Bool?
    ensures v.Bool? ==> r == Ok(v)
    ensures r == Ok(Bool(true)) <==> v == Bool(true) || v == Num(1) || (v.Str? && PyStr.AsciiLower(v.s) in TrueWords)
    ensures r == Ok(Bool(false)) <==> v == Bool(false) || v == Num(0) || (v.Str? && PyStr.AsciiLower(v.s) in FalseWords)
    ensures r.Err? ==> r.error == ValidationError
  {
    WordsDisjoint();
    match v
    case Bool(_) => Ok(v)
    case Num(n) => if n == 1 then Ok(Bool(true)) else if n == 0 then Ok(Bool(false)) else Err(ValidationError)
    case Str(s) =>
      if PyStr.AsciiLower(s) in TrueWords then Ok(Bool(true))
      else if PyStr.AsciiLower(s) in FalseWords then Ok(Bool(false))
      else Err(ValidationError)
    case _ => Err(ValidationError)
  }

  /** A given value validated against the field's kind: None passes an
      optional field, everything else goes through the kind's validator. */
  function Coerce(kind: Kind, v: Value): (r: Result<Value, PyError>)
    ensures r.Ok? <==> Admits(kind, v)
    ensures r.Ok? ==> Conforms(kind, r.value)
    ensures Conforms(kind, v) ==> r == Ok(v)
    ensures r.Err? ==> r.error == ValidationError
  {
    if v.Null? && kind != Flag then Ok(Null)
    else
      match kind
      case OptText => TextValue(v)
      case OptNumber => NumberValue(v)
      case OptTexts => TextsValue(v)
      case Flag => FlagValue(v)
  }

  /** One field of the validated record: the default when absent, else the
      given value converted to the declared type, or a validation error. */
  function FieldValue(lead: map<string, Value>, spec: FieldSpec): (r: Result<Value, PyError>)
    ensures spec.key !in lead ==> r == Ok(spec.default)
    ensures spec.key in lead ==> (r.Ok? <==> Admits(spec.kind, lead[spec.key]))
    ensures spec.key in lead && r.Ok? ==> Conforms(spec.kind, r.value)
    ensures spec.key in lead && Conforms(spec.kind, lead[spec.key]) ==> r == Ok(lead[spec.key])
    ensures r.Err? ==> r.error == ValidationError
  {
    if spec.key !in lead then Ok(spec.default) else Coerce(spec.kind, lead[spec.key])
  }

  /** The record built field by field; keys the model does not declare are
      dropped. */
  function Build(lead: map<string, Value>, specs: seq<FieldSpec>): (r: Result<map<string, Value>, PyError>)
    requires DistinctKeys(specs)
    ensures r.Err? <==> exists i :: 0 <= i < |specs| && FieldValue(lead, specs[i]).Err?
    ensures r.Err? ==> r.error == ValidationError
    ensures r.Ok? ==> r.value.Keys == SchemaKeys(specs)
    ensures r.Ok? ==> forall i :: 0 <= i < |specs| ==> r.value[specs[i].key] == FieldValue(lead, specs[i]).value
  {
    if |specs| == 0 then Ok(map[])
    else
      var rest :- Build(lead, specs[1..]);
      var v :- FieldValue(lead, specs[0]);
      assert SchemaKeys(specs) == SchemaKeys(specs[1..]) + {specs[0].key} by {
        forall k | k in SchemaKeys(specs) ensures k in SchemaKeys(specs[1..]) + {specs[0].key} {
          var i :| 0 <= i < |specs| && specs[i].key == k;
          if i > 0 { assert specs[1..][i - 1] == specs[i]; }
        }
      }
      assert forall i :: 1 <= i < |specs| ==> specs[i] == specs[1..][i - 1];
      Ok(rest[specs[0].key := v])
  }

  lemma SchemaDistinct()
    ensures DistinctKeys(LeadSchema)
  {
    assert forall i :: 0 <= i < |LeadSchema| ==> SchemaIndex(LeadSchema[i].key) == i;
  }

  /** The position of a schema key, read off its first letter and its
      length, which already tell the keys apart. */
  function SchemaIndex(k: string): int {
    if |k| == 0 then -1
    else
      match (k[0], |k|)
      case ('n', 4) => 0
      case ('a', 7) => 1
      case ('p', 5) => 2
      case ('w', 7) => 3
      case ('s', 6) => 4
      case ('r', 6) => 5
      case ('t', 13) => 6
      case ('o', 13) => 7
      case ('c', 9) => 8
      case ('e', 10) => 9
      case ('s', 8) => 10
      case ('c', 11) => 11
      case ('t', 4) => 12
      case _ => -1
  }

  /** `LeadDB(**lead).dict()`: a lead that is not a dict raises TypeError,
      an unacceptable field raises one ValidationError; otherwise the record
      has exactly the schema's fields. */
  function Validate(lead: Value): (r: Result<map<string, Value>, PyError>)
    ensures r.Err? <==> !lead.Dict? || exists i :: 0 <= i < |LeadSchema| && FieldValue(lead.fields, LeadSchema[i]).Err?
    ensures r.Err? ==> r.error == (if lead.Dict? then ValidationError else TypeError)
    ensures r.Ok? ==> r.value.Keys == SchemaKeys(LeadSchema)
    ensures r.Ok? ==> forall i :: 0 <= i < |LeadSchema| ==> r.value[LeadSchema[i].key] == FieldValue(lead.fields, LeadSchema[i]).value
  {
    SchemaDistinct();
    if !lead.Dict? then Err(TypeError) else Build(lead.fields, LeadSchema)
  }

  /** Every default already has its field's type. */
  lemma DefaultsConform()
    ensures forall i :: 0 <= i < |LeadSchema| ==> Conforms(LeadSchema[i].kind, LeadSchema[i].default)
  {
  }

  /** Validating a validated record gives it back unchanged: every field
      already has its declared type. */
  lemma ValidateIdempotent(lead: Value)
    requires Validate(lead).Ok?
    ensures Validate(Dict(Validate(lead).value)) == Validate(lead)
  {
    var rec := Validate(lead).value;
    DefaultsConform();
    forall i | 0 <= i < |LeadSchema| ensures FieldValue(rec, LeadSchema[i]) == Ok(rec[LeadSchema[i].key]) {
      assert LeadSchema[i].key in SchemaKeys(LeadSchema);
    }
    var again := Validate(Dict(rec));
    assert again.Ok?;
    forall k | k in rec ensures again.value[k] == rec[k] {
      var i :| 0 <= i < |LeadSchema| && LeadSchema[i].key == k;
    }
    assert again.value == rec;
  }

  /** A validated record never carries its own `_id`, whatever the lead
      held: `_id` is not a declared field. */
  lemma ValidatedRecordHasNoId(lead: Value)
    requires Validate(lead).Ok?
    ensures "_id" !in Validate(lead).value
  {
    IdIsNotSchemaKey();
  }

  /** No declared key has three letters, so none is `_id`. */
  lemma IdIsNotSchemaKey()
    ensures "_id" !in SchemaKeys(LeadSchema)
  {
    assert forall i :: 0 <= i < |LeadSchema| ==> |LeadSchema[i].key| != 3;
  }

  /** A lead that leaves the bookkeeping flags and tags out is stored as not
      yet contacted, not emailed, not texted, not called and untagged. */
  lemma NewLeadDefaults(lead: map<string, Value>)
    requires Validate(Dict(lead)).Ok?
    requires "contacted" !in lead && "email_sent" !in lead && "sms_sent" !in lead
    requires "cold_called" !in lead && "tags" !in lead
    ensures var rec := Validate(Dict(lead)).value;
      && Get(rec, "contacted", Null) == Bool(false) && Get(rec, "email_sent", Null) == Bool(false)
      && Get(rec, "sms_sent", Null) == Bool(false) && Get(rec, "cold_called", Null) == Bool(false)
      && Get(rec, "tags", Null) == List([])
  {
    var rec := Validate(Dict(lead)).value;
    assert LeadSchema[8].key == "contacted" && LeadSchema[9].key == "email_sent";
    assert LeadSchema[10].key == "sms_sent" && LeadSchema[11].key == "cold_called";
    assert LeadSchema[12].key == "tags";
  }

  /** The unique-index key of a stored lead. */
  function KeyOf(d: Doc): (Value, Value) {
    (Field(d, "name"), Field(d, "address"))
  }

  function RecordKey(rec: map<string, Value>): (Value, Value) {
    (Get(rec, "name", Null), Get(rec, "address", Null))
  }

  /** What the unique index on `(name, address)` guarantees. */
  predicate UniqueKeys(docs: seq<Doc>) {
    forall i, j :: 0 <= i < j < |docs| ==> KeyOf(docs[i]) != KeyOf(docs[j])
  }

  predicate KeyTaken(docs: seq<Doc>, key: (Value, Value)) {
    exists i :: 0 <= i < |docs| && KeyOf(docs[i]) == key
  }

  /** A stored record as `insert_leads` reports it: its fields with `_id`
      set to the ObjectId's text. */
  function WithId(d: Doc): (m: map<string, Value>)
    ensures m.Keys == d.fields.Keys + {"_id"}
    ensures m["_id"] == Str(ObjectIds.Text(d.id))
    ensures forall k :: k in d.fields && k != "_id" ==> m[k] == d.fields[k]
  {
    d.fields["_id" := Str(ObjectIds.Text(d.id))]
  }

  predicate Increasing(idx: seq<nat>) {
    forall j :: 0 < j < |idx| ==> idx[j - 1] < idx[j]
  }

  /** `saved` lists, in input order, the records stored at the end of `docs`
      (from position `n`), each taken from a valid entry of `recs` outside
      `faults`, with its `_id` text. */
  ghost predicate PicksFrom(saved: seq<map<string, Value>>, docs: seq<Doc>, n: nat,
                            recs: seq<Result<map<string, Value>, PyError>>, faults: set<nat>) {
    exists idx: seq<nat> :: Picks(idx, saved, docs, n, recs, faults)
  }

  predicate Picks(idx: seq<nat>, saved: seq<map<string, Value>>, docs: seq<Doc>, n: nat,
                  recs: seq<Result<map<string, Value>, PyError>>, faults: set<nat>) {
    && |idx| == |saved| && n + |saved| <= |docs| && Increasing(idx)
    && forall j :: 0 <= j < |idx| ==>
         && idx[j] < |recs| && idx[j] !in faults
         && recs[idx[j]] == Ok(docs[n + j].fields)
         && saved[j] == WithId(docs[n + j])
  }

  /** The loop raised at entry `k`: the first failed validation, after every
      earlier entry outside `faults` had its pair stored. */
  predicate FailsAt(docs: seq<Doc>, recs: seq<Result<map<string, Value>, PyError>>, faults: set<nat>, k: int) {
    && 0 <= k < |recs| && recs[k].Err?
    && (forall j :: 0 <= j < k ==> recs[j].Ok?)
    && forall j :: 0 <= j < k && j !in faults ==> KeyTaken(docs, RecordKey(recs[j].value))
  }

  /** The loop of `insert_leads` over the validation outcomes of the leads,
      consulted in order. */
  method InsertRecords(st: Store, recs: seq<Result<map<string, Value>, PyError>>, faults: set<nat>)
    returns (st': Store, r: Result<seq<map<string, Value>>, PyError>)
    requires Valid(st) && UniqueKeys(st.docs)
    ensures Valid(st') && Extends(st, st') && UniqueKeys(st'.docs)
    ensures r.Err? <==> exists k :: 0 <= k < |recs| && recs[k].Err?
    ensures r.Err? ==> exists k :: FailsAt(st'.docs, recs, faults, k) && recs[k] == Err(r.error)
    ensures r.Ok? ==> |r.value| == |st'.docs| - |st.docs|
    ensures r.Ok? ==> PicksFrom(r.value, st'.docs, |st.docs|, recs, faults)
    ensures r.Ok? ==> forall k :: 0 <= k < |recs| && k !in faults ==> KeyTaken(st'.docs, RecordKey(recs[k].value))
  {
    st' := st;
    var saved: seq<map<string, Value>> := [];
    ghost var idx: seq<nat> := [];
    var i := 0;
    while i < |recs|
      invariant 0 <= i <= |recs|
      invariant Valid(st') && Extends(st, st') && UniqueKeys(st'.docs)
      invariant |saved| == |st'.docs| - |st.docs|
      invariant Picks(idx, saved, st'.docs, |st.docs|, recs, faults)
      invariant forall j :: 0 <= j < |idx| ==> idx[j] < i
      invariant forall k :: 0 <= k < i ==> recs[k].Ok?
      invariant forall k :: 0 <= k < i && k !in faults ==> KeyTaken(st'.docs, RecordKey(recs[k].value))
    {
      if recs[i].Err? {
        r := Err(recs[i].error);
        assert FailsAt(st'.docs, recs, faults, i);
        return;
      }
      var rec := recs[i].value;
      if i !in faults && !KeyTaken(st'.docs, RecordKey(rec)) {
        var (s2, id) := InsertOne(st', rec);
        InsertKeepsKeys(st'.docs, s2.docs, rec, id);
        PicksExtend(idx, saved, st'.docs, s2.docs, |st.docs|, recs, faults, i);
        st' := s2;
        saved := saved + [WithId(Doc(id, rec))];
        idx := idx + [i];
      }
      i := i + 1;
    }
    r := Ok(saved);
  }

  /** Appending a record whose pair is free keeps the index unique and every
      pair stored so far. */
  lemma InsertKeepsKeys(docs: seq<Doc>, docs': seq<Doc>, rec: map<string, Value>, id: nat)
    requires UniqueKeys(docs) && !KeyTaken(docs, RecordKey(rec))
    requires docs' == docs + [Doc(id, rec)]
    ensures UniqueKeys(docs')
    ensures KeyTaken(docs', RecordKey(rec))
    ensures forall key :: KeyTaken(docs, key) ==> KeyTaken(docs', key)
  {
    assert KeyOf(docs'[|docs|]) == RecordKey(rec);
    forall key | KeyTaken(docs, key) ensures KeyTaken(docs', key) {
      var i :| 0 <= i < |docs| && KeyOf(docs[i]) == key;
      assert docs'[i] == docs[i];
    }
  }

  lemma PicksExtend(idx: seq<nat>, saved: seq<map<string, Value>>, docs: seq<Doc>, docs': seq<Doc>, n: nat,
                    recs: seq<Result<map<string, Value>, PyError>>, faults: set<nat>, i: nat)
    requires Picks(idx, saved, docs, n, recs, faults)
    requires forall j :: 0 <= j < |idx| ==> idx[j] < i
    requires n + |saved| == |docs| && i < |recs| && i !in faults
    requires |docs'| == |docs| + 1 && docs'[..|docs|] == docs
    requires recs[i] == Ok(docs'[|docs|].fields)
    ensures Picks(idx + [i], saved + [WithId(docs'[|docs|])], docs', n, recs, faults)
  {
    var idx' := idx + [i];
    var saved' := saved + [WithId(docs'[|docs|])];
    forall j | 0 <= j < |idx'|
      ensures && idx'[j] < |recs| && idx'[j] !in faults
              && recs[idx'[j]] == Ok(docs'[n + j].fields)
              && saved'[j] == WithId(docs'[n + j])
    {
      if j < |idx| {
        assert docs'[n + j] == docs[n + j];
      }
    }
  }

  /** The validation outcome of every lead. */
  function Validated(leads: seq<Value>): (recs: seq<Result<map<string, Value>, PyError>>)
    ensures |recs| == |leads|
    ensures forall k :: 0 <= k < |leads| ==> recs[k] == Validate(leads[k])
  {
    seq(|leads|, k requires 0 <= k < |leads| => Validate(leads[k]))
  }

  /** `insert_leads`. `faults` holds the positions whose insert fails with an
      error other than a duplicate key (the database's side of the call).
      A lead that fails validation raises out of the loop, keeping what was
      stored before it. Otherwise the index stays unique and the returned
      list holds, in input order, one record per lead stored, each the
      lead's validated record with its `_id` text. A lead is skipped only
      when its insert fails or its pair is taken already, so every lead
      outside `faults` ends with its pair stored. */
  method InsertLeads(st: Store, leads: seq<Value>, faults: set<nat>) returns (st': Store, r: Result<seq<map<string, Value>>, PyError>)
    requires Valid(st) && UniqueKeys(st.docs)
    ensures Valid(st') && Extends(st, st') && UniqueKeys(st'.docs)
    ensures r.Err? <==> exists k :: 0 <= k < |leads| && Validate(leads[k]).Err?
    ensures r.Err? ==> r.error == ValidationError || r.error == TypeError
    ensures r.Err? ==> exists k :: FailsAt(st'.docs, Validated(leads), faults, k) && Validate(leads[k]) == Err(r.error)
    ensures r.Ok? ==> |r.value| == |st'.docs| - |st.docs|
    ensures r.Ok? ==> PicksFrom(r.value, st'.docs, |st.docs|, Validated(leads), faults)
    ensures r.Ok? ==> forall k :: 0 <= k < |leads| && k !in faults ==>
              KeyTaken(st'.docs, RecordKey(Validate(leads[k]).value))
  {
    var recs := Validated(leads);
    st', r := InsertRecords(st, recs, faults);
    assert r.Err? ==> r.error == ValidationError || r.error == TypeError by {
      if r.Err? {
        var k :| FailsAt(st'.docs, recs, faults, k) && recs[k] == Err(r.error);
        assert Validate(leads[k]) == Err(r.error);
      }
    }
  }

  /** A saved lead's pair was not stored before the call: a lead colliding
      with an existing one is never in `saved`. */
  lemma SavedPairsAreNew(st: Store, st': Store, saved: seq<map<string, Value>>,
                         recs: seq<Result<map<string, Value>, PyError>>, faults: set<nat>, j: nat, i: nat)
    requires Extends(st, st') && UniqueKeys(st'.docs)
    requires PicksFrom(saved, st'.docs, |st.docs|, recs, faults)
    requires j < |saved| && i < |st.docs|
    ensures RecordKey(saved[j]) != KeyOf(st.docs[i])
  {
    var idx :| Picks(idx, saved, st'.docs, |st.docs|, recs, faults);
    var d := st'.docs[|st.docs| + j];
    assert st'.docs[i] == st.docs[i];
    assert KeyOf(d) != KeyOf(st.docs[i]);
    assert saved[j] == WithId(d);
    assert "name" != "_id" && "address" != "_id";
  }
}
