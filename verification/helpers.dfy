/** `transform_place_result`: normalises one place returned by either the
    legacy Places API or the v1 Places API into the ten-field lead record. */
module Helpers {
  import opened Wrappers
  import opened PyValue

  /** The keys of a normalised place record. */
  const RecordKeys: set<string> := {"place_id", "name", "address", "phone", "website",
                                    "status", "rating", "total_reviews", "opening_hours", "tags"}

  /** `result.get(legacy) or result.get(v1)`: the legacy field when it is
      truthy, else whatever the v1 field holds (None when absent), so a falsy
      legacy value such as 0 is not kept. */
  function EitherKey(result: map<string, Value>, legacy: string, v1: string): (r: Value)
    ensures Truthy(Get(result, legacy, Null)) ==> r == result[legacy]
    ensures !Truthy(Get(result, legacy, Null)) ==> r == Get(result, v1, Null)
  {
    Or(Get(result, legacy, Null), Get(result, v1, Null))
  }

  /** The place id a result is keyed by: legacy `place_id`, else v1 `id`. */
  function PlaceIdOf(result: map<string, Value>): Value {
    EitherKey(result, "place_id", "id")
  }

  /** `name`: legacy `name` when truthy, else v1 `displayName.text`, else
      None; the lookup raises when `displayName` is present but not a dict. */
  function NameOf(f: map<string, Value>): (r: Result<Value, PyError>)
    ensures Truthy(Get(f, "name", Null)) ==> r == Ok(f["name"])
    ensures !Truthy(Get(f, "name", Null)) && "displayName" !in f ==> r == Ok(Null)
    ensures !Truthy(Get(f, "name", Null)) && "displayName" in f ==>
              r == (if f["displayName"].Dict? then Ok(Get(f["displayName"].fields, "text", Null))
                    else Err(AttributeError))
  {
    if Truthy(Get(f, "name", Null)) then Ok(f["name"])
    else GetOn(Get(f, "displayName", Dict(map[])), "text", Null)
  }

  /** `address`: the first truthy of `formatted_address` and
      `formattedAddress`, else whatever `vicinity` holds (None if absent). */
  function AddressOf(f: map<string, Value>): (r: Value)
    ensures Truthy(Get(f, "formatted_address", Null)) ==> r == f["formatted_address"]
    ensures !Truthy(Get(f, "formatted_address", Null)) && Truthy(Get(f, "formattedAddress", Null)) ==>
              r == f["formattedAddress"]
    ensures !Truthy(Get(f, "formatted_address", Null)) && !Truthy(Get(f, "formattedAddress", Null)) ==>
              r == Get(f, "vicinity", Null)
  {
    Or(Or(Get(f, "formatted_address", Null), Get(f, "formattedAddress", Null)), Get(f, "vicinity", Null))
  }

  /** A contact field (`phone`, `website`): the legacy value when truthy,
      else the v1 value when truthy, else None. */
  function ContactOf(f: map<string, Value>, legacy: string, v1: string): (r: Value)
    ensures Truthy(r) <==> Truthy(Get(f, legacy, Null)) || Truthy(Get(f, v1, Null))
    ensures !Truthy(r) ==> r == Null
    ensures Truthy(Get(f, legacy, Null)) ==> r == f[legacy]
    ensures !Truthy(Get(f, legacy, Null)) && Truthy(Get(f, v1, Null)) ==> r == f[v1]
  {
    Or(Or(Get(f, legacy, Null), Get(f, v1, Null)), Null)
  }

  /** `total_reviews`: legacy `user_ratings_total`, else v1 `userRatingCount`. */
  function TotalReviewsOf(f: map<string, Value>): Value {
    EitherKey(f, "user_ratings_total", "userRatingCount")
  }

  /** The legacy `opening_hours.weekday_text` lookup ([] when absent). */
  function LegacyHours(f: map<string, Value>): Result<Value, PyError> {
    GetOn(Get(f, "opening_hours", Dict(map[])), "weekday_text", List([]))
  }

  /** `opening_hours`: legacy `weekday_text` when non-empty, else v1
      `weekdayDescriptions`, else []; a container that is present but not a
      dict raises when it is consulted. */
  function OpeningHoursOf(f: map<string, Value>): (r: Result<Value, PyError>)
    ensures "opening_hours" in f && !f["opening_hours"].Dict? ==> r == Err(AttributeError)
    ensures LegacyHours(f).Ok? && Truthy(LegacyHours(f).value) ==> r == LegacyHours(f)
    ensures LegacyHours(f).Ok? && !Truthy(LegacyHours(f).value) ==>
              r == (if "regularOpeningHours" !in f then Ok(List([]))
                    else if f["regularOpeningHours"].Dict? then
                      Ok(Get(f["regularOpeningHours"].fields, "weekdayDescriptions", List([])))
                    else Err(AttributeError))
  {
    var legacy :- LegacyHours(f);
    if Truthy(legacy) then Ok(legacy)
    else GetOn(Get(f, "regularOpeningHours", Dict(map[])), "weekdayDescriptions", List([]))
  }

  /** The normalised record, field by field. */
  datatype PlaceRecord = PlaceRecord(placeId: Value, name: Value, address: Value, phone: Value,
                                     website: Value, status: Value, rating: Value, totalReviews: Value,
                                     openingHours: Value, tags: Value)

  /** The record as the dict the code builds: exactly the ten keys. */
  function AsDict(rec: PlaceRecord): (m: map<string, Value>)
    ensures m.Keys == RecordKeys
    ensures m["place_id"] == rec.placeId && m["name"] == rec.name && m["address"] == rec.address
    ensures m["phone"] == rec.phone && m["website"] == rec.website && m["status"] == rec.status
    ensures m["rating"] == rec.rating && m["total_reviews"] == rec.totalReviews
    ensures m["opening_hours"] == rec.openingHours && m["tags"] == rec.tags
  {
    map[
      "place_id" := rec.placeId,
      "name" := rec.name,
      "address" := rec.address,
      "phone" := rec.phone,
      "website" := rec.website,
      "status" := rec.status,
      "rating" := rec.rating,
      "total_reviews" := rec.totalReviews,
      "opening_hours" := rec.openingHours,
      "tags" := rec.tags
    ]
  }

  /** The fields of `transform_place_result`, before they become a dict. */
  function TransformFields(result: Value): (r: Result<PlaceRecord, PyError>)
    ensures r.Err? <==> !result.Dict? || NameOf(result.fields).Err? || OpeningHoursOf(result.fields).Err?
    ensures r.Err? ==> r.error == AttributeError
    ensures r.Ok? ==> var f := result.fields;
      r.value == PlaceRecord(PlaceIdOf(f), NameOf(f).value, AddressOf(f),
                             ContactOf(f, "formatted_phone_number", "internationalPhoneNumber"),
                             ContactOf(f, "website", "websiteUri"), Str("active"), Get(f, "rating", Null),
                             TotalReviewsOf(f), OpeningHoursOf(f).value, Get(f, "types", List([])))
  {
    if !result.Dict? then Err(AttributeError)
    else
      var f := result.fields;
      var name :- NameOf(f);
      var address := AddressOf(f);
      var hours :- OpeningHoursOf(f);
      Ok(PlaceRecord(PlaceIdOf(f), name, address,
                     ContactOf(f, "formatted_phone_number", "internationalPhoneNumber"),
                     ContactOf(f, "website", "websiteUri"), Str("active"), Get(f, "rating", Null),
                     TotalReviewsOf(f), hours, Get(f, "types", List([]))))
  }

  /** `transform_place_result`. It raises AttributeError for a non-dict
      result or a failing nested lookup; otherwise the record has exactly the
      ten keys, its `place_id` is the one the result is keyed by, its status is
      "active" whatever the input says, and its tags are the input `types`
      ([] when absent). */
  function TransformPlaceResult(result: Value): (r: Result<map<string, Value>, PyError>)
    ensures r.Err? <==> TransformFields(result).Err?
    ensures r.Err? ==> r.error == AttributeError
    ensures r.Ok? ==> r.value.Keys == RecordKeys
    ensures r.Ok? ==> r.value == AsDict(TransformFields(result).value)
    ensures r.Ok? ==> r.value["place_id"] == PlaceIdOf(result.fields)
    ensures r.Ok? ==> r.value["status"] == Str("active")
    ensures r.Ok? ==> r.value["tags"] == Get(result.fields, "types", List([]))
  {
    var rec :- TransformFields(result);
    Ok(AsDict(rec))
  }

  /** One place, independent of the API version that reported it. */
  datatype Place = Place(id: string, name: string, address: string, phone: string, website: string,
                         rating: int, reviews: int, hours: seq<string>, types: seq<string>)

  function Strs(xs: seq<string>): seq<Value> {
    seq(|xs|, i requires 0 <= i < |xs| => Str(xs[i]))
  }

  /** The place as the legacy Places API reports it. */
  function LegacyResponse(p: Place): Value {
    Dict(map[
      "place_id" := Str(p.id),
      "name" := Str(p.name),
      "formatted_address" := Str(p.address),
      "formatted_phone_number" := Str(p.phone),
      "website" := Str(p.website),
      "rating" := Num(p.rating),
      "user_ratings_total" := Num(p.reviews),
      "opening_hours" := Dict(map["weekday_text" := List(Strs(p.hours))]),
      "types" := List(Strs(p.types))
    ])
  }

  /** The same place as the v1 Places API reports it. */
  function V1Response(p: Place): Value {
    Dict(map[
      "id" := Str(p.id),
      "displayName" := Dict(map["text" := Str(p.name)]),
      "formattedAddress" := Str(p.address),
      "internationalPhoneNumber" := Str(p.phone),
      "websiteUri" := Str(p.website),
      "rating" := Num(p.rating),
      "userRatingCount" := Num(p.reviews),
      "regularOpeningHours" := Dict(map["weekdayDescriptions" := List(Strs(p.hours))]),
      "types" := List(Strs(p.types))
    ])
  }

  function Fields(p: Place): PlaceRecord {
    PlaceRecord(Str(p.id), Str(p.name), Str(p.address), Str(p.phone), Str(p.website), Str("active"),
                Num(p.rating), Num(p.reviews), List(Strs(p.hours)), List(Strs(p.types)))
  }

  /** The record both API versions are normalised to. */
  function Normalised(p: Place): map<string, Value> {
    AsDict(Fields(p))
  }

  lemma LegacyIdentity(p: Place)
    requires |p.id| > 0 && |p.name| > 0 && |p.address| > 0
    ensures var f := LegacyResponse(p).fields;
      NameOf(f) == Ok(Str(p.name)) && PlaceIdOf(f) == Str(p.id) && AddressOf(f) == Str(p.address)
  {
  }

  lemma LegacyContacts(p: Place)
    requires |p.phone| > 0 && |p.website| > 0 && p.reviews != 0
    ensures var f := LegacyResponse(p).fields;
      && ContactOf(f, "formatted_phone_number", "internationalPhoneNumber") == Str(p.phone)
      && ContactOf(f, "website", "websiteUri") == Str(p.website)
      && TotalReviewsOf(f) == Num(p.reviews)
  {
  }

  lemma LegacyRest(p: Place)
    requires |p.hours| > 0
    ensures var f := LegacyResponse(p).fields;
      && OpeningHoursOf(f) == Ok(List(Strs(p.hours)))
      && Get(f, "rating", Null) == Num(p.rating)
      && Get(f, "types", List([])) == List(Strs(p.types))
  {
    var f := LegacyResponse(p).fields;
    assert LegacyHours(f) == Ok(List(Strs(p.hours)));
  }

  lemma V1Identity(p: Place)
    requires |p.id| > 0 && |p.address| > 0
    ensures var f := V1Response(p).fields;
      NameOf(f) == Ok(Str(p.name)) && PlaceIdOf(f) == Str(p.id) && AddressOf(f) == Str(p.address)
  {
  }

  lemma V1Contacts(p: Place)
    requires |p.phone| > 0 && |p.website| > 0
    ensures var f := V1Response(p).fields;
      && ContactOf(f, "formatted_phone_number", "internationalPhoneNumber") == Str(p.phone)
      && ContactOf(f, "website", "websiteUri") == Str(p.website)
      && TotalReviewsOf(f) == Num(p.reviews)
  {
  }

  lemma V1Rest(p: Place)
    ensures var f := V1Response(p).fields;
      && OpeningHoursOf(f) == Ok(List(Strs(p.hours)))
      && Get(f, "rating", Null) == Num(p.rating)
      && Get(f, "types", List([])) == List(Strs(p.types))
  {
    var f := V1Response(p).fields;
    assert LegacyHours(f) == Ok(List([]));
  }

  /** A place reported by the legacy API and by the v1 API normalises to the
      same record, when every text field is non-empty, the review count is
      non-zero and opening hours are listed. */
  lemma BothApiVersionsAgree(p: Place)
    requires |p.id| > 0 && |p.name| > 0 && |p.address| > 0 && |p.phone| > 0 && |p.website| > 0
    requires p.reviews != 0 && |p.hours| > 0
    ensures TransformPlaceResult(LegacyResponse(p)) == TransformPlaceResult(V1Response(p)) == Ok(Normalised(p))
  {
    LegacyIdentity(p);
    LegacyContacts(p);
    LegacyRest(p);
    V1Identity(p);
    V1Contacts(p);
    V1Rest(p);
  }
}
