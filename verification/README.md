# LeadGen lead ingestion and bookkeeping, modelled in Dafny

LeadGen crawls Google Places for Australian businesses and stores them as
sales leads. This project models the part of its API service that decides
what gets stored and what gets reported:

- **Crawl ingestion.** `BusinessManager.filter_and_save_results` skips
  results without an id or with a `place_id` already stored. It normalises
  every other result with `transform_place_result`, stamps it with the
  crawl's state and region, inserts it and counts it.
- **Lead queries** (`db/queries.py`). These are the duplicate check, the
  insert, the filtered listing capped at 1000, the lookup by `place_id` and
  the delete by ObjectId text.
- **Bulk ingestion.** `insert_leads` validates each lead into the `LeadDB`
  record, with its defaults. It inserts under a unique index on
  `(name, address)` and skips a lead whose pair is taken or whose insert
  fails.
- **Monthly request quota** (`QuotaManager`) and **round-robin API keys**
  (`APIKeyManager`).
- **The constant tables.** These are the business-type catalogue, with its
  sorted type list and type→category index, and the region tables: cities
  per state, city centres and tilings.
- **The state→LGA grouping script** (`utils/generate_map.py`).
- **The crawler routes** (`routes/business.py`):
  - `/crawl` sums per-type saved counts and refuses unknown regions.
  - `/leads` lists leads under optional filters.
  - `/leads/summary` reshapes the per-state, per-tag counts.

How things are represented:

- **Python values** are a JSON-like `PyValue.Value` datatype, with Python
  truthiness, `or`, `.get`, subscripting and iteration written out. Each
  Python exception a member can raise is a `PyError` case of a `Result`.
- **The Mongo collection** is a `Mongo.Store`: the documents in natural
  order plus the next ObjectId. `str(ObjectId)` is 24 lower-case hex digits
  (`ObjectIds.Text`).
- **Everything outside the model** becomes a parameter:
  - the Places search is a function `Search`;
  - the quota file and the current month are values;
  - the `GOOGLE_API_KEYS` variable is an `Option<string>`;
  - the positions where the database rejects an insert for a reason other
    than a duplicate key are the set `faults`.

The modules follow the source files:

| module | source file |
|---|---|
| `Wrappers` | shared `Option`/`Result` types |
| `PyValue`, `PyStr` | Python semantics the core relies on |
| `ObjectIds`, `Mongo` | the database driver's behaviour |
| `Queries` | `db/queries.py` |
| `Helpers` | `utils/helpers.py` |
| `BusinessManager` | `services/business_manager.py` |
| `LeadService` | `app/services/lead_service.py` and `app/models/lead.py` |
| `QuotaManager` | `utils/quota_manager.py` |
| `ApiKeyManager` | `utils/api_key_manager.py` |
| `StrOrder`, `Catalogue` | the business catalogue of `config/constants.py` |
| `Regions` | the region tables of `config/constants.py` |
| `GenerateMap` | `utils/generate_map.py` |
| `BusinessRoutes` | `routes/business.py` |
| `SeqFacts` | sequence lemmas |

## Model

| member | source | states |
|---|---|---|
| BusinessManager.ResultId | apps/api/services/business_manager.py:13 | The id a result is checked under is its truthy `place_id`, otherwise its `id`; a result that is not a dict raises AttributeError |
| BusinessManager.CrawlRecordHasNoId | apps/api/services/business_manager.py:20-24 | The crawl's record handed to `insert_lead` holds no `_id` |
| BusinessManager.LeadRecord | apps/api/services/business_manager.py:20-22 | The inserted record is the normalised result with `state` and `region` set to the crawl's arguments, and it keeps the result's id as `place_id`. It has exactly the normalised record's keys plus `state` and `region`, and every normalised field keeps its value |
| BusinessManager.Save | apps/api/services/business_manager.py:12-25 | Over a batch, the collection only grows by at most one record per result. Each record added has the crawl's state and region, a truthy `place_id` no earlier record matches, and comes from one of the results. A completed batch leaves every result with an id stored |
| BusinessManager.FilterAndSave | apps/api/services/business_manager.py:10-26 | The count returned equals the number of records added and is at most `len(results)`. No earlier record is changed or removed. Every added record carries the given state and region and a fresh truthy `place_id`, and is the record of some result. A completed call leaves every result with an id stored. A call that raises AttributeError stopped at one result, which is either not a dict or has a truthy, unstored id whose normalisation fails; every result before it is stored, and its inserts stay |
| BusinessManager.NoRepeatInBatch | apps/api/services/business_manager.py:16-24 | Two records added by one call never share a `place_id`, even when the batch repeats it |
| BusinessManager.SaveStops | apps/api/services/business_manager.py:12-25 | A batch that raises stopped at one entry. Every entry before it was saved, and their inserts stay in the returned collection. The entry's id lookup failed, or its id was truthy and unstored and building its record failed |
| BusinessManager.SavedBatchIsSkipped | apps/api/services/business_manager.py:16-18 | A batch whose ids are all missing or already stored adds nothing and returns 0 |
| BusinessManager.SecondRunSavesNothing | apps/api/services/business_manager.py:16-18 | Running a batch that completed a second time returns 0 and leaves the collection unchanged |
| Queries.IsDuplicate | apps/api/db/queries.py:6-8 | True exactly when some stored lead's `place_id` matches |
| Queries.InsertLead | apps/api/db/queries.py:11-13 | Adds exactly one record holding the data, under an ObjectId no other record has, keeps the others in place, and returns the new id's text |
| Queries.LeadsQuery | apps/api/db/queries.py:16-21 | The filter has a `state` condition exactly when the state is non-empty, a `types` membership condition exactly when the type is non-empty, and nothing else |
| Queries.LeadsQueryMeaning | apps/api/db/queries.py:17-21 | A lead matches the filter exactly when it passes each given condition |
| Queries.GetLeadsByFilter | apps/api/db/queries.py:16-23 | At most 1000 stored leads, each passing the filters. With no filters it returns the first 1000 leads in natural order. When at most 1000 pass, it returns all of them |
| Queries.GetLeadByPlaceId | apps/api/db/queries.py:26-27 | Finds a stored lead with that `place_id` exactly when `is_duplicate` reports one |
| Queries.DeleteLeadById | apps/api/db/queries.py:30-31 | Text that is not 24 hex digits raises InvalidId. Otherwise it removes exactly the lead with that ObjectId, and the count says whether there was one |
| Queries.InsertThenDelete | apps/api/db/queries.py:11-31 | Deleting by the text `insert_lead` returned removes that lead and gives back the earlier collection |
| ObjectIds.ParseText | apps/api/db/queries.py:30-31 | The text of an ObjectId parses back to the same ObjectId |
| ObjectIds.TextInjective | apps/api/db/queries.py:13 | Distinct ObjectIds have distinct texts |
| Helpers.EitherKey | apps/api/utils/helpers.py:3-15 | The `place_id` and `total_reviews` fallback: the legacy field when truthy, otherwise whatever the v1 field holds, so a legacy 0 is not kept |
| Helpers.NameOf | apps/api/utils/helpers.py:4 | Legacy `name` when truthy, otherwise `displayName.text`, otherwise None; a `displayName` that is not a dict raises |
| Helpers.AddressOf | apps/api/utils/helpers.py:5 | The first truthy of `formatted_address` and `formattedAddress`, otherwise `vicinity` |
| Helpers.ContactOf | apps/api/utils/helpers.py:11-12 | Phone or website: the legacy value when truthy, otherwise the v1 value when truthy, otherwise None |
| Helpers.OpeningHoursOf | apps/api/utils/helpers.py:16 | Legacy `weekday_text` when non-empty, otherwise v1 `weekdayDescriptions`, otherwise []; a container that is present but not a dict raises |
| Helpers.TransformPlaceResult | apps/api/utils/helpers.py:1-18 | The record has exactly the ten keys. Its `place_id` is the id the result is keyed by, its status is "active" whatever the input says, and its tags are the input `types` ([] when absent) |
| Helpers.BothApiVersionsAgree | apps/api/utils/helpers.py:2-17 | The same place reported by the legacy API and by the v1 API normalises to the same record, given non-empty text fields, a non-zero review count and listed hours |
| Helpers.LegacyIdentity | apps/api/utils/helpers.py:3-5 | A legacy response yields its own id, name and address |
| Helpers.LegacyContacts | apps/api/utils/helpers.py:11-15 | A legacy response yields its own phone, website and review count |
| Helpers.LegacyRest | apps/api/utils/helpers.py:14-17 | A legacy response yields its own hours, rating and types |
| Helpers.V1Identity | apps/api/utils/helpers.py:3-5 | A v1 response falls through the legacy keys to its own id, display name and address |
| Helpers.V1Contacts | apps/api/utils/helpers.py:11-15 | A v1 response yields its own phone, website and review count |
| Helpers.V1Rest | apps/api/utils/helpers.py:14-17 | A v1 response yields its own hours, rating and types |
| LeadService.TextValue | apps/api/app/models/lead.py:5-9 | A `str` field keeps a string and takes an int or bool as its `str()` text; an int's text reads back as the int; anything else is rejected |
| LeadService.NumberValue | apps/api/app/models/lead.py:10-11 | A number field keeps an int and takes a bool as 1 or 0; anything else is rejected |
| LeadService.TextsValue | apps/api/app/models/lead.py:12 | A list of strings is accepted exactly when every item is, each item converted as a `str` field converts it; a list of strings is kept as it is |
| LeadService.FlagValue | apps/api/app/models/lead.py:15-18 | A bool field gives True exactly for True, 1 or a word of `BOOL_TRUE` in any letter case, False exactly for False, 0 or a word of `BOOL_FALSE`, and rejects everything else |
| LeadService.Coerce | apps/api/app/models/lead.py:4-19 | A given value is accepted exactly when its kind admits it; the result always has the declared type, and a value that already has it is kept |
| LeadService.FieldValue | apps/api/app/models/lead.py:4-19 | An absent field takes its default. A given field is accepted exactly when its kind admits it, and then has the declared type, keeping a value that already had it. Otherwise it is a validation error |
| LeadService.Build | apps/api/app/models/lead.py:4-19 | The validated record has exactly the declared fields, each valued as `FieldValue` says; any rejected field fails the whole record |
| LeadService.ValidatedRecordHasNoId | apps/api/app/services/lead_service.py:14-16 | A validated lead handed to `insert_one` holds no `_id`, because the schema has no such field |
| LeadService.Validate | apps/api/app/services/lead_service.py:14 | A lead that is not a dict raises TypeError and an unacceptable field raises ValidationError; otherwise the record has exactly the schema's fields |
| LeadService.ValidateIdempotent | apps/api/app/services/lead_service.py:14 | Validating a validated record gives back the same record |
| LeadService.NewLeadDefaults | apps/api/app/models/lead.py:14-19 | A lead that omits the flags and tags is stored as not contacted, not emailed, not texted, not called, with no tags |
| LeadService.InsertKeepsKeys | apps/api/app/services/lead_service.py:6-16 | Inserting a record whose pair is free keeps the `(name, address)` index unique and every pair stored before |
| LeadService.InsertRecords | apps/api/app/services/lead_service.py:12-23 | The loop keeps the index unique. It returns, in input order, one record per document it added, each with its `_id` text. Every lead outside the failing inserts ends with its pair stored. An error is that of the first failing entry; every entry before it validated, and each one outside the failing inserts has its pair stored |
| LeadService.InsertLeads | apps/api/app/services/lead_service.py:11-23 | A lead that fails validation raises out of the call with the first invalid lead's error. Every lead before it outside the failing inserts has its pair stored, so the earlier inserts stay. Otherwise `saved` lists, in input order, the validated records stored, each with its `_id` text, and has the length of what was added. A lead is skipped only for a failing insert or a taken pair |
| LeadService.SavedPairsAreNew | apps/api/app/services/lead_service.py:19-20 | No saved record collides with a lead stored before the call |
| QuotaManager.LoadUsage | apps/api/utils/quota_manager.py:13-24 | With no file or a file for another month, the usage is 0 for the current month. A file for the current month keeps its count. The usage ends up written |
| QuotaManager.New | apps/api/utils/quota_manager.py:6-11 | The manager has the given cap, which defaults to 9500, and usage for the current month |
| QuotaManager.Increment | apps/api/utils/quota_manager.py:29-31 | Adds exactly 1 to the count, keeps the month and cap, and writes the new usage |
| QuotaManager.Remaining | apps/api/utils/quota_manager.py:40-41 | `remaining + usage == cap`, and the value is negative exactly when the usage exceeds the cap |
| QuotaManager.IsWithinLimit | apps/api/utils/quota_manager.py:43-44 | True exactly when something remains |
| QuotaManager.IncrementsAdd | apps/api/utils/quota_manager.py:29-31 | n increments add exactly n, whatever the cap, and the file holds the final usage |
| QuotaManager.CapIsNotEnforced | apps/api/utils/quota_manager.py:29-44 | A fresh manager leaves the limit after exactly `max_requests` increments, and one more makes `remaining` -1 |
| QuotaManager.RestartKeepsCount | apps/api/utils/quota_manager.py:13-21 | Restarting in the same month restores the count the last increment wrote |
| QuotaManager.NewMonthResets | apps/api/utils/quota_manager.py:21-24 | Restarting in another month starts from 0 |
| QuotaManager.MonthTextInjective | apps/api/utils/quota_manager.py:26-27 | Different months have different "YYYY-MM" texts |
| QuotaManager.CalendarMonthResets | apps/api/utils/quota_manager.py:21-27 | A restart in a different calendar month, named by its "YYYY-MM" text, starts from 0 whatever the file held |
| QuotaManager.UsageAfterIncrements | apps/api/utils/quota_manager.py:37-38 | After a restart and n increments, `get_usage` is the count the file held for this month, or 0, plus n |
| ApiKeyManager.CleanPieces | apps/api/utils/api_key_manager.py:8 | The kept keys are at most as many as the pieces, and none is empty, has outer whitespace or holds a comma |
| ApiKeyManager.CleanPiecesBlank | apps/api/utils/api_key_manager.py:8-10 | No key is kept exactly when every piece is blank once stripped |
| ApiKeyManager.ParseKeys | apps/api/utils/api_key_manager.py:7-8 | Every parsed key is clean, and there are none exactly when every comma-separated piece is blank |
| ApiKeyManager.ParseKeysPieces | apps/api/utils/api_key_manager.py:7-8 | The parsed keys, as a set, are exactly the comma-separated pieces that are not blank once stripped, each stripped |
| ApiKeyManager.KeysArePieces | apps/api/utils/api_key_manager.py:8 | The kept keys, as a set, are exactly the pieces that are not blank once stripped, each stripped |
| ApiKeyManager.StrippedPieceIsKept | apps/api/utils/api_key_manager.py:8 | Every piece that is not blank once stripped is kept, stripped |
| ApiKeyManager.KeptKeyIsStrippedPiece | apps/api/utils/api_key_manager.py:8 | Every kept key is one of the pieces, stripped |
| ApiKeyManager.CleanPiecesHead | apps/api/utils/api_key_manager.py:8 | The first piece comes first among the keys, stripped, unless it is blank; the keys of the other pieces follow |
| ApiKeyManager.CleanPiecesAppend | apps/api/utils/api_key_manager.py:8 | The keys of two runs of pieces are the first run's keys followed by the second's, so the pieces' order is kept |
| ApiKeyManager.ParseKeysAppend | apps/api/utils/api_key_manager.py:7-8 | Text joined at a comma parses to the first part's keys followed by the second part's |
| ApiKeyManager.OnePiece | apps/api/utils/api_key_manager.py:7-8 | Text with no comma gives its stripped self as the one key, or no key when it is blank |
| ApiKeyManager.ParseJoin | apps/api/utils/api_key_manager.py:7-8 | Clean keys written comma-separated parse back to the same list |
| ApiKeyManager.CleanPiecesOfClean | apps/api/utils/api_key_manager.py:8 | Clean pieces are kept as they are |
| ApiKeyManager.EmptyHasNoKeys | apps/api/utils/api_key_manager.py:7-10 | The empty default of an unset variable lists no key |
| ApiKeyManager.New | apps/api/utils/api_key_manager.py:5-12 | Construction fails exactly when no usable key is parsed, and always when the variable is unset. Otherwise the manager holds the parsed keys and starts at the first |
| ApiKeyManager.WrapIsMod | apps/api/utils/api_key_manager.py:12 | Stepping around the cycle is the remainder of division by the number of keys |
| ApiKeyManager.GetKey | apps/api/utils/api_key_manager.py:14-15 | Returns a listed key and moves to the next position, wrapping after the last |
| ApiKeyManager.CallsRoundRobin | apps/api/utils/api_key_manager.py:12-15 | The i-th call returns the key i places after the current position, wrapping around |
| ApiKeyManager.FromFirstKeyCycles | apps/api/utils/api_key_manager.py:12-15 | A new manager's i-th call (from 0) returns `api_keys[i mod n]` |
| ApiKeyManager.OneTurnIsRotation | apps/api/utils/api_key_manager.py:12-15 | Any n consecutive calls return a rotation of the key list and come back to the start |
| ApiKeyManager.OneTurnReturnsEachKey | apps/api/utils/api_key_manager.py:12-15 | Any n consecutive calls return each key exactly as often as it is listed |
| PyStr.Strip | apps/api/utils/api_key_manager.py:8 | The stripped text has no outer whitespace and is a slice of the input with only whitespace cut away |
| PyStr.SplitJoin | apps/api/utils/api_key_manager.py:8 | Splitting a join of comma-free pieces gives the pieces back |
| StrOrder.SortedSet | apps/api/config/constants.py:158-160 | `sorted(set(xs))` is strictly ascending and holds exactly the elements of xs |
| StrOrder.SortedUnique | apps/api/config/constants.py:158-160 | A strictly ascending list is determined by its elements |
| Catalogue.Flatten | apps/api/config/constants.py:158-160 | The flattened types are exactly the types some category lists |
| Catalogue.AllTypes | apps/api/config/constants.py:158-160 | `ALL_BUSINESS_TYPES` is strictly ascending and holds exactly the listed types; the empty category adds nothing |
| Catalogue.TypeToCategory | apps/api/config/constants.py:163-165 | The index covers exactly the listed types, and each type goes to the last category that lists it |
| Catalogue.TypeInItsCategory | apps/api/config/constants.py:163-165 | Every indexed type's category lists it |
| Catalogue.IndexCoversAllTypes | apps/api/config/constants.py:158-165 | The index's keys are exactly `ALL_BUSINESS_TYPES` |
| Catalogue.AccountingIsFinance | apps/api/config/constants.py:17-165 | "accounting", listed under Business and again under Finance, is indexed as Finance |
| Regions.CityHasCoordinates | apps/api/config/constants.py:172-260 | Every city listed under a state has a centre and a tiling |
| Regions.CoordinatesAreListed | apps/api/config/constants.py:172-260 | Every city with a centre is listed under a state |
| Regions.TilesAreListed | apps/api/config/constants.py:172-842 | Every city with a tiling is listed under a state |
| Regions.CoordinatesHaveTiles | apps/api/config/constants.py:200-842 | A city with a centre has a tiling |
| Regions.TilesHaveCoordinates | apps/api/config/constants.py:200-842 | A city with a tiling has a centre |
| Regions.TileConfigsCoverCities | apps/api/config/constants.py:200-848 | The cities with a tiling are exactly the cities with a centre |
| Regions.TileConfigsWellFormed | apps/api/config/constants.py:263-848 | Every tiling, the default included, has a positive tile no larger than its width and height, and every override box is non-empty |
| GenerateMap.FirstTruthy | apps/api/utils/generate_map.py:19-20 | The value of the first key whose value is truthy, otherwise the default |
| GenerateMap.ChosenName | apps/api/utils/generate_map.py:19-23 | A name is the fallback chosen along the keys, then stripped; a chosen value that is not a string raises |
| GenerateMap.AllNames | apps/api/utils/generate_map.py:15-23 | Every feature's names in order, or the exception of the first bad feature |
| GenerateMap.FeatureList | apps/api/utils/generate_map.py:15 | A list of features is iterated item by item |
| GenerateMap.GroupByState | apps/api/utils/generate_map.py:13-29 | The loop builds the grouping defined without a loop |
| GenerateMap.FeatureNames | apps/api/utils/generate_map.py:15-23 | A feature without `properties` raises the lookup's error. Otherwise naming fails exactly when choosing the state or the LGA name fails, with the first failure's error; a named feature has dict properties and the two chosen, stripped names |
| GenerateMap.AddFeature | apps/api/utils/generate_map.py:25-29 | One turn of the loop is the grouping of one more feature |
| GenerateMap.BuildMap | apps/api/utils/generate_map.py:9-29 | The written map is the grouping of the names of the features read, exactly when the features are read and every feature has names. A failing read of the features raises that error, and otherwise a bad feature raises the first bad feature's error |
| GenerateMap.KeysAreStatesSeen | apps/api/utils/generate_map.py:25-26 | The map's keys are exactly the states seen, each once |
| GenerateMap.PairsAreListed | apps/api/utils/generate_map.py:28-29 | An LGA is listed under a state exactly when some feature pairs them, and no list repeats an LGA |
| GenerateMap.ListsKeepFirstAppearance | apps/api/utils/generate_map.py:28-29 | Each list keeps its LGAs in the order they first appear among that state's features |
| GenerateMap.EveryFeatureIsListed | apps/api/utils/generate_map.py:15-29 | Every feature's state is a key, with the feature's LGA under it |
| GenerateMap.BlankNameIsNotUnknown | apps/api/utils/generate_map.py:19-23 | A whitespace-only state name is chosen and stripped to "", not replaced by UNKNOWN_STATE |
| GenerateMap.MissingStateIsUnknown | apps/api/utils/generate_map.py:19-22 | With neither state key truthy, the state is UNKNOWN_STATE |
| BusinessRoutes.TypeResults | apps/api/routes/business.py:31-36 | The results a type hands to the save exist only when the search and the `places` lookup succeed; a failing search's exception is passed on |
| BusinessRoutes.TypeOutcome | apps/api/routes/business.py:30-44 | One type changes the collection only by growing it; a search, a `places` lookup or an iteration that raises adds 0 and leaves the collection as it was. A save that raises counts 0 and keeps what it stored, having stopped at one result with every result before it stored. A type whose search, lookup and save all complete counts exactly the records it added; any other type counts 0 |
| BusinessRoutes.CompleteCrawlCountsAll | apps/api/routes/business.py:29-40 | When no type raises, the crawl's total is exactly the number of records it added |
| BusinessRoutes.TypeAddsFreshRecords | apps/api/routes/business.py:36-40 | One type adds only fresh records of the region and counts no more than it added |
| BusinessRoutes.CrawlAddsFreshRecords | apps/api/routes/business.py:29-44 | Whatever the searches return, the crawl adds only fresh records of the region, and its total counts no more than it added |
| BusinessRoutes.CrawlBusinesses | apps/api/routes/business.py:15-46 | An unknown region is refused with its error and nothing is searched or saved. Otherwise every type is searched in order, the reply says "Crawling complete", and it carries the total the types saved, which is exactly the number of records added when no type raised |
| BusinessRoutes.SearchTypes | apps/api/routes/business.py:27-44 | The loop's store and total are those of the types taken one after another |
| BusinessRoutes.CrawlSnoc | apps/api/routes/business.py:29-40 | One more type adds exactly what that type saves to the running total |
| BusinessRoutes.FailingTypeIsSkipped | apps/api/routes/business.py:42-44 | A type whose search raises changes nothing, and the remaining types run as if it had not been asked for, given searches that do not depend on the key used |
| BusinessRoutes.NothingFoundSavesNothing | apps/api/routes/business.py:42-46 | When every search raises, nothing is saved and 0 is reported |
| BusinessRoutes.ListedCityIsCrawled | apps/api/routes/business.py:23-24 | A city listed under a state is never refused as unknown |
| BusinessRoutes.Rendered | apps/api/routes/business.py:62 | A listed lead keeps its fields and has `_id` as its ObjectId's 24-digit text |
| BusinessRoutes.GetLeads | apps/api/routes/business.py:49-65 | At most 1000 stored leads, each passing the optional filters and rendered with a string `_id` |
| BusinessRoutes.GetLeadsAgreesWithQueries | apps/api/routes/business.py:54-63 | The route lists the same leads, in the same order, as `get_leads_by_filter` |
| BusinessRoutes.CrawledRecordHasNoTypes | apps/api/utils/helpers.py:7-18 | A record the crawl inserts stores its place types under `tags` and has no `types` field |
| BusinessRoutes.TypeFilterMissesCrawledLeads | apps/api/routes/business.py:57-58 | As written, a type filter never matches a lead the crawl stored |
| BusinessRoutes.TagsQuery | apps/api/routes/business.py:54-58 | The corrected filter has a `state` condition exactly when a state is given, a `tags` condition exactly when a type is given, and nothing else |
| BusinessRoutes.TagsQueryMeaning | apps/api/routes/business.py:54-58 | A lead matches the corrected filter exactly when it passes each given condition |
| BusinessRoutes.GetLeadsByTag | apps/api/routes/business.py:49-65 | The corrected listing: at most 1000 stored leads, each passing the state and tag filters. When no more than 1000 leads pass, every lead that passes is listed |
| BusinessRoutes.TagFilterFindsCrawledLeads | apps/api/routes/business.py:57-58 | With the corrected filter, a crawled lead whose place types include the type is found, also under its own state |
| BusinessRoutes.CrawledLeadIsListed | apps/api/routes/business.py:49-65 | A stored crawled lead whose place types include the type is listed under that type, alone or with its own state, when no more than 1000 leads pass |
| BusinessRoutes.ItemRow | apps/api/routes/business.py:83-88 | A non-dict item raises TypeError. A missing `_id` or `count` raises KeyError, and a non-dict `_id` raises AttributeError. Otherwise, with `state` and `type` read from `_id` with a None default: the item is skipped exactly when one of them is falsy; it raises TypeError exactly when both are truthy and one is unhashable; and a kept row holds those two values and the item's count |
| BusinessRoutes.Rows | apps/api/routes/business.py:82-88 | Every item's row in order, or the exception of the first bad item |
| BusinessRoutes.Reshape | apps/api/routes/business.py:81-90 | The states are exactly those some kept item names. The types under a state are exactly those some kept item pairs with it. Each count is that of the last item for the pair |
| BusinessRoutes.ReshapeStep | apps/api/routes/business.py:82-90 | One turn of the loop keeps the summary exact for one more item |
| BusinessRoutes.LeadsSummary | apps/api/routes/business.py:67-92 | A bad item raises; otherwise the nested summary of all items |
| BusinessRoutes.SkippedItemsLeaveNoKey | apps/api/routes/business.py:87-88 | A falsy state never becomes a key of the summary |

## Left out

- Tile generation and its geometry (`generate_tiles_for_*`, shapely, projections): the engine is not part of this model.
- The Places HTTP client, the Mongo driver's I/O, the quota file's I/O and the environment lookup are not modelled as such. They are parameters: the `Search` function, the `Store`, the file as an `Option<Usage>`, and `GOOGLE_API_KEYS` as an `Option<string>`.
- `async`/`await`: the coroutines run one after another, so they are modelled as sequential code.
- Logging and `print` calls are left out, because they have no effect on the results.
- Floating-point values (ratings, coordinates) are left out. Ratings are integers, since only their truthiness and pass-through matter. Coordinates are kept as "lat,lng" text. Tile boxes are whole ten-thousandths of a degree, which every table entry is exactly.
- The Mongo aggregation pipeline of `/leads/summary` (`$unwind`, `$group`) is not modelled. `BusinessRoutes.LeadsSummary` takes the aggregate's items as its input.
- The key rotation and the quota count behind each search are not threaded through the crawl. In `services/google_maps.py`, each search takes the next round-robin key (line 26) and increments the monthly quota (line 31), even when the response is an error. The model's `Search` is a fixed function of centre, radius and type, so it assumes a search's outcome does not depend on which key it is sent with, and the crawl's quota use is not counted. `ApiKeyManager` and `QuotaManager` model those two pieces on their own.
- `BusinessRoutes.FailingTypeIsSkipped` holds under that assumption. In the service, a failing type still uses up a key, so the types after it are sent with other keys than they would be without it.
- `BusinessRoutes.CrawlBusinesses` takes the region-centre table as a parameter; the route passes `Regions.RegionCoordinates`. `BusinessRoutes.ListedCityIsCrawled` ties the two tables together.
- `AU_REGIONS` is kept as the dictionary's items in order, and the tile tables are grouped by state; the contents are those of `config/constants.py`.
- `Regions.TileConfigsCoverCities` covers city tilings only; `REGION_TILE_CONFIGS` also has the fallback entry "default", which has no centre.
- The Port Pirie centre lies west of its own override box. The model keeps the tables as written and does not state that every centre lies in its box.
- Python's `1 == True` equality of dictionary keys is not modelled: summary keys are compared as values.
- `get_all_leads`, the lead update handler, the Streamlit and Next.js interfaces and the settings modules are not part of this model.
- `init_db_indexes` (a unique index on `place_id`) is never called in the crawl path, so the crawl's inserts are modelled as never failing on a duplicate key.
- `LeadService.Validate` models pydantic's v1 behaviour: a missing optional field becomes None, undeclared keys are dropped, and a given value is converted to the declared type where v1 converts it (an int or bool to its text, a bool to 1 or 0, 1, 0 and the yes/no words to a bool).
- `LeadService.NumberValue` is stricter than pydantic v1 for number fields: v1 parses a numeric string ("4.5", "12") and truncates a float for an `int` field, while the model rejects a string there and has no floats.
- `LeadService.Coerce` takes on that narrower number rule, and folds letter case for ASCII only, which decides the same for the yes/no words.
- `LeadService.FieldValue` inherits both through `Coerce`: a number field given as a numeric string or a float is rejected, not coerced.
- `Queries.InsertLead` (and `Mongo.InsertOne` under it) treats a caller-supplied `_id` as an ordinary field, and the new record still gets a fresh ObjectId. Mongo would store such a value as the document's id and raise when it is taken. No caller in this model passes one, as `BusinessManager.CrawlRecordHasNoId` and `LeadService.ValidatedRecordHasNoId` show.
- `LeadService.InsertLeads` treats inserts that fail for a reason other than a duplicate key as the given set `faults`; which inserts the database rejects is not modelled.
- `QuotaManager.MonthTextInjective` covers four-digit years only, because `strftime("%Y")` pads differently outside them.
- `ApiKeyManager.OneTurnReturnsEachKey` states "each key as often as it is listed", not "exactly once": a key listed twice in the variable is returned twice per turn.
- `Helpers.BothApiVersionsAgree` holds only for responses with non-empty text fields, a non-zero review count and listed hours. Outside those cases, the `or` chains fall through to the other API's fields.

## Findings

| source | as written | input that shows it | evidently intended | confidence | as-written member | corrected member |
|---|---|---|---|---|---|---|
| apps/api/routes/business.py:57-58 | The `/leads` type filter (and `get_leads_by_filter` at apps/api/db/queries.py:20-21) looks for the type in the field `types`, but the crawl stores a place's types under `tags` (apps/api/utils/helpers.py:17) | A lead crawled from a result whose `types` is `["cafe"]`, listed with `type=cafe`: the stored record has `tags: ["cafe"]` and no `types`, so it is not returned | The filter looks the type up in `tags` | not executed | BusinessRoutes.TypeFilterMissesCrawledLeads | BusinessRoutes.TagFilterFindsCrawledLeads |
