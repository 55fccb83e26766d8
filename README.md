# Publications microservice — a Dafny model

This project models the core of a publications microservice, a Flask/flask-restx
service for room-rental publications stored in PostgreSQL/PostGIS through SQLAlchemy.
The model covers four parts:

- **The listing search** of `GET /publications`. A request parser registers named
  filter arguments. Each filter is a callable `FilterParam` object that binds the
  request value and then adds one comparison (`>=`, `<=`, `==` or the blocked
  conditional) to the query. The handler rejects an incomplete latitude/longitude/
  max_distance triple, folds every parsed item into a conjunctive query, and adds a
  geodesic distance predicate with a radius of `max_distance * 1000` metres.
  Running a query keeps the rows that satisfy every constraint, with SQL's NULL
  semantics; the model returns them in table order. A constraint on
  `stars.user_id` (the `starring_user_id` filter) is read as holding when any star
  row of the publication has that user.
- **The single-publication, star and question endpoints.** They are transitions of
  the database contents: a map of publications, the star rows, the question rows
  and the question id sequence. The `Tables.Database` class holds those tables as
  fields. Its methods update them in place, and each method's contract ties the
  response and the new contents to the pure transition in module `Store`. The
  transitions are get, put, patch, block (`DELETE`), star, unstar, the starrings
  listing, question creation and reply. The `validate_publication` guard is shared
  by the question endpoints. An error leaves the state as it was, as a failed
  transaction does, except that a value drawn from the question id sequence is not
  given back.
- **The daily metric series.** `pad` walks the days from start to end and appends a
  zero point for each day missing from the series. It then sorts the series by date
  with Python's stable sort. `data_map` and `prepare_metric` compose it with a
  query's rows.
- **The database URL fix** (`fix_dialect`). A Heroku-style `postgres://` URL is
  renamed `postgresql://`. Every `postgresql://` is then rewritten to
  `postgresql+psycopg2://`, with Python's replace-all semantics.

Entities that are values are datatypes:

- `Publication`, `Star` and `Question` rows. Nullable columns are `Option`.
- The `BlockChainStatus` enumeration.
- The exceptions, each with the HTTP status it is rendered with.

`FilterParam` is a class, because calling it assigns its `val` field. The geodesic
distance, computed by PostGIS, is the function parameter `dist`. Clock readings such
as `created_at` and `replied_at` are the parameter `now`.

The `FilterParam` class at `utils.py:4-23` takes only `(name, op)`, and `apply` looks
the column up by `self.name`. Its call sites in `publications.py` also pass
`attribute=`, `schema=` and `transform=`. The model follows the call sites: a filter
has an attribute, which defaults to its name, and an optional transform, which only
`filter_blocked` uses. `schema=` only documents the argument and is not modelled.

## Model

| member | source | states |
|---|---|---|
| Models.StatusNamed | publications_microservice/constants.py:5-10 | the enumeration member found for a string (as when a body's `blockchain_status` is stored) has that string as its value |
| Models.StatusValueRoundTrip | publications_microservice/constants.py:5-10 | every member's value names that member back, so the five values are distinct |
| Models.StatusOf | publications_microservice/namespaces/questions.py:17-26 | all statuses lie in 400..599; only AttributeError, TypeError, IntegrityError and the statement error of an unstorable value, which no namespace handles, get a 5xx (the generic handler's 500) |
| Queries.Transformed | publications_microservice/namespaces/publications.py:275 | the identity keeps the value; the boolean table maps exactly "true" to True and "false" to False, and anything else (including an unbound value) to None |
| Queries.StarUsers | publications_microservice/namespaces/publications.py:229-234 | the values `stars.user_id` is compared with are exactly the user ids of the publication's star rows |
| Queries.RunMembership | publications_microservice/namespaces/publications.py:318-341 | a row is in a query's result iff it is in the table and satisfies every constraint; the result is a sub-multiset of the table |
| Queries.RunWithoutConstraints | publications_microservice/namespaces/publications.py:318 | the unfiltered query returns the whole table (in the model's table order) |
| Queries.RunSameConstraints | publications_microservice/namespaces/publications.py:320-331 | queries with the same set of constraints return the same rows, so the fold order is irrelevant |
| Queries.RunFilter | publications_microservice/utils.py:16-17 | adding a constraint returns the rows of the old query that satisfy it |
| Utils.FilterParam.constructor | publications_microservice/utils.py:7-10 | a new filter has the given name, operator, attribute and transform, and `val` None |
| Utils.FilterParam.Call | publications_microservice/utils.py:12-14 | calling binds `val` to the value and returns the same object |
| Utils.FilterParam.Apply | publications_microservice/utils.py:16-17 | exactly one constraint is appended (the operator on the attribute and the transformed bound value) and the existing ones are kept; reading only, it changes no field |
| Utils.FilterParam.Repr | publications_microservice/utils.py:19-20 | the repr is "filter ", the name, " by ", the operator's repr, each readable back at its offset |
| Utils.FilterParam.Str | publications_microservice/utils.py:22-23 | `str` equals `repr` |
| Utils.ApplyNarrows | publications_microservice/utils.py:16-17 | a row is in the applied query's result iff it is in the old result and satisfies the filter's comparison |
| Search.NewPublicationParser | publications_microservice/namespaces/publications.py:182-279 | builds the thirteen registrations in order, with their operators, attributes, defaults and store-missing flags; each filter object is new and unbound |
| Search.ArgumentNamesDistinct | publications_microservice/namespaces/publications.py:182-279 | the registered argument names are pairwise distinct |
| Search.ParserShape | publications_microservice/namespaces/publications.py:241-258 | the parser has 13 arguments with distinct names; latitude, longitude and max_distance are the float arguments at 9-11, stored as None when missing |
| Search.ParseArgs | publications_microservice/namespaces/publications.py:310 | parsing fails exactly when a float argument is given a non-number; otherwise it stores each argument's entry in order (filter object, raw value, raw default, None or nothing) and binds every given filter to its value |
| Search.FindArgument | publications_microservice/namespaces/publications.py:326-329 | the search of the parser's arguments finds the first one with the name, or reports that none has it |
| Search.ComposeFailureSticks | publications_microservice/namespaces/publications.py:320-331 | once a prefix of the fold fails, the whole fold fails |
| Search.Fold | publications_microservice/namespaces/publications.py:320-331 | the loop over the parsed items yields the left-to-right composition of their steps: a stored filter or a re-typed raw default narrows the query, and a raw float crashes |
| Search.FoldFixed | publications_microservice/namespaces/publications.py:320-331 | the corrected loop yields the composition of the corrected steps, in which a raw value whose type is not a filter is skipped |
| Search.GeoParsed | publications_microservice/namespaces/publications.py:311-316 | a request that parsed and passed the triple check has numeric values for whichever of latitude, longitude and max_distance it gives |
| Search.GeoParams | publications_microservice/namespaces/publications.py:311-313 | reads the stored latitude, longitude and max_distance: the given value or None |
| Search.AddDistance | publications_microservice/namespaces/publications.py:333-340 | a truthy (non-zero) max_distance adds `Within(POINT(lat lon), max_distance * 1000)`; otherwise the query is unchanged |
| Search.Get | publications_microservice/namespaces/publications.py:308-341 | the handler as written returns exactly `Expected`: BadRequest on a parse failure, then DistanceFilterMissingParameters, then AttributeError from the fold, else the rows of the composed query |
| Search.GetFixed | publications_microservice/namespaces/publications.py:308-341 | the handler with the corrected fold returns exactly `ExpectedFixed` |
| SearchProperties.ComposeWithoutCrash | publications_microservice/namespaces/publications.py:320-331 | without a failing step the fold succeeds, and its constraints are exactly those of the narrowing steps |
| SearchProperties.ComposeCrash | publications_microservice/namespaces/publications.py:320-331 | one failing step makes the whole fold fail |
| SearchProperties.NarrowedHolds | publications_microservice/namespaces/publications.py:320-331 | a row satisfies the folded constraints iff every step admits it |
| SearchProperties.LowerBoundMeaning | publications_microservice/namespaces/publications.py:183-208 | a given `>=` argument admits exactly the rows whose column is non-NULL and at least the value; an absent one admits all |
| SearchProperties.UpperBoundMeaning | publications_microservice/namespaces/publications.py:209-216 | a given `<=` argument admits exactly the rows whose column is non-NULL and at most the value |
| SearchProperties.NumericStepsMeaning | publications_microservice/namespaces/publications.py:183-216 | bathrooms, rooms, beds and price_per_night_min are lower bounds and price_per_night_max an upper bound on their columns |
| SearchProperties.EqualityStepsMeaning | publications_microservice/namespaces/publications.py:217-240 | user_id and blockchain_transaction_hash select equal columns; blockchain_status selects the given status or CONFIRMED; starring_user_id keeps a publication iff one of its star rows has that user |
| SearchProperties.OtherStepsMeaning | publications_microservice/namespaces/publications.py:241-279 | the float arguments add no constraint under the corrected fold; filter_blocked "true" (given or defaulted) keeps only rows with `blocked == False`, and any other string adds nothing |
| SearchProperties.FixedStepsMeaning | publications_microservice/namespaces/publications.py:183-279 | the corrected steps admit a row iff it answers every filter argument (`FieldsMatch`) |
| SearchProperties.DistanceTripleChecked | publications_microservice/namespaces/publications.py:311-316 | in both handlers, DistanceFilterMissingParameters is raised iff the request parses and gives one or two, not zero or three, of latitude/longitude/max_distance; it precedes every filter |
| SearchProperties.ListingFixedMembership | publications_microservice/namespaces/publications.py:318-341 | a request that parses and passes the triple check succeeds; a publication is returned iff it is in the table, answers every filter and is within max_distance km when that is truthy; the result is a sub-multiset of the table |
| SearchProperties.ZeroDistanceAddsNothing | publications_microservice/namespaces/publications.py:333-340 | under the corrected fold, max_distance 0 with both coordinates passes validation and adds no distance constraint (as written, that request ends in AttributeError, see DistanceSearchFails) |
| SearchProperties.FixAgreesWithoutDistance | publications_microservice/namespaces/publications.py:320-331 | without distance arguments the handler as written and the corrected one give the same outcome |
| SearchProperties.DistanceSearchFails | publications_microservice/namespaces/publications.py:326-331 | as written, every request that parses, passes the triple check and gives the distance arguments ends with AttributeError, status 500 |
| SearchProperties.DistanceSearchExample | publications_microservice/namespaces/publications.py:326-331 | the request latitude=-34.6, longitude=-58.4, max_distance=5 ends with AttributeError as written |
| SearchProperties.ListingMembership | publications_microservice/namespaces/publications.py:308-341 | as written, the listing succeeds iff the request parses and gives no distance argument, and then returns exactly the table's publications that answer every filter |
| SearchProperties.OmittedDefaultIsExplicit | publications_microservice/namespaces/publications.py:223-279 | for both handlers, omitting blockchain_status or filter_blocked is the same as passing its default |
| SearchProperties.OmittedStatusIsConfirmed | publications_microservice/namespaces/publications.py:223-228 | omitting blockchain_status behaves exactly as passing CONFIRMED |
| SearchProperties.OmittedBlockedFilterExcludesBlocked | publications_microservice/namespaces/publications.py:261-279 | omitting filter_blocked behaves as "true": blocked publications, and those with a NULL blocked column, are not listed |
| SearchProperties.UnknownArgumentIgnored | publications_microservice/namespaces/publications.py:310 | a request key that names no registered argument changes neither handler's outcome |
| QuestionController.ValidatePublication | publications_microservice/controllers/questions.py:10-16 | raises PublicationDoesNotExist iff the id is missing, BlockedPublication iff it exists and is blocked, and returns normally iff it exists unblocked; existence is checked first |
| Store.GetPublication | publications_microservice/namespaces/publications.py:352-359 | raises PublicationDoesNotExist (404) iff missing, returns 403 iff blocked, else 200 with the stored publication |
| Store.Replaced | publications_microservice/namespaces/publications.py:374-388 | every key of the body is written: the declared fields (a given user_id, title, description, counts, price, images, location) and the undeclared column keys (id, blocked, the blockchain fields), absent ones keeping the row's value; a blockchain_status string naming no member fails with a statement error, and only then |
| Store.Stored | publications_microservice/namespaces/publications.py:388-390 | after the commit the row is found under its own, possibly new, key, the old key is gone when it changed, and every other row is kept |
| Store.PutPublication | publications_microservice/namespaces/publications.py:366-391 | missing raises PublicationDoesNotExist, blocked returns 403, an unstorable status a statement error, a CHECK violation or an id rewrite onto a taken or still referenced key an IntegrityError, all with no change; 200 iff none of these, and then only that row changes |
| Store.Patched | publications_microservice/namespaces/publications.py:405-407 | every key of the body is written: the declared blockchain fields and the undeclared id, user_id, title, description, counts, price and blocked, absent ones keeping the row's value; a null user_id violates NOT NULL, and only that fails |
| Store.PatchPublication | publications_microservice/namespaces/publications.py:397-410 | PublicationDoesNotExist iff missing, BlockedPublication iff blocked; 200 iff the publication exists unblocked and its patched row can be committed, any other outcome being IntegrityError; a failure changes nothing, a success only the patched row |
| Store.BlockPublication | publications_microservice/namespaces/publications.py:414-424 | PublicationDoesNotExist iff missing, BlockedPublication iff already blocked, both with no change; else only `blocked` of that row becomes true |
| Store.StarPublication | publications_microservice/namespaces/publications.py:450-464 | the guards run before the user id is parsed; 200 iff the publication exists unblocked and a user id is given, and then exactly one row (user, publication, now) is appended, with no uniqueness check |
| Store.FirstStar | publications_microservice/namespaces/publications.py:473-476 | finds the first star row of that publication and user, or reports that none exists |
| Store.UnstarPublication | publications_microservice/namespaces/publications.py:470-486 | a missing user id is a 400 BadRequest; without a matching row 400 with no change; else exactly one matching row is removed and nothing else changes |
| Store.Starrings | publications_microservice/namespaces/publications.py:493-503 | a star row is listed iff it belongs to the publication and, when user_id is given, to that user, and each such row as many times as the table holds it; no other row is listed |
| Store.CreateQuestion | publications_microservice/namespaces/questions.py:72-80 | a guard failure is raised with no change; after it, a body `publication_id` is a TypeError with no change; else the question is created iff its id (the body's, or else the sequence's next value) is untaken, with the text, user, path publication and the body's reply, and an IntegrityError otherwise; the sequence is drawn from iff the body gives no id |
| Store.FindQuestion | publications_microservice/namespaces/questions.py:96-99 | finds the first question matching both the question id and the publication id, or reports that none does |
| Store.ReplyQuestion | publications_microservice/namespaces/questions.py:93-106 | the guard runs before the lookup; no match gives 404 with no change; else only that question's reply and reply time are set |
| StoreProperties.StoredPreservesValid | publications_microservice/namespaces/publications.py:388-390 | committing a storable row keeps the table invariants, also when it moves to a new key |
| StoreProperties.PutPreservesValid | publications_microservice/models.py:15-27 | a put keeps every stored row within the CHECK constraints (rooms, beds, bathrooms >= 0, price > 0) and keeps the other table invariants |
| StoreProperties.PatchPreservesValid | publications_microservice/namespaces/publications.py:397-410 | a patch keeps the table invariants |
| StoreProperties.BlockPreservesValid | publications_microservice/namespaces/publications.py:414-424 | a block keeps the table invariants |
| StoreProperties.StarPreservesValid | publications_microservice/namespaces/publications.py:450-464 | a star keeps the table invariants (every star row references a publication) |
| StoreProperties.UnstarPreservesValid | publications_microservice/namespaces/publications.py:470-486 | an unstar keeps the table invariants |
| StoreProperties.CreateQuestionPreservesValid | publications_microservice/namespaces/questions.py:72-80 | question creation, whatever the body, keeps question ids unique and every foreign key in place |
| StoreProperties.DefaultIdIsFree | publications_microservice/namespaces/questions.py:72-80 | while every question id lies below the sequence, a body without an id or `publication_id` creates its question iff the guard passes, and the sequence stays ahead |
| StoreProperties.ExplicitIdCollidesOnce | publications_microservice/namespaces/questions.py:77-79 | a body taking the sequence's next value as its id is created, the next body without an id then fails on the primary key, and the one after it is created |
| StoreProperties.ReplyQuestionPreservesValid | publications_microservice/namespaces/questions.py:93-106 | a reply keeps the table invariants |
| StoreProperties.PutDeclaredKeysOnly | publications_microservice/namespaces/publications.py:366-391 | a PUT body with only the declared keys succeeds iff the replaced row passes the CHECKs, and then keeps the row's key, blocked flag and blockchain fields |
| StoreProperties.PatchDeclaredKeysOnly | publications_microservice/namespaces/publications.py:397-410 | a PATCH body with only the declared keys always gets 200 on an existing unblocked publication and changes nothing but its blockchain fields |
| StoreProperties.PatchBodyBlocks | publications_microservice/namespaces/publications.py:405-407 | a successful PATCH whose body carries `blocked: true` leaves the publication blocked, so GET then answers 403 |
| StoreProperties.PutBodyBlocks | publications_microservice/namespaces/publications.py:384-390 | the same for a PUT body carrying `blocked: true` |
| StoreProperties.PatchNewKey | publications_microservice/namespaces/publications.py:405-409 | a PATCH body giving only a new id succeeds iff that key is free and no star or question row refers to the old one; then the old id is no longer found and the row is served under the new one |
| StoreProperties.GuardsAgree | publications_microservice/controllers/questions.py:10-16 | GET serves a publication iff the question guard lets it through, and both report a missing one |
| StoreProperties.BlockedIsRefused | publications_microservice/namespaces/publications.py:414-424 | after a block succeeds, GET and PUT give 403, and block, patch, star, question creation and reply raise BlockedPublication, all with no change |
| StoreProperties.StarThenUnstar | publications_microservice/namespaces/publications.py:450-486 | star then unstar by the same user succeeds, restores the star count and keeps the multiplicity of every row of another user or publication |
| StoreProperties.UnstarWithoutStar | publications_microservice/namespaces/publications.py:477-483 | unstarring without a matching row gives 400 and no change |
| StoreProperties.CreateThenReply | publications_microservice/namespaces/questions.py:72-106 | a question just created is found by its id on its publication, and replying to it sets exactly its reply and reply time |
| StoreProperties.ReplyTouchesOneQuestion | publications_microservice/namespaces/questions.py:102-103 | a reply keeps every other question, every other table and every other field of the replied question |
| Tables.Database.Get | publications_microservice/namespaces/publications.py:352-359 | returns exactly `GetPublication` of the current tables |
| Tables.Database.Put | publications_microservice/namespaces/publications.py:366-391 | the response and new tables are `PutPublication` of the old ones (the image rows rebuilt one by one, the body's keys written one by one); the invariants are kept |
| Tables.Database.Patch | publications_microservice/namespaces/publications.py:397-410 | the response and new tables are `PatchPublication` of the old ones (the body's keys written one by one); the invariants are kept |
| Tables.Database.Block | publications_microservice/namespaces/publications.py:414-424 | the response and new tables are `BlockPublication` of the old ones; the invariants are kept |
| Tables.Database.Star | publications_microservice/namespaces/publications.py:450-464 | the response and new tables are `StarPublication` of the old ones; the invariants are kept |
| Tables.Database.Unstar | publications_microservice/namespaces/publications.py:470-486 | the response and new tables are `UnstarPublication` of the old ones; the invariants are kept |
| Tables.Database.AddQuestion | publications_microservice/namespaces/questions.py:72-80 | for every body, the response and new tables are `CreateQuestion` of the old ones; the invariants are kept |
| Tables.Database.Reply | publications_microservice/namespaces/questions.py:93-106 | the response and new tables are `ReplyQuestion` of the old ones; the invariants are kept |
| Metrics.Pad | publications_microservice/namespaces/metrics/controller.py:23-35 | the loop from start to end and the sort return exactly `Padded`: the input plus the zero points of the missing days, sorted by date |
| Metrics.DataMap | publications_microservice/namespaces/metrics/controller.py:38-39 | one point per row, in order, with the row's date and value |
| Metrics.PrepareMetric | publications_microservice/namespaces/metrics/controller.py:42-56 | the series is named `name` and its data is the padded data map of the query's rows |
| Metrics.SortByDateFacts | publications_microservice/namespaces/metrics/controller.py:33 | the sort by date is a permutation, its result is sorted, and it is stable: each day's points keep their order |
| Metrics.GapFacts | publications_microservice/namespaces/metrics/controller.py:28-31 | the appended points are exactly the zero points of the days in range missing from the dates, at most one per day |
| Metrics.PaddedSortedPermutation | publications_microservice/namespaces/metrics/controller.py:23-35 | the result is sorted by date and is, as a multiset, the input plus the added points: every original point is kept, including those outside the range |
| Metrics.GapMeaning | publications_microservice/namespaces/metrics/controller.py:24-31 | a point is added iff it has value 0, a day in [start, end], and that day has no input point |
| Metrics.PaddedKeepsPresentDays | publications_microservice/namespaces/metrics/controller.py:24-33 | a day already present keeps exactly its own points, in their order; no zero is added for it |
| Metrics.PaddedFillsMissingDays | publications_microservice/namespaces/metrics/controller.py:28-33 | a day of the range without a point gets exactly one point, valued 0 |
| Metrics.PaddedEmptyRange | publications_microservice/namespaces/metrics/controller.py:28 | with start > end nothing is added and the result is the sorted input |
| Metrics.PaddedCovers | publications_microservice/namespaces/metrics/controller.py:26-31 | every day of [start, end] has a point in the result |
| Dialect.ReplaceAllWithout | publications_microservice/app.py:25 | replacing in a string where the pattern does not occur leaves it unchanged |
| Dialect.ReplaceAllLeading | publications_microservice/app.py:25 | a leading occurrence is replaced and the scan continues right after it |
| Dialect.TwoOccurrences | publications_microservice/app.py:25 | two occurrences are both replaced, not only the first, when the text after each contains no character that can start the pattern |
| Dialect.EveryOccurrence | publications_microservice/app.py:23-25 | a URL with the Heroku scheme twice, its other text free of 'p', gets `postgresql+psycopg2://` at both places and its text unchanged |
| Dialect.EveryPostgresqlOccurrence | publications_microservice/app.py:25 | a URL with `postgresql://` twice, its other text free of 'p', gets the driver named at both places and its text unchanged |
| Dialect.CopiedPrefix | publications_microservice/app.py:25 | as long as the output of a replace-all holds no character that starts the pattern, it is the input copied |
| Dialect.NoOccurrenceLeft | publications_microservice/app.py:25 | for any input, a replace-all leaves no occurrence of the pattern, neither a surviving nor a newly formed one, when the pattern's first character occurs in it once, the replacement starts with it, and no occurrence can start inside the replacement |
| Dialect.DriverSchemeClashes | publications_microservice/app.py:25 | no occurrence of "postgresql://" can start at any position of "postgresql+psycopg2://" |
| Dialect.SchemeClashes | publications_microservice/app.py:24 | no occurrence of "postgres://" can start at any position of "postgresql://" |
| Dialect.NoHerokuLeftAfterRename | publications_microservice/app.py:23-24 | for any input, the renaming step leaves no "postgres://" anywhere |
| Dialect.NoPostgresqlLeft | publications_microservice/app.py:22-26 | for any input, the fixed URL contains no "postgresql://" at all: every occurrence is rewritten and none is created |
| Dialect.HerokuScheme | publications_microservice/app.py:23-25 | any input starting with "postgres://" ends up starting with "postgresql+psycopg2://" |
| Dialect.PostgresqlScheme | publications_microservice/app.py:25 | any input starting with "postgresql://" ends up starting with "postgresql+psycopg2://" |
| Dialect.HerokuUrl | publications_microservice/app.py:22-26 | "postgres://" followed by text free of both schemes becomes "postgresql+psycopg2://" and the same text |
| Dialect.PostgresqlUrl | publications_microservice/app.py:22-26 | "postgresql://" followed by text free of it becomes "postgresql+psycopg2://" and the same text |
| Dialect.OtherUrl | publications_microservice/app.py:22-26 | an input neither starting with "postgres://" nor containing "postgresql://", such as the SQLite default, is returned unchanged |

## Left out

- Flask/flask-restx wiring is not modelled: routing, marshalling models, payload validation and error-handler registration. Only the status codes are kept, as `Response` and `Models.StatusOf`.
- The SQL engine is abstract. A query is a list of constraints evaluated over a sequence of rows. Spatial functions are the parameter `dist`; `ST_DWithin` is taken as inclusive.
- The database's coercion of request strings to column types is not modelled. Request values are typed (`Num`, `Text`, `Flag`), and `>=`/`<=` against a non-number matches nothing. In the source, a request string that PostgreSQL cannot cast to the column's type, such as `?rooms=abc` or `?blockchain_status=FOO` against the enum column, makes the query raise a DataError, which the generic handler answers with 500; the model answers 200 with no matching row. The listing leaves that error out because the cast happens inside the database, on the SQL text of the comparison, whose rules are not part of this model; a PUT body's unknown enum string is different, since SQLAlchemy's own enum type rejects it before any SQL is sent, and that is modelled as `StatementError`.
- Creating a publication (`POST /publications`) is left out, because the defaults of the publication table's other columns are not part of this model.
- Building the WKT `POINT(...)` string from floats is float formatting, not modelled. The stored location is the payload's point.
- Image rows: ids and foreign keys are not modelled. A publication holds its image URLs.
- `isodate` (`date.fromisoformat`) is not modelled. Dates are integer day numbers, and `data_map` takes them as they come.
- `new_publications_per_day` is not modelled: it is an SQL `group_by` over `func.date`. `prepare_metric` takes the query's rows as a parameter.
- Metrics.Pad: in Python the caller's list also gains the appended zero points. The model returns the result and does not model that aliasing; `prepare_metric`'s own list is the only caller.
- Sharing the module-level `FilterParam` objects across concurrent requests is not modelled. Each request binds them afresh.
- Utils.OpRepr: the repr of `conditional_filter` includes a memory address, which is not modelled.
- Row order: `query.all()` has no ORDER BY, so the listing, the starrings, unstar's `.first()` and the question lookup may see rows in any order. The model uses table order throughout; Queries.Run and Queries.RunWithoutConstraints promise that order, which the database does not.
- Times (`created_at`, `replied_at`) are the parameter `now`.
- Python floats (latitude, longitude, max_distance, price_per_night) are reals, so rounding is not modelled, including in the radius `max_distance * 1000`.
- Queries.StarUsers: `apply` uses `getattr` on the model, and no code in the modelled files resolves the dotted `stars.user_id`. The model reads the filter as holding when any star row has the user; that reading is a choice, not taken from the source.
- `update_from_dict` is not part of this model: `models.py` does not define it. The model assumes it writes every key of the body that names a column of the publication table, as its name and its call with `**data` say.
- Store.Replaced, Store.Patched: body keys that name no column, or a relationship (`questions`, `stars`, `publication_date`, and `images` or `loc` in a PATCH body), are not modelled, nor are undeclared values of the wrong JSON type for their column (a string for rooms, null for id).
- Store.CreateQuestion: the undeclared `created_at` and `replied_at` keys of a question body are not modelled (their strings would need a date parser); the creation time is `now` and the reply time None. Nor are values of the wrong JSON type for `id` or `reply`. The id sequence is PostgreSQL's, which a failed insert does not roll back; SQLite's choice of the largest rowid plus one is not modelled.
- Store.Storable: when a body rewrites the id, the foreign keys of the image rows are not modelled; only the star and question rows hold the old key back.
- Utils.FilterParam.constructor: as written, `__init__` at `utils.py:7-10` accepts only `name` and `op`, so the `attribute=`, `schema=` and `transform=` keywords passed at `publications.py:203-205`, `:211-213`, `:225`, `:231`, `:237` and `:270-276` would raise TypeError when the module is imported. The model follows the call sites' evident intent and does not model that import-time failure.
- Utils.FilterParam.Apply: as written, `apply` at `utils.py:16-17` compares `getattr(model, self.name)` with the raw `val` and has no attribute or transform. The model applies the transform to the value and looks up the attribute, which defaults to the name, as the call sites intend; for every filter without `attribute=` or `transform=` the two agree.
- Repeated query keys such as `?rooms=1&rooms=3` are not modelled: the request is a map from argument name to one value. In the source each occurrence rebinds the one shared filter object, so the last value wins.
- `float("nan")`, `float("inf")` and the like parse in Python, but the model's reals have no such values, so it answers BadRequest for them.
- Debug `print` calls are not modelled.
- The token controller, `create_app`, `load_spatialite` and the migrations are not modelled.

## Findings

| source | as written | input that shows it | evidently intended | confidence | as-written member | corrected member |
|---|---|---|---|---|---|---|
| publications_microservice/namespaces/publications.py:326-331 | a stored latitude, longitude or max_distance is not a filter object; it is re-typed through `float` and then has `.apply` called on it, which raises AttributeError (500) | `GET /publications?latitude=-34.6&longitude=-58.4&max_distance=5` | the distance arguments are used only by the distance predicate: skip raw values whose type is not a filter, as the starrings handler of the same file does | not executed | SearchProperties.DistanceSearchFails | SearchProperties.ListingFixedMembership |
