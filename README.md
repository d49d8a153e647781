# CalendarIT calendar pipeline: a Dafny model

This project models the core of CalendarIT's calendar integration
(`backend/yet_another_calendar/web/api/bulk/integration.py`). CalendarIT merges the
class schedules of two platforms, Netology (webinars) and Modeus (lessons),
into one calendar. The model covers four parts:

- **Aggregation** (`aggregation.dfy`, module `Aggregation`). `get_calendar` joins
  the two source fetches all-or-nothing into one snapshot. The fetchers are
  opaque, so their outcomes are inputs: `None` means that fetcher raised.
- **Export** (`export.dfy`, module `IcsExport`). `export_to_ics` and
  `create_ics_event` turn a snapshot into an iCalendar document, following
  the VEVENT properties of section 3.6.1 of RFC 5545. The document is kept as a list of entry
  records. `ExportToIcs` is the exporter, written as the source's two loops
  that add one event per exportable webinar and one per lesson. It is proved
  equal to the reference definition `Export`. Lemmas about `Export` state the
  skip rule, the entry count, the order and the field mapping.
- **Cache-aside read and refresh** (`cache.dfy`, module `EventCache`). The
  class `CalendarCache` holds the backend as a `map` from keys to snapshots.
  It also holds the key prefix and the digest the key builder applies. Its
  methods are:
  - `GetCachedCalendar`: `get_cached_calendar` behind its `@cache` decorator.
  - `RefreshEvents`: `refresh_events`.

  Each method is proved against a function, `CachedRead` or `RefreshSpec`,
  that gives the new map and the result. Lemmas about those functions cover
  write-through, change detection and key agreement.
- **Shared values** (`types.dfy`, module `CalendarTypes`): webinars, lessons,
  snapshots, request arguments and error kinds with their HTTP status class.

The environment is passed in as parameters:

- the timezone database is a set of zone names;
- the clock reading used for `dtstamp` is an `Instant`;
- the snapshot hash (`get_hash`) is a function `Snapshot -> string`;
- the md5 digest used by the key builder is a function `Request -> string`;
- whether each backend `get`/`set` call goes through is a `bool`.

A refresh with nothing cached might be expected to fail with a "cache
miss" error. The code does not do that: it reads through the cache
decorator, so on a miss it fetches, stores and goes on. The model follows
the code.

## Model

| member | source | states |
|---|---|---|
| `CalendarTypes.StatusCode` | backend/yet_another_calendar/web/api/bulk/integration.py:43-99 | every error kind maps to an HTTP error status; only a wrong timezone (the 400 raised at line 43) is a client error; the failed cache overwrite (the 500 raised at line 85) and an upstream failure escaping the task group (lines 97-99) are server errors |
| `Aggregation.GetCalendar` | backend/yet_another_calendar/web/api/bulk/integration.py:91-102 | a snapshot exists exactly when both fetches succeed, and it holds exactly the two fetched collections; otherwise the error is an upstream failure and no partial snapshot exists |
| `IcsExport.CreateIcsEvent` | backend/yet_another_calendar/web/api/bulk/integration.py:23-36 | summary, uid and location are the given values; start and end are the same instants expressed in the target zone, and the stamp is the clock reading in UTC; a description is present exactly when the given one is present and non-empty, and then equals it |
| `IcsExport.NetologyEntry` | backend/yet_another_calendar/web/api/bulk/integration.py:51-53 | a webinar entry has summary "Netology: " + title, uid the decimal text of the webinar id, location the webinar URL, no description, and the webinar's start and end in the target zone |
| `IcsExport.ModeusEntry` | backend/yet_another_calendar/web/api/bulk/integration.py:56-59 | a lesson entry has summary "Modeus: " + name, uid the lesson id as given, no location, the lesson's times in the target zone, and the lesson description exactly when it is present and non-empty |
| `IcsExport.Export` | backend/yet_another_calendar/web/api/bulk/integration.py:39-46 | export fails exactly when the zone name is unknown, and then with the wrong-timezone error (status 400) whatever the snapshot holds; a document always has version "2.0" and product id "yet_another_calendar" |
| `IcsExport.ExportToIcs` | backend/yet_another_calendar/web/api/bulk/integration.py:39-61 | the imperative exporter (zone check, loop over webinars skipping those missing a time, loop over lessons) produces exactly the document `Export` defines |
| `IcsExport.NetologyEntriesAppend` | backend/yet_another_calendar/web/api/bulk/integration.py:48-54 | the webinar loop is compositional: the entries of a concatenated list are the entries of each part, in order |
| `IcsExport.WebinarContribution` | backend/yet_another_calendar/web/api/bulk/integration.py:48-54 | each webinar contributes, between the entries of the webinars before and after it, exactly one entry when it has both times and none when either is missing |
| `IcsExport.NetologyEntriesCount` | backend/yet_another_calendar/web/api/bulk/integration.py:48-54 | the number of Netology entries equals the number of webinars that have both a start and an end |
| `IcsExport.NetologyEntryPosition` | backend/yet_another_calendar/web/api/bulk/integration.py:48-54 | the entry of an exportable webinar stands at the index equal to the number of exportable webinars before it (input order is kept) |
| `IcsExport.NetologyEntryOrigin` | backend/yet_another_calendar/web/api/bulk/integration.py:48-54 | every Netology entry is the entry of some webinar of the input that has both times |
| `IcsExport.ModeusEntriesAt` | backend/yet_another_calendar/web/api/bulk/integration.py:55-60 | every lesson gives exactly one entry, with no filtering, at its own index |
| `IcsExport.ExportLayout` | backend/yet_another_calendar/web/api/bulk/integration.py:48-61 | with a known zone, the entry count is the number of webinars with both times plus the number of lessons; all entries summarised "Netology: …" come first, then the lesson entries in input order |
| `IcsExport.IdTextInjective` | backend/yet_another_calendar/web/api/bulk/integration.py:33 | the `uid` text of a webinar determines its id: two webinars with different ids never share a `uid` |
| `IcsExport.SharedUidAcrossSources` | backend/yet_another_calendar/web/api/bulk/integration.py:33 | the `uid` carries no source tag: a webinar with id 5 and a lesson with id "5" get the same `uid` "5" |
| `IcsExport.TwoSourceScenario` | backend/yet_another_calendar/web/api/bulk/integration.py:39-61 | one timed webinar "Math" and one lesson "Physics" exported in "UTC" give exactly two entries, "Netology: Math" then "Modeus: Physics" |
| `EventCache.RefreshKeyIsDecoratorKey` | backend/yet_another_calendar/web/api/bulk/integration.py:76-80 | the key refresh writes (the prefix joined with the key builder's key for the four arguments) is the key the cache decorator reads and fills |
| `EventCache.DecoratorKeyInjective` | backend/yet_another_calendar/web/api/bulk/integration.py:105-112 | with an injective digest, two different argument tuples never share a cache entry |
| `EventCache.CachedRead` | backend/yet_another_calendar/web/api/bulk/integration.py:105-112 | a hit returns the stored snapshot and changes nothing; a miss or a failed read returns the aggregated fetch; the only possible change is storing the returned value at the key; it is stored whenever the write goes through, and a write that fails leaves the map unchanged |
| `EventCache.CachedReadSettles` | backend/yet_another_calendar/web/api/bulk/integration.py:105-112 | after a read whose value the backend stored, the next read of that key returns the same value without consulting the sources and changes nothing |
| `EventCache.RefreshSpec` | backend/yet_another_calendar/web/api/bulk/integration.py:64-88 | refresh succeeds exactly when the read-through, the fresh fetch and the write all succeed; it then returns the fresh snapshot with `changed` true exactly when the two hashes differ, and the entry holds the fresh snapshot; a failed read-through or fresh fetch gives the upstream-failure error, and a failed write gives the distinct 500 refresh error; no failure writes anything beyond the read-through fill |
| `EventCache.RefreshThenRead` | backend/yet_another_calendar/web/api/bulk/integration.py:76-82 | after a successful refresh, the cached reader for the same four arguments returns the fresh snapshot |
| `EventCache.ChangeDetection` | backend/yet_another_calendar/web/api/bulk/integration.py:71-74 | with a collision-free hash, `changed` is true exactly when the fresh snapshot differs from the one read through the cache |
| `EventCache.CalendarCache.BackendGet` | backend/yet_another_calendar/web/api/bulk/integration.py:105 | the backend read returns the stored snapshot exactly when the key is present and the read goes through |
| `EventCache.CalendarCache.BackendSet` | backend/yet_another_calendar/web/api/bulk/integration.py:79-82 | the backend write overwrites the entry when it goes through, leaves the map unchanged otherwise, and reports which happened |
| `EventCache.CalendarCache.GetCachedCalendar` | backend/yet_another_calendar/web/api/bulk/integration.py:105-112 | the new map and the result are those `CachedRead` gives for the decorator's key |
| `EventCache.CalendarCache.RefreshEvents` | backend/yet_another_calendar/web/api/bulk/integration.py:64-88 | the new map and the result are those `RefreshSpec` gives; on success the entry the cached reader uses holds the returned snapshot |

## Left out

- The concurrency of the task group (lines 97-99). The two fetches are modelled as two outcomes joined all-or-nothing. Cancellation of the sibling task and the exception group's contents are not modelled; every failure is one upstream-failure kind.
- The fetchers and the HTTP calls behind them are not part of this model. Their outcomes are inputs.
- The Redis backend, the FastAPI cache coder and the time-to-live are left out. The backend is an in-memory map, and a backend call that raises is a `false` input. Entries never expire, and snapshots are stored as values, not as serialised bytes.
- RefreshKeyIsDecoratorKey: assumes the cache decorator's prefix is the configured `redis_prefix` and its key builder is `default_key_builder`, which refresh calls directly at line 76. The initialisation of the cache library that sets both is not part of this model.
- The md5 digest in the key builder is an input function. It covers the function name and its arguments. Injectivity is assumed only where a lemma says so.
- The timezone database is a set of zone names. `astimezone` keeps the instant and records the zone name; offset arithmetic and naive datetimes are not modelled.
- CreateIcsEvent: the source reads the clock once per event for `dtstamp`. The model uses one clock reading, `now`, for the whole export.
- `export_to_ics` is a generator (the `yield` at line 61), so nothing in it, the timezone check included, runs until the caller iterates it. ExportToIcs models one eager run of that body: the 400 is raised at call time rather than at first iteration.
- The `to_ical` serialisation to bytes is left out. The document is a list of entry records. How the library renders a location of `None` is not modelled either; the entry keeps `None`.
- `get_hash` and the pydantic validation live in a schema module that is not part of this model. The hash is an input function, and `model_validate`/`model_dump` round trips are treated as the identity.
- Logging and the HTTP exception plumbing are left out. Only the error kind and its status class remain.
- Races between concurrent refreshes of the same key are not modelled. Each operation is one atomic step on the map.
- `backend/app/controllers/home.py` is entirely commented out, and `backend/app/auth.py` is an empty stub, so neither has behaviour to model.
