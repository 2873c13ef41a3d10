# Disaster early mark — verified model of the core

This project models, in Dafny, the core of an earthquake early-warning web
application for Indonesia. It has three parts.

- **Ingestion.** A server service polls three BMKG (Badan Meteorologi,
  Klimatologi, dan Geofisika) feeds. These are the latest earthquake, the
  recent M5+ earthquakes and the felt earthquakes. Each record is normalised
  into a row, and rows are upserted by a generated event id. One log entry is
  written per feed per cycle.
- **Query routes.** These are the HTTP routes over the stored rows:
  - the paginated list;
  - the latest earthquake;
  - earthquakes near a position, with rounded distance and nearest first;
  - statistics with a four-band magnitude histogram;
  - lookup by id.
- **Client.** The browser side has three pieces:
  - the polling hook that applies the time filter, detects new earthquakes
    and decides which deserve an alert;
  - the notification service, with its local-storage ledger of the last 100
    notified ids;
  - the location store and the two location forms.

  It also covers the magnitude classifiers of the sidebar and the map.

Modules:

| file | module | what it holds |
|---|---|---|
| `wrappers.dfy` | `Wrappers` | `Option` and `Result` |
| `seqs.dfy` | `Seqs` | stable filter and stable insertion sort with their laws; subsequences |
| `types.dfy` | `Types` | `Earthquake`, `UserLocation`, `TimeFilter`, thrown values |
| `magnitude_bands.dfy` | `MagnitudeBands` | the shared `<5 / 5-6 / 6-7 / 7+` band of a magnitude |
| `bmkg_service.dfy` | `BmkgService` | record normalisation, the upsert store, fetch logs, the `Database` class and the fetch methods |
| `earthquake_routes.dfy` | `EarthquakeRoutes` | the five query handlers over a `Store` value |
| `notifications.dfy` | `Notifications` | the notified-id ledger and sending, as functions and as the `NotificationCenter` class |
| `geolocation.dfy` | `Geolocation` | the `LocationStorage` class (a local-storage slot) |
| `use_earthquakes.dfy` | `UseEarthquakes` | time filter, alert selection, one poll, the `EarthquakeFeed` class |
| `location_validation.dfy` | `LocationValidation` | the coordinate checks shared by both forms |
| `location_settings.dfy` | `LocationSettings` | the settings dialog's state and handlers |
| `location_setup.dfy` | `LocationSetup` | the first-run setup form's state and handlers |
| `sidebar.dfy` | `Sidebar` | badge class and "time ago" label |
| `map_view.dfy` | `MapView` | marker colour, marker radius, pulse, map centre |

Outside effects are parameters. The model takes each of these as an input:

- the HTTP response of each BMKG request (`HttpOutcome`);
- the database's schema check (`violatesSchema`);
- the Supabase query result (`Store`);
- the distance function;
- `parseFloat` and number-to-text conversion;
- the fetch done by the hook;
- the notification permission;
- the geolocation result.

The clock is the parameter pair `now`/`todayStart`. Objects that the source
updates in place are classes: the database, the notification ledger, location
storage, the hook's state and the two forms. Everything else is a function.

## Model

| member | source | states |
|---|---|---|
| `BmkgService.SplitComma` | server/src/services/bmkgService.ts:34-36 | splitting on "," gives at least one part and no part contains a comma |
| `BmkgService.JoinSplitComma` | server/src/services/bmkgService.ts:34-36 | joining the parts of a split with "," gives back the original text |
| `BmkgService.SplitAtFirstComma` | server/src/services/bmkgService.ts:34-36 | for `lat,rest` with a comma-free `lat`, the first part is `lat` |
| `BmkgService.SplitWithoutComma` | server/src/services/bmkgService.ts:34-36 | text without a comma splits into itself alone |
| `BmkgService.FindFrom` | server/src/services/bmkgService.ts:40 | returns the first position at or after `from` where the pattern occurs, or none when it occurs nowhere after `from` |
| `BmkgService.RemoveFirst` | server/src/services/bmkgService.ts:40 | string `replace` removes only the first occurrence, and leaves text without one unchanged |
| `BmkgService.DepthUnitRemoved` | server/src/services/bmkgService.ts:40 | a depth written as `d km` becomes `d` once " km" is removed |
| `BmkgService.ReplaceSeparators` | server/src/services/bmkgService.ts:43-46 | every ':' and whitespace character becomes '_' in place; other characters are kept; none remain |
| `BmkgService.EventId` | server/src/services/bmkgService.ts:43-46 | the event id contains no ':' and no whitespace, and its length is that of the three joined parts plus two separators |
| `BmkgService.Present` | server/src/services/bmkgService.ts:68-70 | an optional field is stored only when it is present and non-empty (the `|| null` of the source) |
| `BmkgService.Normalize` | server/src/services/bmkgService.ts:31-71 | a record without coordinates or depth is rejected with the field named; otherwise latitude is parseFloat of the text before the first comma and longitude that of the second part (NaN when there is none); the row also carries the parsed magnitude and depth, the generated id, the parsed timestamp, the date and region, tsunami potential and felt status kept only when non-empty, and the shakemap URL under the BMKG base URL |
| `BmkgService.CoordinatesParsed` | server/src/services/bmkgService.ts:34-36 | "lat,lon" yields latitude parseFloat(lat) and longitude parseFloat(lon) |
| `BmkgService.WellFormedRecord` | server/src/services/bmkgService.ts:34-50 | a well-formed record normalises successfully, with its coordinates and its depth stripped of " km" |
| `BmkgService.Ingest` | server/src/services/bmkgService.ts:53-76 | a failed parse or a schema violation leaves the table unchanged; otherwise the row is inserted or replaces the one with the same id |
| `BmkgService.IngestIdempotent` | server/src/services/bmkgService.ts:53-71 | upserting the same record twice is the same as once |
| `BmkgService.SameEventCollapses` | server/src/services/bmkgService.ts:43-56 | two reports of one event (same time and coordinates) get the same id and leave a single row, the later one |
| `BmkgService.IngestAllAppend` | server/src/services/bmkgService.ts:119-121 | ingesting `a + b` is ingesting `a` then `b` |
| `BmkgService.IngestAllOverlays` | server/src/services/bmkgService.ts:119-121 | ingesting a batch overlays its rows on the existing table |
| `BmkgService.IngestAllIdempotent` | server/src/services/bmkgService.ts:119-121 | re-ingesting the same batch changes nothing |
| `BmkgService.LatestRecords` | server/src/services/bmkgService.ts:89-92 | the latest feed contributes exactly the received `gempa` object when the response holds a single one, and nothing otherwise |
| `BmkgService.ListRecords` | server/src/services/bmkgService.ts:118-121 | a list feed contributes exactly the `gempa` array when the response holds one, and nothing otherwise |
| `BmkgService.LatestLog` | server/src/services/bmkgService.ts:95-104 | the latest feed logs "autogempa" with "success" exactly when `Infogempa` was present; otherwise it logs "error" with the request's message |
| `BmkgService.ListLog` | server/src/services/bmkgService.ts:123-136 | a list feed logs its own fetch type, "success" exactly when `Infogempa` was present, and "error" with the failure's message otherwise |
| `BmkgService.CycleIdempotent` | server/src/services/bmkgService.ts:175-183 | running one fetch cycle's records twice leaves the table as one run does |
| `BmkgService.FailedFeedIsolated` | server/src/services/bmkgService.ts:175-183 | a failed latest-feed request does not stop the other two feeds from being stored |
| `BmkgService.Database.constructor` | server/src/services/bmkgService.ts:53-56 | a fresh database has no rows and no logs |
| `BmkgService.Database.InsertOrReplace` | server/src/services/bmkgService.ts:53-71 | an upsert by id that fails on a schema violation; logs untouched |
| `BmkgService.Database.InsertLog` | server/src/services/bmkgService.ts:95-104 | appends one log entry; rows untouched |
| `BmkgService.ParseAndInsertEarthquake` | server/src/services/bmkgService.ts:31-77 | the table becomes `Ingest` of the old table; errors are swallowed and no log is written |
| `BmkgService.ParseAndInsertAll` | server/src/services/bmkgService.ts:119-121 | the table becomes `IngestAll` of the batch in array order |
| `BmkgService.FetchLatestEarthquake` | server/src/services/bmkgService.ts:82-106 | stores the latest record, if any, and appends exactly one `LatestLog` entry |
| `BmkgService.FetchListEarthquakes` | server/src/services/bmkgService.ts:111-170 | stores the list records and appends exactly one `ListLog` entry for that feed |
| `BmkgService.FetchM5Earthquakes` | server/src/services/bmkgService.ts:111-138 | the M5+ feed: list records stored, one "gempaterkini" log |
| `BmkgService.FetchFeltEarthquakes` | server/src/services/bmkgService.ts:143-170 | the felt feed: list records stored, one "gempadirasakan" log |
| `BmkgService.FetchAllEarthquakes` | server/src/services/bmkgService.ts:175-183 | the table becomes the ingestion of all three feeds, and three log entries are appended in feed order |
| `Seqs.SortBy` | server/src/routes/earthquakes.ts:176 | `Array.prototype.sort` by a key: the result is sorted, a permutation of its input, and the same length |
| `Seqs.SortByKeepsTies` | server/src/routes/earthquakes.ts:176 | the sort is stable: rows with equal keys keep their input order |
| `Seqs.FilterIsSubsequence` | server/src/routes/earthquakes.ts:175 | `Array.prototype.filter` keeps the survivors in their original order |
| `MagnitudeBands.BandIsUnique` | server/src/routes/earthquakes.ts:244-248 | every magnitude lies in exactly one of the four bands `<5`, `5-6`, `6-7`, `7+` |
| `EarthquakeRoutes.ByRecency` | server/src/routes/earthquakes.ts:42-45 | `order("timestamp", descending)`: a permutation of the rows, newest first |
| `EarthquakeRoutes.Window` | server/src/routes/earthquakes.ts:55-58 | `.range(offset, offset+limit-1)`: the `limit` rows starting at `offset`, fewer at the end |
| `EarthquakeRoutes.WindowsTile` | server/src/routes/earthquakes.ts:55-58 | consecutive pages tile the ordered result without gap or overlap |
| `EarthquakeRoutes.ListEarthquakes` | server/src/routes/earthquakes.ts:26-81 | 503 exactly when unconfigured; 500 with the database message on failure; otherwise a page |
| `EarthquakeRoutes.ListPageWindow` | server/src/routes/earthquakes.ts:35-74 | the page holds the filtered rows from position `offset` on, at most `limit` of them; total is the number of filtered rows; limit and offset default to 50 and 0 |
| `EarthquakeRoutes.ListPageFiltered` | server/src/routes/earthquakes.ts:47-53 | every listed earthquake is stored and lies within the requested magnitude bounds |
| `EarthquakeRoutes.ListPageNewestFirst` | server/src/routes/earthquakes.ts:42-45 | a page is ordered newest first |
| `EarthquakeRoutes.RoundTenth` | server/src/routes/earthquakes.ts:171 | `Math.round(d * 10) / 10` is within 0.05 of `d` |
| `EarthquakeRoutes.WithDistance` | server/src/routes/earthquakes.ts:162-173 | annotating a row keeps its id, time and magnitude |
| `EarthquakeRoutes.Annotate` | server/src/routes/earthquakes.ts:162-173 | the `map` step changes only each row's distance, which becomes the rounded distance from the user |
| `EarthquakeRoutes.NearbyEarthquakes` | server/src/routes/earthquakes.ts:129-193 | 503 when unconfigured; 400 when lat or lng is missing or empty; 500 with the database message when the query fails with both given; a body exactly when connected with both given; radius is the parsed `radius` or "100"; the data is `Nearby` of the stored rows at the parsed position and radius, or empty when any of them is NaN |
| `EarthquakeRoutes.MissingCoordinatesIgnoreStore` | server/src/routes/earthquakes.ts:138-145 | without coordinates, every configured store gives the same 400 |
| `EarthquakeRoutes.NearbySound` | server/src/routes/earthquakes.ts:162-176 | every result is an annotated stored row within the radius, and results are sorted by distance |
| `EarthquakeRoutes.NearbyComplete` | server/src/routes/earthquakes.ts:162-176 | every stored row whose rounded distance is within the radius is returned, exactly once when ids are unique |
| `EarthquakeRoutes.NearbyTiesNewestFirst` | server/src/routes/earthquakes.ts:152-176 | rows at equal distance stay newest first, inherited from the database order through the stable sort |
| `EarthquakeRoutes.NearbyRadiusMonotone` | server/src/routes/earthquakes.ts:174 | widening the radius never drops an earthquake |
| `EarthquakeRoutes.BucketsPartition` | server/src/routes/earthquakes.ts:244-249 | the four histogram counts add up to the number of rows |
| `EarthquakeRoutes.CountByMagnitude` | server/src/routes/earthquakes.ts:237-249 | the `forEach` over a four-cell array gives each labelled bucket the number of rows in its band |
| `EarthquakeRoutes.Strongest` | server/src/routes/earthquakes.ts:213-219 | the strongest earthquake is a stored row of maximum magnitude, and is absent exactly when there are no rows |
| `EarthquakeRoutes.GetStats` | server/src/routes/earthquakes.ts:199-266 | 503 exactly when unconfigured; a failing query counts as no rows; otherwise the total, today's count, the strongest row and the histogram |
| `EarthquakeRoutes.Single` | server/src/routes/earthquakes.ts:96-101 | `.single()` succeeds exactly on one row, returning it, and fails with "PGRST116" otherwise |
| `EarthquakeRoutes.LatestEarthquake` | server/src/routes/earthquakes.ts:87-123 | 503 / 500 as above; 404 exactly when there are no rows; otherwise a newest stored row |
| `EarthquakeRoutes.EarthquakeById` | server/src/routes/earthquakes.ts:272-309 | 503 / 500 as above; 404 when no row has the id; a reply body is a stored row with that id |
| `EarthquakeRoutes.ByIdFindsStoredRow` | server/src/routes/earthquakes.ts:282-302 | with unique ids, looking up a stored row's id returns that row |
| `Notifications.ReadNotified` | client/src/services/notification.ts:91-100 | a missing or unparseable ledger reads as empty; otherwise as its ids |
| `Notifications.KeepLast` | client/src/services/notification.ts:82 | `slice(-100)` keeps at most 100 entries |
| `Notifications.KeepLastEndsWith` | client/src/services/notification.ts:82 | the kept entries are the final ones |
| `Notifications.KeepLastAppend` | client/src/services/notification.ts:79-83 | trimming before appending more and trimming again equals trimming once at the end |
| `Notifications.Remember` | client/src/services/notification.ts:77-84 | the new ledger holds 1 to 100 ids and ends with the new id |
| `Notifications.RememberEvictsOldest` | client/src/services/notification.ts:79-83 | below capacity the id is appended; at capacity the oldest id is evicted |
| `Notifications.RememberKeepsDistinct` | client/src/services/notification.ts:77-84 | recording an id not yet recorded keeps the ledger free of repeats |
| `Notifications.NoticeFor` | client/src/services/notification.ts:46-51 | the notification is tagged with the earthquake's id and requires interaction exactly when the magnitude is at least 6 |
| `Notifications.Send` | client/src/services/notification.ts:29-54 | nothing happens without permission or for an id already notified; otherwise the notification is shown and the id recorded |
| `Notifications.SendRecordsId` | client/src/services/notification.ts:35-53 | with permission, the earthquake counts as notified afterwards |
| `Notifications.SendTwice` | client/src/services/notification.ts:35-53 | sending the same earthquake twice equals sending it once |
| `Notifications.SendKeepsLedgerInvariant` | client/src/services/notification.ts:35-53 | a send preserves "at most 100 ids" and "no repeated ids" |
| `Notifications.SendAllAppend` | client/src/hooks/useEarthquakes.ts:68-77 | sending a concatenated batch is sending its halves in turn |
| `Notifications.SendAllKeepsLedgerInvariant` | client/src/hooks/useEarthquakes.ts:68-77 | a batch of sends preserves both ledger invariants |
| `Notifications.SendAllWithoutPermission` | client/src/services/notification.ts:30-32 | without permission a batch changes nothing |
| `Notifications.SendAllShowsOnlyInputs` | client/src/services/notification.ts:29-54 | every notification a batch shows is for one of its earthquakes |
| `Notifications.SendAllFreshShowsEach` | client/src/services/notification.ts:35-53 | a batch of distinct, not-yet-notified earthquakes shows one notification each, in order |
| `Notifications.SendAllFreshLedger` | client/src/services/notification.ts:77-84 | after such a batch the ledger is the last 100 of the old ledger followed by the batch's ids |
| `Notifications.NotificationCenter.constructor` | client/src/services/notification.ts:91-100 | wraps a storage slot with nothing shown yet |
| `Notifications.NotificationCenter.GetNotifiedEarthquakes` | client/src/services/notification.ts:91-100 | reads the slot: the stored ids when it holds ids; empty when missing or unparseable |
| `Notifications.NotificationCenter.HasBeenNotified` | client/src/services/notification.ts:86-89 | true exactly when the stored ledger contains the id |
| `Notifications.NotificationCenter.CheckIfNotified` | client/src/services/notification.ts:102-104 | the exported query agrees with `HasBeenNotified` |
| `Notifications.NotificationCenter.MarkAsNotified` | client/src/services/notification.ts:77-84 | the slot becomes `Remember` of the old ledger; shown notifications untouched |
| `Notifications.NotificationCenter.SendEarthquakeNotification` | client/src/services/notification.ts:29-54 | the new state is `Send` of the old state |
| `Geolocation.LocationStorage.constructor` | client/src/services/geolocation.ts:28-37 | wraps an existing storage slot |
| `Geolocation.LocationStorage.GetUserLocation` | client/src/services/geolocation.ts:28-37 | a location exactly when one was saved and parses; missing or unparseable reads as none |
| `Geolocation.LocationStorage.SaveUserLocation` | client/src/services/geolocation.ts:20-22 | after saving, reading returns the saved location |
| `Geolocation.LocationStorage.ClearUserLocation` | client/src/services/geolocation.ts:24-26 | after clearing, reading returns none |
| `UseEarthquakes.TimeFilterCutoff` | client/src/hooks/useEarthquakes.ts:7-28 | realtime and unknown filters give 0, today gives local midnight, and the others give now minus 30, 90, 180 or 365 days |
| `UseEarthquakes.WindowsNest` | client/src/hooks/useEarthquakes.ts:17-24 | the longer windows start earlier, and every earthquake a shorter window shows is shown by each longer one |
| `UseEarthquakes.WiderWindowKeepsMore` | client/src/hooks/useEarthquakes.ts:57-60 | an earlier cutoff keeps every earthquake a later cutoff keeps |
| `UseEarthquakes.ApplyTimeFilter` | client/src/hooks/useEarthquakes.ts:57-60 | a positive cutoff keeps exactly the earthquakes at or after it, in order; no cutoff keeps all |
| `UseEarthquakes.ApplyTimeFilterIdempotent` | client/src/hooks/useEarthquakes.ts:57-60 | filtering twice equals filtering once |
| `UseEarthquakes.RequestFor` | client/src/hooks/useEarthquakes.ts:44-54 | a saved location selects the nearby request with its radius; otherwise the list of 200 |
| `UseEarthquakes.NearestEarthquakeSuppressed` | client/src/hooks/useEarthquakes.ts:70-75 | as written, an M4+ earthquake at rounded distance 0.0 raises no alert, although the same earthquake at 0.1 km would |
| `UseEarthquakes.AlertWorthyCloserStaysWorthy` | client/src/hooks/useEarthquakes.ts:70-75 | under the corrected test, moving an alert-worthy earthquake closer keeps it alert-worthy; at any non-zero distance the corrected and written tests agree |
| `UseEarthquakes.AlertsExactly` | client/src/hooks/useEarthquakes.ts:63-75 | an earthquake is alerted exactly when there was a previous list, a location is saved, it is in the data, it is new, it is M4+ and it has a distance within the saved radius; this is the corrected test, under which a distance of 0 counts |
| `UseEarthquakes.AlertsInFetchedOrder` | client/src/hooks/useEarthquakes.ts:64-75 | alerts are raised in the order of the fetched data |
| `UseEarthquakes.FirstPollIsSilent` | client/src/hooks/useEarthquakes.ts:63 | the first load, or a load without a saved location, notifies nobody |
| `UseEarthquakes.RepeatedPollIsSilent` | client/src/hooks/useEarthquakes.ts:63-80 | reloading the same response notifies nobody |
| `UseEarthquakes.PollKeepsLedgerInvariant` | client/src/hooks/useEarthquakes.ts:68-77 | a poll preserves the ledger's bound of 100 ids and the absence of repeated ids |
| `UseEarthquakes.PollNotifiesEachAlertOnce` | client/src/hooks/useEarthquakes.ts:68-77 | with permission and fresh unique ids, each alert is shown exactly once, in order |
| `UseEarthquakes.NotifyEach` | client/src/hooks/useEarthquakes.ts:68-77 | the `forEach` loop leaves the notifier in the state of sending every alert-worthy new earthquake in turn, by the corrected test |
| `UseEarthquakes.EarthquakeFeed.constructor` | client/src/hooks/useEarthquakes.ts:31-34 | no earthquakes, loading, no error, no update time |
| `UseEarthquakes.EarthquakeFeed.LoadEarthquakes` | client/src/hooks/useEarthquakes.ts:36-87 | a failed fetch keeps the list and sets the error message; success sets the filtered list, notifies as `Poll` says, records the time and clears the error; loading ends in both cases |
| `LocationValidation.ValidateCoordinates` | client/src/components/LocationSettings.tsx:61-69 | NaN in either coordinate is "Koordinat tidak valid"; out of [-90,90]×[-180,180] is "Koordinat di luar jangkauan"; otherwise valid with those values |
| `LocationSettings.InitialRadius` | client/src/components/LocationSettings.tsx:30 | the saved radius, or 100 when none is saved or it is 0 |
| `LocationSettings.LocationSettingsForm.constructor` | client/src/components/LocationSettings.tsx:21-30 | fields start from the saved location; not loading, no error |
| `LocationSettings.LocationSettingsForm.HandleUseMyLocation` | client/src/components/LocationSettings.tsx:32-47 | a position fills both coordinate fields; a failure sets the error message; loading ends |
| `LocationSettings.LocationSettingsForm.HandleClearLocation` | client/src/components/LocationSettings.tsx:49-53 | storage is cleared, then "no location" is reported and the dialog closes |
| `LocationSettings.LocationSettingsForm.HandleSave` | client/src/components/LocationSettings.tsx:55-80 | invalid input sets the validation message and leaves storage alone; valid input saves, reports and closes |
| `LocationSetup.LocationSetupForm.constructor` | client/src/components/LocationSetup.tsx:11-16 | empty fields, radius 100, nothing completed |
| `LocationSetup.LocationSetupForm.HandleUseMyLocation` | client/src/components/LocationSetup.tsx:18-39 | a position is saved with the current radius and completes setup; a failure sets the error; loading ends; the typed coordinate texts are unchanged |
| `LocationSetup.LocationSetupForm.HandleManualSubmit` | client/src/components/LocationSetup.tsx:41-65 | invalid input sets the message; valid input is saved with the radius and completes setup; the typed coordinate texts are unchanged |
| `Sidebar.MagnitudeBadgeClass` | client/src/components/Sidebar.tsx:11-16 | the badge is the class of the magnitude's band |
| `Sidebar.BadgeOnlyStrongestPulses` | client/src/components/Sidebar.tsx:11-16 | only M7+ pulses, and the error badge marks exactly M6+ |
| `Sidebar.ElapsedSince` | client/src/components/Sidebar.tsx:18-29 | just now under a minute, minutes under an hour, hours under a day, and days otherwise, with the count being the floored quotient |
| `Sidebar.DecimalTextRoundTrip` | client/src/components/Sidebar.tsx:27-29 | the printed count reads back as the same number |
| `Sidebar.TimeAgo` | client/src/components/Sidebar.tsx:18-30 | "Baru saja" exactly under one minute |
| `Sidebar.TimeAgoLabels` | client/src/components/Sidebar.tsx:26-29 | the label is the count followed by "menit lalu", "jam lalu" or "hari lalu" |
| `MapView.MagnitudeColor` | client/src/components/Map.tsx:33-38 | the marker colour is the colour of the magnitude's band |
| `MapView.ColorAndBadgeAgree` | client/src/components/Map.tsx:33-38 | two magnitudes share a marker colour exactly when they share a sidebar badge |
| `MapView.MagnitudeRadius` | client/src/components/Map.tsx:41-43 | the marker radius is `max(3·m, 8)` |
| `MapView.MagnitudeRadiusMonotone` | client/src/components/Map.tsx:41-43 | stronger earthquakes never get smaller markers |
| `MapView.RecentMeansMinutes` | client/src/components/Map.tsx:94 | a marker pulses exactly when the sidebar would say "just now" or "minutes ago" |
| `MapView.MapCenter` | client/src/components/Map.tsx:51-57 | the selected earthquake's position, or the centre of Indonesia (-2.5, 118.0) |

## Left out

- The haversine `calculateDistance` is a parameter. The model proves the nearby route for any distance function.
- Calls into JavaScript's runtime are parameters of the model:
  - `parseFloat`, `parseInt`;
  - number-to-text conversion;
  - `new Date(...).getTime()`;
  - `Date.now()`;
  - local midnight.
- Timestamps and magnitudes are unbounded integers and reals, not IEEE doubles. Rounding error and NaN values inside stored rows are not modelled. `parseFloat` failure appears only as `None` where the source tests `isNaN`.
- Network I/O is not modelled. This covers axios, Express's request/response objects, Supabase's client, SQLite's prepared statements and `Promise.all`:
  - the three feeds are modelled in the sequential order `Promise.all` lists them;
  - the schema's refusal of a row is the `violatesSchema` parameter.
- Console logging and the `created_at` column's default value are not modelled.
- `EarthquakeRoutes.ListEarthquakes`: non-numeric `limit`, `offset` or magnitude parameters are taken already parsed. A negative `limit` or `offset` (`parseInt("-5")`) cannot be expressed, because the parsed values are `nat`, so what Supabase does with a negative range is not modelled. An `offset` past the number of matching rows gives an empty page in the model. PostgREST refuses such a range ("Requested range not satisfiable"), which the route would answer with 500; that error is not modelled. Supabase's behaviour for `.range` with a limit of 0 is not modelled: the window is then empty.
- `EarthquakeRoutes.ByRecency`: the database does not fix the order of rows with equal timestamps. The model keeps them in stored order, which is one possible order, and the tie results of `LatestEarthquake` and `NearbyTiesNewestFirst` rest on that choice.
- `EarthquakeRoutes.Strongest`: when several rows share the maximum magnitude, the database's choice between them is unspecified. The model picks the first after a stable sort and proves only "a row of maximum magnitude".
- `EarthquakeRoutes.GetStats`: the four queries (total, strongest, today, all magnitudes) are modelled as one snapshot of the table. The response's `success` wrapper and the catch-all 500 for thrown exceptions are not modelled.
- Notification title and body text, icons and the `onclick` focus handler are not modelled. Neither is a `Notification` constructor that throws.
- `sendTestNotification`, `requestNotificationPermission` and `getNotificationPermission` are not modelled: permission is a parameter.
- The hook's React effects (the interval timer and re-running on filter change) are not modelled. `LoadEarthquakes` models one run of `loadEarthquakes`.
- JSON in local storage that parses to a non-array, or to objects of the wrong shape, is treated as unparseable.
- JSX rendering, CSS classes other than the badge, `MapLegend`, `TimeFilter`, `NotificationPrompt`, `App` and `index.ts` are not modelled.
- `UseEarthquakes.EarthquakeFeed.LoadEarthquakes` uses the corrected alert test described under Findings, not the test as written.
- `UseEarthquakes.Alerts` uses the corrected alert test, so an M4+ earthquake at rounded distance 0 within the radius is alerted, which the source does not do.
- `UseEarthquakes.AlertsExactly` states the corrected condition, not the source's `eq.distance &&` test.
- `UseEarthquakes.NotifyEach` tests each new earthquake with the corrected condition, not `eq.distance &&`.
- `UseEarthquakes.Poll` and the lemmas about it (`FirstPollIsSilent`, `RepeatedPollIsSilent`, `PollKeepsLedgerInvariant`, `PollNotifiesEachAlertOnce`, `AlertsInFetchedOrder`) are about the corrected test. The test as written differs only at rounded distance 0, where it raises no alert (`NearestEarthquakeSuppressed`, `AlertWorthyCloserStaysWorthy`).
- The cap on rows per response that Supabase applies by default is not modelled. The `/nearby` query and the magnitude query of `/stats` are modelled as reading every stored row.

## Findings

| source | as written | input that shows it | evidently intended | confidence | as-written member | corrected member |
|---|---|---|---|---|---|---|
| client/src/hooks/useEarthquakes.ts:70-75 | the alert requires `eq.distance` to be truthy, so a distance of `0` counts as missing | a new M4.5 earthquake whose distance from the user rounds to 0.0 km (within 50 m), with any radius of at least 0 | alert when a distance is present and within the saved radius, the closest earthquakes included | high; not executed | `UseEarthquakes.NearestEarthquakeSuppressed` | `UseEarthquakes.AlertWorthyCloserStaysWorthy` |
