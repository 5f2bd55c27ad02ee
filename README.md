# OpenIndoorMap service core in Dafny

This project models the service layer of mago3D OpenIndoorMap, and proves properties of that model. OpenIndoorMap is a Java and Spring web platform for indoor spatial data and sensor observations. The model covers the
parts of the service layer that carry logic:

- **Air-quality feed** (`AirQualityServiceImpl`, administration application). It
  registers air-quality measuring stations in an OGC SensorThings server. For each station it
  builds an optional Location, a Thing, six Sensor/Datastream pairs and a FeatureOfInterest. It
  creates these entities, or updates them when the station's Thing already exists. First it
  marks unavailable every Thing its OData filter selects. As written, that filter selects the Things
  with a PM10 Datastream and the Things named after one of the other five properties (see Findings). Once per run it creates the six missing
  ObservedProperties. It posts one Observation per Datastream of a station, and updates an
  hour's Observation rather than duplicating it. It grades pollutant concentrations against
  the national four-band scale. Modules: `AirQuality` (pollutants, labels, grades),
  `SensorThings` (entities, requests, a `Store` class standing for the server),
  `StationGraph` (the per-station entity list) and `AirQualityService` (a class holding
  the "observed properties exist" flag, and the passes of the service).
- **Menu interceptor** (`ConfigInterceptor`, user application). It selects the clicked
  menu for the request URI from the user group's cached menu list. Then it sets or clears
  the alias name of the clicked menu and of its parent. Module `ConfigInterceptor`; `Menu`
  is a class because the interceptor writes `aliasName` into the cached menu objects.
- **Data display getters** (`DataInfo`). These are the attribute preview, the insert date
  without fractions, and the insert-type name from the common-code cache. Module `Data`.
- **Uploads, projects, user policies** (`UploadDataServiceImpl`, `ProjectServiceImpl`,
  `UserPolicyServiceImpl`). Module `Persistence` has the MyBatis mappers as a `Database` class. It
  holds the tables, the generated-id counters and a journal of the statements run. A
  `Disk` class records the paths whose deletion was requested. Modules `UploadDataService`,
  `ProjectService` and `UserPolicyService` are the service methods, written imperatively over
  those classes.
- `JavaText` models the Java library string operations the core depends on:
  `String.trim`, `indexOf`, `split(",")` with its trailing-empty removal, `String.valueOf`
  and `Long.valueOf`. `Wrappers` holds `Option`, `Result` and the exceptions as `Fault`.

Java's `null` is `None`. Each thrown exception is an `Err` with its `Fault`. Each
SensorThings `create`/`update` is a `Request` appended to `Store.sent`. A request the server
refuses is one in `Store.rejects`; the `try` blocks of the source stop a loop at the first
refusal, which the function `UntilFailure` states.

The FeatureOfInterest is always the last entity of a station's list, even for a station
without coordinates. The model follows the code, where only the Location depends on the coordinates.

## Model

| member | source | states |
|---|---|---|
| JavaText.TrimStartSpec | OIM-admin/src/main/java/io/openindoormap/service/impl/AirQualityServiceImpl.java:82-83 | trimming the front drops exactly the leading characters up to U+0020 and leaves a suffix of the input that is empty or starts above U+0020 |
| JavaText.TrimEndSpec | OIM-admin/src/main/java/io/openindoormap/service/impl/AirQualityServiceImpl.java:82-83 | trimming the back leaves a prefix of the input that is empty or ends above U+0020, and only characters up to U+0020 were dropped |
| JavaText.TrimSpec | OIM-admin/src/main/java/io/openindoormap/service/impl/AirQualityServiceImpl.java:82-83 | a coordinate trims to "" exactly when every character is blank; otherwise the trimmed text starts and ends with a non-blank character |
| JavaText.IndexFrom | OIM-user/src/main/java/io/openindoormap/interceptor/ConfigInterceptor.java:57 | the search from a position returns -1 when the text does not occur from there on, else the first position from there where it occurs |
| JavaText.IndexOf | OIM-user/src/main/java/io/openindoormap/interceptor/ConfigInterceptor.java:57 | `indexOf >= 0` holds exactly when the substring occurs, and then it is the first occurrence |
| JavaText.SplitAll | oim-user/src/main/java/io/openindoormap/service/impl/UploadDataServiceImpl.java:90 | the raw split has at least one piece, no piece contains the separator, and joining the pieces with it gives back the input |
| JavaText.DropTrailingEmpty | oim-user/src/main/java/io/openindoormap/service/impl/UploadDataServiceImpl.java:90 | removes exactly the run of empty pieces at the end: the result is a prefix, what was dropped is empty, and the last kept piece is not |
| JavaText.JavaSplit | oim-user/src/main/java/io/openindoormap/service/impl/UploadDataServiceImpl.java:90 | a text without the separator is one piece (itself); otherwise the raw split without its trailing empty pieces |
| JavaText.SplitEmptyIsOnePiece | oim-user/src/main/java/io/openindoormap/service/impl/UploadDataServiceImpl.java:90 | splitting "" yields one empty piece, not none |
| JavaText.SplitSeparatorOnlyIsNoPiece | oim-user/src/main/java/io/openindoormap/service/impl/UploadDataServiceImpl.java:90 | splitting "," yields no piece at all |
| JavaText.SplitTrailingSeparator | oim-user/src/main/java/io/openindoormap/service/impl/UploadDataServiceImpl.java:90 | a trailing comma adds no empty id: "12,7," splits into "12" and "7" |
| JavaText.ValueOf | oim-user/src/main/java/io/openindoormap/service/impl/ProjectServiceImpl.java:115 | a present string is itself, a null one becomes the text "null" in a concatenation |
| JavaText.ParseLong | oim-user/src/main/java/io/openindoormap/service/impl/UploadDataServiceImpl.java:95 | parsing succeeds exactly for an optionally signed decimal numeral whose value fits in 64 bits, and then yields that value |
| JavaText.ParseLongRoundTrip | oim-user/src/main/java/io/openindoormap/service/impl/UploadDataServiceImpl.java:95 | every 64-bit value parses back from its own decimal text |
| AirQuality.LabelsAreDistinct | OIM-admin/src/main/java/io/openindoormap/service/impl/AirQualityServiceImpl.java:353-370 | different pollutants have different ObservedProperty names and different Datastream names, so the name dispatch picks one pollutant |
| AirQuality.GasGrade | OIM-admin/src/main/java/io/openindoormap/service/impl/AirQualityServiceImpl.java:633-680 | a gas reading gets one of the four grades; grade 2, 3 or 4 exactly when it lies in that band of its pollutant, grade 1 otherwise |
| AirQuality.DustGrade | OIM-admin/src/main/java/io/openindoormap/service/impl/AirQualityServiceImpl.java:681-706 | a particulate reading gets grade 2, 3 or 4 exactly when it lies in that band of PM10 or PM2.5, grade 1 otherwise |
| AirQuality.OddZeroTestIsHarmless | OIM-admin/src/main/java/io/openindoormap/service/impl/AirQualityServiceImpl.java:645-668 | the `0 >= x` test written for CO and O3 grades every reading the same as the intended `x >= 0` |
| AirQuality.OutOfTableGradesGood | OIM-admin/src/main/java/io/openindoormap/service/impl/AirQualityServiceImpl.java:633-680 | a negative gas reading, or one above the top band, is graded 1 |
| AirQuality.SulphurDioxideGapGradesGood | OIM-admin/src/main/java/io/openindoormap/service/impl/AirQualityServiceImpl.java:634-637 | an SO2 reading between the bands (0.0205) falls through to grade 1 |
| AirQuality.DustOutOfTableGradesGood | OIM-admin/src/main/java/io/openindoormap/service/impl/AirQualityServiceImpl.java:681-706 | a negative particulate count, or one above the top band, is graded 1 |
| AirQuality.DustGradeMonotone | OIM-admin/src/main/java/io/openindoormap/service/impl/AirQualityServiceImpl.java:683-706 | within the table a larger particulate count never gets a better grade |
| SensorThings.UntilFailurePrefix | OIM-admin/src/main/java/io/openindoormap/service/impl/AirQualityServiceImpl.java:303-313 | the requests sent before a refusal are a prefix of the list; all but the last were accepted, and the last was refused unless the whole list went out |
| SensorThings.UntilFailureAll | OIM-admin/src/main/java/io/openindoormap/service/impl/AirQualityServiceImpl.java:303-313 | when the server accepts every request, the whole list is sent |
| SensorThings.UntilFailureAt | OIM-admin/src/main/java/io/openindoormap/service/impl/AirQualityServiceImpl.java:303-313 | the first refused request is the last one sent |
| SensorThings.UntilFailureStep | OIM-admin/src/main/java/io/openindoormap/service/impl/AirQualityServiceImpl.java:384-393 | one more accepted request extends what was sent; a refused one ends the loop there |
| SensorThings.Store.FindThing | OIM-admin/src/main/java/io/openindoormap/service/impl/AirQualityServiceImpl.java:97 | a Thing is found exactly when one of that name exists; the one found is the first Thing in server order that bears the name |
| SensorThings.Store.FindLocation | OIM-admin/src/main/java/io/openindoormap/service/impl/AirQualityServiceImpl.java:98 | a Location is found exactly when one of that name exists; the one found is the first Location in server order that bears the name |
| SensorThings.Store.Send | OIM-admin/src/main/java/io/openindoormap/service/impl/AirQualityServiceImpl.java:305-309 | the request is appended to what was sent, and it succeeds exactly when the server does not refuse it |
| SensorThings.Store.CreateObservedProperty | OIM-admin/src/main/java/io/openindoormap/service/impl/AirQualityServiceImpl.java:413-417 | the create is sent; a successful one makes the name known to later lookups, a refused one does not |
| SensorThings.Store.SendUntilFailure | OIM-admin/src/main/java/io/openindoormap/service/impl/AirQualityServiceImpl.java:303-313 | the loop sends exactly the requests up to the first refusal, and reports success exactly when none was refused |
| SensorThings.FirstNamed | OIM-admin/src/main/java/io/openindoormap/service/impl/AirQualityServiceImpl.java:341-349 | the name query's `get(0)`, for Things and Locations alike, exists exactly when some element has that name, and it is the first such element in the list |
| StationGraph.GeometryPresence | OIM-admin/src/main/java/io/openindoormap/service/impl/AirQualityServiceImpl.java:82-103 | a station has a point exactly when both trimmed coordinates are non-empty; the point is (trimmed dmY, trimmed dmX) |
| StationGraph.PairsUpToLength | OIM-admin/src/main/java/io/openindoormap/service/impl/AirQualityServiceImpl.java:137-291 | the first n pollutants contribute 2n entities |
| StationGraph.PairsUpToAt | OIM-admin/src/main/java/io/openindoormap/service/impl/AirQualityServiceImpl.java:137-291 | pollutant k contributes its Sensor at position 2k and its Datastream right after it |
| StationGraph.PairsUpToKinds | OIM-admin/src/main/java/io/openindoormap/service/impl/AirQualityServiceImpl.java:137-291 | the pair section holds only Sensors and Datastreams |
| StationGraph.EntityGraphLength | OIM-admin/src/main/java/io/openindoormap/service/impl/AirQualityServiceImpl.java:113-126 | a station yields 15 entities with a point and 14 without; the list starts with a Location exactly when there is a point, and that Location carries the point |
| StationGraph.EntityGraphThing | OIM-admin/src/main/java/io/openindoormap/service/impl/AirQualityServiceImpl.java:87-135 | the Thing follows the optional Location; it is named after the station, marked available, and linked to the Location only when there is one |
| StationGraph.EntityGraphFeatureOfInterest | OIM-admin/src/main/java/io/openindoormap/service/impl/AirQualityServiceImpl.java:293-301 | the last entity is the FeatureOfInterest, with the Thing's id and the station's geometry, present even without a point |
| StationGraph.EntityGraphPair | OIM-admin/src/main/java/io/openindoormap/service/impl/AirQualityServiceImpl.java:137-291 | pollutant k's Sensor and Datastream sit right after the Thing, in pollutant order |
| StationGraph.EntityGraphOnlyThing | OIM-admin/src/main/java/io/openindoormap/service/impl/AirQualityServiceImpl.java:113-301 | the list holds exactly one Thing, with the station's Thing id |
| StationGraph.PairIds | OIM-admin/src/main/java/io/openindoormap/service/impl/AirQualityServiceImpl.java:110-291 | pollutant k of Thing t gets Sensor and Datastream id 6(t-1)+k+1, its own Sensor, Thing t and ObservedProperty id k+1 (so NO2's Datastream points at 6) |
| StationGraph.PairIdsDisjoint | OIM-admin/src/main/java/io/openindoormap/service/impl/AirQualityServiceImpl.java:110-111 | two pairs with different Thing ids, or with different pollutants, never share a Sensor or Datastream id |
| StationGraph.BuildEntityList | OIM-admin/src/main/java/io/openindoormap/service/impl/AirQualityServiceImpl.java:100-301 | the list built from the station's raw coordinates is the specified entity list |
| StationGraph.AppendStationEntities | OIM-admin/src/main/java/io/openindoormap/service/impl/AirQualityServiceImpl.java:106-301 | the list built step by step with the running id counters is the specified entity list for that geometry |
| StationGraph.SensorAndDatastream | OIM-admin/src/main/java/io/openindoormap/service/impl/AirQualityServiceImpl.java:137-160 | one pollutant's step adds its Sensor and Datastream and advances both id counters by one |
| AirQualityService.ObservedPropertyOf | OIM-admin/src/main/java/io/openindoormap/service/impl/AirQualityServiceImpl.java:413-417 | the ObservedProperty created for a pollutant bears that pollutant's name |
| AirQualityService.BootstrapFromMembers | OIM-admin/src/main/java/io/openindoormap/service/impl/AirQualityServiceImpl.java:410-468 | the bootstrap from pollutant k on creates exactly the missing properties of pollutants k and later |
| AirQualityService.BootstrapCreatesExactlyMissing | OIM-admin/src/main/java/io/openindoormap/service/impl/AirQualityServiceImpl.java:410-468 | a pollutant's property is created exactly when it is missing, only ObservedProperties are created, and none twice |
| AirQualityService.BootstrapDistinct | OIM-admin/src/main/java/io/openindoormap/service/impl/AirQualityServiceImpl.java:410-468 | no create request repeats within the bootstrap |
| AirQualityService.MissingUnaffected | OIM-admin/src/main/java/io/openindoormap/service/impl/AirQualityServiceImpl.java:410-468 | creating other pollutants' properties does not change whether this pollutant's is missing |
| AirQualityService.BootstrapBlockStep | OIM-admin/src/main/java/io/openindoormap/service/impl/AirQualityServiceImpl.java:410-418 | the live check for a pollutant sees the same answer as the names at the start; its create keeps the run on track or marks it failed |
| AirQualityService.BootstrapComplete | OIM-admin/src/main/java/io/openindoormap/service/impl/AirQualityServiceImpl.java:403-470 | after all six checks without a refusal, the whole bootstrap was sent and nothing was refused |
| AirQualityService.AsWrittenFilterMissesPm25Station | OIM-admin/src/main/java/io/openindoormap/service/impl/AirQualityServiceImpl.java:600-605 | a station that only observes PM2.5 is an air-quality Thing, yet the filter as written does not select it |
| AirQualityService.AsWrittenFilterCatchesNamedThing | OIM-admin/src/main/java/io/openindoormap/service/impl/AirQualityServiceImpl.java:600-605 | a Thing merely named like a pollutant, with no Datastream, is selected by the filter as written |
| AirQualityService.SelectedAsWritten | OIM-admin/src/main/java/io/openindoormap/service/impl/AirQualityServiceImpl.java:597-607 | the query as written returns exactly the Things with a PM10 Datastream or named after PM2.5, SO2, CO, O3 or NO2, in server order |
| AirQualityService.MatchingThings | OIM-admin/src/main/java/io/openindoormap/service/impl/AirQualityServiceImpl.java:597-607 | the intended query result (not the one the pass uses) is exactly the Things that observe one of the six properties, in server order |
| AirQualityService.InvalidatedKeepsOtherProperties | OIM-admin/src/main/java/io/openindoormap/service/impl/AirQualityServiceImpl.java:610-612 | an invalidated Thing has `available` false and every other property, id and name unchanged |
| AirQualityService.Invalidations | OIM-admin/src/main/java/io/openindoormap/service/impl/AirQualityServiceImpl.java:609-614 | one update per listed Thing, in order, each the invalidated Thing |
| AirQualityService.InvalidationFromAll | OIM-admin/src/main/java/io/openindoormap/service/impl/AirQualityServiceImpl.java:594-620 | from a page offset on, without refusals, the paged loop invalidates every remaining Thing in order |
| AirQualityService.InvalidationCoversSelected | OIM-admin/src/main/java/io/openindoormap/service/impl/AirQualityServiceImpl.java:591-620 | without refusals, every Thing the written filter selects is invalidated across all pages of 100, each once and in order |
| AirQualityService.AsWrittenPassSkipsPm25Station | OIM-admin/src/main/java/io/openindoormap/service/impl/AirQualityServiceImpl.java:591-620 | the pass as written sends nothing for a PM2.5-only station, where the intended filter would invalidate it |
| AirQualityService.InvalidationCoversAll | OIM-admin/src/main/java/io/openindoormap/service/impl/AirQualityServiceImpl.java:591-620 | with the intended filter and no refusals, every air-quality Thing would be invalidated across all pages of 100, each once and in order |
| AirQualityService.InvalidationFromOnlyInvalidates | OIM-admin/src/main/java/io/openindoormap/service/impl/AirQualityServiceImpl.java:591-620 | the loop sends nothing but invalidations of matching Things, even when refusals cut pages short |
| AirQualityService.Requests | OIM-admin/src/main/java/io/openindoormap/service/impl/AirQualityServiceImpl.java:304-310 | every entity becomes an update when the station's Thing exists and a create otherwise, in list order |
| AirQualityService.StationPassSparesUnlisted | OIM-admin/src/main/java/io/openindoormap/service/impl/AirQualityServiceImpl.java:78-314 | a pass over stations never updates a Thing whose name is not among them |
| AirQualityService.StationSparesOtherThing | OIM-admin/src/main/java/io/openindoormap/service/impl/AirQualityServiceImpl.java:97-313 | one station's requests never update another station's Thing |
| AirQualityService.StationRequestsUpdateOwnThing | OIM-admin/src/main/java/io/openindoormap/service/impl/AirQualityServiceImpl.java:97-310 | a Thing update sent for a station is for the existing Thing of that station's name |
| AirQualityService.DistinctNamesDistinctIds | OIM-admin/src/main/java/io/openindoormap/service/impl/AirQualityServiceImpl.java:97-108 | with ids unique per Thing, Things of different names have different ids |
| AirQualityService.StaleThingStaysUnavailable | OIM-admin/src/main/java/io/openindoormap/service/impl/AirQualityServiceImpl.java:65-314 | a Thing the written filter selects whose station is no longer listed is invalidated and never made available again in that run |
| AirQualityService.HourOf | OIM-admin/src/main/java/io/openindoormap/service/impl/AirQualityServiceImpl.java:337-340 | the result time keeps the reading's date and hour and zeroes minutes, seconds and nanoseconds |
| AirQualityService.DatastreamPollutant | OIM-admin/src/main/java/io/openindoormap/service/impl/AirQualityServiceImpl.java:352-371 | a Datastream name maps to the pollutant of that Datastream name, or to none when no pollutant has it |
| AirQualityService.ObservationRequests | OIM-admin/src/main/java/io/openindoormap/service/impl/AirQualityServiceImpl.java:351-390 | a station gets exactly one Observation request per Datastream |
| AirQualityService.ResultAfterStep | OIM-admin/src/main/java/io/openindoormap/service/impl/AirQualityServiceImpl.java:351-371 | the reused result object holds the last matched pollutant's value and grade, or keeps the previous content |
| AirQualityService.ObservationRequestShape | OIM-admin/src/main/java/io/openindoormap/service/impl/AirQualityServiceImpl.java:373-389 | each Observation names its Datastream, the station's FeatureOfInterest, the hour and now; it is an update of the latest Observation exactly when that has the same hour, else a create |
| AirQualityService.MatchedDatastreamGetsItsPollutant | OIM-admin/src/main/java/io/openindoormap/service/impl/AirQualityServiceImpl.java:353-370 | a Datastream named for a pollutant gets that pollutant's value and grade |
| AirQualityService.UnmatchedDatastreamRepeatsPrevious | OIM-admin/src/main/java/io/openindoormap/service/impl/AirQualityServiceImpl.java:333-371 | a Datastream with an unknown name repeats the previous Datastream's result, or an empty one if it comes first |
| AirQualityService.SameHourRerunOnlyUpdates | OIM-admin/src/main/java/io/openindoormap/service/impl/AirQualityServiceImpl.java:381-389 | once an hour's Observations are stored, a second run for the same hour only updates, never creates duplicates |
| AirQualityService.StationObservationsComplete | OIM-admin/src/main/java/io/openindoormap/service/impl/AirQualityServiceImpl.java:341-390 | a found station with a parsed time and no refusals gets one request per Datastream |
| AirQualityService.AirQualityService.constructor | OIM-admin/src/main/java/io/openindoormap/service/impl/AirQualityServiceImpl.java:52 | a new service starts with the "properties exist" flag cleared |
| AirQualityService.AirQualityService.BootstrapBlock | OIM-admin/src/main/java/io/openindoormap/service/impl/AirQualityServiceImpl.java:410-418 | one pollutant's check-then-create keeps the bootstrap on track, or leaves it failed at that create |
| AirQualityService.AirQualityService.InitObservedProperty | OIM-admin/src/main/java/io/openindoormap/service/impl/AirQualityServiceImpl.java:403-473 | with the flag set nothing is sent; otherwise the missing creates go out until a refusal; the flag gets set exactly on success, and success means all six properties exist; failure is a ServiceFailure |
| AirQualityService.AirQualityService.UpdateAirQualityThingsStatus | OIM-admin/src/main/java/io/openindoormap/service/impl/AirQualityServiceImpl.java:591-620 | the paged loop sends exactly the invalidations of the Things the written filter selects, page by page, stopping a page at its first refusal |
| AirQualityService.AirQualityService.InitSensorData | OIM-admin/src/main/java/io/openindoormap/service/impl/AirQualityServiceImpl.java:65-77 | invalidation of the Things the written filter selects, then bootstrap, then every station; a failed bootstrap or a missing station list ends in a NullPointer before any station |
| AirQualityService.AirQualityService.InitStations | OIM-admin/src/main/java/io/openindoormap/service/impl/AirQualityServiceImpl.java:78-314 | the station loop sends each station's requests in turn; a refusal ends only that station |
| AirQualityService.AirQualityService.InitStation | OIM-admin/src/main/java/io/openindoormap/service/impl/AirQualityServiceImpl.java:97-313 | a station's entity list goes out as creates or updates until the first refusal |
| AirQualityService.AirQualityService.SendObservations | OIM-admin/src/main/java/io/openindoormap/service/impl/AirQualityServiceImpl.java:350-390 | the Datastream loop sends the specified Observation requests until the first refusal |
| AirQualityService.AirQualityService.InsertSensorData | OIM-admin/src/main/java/io/openindoormap/service/impl/AirQualityServiceImpl.java:321-396 | a missing station list ends in a NullPointer with nothing sent; otherwise each station's observations are sent in order |
| AirQualityService.AirQualityService.InsertStation | OIM-admin/src/main/java/io/openindoormap/service/impl/AirQualityServiceImpl.java:330-394 | one station sends nothing when it has no reading, no parsable time or no Thing, else its Observation requests |
| Data.StatusCodesDistinct | oim-core/src/main/java/io/openindoormap/domain/DataInfo.java:21-25 | the three status codes are distinct one-character codes |
| Data.ViewAttributes | oim-core/src/main/java/io/openindoormap/domain/DataInfo.java:123-128 | null and short attributes pass through; longer ones become their first 20 characters followed by "..." |
| Data.TwentyCharactersGetEllipsis | oim-core/src/main/java/io/openindoormap/domain/DataInfo.java:124-127 | an attribute of exactly 20 characters keeps all of them and still gets "..." |
| Data.ViewAttributesIdempotent | oim-core/src/main/java/io/openindoormap/domain/DataInfo.java:123-128 | previewing a preview changes nothing |
| Data.ViewAttributesKeepsPrefix | oim-core/src/main/java/io/openindoormap/domain/DataInfo.java:127 | the preview agrees with the attributes on every character it keeps |
| Data.ViewInsertDate | oim-core/src/main/java/io/openindoormap/domain/DataInfo.java:130-135 | null or empty dates show as ""; a shorter non-empty date makes the cut throw; otherwise the first 19 characters, a prefix of the date |
| Data.InsertDateDropsFraction | oim-core/src/main/java/io/openindoormap/domain/DataInfo.java:134 | a timestamp with fractional seconds is shown down to the second |
| Data.ViewDataInsertType | oim-core/src/main/java/io/openindoormap/domain/DataInfo.java:111-121 | a null, empty or uncached insert type shows as ""; otherwise the cached code's display name |
| Data.ViewDataInsertTypeFromCache | oim-core/src/main/java/io/openindoormap/domain/DataInfo.java:111-121 | a non-empty display name is always the cache entry of the data's own insert type |
| ConfigInterceptor.UserGroupIdOf | OIM-user/src/main/java/io/openindoormap/interceptor/ConfigInterceptor.java:37-39 | without a session the anonymous group 1 is used, else the session's group |
| ConfigInterceptor.ScanEnd | OIM-user/src/main/java/io/openindoormap/interceptor/ConfigInterceptor.java:47-65 | the scan ends within the list and always moves past at least one entry |
| ConfigInterceptor.LastMatch | OIM-user/src/main/java/io/openindoormap/interceptor/ConfigInterceptor.java:47-65 | the remembered match lies before the scan's end |
| ConfigInterceptor.ClickOf | OIM-user/src/main/java/io/openindoormap/interceptor/ConfigInterceptor.java:49-55 | the click takes the entry's menu id and depth; the parent is the menu itself at depth 1 and the entry's parent otherwise |
| ConfigInterceptor.LastMatchSpec | OIM-user/src/main/java/io/openindoormap/interceptor/ConfigInterceptor.java:47-55 | the remembered entry is the last one scanned whose URL equals the URI, and none exists when nothing matched |
| ConfigInterceptor.HasFaultSpec | OIM-user/src/main/java/io/openindoormap/interceptor/ConfigInterceptor.java:50-54 | the scan would throw exactly when a scanned matching entry below depth 1 has no parent |
| ConfigInterceptor.ScanEndSpec | OIM-user/src/main/java/io/openindoormap/interceptor/ConfigInterceptor.java:57-63 | the scan passes every entry that does not break the loop and ends right after the first one that does |
| ConfigInterceptor.NoMatchNoClick | OIM-user/src/main/java/io/openindoormap/interceptor/ConfigInterceptor.java:47-69 | when no entry's URL equals the URI, no menu is clicked |
| ConfigInterceptor.FirstStopWins | OIM-user/src/main/java/io/openindoormap/interceptor/ConfigInterceptor.java:57-60 | a depth-2 match, or a main-index depth-1 match, ends the scan and is the click |
| ConfigInterceptor.LastMatchWins | OIM-user/src/main/java/io/openindoormap/interceptor/ConfigInterceptor.java:47-65 | without a breaking entry, the last matching entry is the click |
| ConfigInterceptor.FaultIffFaultyMatchReached | OIM-user/src/main/java/io/openindoormap/interceptor/ConfigInterceptor.java:53 | the selection fails exactly when a parentless non-top match is reached before the loop breaks |
| ConfigInterceptor.ScanMenus | OIM-user/src/main/java/io/openindoormap/interceptor/ConfigInterceptor.java:47-65 | the scanning loop computes the specified selection, including its null-parent fault |
| ConfigInterceptor.MenuAt | OIM-user/src/main/java/io/openindoormap/interceptor/ConfigInterceptor.java:67-68 | a menu lookup finds the cached menu exactly when its id is cached |
| ConfigInterceptor.AliasFor | OIM-user/src/main/java/io/openindoormap/interceptor/ConfigInterceptor.java:70-77 | a displayed menu clears the alias; a value other than Y or N throws IllegalArgument; otherwise the alias target's name, or a NullPointer when the alias chain is missing |
| ConfigInterceptor.PreHandle | OIM-user/src/main/java/io/openindoormap/interceptor/ConfigInterceptor.java:30-90 | the call succeeds exactly when the group's list exists, the scan meets no parentless match, and a cached clicked menu has a resolvable alias and a cached parent; each failure carries that step's fault; on success the request goes on with the selected menu, its parent and the list; only the clicked menu and its parent get a new alias name |
| Persistence.FilesPartition | oim-user/src/main/java/io/openindoormap/service/impl/UploadDataServiceImpl.java:99-100 | the rows listed for an upload and the rows left after deleting them together are all rows, as a multiset |
| Persistence.FilesOfMembers | oim-user/src/main/java/io/openindoormap/service/impl/UploadDataServiceImpl.java:99 | the file rows listed are exactly those of the user and upload id |
| Persistence.FilesNotOfMembers | oim-user/src/main/java/io/openindoormap/service/impl/UploadDataServiceImpl.java:100 | the file rows kept are exactly those not of the user and upload id |
| Persistence.UploadsNotOfSpec | oim-user/src/main/java/io/openindoormap/service/impl/UploadDataServiceImpl.java:102 | deleting an upload keeps exactly the upload rows not of that user and id |
| Persistence.DataNotOfProjectSpec | oim-user/src/main/java/io/openindoormap/service/impl/ProjectServiceImpl.java:157 | deleting a project's data keeps exactly the data rows of other projects |
| Persistence.ProjectsNotWithIdSpec | oim-user/src/main/java/io/openindoormap/service/impl/ProjectServiceImpl.java:166 | deleting a project keeps exactly the project rows with other ids |
| Persistence.DataNotOfProjectNoMatch | oim-user/src/main/java/io/openindoormap/service/impl/ProjectServiceImpl.java:157 | a data delete by an id no row has leaves the table unchanged |
| Persistence.ProjectsNotWithIdNoMatch | oim-user/src/main/java/io/openindoormap/service/impl/ProjectServiceImpl.java:166 | a project delete by an id no row has leaves the table unchanged |
| Persistence.InsertByDepthSpec | oim-user/src/main/java/io/openindoormap/service/impl/UploadDataServiceImpl.java:96-99 | inserting a row into a deepest-first list keeps it deepest-first and adds exactly that row |
| Persistence.SortByDepthDescSpec | oim-user/src/main/java/io/openindoormap/service/impl/UploadDataServiceImpl.java:96-99 | `ORDER BY depth DESC` gives a deepest-first permutation of the rows |
| Persistence.ListedFilesDeepestFirst | oim-user/src/main/java/io/openindoormap/service/impl/UploadDataServiceImpl.java:125-129 | the files listed for deletion are the upload's files, deepest first, so children go before their directories |
| Persistence.Database.InsertUploadData | oim-user/src/main/java/io/openindoormap/service/impl/UploadDataServiceImpl.java:64 | the upload row is stored with the next generated id, one row is reported, and the statement is journalled |
| Persistence.Database.InsertUploadDataFile | oim-user/src/main/java/io/openindoormap/service/impl/UploadDataServiceImpl.java:77 | the file row is appended and journalled, nothing else changes |
| Persistence.Database.GetListUploadDataFile | oim-user/src/main/java/io/openindoormap/service/impl/UploadDataServiceImpl.java:99 | the query returns the upload's file rows deepest first and changes no table |
| Persistence.Database.DeleteUploadDataFile | oim-user/src/main/java/io/openindoormap/service/impl/UploadDataServiceImpl.java:100 | the upload's file rows go and the count of removed rows is reported |
| Persistence.Database.DeleteUploadData | oim-user/src/main/java/io/openindoormap/service/impl/UploadDataServiceImpl.java:102 | the upload row goes and the count of removed rows is reported |
| Persistence.Database.InsertProject | oim-user/src/main/java/io/openindoormap/service/impl/ProjectServiceImpl.java:116 | the project row is stored with the next generated id, which is returned to the caller |
| Persistence.Database.InsertData | oim-user/src/main/java/io/openindoormap/service/impl/ProjectServiceImpl.java:128 | the data row is appended and journalled |
| Persistence.Database.DeleteDataByProjectId | oim-user/src/main/java/io/openindoormap/service/impl/ProjectServiceImpl.java:157 | the data rows of the project go, the count is reported |
| Persistence.Database.DeleteProject | oim-user/src/main/java/io/openindoormap/service/impl/ProjectServiceImpl.java:166 | the project rows with that id go, the count is reported |
| Persistence.Database.GetUserPolicy | oim-user/src/main/java/io/openindoormap/service/impl/UserPolicyServiceImpl.java:30 | the user's policy when there is one, null otherwise; no table changes |
| Persistence.Database.InsertUserPolicy | oim-user/src/main/java/io/openindoormap/service/impl/UserPolicyServiceImpl.java:40 | a second policy for a user is a duplicate-key failure that changes nothing; otherwise the policy is stored and one row reported |
| Persistence.Database.UpdateUserPolicy | oim-user/src/main/java/io/openindoormap/service/impl/UserPolicyServiceImpl.java:54 | an existing policy is replaced (one row), a missing one is not created (zero rows) |
| Persistence.Database.DeleteUserPolicy | oim-user/src/main/java/io/openindoormap/service/impl/UserPolicyServiceImpl.java:65 | the user's policy goes; one row is reported when it existed, zero otherwise |
| Persistence.Disk.DeleteIfExists | oim-user/src/main/java/io/openindoormap/service/impl/UploadDataServiceImpl.java:112-115 | the path is recorded as one to delete |
| UploadDataService.PathToDeleteSpec | oim-user/src/main/java/io/openindoormap/service/impl/UploadDataServiceImpl.java:105-110 | a directory is deleted by its path; any other file by its path followed by its stored name |
| UploadDataService.PathsToDelete | oim-user/src/main/java/io/openindoormap/service/impl/UploadDataServiceImpl.java:104-116 | one path per listed file |
| UploadDataService.PathsToDeleteAt | oim-user/src/main/java/io/openindoormap/service/impl/UploadDataServiceImpl.java:104-116 | the i-th path is the i-th file's path to delete |
| UploadDataService.DeepestFirst | oim-user/src/main/java/io/openindoormap/service/impl/UploadDataServiceImpl.java:126-127 | the key asks for depth descending and is otherwise the caller's upload |
| UploadDataService.InsertUploadData | oim-user/src/main/java/io/openindoormap/service/impl/UploadDataServiceImpl.java:62-81 | the upload is stored with a fresh id; each listed file gets the upload's id, project, sharing, type and user copied in and is stored; the count is 1 + the number of files |
| UploadDataService.StoreFiles | oim-user/src/main/java/io/openindoormap/service/impl/UploadDataServiceImpl.java:71-79 | every listed file gets the upload's fields and is appended to the file rows in list order, one row counted per file; no other table changes |
| UploadDataService.StoreFile | oim-user/src/main/java/io/openindoormap/service/impl/UploadDataServiceImpl.java:72-77 | one file takes the upload's fields and is appended to the file rows as it then stands |
| UploadDataService.CopyUploadFields | oim-user/src/main/java/io/openindoormap/service/impl/UploadDataServiceImpl.java:72-76 | the file takes the five upload fields and keeps the rest |
| UploadDataService.RemoveRows | oim-user/src/main/java/io/openindoormap/service/impl/UploadDataServiceImpl.java:129-131 | list, delete files, delete upload: the list returned is the upload's files deepest first, and exactly those rows and the upload row are gone |
| UploadDataService.DeleteFiles | oim-user/src/main/java/io/openindoormap/service/impl/UploadDataServiceImpl.java:134-146 | deletion is requested for every listed file's path, in list order |
| UploadDataService.RemoveUpload | oim-user/src/main/java/io/openindoormap/service/impl/UploadDataServiceImpl.java:129-146 | one upload's rows go and deletion is requested for its files' paths, deepest first |
| UploadDataService.DeleteUploadData | oim-user/src/main/java/io/openindoormap/service/impl/UploadDataServiceImpl.java:122-149 | removes the upload as above with a deepest-first key and reports 0 |
| UploadDataService.KeyFor | oim-user/src/main/java/io/openindoormap/service/impl/UploadDataServiceImpl.java:93-97 | the per-id key carries the user, the id and the depth-descending order |
| UploadDataService.ParseAllSpec | oim-user/src/main/java/io/openindoormap/service/impl/UploadDataServiceImpl.java:92-95 | the ids parse exactly when every piece does, and then piece by piece |
| UploadDataService.ParseAllFailsOnward | oim-user/src/main/java/io/openindoormap/service/impl/UploadDataServiceImpl.java:92-95 | once a prefix fails to parse, the whole list fails |
| UploadDataService.FilesAfterSpec | oim-user/src/main/java/io/openindoormap/service/impl/UploadDataServiceImpl.java:92-117 | after removing several uploads, exactly the file rows of none of them remain |
| UploadDataService.UploadsAfterSpec | oim-user/src/main/java/io/openindoormap/service/impl/UploadDataServiceImpl.java:92-117 | after removing several uploads, exactly the upload rows of none of them remain |
| UploadDataService.RemoveEach | oim-user/src/main/java/io/openindoormap/service/impl/UploadDataServiceImpl.java:92-119 | the loop succeeds exactly when every piece parses, and then returns the number of pieces; the tables, journal and deletion requests are those of removing each id in turn; a bad piece is a NumberFormat failure |
| UploadDataService.DeleteUploadDatas | oim-user/src/main/java/io/openindoormap/service/impl/UploadDataServiceImpl.java:88-120 | the comma-separated ids are split the Java way and each is removed as above |
| UploadDataService.RemovalStep | oim-user/src/main/java/io/openindoormap/service/impl/UploadDataServiceImpl.java:92-117 | removing one more id extends the tables, journal and paths by that one removal |
| UploadDataService.DeletedUploadsAreGone | oim-user/src/main/java/io/openindoormap/service/impl/UploadDataServiceImpl.java:92-117 | no file or upload row of a removed id of the user remains |
| UploadDataService.TrailingCommaCountsTwo | oim-user/src/main/java/io/openindoormap/service/impl/UploadDataServiceImpl.java:90 | "7,9," counts as two ids |
| UploadDataService.EmptyIdsFail | oim-user/src/main/java/io/openindoormap/service/impl/UploadDataServiceImpl.java:90-95 | an empty id list is one empty piece, which does not parse |
| ProjectService.StoredProject | oim-user/src/main/java/io/openindoormap/service/impl/ProjectServiceImpl.java:115-116 | the stored project has the generated id and the path key + "/" ("null/" for a null key), and is otherwise unchanged |
| ProjectService.RootDataOf | oim-user/src/main/java/io/openindoormap/service/impl/ProjectServiceImpl.java:118-127 | the project's root data row has the project's id, key, name, user, sharing and attributes, parent 0, depth 1 and view order 1 |
| ProjectService.InsertProject | oim-user/src/main/java/io/openindoormap/service/impl/ProjectServiceImpl.java:107-131 | the project gets its path and generated id; its row and its root data row are stored; one row is reported |
| ProjectService.DeleteProject | oim-user/src/main/java/io/openindoormap/service/impl/ProjectServiceImpl.java:150-167 | the project's data rows and then its rows go; the count of project rows removed is reported |
| ProjectService.DeleteProjectRemovesExactly | oim-user/src/main/java/io/openindoormap/service/impl/ProjectServiceImpl.java:157-166 | exactly the data rows and project rows of that id are removed |
| ProjectService.RootDataGoesWithProject | oim-user/src/main/java/io/openindoormap/service/impl/ProjectServiceImpl.java:118-157 | the root data row carries the project's generated id, so deleting the project removes it |
| ProjectService.InsertThenDeleteRestores | oim-user/src/main/java/io/openindoormap/service/impl/ProjectServiceImpl.java:107-167 | inserting a project and deleting it again leaves the tables as before, except for the id counter |
| ProjectService.DeleteWithoutIdKeepsAll | oim-user/src/main/java/io/openindoormap/service/impl/ProjectServiceImpl.java:157-166 | deleting a project with a null id removes nothing, since SQL null equals nothing |
| UserPolicyService.Upsert | oim-user/src/main/java/io/openindoormap/service/impl/UserPolicyServiceImpl.java:49-56 | the user's policy is set, other users' policies are kept, and no other user is added |
| UserPolicyService.UpsertIdempotent | oim-user/src/main/java/io/openindoormap/service/impl/UserPolicyServiceImpl.java:49-56 | saving the same policy twice is saving it once |
| UserPolicyService.UpsertLastWins | oim-user/src/main/java/io/openindoormap/service/impl/UserPolicyServiceImpl.java:49-56 | of two saves for one user, the last one wins |
| UserPolicyService.UpsertThenDeleteRestores | oim-user/src/main/java/io/openindoormap/service/impl/UserPolicyServiceImpl.java:49-66 | saving a new user's policy and deleting it restores the policies |
| UserPolicyService.GetUserPolicy | oim-user/src/main/java/io/openindoormap/service/impl/UserPolicyServiceImpl.java:29-31 | returns the user's policy exactly when there is one, and changes nothing |
| UserPolicyService.InsertUserPolicy | oim-user/src/main/java/io/openindoormap/service/impl/UserPolicyServiceImpl.java:39-41 | a duplicate user is a failure that changes nothing; otherwise the policy is stored |
| UserPolicyService.UpdateUserPolicy | oim-user/src/main/java/io/openindoormap/service/impl/UserPolicyServiceImpl.java:49-56 | reads first, then inserts a missing policy or updates the existing one; either way the user ends with the new policy and one row is reported |
| UserPolicyService.DeleteUserPolicy | oim-user/src/main/java/io/openindoormap/service/impl/UserPolicyServiceImpl.java:64-66 | the user's policy goes; one row is reported when it existed |

## Left out

- The HTTP calls to the air-quality API (`getListStation`, `getAirQualityData`) and their JSON parsing are not modelled. Neither is the random mock data. The station list becomes an `Option<seq<Station>>` parameter (None when the call failed) and the readings a map from station name to record.
- The SensorThings client library is not modelled. The server is a fixed snapshot of Things, Locations and ObservedProperty names plus a set of refused requests. Entities created during a run do not show up in later lookups, except ObservedProperty names. A failure of the paged Thing query itself, which the source would follow with a NullPointerException at `getNextLink`, is not modelled. Nor is the server's reading of the path `Datastreams/ObservedProperties` (a SensorThings Datastream has a single ObservedProperty, so a server may refuse that filter): the query returns the Things `SelectedAsWritten` gives.
- Null results of the SensorThings client are not modelled: null Thing properties, which make `properties.put` throw outside the `try` in the invalidation pass, and a null `getResultTime()` of the latest Observation, which ends the station with a NullPointerException. Stored Things always carry a property map and Observations always a time.
- Data.ViewAttributes: lengths and the 20-character cut count Unicode scalar values, whereas Java's `length()` and `substring` count UTF-16 code units. Text with characters outside the Basic Multilingual Plane is therefore cut at a different place, and the model cannot split a surrogate pair as Java can.
- Floating point: gas readings are graded as exact reals. `Float.parseFloat` rounding and the `Integer.parseInt` failure on a non-integer particulate text are not modelled. `getGrade` takes the parsed number, not its text. `Double.parseDouble` of the coordinates is left out; the point keeps the trimmed texts. So a non-numeric, non-empty coordinate, which in the source throws outside every `try` and ends the whole station loop of `initSensorData`, does not stop the model, which goes on to later stations.
- `java.time`: dates are an abstract `DateTime`. Parsing `dataTime` either yields a value or fails (`None`, which skips the station). `ZonedDateTime.now()` is a parameter. The zone conversion of the latest Observation time is treated as identity.
- The `AirQuality` enum and `FileType` are not part of this model. Their label strings are placeholders; the proofs use only that the labels are distinct and that "DIRECTORY" is one value.
- StationGraph.PairIdsDisjoint: covers pairs with different Thing ids only. Every new station is built with Thing id 0, so the Sensor and Datastream ids of two new stations coincide; the server assigns the real ids on create.
- Persistence.FilesPartition: states the split as multisets; it does not state that each part keeps table order.
- Thing and Location ids are integers from the store, not texts handed to `Long.parseLong`. Long overflow of the id arithmetic and `int` overflow of the row counts are not modelled.
- The mapper SQL is not part of this model. Its behaviour is fixed as follows: inserts append and report one row, except that `user_policy` is taken to have a unique key on `user_id`, so inserting a second policy for a user fails with a duplicate key and changes nothing (`UserPolicyService.UpdateUserPolicy` cannot fail only because it inserts just when its read found no row); deletes report the rows removed; generated ids come from a counter; a comparison with a SQL null matches no row; `ORDER BY depth DESC` keeps equal depths in table order, which SQL does not promise.
- Spring `@Transactional` rollback is not modelled. UploadDataService.DeleteUploadDatas: when a piece fails to parse, the contract states only the NumberFormat failure. It says nothing of the rows of earlier pieces, which the transaction rolls back, while their files stay deleted.
- File-system effects are reduced to the list of paths whose deletion is requested, in order. `File.exists` is not modelled. `File.separator` is fixed to "/".
- `CacheManager` is taken as parameters (group menus, the menu map, the URL-alias map). A group with no cached list is the NullPointer of the source. The request and session attributes become the fields of `Attributes`. The content cache version is a parameter.
- ConfigInterceptor: a null `depth` on a menu entry is not modelled; depths are integers.
- UploadDataService.DeleteUploadData: the caller's `UploadData` object is not changed. The order fields are set on a copy, whereas the source sets them on the caller's object.
- UploadDataService.InsertUploadData: `UploadData` is a value, so the generated id that MyBatis writes back into the caller's object is seen only inside the method, where the files receive it. `Project` is a class and its caller does see the key.
- JavaText.ParseLong: accepts only ASCII digits, whereas `Long.valueOf` also accepts other Unicode decimal digits.
- The read-only pass-throughs are not modelled: `getUploadDataTotalCount`, `getListUploadData`, `getUploadData` and `getListUploadDataFile` of the upload service, the read methods of the project service, and `updateProject`. Each forwards to one mapper call with no logic of its own.
- Logging, Spring wiring, `@PostConstruct` scheduling, the test classes and the commented-out backfill loop in `insertSensorData` are not modelled.

## Findings

| source | as written | input that shows it | evidently intended | confidence | as-written member | corrected member |
|---|---|---|---|---|---|---|
| OIM-admin/src/main/java/io/openindoormap/service/impl/AirQualityServiceImpl.java:600-605 | the OData filter `Datastreams/ObservedProperties/name eq PM10 or name eq PM25 or ...` applies the Datastream path only to the first comparison; the other five compare the Thing's own name | a station Thing whose only Datastream observes PM2.5 is not selected, so it is never marked unavailable; a Thing named like a pollutant is selected | select the Things that observe any of the six air-quality properties | not executed | AirQualityService.SelectedAsWritten, used by AirQualityService.AirQualityService.UpdateAirQualityThingsStatus (shown by AirQualityService.AsWrittenFilterMissesPm25Station, AirQualityService.AsWrittenFilterCatchesNamedThing and AirQualityService.AsWrittenPassSkipsPm25Station) | AirQualityService.MatchingThings, with AirQualityService.InvalidationCoversAll about AirQualityService.IntendedInvalidationRequests |
