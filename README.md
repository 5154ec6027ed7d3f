# Sensor / UI-event correlation: a Dafny model

This project models the data core of an Android app that records sensor readings and UI
interactions and correlates them. Its parts:

- **Rows.** The four Room tables are modelled generically by what their annotations mean: `WHERE`, `ORDER BY … [DESC] LIMIT`, `BETWEEN` and an auto-generated primary key with `REPLACE` inserts. The table of sensor rows, UI rows, correlation results and consent receipts each has a data-access class over that table (`SensorEvents`, `UiEvents`, `CorrelationResults`, `ConsentReceipts`).
- **Entities.** The four entities are datatypes whose Kotlin default arguments are constructor defaults.
- **SensorSummary and Correlation.** This is the correlation engine:
  - For a UI event it reads the sensor rows within ±500 ms. When there are any, it stores one correlation row: the event's time and key, the number of matched rows, and a statistical summary of their decoded values.
  - The batch pass does the same for every UI row of the last minute.
- **Accessibility.** The accessibility handler turns a platform event into a privacy-reduced UI row, stores it, and correlates the stored row.
- **Consent and ConsentScreen.** The consent preferences (a key/value store with defaults) and the consent screen's state holder, whose toggles write through to the store.

The wall clock is always a parameter `now`. Coroutines run as sequential calls. Numbers are
mathematical integers and reals.

## Model

| member | source | states |
|---|---|---|
| Entities.Defaults | app/src/main/java/com/example/csuper/data/Entities.kt:16-68 | every id defaults to 0 (unassigned), accuracy to 0, the four optional UI fields to null, the correlation window to 500 and `revokedAt` to null |
| Rows.Filter | app/src/main/java/com/example/csuper/data/dao/CorrelationResultDao.kt:25-26 | `WHERE p` keeps exactly the rows satisfying `p`, each with its multiplicity, never more rows than stored |
| Rows.BetweenProperties | app/src/main/java/com/example/csuper/data/dao/SensorEventDao.kt:22-23 | `BETWEEN lo AND hi ORDER BY key` returns the rows whose key is in the closed interval, each as often as stored, in non-decreasing key order, and nothing when `lo > hi` |
| Rows.Newest | app/src/main/java/com/example/csuper/data/dao/SensorEventDao.kt:19-20 | `ORDER BY key DESC LIMIT n` returns `n` rows (all for a negative or too large `n`), non-increasing, a sub-multiset of the table, and no omitted row is newer than a returned one |
| Rows.NewestWhere | app/src/main/java/com/example/csuper/data/dao/SensorEventDao.kt:25-26 | only rows satisfying the filter, `n` of them or every matching row when fewer match (every one for a negative `n`), as a sub-multiset of the table, newest first, no omitted matching row newer than a returned one; empty exactly when no row matches (for `n != 0`) |
| Rows.LatestWhere | app/src/main/java/com/example/csuper/data/dao/ConsentReceiptDao.kt:19-20 | `LIMIT 1` read as nullable: null iff no row matches, otherwise a matching stored row whose key is the largest among matching rows |
| Rows.ById | app/src/main/java/com/example/csuper/data/dao/SensorEventDao.kt:28-29 | with distinct keys the table is a map from key to row with one entry per stored row |
| Rows.Insert | app/src/main/java/com/example/csuper/data/dao/SensorEventDao.kt:13-14 | a REPLACE insert keeps keys distinct and nonzero; a row keyed 0 is appended under one past the largest key ever assigned; another row keeps its key; the returned key is the stored row's |
| Rows.InsertReplacesByKey | app/src/main/java/com/example/csuper/data/dao/SensorEventDao.kt:13-14 | seen by key, the insert overwrites exactly the entry of the returned key; the table grows by one row iff that key was not stored |
| Rows.InsertAll | app/src/main/java/com/example/csuper/data/dao/SensorEventDao.kt:16-17 | inserting a list keeps the invariant, never loses a key, never lowers the key sequence, and adds at most one row per element |
| Rows.DeletePreservesInvariant | app/src/main/java/com/example/csuper/data/dao/SensorEventDao.kt:34-35 | deleting rows keeps keys distinct and the key sequence unchanged |
| SensorEvents.SensorEventDao.Insert | app/src/main/java/com/example/csuper/data/dao/SensorEventDao.kt:13-14 | the new table is the REPLACE insert of the old; a new row takes `lastId + 1` and goes at the end |
| SensorEvents.SensorEventDao.InsertAll | app/src/main/java/com/example/csuper/data/dao/SensorEventDao.kt:16-17 | the loop stores the list's rows one after another |
| SensorEvents.SensorEventDao.GetRecentEvents | app/src/main/java/com/example/csuper/data/dao/SensorEventDao.kt:19-20 | newest first, `limit` rows (default 100), none omitted newer than one returned |
| SensorEvents.SensorEventDao.GetEventsByTimeRangeRows | app/src/main/java/com/example/csuper/data/dao/SensorEventDao.kt:22-23 | the rows with `startTime <= timestamp <= endTime`, each as often as stored, in timestamp order |
| SensorEvents.SensorEventDao.GetEventsBySensorType | app/src/main/java/com/example/csuper/data/dao/SensorEventDao.kt:25-26 | `limit` rows of that type, or all of them when fewer are stored (all for a negative `limit`), as a sub-multiset of the table, newest first, no omitted row of that type newer than a returned one; empty exactly when no row has that type (for `limit != 0`) |
| SensorEvents.SensorEventDao.GetCount | app/src/main/java/com/example/csuper/data/dao/SensorEventDao.kt:28-29 | the number of distinct keys stored; 0 iff the table is empty |
| SensorEvents.SensorEventDao.DeleteAll | app/src/main/java/com/example/csuper/data/dao/SensorEventDao.kt:31-32 | no rows remain, the count is 0, the key sequence is kept |
| SensorEvents.SensorEventDao.DeleteOlderThan | app/src/main/java/com/example/csuper/data/dao/SensorEventDao.kt:34-35 | exactly the rows with `timestamp >= t` remain, in order |
| UiEvents.UiEventDao.Insert | app/src/main/java/com/example/csuper/data/dao/UiEventDao.kt:13-14 | as for sensor rows |
| UiEvents.UiEventDao.InsertAll | app/src/main/java/com/example/csuper/data/dao/UiEventDao.kt:16-17 | the list's rows inserted one after another |
| UiEvents.UiEventDao.GetRecentEvents | app/src/main/java/com/example/csuper/data/dao/UiEventDao.kt:19-20 | newest first, `limit` rows, none omitted newer |
| UiEvents.UiEventDao.GetEventsByTimeRangeRows | app/src/main/java/com/example/csuper/data/dao/UiEventDao.kt:22-23 | exactly the rows in the closed interval, in timestamp order |
| UiEvents.UiEventDao.GetEventsByPackage | app/src/main/java/com/example/csuper/data/dao/UiEventDao.kt:25-26 | `limit` rows of that package, or all of them when fewer are stored (all for a negative `limit`), as a sub-multiset of the table, newest first, no omitted row of that package newer than a returned one; empty exactly when no row has that package (for `limit != 0`) |
| UiEvents.UiEventDao.GetCount | app/src/main/java/com/example/csuper/data/dao/UiEventDao.kt:28-29 | the number of distinct keys stored |
| UiEvents.UiEventDao.DeleteAll | app/src/main/java/com/example/csuper/data/dao/UiEventDao.kt:31-32 | no rows remain, key sequence kept |
| UiEvents.UiEventDao.DeleteOlderThan | app/src/main/java/com/example/csuper/data/dao/UiEventDao.kt:34-35 | exactly the rows with `timestamp >= t` remain |
| CorrelationResults.CorrelationResultDao.Insert | app/src/main/java/com/example/csuper/data/dao/CorrelationResultDao.kt:13-14 | as for sensor rows |
| CorrelationResults.CorrelationResultDao.InsertAll | app/src/main/java/com/example/csuper/data/dao/CorrelationResultDao.kt:16-17 | the list's rows inserted one after another |
| CorrelationResults.CorrelationResultDao.GetRecentResults | app/src/main/java/com/example/csuper/data/dao/CorrelationResultDao.kt:19-20 | newest first, `limit` rows (default 50), none omitted newer |
| CorrelationResults.CorrelationResultDao.GetResultsByTimeRangeRows | app/src/main/java/com/example/csuper/data/dao/CorrelationResultDao.kt:22-23 | exactly the rows in the closed interval, in timestamp order |
| CorrelationResults.CorrelationResultDao.GetResultsByUiEvent | app/src/main/java/com/example/csuper/data/dao/CorrelationResultDao.kt:25-26 | every stored result for that UI event, with multiplicity; the column is not unique |
| CorrelationResults.CorrelationResultDao.GetCount | app/src/main/java/com/example/csuper/data/dao/CorrelationResultDao.kt:28-29 | the number of distinct keys stored |
| CorrelationResults.CorrelationResultDao.DeleteAll | app/src/main/java/com/example/csuper/data/dao/CorrelationResultDao.kt:31-32 | no rows remain, key sequence kept |
| CorrelationResults.CorrelationResultDao.DeleteOlderThan | app/src/main/java/com/example/csuper/data/dao/CorrelationResultDao.kt:34-35 | exactly the rows with `timestamp >= t` remain |
| ConsentReceipts.ConsentReceiptDao.Insert | app/src/main/java/com/example/csuper/data/dao/ConsentReceiptDao.kt:13-14 | a receipt keyed 0 is added once under a fresh key |
| ConsentReceipts.ConsentReceiptDao.GetAllReceipts | app/src/main/java/com/example/csuper/data/dao/ConsentReceiptDao.kt:16-17 | every receipt exactly once (same multiset), in non-increasing timestamp order |
| ConsentReceipts.ConsentReceiptDao.GetLatestReceipt | app/src/main/java/com/example/csuper/data/dao/ConsentReceiptDao.kt:19-20 | null iff no receipt names the permission, otherwise such a receipt with the latest timestamp |
| ConsentReceipts.ConsentReceiptDao.DeleteAll | app/src/main/java/com/example/csuper/data/dao/ConsentReceiptDao.kt:22-23 | afterwards `getAllReceipts` is empty |
| SensorSummary.TypeCountsCount | app/src/main/java/com/example/csuper/correlation/CorrelationEngine.kt:86-88 | each type's count is the number of rows of that type |
| SensorSummary.TypeCountsKeys | app/src/main/java/com/example/csuper/correlation/CorrelationEngine.kt:86-88 | the count map has a key for exactly the types that occur |
| SensorSummary.TypeCountsTotal | app/src/main/java/com/example/csuper/correlation/CorrelationEngine.kt:86-88 | the counts add up to the number of rows |
| SensorSummary.UndecodableRowAddsNoValues | app/src/main/java/com/example/csuper/correlation/CorrelationEngine.kt:91-96 | a row whose payload fails to decode or decodes to null contributes no values |
| SensorSummary.EveryRowIsCounted | app/src/main/java/com/example/csuper/correlation/CorrelationEngine.kt:86-96 | every row counts in its type whether or not its payload decodes |
| SensorSummary.DecodedValuesOrigin | app/src/main/java/com/example/csuper/correlation/CorrelationEngine.kt:91-93 | every sample comes from a matched row whose payload decodes to an array holding it |
| SensorSummary.JsonObjectRowAddsNoValues | app/src/main/java/com/example/csuper/correlation/CorrelationEngine.kt:91-96 | a row holding a JSON object (as LOCATION rows do) adds no samples |
| SensorSummary.MinOrZero | app/src/main/java/com/example/csuper/correlation/CorrelationEngine.kt:114 | 0 for no values, otherwise a value that is at most every value |
| SensorSummary.MaxOrZero | app/src/main/java/com/example/csuper/correlation/CorrelationEngine.kt:115 | 0 for no values, otherwise a value that is at least every value |
| SensorSummary.MeanWithinBounds | app/src/main/java/com/example/csuper/correlation/CorrelationEngine.kt:100-115 | for samples, minimum <= mean <= maximum |
| SensorSummary.VarianceAndMeanSquareNonNegative | app/src/main/java/com/example/csuper/correlation/CorrelationEngine.kt:101-106 | variance and the mean of squares (rms squared) are never negative |
| SensorSummary.SummaryProperties | app/src/main/java/com/example/csuper/correlation/CorrelationEngine.kt:82-117 | the summary's counts, sample total and statistics: all 0 without samples, otherwise min and max are samples bounding every sample and the mean |
| SensorSummary.WorkedExample | app/src/main/java/com/example/csuper/correlation/CorrelationEngine.kt:100-116 | values 1,2,3,4 give mean 2.5, variance 1.25, mean square 7.5, min 1, max 4 |
| Correlation.WindowMatchesEntityDefault | app/src/main/java/com/example/csuper/correlation/CorrelationEngine.kt:31 | the engine's 500 ms window equals the entity's default `correlationWindowMs` |
| Correlation.RangeQueryIsMatched | app/src/main/java/com/example/csuper/correlation/CorrelationEngine.kt:38-42 | the engine's range query returns exactly the sensor rows matched to the event's time |
| Correlation.CorrelationRow | app/src/main/java/com/example/csuper/correlation/CorrelationEngine.kt:44-55 | no row without matched sensor rows; otherwise a row keyed 0 with the event's time and key, the matched count (> 0), window 500, the summary of exactly the matched rows, and `createdAt = now` |
| Correlation.QueryStepIsCorrelationFor | app/src/main/java/com/example/csuper/correlation/CorrelationEngine.kt:38-55 | the row built from the query result is the engine's correlation for the event over the sensor table |
| Correlation.MatchedEmptyIff | app/src/main/java/com/example/csuper/correlation/CorrelationEngine.kt:38-44 | no row is matched iff no sensor row lies in [t-500, t+500], both ends inclusive |
| Correlation.NoCorrelationIffNoNearbySensorRow | app/src/main/java/com/example/csuper/correlation/CorrelationEngine.kt:38-58 | nothing is stored for a UI event iff no sensor row lies within ±500 ms of it |
| Correlation.PendingOrigin | app/src/main/java/com/example/csuper/correlation/CorrelationEngine.kt:71-75 | every row the batch pass writes is the correlation of one of the minute's UI rows |
| Correlation.PendingComplete | app/src/main/java/com/example/csuper/correlation/CorrelationEngine.kt:71-75 | every UI row of the minute that has sensor rows nearby gets its correlation written |
| Correlation.PendingCount | app/src/main/java/com/example/csuper/correlation/CorrelationEngine.kt:71-75 | a pass writes exactly as many rows as it has UI rows with sensor rows nearby: one per such row, none written twice |
| Correlation.PassStep | app/src/main/java/com/example/csuper/correlation/CorrelationEngine.kt:73-75 | correlating the next UI row after the ones before it equals the pass that includes it |
| Correlation.PendingInTimeOrder | app/src/main/java/com/example/csuper/correlation/CorrelationEngine.kt:71-75 | UI rows in timestamp order (as the range query returns them) yield correlation rows in timestamp order |
| Correlation.RerunStoresDuplicates | app/src/main/java/com/example/csuper/correlation/CorrelationEngine.kt:66-75 | nothing marks events processed: a second pass stores every row again, under a new key, otherwise identical |
| Correlation.PassStoresEvent | app/src/main/java/com/example/csuper/correlation/CorrelationEngine.kt:66-75 | a pass stores the correlation of every one of its UI rows that has sensor rows nearby, under the pass's next keys, with that row's key and time and the pass's time |
| Correlation.OverlappingPassesStoreDuplicates | app/src/main/java/com/example/csuper/correlation/CorrelationEngine.kt:66-75 | two passes at `now1 <= now2` whose last-minute windows both hold a UI row with sensor rows nearby store two rows for it, under different keys, created at `now1` and at `now2` |
| Correlation.CorrelationEngine.CorrelateUiEvent | app/src/main/java/com/example/csuper/correlation/CorrelationEngine.kt:37-59 | the result table gains exactly the event's correlation row under the next key, or stays as it was |
| Correlation.CorrelationEngine.CorrelateRecentEvents | app/src/main/java/com/example/csuper/correlation/CorrelationEngine.kt:65-76 | the result table gains the correlation rows of the last minute's UI rows, oldest first, under consecutive fresh keys |
| Correlation.CorrelationEngine.ComputeSensorDataSummary | app/src/main/java/com/example/csuper/correlation/CorrelationEngine.kt:82-117 | the loop's counts and collected values give the summary of exactly the given rows |
| Correlation.CorrelationEngine.GetCorrelationStats | app/src/main/java/com/example/csuper/correlation/CorrelationEngine.kt:122-132 | each figure is the number of distinct keys in its table |
| Accessibility.EventTags | app/src/main/java/com/example/csuper/service/UiAccessibilityService.kt:62-68 | the tag is one of five, and each of the four handled codes (1, 8, 32, 2048) gets its own |
| Accessibility.Take | app/src/main/java/com/example/csuper/service/UiAccessibilityService.kt:76-78 | `take(n)` is a prefix of at most `n` characters, the whole string when it is short enough |
| Accessibility.NormalizePrivacy | app/src/main/java/com/example/csuper/service/UiAccessibilityService.kt:58-83 | dropped iff the package is null or empty; otherwise the event's own package, a known tag, a description of at most 50 and a view id of at most 100 characters, each a prefix of the original, no view id when reading it throws, and never any text |
| Accessibility.UiAccessibilityService.OnAccessibilityEvent | app/src/main/java/com/example/csuper/service/UiAccessibilityService.kt:56-92 | a dropped event changes no table; otherwise its row is appended under the next key and the correlation of that stored row, key included, is written; a table holding no UI row with text still holds none |
| Consent.TimestampKeyPairing | app/src/main/java/com/example/csuper/util/ConsentStore.kt:146-156 | exactly the six consent keys have a timestamp key, no two share one, and no timestamp key is a boolean key |
| Consent.Defaults | app/src/main/java/com/example/csuper/util/ConsentStore.kt:137-141 | on an empty store, and so after `clearAll`: consents false, no timestamps, profiling off, first launch on, all six map entries false |
| Consent.SetConsentReadBack | app/src/main/java/com/example/csuper/util/ConsentStore.kt:52-61 | the key reads the new value; other keys and their times are unchanged; the time becomes `now` iff the key is a consent key; other keys write no time |
| Consent.AllConsentsEntries | app/src/main/java/com/example/csuper/util/ConsentStore.kt:85-96 | exactly six entries, each the consent of its key |
| Consent.ProfilingReadBack | app/src/main/java/com/example/csuper/util/ConsentStore.kt:101-114 | the flag reads the last value set; consents and times unchanged |
| Consent.FirstLaunchCompleted | app/src/main/java/com/example/csuper/util/ConsentStore.kt:119-132 | after completion first launch is false and stays false under consent edits; consents unchanged |
| Consent.ConsentStore.SetConsent | app/src/main/java/com/example/csuper/util/ConsentStore.kt:52-61 | the new preferences are the `setConsent` edit of the old |
| Consent.ConsentStore.GetConsent | app/src/main/java/com/example/csuper/util/ConsentStore.kt:66-70 | the stored value of the key, false when it was never set |
| Consent.ConsentStore.GetConsentTimestamp | app/src/main/java/com/example/csuper/util/ConsentStore.kt:75-80 | the time stored under the key's paired time key; none for a key outside the six consents or a consent never set |
| Consent.ConsentStore.GetAllConsents | app/src/main/java/com/example/csuper/util/ConsentStore.kt:85-96 | exactly the six short names, each reading the consent of its key |
| Consent.ConsentStore.SetProfilingActive | app/src/main/java/com/example/csuper/util/ConsentStore.kt:101-105 | the new preferences are the profiling edit of the old |
| Consent.ConsentStore.IsProfilingActive | app/src/main/java/com/example/csuper/util/ConsentStore.kt:110-114 | the stored flag, false when never set |
| Consent.ConsentStore.IsFirstLaunch | app/src/main/java/com/example/csuper/util/ConsentStore.kt:119-123 | the stored flag, true when never set |
| Consent.ConsentStore.SetFirstLaunchCompleted | app/src/main/java/com/example/csuper/util/ConsentStore.kt:128-132 | the first-launch edit; `isFirstLaunch` is then false |
| Consent.ConsentStore.ClearAll | app/src/main/java/com/example/csuper/util/ConsentStore.kt:137-141 | the store is empty |
| ConsentScreen.InitialStateAllOff | app/src/main/java/com/example/csuper/viewmodel/ConsentViewModel.kt:99-106 | the initial state has all six flags off |
| ConsentScreen.LoadedFlags | app/src/main/java/com/example/csuper/viewmodel/ConsentViewModel.kt:29-41 | each flag is its map entry, false when absent |
| ConsentScreen.LoadedIsInSync | app/src/main/java/com/example/csuper/viewmodel/ConsentViewModel.kt:29-41 | after loading, each flag equals the stored consent of its key |
| ConsentScreen.ToggleOnlyOwnFlag | app/src/main/java/com/example/csuper/viewmodel/ConsentViewModel.kt:44-90 | a toggle negates its own flag and leaves the other five unchanged |
| ConsentScreen.ToggleKeepsInSync | app/src/main/java/com/example/csuper/viewmodel/ConsentViewModel.kt:44-90 | a screen in agreement with the store still agrees after a toggle |
| ConsentScreen.ToggleTwiceRestores | app/src/main/java/com/example/csuper/viewmodel/ConsentViewModel.kt:44-50 | two toggles restore the state, and the stored consent is again the original value |
| ConsentScreen.CompleteKeepsConsents | app/src/main/java/com/example/csuper/viewmodel/ConsentViewModel.kt:92-96 | completing consent clears first launch and changes no consent the screen shows |
| ConsentScreen.ConsentViewModel.constructor | app/src/main/java/com/example/csuper/viewmodel/ConsentViewModel.kt:22-27 | the state starts loaded from the store |
| ConsentScreen.ConsentViewModel.LoadConsentState | app/src/main/java/com/example/csuper/viewmodel/ConsentViewModel.kt:29-42 | the state becomes the one loaded from the store's consents |
| ConsentScreen.ConsentViewModel.Toggle | app/src/main/java/com/example/csuper/viewmodel/ConsentViewModel.kt:44-50 | negates the flag in the state and writes the new value to the flag's key |
| ConsentScreen.ConsentViewModel.ToggleLocationConsent | app/src/main/java/com/example/csuper/viewmodel/ConsentViewModel.kt:44-50 | only `locationConsent` flips; the store gets the new value under the location key |
| ConsentScreen.ConsentViewModel.ToggleMicrophoneConsent | app/src/main/java/com/example/csuper/viewmodel/ConsentViewModel.kt:52-58 | the same for the microphone |
| ConsentScreen.ConsentViewModel.ToggleCameraConsent | app/src/main/java/com/example/csuper/viewmodel/ConsentViewModel.kt:60-66 | the same for the camera |
| ConsentScreen.ConsentViewModel.ToggleSensorsConsent | app/src/main/java/com/example/csuper/viewmodel/ConsentViewModel.kt:68-74 | the same for the sensors |
| ConsentScreen.ConsentViewModel.ToggleAccessibilityConsent | app/src/main/java/com/example/csuper/viewmodel/ConsentViewModel.kt:76-82 | the same for accessibility |
| ConsentScreen.ConsentViewModel.ToggleUsageStatsConsent | app/src/main/java/com/example/csuper/viewmodel/ConsentViewModel.kt:84-90 | the same for usage stats |
| ConsentScreen.ConsentViewModel.CompleteConsent | app/src/main/java/com/example/csuper/viewmodel/ConsentViewModel.kt:92-96 | the store gets the first-launch edit; the screen state is untouched |

## Left out

- Floating point: the statistics are computed over reals. Float widening to Double, rounding and NaN/infinity are not modelled.
- SensorSummary.Summarize: the square root is left out, so the summary keeps the mean of squares instead of `rms`.
- Gson is not modelled as text. The `values` column is a `Payload` datatype (a number array, a JSON object, `null` or unparsable text), and decoding is a function on it. The summary is kept as a datatype rather than JSON text.
- Integer widths are not modelled: keys, timestamps and counts are unbounded integers. Long/Int overflow and AUTOINCREMENT reaching its maximum key are out of scope.
- Coroutines, `withContext`, `Flow` and `collect` are left out; every step is one sequential call.
  - A `Flow` getter is a function of the current state.
  - `loadConsentState`'s collection is one call of `LoadConsentState` per emission.
  - The handler's launched insert-and-correlate runs to completion inside `OnAccessibilityEvent`.
  - Interleavings are not modelled.
- The wall clock is the parameter `now`:
  - in `correlateRecentEvents`;
  - in `setConsent`;
  - for the accessibility row's timestamp;
  - as the default of `createdAt`. That default is read when the correlation row is built, and the model uses the same `now`.
- Storage failures, exceptions from Room and DataStore, and the encryption of the database are left out.
- The model keeps boolean and long entries in two maps, where the DataStore has one map of typed keys. The source's key names never collide (TimestampKeyPairing), so reading a key with the wrong type is not modelled.
- Rows.InsertAll: its own contract states the invariant, key retention and size bounds only. The DAO `InsertAll` methods tie their result to this function; the exact rows come from its definition by repeated `Insert`.
- Accessibility.Take counts Dafny characters, whereas Kotlin's `take` counts UTF-16 code units. Surrogate pairs are not modelled.
- The platform parts of the accessibility service are left out:
  - its configuration in `onServiceConnected`;
  - `onInterrupt` and `onDestroy`;
  - Hilt injection.
- `correlateRecentEvents` accepts `limit` and ignores it, as the source does.
- Rows with equal sort keys come back in storage order: `Between` and `Newest` sort stably. SQL's `ORDER BY timestamp` leaves their relative order unspecified. So when two UI rows share a timestamp, the order in which `CorrelateRecentEvents` writes their correlations, and the keys they get, are one of the orders the database may choose.
- Not part of this model: the Repository, the encryption helper, the export code, the foreground sensor service, the usage-stats worker and scheduler, the foreground and permission-usage tables, and all Compose screens and the dashboard view model.
