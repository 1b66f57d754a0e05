# Prolific activity tracker: a verified model of its core

Prolific records what a person does at the computer. A collector
(`prolific.py`) writes one flat log per day: the foreground window every few
seconds, key counts per interval, notes and a blog post. All of these files
use the line format `"<ts> <value>"`, and they are named after the day's
7 AM start (`rewind7am.py`). `storage.py` keeps the same events in SQLite.
It offers live inserts, blog upserts and per-day fetches, and it backfills
from the legacy flat logs with a change-detection ledger. `export_events.py`
turns the logs into per-day JSON and a manifest. `processing_engine.py` and
`data.py` aggregate the events. Two browser pages then work on the export:
the day page (`day_app.js`) and the overview (`overview_app.js`). Both page
scripts classify window titles with the last matching rule of
`render_settings.js`.

This project models that core in Dafny and proves properties of the model.

- Pure code is written as functions and lemmas about them.
- Code that changes state step by step is written as classes and methods with loops. `Store.EventStore` owns the tables, `DayApp.DayView` the day page's globals and `OverviewApp.Overview` the overview's globals.
- Every method is proved against a function of its inputs or of the old state. The lemmas then state what the source promises about those functions.

| file | models |
|---|---|
| `day_boundary.dfy` | `rewindTime` under a fixed UTC offset |
| `text.dfy`, `seqs.dfy`, `sorting.dfy`, `wrappers.dfy` | `strip`, the sanitisers, `split`, `int`/`str`, file lines, filtering and stable sorting |
| `log_files.dfy` | log file names, the glob patterns and `LOG_NAME_RE` |
| `legacy_import.dfy` | `_legacy_file_records` and the line rules of `_import_legacy_event_file` |
| `store.dfy` | the event store of `storage.py`: its tables, its live operations and the backfill |
| `backfill_props.dfy` | what `backfill_from_legacy_logs` guarantees |
| `line_format.dfy` | the round trips of the shared line format |
| `export_events.dfy` | `load_events`, `read_blog`, `collect_timestamps` and `updateEvents` |
| `note.dfy`, `collector.dfy` | `note.py`, and the decisions of the collector loops in `prolific.py` |
| `processing_engine.dfy` | flow states, usage and keystroke aggregation, and the reports |
| `key_buckets.dfy` | `process_key_events` in `data.py` |
| `title_map.dfy` | `mapwin` over `title_mappings` |
| `window_events.dfy`, `day_app.dfy`, `overview_app.dfy` | the integer parts of the two pages |

Where the prose description of the system and the code differ, the model
follows the code.

- The description mentions a 3-per-day coffee quota enforced by storage, a max-collapse of key counts, the removal of duplicate window events and an inferred idle event in the export. None of these is in the code of `storage.py` or `export_events.py`, so none is modelled.
- The description says live rows are never touched by a backfill. The live event rows are indeed never touched (`BackfillProps.BackfillKeepsLiveRows`). A blog file, however, overwrites a live blog entry of the same day, because of the `ON CONFLICT(day_t0)` clause (`BackfillProps.BlogFileReplacesItsDay`).

## Model

| member | source | states |
|---|---|---|
| DayBoundary.SecondsIntoDay | rewind7am.py:16 | the seconds since local midnight lie in [0, 86400) |
| DayBoundary.LocalHour | rewind7am.py:16-18 | the local clock hour `datetime.fromtimestamp(t).hour` lies in [0, 24) |
| DayBoundary.RewindTime | rewind7am.py:5-34 | an error exactly for a negative timestamp (`ValueError`, carrying it) or one whose local time, or the previous day, `datetime` cannot hold; otherwise the result reads 07:00 on the local clock and lies in (t - 86400, t] |
| DayBoundary.RewindValue | rewind7am.py:12-13 | a non-numeric argument is rejected; a numeric one is rewound as an integer timestamp |
| DayBoundary.DayStartShift | rewind7am.py:18-24 | either branch (hour at least 7, or before 7 with one day subtracted) lands on a 07:00 instant at or before t and within a day of it |
| DayBoundary.DayStartsUnique | rewind7am.py:18-28 | two 07:00 instants less than a day apart are the same instant |
| DayBoundary.DayStartBelow | rewind7am.py:18-28 | any 07:00 instant at or before t is at or before rewindTime(t) |
| DayBoundary.RewindCharacterised | rewind7am.py:5-28 | rewindTime(t) is the one 07:00 instant d with d <= t < d + 86400 |
| DayBoundary.DayStartRewindable | rewind7am.py:20-34 | the day start of an accepted timestamp is itself accepted exactly when it is not negative: it never falls before 07:00 of year 1 |
| DayBoundary.RewindIdempotent | rewind7am.py:5-28 | rewinding a non-negative day start gives the same day start (which is itself in `datetime`'s range) |
| DayBoundary.RewindOfEpochRejected | rewind7am.py:12-13 | at UTC, t = 0 rewinds to -61200, which rewindTime itself rejects |
| DayBoundary.RewindMonotone | rewind7am.py:5-28 | a later timestamp never rewinds to an earlier day |
| DayBoundary.SameDay | rewind7am.py:5-28 | two timestamps rewind to the same day exactly when the second lies in the first's [d, d + 86400) window |
| Note.LogNote | note.py:7-34 | fails exactly when rewindTime rejects the note's timestamp (given, or the clock reading): negative or outside `datetime`'s range |
| Note.NoteTarget | note.py:21-28 | the note is written to `logs/notes_<d>.txt` for the 07:00 day start d of its timestamp, as one whole line |
| Note.NoteFileFound | note.py:24-25 | the file log_note writes to is a notes log that the readers' glob and regular expression accept, carrying the same day stamp |
| Note.NoteReadBack | note.py:27-32 | appending the note's line adds exactly the event (timestamp, sanitised note) to load_events' result, and exactly that row, inside the day's window, to the storage importer's rows, with no new malformed line |
| Note.EmptyNoteLine | note.py:27-28 | a note that sanitises to nothing still writes a line; load_events skips it and the storage importer counts it as malformed |
| LogFiles.KindOfName | storage.py:10 | a kind is reported only when the name starts with that kind's `<kind>_` prefix |
| LogFiles.ParseLogName | storage.py:10 | a match is a valid capture (a non-empty digit run) whose rendering is the name itself |
| LogFiles.ParseStampPart | storage.py:10 | the part after `<kind>_` is matched only when it is digits, `.txt` and at most one trailing line break |
| LogFiles.KindOfNameUnique | storage.py:10 | the four prefixes differ in their first letter, so a name has at most one kind |
| LogFiles.GlobMatch | storage.py:226-228 | a name the pattern `<kind>_*.txt` accepts has that kind and no other |
| LogFiles.ParseRender | storage.py:10 | parsing the rendering of any valid capture gives that capture back |
| LogFiles.StampPartRender | storage.py:10 | the stamp part of a rendered capture parses back to the capture |
| LogFiles.StampPartBreak | storage.py:10 | digits, `.txt` and one line break are accepted, with the line break recorded |
| LogFiles.StampPartPlain | storage.py:10 | digits and `.txt` are accepted, with no line break recorded |
| LogFiles.GlobExcludesTrailingBreak | storage.py:11-16 | a name that both the glob pattern and the regular expression accept has no trailing line break, and its kind is the pattern's |
| LogFiles.LogFileNameRoundTrip | export_events.py:52-64 | the name `<kind>_<t0>.txt` that the writers give a day file is found by the glob and the regular expression, and yields the stamp t0 |
| LogFiles.HarvestMember | export_events.py:57-63 | a stamp is harvested from a listing exactly when some listed name yields it |
| LogFiles.CollectTimestamps | export_events.py:52-64 | the result is the sorted set of stamps that the four patterns harvest from the listing |
| LogFiles.PatternStampsMember | export_events.py:57-63 | a stamp is in the union over the four patterns exactly when some kind and listed name yield it |
| LogFiles.CollectedStamp | export_events.py:52-64 | a stamp is collected exactly when some listed name is a log file of some kind carrying that stamp |
| LegacyImport.GlobOne | storage.py:227-228 | the files one pattern yields are listed files that match the pattern |
| LegacyImport.PathLeTotalPreorder | storage.py:238 | ordering records by absolute path is a total preorder |
| LegacyImport.LegacyFileRecords | storage.py:225-238 | the records are the globbed files that LOG_NAME_RE accepts, sorted by path |
| LegacyImport.GlobFiles | storage.py:226-228 | the files are the four patterns' matches, pattern by pattern, in listing order |
| LegacyImport.MatchFiles | storage.py:229-237 | the records are, in order, the files whose base name LOG_NAME_RE accepts, with their kind, day stamp and path |
| LegacyImport.MatchedRecordsFrom | storage.py:229-237 | every matched record comes from a listed file whose name the regular expression accepts, and carries that name's kind, stamp and path |
| LegacyImport.RecordFromListing | storage.py:225-238 | every record names a listed file that both a glob pattern and the regular expression accept |
| LegacyImport.GlobbedKind | storage.py:226-228 | a globbed file is in the listing and matches the pattern of the kind returned |
| LegacyImport.TextValue | storage.py:331-334 | an accepted window or notes value is sanitised (no line breaks, no outer whitespace) and non-empty; a text value is never malformed |
| LegacyImport.CountValue | storage.py:323-330 | an accepted key count is never negative |
| LegacyImport.ClassifyLine | storage.py:305-335 | an accepted line's stamp lies in [day_t0, day_t0 + 86400) and its value is what the value rule makes of the text after the first space |
| LegacyImport.ClassifyFields | storage.py:305-335 | a stripped line of the form `<stamp> <value>` is out of day, malformed, dropped or accepted according to the stamp's day and the value rule alone |
| LegacyImport.ParseLegacyLines | storage.py:303-335 | the rows are the accepted lines in file order and the count is the number of malformed lines; together they never exceed the number of lines |
| LegacyImport.LinesPrefix | storage.py:305-335 | one more line adds its row, if accepted, or one to the malformed count, if malformed |
| LegacyImport.AcceptedRowsWithin | storage.py:320-335 | every row lies in the day's window and carries a value the value rule produced |
| LegacyImport.TextRowsClean | storage.py:331-335 | imported window and note texts are sanitised and non-empty |
| LegacyImport.CountRowsNonNegative | storage.py:323-335 | imported key counts are never negative |
| LegacyImport.TextMalformedMeansBadStamp | storage.py:309-318 | a text line is malformed only for a missing space or an unparsable stamp |
| Store.Append | storage.py:340-355 | the table afterwards holds the old rows followed by exactly the inserted column values, in order; ascending AUTOINCREMENT ids below the counter stay so |
| Store.Clear | storage.py:271-279 | the rows afterwards are the old rows less those whose `source_path` is the path (NULL never matches), order kept; ids stay valid |
| Store.ClearKeepsValid | storage.py:271-279 | deleting rows keeps the ids ascending and below the AUTOINCREMENT counter |
| Store.EntriesFilter | storage.py:271-279 | deleting rows and then dropping their ids gives the same column values as dropping the ids first |
| Store.FetchDay | storage.py:178-205 | a fetch is a permutation of the rows with that `day_t0`, contains a row exactly when it is in the table with that day, and is ordered by `(t, id)` |
| Store.FetchOrdered | storage.py:178-185 | the fetched events come in non-decreasing `t` |
| Store.FetchEventsOfDay | storage.py:178-185 | a `(t, s)` pair is fetched for a day exactly when some row of that day holds it |
| Store.TidLeTotalPreorder | storage.py:182 | `ORDER BY t ASC, id ASC` is a total preorder |
| Store.ListDayTimestamps | storage.py:208-222 | strictly increasing, and a day is listed exactly when some row of one of the four tables carries it |
| Store.LiveInsert | storage.py:108-141 | an error exactly for a timestamp rewindTime rejects (negative, or a local time outside `datetime`'s years 1 to 9999, or before 07:00 of its first day); otherwise the table gains one row, `(ts, rewindTime(ts), s, NULL)`, after the old ones |
| Store.ClampCount | storage.py:123 | the stored count is at least 0 and at least the given count, and equals it when that is not negative |
| Store.GetBlogEntry | storage.py:168-175 | a day without an entry reads as "" |
| Store.UpsertThenGet | storage.py:144-175 | after an upsert the day reads back the post with no source; every other day reads as before; the set of days gains the day |
| Store.InsertThenFetch | storage.py:108-185 | a live event is fetched back for the day rewindTime gives it, and that day is among the table's days |
| Store.NeedsImport | storage.py:241-254 | the file's current mtime and size are returned with the decision |
| Store.NeedsImportDecides | storage.py:241-254 | a forced run or an unrecorded path is imported; otherwise the file is imported exactly when its mtime or size differs from the ledger's |
| Store.MarkThenSkip | storage.py:257-268 | after marking a file, an unforced check of the unchanged file skips it; other paths' ledger rows are untouched |
| Store.KeepBlog | storage.py:278-279 | the entries kept are exactly those not imported from the paths, unchanged |
| Store.FileRowsWithin | storage.py:320-335 | every row a file yields lies in [day_t0, day_t0 + 86400), carries the file's day_t0 and names the file as its source |
| Store.RunSnoc | storage.py:377-389 | the run over one more record is the run so far followed by one loop iteration, its summary added |
| Store.EventStore.constructor | storage.py:55-101 | a new store holds the empty database that init_db creates |
| Store.EventStore.InsertWindowEvent | storage.py:108-117 | fails and changes nothing exactly for a timestamp rewindTime rejects (negative, or a local time outside `datetime`'s years 1 to 9999, or before 07:00 of its first day); otherwise only the window table changes, by the live insert of the sanitised title |
| Store.EventStore.InsertKeyfreqEvent | storage.py:120-129 | fails and changes nothing exactly for a timestamp rewindTime rejects (negative, or a local time outside `datetime`'s years 1 to 9999, or before 07:00 of its first day); otherwise only the keyfreq table changes, by the live insert of `max(0, count)` |
| Store.EventStore.InsertNoteEvent | storage.py:132-141 | the timestamp defaults to the clock; fails and changes nothing exactly when rewindTime rejects it; otherwise only the notes table changes, by the live insert of the sanitised note |
| Store.EventStore.UpsertBlogEntry | storage.py:144-160 | only the blog map changes: the day holds the post, the clock reading and no source |
| Store.EventStore.UpsertBlogForTimestamp | storage.py:163-165 | fails and changes nothing exactly for a timestamp rewindTime rejects (negative, or a local time outside `datetime`'s years 1 to 9999, or before 07:00 of its first day); otherwise upserts the post for rewindTime of the timestamp |
| Store.EventStore.MarkImportedFile | storage.py:257-268 | only the ledger changes: the path holds the file's mtime, size and the clock reading |
| Store.EventStore.ClearImported | storage.py:271-279 | only the kind's table changes: the rows imported from the path are deleted |
| Store.EventStore.ImportLegacyEventFile | storage.py:282-356 | the database and the `(inserted, malformed)` counts are those of importing the file: a blog file replaces its day's entry and counts one row; other kinds append their accepted lines, tagged with the day and path |
| Store.EventStore.BackfillStep | storage.py:377-389 | one loop iteration: an up-to-date file only counts as seen; otherwise its old rows are cleared, the file imported, the ledger updated, and the summary counts it |
| Store.EventStore.BackfillFromLegacyLogs | storage.py:359-391 | the database and summary are those of running the loop over the sorted matching records of the log directory listing |
| ExportEvents.LoadedEvents | export_events.py:25-47 | a sequence of lines never yields more events than it has lines |
| ExportEvents.LoadEvents | export_events.py:16-49 | a missing file gives no events; otherwise the events are the surviving lines, one each, in file order, never more than there are lines |
| ExportEvents.LoadedEventsAppend | export_events.py:25-47 | reading two runs of lines one after the other gives their events one after the other: no reordering, no deduplication |
| ExportEvents.LoadedEventsOnePerLine | export_events.py:25-47 | when no line is skipped there is exactly one event per line, in line order, whatever its stamp: no day window |
| ExportEvents.LoadedEventsNone | export_events.py:25-47 | lines that are all skipped yield no events |
| ExportEvents.LoadBlank | export_events.py:26-28 | a blank or whitespace-only line is skipped |
| ExportEvents.LoadFields | export_events.py:26-47 | a line `<head> <tail>` is skipped exactly when the head is not an integer (or, when casting, the stripped tail is not); otherwise the event has the head as stamp and the tail verbatim, or cast, as value |
| ExportEvents.LoadLine | export_events.py:25-47 | a kept line has a space once stripped, and its value is a number exactly when the caller asked for one |
| ExportEvents.LoadedEventsSnoc | export_events.py:25-47 | one more line appends its event, when it has one, and nothing else |
| ExportEvents.DayFilesSnoc | export_events.py:88-104 | one more stamp appends exactly that day's file |
| ExportEvents.ReadBlog | export_events.py:67-71 | a missing blog file reads as "", an existing one as its whole text |
| ExportEvents.Manifest | export_events.py:107 | the manifest has one entry per collected stamp |
| ExportEvents.ManifestAt | export_events.py:89-107 | entry i of the manifest is `{t0, t0 + 86400, events_<t0>.json}` for the i-th stamp |
| ExportEvents.DayFiles | export_events.py:88-104 | one output file per collected stamp |
| ExportEvents.UpdateEvents | export_events.py:74-112 | nothing is written exactly when no day stamp is found; otherwise the payloads and the manifest are those of the ascending collected stamps |
| ExportEvents.ExportDays | export_events.py:88-107 | the loop writes one payload and one manifest entry per stamp, in order |
| ExportEvents.ManifestSnoc | export_events.py:107 | one more stamp appends exactly its entry to the manifest |
| ExportEvents.ExportDay | export_events.py:89-104 | the output name is `events_<t0>.json` and the payload reads the day's window, keyfreq (cast to int), notes and blog files |
| ExportEvents.ExportNameInjective | export_events.py:90 | different days get different output file names |
| ExportEvents.ManifestShape | export_events.py:88-107 | over strictly ascending stamps the manifest is in strictly ascending day order, each entry spans one day and names its own file, and no two entries share a file |
| ExportEvents.ManifestOfListing | export_events.py:52-107 | the manifest's days are strictly ascending and are exactly the stamps of the listed log files |
| LineFormat.FormattedIsLine | prolific.py:49-51 | a written event with a one-line value is exactly one line of the file |
| LineFormat.FormattedStrip | storage.py:306 | the stripped written line is the stamp, one space and the value |
| LineFormat.ExportReadsText | export_events.py:25-47 | load_events reads a written text value back verbatim, with its stamp |
| LineFormat.ExportReadsCount | export_events.py:41-47 | load_events with `cast_int_value` reads a written count back as that integer |
| LineFormat.ImporterReadsText | storage.py:305-335 | the storage importer accepts a written text value exactly when its stamp lies in the file's day, and stores it unchanged; otherwise the line is out of day |
| LineFormat.ImporterReadsCount | storage.py:305-335 | the importer accepts a written count in the file's day when it is not negative, and drops it otherwise |
| LineFormat.EmptyValueLine | storage.py:309-312 | a line written for an empty value is skipped by load_events and counted malformed by the importer |
| LineFormat.EmptyValueStripped | storage.py:306 | stripped, a line written for an empty value is its timestamp alone |
| LineFormat.AppendThenExport | export_events.py:24-49 | appending a written text line to a file of whole lines adds exactly one event at the end of what load_events returns |
| LineFormat.AppendThenImport | storage.py:303-335 | appending a written text line in the file's day adds exactly one row at the end of what the importer takes, and no malformed line |
| Collector.IdleMillis | prolific.py:26-33 | the idle time lies in [0, 2^32) ms; 0 when GetLastInputInfo fails; the true elapsed time when no wrap-around happened |
| Collector.IdleAcrossWrap | prolific.py:32 | when the tick counter wraps between the last input and now, the 32-bit mask still gives the true elapsed time |
| Collector.ConstantsClean | prolific.py:56-66 | the marker titles and process names the collector writes are already sanitised |
| Collector.ActiveWindowSnapshot | prolific.py:54-73 | idle gives `("__IDLE__", "idle")`; no foreground window gives `("__LOCKEDSCREEN", "unknown.exe")`; otherwise the sanitised window text, or `__LOCKEDSCREEN` when it is empty; the title is always sanitised and non-empty and the process name sanitised |
| Collector.PayloadClean | prolific.py:84 | the payload `<title> (<process>)` of a snapshot is one trimmed, non-empty line |
| Collector.DayLogPath | prolific.py:44-46 | an error exactly for a time rewindTime rejects (negative or outside `datetime`'s range); otherwise the file `logs/<prefix>_<d>.txt` of the 07:00 day start d with d <= t < d + 86400 |
| Collector.WindowRun | prolific.py:80-96 | a run of polls writes at most one line per poll |
| Collector.WindowRunLast | prolific.py:80-96 | the last poll of a run is one loop iteration after the run before it |
| Collector.WindowRunPrefix | prolific.py:80-96 | one more poll of a run is one more loop iteration |
| Collector.PollOnce | prolific.py:81-94 | the new `last_payload`, `last_write_time` and the line written are those of one poll |
| Collector.LogActiveWindows | prolific.py:76-96 | the lines written over a run of polls are those of the polls in turn, from `last_payload = None, last_write_time = 0` |
| Collector.WindowStepDecides | prolific.py:84-94 | a line is written exactly when the payload changed or the heartbeat elapsed and the clock is valid; it goes to the day's window file, and only then do `last_payload` and `last_write_time` become the payload and the clock |
| Collector.WindowStep | prolific.py:81-94 | a poll either leaves the state alone and writes nothing, or writes one line stamped with the clock whose payload is clean and non-empty and becomes `last_payload`, with the clock as `last_write_time` |
| Collector.FirstPollWrites | prolific.py:77-92 | the first poll with a valid clock always writes its payload |
| Collector.WindowStateIsLastWrite | prolific.py:87-92 | after a run the loop state is the payload and time of the last line written, or the initial state when none was |
| Collector.WritesSpaced | prolific.py:85 | two consecutive lines repeat a payload only when at least the heartbeat separates them |
| Collector.SpacedSnoc | prolific.py:85 | a line that differs from the last one, or comes a heartbeat after it, keeps the lines spaced |
| Collector.WritesInTheirDay | prolific.py:88-89 | every line goes to the window file of its own day and carries a clean, non-empty payload |
| Collector.WindowLineReadBack | prolific.py:89 | a window line is read back by load_events as `{t, s: payload}` and accepted by the storage importer for its day |
| Collector.LogKeyFrequency | prolific.py:99-125 | the keyfreq lines are those of the releases and flushes in turn: each flush logs the bucket and resets it; a rewindTime error ends the logger |
| Collector.KeyCountsConserved | prolific.py:103-121 | until the logger stops, every key release is counted exactly once: the logged counts plus the open bucket are all the releases |
| Collector.KeyStep | prolific.py:103-121 | a stopped logger ignores events; a release adds one to the bucket; a flush empties the bucket, appends `<now> <count>` to the day's keyfreq file when the day can be computed, and otherwise stops the logger with nothing written |
| Collector.FlushLogsBucket | prolific.py:114-121 | a flush logs the bucket as it stood, to the day's keyfreq file, and leaves it empty |
| Collector.KeyLineReadBack | prolific.py:121 | a keyfreq line is read back by load_events with `cast_int_value` as its count and accepted by the storage importer for its day |
| ProcessingEngine.Zip | processing_engine.py:53 | only the first min(|ks|, |ws|) rows are paired, index by index |
| ProcessingEngine.RunEnd | processing_engine.py:53-64 | the hot run starting at `lo` ends at the first pair below the threshold, or at the end |
| ProcessingEngine.RunBounds | processing_engine.py:53-71 | every run bound lies inside the pairs, non-empty, at or after the starting point |
| ProcessingEngine.StatesOf | processing_engine.py:55-64 | one state per run bound, each built from its run's pairs |
| ProcessingEngine.RunBoundsMaximal | processing_engine.py:53-71 | every run bound is a maximal run of pairs at or above the threshold, and the bounds are ascending and disjoint |
| ProcessingEngine.RunEndAt | processing_engine.py:54-64 | a run hot on [lo, hi) and cold (or ended) at hi ends at hi |
| ProcessingEngine.RunBoundsComplete | processing_engine.py:53-71 | every maximal hot run at or after the starting point is among the run bounds |
| ProcessingEngine.FlowStatesAreRuns | processing_engine.py:42-73 | the flow states are exactly the maximal hot runs, one state per run in input order, each spanning its run's first to last timestamp with the first pair's title and the summed counts; no run is missed |
| ProcessingEngine.FlowFromClosed | processing_engine.py:53-71 | from a run boundary with no open state, the loop yields the states of the runs ahead |
| ProcessingEngine.FlowFromOpen | processing_engine.py:53-71 | with a run open, the loop finishes that run, appends its state, then yields the states of the later runs |
| ProcessingEngine.FlowFromStart | processing_engine.py:50-73 | the loop started with no open state yields the reference states of the maximal runs |
| ProcessingEngine.CalculateFlowStates | processing_engine.py:42-73 | the result is one flow state per maximal run of paired rows whose count reaches the threshold |
| ProcessingEngine.AddTo | processing_engine.py:84 | `d[key] = d.get(key, 0) + v` either keeps the number of entries or appends the new key last |
| ProcessingEngine.Keys | processing_engine.py:84 | the keys of a dict, in insertion order |
| ProcessingEngine.AddToFacts | processing_engine.py:84 | adding to a key changes that key's value by v and no other; a new key goes last; keys stay distinct; the total grows by v |
| ProcessingEngine.DistinctTail | processing_engine.py:84 | the tail of a dict with distinct keys has distinct keys, without the head's |
| ProcessingEngine.DistinctCons | processing_engine.py:84 | a new key in front of distinct keys keeps them distinct |
| ProcessingEngine.GetAbsent | processing_engine.py:84 | an absent key reads as 0 |
| ProcessingEngine.AggregateFacts | processing_engine.py:80-86 | the aggregated dict has one entry per distinct key, each key mapping to the sum of its values, the values adding up to the sum of all items |
| ProcessingEngine.AggregateWindowUsage | processing_engine.py:75-86 | the dict is built from the rows' `(title, duration)` items in row order |
| ProcessingEngine.UsageItems | processing_engine.py:82-84 | one `(title, duration)` item per row, in order |
| ProcessingEngine.WindowUsageSums | processing_engine.py:75-86 | window usage lists each title of the rows exactly once, and its durations add up to the rows' total |
| ProcessingEngine.SumAllUsage | processing_engine.py:82-84 | the items' values add up to the total duration |
| ProcessingEngine.Before | processing_engine.py:98 | `s.split(c)[0]` is the longest prefix of s without c, followed in s by c when shorter than s |
| ProcessingEngine.HourKey | processing_engine.py:98 | fails (IndexError) exactly when the timestamp has no space; otherwise the hour key holds no space and no colon |
| ProcessingEngine.HourItems | processing_engine.py:96-99 | the only failure is the missing hour field, and otherwise there is one item per row |
| ProcessingEngine.HourItemsFail | processing_engine.py:96-99 | the items fail exactly when some timestamp has no space |
| ProcessingEngine.HourItemsValues | processing_engine.py:96-99 | otherwise item k pairs row k's hour key with its count |
| ProcessingEngine.HourItemsPrefix | processing_engine.py:96-99 | one more row with an hour key appends its item |
| ProcessingEngine.AggregateKeystrokes | processing_engine.py:88-104 | the result is the failure of the first row without an hour field, or the total and the hourly dict of all rows |
| ProcessingEngine.KeystrokeTotals | processing_engine.py:88-104 | fails exactly when some timestamp has no space; otherwise the total is the sum of the counts, the hourly values add up to it, and each hour appears once |
| ProcessingEngine.SumAllHours | processing_engine.py:96-99 | the hourly items' values add up to the total keystrokes |
| ProcessingEngine.HourOfDateTime | processing_engine.py:98 | the hour key of `YYYY-MM-DD HH:MM:SS` is `HH` |
| ProcessingEngine.HourField | processing_engine.py:98 | the part of `HH:rest` before the first space, cut at the first colon, is `HH` |
| ProcessingEngine.BeforeOf | processing_engine.py:98 | splitting text without c followed by a tail stops where the tail's split does |
| ProcessingEngine.GenerateOverview | processing_engine.py:119-131 | the overview carries its start and end dates; its window usage lists each title of the range's rows once, with the sum of its durations, adding up to the rows' total; its keystroke summary fails exactly when some timestamp has no space, and otherwise totals the counts over distinct hours |
| ProcessingEngine.GenerateDailyBreakdown | processing_engine.py:106-117 | the breakdown carries its one date; its window usage lists each title of the day's rows once, with the sum of its durations, adding up to the rows' total; its keystroke summary fails exactly when some timestamp has no space, and otherwise totals the counts over distinct hours |
| ProcessingEngine.DailyIsOneDayOverview | processing_engine.py:106-131 | a day's breakdown has the window usage and keystrokes of the overview from that day to itself |
| KeyBuckets.BucketBounds | data.py:33 | `(t // interval) * interval`, with Python's floor division, is a multiple of the interval whose interval holds t: [start, start + interval) for a positive interval, (start + interval, start] for a negative one |
| KeyBuckets.FloorDiv | data.py:33 | Python's `a // b` rounds down: `q * b <= a < q * b + b` for a positive divisor, and the mirror bounds for a negative one |
| KeyBuckets.AcceptedStamps | data.py:27-38 | the accepted lines are at most all the lines |
| KeyBuckets.ReportOf | data.py:42-45 | one output line per interval start, with that start's count |
| KeyBuckets.AcceptedPrefix | data.py:27-38 | one more line adds its timestamp when it has one, and nothing otherwise |
| KeyBuckets.BucketsSnoc | data.py:33-36 | one more timestamp adds its interval start once |
| KeyBuckets.TallyOne | data.py:36 | `interval_counts[start] += 1` on the defaultdict adds the start once to the tally |
| KeyBuckets.CountIntervals | data.py:26-38 | fails (ZeroDivisionError) exactly when the interval is 0 and some line is accepted; otherwise `interval_counts` tallies each accepted line's interval start |
| KeyBuckets.CountLine | data.py:27-38 | one line fails exactly when the interval is 0 and the line has a timestamp; otherwise the tally covers one more line |
| KeyBuckets.StampedLineAccepted | data.py:27-38 | a line with a timestamp makes the accepted timestamps non-empty |
| KeyBuckets.ProcessKeyEvents | data.py:9-45 | the result is the ZeroDivisionError, or the report of the accepted lines' interval counts |
| KeyBuckets.TalliesKeys | data.py:42-43 | the tally's keys are exactly the non-empty interval starts, each with its count |
| KeyBuckets.ListReport | data.py:42-45 | one output line per start, in the order given, with its count |
| KeyBuckets.ReportShape | data.py:41-45 | the output lists each non-empty interval exactly once, in strictly ascending order, with its count of accepted lines (at least 1) |
| KeyBuckets.OneLineMore | data.py:27-38 | an accepted line adds exactly one to its own interval; a skipped line changes nothing |
| KeyBuckets.ReportSum | data.py:26-45 | the counts in the output add up to the number of accepted lines |
| KeyBuckets.BucketsSize | data.py:33-36 | the tally holds one entry per accepted timestamp |
| KeyBuckets.SumDistinct | data.py:42-44 | summing the counts over all the distinct starts gives the number of accepted lines |
| KeyBuckets.BagSumOther | data.py:42-44 | starts other than x read the same with x's count cleared |
| KeyBuckets.ReportCountSum | data.py:42-45 | the output's counts add up to the sum of the tally over the starts |
| KeyBuckets.ValueIgnored | data.py:29-30 | only the text before the first space is read: the rest of the line does not matter |
| KeyBuckets.MalformedSkipped | data.py:29-38 | a line is skipped exactly when it has no space or its first field is not an integer |
| WindowEvents.WithDurations | prolific_deployment/render/day_app.js:652-671 | statEvents changes only `dt`: each event lasts until the next one starts, and the last one second |
| WindowEvents.PrefixDurations | prolific_deployment/render/day_app.js:657-670 | the durations of the events before event k add up to the time from the first event to event k |
| WindowEvents.DurationsTile | prolific_deployment/render/day_app.js:652-671 | all durations add up to the span from the first event to the last plus the last event's one second |
| WindowEvents.StampStep | prolific_deployment/render/day_app.js:659-660 | stamping event k with the time until event k + 1 extends the stamped prefix by one |
| WindowEvents.StampedLast | prolific_deployment/render/day_app.js:670 | once all but the last event have their durations, giving the last 1 second completes them |
| WindowEvents.StampPrevious | render/overview_app.js:161-163 | the event before i gets the time until event i as its `dt`, nothing else in the array changes, and that duration and the earlier event's title are returned |
| WindowEvents.OrderedDurations | render/overview_app.js:159-171 | events in time order get no negative duration |
| WindowEvents.DurationsIdempotent | render/overview_app.js:154-172 | filling in the durations a second time changes nothing |
| WindowEvents.NonFinalTitles | render/overview_app.js:159-163 | one credited title per event but the last |
| WindowEvents.NonFinalSnoc | render/overview_app.js:159-163 | one more event adds the title of the event before it |
| WindowEvents.TimeInSnoc | render/overview_app.js:159-165 | one more event adds the time until it to the title of the event before it |
| WindowEvents.CreditToTotals | render/overview_app.js:159-168 | after crediting k events, the titled totals are those already there and those of the credited events, each grown by the time spent in it |
| WindowEvents.CreditAsWritten | render/overview_app.js:164-168 | the pages' totals (a new title starts at 0) have the same titles as the corrected ones, and agree with them, time spent added in full, on every title that already had a total |
| WindowEvents.CreditAsWrittenToFacts | render/overview_app.js:164-168 | after the first k events the pages' totals name the earlier titles and the titles of the events before the k-th, and each earlier title has gained its time spent in those events |
| WindowEvents.Credit | render/overview_app.js:154-172 | with the first duration credited in full, each title's total grows by exactly the time spent in it, and the titles with a total are those already there and those of every event but the last |
| WindowEvents.FirstDurationLost | render/overview_app.js:164-168 | for events A at 0, A at 10 and B at 30 the code as written gives A 20 seconds, while A was shown for 30 |
| WindowEvents.ListedStep | prolific_deployment/render/day_app.js:662-667 | adding a title keeps `etypes` listing exactly the keys of `ecounts`: a title not yet a key is appended |
| WindowEvents.Register | prolific_deployment/render/day_app.js:662-667 | the first-seen list keeps what it had in front and grows by at most one title per credited event |
| WindowEvents.RegisterFacts | prolific_deployment/render/day_app.js:662-667 | the first-seen list gains exactly the new titles, and never lists a title twice |
| WindowEvents.ListToRegister | prolific_deployment/render/day_app.js:657-669 | the list after k events is the first-seen registration of the credited titles |
| WindowEvents.RegisterAppend | prolific_deployment/render/day_app.js:657-669 | registering two runs of titles one after the other is registering them together |
| DayApp.JsLeadingSpace | prolific_deployment/render/day_app.js:263-264 | `parseInt` skips leading white space and line terminators, up to the first other character |
| DayApp.DigitRun | prolific_deployment/render/day_app.js:263-264 | the digit run read is all digits and ends at the first non-digit |
| DayApp.JsParseDigits | prolific_deployment/render/day_app.js:263-264 | a digit run reads as a non-negative number |
| DayApp.JsParseInt | prolific_deployment/render/day_app.js:263-264 | a number is read exactly when, after the leading white space and at most one sign, a digit follows; a negative number needs a leading '-' |
| DayApp.DigitRunOf | prolific_deployment/render/day_app.js:263-264 | digits followed by a non-digit form a run of exactly those digits |
| DayApp.DigitsRead | prolific_deployment/render/day_app.js:263-264 | a digit run reads as its decimal value, whatever non-digit text follows |
| DayApp.UnsignedRead | prolific_deployment/render/day_app.js:263-264 | `parseInt` of digits followed by a non-digit is their value |
| DayApp.NegativeRead | prolific_deployment/render/day_app.js:263-264 | `parseInt` of `-` and digits is the negated value |
| DayApp.MinusRead | prolific_deployment/render/day_app.js:263-264 | a leading minus negates what the digits read, and without digits there is no number |
| DayApp.JsParseIntOfString | prolific_deployment/render/day_app.js:263-264 | a number written in decimal reads back with `parseInt(x, 10)`, whatever non-digit text follows it |
| DayApp.ParseCoffee | prolific_deployment/render/day_app.js:262-267 | an entry is kept exactly when its `t` and `mg` parse and `mg` is positive, and then holds the parsed values |
| DayApp.CoffeeLeTotal | prolific_deployment/render/day_app.js:268 | ordering coffees by `t` is a total preorder |
| DayApp.NormalizeCoffee | prolific_deployment/render/day_app.js:261-269 | sorted by `t`, and a permutation of the entries that parse with positive `mg`; a missing list counts as empty |
| DayApp.FilterMapMembers | prolific_deployment/render/day_app.js:262-268 | the kept values are exactly those some entry parses to |
| DayApp.NormalizeCoffeeKeeps | prolific_deployment/render/day_app.js:261-269 | a coffee is in the result exactly when some logged entry parses to it, every kept amount is positive, and a missing list gives no coffees |
| DayApp.BuildCoffeePlan | prolific_deployment/render/day_app.js:281-298 | cups taken and left (at most 3 a day), the cutoff 8 hours before bedtime, and the next slots: 3 hours apart from now or 3 hours after the last cup, none after the cutoff, no more than the cups left, stopping only at the cutoff or the limit |
| DayApp.SlotsFitting | prolific_deployment/render/day_app.js:292-298 | slots taken while they fit number min(cups left, how many 3-hour steps fit before the cutoff) |
| DayApp.NoSlotsAtLimit | prolific_deployment/render/day_app.js:283 | with the daily limit reached no slot is offered |
| DayApp.DayView.constructor | prolific_deployment/render/day_app.js:5-6 | the page starts with no totals and no titles |
| DayApp.DayView.CreditTitle | prolific_deployment/render/day_app.js:661-667 | the title's total grows by dt (its first duration included, as corrected under Findings); a title not yet listed is appended; `etypes` keeps listing the keys of `ecounts` |
| DayApp.DayView.StatEvent | prolific_deployment/render/day_app.js:657-669 | one loop pass stamps the previous event and credits and lists its title, extending the stamped, credited and listed prefixes by one event |
| DayApp.DayView.StatEvents | prolific_deployment/render/day_app.js:652-671 | every event gets its duration; `ecounts` is the old totals credited with every event but the last; `etypes` is the old list with each new title appended the first time it is credited |
| DayApp.StatTitles | prolific_deployment/render/day_app.js:662-667 | from an empty page, `etypes` lists exactly the credited titles, each once |
| DayApp.ComputeFocusCounts | prolific_deployment/render/day_app.js:84-136 | the active seconds, switches, short hops and deep blocks are those of the events with a title and a positive duration that are not idle, locked or task switching |
| DayApp.FocusedEvents | prolific_deployment/render/day_app.js:96-102 | the statistics look at exactly the counted events, in order |
| DayApp.CountedBounds | prolific_deployment/render/day_app.js:104-136 | over counted events, switches are fewer than events, short hops and deep blocks are disjoint, and the active time is at least a second per event plus 1499 per deep block |
| DayApp.FocusBounds | prolific_deployment/render/day_app.js:96-136 | fewer switches than counted events, short hops and deep blocks never the same event, active time at least a second per event and 25 minutes per deep block, and positive exactly when some event is counted |
| OverviewApp.MapStep | render/overview_app.js:144-146 | mapping event k extends the mapped prefix by one event |
| OverviewApp.MappedKeeps | render/overview_app.js:143-152 | mapEvents changes only `m`, which depends on `s` alone; mapping again changes nothing |
| OverviewApp.ShownSnoc | render/overview_app.js:147-150 | a title not seen before gets a switch set to false; a title already seen keeps its switch |
| OverviewApp.ShownAppend | render/overview_app.js:143-152 | processing two runs of titles one after the other is processing them together |
| OverviewApp.ShownListed | render/overview_app.js:147-150 | with the switches keyed by the listed titles, they stay keyed by the list; old switches are kept and each new title's is false |
| OverviewApp.Overview.constructor | render/overview_app.js:174-177 | the page starts with no categories, no switches and no per-day totals |
| OverviewApp.Overview.AddTitle | render/overview_app.js:147-150 | a title not yet listed is appended and gets a false switch; a listed one changes nothing; the switches keep matching the list |
| OverviewApp.Overview.MapEvents | render/overview_app.js:143-152 | every event gets `m = mapwin(s)` and nothing else changes; the list gains the new titles in first-seen order; each new title's switch is false |
| OverviewApp.Overview.ToggleSkip | render/overview_app.js:32-38 | clicking entry i flips that category's switch and changes nothing else |
| OverviewApp.Overview.AnalyzeEvents | render/overview_app.js:174-190 | every day's events are mapped and get their durations; the category list and switches cover the titles of all days in day order; `edur[k]` is day k's credited totals, starting from an empty map |
| OverviewApp.Overview.MapDays | render/overview_app.js:179-182 | every day is mapped; the list and switches gain the titles of all days in day order |
| OverviewApp.Overview.StatDays | render/overview_app.js:185-189 | each day gets its durations and its totals from an empty map, in day order; the list and switches are untouched |
| OverviewApp.MapOne | render/overview_app.js:145-146 | event i gets its mapped title, which is the ith title of the mapped day |
| OverviewApp.CreditOne | render/overview_app.js:164-168 | the title's total grows by dt, a missing title counting from 0 (the corrected crediting under Findings) |
| OverviewApp.StatEvent | render/overview_app.js:159-169 | one loop pass stamps the previous event and credits its title, extending the stamped and credited prefixes by one |
| OverviewApp.StatEvents | render/overview_app.js:154-172 | every event gets its duration, and the totals are the given ones credited with every event but the last |
| OverviewApp.BinIndexBounds | render/overview_app.js:230-233 | bin b covers the ten minutes from t0 + 600b; an event falls in some bin exactly when it lies in [t0, t0 + 145 * 600) |
| OverviewApp.DayBins | render/overview_app.js:219-224 | a day has 145 bins |
| OverviewApp.AddBins | render/overview_app.js:236 | adding bins bin by bin keeps their number |
| OverviewApp.AddBinsUpdate | render/overview_app.js:236-239 | adding keys to one day bin adds them to the same global bin |
| OverviewApp.GlobalBins | render/overview_app.js:219-239 | the global bins are 145 too |
| OverviewApp.BinsSnoc | render/overview_app.js:229-243 | one more event adds its keys to its bin and to the day's total if it falls in a bin, and changes nothing otherwise |
| OverviewApp.SumUpdate | render/overview_app.js:234-235 | replacing one bin changes the sum by the difference |
| OverviewApp.SumAddBins | render/overview_app.js:236-241 | the sum of bins added bin by bin is the sum of both |
| OverviewApp.SumZeros | render/overview_app.js:219-224 | fresh bins sum to 0 |
| OverviewApp.DayBinsTotal | render/overview_app.js:227-244 | a day's bins hold exactly the keys of its total `ktot` |
| OverviewApp.GlobalBinsTotal | render/overview_app.js:212-249 | the global bins hold exactly the sum of the days' totals, `sum_kevents_global` |
| OverviewApp.DaysBinnedStep | render/overview_app.js:245 | pushing day k's bins extends the binned days by one |
| OverviewApp.TotalsStep | render/overview_app.js:247-248 | pushing day k's total and raising the maximum keeps the totals, their sum and the maximum (one of the totals or 0) |
| OverviewApp.GlobalStep | render/overview_app.js:236-239 | adding day k's bins to the global bins of the earlier days gives the global bins of the first k + 1 days |
| OverviewApp.MaximaStep | render/overview_app.js:237-240 | raised maxima that bound the new bins keep bounding all bins |
| OverviewApp.DrawKeyBins | render/overview_app.js:192-254 | nothing without days; otherwise every day's 145 bins and total, the global bins, their sum, and maxima of at least 1 bounding every bin and total, the total maximum being 1 or one of the totals |
| OverviewApp.BinDay | render/overview_app.js:212-249 | one day's pass extends bins, totals, global bins, sum and maxima from the first k days to the first k + 1 |
| OverviewApp.ClampMaxima | render/overview_app.js:251-254 | raising the maxima to at least 1 gives what the page draws from |
| OverviewApp.NewBins | render/overview_app.js:219-224 | fresh zero bins for the day; the global bins are made beside the first day's |
| OverviewApp.BucketDay | render/overview_app.js:227-244 | the day's bins, its total and how they add to the global bins and sum; maxima that bound the new bins |
| OverviewApp.CountKeys | render/overview_app.js:229-243 | one event extends the day's bins, total, global bins and sum by itself, and the maxima keep bounding them |
| BackfillProps.StepWindow | storage.py:271-356 | a file step changes the window table only when the file needs importing, and then by clearing that file's rows and appending its parsed rows if it is a window file |
| BackfillProps.StepKeyfreq | storage.py:271-356 | the same for the keyfreq table, with counts parsed |
| BackfillProps.StepNotes | storage.py:271-356 | the same for the notes table |
| BackfillProps.TablesOfKinds | storage.py:271-354 | each event table is fed by the files of its own kind only |
| BackfillProps.NumberedTagged | storage.py:335-354 | every row an import appends names its file and its day, and lies inside that day's window |
| BackfillProps.TableStepKeepsLive | storage.py:271-279 | clearing a file's rows and appending new ones leaves every live (`source_path` NULL) row in place, in order |
| BackfillProps.RunKeepsLive | storage.py:377-389 | a run over any files leaves a table's live rows as they were |
| BackfillProps.BackfillKeepsLiveRows | storage.py:359-391 | a backfill, forced or not, never changes the live rows of the window, keyfreq and notes tables |
| BackfillProps.TableStepRows | storage.py:282-356 | after a file step a row was there before or came from that file |
| BackfillProps.RunRows | storage.py:377-389 | after a run every row was there before or came from one of the run's files of the table's kind |
| BackfillProps.BackfillRowsFromFiles | storage.py:359-391 | every row a backfill leaves in an event table was there before, or comes from one of the listed files of its kind, naming that file and day and lying inside the day's window |
| BackfillProps.StepBlog | storage.py:278-301 | an imported blog file clears the blog rows of its path, then writes its day's entry |
| BackfillProps.BackfillKeepsLiveBlog | storage.py:278-300 | a live blog entry survives a backfill unless some blog file names its day |
| BackfillProps.BlogFileReplacesItsDay | storage.py:290-300 | an imported blog file replaces its day's entry, even one a live upsert wrote, with its text, the import time and its path |
| BackfillProps.StepLedger | storage.py:257-268 | a step records its file at its current `(mtime, size)` and leaves every other ledger row as it was |
| BackfillProps.RunCoversLedger | storage.py:377-389 | after a run the ledger holds every listed file's current `(mtime, size)` |
| BackfillProps.SkipWhenCovered | storage.py:241-254 | with every file recorded at its current `(mtime, size)`, an unforced run changes nothing and counts every file seen and none imported |
| BackfillProps.UnforcedRerunChangesNothing | storage.py:359-391 | after any backfill, an unforced rerun over the same files changes nothing and imports nothing |
| Store.Step | storage.py:377-389 | one file is seen and at most one imported; it is imported exactly when the ledger says so, and then its ledger entry becomes `(mtime, size, now)`; otherwise the database and the counts are untouched |
| Store.Run | storage.py:377-389 | every file is seen; at most every file is imported, and exactly every file when forced |
| Store.Backfill | storage.py:359-391 | the files seen are the matched records of the globbed listing; at most all of them are imported, and all of them when forced |
| BackfillProps.ForcedTableRun | storage.py:377-389 | a forced run imports every record into its table |
| BackfillProps.EmittedTagged | storage.py:335 | the rows a run's files yield all name one of those files |
| BackfillProps.ClearThenAppend | storage.py:271-354 | clearing a path the earlier rows do not carry, after rows of other paths, leaves those rows and the new ones |
| BackfillProps.TableRunEntries | storage.py:359-391 | after a forced run (distinct paths) a table holds its earlier rows minus those of the run's files, then every file's rows in order |
| BackfillProps.TableRunTwice | storage.py:359-391 | a second forced run leaves a table's rows, ids aside, as one forced run does |
| BackfillProps.BlogImportsTagged | storage.py:290-300 | the entries a forced run writes all name one of its blog files |
| BackfillProps.BlogImportsKeys | storage.py:290-300 | which days a forced run writes does not depend on the time |
| BackfillProps.ForcedBlog | storage.py:278-301 | after a forced run the blog holds the old entries not from its files, overwritten by the files' entries day by day |
| BackfillProps.BlogTwice | storage.py:278-300 | clearing and rewriting the same days twice is rewriting them once |
| BackfillProps.ForcedLedger | storage.py:257-268 | a forced run writes a ledger row for every file and no other |
| BackfillProps.StepLedgerForced | storage.py:257-268 | a forced step writes its file's ledger row and no other |
| BackfillProps.LedgerImportsKeys | storage.py:257-268 | which paths a forced run records does not depend on the time |
| BackfillProps.ForcedRerunSameContents | storage.py:359-391 | forcing a second backfill over the same distinct files leaves the contents one forced backfill at that time leaves: every imported row once, ids aside |
| BackfillProps.ListingRecordsDistinct | storage.py:225-238 | a directory's entries, whose names are distinct, give legacy records with distinct paths: no file is globbed by two patterns or listed twice |
| BackfillProps.UnforcedBackfillRerun | storage.py:359-391 | backfilling the same directory again without `force` sees as many files as the first run, imports none and leaves the database as it was |
| BackfillProps.ForcedBackfillRerun | storage.py:359-391 | backfilling the same directory twice with `force` leaves the contents one forced backfill at the second time leaves |
| BackfillProps.TableRerun | storage.py:359-391 | the forced-rerun property for one event table |
| BackfillProps.BlogRerun | storage.py:278-300 | the forced-rerun property for the blog table |
| BackfillProps.LedgerRerun | storage.py:257-268 | the forced-rerun property for the ledger |
| TitleMap.MapWin | render/render_settings.js:27-37 | the category is the `mapto` of the last rule that matches, or 'MISC' |
| TitleMap.LastMatchIs | render/render_settings.js:27-37 | 'MISC' when no rule matches; otherwise the `mapto` of a matching rule after which no rule matches |
| TitleMap.LaterRuleOverrides | render/render_settings.js:30-35 | when several rules match, the last of them decides |
| TitleMap.LastMatchRange | render/render_settings.js:27-37 | the category is 'MISC' or the `mapto` of some rule |
| TitleMap.TitleMappings | render/render_settings.js:3-25 | 21 rules, the last two mapping `__IDLE__` to 'Idle' and `__LOCKEDSCREEN` to 'Locked Screen' |
| TitleMap.LockedScreenLast | render/render_settings.js:24 | a title containing `__LOCKEDSCREEN` is always 'Locked Screen', whatever the other patterns |
| TitleMap.IdleSecondToLast | render/render_settings.js:23-24 | a title containing `__IDLE__` but not `__LOCKEDSCREEN` is always 'Idle' |
| TitleMap.SnapshotCategories | prolific.py:54-73 | a window line written while idle shows as 'Idle', and one written with no foreground window as 'Locked Screen', whatever the other patterns |
| Text.LeadingSpace | storage.py:306 | the whitespace `strip` removes in front: all whitespace, ending at the first other character |
| Text.TrailingSpace | storage.py:306 | the whitespace `strip` removes at the end: all whitespace, after the last other character |
| Text.Strip | storage.py:306 | neither end of `s.strip()` is whitespace |
| Text.StripOf | storage.py:306 | `strip` removes exactly the whitespace padding around a trimmed core |
| Text.StripTrimmed | storage.py:306 | stripping trimmed text gives it back |
| Text.ReplaceLineBreaks | storage.py:105 | CR and LF become spaces and every other character stays |
| Text.Sanitize | storage.py:104-105 | the result is one trimmed line |
| Text.SanitizeClean | storage.py:104-105 | sanitising one trimmed line gives it back |
| Text.SanitizeIdempotent | storage.py:104-105 | sanitising twice is sanitising once |
| Text.SplitFirstSpace | storage.py:309-312 | `split(" ", 1)` gives two parts exactly when there is a space: the text before the first space and the rest after it |
| Text.SplitJoin | storage.py:309-313 | a head without spaces joined by one space to any tail splits back into them |
| Text.NatToString | storage.py:335 | `str(n)` of n >= 0: decimal digits of value n, no leading zero |
| Text.IntToString | storage.py:335 | `str(n)` is one non-empty word without spaces or line breaks |
| Text.ParseIntToString | storage.py:325 | `int(str(n)) == n` |
| Text.ParseInt | storage.py:325 | an accepted text is, once stripped, a sign or digit followed by digits only, and only a leading '-' gives a negative value |
| Text.LineLength | storage.py:305 | a file's first line ends at its first '\n', which it includes, or at the end of the text |
| Text.LinesAppend | storage.py:305 | appending one line to a file that ends with a line break adds exactly that line to what a reader sees |
| Text.LinesFirstLine | storage.py:305 | appending after a non-empty file leaves its first line alone |
| Text.Lines | storage.py:304-305 | a file yields at most as many lines as it has characters |
| Text.LinesConcat | storage.py:304-305 | the lines put back together are the whole text: nothing is lost or added |
| Text.LinesShape | storage.py:304-305 | every line but the last ends with its only line break; the last is non-empty and has no line break before its end |

## Left out

- The file system, `os.stat`, `glob` and `os.makedirs`: file contents, directory listings and `(mtime, size)` are inputs. Opening, reading and appending files and writing JSON are not modelled.
- SQLite mechanics (connections, pragmas, SQL text, `_WRITE_LOCK`): the tables are in-memory sequences and maps updated one operation at a time.
- Threads, signal handling, sleeping between polls and the OS capture calls (window handles, process names, idle ticks, key listeners): each one becomes a parameter of the step that uses it.
- The clock (`time.time()`, `datetime.now()`, `Date.now()`): the current time is a parameter. In `note.py` a missing timestamp becomes this parameter.
- Local time zones and DST: local time is a fixed offset in seconds east of UTC.
- Floating point: `int(float(s))` is read as an integer parse, so text such as `"1.5e9"` is not accepted. JavaScript numbers are read as exact integers (see DayApp.JsParseInt). The focus-tax penalty, the entropy and coherence, `tax_pct`, the caffeine decay and the idle-seconds division are not modelled.
- `parseSleepTime` and the JavaScript `Date` arithmetic: the bedtime stamp is an input of `DayApp.BuildCoffeePlan`.
- Regular expressions of `title_mappings`: each one is an abstract predicate on the title. Only the two literal markers `__IDLE__` and `__LOCKEDSCREEN` are substring tests.
- The JSON shape of the export and the page data: events are records with the fields the code reads. The `print` and log messages are not modelled.
- All drawing (d3, jQuery), `d3utils.js`, the Flask/HTTP layers, the tray app, `local_data_store.py` and the one-off scripts.
- The repository's test cases that call functions absent from the code (`insert_coffee_event`) or expect export behaviour the code lacks (max-collapse, idle insertion): they do not describe the modelled code.
- OverviewApp.Overview.AnalyzeEvents: it requires the per-day event arrays to be distinct objects, as the page's loaded days are. Aliasing between days is not modelled.
- OverviewApp.StatEvents: the page passes `ecounts` as an object that it fills in place; the model returns the new map instead. The `edur` entry the object belongs to is set from that result.
- OverviewApp.DrawKeyBins: the maxima are stated to be at least 1 and to bound every bin; for the global and per-day bins they are not stated to be the least such bound. The totals' maximum is stated exactly: it is 1 or one of the totals.
- DayApp.ComputeFocusCounts: only the integer counters (active seconds, switches, short hops, deep blocks) are modelled. The tax seconds, the entropy, the coherence and `tax_pct` are floating point.
- DayApp.DayView.CreditTitle and DayApp.DayView.StatEvents credit a title's first duration in full (the corrected crediting under Findings). The code as written is `WindowEvents.CreditAsWritten`.
- OverviewApp.CreditOne, OverviewApp.StatEvent and OverviewApp.StatEvents use the same corrected crediting.
- DayApp.DayView.StatEvent: credits a title's first duration in full, the corrected crediting under Findings; the page as written starts a new title at 0 (`WindowEvents.CreditAsWritten`).
- OverviewApp.Overview.StatDays: fills `edur` with the corrected crediting (`WindowEvents.Credit`); the page as written loses each title's first duration per day (`WindowEvents.CreditAsWritten`).
- OverviewApp.Overview.AnalyzeEvents: its per-day totals use the corrected crediting too, for the same reason.
- Text.ParseInt: accepts ASCII digits only. Python's `int` also accepts `_` between digits and non-ASCII decimal digits; such text is read as malformed here.
- LegacyImport.CountValue: reads counts with Text.ParseInt, so `_` separators and non-ASCII digits count as malformed. A count above 2^63 - 1 makes SQLite's insert raise an OverflowError that aborts the backfill; the model stores any integer.
- LegacyImport.ClassifyLine: reads the stamp with Text.ParseInt. `int(float(s))` also accepts decimals, exponents, `nan` (a ValueError, skipped) and `inf`, whose OverflowError aborts the backfill; none of these forms is modelled.
- ExportEvents.LoadFields: the same integer reading of the stamp and the count; `int(float("inf"))` raises an OverflowError, which load_events does not catch, and is not modelled.
- ExportEvents.LoadLine: as ExportEvents.LoadFields.
- KeyBuckets.LineStamp: reads `int(timestamp)` with Text.ParseInt: ASCII digits, no `_`.
- KeyBuckets.MalformedSkipped: "not an integer" means not accepted by Text.ParseInt, which is narrower than Python's `int`.
- LogFiles.ParseStampPart: `\d` of LOG_NAME_RE also matches non-ASCII decimal digits; the model accepts ASCII digits only.
- Store.Step: one `now` serves the whole backfill, where the source reads `time.time()` again for each file's ledger entry and blog row (storage.py:267, storage.py:299).
- Store.Run: as Store.Step, one clock reading for every file.
- Store.Backfill: as Store.Step, one clock reading for every file.
- Text.Lines: splits on '\n' only, so the text is taken after Python's newline translation; a lone '\r' is not a line end here.
- DayApp.JsParseInt: yields the exact integer; JavaScript's `parseInt` yields a double, which rounds values above 2^53.

## Findings

| source | as written | input that shows it | evidently intended | confidence | as-written member | corrected member |
|---|---|---|---|---|---|---|
| render/overview_app.js:164-168 | the first time a title is seen, `statEvents` sets `ecounts[tmap] = 0`, discarding that event's `dt`; the per-day totals in `edur` shown by the time summaries lose each title's first duration | events A at 0, A at 10 and B at 30: A is shown for 30 seconds, but its total is 20 | `ecounts[tmap] = dt`, so that each title's total is the time spent in it | not executed | WindowEvents.FirstDurationLost | WindowEvents.Credit |
| prolific_deployment/render/day_app.js:662-666 | the same initialisation to 0 in the day page's `statEvents`; `ecounts` is not read elsewhere on that page, so only `etypes` is affected by the loop | events A at 0, A at 10 and B at 30: `ecounts["A"]` is 20 | `ecounts[tmap] = dt` | not executed | WindowEvents.FirstDurationLost | WindowEvents.Credit |
