# Music streaming on Cassandra: a verified model of the denormalisation core

This project models the part of the music-streaming analytics pipeline that
changes and reads the store. The keyspace `music_streaming` has three tables,
each laid out around the one question that reads it:

- `songs_by_session`, keyed by `(session_id, item_in_session)`;
- `songs_by_user_session`, partitioned by `(user_id, session_id)` and
  clustered by `item_in_session`;
- `users_by_song`, partitioned by `song_title` and clustered by `user_id`.

The model covers four pieces of the program:

- the schema layer, which creates and drops the keyspace;
- the ETL loader, which filters event records, fans each one out into the
  three tables and counts every write;
- the three queries;
- the statement splitter and execution loop that run a CQL file.

The store is reduced to what the program relies on (module `Store`):

- a keyspace flag and the set of created tables;
- one finite map per table, from primary key to row.

A write is an upsert by primary key. A partition scan returns its rows in
ascending clustering order.

The driver session is a class `Session`. It holds the store and the number of
executes issued so far. Two constants stand for what the driver and the server
decide:

- `fails`, a fault oracle: the k-th execute raises when `fails(k)` holds or
  when the store refuses the statement. Lemmas are stated for an arbitrary oracle, so they cover every
  pattern of transport failures.
- `parse`, the server's reading of statement text. It is used only for the
  text of a CQL file.

CQL `INT` is a signed 32-bit column. The Python driver refuses to bind an
`int` outside that range, and the `execute` raises. The model states this as
the store refusing the INSERT: a tuple binds only when its INT values fit in
32 bits (`Models.Binds`), the refused execute still counts, and the loader
counts an error. A prepared SELECT with an id argument outside 32 bits raises
the same way, and its query answers the empty result. The store invariant
`Store.Wf` says every stored row fits, so the store holds no row a Cassandra
table could not.

Cassandra also refuses an empty value for a single-column partition key.
`users_by_song` is partitioned by `song_title` alone, so an INSERT with an
empty song title is refused in the same way. A SELECT on `users_by_song`
with an empty title raises at the server, and query 3 answers the empty list.

The modules follow the program's files:

- `Models` (`models.dfy`): the table layouts and the statements.
- `Store` (`store.dfy`): the store and the session.
- `Schema` (`schema.dfy`): `initialize_schema` and `drop_schema`.
- `Etl` (`etl.dfy`): `MusicStreamingETL`.
- `Queries` (`queries.dfy`): `QueryExecutor`.
- `Connection` (`connection.dfy`): `execute_cql_file`.

Each stateful operation of the source is a method. Its `ensures` ties the new
state to a pure specification function of the old state: `Step`, `RunScript`,
`InsertInto`, `FanOut`, `LoadAll`, `ReadInput` (built on `ReadRows`), `RunPipeline`, or the three
query functions. The properties the program promises are lemmas about those
functions.

The loader behaves as follows at its edges:

- Rows with an empty artist are dropped but not counted. `rows_read` counts
  only the rows kept.
- There is one `errors` counter, not one per table.
- If the data carries no `artist` column at all, `row['artist']` raises
  `KeyError`. `read_csv` re-raises it and `run` returns False. The rows kept
  before that row have already been counted in `rows_read`.
- `run` reads the whole input before it issues any write. A read failure
  therefore leaves the store untouched.

## Model

| member | source | states |
|---|---|---|
| `Models.ColumnNames` | src/models.py:17-23 | the column-name list has one name per column, in declaration order |
| `Models.StatementsMatchLayout` | src/models.py:16-86 | each INSERT names exactly the table's columns in declaration order, with 5, 7 and 4 placeholders; key and SELECT columns are columns of the table; the point lookup restricts the full primary key, the two scans exactly the partition key |
| `Models.DecodesIffConforms` | src/models.py:17-80 | the store reads a bound tuple back as a row exactly when it has one bindable value per column (the declared type, and for an INT a value within 32 bits) and, for `users_by_song`, a non-empty `song_title` partition key |
| `Models.EncodeDecodeRoundTrip` | src/models.py:90-113 | binding a row and reading it back gives the same row exactly when the row can be stored (INT fields within 32 bits; for `users_by_song` a non-empty song title), and is refused otherwise; the bound tuple conforms to the table's columns under the same condition |
| `Models.TableCreateStatements` | src/models.py:115-120 | exactly three table creations, pairwise distinct, covering all three tables, in the order `songs_by_session`, `songs_by_user_session`, `users_by_song` |
| `Store.Apply` | src/models.py:122-141 | only DROP removes schema, an accepted INSERT needs its table, statements other than INSERT and DROP leave every row as it is, and text the server rejects is refused |
| `Store.Upsert` | src/models.py:23 | an insert lands exactly when its tuple binds, so never under an empty `song_title`; then the decoded row sits under its own key, every other key keeps its row, and the schema and the other two tables are unchanged |
| `Store.ApplyPreservesWf` | src/models.py:23-73 | no statement breaks the store invariant: every row sits under its own key, every row fits (INT columns within 32 bits, no empty `users_by_song` partition key), and only created tables hold rows |
| `Store.CreationKeepsRows` | src/models.py:8 | a creation statement never changes any row, and on an initialised store it changes nothing |
| `Store.InsertAcceptedIff` | src/models.py:27-31 | an INSERT lands exactly when its table exists and the tuple conforms to the columns: INT values within 32 bits, and a non-empty `song_title` for `users_by_song` |
| `Store.UpsertReplaces` | src/models.py:23 | a second write with the same primary key replaces the first, in each of the three tables |
| `Store.InsertIdempotent` | src/models.py:23 | repeating an accepted INSERT leaves the store as the first one left it |
| `Store.Ascending` | src/models.py:24 | the clustering values of a partition, one entry per value |
| `Store.AscendingEnumerates` | src/models.py:24 | the clustering order lists every value of the partition once, nothing else, strictly ascending |
| `Store.LookupSongsBySession` | src/models.py:33-37 | the point lookup returns at most one row: the one stored at the full key, if any |
| `Store.ScanSongsByUserSession` | src/models.py:48-49 | the partition scan returns one row per clustering value of the partition; its order and contents are stated by `ScanSongsByUserSessionIsPartitionInOrder` |
| `Store.ScanUsersBySong` | src/models.py:72-73 | the partition scan returns one row per clustering value of the partition; its order and contents are stated by `ScanUsersBySongIsPartitionInOrder` |
| `Store.ScanSongsByUserSessionIsPartitionInOrder` | src/models.py:48-49 | the scan of a `(user_id, session_id)` partition returns each of its rows once and nothing else, in strictly ascending `item_in_session` |
| `Store.ScanUsersBySongIsPartitionInOrder` | src/models.py:72-73 | the scan of a `song_title` partition returns each of its rows once and nothing else, in strictly ascending `user_id`, so at most one row per user |
| `Store.RunScript` | src/models.py:123-132 | a script run counts its executes, succeeds only when all ran, and keeps the store invariant |
| `Store.RunScriptStopsAtFirstFailure` | src/models.py:123-132 | on success every prefix succeeded; on failure it ran the statements before the failing one, the failing one, and nothing after it |
| `Store.RunScriptAfterFailure` | src/models.py:130-132 | once a prefix has failed, the remaining statements never run |
| `Store.RunScriptOfNoOps` | src/models.py:8 | a script of statements that change nothing leaves the store as it is, and succeeds exactly when the oracle lets every execute through |
| `Store.Session.constructor` | src/connection.py:27-35 | the session `cluster.connect()` returns is attached to the store as it stands, with no execute issued yet |
| `Store.Session.Execute` | src/models.py:124 | `session.execute` behaves as one `Step` and keeps the store invariant |
| `Store.Session.ExecuteText` | src/connection.py:81 | executing statement text behaves as one `Step` on the server's reading of the text |
| `Store.Session.SelectSongsBySession` | src/queries.py:47-50 | the prepared lookup raises when the oracle says so, the table is missing or an id argument lies outside 32 bits, and otherwise returns the rows at the full key; the store is not written |
| `Store.Session.SelectSongsByUserSession` | src/queries.py:87-90 | the prepared scan raises when the oracle says so, the table is missing or `user_id` or `session_id` lies outside 32 bits, and otherwise returns the partition in clustering order; the store is not written |
| `Store.Session.SelectUsersBySong` | src/queries.py:130-133 | the prepared scan raises when the oracle says so, the table is missing or the song title is empty, and otherwise returns the partition in clustering order; the store is not written |
| `Schema.InitializeSchema` | src/models.py:122-132 | the keyspace statement, `set_keyspace`, then the three creations in order; the result and the new state are those of `RunScript` over `InitStatements` |
| `Schema.DropSchema` | src/models.py:134-141 | one DROP KEYSPACE execute; True with an empty store exactly when it was not refused, False with the store unchanged otherwise |
| `Schema.InitStatements` | src/models.py:122-127 | the five statements `initialize_schema` executes: the keyspace, `set_keyspace`, then the three table creations in layout order, all of them creations |
| `Schema.CreationsKeepRows` | src/models.py:122-127 | a script made only of creations never changes any row |
| `Schema.CreationScriptSucceeds` | src/models.py:122-132 | a creation script that starts with the keyspace succeeds exactly when the oracle lets all its executes through, and then the keyspace and every table it names exist |
| `Schema.InitializeSchemaEstablishesSchema` | src/models.py:122-132 | `initialize_schema` never loses a row; it returns True exactly when its five executes all go through, and then the keyspace and all three tables exist |
| `Schema.InitializeSchemaIdempotent` | src/models.py:122-132 | on an initialised store `initialize_schema` changes neither the schema nor a row, whichever executes fail, and succeeds exactly when none does |
| `Schema.InitializeAfterDrop` | src/models.py:122-141 | after a DROP that went through, `initialize_schema` succeeds exactly when its five executes do, and then the keyspace and exactly the three tables exist, all empty |
| `Etl.ParseIntShowInt` | src/etl.py:61-62 | the `int()` model reads every integer's decimal text back as that integer |
| `Etl.ParseInt` | src/etl.py:61 | a parsed cell is non-empty, all decimal digits after an optional leading sign, negative only after '-'; all-digit text parses to its decimal value, and a sign followed by digits to that value, negated after '-'; `Etl.ParseIntShowInt` gives the inverse |
| `Etl.Params` | src/etl.py:56-106 | a built tuple has one value per placeholder of the table's INSERT, each of its column's type; `Etl.ParamsFitTable` states when it binds |
| `Etl.ParamsFitTable` | src/etl.py:56-106 | a tuple the loader builds conforms to its table exactly when the projected row can be stored (INT fields within 32 bits; for `users_by_song` a non-empty song title), and the store then reads it back as that row; such an insert is refused only for a missing table, an out-of-range id or an empty song title |
| `Etl.ProjectionsAgree` | src/etl.py:56-106 | the three rows of one event agree on every shared field; an event that projects into `songs_by_user_session` also projects into `users_by_song` (not conversely: `sessionId` may be missing), and then into `songs_by_session` exactly when it has a `length` |
| `Etl.SongBySessionOf` | src/etl.py:60-66 | the `songs_by_session` row of an event, when its cells are present and its ids parse; specified by `ProjectionsAgree` and `ParamsFitTable` |
| `Etl.SongByUserSessionOf` | src/etl.py:77-85 | the `songs_by_user_session` row of an event; specified by `ProjectionsAgree` and `ParamsFitTable` |
| `Etl.UserBySongOf` | src/etl.py:96-101 | the `users_by_song` row of an event; specified by `ProjectionsAgree` and `ParamsFitTable` |
| `Etl.InsertInto` | src/etl.py:56-106 | one `insert_into_*` call bumps exactly one counter, its table's insert counter or `errors`, and leaves `rows_read` alone |
| `Etl.InsertIntoEffect` | src/etl.py:56-106 | a write is counted as an insert exactly when the row projects and can be stored (INT fields within 32 bits, a non-empty song title for `users_by_song`), the table exists and the execute went through, and then the table holds the event's row; only that table changes, and its keys grow by exactly the row's key; an error changes nothing; an execute is issued exactly when the tuple could be built |
| `Etl.InsertIntoEmptySongTitle` | src/etl.py:92-106 | an event whose `song` cell is empty has its `users_by_song` write counted as an error, with the store unchanged |
| `Etl.InsertIntoSettled` | src/models.py:23 | writing a row that is already stored changes nothing, whatever the execute does |
| `Etl.FanOut` | src/etl.py:108-111 | `load_event`: the three writes in order; specified by `FanOutCounts`, `FanOutSettles`, `FanOutPassing`, `FanOutKeys`, `FanOutOfSettled` and `FanOutPreserves` |
| `Etl.FanOutCounts` | src/etl.py:108-111 | `load_event` attempts all three writes: the attempts rise by exactly three, each insert counter by at most one |
| `Etl.FanOutSettles` | src/etl.py:108-111 | when none of its three writes is counted as an error, all three tables hold the event's rows |
| `Etl.FanOutOfSettled` | src/etl.py:108-111 | loading an event whose rows are all stored already changes no table, whatever the oracle does |
| `Etl.FanOutKeys` | src/etl.py:108-111 | `load_event` never removes a key and adds to each table at most the event's key there; with no write error it adds exactly those keys |
| `Etl.InsertIntoNoOp` | src/etl.py:56-106 | a write whose row cannot be bound, is stored already, or whose table is missing leaves the store unchanged, whatever the execute does |
| `Etl.FanOutPassing` | src/etl.py:108-111 | when none of its executes raises, `load_event` keeps the schema, raises each insert counter exactly when that table exists and the row binds, and then stores the row |
| `Etl.ReplayIsNoOp` | src/etl.py:108-111 | replaying an event whose first load raised on no execute (including events whose writes the data or the schema refused) leaves all three tables as they are, whatever the second run's executes do; the attempts rise by three, and when the replay's executes pass too, each insert counter and `errors` rise by as much as the first time |
| `Etl.LoadAll` | src/etl.py:125-126 | the drain loop over the events in order; specified by `LoadAllCounts`, `LoadAllKeys`, `LoadAllErrorsGrow` and `LoadAllComplete` |
| `Etl.LoadAllCounts` | src/etl.py:125-126 | draining the events makes exactly three write attempts per event, leaves `rows_read` alone, and issues at most three executes per event |
| `Etl.LoadAllKeys` | src/etl.py:125-126 | draining the events never removes a key and adds to each table only keys of the events' rows; with no write error exactly those keys |
| `Etl.FanOutPreserves` | src/etl.py:108-111 | loading another event leaves a stored row alone unless the other event has the same key in that table |
| `Etl.LoadAllErrorsGrow` | src/etl.py:56-106 | the error counter never decreases while events are drained |
| `Etl.LoadAllComplete` | src/etl.py:125-126 | after a load with no write error, every table holds the row of every event that no later event overwrites there, and each table's keys are its old keys plus exactly the events' keys |
| `Etl.WithArtistAppend` | src/etl.py:41-44 | the artist filter distributes over concatenation, so it keeps input order |
| `Etl.WithArtistKeeps` | src/etl.py:41-44 | the filter keeps exactly the rows with a non-empty artist, and never more rows than it was given |
| `Etl.ReadRows` | src/etl.py:38-54 | `read_csv`'s row loop; specified by `ReadRowsIsFilter` and `ReadRowsAfterFailure` |
| `Etl.ReadInput` | src/etl.py:34-54 | `read_csv`: a missing file raises; otherwise `rows_read` grows by the rows kept and the events are returned when every row could be read; specified through `ReadRows` |
| `Etl.ReadRowsIsFilter` | src/etl.py:38-54 | reading succeeds exactly when every row has the artist column, and then keeps exactly the rows with a non-empty artist, in order; otherwise it stops at the first row without the column, having kept the qualifying rows before it |
| `Etl.ReadRowsAfterFailure` | src/etl.py:38-54 | once a row cannot be read, no later row is read |
| `Etl.RunPipeline` | src/etl.py:113-139 | `run`: read, then drain; specified by `RunPipelineOutcome`, `CounterTotal` and `RunPipelineOfEmpty` |
| `Etl.RunPipelineOutcome` | src/etl.py:113-139 | `run` returns True exactly when the input could be read, however many writes failed; then `rows_read` rose by the number of kept rows and the attempts by three per kept row; on False no write was issued |
| `Etl.CounterTotal` | src/etl.py:20-106 | from fresh counters, a successful run ends with `rows_inserted_table1 + rows_inserted_table2 + rows_inserted_table3 + errors == 3 * rows_read` |
| `Etl.RunPipelineOfEmpty` | src/etl.py:113-139 | an empty input gives True, no execute and no counter change |
| `Etl.MusicStreamingEtl.constructor` | src/etl.py:18-28 | the counters start at zero |
| `Etl.MusicStreamingEtl.ReadCsv` | src/etl.py:34-54 | the loop behaves as `ReadInput`: a missing file gives None and no change; otherwise it keeps the rows `ReadRows` keeps, adds their number to `rows_read` even when a later row raises, and gives None exactly when `ReadRows` fails |
| `Etl.MusicStreamingEtl.Write` | src/etl.py:56-71 | one write behaves as `InsertInto` on the session and the counters |
| `Etl.MusicStreamingEtl.InsertIntoSongsBySession` | src/etl.py:56-71 | behaves as `InsertInto` for `songs_by_session` |
| `Etl.MusicStreamingEtl.InsertIntoSongsByUserSession` | src/etl.py:73-90 | behaves as `InsertInto` for `songs_by_user_session` |
| `Etl.MusicStreamingEtl.InsertIntoUsersBySong` | src/etl.py:92-106 | behaves as `InsertInto` for `users_by_song` |
| `Etl.MusicStreamingEtl.LoadEvent` | src/etl.py:108-111 | behaves as `FanOut`: the three writes in order |
| `Etl.MusicStreamingEtl.LoadEvents` | src/etl.py:125-129 | the drain loop behaves as `LoadAll` |
| `Etl.MusicStreamingEtl.Run` | src/etl.py:113-139 | the result and the new state are those of `RunPipeline` |
| `Queries.Entries` | src/queries.py:92-100 | one history entry per row returned, in row order, with the row's five fields |
| `Queries.ListenersOf` | src/queries.py:135-140 | one listener entry per row returned, in row order, with the row's two name fields |
| `Queries.SessionItem` | src/queries.py:47-66 | query 1's answer; specified by `SessionItemIsLookup` |
| `Queries.UserSessionHistory` | src/queries.py:86-111 | query 2's answer; specified by `UserSessionHistoryIsPartitionInOrder` |
| `Queries.UsersBySongTitle` | src/queries.py:129-151 | query 3's answer; specified by `UsersBySongTitleIsPartitionInOrder` |
| `Queries.SessionItemIsLookup` | src/queries.py:47-66 | query 1 finds a song exactly when the execute went through (both ids within 32 bits) and a row is stored at the full key, and then answers that row's artist, title and length; a failed execute gives the same empty record as a missing row |
| `Queries.UserSessionHistoryIsPartitionInOrder` | src/queries.py:86-111 | query 2 answers one entry per row of the partition, in strictly ascending `item_in_session`, every row of the partition included; a failed execute, including one refused for an id outside 32 bits, answers the empty list |
| `Queries.UsersBySongTitleIsPartitionInOrder` | src/queries.py:129-151 | query 3 answers the names of the partition's users in strictly ascending `user_id`, exactly one entry per user of the partition; a failed execute, or one refused for an empty title, answers the empty list |
| `Queries.QueriesAfterDrop` | src/models.py:134-141 | after a DROP that went through, all three queries answer empty for every argument, whether or not their own execute raises |
| `Queries.QueryExecutor.constructor` | src/queries.py:21-27 | the executor reads through the given session |
| `Queries.QueryExecutor.SessionItemLookup` | src/queries.py:29-66 | query 1 uses one execute, never writes the store, and answers `SessionItem` |
| `Queries.QueryExecutor.UserSessionHistoryLookup` | src/queries.py:68-111 | query 2 uses one execute, never writes the store, and its append loop answers `UserSessionHistory` |
| `Queries.QueryExecutor.UsersBySongLookup` | src/queries.py:113-151 | query 3 uses one execute, never writes the store, and its append loop answers `UsersBySongTitle` |
| `Queries.QueryExecutor.RunAllQueries` | src/queries.py:153-185 | the three queries in order, with (338, 4), (10, 182) and 'All Hands Against His Own', over consecutive executes; the store is not written; the result has exactly the three entries |
| `Connection.TrimLeftDropsSpace` | src/connection.py:77 | removing leading whitespace keeps a suffix and drops only whitespace before it, and the suffix does not start with whitespace |
| `Connection.TrimRightDropsSpace` | src/connection.py:77 | removing trailing whitespace keeps a prefix and drops only whitespace after it, and the prefix does not end with whitespace |
| `Connection.Strip` | src/connection.py:77 | `str.strip()`; specified by `StripIsTrimmedSlice` and `StripIdempotent` |
| `Connection.StripIsTrimmedSlice` | src/connection.py:77 | `strip()` keeps a contiguous slice and removes only whitespace around it; the slice neither starts nor ends with whitespace, and it is empty exactly when the text is all whitespace |
| `Connection.StripIdempotent` | src/connection.py:77 | stripping twice is stripping once |
| `Connection.SplitOn` | src/connection.py:77 | `split(';')` always yields at least one piece |
| `Connection.JoinSplitOn` | src/connection.py:77 | joining the pieces back with ';' gives the text |
| `Connection.SplitOnPieces` | src/connection.py:77 | no piece contains ';', and there is one piece more than there are separators |
| `Connection.SplitOnConcat` | src/connection.py:77 | the pieces of `a + ";" + b` are the pieces of `a`, then those of `b` |
| `Connection.SplitOnWithoutSeparator` | src/connection.py:77 | a text without ';' is a single piece |
| `Connection.SplitOnJoin` | src/connection.py:77 | splitting is the inverse of joining pieces that contain no ';' |
| `Connection.StripAll` | src/connection.py:77 | one stripped piece per piece, in order |
| `Connection.NonEmptyAppend` | src/connection.py:77 | the blank-piece filter distributes over concatenation |
| `Connection.NonEmptyKeeps` | src/connection.py:77 | the filter keeps exactly the non-empty strings |
| `Connection.SplitStatements` | src/connection.py:77 | the statement list of a CQL text; specified by `SplitStatementsAreClean`, `SplitStatementsConcat` and `SplitStatementsOfOne` |
| `Connection.SplitStatementsAreClean` | src/connection.py:77 | no statement is empty or has ';' in it, none starts or ends with whitespace, and the statements are exactly the stripped pieces that are not blank |
| `Connection.SplitStatementsConcat` | src/connection.py:77 | the statements of `a + ";" + b` are those of `a`, then those of `b`: input order is kept |
| `Connection.SplitStatementsOfOne` | src/connection.py:77 | a text without ';' gives its stripped self as its one statement, or nothing when it is blank |
| `Connection.ParseAll` | src/connection.py:79-81 | one parsed statement per text, in order |
| `Connection.ExecuteAll` | src/connection.py:79-81 | each statement is executed once, in order, up to the first that raises; the result and the new state are those of `RunScript` |
| `Connection.ExecuteCqlFile` | src/connection.py:72-88 | False with nothing executed when the file cannot be read; otherwise the statements of its text are run as `RunScript` runs them, True exactly when all went through |

## Left out

- Connection lifecycle is not modelled: `connect`, `disconnect`, `test_connection`, the context managers and the `gevent` monkey-patching. These are driver I/O and cooperative concurrency. The session is a given object.
- `session.prepare` is not modelled. Preparing the six statements is assumed to succeed; the statements are data in `Models`.
- `set_keyspace` is modelled as a statement that needs the keyspace. Tracking the current keyspace for later unqualified statements is not modelled: there is only one keyspace.
- The introspection helpers are not modelled: `keyspace_exists`, `table_exists` and `get_table_count` are driver queries on system tables.
- Configuration (`src/config.py`), the CLI scripts and their exit codes are not part of this model.
- `print_summary`, `print_query_results`, logging and the `datetime.now()` timestamps and duration are not modelled. They are output and the clock.
- Real CSV parsing and file opening are not modelled. The input is a given sequence of header-keyed field maps, or None when the file cannot be opened. Short rows, which `csv.DictReader` fills with None cells, are not represented.
- Numeric conversions are not modelled. `float(length)`, the DECIMAL column and `float(result.song_length)` keep the length as opaque text, so a `float()` that raises is not modelled.
- Models.DecodesIffConforms: Cassandra's 65535-byte limit on a partition key is not modelled, because text is kept as characters, not encoded bytes. A longer `song_title` is accepted here, where the server would refuse it.
- Etl.ParseInt: strict, an optional sign then ASCII decimal digits. Python's `int()` also accepts surrounding whitespace, `_` digit separators and non-ASCII Unicode decimal digits. A cell of that kind is counted as a write error here, where the program would insert the row.
- Replication, consistency levels, timeouts and Cassandra's storage are left out. A write either lands or does not. A timed-out write that the server applied anyway is not represented.
- Queries' `.one()` on more than one row cannot arise, because the lookup restricts the full primary key.
- `tests/test_queries.py` is not modelled: it checks facts of one live dataset.
