# uploadR2 short-key registry and upload pipeline, in Dafny

This project models the core of uploadR2, a tool that compresses local images and uploads them to a Cloudflare R2 bucket. It also registers every uploaded file in a SQLite registry that hands out short random keys. All proofs are on the model.

The modules follow the source files:

- **Wrappers, Text, Paths**: `Option`/`Result`, the few `str` operations the code relies on, and `pathlib` paths as lists of components with `name`, `stem`, `suffix`, `parent`, `/` and the ordering `sorted()` uses.
- **Models**: `FileRecord`, `ShortKeySequence`, `ReservedShortKey` and `FileOperationLog`, with their dataclass defaults and the `__post_init__` step that fills only missing timestamps.
- **Schema**: the supported schema version (1), the 20 reserved words and the five tables as in-memory collections. It also covers the declared constraints and the two triggers: `update_access_count`, and `check_sequence_exhaustion`, which marks a sequence row exhausted once its counter reaches its capacity.
- **Store**: the database file and the thread's connection to it. Every statement the registry executes is a function from the tables before to the tables after, with the triggers folded in, plus commit and rollback. SQLite reports a failed insert by its first violated constraint: a NOT NULL column first, then the UNIQUE columns in reverse declaration order. The model reports violations in that order.
- **ShortKeyGenerator**: the allocator. It picks a key length by scanning the sequence rows in ascending order and marks rows at 85% usage or more as exhausted. When no row qualifies it creates the next length with capacity ⌊62^L·999/1000⌋. It then draws up to 100 candidates over the 62-character alphabet, rejecting reserved and used keys. The key it hands out is counted. After 100 rejections it moves once to the next length, with a ceiling of 12. The INSERT of a new row binds its capacity as a SQLite INTEGER, which is signed 64-bit. From length 11 on the capacity is above 2^63−1, so the sqlite3 module raises `OverflowError` and the store fails with its rewrapped text. No key longer than 10 characters is ever handed out, and the ceiling's error needs a row of length 12 that the program itself cannot write.
- **DatabaseManager**: opening a registry comprises the schema-version gate, table creation and the seeding of the reserved words and the length-4 row. Storing a record mints a key and classifies integrity errors into duplicate, retry or generic; a short-key conflict is retried a bounded number of times. The module also covers the active-only lookups, the access lookup with its access-count trigger, the conditional upload-info update and the statistics.
- **Config**: the settings record, its field ranges and its four validators.
- **HashUtils**: the content identifier made from a digest in the 8-4-4-4-12 layout of section 3 of RFC 4122 (no version or variant bits are set), the file-name sanitiser and the two file-name builders.
- **DatabaseIntegration**: the pipeline's guarded view of the registry.
- **FileUtils**: the image-type test, file validation, the directory scan and the free-name search.
- **ImageProcessor**: the resize rule, the save options and the processed-file name.
- **ProgressTracker**: the per-file entries and the counters. Its invariant is processed = uploaded + failed + skipped.
- **R2Uploader**: the duplicate short-circuit, the retry loop with its back-off schedule, the URL builder and the batch upload over a `Bucket` object.
- **BatchProcessor**: the per-file pipeline (validate, name, process, upload, report, clean up) and the batch around it.

Four defects of the code are modelled as written, not repaired:

- The capacity of a length-11 or length-12 row does not fit SQLite's INTEGER. Escalating past length 10 therefore fails with the `OverflowError` text instead of creating the row.
- `_process_single_file` calls `complete_file` with one argument too many. Every upload that goes through therefore ends as a failed file, with the `TypeError` text, while its URL is kept.
- `_upload_with_progress` unpacks three values into two names. Every upload through `upload_files` therefore reports failure.
- `export_results_to_csv` calls a tracker method that does not exist, so it always answers None.

Outside effects are parameters of the model:

- **Randomness**: the allocator's random draws come from an `Entropy` value; `uuid4` takes sixteen bytes.
- **Clock**: one clock reading per operation.
- **File system**: a value.
- **Object store**: a `Bucket` object plus a fault per request.
- **Oracles**: the image codec, the SHA-512 digest (FIPS 180-4) and `mimetypes` are the caller's answers.

Concurrent code runs one file after the other.

## Model

| member | source | states |
|---|---|---|
| Models.PostInitRecord | src/database/models.py:53-60 | each of `upload_timestamp`, `created_at`, `updated_at` is filled with the clock reading when missing and kept when present; no other field changes |
| Models.NewFileRecord | src/database/models.py:12-60 | a fresh record has no id, no short key, status `active`, zero accesses, algorithm `sha512`, empty object key and URL, and all three timestamps set to the clock |
| Models.FillTime | src/database/models.py:53-60 | a missing timestamp becomes the clock reading and a present one is kept |
| Models.PostInitRecordIdempotent | src/database/models.py:53-60 | running `__post_init__` again at a later time changes nothing: supplied timestamps are never overwritten |
| Models.NewShortKeySequence | src/database/models.py:63-79 | a fresh sequence row is of length 4, counter 0, capacity 0, not exhausted, both timestamps set |
| Models.PostInitSequence | src/database/models.py:74-79 | missing `created_at` / `updated_at` are filled, present ones kept, nothing else changes |
| Models.PostInitReserved | src/database/models.py:90-93 | a missing `created_at` is filled, a present one kept, nothing else changes |
| Models.PostInitLog | src/database/models.py:107-110 | a missing `timestamp` is filled, a present one kept, nothing else changes |
| Models.NewFileOperationLog | src/database/models.py:96-110 | a fresh log entry has no id, record id 0, empty operation type, no details, IP or agent, and the clock as timestamp |
| Schema.ReservedWords | src/database/schema.py:176-197 | the reserved words are the first components of the reserved-key list, in order |
| Schema.ReservedKeysDistinct | src/database/schema.py:176-197 | twenty reserved words, pairwise distinct, eight of which have length 4 and so can collide with minted keys |
| Schema.SequenceUpdated | src/database/schema.py:137-172 | after any update of a sequence row its `updated_at` is the clock, and it is exhausted exactly when it already was or its counter has reached its capacity; no other column changes |
| Schema.AfterLogInsert | src/database/schema.py:127-159 | an `access` log entry for a record adds one to its access count and sets last access and `updated_at` to the clock; any other entry leaves every record unchanged |
| Schema.RecordUpdated | src/database/schema.py:127-135 | after an update `updated_at` is the clock and nothing else changes |
| Store.MaxKeyLength | src/database/short_key_generator.py:159-164 | the maximum is absent exactly for an empty sequence table, bounds every row's length and is the length of some row |
| Store.RowIndex | src/database/short_key_generator.py:150-154 | finds the row of the given length when there is one, and says there is none only when no row has it |
| Store.UpdateRows | src/database/schema.py:137-172 | an UPDATE by `key_length` touches only the row of that length, applies the change and then the update triggers to it, and keeps the lengths and number of rows |
| Store.MarkExhausted | src/database/short_key_generator.py:150-154 | marks only the given length exhausted; table well-formedness and the set of lengths are preserved |
| Store.IncrementSequence | src/database/short_key_generator.py:248-260 | adds one to the counter of the given length only (with the triggers); well-formedness and the set of lengths are preserved |
| Store.InsertSorted | src/database/schema.py:57-66 | a new length is placed so that lengths stay strictly ascending; the result holds exactly the old rows and the new one |
| Store.InsertOrIgnoreSequence | src/database/short_key_generator.py:201-204 | the statement's effect once its parameters are bound: a present length leaves the tables as they are; an absent one adds exactly one row with counter 0, the given capacity and the next id, keeping the lengths unique and ordered |
| Store.ExecuteInsertSequence | src/database/short_key_generator.py:198-204 | the statement as executed: it raises the `OverflowError` text exactly when the length or the capacity lies outside SQLite's signed 64-bit INTEGER, whether or not the length is present; otherwise it has the effect of InsertOrIgnoreSequence |
| ShortKeyGenerator.RowBindsUpToTen | src/database/short_key_generator.py:172-204 | a new row's length and capacity can be bound exactly when the length is at most 10 |
| Store.StoredMetadata | src/database/database_manager.py:226 | a metadata dictionary survives storage when non-empty; an empty or missing one is read back as missing (also line 428) |
| Store.StoredTags | src/database/database_manager.py:227 | a tag list survives storage when non-empty; an empty or missing one is read back as missing (also line 429) |
| Store.StoredRow | src/database/database_manager.py:211-230 | the inserted row carries the record's keys, hash, status and upload time, the next AUTOINCREMENT id, zero accesses and both timestamps set to the clock |
| Store.InsertViolation | src/database/database_manager.py:211-228 | the INSERT is refused exactly when the upload time is NULL, or the hash, the short key or the uuid is already taken, and it reports the constraint SQLite checks first |
| Store.InsertRecord | src/database/database_manager.py:211-230 | refused exactly when a constraint is violated, with that message; otherwise appends the stored row with id one above the high-water mark and keeps the uniqueness constraints |
| Store.InsertLog | src/database/database_manager.py:434-464 | appends one log entry with the next id, empty details stored as NULL, and applies the access-count trigger to each record; no other table changes and well-formedness is kept |
| Store.UpdateUploadInfo | src/database/database_manager.py:380-386 | sets object key, URL and `updated_at` on exactly the active rows with the given hash, reports how many there were, and changes nothing else |
| Store.InsertOrIgnoreReserved | src/database/database_manager.py:166-170 | a reserved word already present is ignored; a new one is appended with the next id; the word is reserved afterwards, earlier words stay reserved and words stay unique |
| Store.Database.constructor | src/database/database_manager.py:56-72 | a new connection sees exactly what the file holds, with nothing pending |
| Store.Database.Commit | src/database/database_manager.py:115 | the file afterwards holds what the connection sees (also lines 231, 240) |
| Store.Database.Rollback | src/database/database_manager.py:87-92 | the connection afterwards sees the file as last committed, discarding the open transaction (also line 245) |
| ShortKeyGenerator.CharRange | src/database/short_key_generator.py:24 | each of the three character classes is the run of consecutive code points starting at its first character |
| ShortKeyGenerator.CharsetIsAlphanumeric | src/database/short_key_generator.py:23-24 | the alphabet has 62 pairwise distinct characters and holds exactly the ASCII letters and digits |
| ShortKeyGenerator.MaxPossible | src/database/short_key_generator.py:172-185 | the capacity of a length is below its number of combinations and at least 61 |
| ShortKeyGenerator.MaxPossibleOfFour | src/database/database_manager.py:172-181 | the seeded length-4 row holds 99.9% of 62^4, that is 14761559 keys |
| ShortKeyGenerator.CandidateKey | src/database/short_key_generator.py:80-110 | a candidate has the requested number of characters (none for a negative length), each chosen by that position's random integer |
| ShortKeyGenerator.PickChar | src/database/short_key_generator.py:104-108 | every character picked is an ASCII letter or digit |
| ShortKeyGenerator.CandidateKeyAlnum | src/database/short_key_generator.py:97-108 | every candidate is made only of ASCII letters and digits |
| ShortKeyGenerator.FirstFree | src/database/short_key_generator.py:60-74 | the attempt found lies in the 100-attempt window, its candidate is the one drawn for it, and that candidate is neither reserved nor held by a record |
| ShortKeyGenerator.FirstFreeRejectsEarlier | src/database/short_key_generator.py:61-69 | attempts are tried in order: every attempt before the one found was reserved or used |
| ShortKeyGenerator.NoFreeRejectsAll | src/database/short_key_generator.py:61-78 | the search gives up only after all 100 candidates were reserved or used |
| ShortKeyGenerator.NonExhausted | src/database/short_key_generator.py:124-132 | the fetched rows are exactly the rows not marked exhausted, still in ascending length |
| ShortKeyGenerator.LongestOr3 | src/database/short_key_generator.py:159-164 | the longest length is 3 for an empty table and the table's maximum otherwise |
| ShortKeyGenerator.NextLength | src/database/short_key_generator.py:166-167 | the next length is longer than every existing row (and at least 2) |
| ShortKeyGenerator.ScanRows | src/database/short_key_generator.py:134-170 | a successful scan yields a length whose row exists, keeps the tables well-formed and changes only the sequence table; the only failures are the NULL-ratio TypeError and the OverflowError of inserting a row that cannot be bound |
| ShortKeyGenerator.ScanChoice | src/database/short_key_generator.py:134-170 | the length chosen is the first fetched row below 85% with every earlier row at or above 85%, or, when there is none, the length one past the longest; the TypeError means a zero-capacity row comes before any choice, and the OverflowError means every row was passed over and the row one past the longest cannot be bound |
| ShortKeyGenerator.ScanStop | src/database/short_key_generator.py:134-155 | the scan passes over a prefix of the fetched rows, each at 85% usage or more, and stops at the first row that is below 85% or has no capacity |
| ShortKeyGenerator.MarkLengths | src/database/short_key_generator.py:150-154 | marking lengths exhausted keeps the number of rows, their lengths and their ascending order |
| ShortKeyGenerator.ScanEffect | src/database/short_key_generator.py:124-170 | the scan fails exactly on a zero-capacity row where it stops (the TypeError) or when it passes every row and the next row cannot be bound (the OverflowError); stopping at a row chooses its length and leaves the tables with only the passed-over lengths marked exhausted; passing every row with a bindable next row also inserts that row, with its capacity, unless it exists, and chooses its length |
| ShortKeyGenerator.ScanOverflowsPastTen | src/database/short_key_generator.py:134-170 | a single length-10 row at 85% usage makes the scan raise the OverflowError instead of choosing length 11 |
| ShortKeyGenerator.MarkThenMark | src/database/short_key_generator.py:134-155 | marking the first passed-over row and then the rest is the same as marking all of them at once |
| ShortKeyGenerator.FetchedRowsPresent | src/database/short_key_generator.py:124-132 | every row the query fetches is a row of the table |
| ShortKeyGenerator.ScanEscalatesAtEightyFivePercent | src/database/short_key_generator.py:146-170 | a length-4 row at 17 of 20 (85%) is marked exhausted and a new length-5 row with the length-5 capacity is created and chosen |
| ShortKeyGenerator.Upgrade | src/database/short_key_generator.py:262-303 | the escalation keeps the tables well-formed, writes only the sequence table and commits nothing; a key it hands out has a length whose row can be bound |
| ShortKeyGenerator.UpgradeOutcome | src/database/short_key_generator.py:276-303 | the ceiling error happens exactly when the longest length is 12 or more, and the OverflowError exactly when it is 10 or 11; a key is one longer than the longest row and at most 10 long; the collision error means 100 rejected draws at that length; no other error is possible |
| ShortKeyGenerator.Mint | src/database/short_key_generator.py:38-78 | the allocator keeps the tables well-formed |
| ShortKeyGenerator.MintTouchesOnlySequences | src/database/short_key_generator.py:38-78 | whatever the outcome, records, reserved words, logs and versions are left as they were |
| ShortKeyGenerator.MintedKeyFree | src/database/short_key_generator.py:61-74 | a minted key is of the returned length (at least 1), made of ASCII letters and digits, carries the call's salt, and was neither reserved nor held by any record before the call (also lines 296-301) |
| ShortKeyGenerator.UpgradedKeyFree | src/database/short_key_generator.py:294-301 | the same for a key minted after escalation |
| ShortKeyGenerator.MintCountsOnce | src/database/short_key_generator.py:69-74 | a minted key is counted exactly once: the last step adds one to the counter of its length and nothing else changes in it (also lines 298-301) |
| ShortKeyGenerator.UpgradeCountsOnce | src/database/short_key_generator.py:289-301 | after escalation the key's length is one past the longest row, that row exists, and its counter is incremented once |
| ShortKeyGenerator.GrowsTransitive | src/database/short_key_generator.py:38-78 | the monotonicity relation between table states composes |
| ShortKeyGenerator.UpdateGrows | src/database/short_key_generator.py:150-154 | an UPDATE of a sequence row loses no length, lowers no counter and un-exhausts no row (also lines 256-260) |
| ShortKeyGenerator.InsertGrows | src/database/short_key_generator.py:201-204 | an INSERT OR IGNORE of a sequence row is monotone in the same sense |
| ShortKeyGenerator.ScanGrows | src/database/short_key_generator.py:134-170 | a successful length scan is monotone |
| ShortKeyGenerator.MintGrows | src/database/short_key_generator.py:38-78 | a successful call only raises counters, never undoes exhaustion and never loses a length |
| ShortKeyGenerator.CountKeyed | src/database/short_key_generator.py:341-343 | the used-key count is at most the number of records |
| ShortKeyGenerator.CountKeyedAfterInsert | src/database/short_key_generator.py:341-343 | storing a record with a short key adds one to the used-key count, one without leaves it alone |
| ShortKeyGenerator.KeyGenerator.constructor | src/database/short_key_generator.py:27-36 | the allocator works on the registry database it is given |
| ShortKeyGenerator.KeyGenerator.GenerateKeyWithLength | src/database/short_key_generator.py:80-110 | the loop builds exactly the candidate of that draw, character by character |
| ShortKeyGenerator.KeyGenerator.GetCurrentLength | src/database/short_key_generator.py:112-170 | returns the scan's length or its error and commits nothing; the connection then holds the passed-over rows marked exhausted and, when every row was passed over, the new row one past the longest |
| ShortKeyGenerator.KeyGenerator.ScanFetched | src/database/short_key_generator.py:134-170 | the loop over the fetched rows agrees with the scan on result, errors included, and on the connection's state |
| ShortKeyGenerator.KeyGenerator.UpgradeToNextLength | src/database/short_key_generator.py:262-303 | returns the escalation's result, leaves the connection in its state and commits nothing |
| ShortKeyGenerator.KeyGenerator.DrawFree | src/database/short_key_generator.py:294-301 | the 100-attempt loop finds exactly the first free attempt |
| ShortKeyGenerator.KeyGenerator.GenerateShortKey | src/database/short_key_generator.py:38-78 | returns the allocator's result; on success the connection holds its tables and the file holds them when it commits; on error the transaction is rolled back |
| ShortKeyGenerator.KeyGenerator.TryLength | src/database/short_key_generator.py:60-75 | succeeds exactly when some attempt is free, returns that attempt's key, increments its length's counter and commits; otherwise leaves connection and file alone |
| ShortKeyGenerator.KeyGenerator.GetStatistics | src/database/short_key_generator.py:305-351 | one entry per sequence row in length order, the reserved-word count, the used-key count and the 62-character alphabet |
| DatabaseManager.Classify | src/database/database_manager.py:246-263 | an integrity message is a uuid conflict exactly when its lower-cased text names `uuid_key`, a hash conflict exactly when it names `sha512_hash` but not `uuid_key`, then a short-key conflict, then anything else |
| DatabaseManager.ClassifyNotNull | src/database/database_manager.py:246-263 | a NULL upload time is read as a generic integrity error |
| DatabaseManager.ClassifyHash | src/database/database_manager.py:246-251 | SQLite's `sha512_hash` message is read as a duplicate hash |
| DatabaseManager.ClassifyShortKey | src/database/database_manager.py:246-252 | SQLite's `short_key` message is read as a short-key conflict, although it also contains the letters `_key` |
| DatabaseManager.ClassifyUuid | src/database/database_manager.py:246-249 | SQLite's `uuid_key` message is read as a duplicate file |
| DatabaseManager.ClassifyViolation | src/database/database_manager.py:211-263 | each way the INSERT can fail gets its own reading: NULL upload time, taken hash (checked first), taken short key, taken uuid, each exactly under its condition |
| DatabaseManager.NoUuidBeforeShortKey | src/database/database_manager.py:248-252 | the short-key message never names `uuid_key`, so it reaches the retry branch |
| DatabaseManager.LatestIndex | src/database/database_manager.py:125-126 | `ORDER BY applied_at DESC LIMIT 1` picks a latest version row; among equally late rows, which SQLite leaves unordered, the model takes the first stored one |
| DatabaseManager.CheckSchema | src/database/database_manager.py:122-146 | fails exactly when the latest stored version is above the supported one, with that message; a created file with an empty version table gets the current version; otherwise nothing changes (a missing table is ignored) |
| DatabaseManager.CreateTables | src/database/database_manager.py:148-161 | creating the tables marks the file created and writes no rows |
| DatabaseManager.SeedReserved | src/database/database_manager.py:165-170 | seeding keeps the existing reserved rows as a prefix, keeps words unique, and leaves every seeded word reserved |
| DatabaseManager.SeedBaseData | src/database/database_manager.py:163-181 | seeding keeps the tables well-formed |
| DatabaseManager.InitializeFile | src/database/database_manager.py:94-120 | a successful open leaves a created, well-formed file |
| DatabaseManager.InitializeSeeds | src/database/database_manager.py:94-120 | after a successful open every reserved word is reserved, a length-4 row exists (an existing one untouched), records and logs are as found and old reserved rows are kept (also lines 163-181) |
| DatabaseManager.SeedRowOfNewFile | src/database/database_manager.py:172-181 | the seeded capacity equals the allocator's own formula for length 4 (14761559), and a new file gets exactly that one sequence row with id 1 |
| DatabaseManager.SchemaVersionGate | src/database/database_manager.py:118-146 | opening fails exactly when the latest stored version is above 1, with the rewrapped message; a brand-new file gets no version row, a created file with none gets version 1, others keep theirs |
| DatabaseManager.VersionWrittenOnSecondOpen | src/database/database_manager.py:122-146 | a brand-new file gets its version row only on its second open, because the first query runs before the tables exist |
| DatabaseManager.CheckAndUpdateSchema | src/database/database_manager.py:122-146 | the method agrees with the version gate on error and on the new open transaction, committing nothing |
| DatabaseManager.InitializeBaseData | src/database/database_manager.py:163-181 | the loop of INSERT OR IGNOREs yields the seeded tables, committing nothing |
| DatabaseManager.InitializeDatabase | src/database/database_manager.py:94-120 | the file holds the initialised tables after success and is unchanged after failure, with the rewrapped error |
| DatabaseManager.Attach | src/database/database_manager.py:203-208 | the record gets the minted key, its length, its salt and the time, and no other field changes |
| DatabaseManager.PrepareKey | src/database/database_manager.py:201-209 | a supplied key is used as is; otherwise the key step fails exactly when the allocator does, with its message rewrapped, and on success attaches the minted key, which no record held (also lines 265-268) |
| DatabaseManager.AfterInsert | src/database/database_manager.py:211-263 | the pass ends with the stored id exactly when no constraint is violated, rolls back on errors, and asks for a retry exactly on a short-key conflict below three retries, with the key cleared and the count raised |
| DatabaseManager.StoreAttempt | src/database/database_manager.py:197-268 | a pass keeps the tables well-formed; a failed pass changes only the allocator's table; a retry starts with no key and one more retry counted |
| DatabaseManager.StoreSpec | src/database/database_manager.py:183-268 | a store keeps the tables well-formed, and a failed store changes only the allocator's table |
| DatabaseManager.StoreSpecUnfold | src/database/database_manager.py:197-263 | one call of the store is the key step, then the INSERT, then either the result or the recursive call on the retried record |
| DatabaseManager.Passes | src/database/database_manager.py:254-261 | a store makes between one and four INSERT attempts, at most one more than the retries it has left |
| DatabaseManager.InsertStores | src/database/database_manager.py:211-242 | a successful INSERT appends one record with the next id and its 'upload' log entry |
| DatabaseManager.AttemptStores | src/database/database_manager.py:197-242 | a successful pass stores exactly one record and one log entry on top of the tables it started from |
| DatabaseManager.StoreAddsOneRecord | src/database/database_manager.py:183-268 | a successful store adds exactly one record with the next id and then exactly one 'upload' log entry, whatever retries came first, moving nothing else but the allocator's table |
| DatabaseManager.StoreOutcome | src/database/database_manager.py:197-268 | how a store ends, by the first constraint broken: allocator failure, NULL upload time, taken hash, taken uuid, success, retries exhausted at three, or a retry from the same tables |
| DatabaseManager.PassOutcome | src/database/database_manager.py:211-263 | the same six outcomes for the INSERT of one pass |
| DatabaseManager.SuppliedKeyKept | src/database/database_manager.py:203-242 | a supplied key that no record holds is stored as given in one pass |
| DatabaseManager.MintedKeyAttached | src/database/database_manager.py:203-208 | a record without a key is stored with the minted key, length, salt and time in one pass |
| DatabaseManager.StoreRetriesAtMostOnce | src/database/database_manager.py:252-261 | a re-minted key is always free, so a store makes at most two passes, and two only for a supplied key that is already held |
| DatabaseManager.FindActive | src/database/database_manager.py:283-289 | the lookup returns the first active row holding the value, or says no active row holds it |
| DatabaseManager.ActiveMatchUnique | src/database/schema.py:17-27 | uuid, hash and short key are unique, so any matching active row is the one the lookup finds |
| DatabaseManager.StoredRowReadsBack | src/database/database_manager.py:399-432 | a row written by the store reads back unchanged |
| DatabaseManager.Lookup | src/database/database_manager.py:270-290 | a record is returned exactly when an active row matches, and it is that row as read (also lines 321-341) |
| DatabaseManager.AccessSpec | src/database/database_manager.py:292-319 | the access log keeps the tables well-formed |
| DatabaseManager.AccessCountsOnce | src/database/database_manager.py:292-319 | a hit counts one access and sets last access on the row found only, and appends one 'access' entry with method and key; a miss changes nothing (also lines 147-159) |
| DatabaseManager.ActiveKeyIsUsed | src/database/database_manager.py:343-361 | a key held by an active row is also refused by the allocator |
| DatabaseManager.DeletedHolderNotReported | src/database/database_manager.py:343-361 | a key held only by a deleted record is refused by the allocator but not reported by the existence check (also lines 231-246) |
| DatabaseManager.UploadInfoUpdatesOne | src/database/database_manager.py:363-397 | the update changes at most one row, one exactly when an active row has that hash, and sets its object key and URL; otherwise nothing changes |
| DatabaseManager.UploadInfoIdempotent | src/database/database_manager.py:380-386 | repeating the update reports the same count and leaves the same object key and URL on every row |
| DatabaseManager.ActiveCount | src/database/database_manager.py:477-478 | the active count is at most the number of rows |
| DatabaseManager.ActiveKeyedCount | src/database/database_manager.py:480-481 | active rows with a key are at most the active rows and at most the rows with a key |
| DatabaseManager.ActiveExtensions | src/database/database_manager.py:486-487 | the counted extensions are exactly those of active rows |
| DatabaseManager.StatisticsAfterStore | src/database/database_manager.py:466-514 | storing an active record adds one file, one keyed file, its size and its extension to the statistics |
| DatabaseManager.Registry.constructor | src/database/database_manager.py:31-53 | a registry over an opened file, with the allocator sharing its connection |
| DatabaseManager.Registry.Open | src/database/database_manager.py:31-53 | opening fails exactly when the file's initialisation does, with its error; otherwise the file holds the initialised tables (also lines 94-120) |
| DatabaseManager.Registry.PrepareRecordKey | src/database/database_manager.py:201-209 | the method agrees with the key step on error, record, connection state and the allocator's commit |
| DatabaseManager.Registry.InsertPass | src/database/database_manager.py:211-263 | the method agrees with the INSERT step: finished with its result and tables, or the record to retry, rolled back |
| DatabaseManager.Registry.StorePass | src/database/database_manager.py:197-263 | a pass either finishes with the store's result or leaves a store still to do that equals the original one, with fewer retries left |
| DatabaseManager.Registry.StoreFileRecord | src/database/database_manager.py:183-268 | the retry loop returns what the recursive store returns, hands back the updated record and leaves the tables the store leaves |
| DatabaseManager.Registry.GetFileByUuid | src/database/database_manager.py:270-290 | returns the active record with that uuid, if any |
| DatabaseManager.Registry.CheckDuplicateByHash | src/database/database_manager.py:321-341 | returns the active record with that hash, if any |
| DatabaseManager.Registry.CheckShortKeyExists | src/database/database_manager.py:343-361 | true exactly when an active row holds the key |
| DatabaseManager.Registry.GetFileByShortKey | src/database/database_manager.py:292-319 | returns the active record with that key as it was before the access, and leaves the tables with the access logged |
| DatabaseManager.Registry.UpdateFileRecordUploadInfo | src/database/database_manager.py:363-397 | true exactly when an active row has that hash; the tables are updated, and left alone when false |
| DatabaseManager.Registry.GetStatistics | src/database/database_manager.py:466-514 | active files, active keyed files, active size, distinct active extensions, and the allocator's statistics: one entry per sequence row in order (length, counter, capacity, exhausted flag), the used and reserved counts and the 62-character alphabet |
| Config.ValidateLogLevel | src/config.py:68-74 | accepted exactly when the upper-cased value is one of the five levels, which is then stored; otherwise the listed error |
| Config.LevelsUpper | src/config.py:71 | each of the five levels is already upper case |
| Config.LogLevelStable | src/config.py:68-74 | a stored level validates to itself |
| Config.UpperOfCaseVariant | src/config.py:72-74 | any mix of cases of an upper-case word upper-cases to that word |
| Config.LogLevelIgnoresCase | src/config.py:68-74 | every spelling of a level in any mix of cases is accepted and stored as the level |
| Config.ValidateFilenameFormat | src/config.py:76-82 | accepted exactly when the value is one of the four formats, unchanged; otherwise the listed error |
| Config.FilenameFormatIsExact | src/config.py:76-82 | the format check is case-sensitive: `uuid` passes, `UUID` fails |
| Config.ValidateSupportedFormats | src/config.py:84-90 | one format per list item or per comma-separated piece, each lower case |
| Config.LowerIdempotent | src/config.py:89-90 | lower-casing twice is lower-casing once |
| Config.LowerEachIdempotent | src/config.py:89-90 | the same, item by item |
| Config.SupportedFormatsNormalise | src/config.py:84-90 | the comma form gives each piece stripped and lower-cased, and validating the result again gives it back |
| Config.LowerListStable | src/config.py:90 | a list already in lower case validates to itself |
| Config.SchemeEnd | src/config.py:103 | `https?://` ends after 7 or 8 characters when it matches |
| Config.FirstColon | src/config.py:104-106 | the first ':' of the rest, or its end: where the host stops and the port starts |
| Config.AllLabelsEach | src/config.py:104 | every dot-separated piece of a matched host is a label |
| Config.ValidateCustomDomain | src/config.py:92-113 | a missing or blank value becomes None; an accepted value matches the URL pattern and is the input without trailing slashes; everything else is the listed error |
| Config.MatchShape | src/config.py:102-110 | a matching value is at least 8 characters, starts with a non-blank character and does not end in '/' |
| Config.FullMatchShape | src/config.py:102-108 | a full match starts with 'h' or 'H' and ends in a letter or digit |
| Config.SchemeShape | src/config.py:103 | a matched scheme starts with 'h' or 'H' |
| Config.HostPortShape | src/config.py:104-106 | a host and optional port are non-empty and end in a letter or digit |
| Config.PortEnd | src/config.py:106 | a port ends the string in a digit |
| Config.HostShape | src/config.py:104-105 | a valid host is non-empty and ends in a letter or digit |
| Config.LastPieceIsSuffix | src/config.py:104-105 | the last piece of a split ends the string; a string without the separator is its own one piece |
| Config.DomainStable | src/config.py:92-113 | a value that matches is accepted as it is |
| Config.CustomDomainStable | src/config.py:92-113 | an accepted domain validates to itself |
| Config.StripSpaceKeepsNonSpaceEnd | src/config.py:95 | a string starting with a non-blank character is not blank |
| Config.Defaults | src/config.py:19-61 | the optional fields take their declared defaults: 5 uploads, 3 retries, 1.0 second, quality 85, size 2048, 50 MB |
| Config.Validate | src/config.py:15-113 | validation fails exactly when some field is out of range or refused by its validator, listing those fields in declaration order; `supported_formats` must be a list; a validated record satisfies every range and validator |
| Config.FormatsTextRefused | src/config.py:30-33 | a comma-separated text for the `List[str]` field `supported_formats` is refused by the type check before the validator runs |
| Config.NoFailures | src/config.py:15-113 | no check fails on a validated record |
| Config.RevalidateIsIdentity | src/config.py:15-113 | validating a validated record gives it back unchanged |
| Config.DefaultsValid | src/config.py:19-61 | the defaults validate, whatever the four required strings are |
| Config.MaxFileSizeBytes | src/config.py:115-118 | the byte limit is the megabyte limit times 2^20, between 1 MiB and 500 MiB on a validated record |
| HashUtils.Normalize32 | src/utils/hash_utils.py:60-65 | exactly 32 characters: the first 32 of the input, or the input right-padded with '0' |
| HashUtils.HashToUuid | src/utils/hash_utils.py:49-70 | always 36 characters with '-' at positions 8, 13, 18 and 23 |
| HashUtils.UuidDigitsOfHash | src/utils/hash_utils.py:60-68 | taking out the four dashes gives back the normalised 32 characters, neither validated nor case-changed |
| HashUtils.SameUuid | src/utils/hash_utils.py:60-68 | two digests get the same identifier exactly when they agree after normalisation, in particular when they share their first 32 characters |
| HashUtils.ReplaceUnsafe | src/utils/hash_utils.py:141 | each of `<>:"/\|?*` becomes '_' and every other character stays in place |
| HashUtils.SkipSpace | src/utils/hash_utils.py:144 | skipping leading whitespace leaves a suffix that does not start with whitespace |
| HashUtils.CollapseLeavesNoSpace | src/utils/hash_utils.py:144 | after collapsing whitespace runs to '_' no whitespace is left |
| HashUtils.CollapseKeepsSafe | src/utils/hash_utils.py:141-144 | collapsing brings in no unsafe character |
| HashUtils.SkipSpaceSafe | src/utils/hash_utils.py:144 | skipping whitespace keeps a string free of unsafe characters |
| HashUtils.CollapseWithoutSpace | src/utils/hash_utils.py:144 | collapsing is the identity on a string without whitespace |
| HashUtils.RemoveControlFacts | src/utils/hash_utils.py:147 | removing U+0000-001F and U+007F-009F leaves none of them, keeps the absence of unsafe characters and whitespace, and changes nothing when there are none |
| HashUtils.Truncate | src/utils/hash_utils.py:155-156 | the cut is a prefix of at most 100 characters that does not end in '.' or '_' |
| HashUtils.StripKeepsAllowed | src/utils/hash_utils.py:150 | stripping the ends keeps a string free of all three character classes |
| HashUtils.StripClean | src/utils/hash_utils.py:150-156 | stripping a string whose ends are not stripped characters changes nothing |
| HashUtils.CleanedFacts | src/utils/hash_utils.py:141-150 | the character passes and the strip leave no unsafe, whitespace or control character and no ' ', '.' or '_' at either end |
| HashUtils.CappedFacts | src/utils/hash_utils.py:152-160 | the length cap and the fallback turn such a string into a clean name |
| HashUtils.SanitizedIsClean | src/utils/hash_utils.py:126-162 | a sanitised name is never empty, holds no unsafe, whitespace or control character, has no ' ', '.' or '_' at either end, and is at most 200 UTF-8 bytes or at most 100 characters |
| HashUtils.CleanedUnchanged | src/utils/hash_utils.py:141-150 | the character passes leave an already clean string as it is |
| HashUtils.CappedUnchanged | src/utils/hash_utils.py:152-160 | the cap leaves a clean name as it is |
| HashUtils.CleanNameUnchanged | src/utils/hash_utils.py:126-162 | a clean name is its own sanitised form |
| HashUtils.SanitizeIdempotent | src/utils/hash_utils.py:126-162 | sanitising twice is sanitising once |
| HashUtils.ContentBasedFilename | src/utils/hash_utils.py:72-95 | a name exactly when the digest could be computed |
| HashUtils.FilenameWithOriginalName | src/utils/hash_utils.py:97-124 | a name exactly when the digest could be computed |
| HashUtils.LowerKeepsDots | src/utils/hash_utils.py:93-122 | lower-casing the suffix keeps its dots where they are and adds none |
| HashUtils.SuffixAfterDotless | src/utils/hash_utils.py:93-124 | a dotless base followed by a suffix has that suffix and that base as stem |
| HashUtils.UuidDotless | src/utils/hash_utils.py:68 | the identifier of a dotless digest has no dot |
| HashUtils.ContentNameKeepsSuffix | src/utils/hash_utils.py:85-95 | a content-based name starts with the 36-character identifier and has the file's suffix, lower-cased, as its own suffix |
| HashUtils.OriginalNameLayout | src/utils/hash_utils.py:111-124 | the name splits back at its suffix into the lower-cased suffix and the sanitised stem, '_' and the identifier |
| DatabaseIntegration.MimeOrDefault | src/utils/database_integration.py:74 | the MIME type is never empty: the guessed type when there is one, `application/octet-stream` otherwise |
| DatabaseIntegration.RecordFromPath | src/utils/database_integration.py:40-80 | a missing or empty digest raises the `ValueError` text; otherwise the record carries the digest, its identifier, the file's name, its lower-cased suffix, the MIME default, no short key, status `active`, zero accesses and the upload time |
| DatabaseIntegration.RecordAgreesWithContentName | src/utils/database_integration.py:63-72 | the record's identifier and extension are exactly the content-based file name for the same digest |
| DatabaseIntegration.SameDigestSameIdentity | src/utils/database_integration.py:58-75 | two files with the same digest get the same identifier and hash, whatever their names, sizes or times |
| DatabaseIntegration.RebuiltFileIsDuplicate | src/utils/database_integration.py:103-129 | storing a record built for a digest some row already holds fails, with the duplicate-hash error or the allocator's error |
| DatabaseIntegration.Integration.constructor | src/utils/database_integration.py:21-38 | a registry is present exactly when short keys are enabled |
| DatabaseIntegration.Integration.Open | src/utils/database_integration.py:21-38 | opening fails only with short keys enabled and only when the file's initialisation fails; otherwise the registry holds the initialised file |
| DatabaseIntegration.Integration.CheckDuplicateFile | src/utils/database_integration.py:82-101 | None without a registry or without a digest; otherwise the active record with that hash |
| DatabaseIntegration.Integration.StoreFileRecord | src/utils/database_integration.py:103-129 | -1 and nothing stored without a registry; otherwise exactly the registry's result, its errors passed on unchanged |
| DatabaseIntegration.Integration.UpdateFileRecordUploadInfo | src/utils/database_integration.py:131-156 | False without a registry; otherwise the registry's answer and update |
| DatabaseIntegration.Integration.GetFileByShortKey | src/utils/database_integration.py:158-171 | None without a registry; otherwise the registry's lookup and its access log |
| DatabaseIntegration.Integration.GetFileByUuid | src/utils/database_integration.py:173-186 | None without a registry; otherwise the registry's lookup |
| DatabaseIntegration.Integration.GetStatistics | src/utils/database_integration.py:188-198 | None exactly without a registry; otherwise the registry's statistics unchanged: active files, keyed files, size, distinct extensions, and the allocator's per-row entries, used and reserved counts and alphabet |
| DatabaseIntegration.CreateDatabaseIntegration | src/utils/database_integration.py:210-222 | None exactly when short keys are disabled; an error only when they are enabled and opening the file fails |
| FileUtils.Taken | src/utils/file_utils.py:136-147 | the taken names are exactly the paths that exist |
| FileUtils.Extension | src/utils/file_utils.py:33 | the extension is the lower-cased suffix without its dot, empty without a suffix |
| FileUtils.IsImageFile | src/utils/file_utils.py:17-42 | an image exactly when the extension is listed (the seven defaults when no list is given) and the guessed MIME type is not a known non-image type |
| FileUtils.DefaultFormats | src/utils/file_utils.py:29-42 | seven default formats, a path without suffix is never an image, and an unknown MIME type does not reject a listed extension |
| FileUtils.ImageTestIgnoresCase | src/utils/file_utils.py:33-35 | suffixes that agree after lower-casing get the same answer |
| FileUtils.ValidateFile | src/utils/file_utils.py:57-87 | valid exactly when the path exists, is a file, passes the type check (only when enabled) and is not above the byte limit; each failure is reported in that order with its message, and success carries an empty message |
| FileUtils.SizeLimitInclusive | src/utils/file_utils.py:83 | a file of exactly the limit passes, one byte more fails |
| FileUtils.TypeCheckOptional | src/utils/file_utils.py:78 | with type checking off the MIME type makes no difference |
| FileUtils.InsertPath | src/utils/file_utils.py:113 | insertion adds exactly one occurrence of the path |
| FileUtils.InsertPathSorted | src/utils/file_utils.py:113 | insertion keeps a sorted list sorted |
| FileUtils.SortPaths | src/utils/file_utils.py:113 | `sorted()` returns a sorted permutation of its input |
| FileUtils.ScanImages | src/utils/file_utils.py:89-113 | nothing for a path that is not an existing directory; otherwise exactly the valid files below it, sorted and each once |
| FileUtils.DistinctPermutation | src/utils/file_utils.py:107-113 | sorting a list without repeats leaves none and keeps its elements |
| FileUtils.DistinctCount | src/utils/file_utils.py:107 | a path listed once has multiplicity one |
| FileUtils.Candidate | src/utils/file_utils.py:145-146 | a candidate name lies in the same directory |
| FileUtils.CandidateInjective | src/utils/file_utils.py:145 | different counters give different names |
| FileUtils.GetUniqueFilename | src/utils/file_utils.py:125-149 | the path itself when free; otherwise `stem_N` plus suffix in the same directory for the least free N from 1; the result never exists |
| FileUtils.FirstFree | src/utils/file_utils.py:142-149 | the loop stops at the least counter from 1 whose name is free, because the existing names are finite and the candidates distinct |
| FileUtils.CandidatesSize | src/utils/file_utils.py:142-149 | the first n - 1 candidates are n - 1 distinct names |
| FileUtils.TakenBound | src/utils/file_utils.py:142-149 | when they are all taken there are at least that many existing paths, which bounds the loop |
| ImageProcessor.FittingImageUnchanged | src/utils/image_processor.py:88-92 | the size is left as it is exactly when both sides already fit |
| ImageProcessor.ResizedFitsBox | src/utils/image_processor.py:94-100 | after a resize neither side exceeds the maximum or grows, the width is the maximum for a landscape image and the height otherwise, square images included |
| ImageProcessor.ResizeKeepsAspect | src/utils/image_processor.py:95-100 | the scaled side is the largest integer not above the exact proportion, which `int()` of the float quotient gives while the product stays below 2^53 |
| ImageProcessor.SaveOptionsFor | src/utils/image_processor.py:62-66 | quality and `optimize=True` are passed exactly when compression is on and the lower-cased output suffix is `.jpg` or `.jpeg` |
| ImageProcessor.PlanImage | src/utils/image_processor.py:55-68 | with a positive maximum the saved size is the resize rule's, so it fits the maximum, never grows, and is unchanged for an image that already fits; with none the size is kept; the save options are those of the output path |
| ImageProcessor.Digits | src/utils/image_processor.py:120-125 | a zero-padded field of `strftime` has its width and only digits |
| ImageProcessor.MillisStamp | src/utils/image_processor.py:120 | the timestamp name is the date stamp, '_' and three more characters |
| ImageProcessor.MillisAreMilliseconds | src/utils/image_processor.py:120 | cutting the last three microsecond digits leaves the milliseconds |
| ImageProcessor.DateStampLength | src/utils/image_processor.py:125 | with a four-digit year the stamp has 15 characters |
| ImageProcessor.HexDigit | src/utils/image_processor.py:123 | a hexadecimal digit is lower case |
| ImageProcessor.Uuid4Bytes | src/utils/image_processor.py:123 | a version-4 identifier has version nibble 4 and the RFC 4122 variant |
| ImageProcessor.Uuid4Hex | src/utils/image_processor.py:123 | `uuid4().hex` is 32 lower-case hexadecimal digits |
| ImageProcessor.Uuid4Marks | src/utils/image_processor.py:123 | its 13th digit is '4' and its 17th one of 8, 9, a, b |
| ImageProcessor.GenerateFilename | src/utils/image_processor.py:105-128 | `original` and unknown formats keep the file's name; `timestamp`, `uuid` and `custom` give the stamp, the hex identifier or prefix plus stamp, followed by the lower-cased suffix |
| ImageProcessor.GeneratedNameKeepsSuffix | src/utils/image_processor.py:115-126 | a generated name's own suffix is the original's lower-cased suffix, and a custom name starts with the prefix |
| ImageProcessor.CustomNameSuffix | src/utils/image_processor.py:124-126 | a custom name keeps the lower-cased suffix and starts with the prefix |
| ImageProcessor.DateStampDotless | src/utils/image_processor.py:120-125 | the stamps hold no dot, so they cannot change the suffix |
| ProgressTracker.SuccessRate | src/progress_tracker.py:30-35 | zero for an empty list; otherwise the rate times the file count is 100 times the uploaded count, never negative |
| ProgressTracker.Register | src/progress_tracker.py:107-112 | one iteration of the registration loop: a fresh pending entry under the path's text with its size (0 when the file does not exist), counters and duplicate names untouched, state kept well formed |
| ProgressTracker.RegisterAllFacts | src/progress_tracker.py:107-112 | after the loop the state is well formed, the counters are unchanged and the entry keys are exactly the old keys plus the texts of the listed paths |
| ProgressTracker.LastRegistrationWins | src/progress_tracker.py:107-112 | when several paths share a text, the entry under that text is the one made for the last of them |
| ProgressTracker.StepKeepsInvariant | src/progress_tracker.py:95-262 | every tracker call keeps the entries well formed and processed equal to uploaded plus failed plus skipped |
| ProgressTracker.RunKeepsBalance | src/progress_tracker.py:149-238 | from a fresh tracker, any sequence of calls leaves processed equal to uploaded plus failed plus skipped |
| ProgressTracker.RunDuplicatesBounded | src/progress_tracker.py:231-234 | from a fresh tracker, the number of recorded duplicate names never exceeds the uploaded count |
| ProgressTracker.UnregisteredPathIsNoOp | src/progress_tracker.py:125-238 | a per-file call on a path that was never registered changes nothing |
| ProgressTracker.TerminalCallsCountAgain | src/progress_tracker.py:158-168 | completing the same file twice adds two to processed and uploaded and twice its size to the processed bytes, since the entry's status is not consulted |
| ProgressTracker.RepeatedPathCollapses | src/progress_tracker.py:102-112 | a path listed twice counts as two files and twice its size but yields one entry |
| ProgressTracker.FailedFiles | src/progress_tracker.py:276-286 | the list holds only failed entries, holds every failed entry, and is no longer than the entry list |
| ProgressTracker.FailedComeFromEntries | src/progress_tracker.py:283-286 | every listed failed entry is one of the tracker's entries |
| ProgressTracker.UploadedWithUrls | src/progress_tracker.py:297-308 | every pair has a non-empty URL, and every completed or duplicate entry with a URL contributes its (name, URL) pair |
| ProgressTracker.UploadedComeFromEntries | src/progress_tracker.py:304-308 | every listed pair is the name and URL of a completed or duplicate entry |
| ProgressTracker.ProgressTracker.constructor | src/progress_tracker.py:75-93 | a new tracker has zero counters, no entries and no duplicate names |
| ProgressTracker.ProgressTracker.Initialize | src/progress_tracker.py:95-112 | sets the file count, start time and total bytes, then registers each file in turn; the new state is the step function's and stays valid |
| ProgressTracker.ProgressTracker.Apply | src/progress_tracker.py:125-238 | performs one per-file call in place; the new state is the step function's and stays valid |
| ProgressTracker.ProgressTracker.StartFileProcessing | src/progress_tracker.py:125-136 | marks a registered entry as processing with its start time; the new state is the step function's |
| ProgressTracker.ProgressTracker.StartFileUploading | src/progress_tracker.py:138-147 | marks a registered entry as uploading; the new state is the step function's |
| ProgressTracker.ProgressTracker.CompleteFile | src/progress_tracker.py:149-170 | completes a registered entry and bumps processed, uploaded and processed bytes; the new state is the step function's |
| ProgressTracker.ProgressTracker.FailFile | src/progress_tracker.py:172-191 | fails a registered entry with its message and bumps processed and failed; the new state is the step function's |
| ProgressTracker.ProgressTracker.SkipFile | src/progress_tracker.py:193-212 | skips a registered entry with its reason and bumps processed and skipped; the new state is the step function's |
| ProgressTracker.ProgressTracker.DuplicateFile | src/progress_tracker.py:214-238 | marks a registered entry duplicate, appends the file name, and counts it as processed and uploaded; the new state is the step function's |
| ProgressTracker.ProgressTracker.Finalize | src/progress_tracker.py:260-262 | records the end time and nothing else |
| ProgressTracker.ProgressTracker.GetFailedFiles | src/progress_tracker.py:276-286 | returns exactly the failed entries, in the dictionary's order |
| ProgressTracker.ProgressTracker.GetDuplicateFiles | src/progress_tracker.py:288-295 | returns the recorded duplicate names |
| ProgressTracker.ProgressTracker.GetUploadedFilesWithUrls | src/progress_tracker.py:297-308 | the loop returns exactly the (name, URL) pairs of completed or duplicate entries with a non-empty URL |
| ProgressTracker.ProgressTracker.GetSummary | src/progress_tracker.py:310-329 | the summary carries the counters, bytes and times, the exact success rate, and processed equals uploaded plus failed plus skipped |
| R2Uploader.ErrorField | src/r2_uploader.py:93 | reading a field of a client error's `Error` dictionary fails exactly when the dictionary or the field is missing, otherwise yields the field (also lines 139, 287-288) |
| R2Uploader.ContentType | src/r2_uploader.py:105-116 | never empty: the guessed MIME type when there is one, otherwise `application/octet-stream` |
| R2Uploader.UrlIgnoresCustomDomain | src/r2_uploader.py:197 | the public URL ends with `/bucket/key` and is the same whatever custom domain is configured (also line 281) |
| R2Uploader.UrlOfPlainEndpoint | src/r2_uploader.py:197 | an endpoint `https://host` yields `https://pub-host/bucket/key` (also line 281) |
| R2Uploader.UploadAttempt | src/r2_uploader.py:257-295 | one upload succeeds exactly when the request met no fault, and then returns the public URL; it raises exactly when a client error lacks its code or message; every other fault returns a failure message |
| R2Uploader.Pow2 | src/r2_uploader.py:236 | two to a power is at least one |
| R2Uploader.RetrySchedule | src/r2_uploader.py:224-238 | at most `max_retries + 1` attempts; one sleep fewer than attempts; the sleep after attempt `j` is `retry_delay * 2^j` |
| R2Uploader.RetryStopsAtFirstResult | src/r2_uploader.py:224-238 | every attempt before the last one raised; a returned result is passed on as is; if every attempt raised, the loop made all `max_retries + 1` attempts and reports the last exception's text |
| R2Uploader.FirstResultReturns | src/r2_uploader.py:224-226 | unless the first client error is malformed, the first attempt's result is returned with no retry and no sleep (also lines 257-295) |
| R2Uploader.RetryStep | src/r2_uploader.py:224-236 | one turn of the loop: a returned result ends it, an exception sleeps for this attempt and moves on to the next |
| R2Uploader.RetryExhausted | src/r2_uploader.py:238 | once the attempts are used up, the loop fails with the retry count and the last exception's text |
| R2Uploader.ExistsAnswer | src/r2_uploader.py:131-147 | the existence check escapes exactly on a client error without a code, and answers True exactly when the request succeeded and the object is there |
| R2Uploader.KeyFor | src/r2_uploader.py:149-188 | the given object key, or else the content-based name |
| R2Uploader.Decide | src/r2_uploader.py:186-199 | with no key the call fails with the key message; an upload goes ahead under the chosen key |
| R2Uploader.NoKeyNoContact | src/r2_uploader.py:187-190 | with no key the answer does not depend on the bucket or on any request fault |
| R2Uploader.DuplicateShortCircuits | src/r2_uploader.py:193-199 | with the duplicate check on and the object present, the call succeeds with the public URL, marked as a duplicate |
| R2Uploader.HeadErrorMeansAbsent | src/r2_uploader.py:138-147 | any failed existence check other than a malformed client error counts as absent, so the file is uploaded (also lines 193-203) |
| R2Uploader.NoRaiseUnlessMalformed | src/r2_uploader.py:131-147 | the duplicate check escapes only on a malformed client error (also lines 193-199) |
| R2Uploader.RetrySuccessUrl | src/r2_uploader.py:205-238 | a retry loop that succeeded reports the object's public URL (also lines 280-282) |
| R2Uploader.UploadAnswer | src/r2_uploader.py:161-203 | `upload_file` with a ready client escapes exactly when the pre-upload decision raises, and a success that is not a duplicate carries the public URL of the key it uploaded |
| R2Uploader.UploadedObjects | src/r2_uploader.py:161-203 | `upload_file` keeps every object of the bucket; only the chosen key can be added or rewritten, and then with the file's content type (also lines 257-278) |
| R2Uploader.EntryMessageUnpack | src/r2_uploader.py:338-373 | unless the callback or the duplicate check raised, the reported message is the unpacking error |
| R2Uploader.UploadRunLength | src/r2_uploader.py:319-336 | the batch reports one entry per mapping |
| R2Uploader.UploadRunEntry | src/r2_uploader.py:319-336 | entry `i` is mapping `i`'s path, a failure, and the message met with the bucket the mappings before it left |
| R2Uploader.MessageAtUnpack | src/r2_uploader.py:319-373 | without a callback, a mapping whose duplicate check did not raise reports the unpacking error |
| R2Uploader.UploadRunFrame | src/r2_uploader.py:319-336 | the batch keeps every object, adds keys only from the mappings, and leaves the content of every object outside the mappings alone |
| R2Uploader.Bucket.constructor | src/r2_uploader.py:257-278 | the bucket holds the given objects |
| R2Uploader.R2Uploader.constructor | src/r2_uploader.py:29-39 | a new uploader keeps its settings and has no client and no semaphore |
| R2Uploader.R2Uploader.InitializeClient | src/r2_uploader.py:41-71 | on success the client and the semaphore both exist; on failure the credentials or initialisation message is returned and nothing changes |
| R2Uploader.R2Uploader.EnsureClient | src/r2_uploader.py:80-81 | the client is made only when missing; an existing client is kept with no error (also lines 128-129, 180-181, 312-313) |
| R2Uploader.R2Uploader.TestConnection | src/r2_uploader.py:73-103 | True when the bucket answers; False for any request error except a client error without a code, which escapes; an initialisation failure escapes |
| R2Uploader.R2Uploader.CheckFileExists | src/r2_uploader.py:118-147 | once the client exists, the answer is the existence check's; an initialisation failure escapes |
| R2Uploader.R2Uploader.DoUpload | src/r2_uploader.py:240-295 | the attempt's outcome; on success the object is stored under the key with the file's content type, otherwise the bucket is unchanged |
| R2Uploader.R2Uploader.UploadWithRetry | src/r2_uploader.py:205-238 | the loop's outcome is the retry function's; the object is stored exactly when it succeeded |
| R2Uploader.R2Uploader.UploadFile | src/r2_uploader.py:161-203 | an initialisation failure escapes; otherwise the pre-upload decision either raises, finishes with no upload, or uploads under the chosen key with the retry loop's outcome, not marked duplicate |
| R2Uploader.R2Uploader.UploadWithProgress | src/r2_uploader.py:338-373 | unpacking three values into two names always fails, so the callback is told False with the duplicate check's exception text or else the unpacking error, and False is returned with that text; a callback exception escapes; the bucket is the one `upload_file` leaves |
| R2Uploader.R2Uploader.UploadOne | src/r2_uploader.py:319-373 | a mapping reports its path, a failure, and the callback's exception text, else the duplicate check's, else the unpacking error; the bucket is the one `upload_file` leaves |
| R2Uploader.R2Uploader.UploadAll | src/r2_uploader.py:319-334 | the loop gives exactly the entries and the bucket of the mappings done one after the other |
| R2Uploader.R2Uploader.UploadAt | src/r2_uploader.py:319-334 | one mapping appends its own entry and leaves the bucket its upload leaves |
| R2Uploader.R2Uploader.UploadFiles | src/r2_uploader.py:297-336 | an initialisation failure escapes and changes nothing; otherwise one failure entry per mapping, in order, with its path and the message met with the bucket the mappings before it left; without a callback, every mapping whose duplicate check did not raise reports the unpacking error; the bucket is the one the mappings leave one after the other and only gains keys from the mappings |
| R2Uploader.R2Uploader.Close | src/r2_uploader.py:375-384 | afterwards there is no client and no semaphore |
| BatchProcessor.GenerateNewFilename | src/batch_processor.py:82-119 | with a digest, the name is the original-name-based content name; without one, the sanitised stem, an underscore, the random identifier's hex and the lower-cased suffix |
| BatchProcessor.NewFilenameIgnoresFormat | src/batch_processor.py:93-119 | both branches of the `filename_format` test give the same name |
| BatchProcessor.Unlink | src/batch_processor.py:271-312 | removing a path drops that file only and leaves the directories |
| BatchProcessor.CreateThenUnlink | src/batch_processor.py:145-153 | creating a fresh processed copy and removing it again restores the disk (also lines 280-296) |
| BatchProcessor.OutcomeOf | src/batch_processor.py:238-288 | an answer of the upload never ends a file as invalid; it ends as uploaded exactly when the upload succeeded and was not a duplicate |
| BatchProcessor.TrackerCalls | src/batch_processor.py:222-288 | every file starts with the processing call and makes at least two calls |
| BatchProcessor.SingleFileCounts | src/batch_processor.py:222-288 | each file adds exactly one processed file; it counts as uploaded only when it was a duplicate and as failed otherwise, since the four-argument `complete_file` call raises; skipped, the file count and the entry keys are unchanged (also src/progress_tracker.py lines 149-238) |
| BatchProcessor.SingleFileStatus | src/batch_processor.py:222-288 | the entry ends duplicate with the existing URL, or failed with the validation, image, upload or unexpected-error message; an upload that went through is reported as the `TypeError` (also src/progress_tracker.py lines 149-238) |
| BatchProcessor.RunAllKeepsInvariant | src/batch_processor.py:222-288 | a file's tracker calls keep the tracker well formed and balanced |
| BatchProcessor.EnsureDirectories | src/batch_processor.py:57-62 | afterwards `images`, `images/original` and `images/transfer` exist, nothing else is created and no file changes |
| BatchProcessor.StatOf | src/progress_tracker.py:104-111 | a size is known exactly for the existing paths, and a file's is its size |
| BatchProcessor.UploadedBucket | src/batch_processor.py:238-266 | in terms of the reported outcome, the bucket gained the uploaded key exactly when the upload went through, otherwise it is unchanged |
| BatchProcessor.BatchStepsSnoc | src/batch_processor.py:188-197 | one more file's step on the bucket the files before it left extends the batch's steps |
| BatchProcessor.RunFilesSnoc | src/batch_processor.py:188-197 | one more file's tracker calls come after those of the files before it |
| BatchProcessor.UploadedUrlsSnoc | src/batch_processor.py:244-259 | one more file adds its URL to the uploaded URLs exactly when its upload went through |
| BatchProcessor.RunFilesCounts | src/batch_processor.py:188-197 | the files of a batch add one processed file each, count the duplicates as uploaded and every other file as failed, and keep the entries and the totals |
| BatchProcessor.UploadedUrlsBound | src/batch_processor.py:188-197 | uploaded URLs and duplicates together are at most one per file |
| BatchProcessor.BatchProcessor.constructor | src/batch_processor.py:30-55 | a new processor has an empty tracker, no URLs and the working directories on disk |
| BatchProcessor.BatchProcessor.TransferPath | src/batch_processor.py:138-142 | the chosen path is free and in the transfer directory, and it is the generated name itself when that name is free |
| BatchProcessor.BatchProcessor.ScanImages | src/batch_processor.py:64-80 | the valid files below `images/original`, sorted, and nothing else |
| BatchProcessor.BatchProcessor.ProcessImage | src/batch_processor.py:121-161 | succeeds exactly when validation and the image codec succeed, with the validation or image failure message otherwise; on success the processed copy is a fresh file in the transfer directory and nothing else changes |
| BatchProcessor.BatchProcessor.ProcessSingleFile | src/batch_processor.py:208-296 | the tracker gets the file's calls, only an upload that went through adds its URL, the disk ends as it began, the outcome is invalid exactly when processing failed, and outcome, processed copy and bucket are one step of the batch: the copy's upload under its content key on the old bucket |
| BatchProcessor.BatchProcessor.UploadProcessed | src/batch_processor.py:234-296 | after processing: the tracker gets the remaining calls, the processed copy is removed, and URL and bucket changes happen only for an upload that went through |
| BatchProcessor.BatchProcessor.UploadTransfer | src/batch_processor.py:238-242 | the upload of the processed copy under its content key, with the duplicate check as configured; the bucket changes only for an upload that went through |
| BatchProcessor.BatchProcessor.Report | src/batch_processor.py:244-288 | the outcome of the upload's answer, the one terminal tracker call it leads to, and the URL appended only when the upload went through |
| BatchProcessor.BatchProcessor.ProcessAndUploadBatch | src/batch_processor.py:163-206 | an empty list changes nothing; otherwise the tracker is initialised and finalised, and the batch fails exactly when the client cannot be made or the connection test fails, with no file processed; the error is the batch error text followed by the client-creation message, by the missing field's KeyError text for a client error whose response lacks the error code, or by the no-connection message otherwise; on success the tracker gets every file's calls in order, the files' steps chain the bucket from its old to its new contents, the URL list gains the uploaded URLs in order, and every file adds one processed file counted as uploaded or failed |
| BatchProcessor.BatchProcessor.ConnectAndProcess | src/batch_processor.py:180-202 | the connection test, then every file with the steps, tracker calls and URLs of the loop; the batch fails exactly when the client cannot be made or the test fails, and its error is the batch error text followed by the client-creation message, by the missing field's KeyError text for a client error whose response lacks the error code, or by the no-connection message otherwise; the error cases leave the tracker, URLs and bucket untouched (also src/r2_uploader.py lines 73-103, 375-392) |
| BatchProcessor.BatchProcessor.InitializeTracker | src/batch_processor.py:178 | the tracker's initialisation with the sizes read from the disk: every file has an entry and only the totals change (also src/progress_tracker.py lines 95-112) |
| BatchProcessor.BatchProcessor.ProcessFiles | src/batch_processor.py:188-197 | file `i` ends and leaves the bucket as one step on the bucket the files before it left; the tracker gets the files' calls in order; the URL list gains the uploaded URLs in order; every file adds one processed file counted as uploaded or failed, the entries stay the same and the URL list grows by at most one per file |
| BatchProcessor.BatchProcessor.ProcessNext | src/batch_processor.py:188-197 | one file of the loop extends the batch's steps, tracker calls and URL list by its own |
| BatchProcessor.BatchProcessor.CopyImagesToTransfer | src/batch_processor.py:314-351 | each copy is of a valid listed file to a fresh, distinct transfer path with the same size; existing files are untouched and there are at most as many copies as files |
| BatchProcessor.BatchProcessor.CopyOne | src/batch_processor.py:326-348 | a copy is made exactly when the file is valid and the copy succeeds; the new file is fresh, in the transfer directory and the original's size |
| BatchProcessor.BatchProcessor.GetUploadedUrls | src/batch_processor.py:371-378 | the collected URLs |
| BatchProcessor.BatchProcessor.ExportResultsToCsv | src/batch_processor.py:410-424 | always None, since the tracker has no CSV export and the resulting error is caught |
| BatchProcessor.BatchProcessor.GetFailedFiles | src/batch_processor.py:362-369 | exactly the tracker's failed entries |
| BatchProcessor.BatchProcessor.GetProcessingSummary | src/batch_processor.py:353-360 | the tracker's summary: balanced counters and the exact success rate |
| BatchProcessor.BatchProcessor.GetUploadedFilesWithUrls | src/batch_processor.py:380-387 | the tracker's (name, URL) pairs |
| BatchProcessor.BatchProcessor.GetDuplicateFiles | src/batch_processor.py:389-396 | the tracker's duplicate names |

## Left out

- Concurrency: the registry's lock, the per-thread connection, `asyncio.gather` and the semaphores are sequentialised. Each registry call runs to its commit or rollback before the next one, and the files of a batch are processed one after the other.
- Floating point: the allocator's usage ratio is compared exactly by integer cross-multiplication, and `int(62**L * 0.999)` is ⌊62^L·999/1000⌋. The two agree up to length 9 but can differ from length 10 on. `success_rate` is an exact real, and the back-off delays are exact reals. The resized side is the exact floor of the proportion; Python's float quotient gives that floor only while the side times `max_image_size` stays below 2^53.
- Elapsed time, estimated time remaining, the `total_size_mb` statistic and every log line are left out: they are display only or derived from the clock.
- The pixel work of PIL: opening, converting, resizing and encoding an image. The codec's success and output size are parameters; `get_image_info` is not modelled.
- `boto3`, `aiofiles`, `mimetypes`, `hashlib` and `secrets` become oracles or parameters. `calculate_file_hash` is not modelled: its digest is a parameter.
- `get_file_metadata`, `get_file_size` and `create_directory` are not modelled; they are thin wrappers over `stat` and `mkdir`.
- BatchProcessor.StatOf: a directory's `st_size` is taken as 0, because the file system value gives sizes to files only; this matters only when a directory is passed to `initialize`.
- Config.ValidateCustomDomain: the case-insensitive pattern folds ASCII letters only; Python's `re.IGNORECASE` also folds a few non-ASCII letters (the Kelvin sign matches `k`). Its port part `\d` is limited to ASCII digits, whereas Python's `\d` on `str` also matches the other Unicode decimal digits.
- HashUtils.ContentBasedFilename: the suffix is lower-cased by `Text.Lower`, which maps the ASCII capitals and the Kelvin sign only. Python's `str.lower` maps every cased Unicode character and can lengthen a string (`'İ'` becomes two characters), so other non-ASCII capitals are kept as they are in the model.
- HashUtils.FilenameWithOriginalName: the suffix is lower-cased by `Text.Lower`, which maps the ASCII capitals and the Kelvin sign only. Python's `str.lower` maps every cased Unicode character and can lengthen a string (`'İ'` becomes two characters), so other non-ASCII capitals are kept as they are in the model.
- DatabaseIntegration.RecordFromPath: the stored `file_extension` is the suffix lower-cased by `Text.Lower`, which maps the ASCII capitals and the Kelvin sign only. Python's `str.lower` maps every cased Unicode character and can lengthen a string (`'İ'` becomes two characters), so other non-ASCII capitals are kept as they are in the model.
- FileUtils.Extension: the suffix is lower-cased by `Text.Lower`, which maps the ASCII capitals and the Kelvin sign only. Python's `str.lower` maps every cased Unicode character and can lengthen a string (`'İ'` becomes two characters), so other non-ASCII capitals are kept as they are in the model.
- ImageProcessor.GenerateFilename: the suffix is lower-cased by `Text.Lower`, which maps the ASCII capitals and the Kelvin sign only. Python's `str.lower` maps every cased Unicode character and can lengthen a string (`'İ'` becomes two characters), so other non-ASCII capitals are kept as they are in the model.
- BatchProcessor.GenerateNewFilename: the suffix is lower-cased by `Text.Lower`, which maps the ASCII capitals and the Kelvin sign only. Python's `str.lower` maps every cased Unicode character and can lengthen a string (`'İ'` becomes two characters), so other non-ASCII capitals are kept as they are in the model.
- Config.ValidateSupportedFormats: each format is lower-cased by `Text.Lower`, which maps the ASCII capitals and the Kelvin sign only; Python's `str.lower` maps every cased Unicode character and can lengthen a string. Its comma-separated branch is modelled as written but cannot be reached through `Config`: the field is declared `List[str]`, so a text is refused by the type check first (`Config.FormatsTextRefused`).
- DatabaseManager.Registry.GetStatistics: `extension_distribution`, the ten most frequent active extensions, is not returned. SQLite leaves the order of extensions with equal counts unspecified, so the list is not a function of the table.
- ShortKeyGenerator.KeyGenerator.GetStatistics: the per-row `usage_percent` is not returned, because it is a floating-point `ROUND`. Each entry keeps the counter and the capacity it is computed from.
- The `tqdm` progress bar and `_update_progress`: display only.
- `BatchProcessor.cleanup_transfer_directory` is not modelled: it is not called by the pipeline.
- The `metadata` argument of `upload_file`: it is only forwarded to the store.
- SQL text, JSON encoding of tags and metadata, and `datetime` parsing in `_row_to_file_record`: rows are the record datatypes themselves.
- `load_config`, `Config.ensure_directories`, the command-line entry points, `close` and `__del__` of the registry and of the integration: environment parsing, process set-up and resource release.
- Schema migration: the code has none. A stored version below 1 is only logged.
- Python exception texts that come from libraries (`sqlite3`, `boto3`, an `OSError`) are the caller's strings.
