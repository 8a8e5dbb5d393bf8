/** The file registry (`DatabaseManager`): opening a database file (the
    schema-version gate, table creation, seeding the reserved words and the
    length-4 row), storing a record with a minted short key and a bounded retry on
    short-key conflicts, the lookups, the access log with its counter, the
    upload-info update and the statistics.

    Every statement is one of the table functions of `Store`. Between two calls
    the connection has nothing pending: each call commits or rolls back what it
    did, so `conn == committed` is part of the registry's invariant. */
module DatabaseManager {
  import opened Wrappers
  import opened Text
  import opened Models
  import opened Schema
  import opened Store
  import opened ShortKeyGenerator

  // ---------------------------------------------------------------- integrity errors

  /** How `store_file_record` reads an `IntegrityError`: by the column named in
      its lower-cased message, `uuid_key` first, then `sha512_hash`, then
      `short_key`. */
  datatype Conflict = UuidConflict | HashConflict | ShortKeyConflict | OtherIntegrity

  function Classify(msg: string): (c: Conflict)
    ensures c == UuidConflict <==> Contains(Lower(msg), "uuid_key")
    ensures c == HashConflict <==> !Contains(Lower(msg), "uuid_key") && Contains(Lower(msg), "sha512_hash")
  {
    var m := Lower(msg);
    if Contains(m, "uuid_key") then UuidConflict
    else if Contains(m, "sha512_hash") then HashConflict
    else if Contains(m, "short_key") then ShortKeyConflict
    else OtherIntegrity
  }

  /** No 'k' in any case and no '5': what keeps the prefixes of SQLite's
      messages from matching a column name. */
  predicate NoKNoFive(s: string) {
    'k' !in s && 'K' !in s && '\U{212A}' !in s && '5' !in s
  }

  lemma NoKNoFiveAppend(a: string, b: string)
    requires NoKNoFive(a) && NoKNoFive(b)
    ensures NoKNoFive(a + b)
  {
  }

  lemma LowerNoKNoFive(s: string)
    requires NoKNoFive(s)
    ensures 'k' !in Lower(s) && '5' !in Lower(s)
  {
  }

  lemma NotNullFree() ensures NoKNoFive("NOT NULL") {}
  lemma UniqueFree() ensures NoKNoFive("UNIQUE") {}
  lemma ConstraintFailedFree() ensures NoKNoFive(CONSTRAINT_FAILED) {}
  lemma RecordsTableFree() ensures NoKNoFive(RECORDS_TABLE) {}
  lemma UploadTimestampFree() ensures NoKNoFive("upload_timestamp") {}

  lemma PrefixesFree()
    ensures NoKNoFive("UNIQUE" + CONSTRAINT_FAILED + RECORDS_TABLE)
    ensures NoKNoFive(NOT_NULL_UPLOAD_TIMESTAMP)
  {
    NotNullFree();
    UniqueFree();
    ConstraintFailedFree();
    RecordsTableFree();
    UploadTimestampFree();
    NoKNoFiveAppend("UNIQUE", CONSTRAINT_FAILED);
    NoKNoFiveAppend("UNIQUE" + CONSTRAINT_FAILED, RECORDS_TABLE);
    NoKNoFiveAppend("NOT NULL", CONSTRAINT_FAILED);
    NoKNoFiveAppend("NOT NULL" + CONSTRAINT_FAILED, RECORDS_TABLE);
    NoKNoFiveAppend("NOT NULL" + CONSTRAINT_FAILED + RECORDS_TABLE, "upload_timestamp");
  }

  /** "uuid_key" does not occur in the short-key message: its only 'k' is the
      one of "short_key", and "uuid_key" does not end that way. */
  lemma NoUuidBeforeShortKey(p: string)
    requires NoKNoFive(p)
    ensures !Contains(Lower(p + "short_key"), "uuid_key")
  {
    var t := "short_key";
    LowerAppend(p, t);
    LowerNoKNoFive(p);
    assert Lower(t) == t;
    var s := Lower(p) + t;
    forall i: nat
      ensures !OccursAt(s, "uuid_key", i)
    {
      if i + 8 <= |s| {
        assert s[i..i + 8][5] == s[i + 5] && s[i..i + 8][0] == s[i];
        if i + 5 < |p| {
          assert s[i + 5] == Lower(p)[i + 5] && Lower(p)[i + 5] in Lower(p);
        } else if i + 5 < |p| + 6 {
          assert t[..6] == "short_";
          assert s[i + 5] == t[..6][i + 5 - |p|] && t[..6][i + 5 - |p|] in "short_";
        } else {
          assert s[i] == t[1];
        }
      }
    }
  }

  /** A missing upload time is an integrity error of none of the three kinds. */
  lemma ClassifyNotNull()
    ensures Classify(NOT_NULL_UPLOAD_TIMESTAMP) == OtherIntegrity
  {
    PrefixesFree();
    LowerNoKNoFive(NOT_NULL_UPLOAD_TIMESTAMP);
    AbsentChar(Lower(NOT_NULL_UPLOAD_TIMESTAMP), "uuid_key", 5);
    AbsentChar(Lower(NOT_NULL_UPLOAD_TIMESTAMP), "sha512_hash", 3);
    AbsentChar(Lower(NOT_NULL_UPLOAD_TIMESTAMP), "short_key", 6);
  }

  lemma ClassifyHash()
    ensures Classify(UNIQUE_SHA512_HASH) == HashConflict
  {
    var u := "UNIQUE" + CONSTRAINT_FAILED + RECORDS_TABLE;
    PrefixesFree();
    LowerAppend(u, "sha512_hash");
    LowerNoKNoFive(u);
    assert Lower("sha512_hash") == "sha512_hash";
    assert 'k' !in Lower(UNIQUE_SHA512_HASH);
    AbsentChar(Lower(UNIQUE_SHA512_HASH), "uuid_key", 5);
    ContainsAtEnd(u, "sha512_hash");
  }

  lemma ClassifyShortKey()
    ensures Classify(UNIQUE_SHORT_KEY) == ShortKeyConflict
  {
    var u := "UNIQUE" + CONSTRAINT_FAILED + RECORDS_TABLE;
    PrefixesFree();
    NoUuidBeforeShortKey(u);
    LowerAppend(u, "short_key");
    LowerNoKNoFive(u);
    assert Lower("short_key") == "short_key";
    assert '5' !in Lower(UNIQUE_SHORT_KEY);
    AbsentChar(Lower(UNIQUE_SHORT_KEY), "sha512_hash", 3);
    ContainsAtEnd(u, "short_key");
  }

  lemma ClassifyUuid()
    ensures Classify(UNIQUE_UUID_KEY) == UuidConflict
  {
    assert Lower("uuid_key") == "uuid_key";
    ContainsAtEnd("UNIQUE" + CONSTRAINT_FAILED + RECORDS_TABLE, "uuid_key");
  }

  /** What each violation of the record INSERT is read as: a missing upload time
      is a generic integrity error, a taken hash or uuid a duplicate, a taken
      short key a conflict to retry. */
  lemma ClassifyViolation(t: Tables, r: FileRecord)
    requires InsertViolation(t, r).Some?
    ensures var c := Classify(InsertViolation(t, r).value);
            && (c == OtherIntegrity <==> r.uploadTimestamp.None?)
            && (c == HashConflict <==> r.uploadTimestamp.Some? && HashTaken(t, r.sha512Hash))
            && (c == ShortKeyConflict <==>
                  r.uploadTimestamp.Some? && !HashTaken(t, r.sha512Hash) && r.shortKey.Some? && KeyUsed(t, r.shortKey.value))
            && (c == UuidConflict <==>
                  r.uploadTimestamp.Some? && !HashTaken(t, r.sha512Hash)
                  && !(r.shortKey.Some? && KeyUsed(t, r.shortKey.value)) && UuidTaken(t, r.uuidKey))
  {
    ClassifyNotNull();
    ClassifyHash();
    ClassifyShortKey();
    ClassifyUuid();
  }

  // ---------------------------------------------------------------- opening a file

  /** The index `ORDER BY applied_at DESC LIMIT 1` picks: a latest row. SQLite
      leaves the order of equally late rows unspecified; the model takes the
      first stored one. */
  function LatestIndex(rows: seq<VersionRow>): (i: nat)
    requires rows != []
    ensures i < |rows|
    ensures forall j :: 0 <= j < |rows| ==> rows[j].appliedAt <= rows[i].appliedAt
    ensures forall j :: 0 <= j < i ==> rows[j].appliedAt < rows[i].appliedAt
  {
    if |rows| == 1 then 0
    else
      var k := LatestIndex(rows[..|rows| - 1]);
      assert forall j :: 0 <= j < |rows| - 1 ==> rows[j] == rows[..|rows| - 1][j];
      if rows[|rows| - 1].appliedAt > rows[k].appliedAt then |rows| - 1 else k
  }

  function VersionTooNew(v: int): string {
    "資料庫版本 " + IntToString(v) + " 高於程式支援版本 " + IntToString(SCHEMA_VERSION)
  }

  /** `_check_and_update_schema`. In a file without tables the query fails and
      is ignored; an empty version table gets the current version; a stored
      version above the current one is refused; an older one is only logged. */
  function CheckSchema(t: Tables, now: Time): (r: Result<Tables, DbError>)
    ensures r.Err? <==> t.created && t.versions != [] && t.versions[LatestIndex(t.versions)].version > SCHEMA_VERSION
    ensures r.Err? ==> r.error == SchemaVersionError(VersionTooNew(t.versions[LatestIndex(t.versions)].version))
    ensures r.Ok? && t.created && t.versions == [] ==> r.value == t.(versions := [VersionRow(SCHEMA_VERSION, now)])
    ensures r.Ok? && !(t.created && t.versions == []) ==> r.value == t
  {
    if !t.created then Ok(t)
    else if t.versions == [] then Ok(t.(versions := [VersionRow(SCHEMA_VERSION, now)]))
    else
      var v := t.versions[LatestIndex(t.versions)].version;
      if v > SCHEMA_VERSION then Err(SchemaVersionError(VersionTooNew(v)))
      else Ok(t)
  }

  /** `CREATE TABLE IF NOT EXISTS ...` for the five tables; the indexes and the
      trigger definitions hold no rows. */
  function CreateTables(t: Tables): (r: Tables)
    ensures r.created && r == t.(created := true)
  {
    t.(created := true)
  }

  /** The reserved words seeded so far: one INSERT OR IGNORE per pair, in order. */
  function SeedReserved(t: Tables, keys: seq<(string, string)>, now: Time): (r: Tables)
    ensures r == t.(reserved := r.reserved, reservedSeq := r.reservedSeq)
    ensures |t.reserved| <= |r.reserved| && r.reserved[..|t.reserved|] == t.reserved
    ensures ReservedUnique(t.reserved) ==> ReservedUnique(r.reserved)
    ensures forall k :: KeyReserved(t, k) ==> KeyReserved(r, k)
    ensures forall i :: 0 <= i < |keys| ==> KeyReserved(r, keys[i].0)
  {
    if keys == [] then t
    else
      var last := keys[|keys| - 1];
      var before := SeedReserved(t, keys[..|keys| - 1], now);
      var r := InsertOrIgnoreReserved(before, last.0, last.1, now);
      assert forall i :: 0 <= i < |keys| - 1 ==> keys[i] == keys[..|keys| - 1][i];
      assert |before.reserved| <= |r.reserved| && r.reserved[..|before.reserved|] == before.reserved;
      assert r.reserved[..|t.reserved|] == before.reserved[..|before.reserved|][..|t.reserved|];
      r
  }

  /** `int((62 ** 4) * 0.999)`, in exact arithmetic. */
  const SEED_MAX_POSSIBLE: int := Pow(62, 4) * 999 / 1000

  /** `_initialize_base_data`: the twenty reserved words, then the length-4 row,
      each only where absent. */
  function SeedBaseData(t: Tables, now: Time): (r: Tables)
    requires TablesValid(t) && t.created
    ensures TablesValid(r) && r.created
  {
    InsertOrIgnoreSequence(SeedReserved(t, RESERVED_KEYS, now), 4, SEED_MAX_POSSIBLE, now)
  }

  function InitFailed(e: DbError): DbError {
    DatabaseError("資料庫初始化失敗: " + e.Message())
  }

  /** `_initialize_database`: the version gate, the tables, the base data, one
      commit; any error is rewrapped and nothing is committed. */
  function InitializeFile(file: Tables, now: Time): (r: Result<Tables, DbError>)
    requires TablesValid(file)
    ensures r.Ok? ==> TablesValid(r.value) && r.value.created
  {
    match CheckSchema(file, now)
    case Err(e) => Err(InitFailed(e))
    case Ok(t) => Ok(SeedBaseData(CreateTables(t), now))
  }

  /** A successful open leaves a created, well-formed file with every reserved
      word and a length-4 row, and the records and logs it found. */
  lemma InitializeSeeds(file: Tables, now: Time)
    requires TablesValid(file)
    requires InitializeFile(file, now).Ok?
    ensures var t := InitializeFile(file, now).value;
            && TablesValid(t) && t.created && HasRow(t, 4)
            && (forall w :: w in ReservedWords() ==> KeyReserved(t, w))
            && t.records == file.records && t.logs == file.logs
            && t.reserved[..|file.reserved|] == file.reserved
            && (HasRow(file, 4) ==> t.sequences == file.sequences)
  {
    var t1 := CreateTables(CheckSchema(file, now).value);
    var t2 := SeedReserved(t1, RESERVED_KEYS, now);
    var t := InsertOrIgnoreSequence(t2, 4, SEED_MAX_POSSIBLE, now);
    assert TablesValid(t2);
    forall w | w in ReservedWords()
      ensures KeyReserved(t, w)
    {
      var i :| 0 <= i < |ReservedWords()| && ReservedWords()[i] == w;
      assert KeyReserved(t2, RESERVED_KEYS[i].0);
    }
    if !HasRow(t2, 4) {
      var row := ShortKeySequence(Some(t2.sequenceSeq + 1), 4, 0, SEED_MAX_POSSIBLE, false, Some(now), Some(now));
      assert row in t.sequences;
    }
  }

  /** The seeded length-4 row holds 14761559 candidates, and a new file gets one. */
  lemma SeedRowOfNewFile(now: Time)
    ensures SEED_MAX_POSSIBLE == MaxPossible(4) == 14761559
    ensures InitializeFile(EmptyFile, now).Ok?
    ensures InitializeFile(EmptyFile, now).value.sequences ==
              [ShortKeySequence(Some(1), 4, 0, 14761559, false, Some(now), Some(now))]
  {
    MaxPossibleOfFour();
    assert Pow(62, 4) == 14776336;
    var t2 := SeedReserved(CreateTables(EmptyFile), RESERVED_KEYS, now);
    assert t2.sequences == [] && t2.sequenceSeq == 0;
  }

  /** The version gate: opening fails exactly when the latest stored version is
      above 1, with the rewrapped message; a brand-new file gets no version row;
      an existing file with an empty version table gets version 1. */
  lemma SchemaVersionGate(file: Tables, now: Time)
    requires TablesValid(file)
    ensures InitializeFile(file, now).Err? <==>
              file.created && file.versions != [] && file.versions[LatestIndex(file.versions)].version > 1
    ensures InitializeFile(file, now).Err? ==>
              InitializeFile(file, now).error ==
              DatabaseError("資料庫初始化失敗: " + VersionTooNew(file.versions[LatestIndex(file.versions)].version))
    ensures !file.created ==> InitializeFile(file, now).value.versions == []
    ensures file.created && file.versions == [] ==> InitializeFile(file, now).value.versions == [VersionRow(1, now)]
    ensures file.created && file.versions != [] && InitializeFile(file, now).Ok? ==>
              InitializeFile(file, now).value.versions == file.versions
  {
  }

  /** Opening a brand-new file twice: the first open writes no version row, the
      second writes version 1. */
  lemma VersionWrittenOnSecondOpen(n1: Time, n2: Time)
    ensures InitializeFile(EmptyFile, n1).Ok?
    ensures InitializeFile(InitializeFile(EmptyFile, n1).value, n2).Ok? &&
            InitializeFile(InitializeFile(EmptyFile, n1).value, n2).value.versions == [VersionRow(1, n2)]
  {
  }

  // ---------------------------------------------------------------- storing a record

  /** What `store_file_record` returns or raises, the record object afterwards
      (its short-key fields and retry count may have been set) and the tables. */
  datatype Stored = Stored(result: Result<nat, DbError>, record: FileRecord, tables: Tables)

  /** One pass of `store_file_record`: finished, or a short-key conflict to retry
      from the rolled-back tables with the key cleared. */
  datatype Attempt = Done(stored: Stored) | Retry(base: Tables, next: FileRecord)

  /** The record as it goes into the INSERT, the tables the INSERT runs on, and
      the tables a rollback returns to. */
  datatype Prepared = Prepared(conn: Tables, base: Tables, rec: FileRecord)

  const STORE_FAILED := "存儲檔案記錄失敗: "
  const INTEGRITY_FAILED := "數據庫完整性錯誤: "
  const FILE_EXISTS := "檔案已存在: "
  const HASH_EXISTS := "檔案雜湊已存在: "

  /** `str(record.short_key)`. */
  function ShortKeyText(r: FileRecord): string {
    if r.shortKey.Some? then r.shortKey.value else "None"
  }

  function RetriesExhausted(r: FileRecord): string {
    "短檔名生成失敗，已重試 " + IntToString(r.retryCount) + " 次: " + ShortKeyText(r)
  }

  /** The record after a minted key is attached to it; nothing else changes. */
  function Attach(r: FileRecord, m: Minted, now: Time): (a: FileRecord)
    ensures a.shortKey == Some(m.key) && a.shortKeyLength == Some(m.length)
    ensures a.shortKeyGenerationSalt == Some(m.salt) && a.shortKeyCreatedAt == Some(now)
    ensures a.(shortKey := r.shortKey, shortKeyLength := r.shortKeyLength,
               shortKeyGenerationSalt := r.shortKeyGenerationSalt, shortKeyCreatedAt := r.shortKeyCreatedAt) == r
  {
    r.(shortKey := Some(m.key), shortKeyLength := Some(m.length),
       shortKeyGenerationSalt := Some(m.salt), shortKeyCreatedAt := Some(now))
  }

  /** The details of the 'upload' log entry. */
  function UploadDetails(r: FileRecord): seq<(string, Json)> {
    [("original_filename", JStr(r.originalFilename)), ("file_size", JInt(r.fileSize)),
     ("short_key", if r.shortKey.Some? then JStr(r.shortKey.value) else JNull)]
  }

  function UploadLog(t: Tables, id: nat, r: FileRecord, now: Time): FileOperationLog {
    FileOperationLog(Some(t.logSeq + 1), id, "upload", Some(UploadDetails(r)), None, None, Some(now))
  }

  /** The number of retries still allowed. */
  function RetriesLeft(r: FileRecord): nat {
    if r.retryCount >= 3 then 0 else 3 - r.retryCount
  }

  /** The key step of a pass: a record without a short key gets a minted one
      (an error of the allocator becomes a `DatabaseError`). The allocator's
      own commit decides where a later rollback returns to. */
  function PrepareKey(t: Tables, rec: FileRecord, e: Entropy, now: Time): (p: Result<Prepared, DbError>)
    requires TablesValid(t) && t.created
    ensures p.Ok? ==> TablesValid(p.value.conn) && p.value.conn.created
    ensures p.Ok? ==> TablesValid(p.value.base) && p.value.base.created
    ensures p.Ok? ==> OnlySequencesChanged(t, p.value.conn) && OnlySequencesChanged(t, p.value.base)
    ensures p.Ok? ==> p.value.rec.shortKey.Some? && p.value.rec.retryCount == rec.retryCount
    ensures rec.shortKey.Some? ==> p == Ok(Prepared(t, t, rec))
    ensures rec.shortKey.None? ==> (p.Err? <==> Mint(t, e, now).result.Err?)
    ensures rec.shortKey.None? && p.Ok? ==>
              p.value.rec == Attach(rec, Mint(t, e, now).result.value, now) && !KeyUsed(t, p.value.rec.shortKey.value)
    ensures p.Err? ==> p.error == DatabaseError(STORE_FAILED + Mint(t, e, now).result.error.Message())
  {
    if rec.shortKey.Some? then Ok(Prepared(t, t, rec))
    else
      var s := Mint(t, e, now);
      MintTouchesOnlySequences(t, e, now);
      if s.result.Err? then Err(DatabaseError(STORE_FAILED + s.result.error.Message()))
      else
        MintedKeyFree(t, e, now);
        Ok(Prepared(s.tables, if s.commits then s.tables else t, Attach(rec, s.result.value, now)))
  }

  /** The INSERT of a pass and what follows it: on success a commit, the
      'upload' log entry and a second commit; on an integrity error a rollback
      to `base` and the classification of the message. */
  function AfterInsert(conn: Tables, base: Tables, r1: FileRecord, now: Time): (a: Attempt)
    requires TablesValid(conn) && conn.created && TablesValid(base) && base.created
    ensures a.Done? ==> TablesValid(a.stored.tables) && a.stored.tables.created && a.stored.record == r1
    ensures a.Done? && a.stored.result.Ok? <==> InsertViolation(conn, r1).None?
    ensures a.Done? && a.stored.result.Err? ==> a.stored.tables == base
    ensures a.Retry? <==>
              InsertViolation(conn, r1).Some? && Classify(InsertViolation(conn, r1).value) == ShortKeyConflict
              && r1.retryCount < 3
    ensures a.Retry? ==> a.base == base && a.next == r1.(shortKey := None, retryCount := r1.retryCount + 1)
  {
    match InsertRecord(conn, r1, now)
    case Ok((t2, id)) => Done(Stored(Ok(id), r1, InsertLog(t2, id, "upload", UploadDetails(r1), now)))
    case Err(msg) =>
      match Classify(msg)
      case UuidConflict => Done(Stored(Err(DuplicateFileError(FILE_EXISTS + r1.uuidKey)), r1, base))
      case HashConflict => Done(Stored(Err(DuplicateFileError(HASH_EXISTS + r1.sha512Hash)), r1, base))
      case ShortKeyConflict =>
        if r1.retryCount >= 3 then Done(Stored(Err(DatabaseError(RetriesExhausted(r1))), r1, base))
        else Retry(base, r1.(shortKey := None, retryCount := r1.retryCount + 1))
      case OtherIntegrity => Done(Stored(Err(DatabaseError(INTEGRITY_FAILED + msg)), r1, base))
  }

  /** One pass of `store_file_record`. `draws(n)` is the entropy of the mint
      made on retry `n`. */
  function StoreAttempt(t: Tables, rec: FileRecord, draws: nat -> Entropy, now: Time): (a: Attempt)
    requires TablesValid(t) && t.created
    ensures a.Done? ==> TablesValid(a.stored.tables) && a.stored.tables.created
    ensures a.Done? && a.stored.result.Err? ==> OnlySequencesChanged(t, a.stored.tables)
    ensures a.Retry? ==> TablesValid(a.base) && a.base.created && OnlySequencesChanged(t, a.base)
    ensures a.Retry? ==> a.next.shortKey.None? && rec.retryCount < 3 && a.next.retryCount == rec.retryCount + 1
  {
    match PrepareKey(t, rec, draws(rec.retryCount), now)
    case Err(e) => Done(Stored(Err(e), rec, t))
    case Ok(p) => AfterInsert(p.conn, p.base, p.rec, now)
  }

  /** `store_file_record`, with its recursive retry. A failed store changes
      nothing but the allocator's table. */
  function StoreSpec(t: Tables, rec: FileRecord, draws: nat -> Entropy, now: Time): (s: Stored)
    requires TablesValid(t) && t.created
    ensures TablesValid(s.tables) && s.tables.created
    ensures s.result.Err? ==> OnlySequencesChanged(t, s.tables)
    decreases RetriesLeft(rec)
  {
    match StoreAttempt(t, rec, draws, now)
    case Done(s) => s
    case Retry(base, next) => StoreSpec(base, next, draws, now)
  }

  /** One pass of `StoreSpec`, taken apart: the key step, then the INSERT. */
  lemma StoreSpecUnfold(t: Tables, rec: FileRecord, draws: nat -> Entropy, now: Time)
    requires TablesValid(t) && t.created
    ensures var p := PrepareKey(t, rec, draws(rec.retryCount), now);
            && (p.Err? ==> StoreSpec(t, rec, draws, now) == Stored(Err(p.error), rec, t))
            && (p.Ok? ==>
                  var a := AfterInsert(p.value.conn, p.value.base, p.value.rec, now);
                  && (a.Done? ==> StoreSpec(t, rec, draws, now) == a.stored)
                  && (a.Retry? ==> StoreSpec(t, rec, draws, now) == StoreSpec(a.base, a.next, draws, now)))
  {
  }

  /** The number of INSERT attempts a store makes: one per pass. */
  function Passes(t: Tables, rec: FileRecord, draws: nat -> Entropy, now: Time): (n: nat)
    requires TablesValid(t) && t.created
    ensures 1 <= n <= RetriesLeft(rec) + 1 <= 4
    decreases RetriesLeft(rec)
  {
    match StoreAttempt(t, rec, draws, now)
    case Done(_) => 1
    case Retry(base, next) => 1 + Passes(base, next, draws, now)
  }

  /** The tables after a successful store: one record with the next id and its
      'upload' log entry appended, the allocator's table moved on, nothing else
      changed. */
  predicate StoredOnce(t: Tables, s: Stored, now: Time) {
    var id := t.recordSeq + 1;
    && s.result == Ok(id) && s.record.shortKey.Some?
    && s.tables == t.(sequences := s.tables.sequences, sequenceSeq := s.tables.sequenceSeq,
                      records := t.records + [StoredRow(s.record, id, now)], recordSeq := id,
                      logs := t.logs + [UploadLog(t, id, s.record, now)], logSeq := t.logSeq + 1)
  }

  lemma InsertStores(conn: Tables, base: Tables, r1: FileRecord, now: Time)
    requires TablesValid(conn) && conn.created && TablesValid(base) && base.created
    requires r1.shortKey.Some?
    requires AfterInsert(conn, base, r1, now).Done? && AfterInsert(conn, base, r1, now).stored.result.Ok?
    ensures StoredOnce(conn, AfterInsert(conn, base, r1, now).stored, now)
    ensures AfterInsert(conn, base, r1, now).stored.tables.sequences == conn.sequences
  {
    var s := AfterInsert(conn, base, r1, now).stored;
    var id := conn.recordSeq + 1;
    var t2 := InsertRecord(conn, r1, now).value.0;
    var log := UploadLog(conn, id, r1, now);
    assert s.tables.logs == conn.logs + [log];
    assert s.tables.records == t2.records by {
      assert forall i :: 0 <= i < |t2.records| ==> AfterLogInsert(t2.records[i], log, now) == t2.records[i];
    }
  }

  /** What a successful pass stores, stated against the tables it started from. */
  lemma AttemptStores(t: Tables, rec: FileRecord, draws: nat -> Entropy, now: Time)
    requires TablesValid(t) && t.created
    requires StoreAttempt(t, rec, draws, now).Done? && StoreAttempt(t, rec, draws, now).stored.result.Ok?
    ensures StoredOnce(t, StoreAttempt(t, rec, draws, now).stored, now)
  {
    var p := PrepareKey(t, rec, draws(rec.retryCount), now).value;
    InsertStores(p.conn, p.base, p.rec, now);
    StoredOnceShift(t, p.conn, StoreAttempt(t, rec, draws, now).stored, now);
  }

  /** Tables that differ only in the allocator's table store the same way. */
  lemma StoredOnceShift(t: Tables, t': Tables, s: Stored, now: Time)
    requires OnlySequencesChanged(t, t') && StoredOnce(t', s, now)
    ensures StoredOnce(t, s, now)
  {
    assert UploadLog(t', t.recordSeq + 1, s.record, now) == UploadLog(t, t.recordSeq + 1, s.record, now);
  }

  /** A successful store adds exactly one record, with the next id, and then
      exactly one 'upload' log entry, whatever retries came before it. */
  lemma {:induction false} StoreAddsOneRecord(t: Tables, rec: FileRecord, draws: nat -> Entropy, now: Time)
    requires TablesValid(t) && t.created
    requires StoreSpec(t, rec, draws, now).result.Ok?
    ensures StoredOnce(t, StoreSpec(t, rec, draws, now), now)
    decreases RetriesLeft(rec)
  {
    var a := StoreAttempt(t, rec, draws, now);
    if a.Done? {
      AttemptStores(t, rec, draws, now);
    } else {
      StoreAddsOneRecord(a.base, a.next, draws, now);
      StoredOnceShift(t, a.base, StoreSpec(t, rec, draws, now), now);
    }
  }

  /** How a store ends, by the first constraint the record breaks: allocator
      errors and a missing upload time are `DatabaseError`s, a taken hash (checked
      first) or uuid a `DuplicateFileError`, a taken short key a retry from the
      same tables with the key cleared, or the retries-exhausted error from a
      count of 3 on; a record that breaks nothing is stored. */
  lemma StoreOutcome(t: Tables, rec: FileRecord, draws: nat -> Entropy, now: Time)
    requires TablesValid(t) && t.created
    ensures var p := PrepareKey(t, rec, draws(rec.retryCount), now);
            var s := StoreSpec(t, rec, draws, now);
            var keyTaken := rec.shortKey.Some? && KeyUsed(t, rec.shortKey.value);
            && (p.Err? ==> s.result == Err(p.error))
            && (p.Ok? && rec.uploadTimestamp.None? ==>
                  s.result == Err(DatabaseError(INTEGRITY_FAILED + NOT_NULL_UPLOAD_TIMESTAMP)))
            && (p.Ok? && rec.uploadTimestamp.Some? && HashTaken(t, rec.sha512Hash) ==>
                  s.result == Err(DuplicateFileError(HASH_EXISTS + rec.sha512Hash)))
            && (p.Ok? && rec.uploadTimestamp.Some? && !HashTaken(t, rec.sha512Hash) && !keyTaken
                && UuidTaken(t, rec.uuidKey) ==>
                  s.result == Err(DuplicateFileError(FILE_EXISTS + rec.uuidKey)))
            && (p.Ok? && rec.uploadTimestamp.Some? && !HashTaken(t, rec.sha512Hash) && !keyTaken
                && !UuidTaken(t, rec.uuidKey) ==>
                  s.result.Ok?)
            && (rec.uploadTimestamp.Some? && !HashTaken(t, rec.sha512Hash) && keyTaken && rec.retryCount >= 3 ==>
                  s.result == Err(DatabaseError(RetriesExhausted(rec))))
            && (rec.uploadTimestamp.Some? && !HashTaken(t, rec.sha512Hash) && keyTaken && rec.retryCount < 3 ==>
                  s == StoreSpec(t, rec.(shortKey := None, retryCount := rec.retryCount + 1), draws, now))
  {
    var p := PrepareKey(t, rec, draws(rec.retryCount), now);
    if p.Ok? {
      PreparedOutcome(t, rec, draws, now);
    }
    if rec.uploadTimestamp.Some? && !HashTaken(t, rec.sha512Hash) && rec.shortKey.Some? && KeyUsed(t, rec.shortKey.value) {
      TakenKeyOutcome(t, rec, draws, now);
    }
  }

  /** `StoreOutcome` once the key step has succeeded, for a key nobody holds. */
  lemma PreparedOutcome(t: Tables, rec: FileRecord, draws: nat -> Entropy, now: Time)
    requires TablesValid(t) && t.created
    requires PrepareKey(t, rec, draws(rec.retryCount), now).Ok?
    ensures var s := StoreSpec(t, rec, draws, now);
            var keyTaken := rec.shortKey.Some? && KeyUsed(t, rec.shortKey.value);
            && (rec.uploadTimestamp.None? ==>
                  s.result == Err(DatabaseError(INTEGRITY_FAILED + NOT_NULL_UPLOAD_TIMESTAMP)))
            && (rec.uploadTimestamp.Some? && HashTaken(t, rec.sha512Hash) ==>
                  s.result == Err(DuplicateFileError(HASH_EXISTS + rec.sha512Hash)))
            && (rec.uploadTimestamp.Some? && !HashTaken(t, rec.sha512Hash) && !keyTaken
                && UuidTaken(t, rec.uuidKey) ==>
                  s.result == Err(DuplicateFileError(FILE_EXISTS + rec.uuidKey)))
            && (rec.uploadTimestamp.Some? && !HashTaken(t, rec.sha512Hash) && !keyTaken
                && !UuidTaken(t, rec.uuidKey) ==>
                  s.result.Ok?)
  {
    var p := PrepareKey(t, rec, draws(rec.retryCount), now);
    var q := p.value;
    assert q.conn.records == t.records;
    assert q.rec.uploadTimestamp == rec.uploadTimestamp && q.rec.sha512Hash == rec.sha512Hash
        && q.rec.uuidKey == rec.uuidKey;
    assert HashTaken(q.conn, q.rec.sha512Hash) == HashTaken(t, rec.sha512Hash);
    assert UuidTaken(q.conn, q.rec.uuidKey) == UuidTaken(t, rec.uuidKey);
    assert KeyUsed(q.conn, q.rec.shortKey.value) == (rec.shortKey.Some? && KeyUsed(t, rec.shortKey.value));
    PassOutcome(q.conn, q.base, q.rec, now);
    assert StoreAttempt(t, rec, draws, now) == AfterInsert(q.conn, q.base, q.rec, now);
  }

  /** `StoreOutcome` for a supplied key that a record already holds. */
  lemma TakenKeyOutcome(t: Tables, rec: FileRecord, draws: nat -> Entropy, now: Time)
    requires TablesValid(t) && t.created
    requires rec.shortKey.Some? && KeyUsed(t, rec.shortKey.value)
    requires rec.uploadTimestamp.Some? && !HashTaken(t, rec.sha512Hash)
    ensures var s := StoreSpec(t, rec, draws, now);
            && (rec.retryCount >= 3 ==> s.result == Err(DatabaseError(RetriesExhausted(rec))))
            && (rec.retryCount < 3 ==> s == StoreSpec(t, rec.(shortKey := None, retryCount := rec.retryCount + 1), draws, now))
  {
    assert PrepareKey(t, rec, draws(rec.retryCount), now) == Ok(Prepared(t, t, rec));
    PassOutcome(t, t, rec, now);
    assert StoreAttempt(t, rec, draws, now) == AfterInsert(t, t, rec, now);
  }

  /** How the INSERT of one pass ends, by the first constraint the record breaks. */
  lemma PassOutcome(conn: Tables, base: Tables, r1: FileRecord, now: Time)
    requires TablesValid(conn) && conn.created && TablesValid(base) && base.created
    requires r1.shortKey.Some?
    ensures var a := AfterInsert(conn, base, r1, now);
            var keyTaken := KeyUsed(conn, r1.shortKey.value);
            && (r1.uploadTimestamp.None? ==>
                  a.Done? && a.stored.result == Err(DatabaseError(INTEGRITY_FAILED + NOT_NULL_UPLOAD_TIMESTAMP)))
            && (r1.uploadTimestamp.Some? && HashTaken(conn, r1.sha512Hash) ==>
                  a.Done? && a.stored.result == Err(DuplicateFileError(HASH_EXISTS + r1.sha512Hash)))
            && (r1.uploadTimestamp.Some? && !HashTaken(conn, r1.sha512Hash) && !keyTaken && UuidTaken(conn, r1.uuidKey) ==>
                  a.Done? && a.stored.result == Err(DuplicateFileError(FILE_EXISTS + r1.uuidKey)))
            && (r1.uploadTimestamp.Some? && !HashTaken(conn, r1.sha512Hash) && !keyTaken && !UuidTaken(conn, r1.uuidKey) ==>
                  a.Done? && a.stored.result.Ok?)
            && (r1.uploadTimestamp.Some? && !HashTaken(conn, r1.sha512Hash) && keyTaken && r1.retryCount >= 3 ==>
                  a.Done? && a.stored.result == Err(DatabaseError(RetriesExhausted(r1))))
            && (r1.uploadTimestamp.Some? && !HashTaken(conn, r1.sha512Hash) && keyTaken && r1.retryCount < 3 ==>
                  a == Retry(base, r1.(shortKey := None, retryCount := r1.retryCount + 1)))
  {
    if InsertViolation(conn, r1).Some? {
      ClassifyViolation(conn, r1);
    }
  }

  /** A key the caller supplies and no record holds is stored as given, with the
      rest of the record, in one pass. */
  lemma SuppliedKeyKept(t: Tables, rec: FileRecord, draws: nat -> Entropy, now: Time)
    requires TablesValid(t) && t.created
    requires rec.shortKey.Some? && !KeyUsed(t, rec.shortKey.value)
    ensures Passes(t, rec, draws, now) == 1
    ensures StoreSpec(t, rec, draws, now).record == rec
  {
    if InsertViolation(t, rec).Some? {
      ClassifyViolation(t, rec);
    }
  }

  /** A record without a key gets the minted key, its length and salt, and the
      time, before the INSERT, and the store makes one pass. */
  lemma MintedKeyAttached(t: Tables, rec: FileRecord, draws: nat -> Entropy, now: Time)
    requires TablesValid(t) && t.created && rec.shortKey.None?
    requires Mint(t, draws(rec.retryCount), now).result.Ok?
    ensures Passes(t, rec, draws, now) == 1
    ensures StoreSpec(t, rec, draws, now).record == Attach(rec, Mint(t, draws(rec.retryCount), now).result.value, now)
  {
    var q := PrepareKey(t, rec, draws(rec.retryCount), now).value;
    assert q.conn.records == t.records;
    assert !KeyUsed(q.conn, q.rec.shortKey.value);
    if InsertViolation(q.conn, q.rec).Some? {
      ClassifyViolation(q.conn, q.rec);
    }
  }

  /** In one sequence of calls a re-minted key is always free, so the bound of
      four passes is never reached: a store makes at most two, and a second only
      for a key the caller supplied that is already held. */
  lemma StoreRetriesAtMostOnce(t: Tables, rec: FileRecord, draws: nat -> Entropy, now: Time)
    requires TablesValid(t) && t.created
    ensures Passes(t, rec, draws, now) <= 2
    ensures Passes(t, rec, draws, now) == 2 ==> rec.shortKey.Some? && KeyUsed(t, rec.shortKey.value)
  {
    var a := StoreAttempt(t, rec, draws, now);
    if a.Retry? {
      if Mint(a.base, draws(a.next.retryCount), now).result.Ok? {
        MintedKeyAttached(a.base, a.next, draws, now);
      }
      if rec.shortKey.None? {
        MintedKeyAttached(t, rec, draws, now);
      } else if !KeyUsed(t, rec.shortKey.value) {
        SuppliedKeyKept(t, rec, draws, now);
      }
    }
  }

  // ---------------------------------------------------------------- lookups

  /** The column a lookup filters on. */
  datatype Column = UuidColumn | HashColumn | ShortKeyColumn

  /** The row is active and holds `v` in column `c`. */
  predicate ActiveMatch(r: FileRecord, c: Column, v: string) {
    && r.status == "active"
    && match c
       case UuidColumn => r.uuidKey == v
       case HashColumn => r.sha512Hash == v
       case ShortKeyColumn => r.shortKey == Some(v)
  }

  /** `SELECT * FROM file_records WHERE <column> = ? AND status = 'active'`, the
      row `fetchone` returns. */
  function FindActive(rows: seq<FileRecord>, c: Column, v: string): (r: Option<nat>)
    ensures r.Some? ==> r.value < |rows| && ActiveMatch(rows[r.value], c, v)
    ensures r.Some? ==> forall i :: 0 <= i < r.value ==> !ActiveMatch(rows[i], c, v)
    ensures r.None? ==> forall i :: 0 <= i < |rows| ==> !ActiveMatch(rows[i], c, v)
  {
    if rows == [] then None
    else if ActiveMatch(rows[0], c, v) then Some(0)
    else
      match FindActive(rows[1..], c, v)
      case None => None
      case Some(j) =>
        assert forall i :: 1 <= i < j + 1 ==> rows[i] == rows[1..][i - 1];
        Some(j + 1)
  }

  /** The three columns are unique, so at most one row matches, and the lookup
      finds it. */
  lemma ActiveMatchUnique(t: Tables, c: Column, v: string)
    requires TablesValid(t)
    ensures forall i :: 0 <= i < |t.records| && ActiveMatch(t.records[i], c, v) ==>
              FindActive(t.records, c, v) == Some(i)
  {
    var rows := t.records;
    forall i | 0 <= i < |rows| && ActiveMatch(rows[i], c, v)
      ensures FindActive(rows, c, v) == Some(i)
    {
      var k := FindActive(rows, c, v).value;
      assert k <= i;
    }
  }

  /** `_row_to_file_record`: a new `FileRecord` built from the row's columns
      (its constructor fills missing timestamps). */
  function RowToRecord(row: FileRecord, now: Time): (r: FileRecord) {
    PostInitRecord(row.(retryCount := 0), now)
  }

  /** A row the store wrote reads back as that row. */
  lemma StoredRowReadsBack(rec: FileRecord, id: nat, n: Time, now: Time)
    requires rec.uploadTimestamp.Some?
    ensures RowToRecord(StoredRow(rec, id, n), now) == StoredRow(rec, id, n)
  {
  }

  /** One lookup: the active row holding `v` in column `c`, as a record. */
  function Lookup(t: Tables, c: Column, v: string, now: Time): (r: Option<FileRecord>)
    ensures r.Some? <==> exists i :: 0 <= i < |t.records| && ActiveMatch(t.records[i], c, v)
    ensures r.Some? ==> r.value == RowToRecord(t.records[FindActive(t.records, c, v).value], now)
  {
    match FindActive(t.records, c, v)
    case None => None
    case Some(i) => Some(RowToRecord(t.records[i], now))
  }

  /** The details of the 'access' log entry. */
  function AccessDetails(key: string): seq<(string, Json)> {
    [("access_method", JStr("short_key")), ("short_key", JStr(key))]
  }

  /** The tables after `get_file_by_short_key`: on a hit, one 'access' log entry
      for that row (and the access-count trigger); on a miss, nothing. */
  function AccessSpec(t: Tables, key: string, now: Time): (r: Tables)
    requires TablesValid(t) && t.created
    ensures TablesValid(r) && r.created
  {
    match FindActive(t.records, ShortKeyColumn, key)
    case None => t
    case Some(i) => InsertLog(t, t.records[i].id.value, "access", AccessDetails(key), now)
  }

  /** A hit counts exactly one access on the row found and on no other row, and
      appends one 'access' entry; a miss changes nothing. */
  lemma AccessCountsOnce(t: Tables, key: string, now: Time)
    requires TablesValid(t) && t.created
    ensures var r := AccessSpec(t, key, now);
            match FindActive(t.records, ShortKeyColumn, key)
            case None => r == t
            case Some(k) =>
              && |r.records| == |t.records|
              && r.records[k] == t.records[k].(accessCount := t.records[k].accessCount + 1,
                                                lastAccessedAt := Some(now), updatedAt := Some(now))
              && (forall i :: 0 <= i < |t.records| && i != k ==> r.records[i] == t.records[i])
              && r.logs == t.logs + [FileOperationLog(Some(t.logSeq + 1), t.records[k].id.value, "access",
                                                      Some(AccessDetails(key)), None, None, Some(now))]
              && r.sequences == t.sequences && r.reserved == t.reserved
  {
    match FindActive(t.records, ShortKeyColumn, key)
    case None =>
    case Some(k) =>
      var r := AccessSpec(t, key, now);
      var log := r.logs[|t.logs|];
      forall i | 0 <= i < |t.records| && i != k
        ensures r.records[i] == t.records[i]
      {
        assert t.records[i].id != t.records[k].id;
        assert AfterLogInsert(t.records[i], log, now) == t.records[i];
      }
  }

  /** An active holder answers True; a key held only by a record of another
      status is still refused by the allocator but not reported here. */
  lemma ActiveKeyIsUsed(t: Tables, key: string)
    ensures FindActive(t.records, ShortKeyColumn, key).Some? ==> KeyUsed(t, key)
  {
    if FindActive(t.records, ShortKeyColumn, key).Some? {
      var k := FindActive(t.records, ShortKeyColumn, key).value;
      assert t.records[k].shortKey == Some(key);
    }
  }

  lemma DeletedHolderNotReported(t: Tables, rec: FileRecord)
    requires t.records == [rec] && rec.shortKey == Some("abcd") && rec.status == "deleted"
    ensures KeyUsed(t, "abcd") && FindActive(t.records, ShortKeyColumn, "abcd").None?
  {
    assert t.records[0].shortKey == Some("abcd");
  }

  // ---------------------------------------------------------------- upload info

  /** The matching row is unique, so the UPDATE changes at most one row; it
      changes one exactly when an active row has that hash, and then sets its
      object key and URL. */
  lemma UploadInfoUpdatesOne(t: Tables, hash: string, key: string, url: string, now: Time)
    requires TablesValid(t)
    ensures var (r, n) := UpdateUploadInfo(t, hash, key, url, now);
            && n <= 1
            && (n == 1 <==> FindActive(t.records, HashColumn, hash).Some?)
            && (n == 0 ==> r == t)
            && (n == 1 ==> var k := FindActive(t.records, HashColumn, hash).value;
                           r.records[k].r2ObjectKey == key && r.records[k].uploadUrl == url)
  {
    var rows := t.records;
    var hits := set i | 0 <= i < |rows| && rows[i].sha512Hash == hash && rows[i].status == "active";
    var (r, n) := UpdateUploadInfo(t, hash, key, url, now);
    assert n == |hits|;
    match FindActive(rows, HashColumn, hash)
    case None =>
      assert hits == {};
      assert r.records == rows;
    case Some(k) =>
      ActiveMatchUnique(t, HashColumn, hash);
      assert hits == {k} by {
        forall i | i in hits
          ensures i == k
        {
          assert ActiveMatch(rows[i], HashColumn, hash);
        }
        assert k in hits;
      }
  }

  /** Repeating the update with the same values reports the same row count and
      leaves the same object key and URL on every row. */
  lemma UploadInfoIdempotent(t: Tables, hash: string, key: string, url: string, n1: Time, n2: Time)
    requires TablesValid(t)
    ensures var (r1, c1) := UpdateUploadInfo(t, hash, key, url, n1);
            var (r2, c2) := UpdateUploadInfo(r1, hash, key, url, n2);
            && c1 == c2
            && |r2.records| == |r1.records|
            && (forall i :: 0 <= i < |r1.records| ==>
                  r2.records[i].r2ObjectKey == r1.records[i].r2ObjectKey
                  && r2.records[i].uploadUrl == r1.records[i].uploadUrl)
  {
    var (r1, c1) := UpdateUploadInfo(t, hash, key, url, n1);
    var h1 := set i | 0 <= i < |t.records| && t.records[i].sha512Hash == hash && t.records[i].status == "active";
    var h2 := set i | 0 <= i < |r1.records| && r1.records[i].sha512Hash == hash && r1.records[i].status == "active";
    assert h1 == h2;
  }

  // ---------------------------------------------------------------- statistics

  /** `get_statistics` without `total_size_mb` and `extension_distribution`. */
  datatype DbStatistics = DbStatistics(
    totalFiles: nat,
    filesWithShortKeys: nat,
    totalSizeBytes: int,
    uniqueExtensions: nat,
    shortKeyStatistics: KeyStatistics)

  /** `COUNT(*) ... WHERE status = 'active'`. */
  function ActiveCount(rows: seq<FileRecord>): (n: nat)
    ensures n <= |rows|
  {
    if rows == [] then 0
    else ActiveCount(rows[..|rows| - 1]) + (if rows[|rows| - 1].status == "active" then 1 else 0)
  }

  /** `COUNT(*) ... WHERE short_key IS NOT NULL AND status = 'active'`. */
  function ActiveKeyedCount(rows: seq<FileRecord>): (n: nat)
    ensures n <= ActiveCount(rows) && n <= CountKeyed(rows)
  {
    if rows == [] then 0
    else
      var last := rows[|rows| - 1];
      ActiveKeyedCount(rows[..|rows| - 1]) + (if last.status == "active" && last.shortKey.Some? then 1 else 0)
  }

  /** `SUM(file_size) ... WHERE status = 'active'`, 0 for no rows. */
  function ActiveSize(rows: seq<FileRecord>): int {
    if rows == [] then 0
    else ActiveSize(rows[..|rows| - 1]) + (if rows[|rows| - 1].status == "active" then rows[|rows| - 1].fileSize else 0)
  }

  /** The extensions `COUNT(DISTINCT file_extension)` counts. */
  function ActiveExtensions(rows: seq<FileRecord>): (s: set<string>)
    ensures forall x :: x in s <==> exists i :: 0 <= i < |rows| && rows[i].status == "active" && rows[i].fileExtension == x
  {
    if rows == [] then {}
    else
      var init := rows[..|rows| - 1];
      var last := rows[|rows| - 1];
      assert forall i :: 0 <= i < |init| ==> init[i] == rows[i];
      ActiveExtensions(init) + (if last.status == "active" then {last.fileExtension} else {})
  }

  /** A successful store of an active record counts one more file, one more file
      with a short key, its size and its extension. */
  lemma StatisticsAfterStore(t: Tables, s: Stored, now: Time)
    requires StoredOnce(t, s, now) && s.record.status == "active"
    ensures ActiveCount(s.tables.records) == ActiveCount(t.records) + 1
    ensures ActiveKeyedCount(s.tables.records) == ActiveKeyedCount(t.records) + 1
    ensures ActiveSize(s.tables.records) == ActiveSize(t.records) + s.record.fileSize
    ensures ActiveExtensions(s.tables.records) == ActiveExtensions(t.records) + {s.record.fileExtension}
  {
    var rs := s.tables.records;
    assert rs[..|rs| - 1] == t.records;
  }

  // ---------------------------------------------------------------- opening methods

  /** `_check_and_update_schema`, on the open transaction. */
  method CheckAndUpdateSchema(db: Database, now: Time) returns (err: Option<DbError>)
    requires db.Valid()
    modifies db
    ensures db.Valid() && db.committed == old(db.committed)
    ensures err.Some? <==> CheckSchema(old(db.conn), now).Err?
    ensures err.Some? ==> err.value == CheckSchema(old(db.conn), now).error && db.conn == old(db.conn)
    ensures err.None? ==> db.conn == CheckSchema(old(db.conn), now).value
  {
    if !db.conn.created {
      // no schema_version table yet: the query fails and is ignored
      return None;
    }
    var rows := db.conn.versions;
    if rows == [] {
      db.conn := db.conn.(versions := [VersionRow(SCHEMA_VERSION, now)]);
      return None;
    }
    var v := rows[LatestIndex(rows)].version;
    if v > SCHEMA_VERSION {
      return Some(SchemaVersionError(VersionTooNew(v)));
    }
    // an older version is only logged
    return None;
  }

  /** `_initialize_base_data`: one INSERT OR IGNORE per reserved word, then the
      length-4 row. */
  method InitializeBaseData(db: Database, now: Time)
    requires db.Valid() && db.conn.created
    modifies db
    ensures db.Valid() && db.committed == old(db.committed)
    ensures db.conn == SeedBaseData(old(db.conn), now)
  {
    ghost var t0 := db.conn;
    for i := 0 to |RESERVED_KEYS|
      invariant db.Valid() && db.committed == old(db.committed)
      invariant db.conn == SeedReserved(t0, RESERVED_KEYS[..i], now)
    {
      assert RESERVED_KEYS[..i + 1][..i] == RESERVED_KEYS[..i];
      db.conn := InsertOrIgnoreReserved(db.conn, RESERVED_KEYS[i].0, RESERVED_KEYS[i].1, now);
    }
    assert RESERVED_KEYS[..|RESERVED_KEYS|] == RESERVED_KEYS;
    db.conn := InsertOrIgnoreSequence(db.conn, 4, SEED_MAX_POSSIBLE, now);
  }

  /** `_initialize_database`: everything in one transaction, committed at the
      end or rolled back with the error rewrapped. */
  method InitializeDatabase(db: Database, now: Time) returns (err: Option<DbError>)
    requires db.Valid() && db.conn == db.committed
    modifies db
    ensures db.Valid() && db.conn == db.committed
    ensures err.Some? <==> InitializeFile(old(db.conn), now).Err?
    ensures err.Some? ==> err.value == InitializeFile(old(db.conn), now).error && db.committed == old(db.committed)
    ensures err.None? ==> db.committed == InitializeFile(old(db.conn), now).value
  {
    var e := CheckAndUpdateSchema(db, now);
    if e.Some? {
      db.Rollback();
      return Some(InitFailed(e.value));
    }
    db.conn := CreateTables(db.conn);
    InitializeBaseData(db, now);
    db.Commit();
    return None;
  }

  // ---------------------------------------------------------------- the registry

  /** `DatabaseManager`: the connection and the allocator that shares it.
      Between calls nothing is pending on the connection. */
  class Registry {
    const db: Database
    const keys: KeyGenerator

    ghost predicate Valid()
      reads this, db
    {
      db.Valid() && db.conn == db.committed && db.conn.created && keys.db == db
    }

    constructor (db: Database)
      requires db.Valid() && db.conn == db.committed && db.conn.created
      ensures Valid() && this.db == db
    {
      this.db := db;
      keys := new KeyGenerator(db);
    }

    /** `DatabaseManager(db_path)`: initialise the file, then create the allocator. */
    static method Open(file: Tables, now: Time) returns (r: Result<Registry, DbError>)
      requires TablesValid(file)
      ensures r.Err? <==> InitializeFile(file, now).Err?
      ensures r.Err? ==> r.error == InitializeFile(file, now).error
      ensures r.Ok? ==> fresh(r.value) && r.value.Valid() && r.value.db.committed == InitializeFile(file, now).value
    {
      var db := new Database(file);
      var err := InitializeDatabase(db, now);
      if err.Some? {
        return Err(err.value);
      }
      var reg := new Registry(db);
      return Ok(reg);
    }

    /** The key step of `store_file_record`: mint and attach a key when the
        record has none. The allocator's commit, if any, is in `db.committed`. */
    method PrepareRecordKey(rec: FileRecord, e: Entropy, now: Time) returns (p: Result<FileRecord, DbError>)
      requires Valid()
      modifies db
      ensures db.Valid() && db.conn.created && db.committed.created
      ensures p.Err? <==> PrepareKey(old(db.conn), rec, e, now).Err?
      ensures p.Err? ==> p.error == PrepareKey(old(db.conn), rec, e, now).error && Valid() && db.conn == old(db.conn)
      ensures p.Ok? ==> PrepareKey(old(db.conn), rec, e, now).value == Prepared(db.conn, db.committed, p.value)
    {
      if rec.shortKey.Some? {
        return Ok(rec);
      }
      var m := keys.GenerateShortKey(e, now);
      if m.Err? {
        db.Rollback();
        return Err(DatabaseError(STORE_FAILED + m.error.Message()));
      }
      return Ok(Attach(rec, m.value, now));
    }

    /** The INSERT of `store_file_record` and what follows: two commits on
        success, a rollback and the classified error otherwise, or the record
        to retry with. When `done` is false, `r` is a placeholder that the
        caller does not read; only `next` matters. */
    method InsertPass(rec: FileRecord, now: Time) returns (done: bool, r: Result<nat, DbError>, next: FileRecord)
      requires db.Valid() && db.conn.created && db.committed.created && keys.db == db
      modifies db
      ensures Valid()
      ensures var a := AfterInsert(old(db.conn), old(db.committed), rec, now);
              && (done <==> a.Done?)
              && (done ==> r == a.stored.result && next == a.stored.record && db.conn == a.stored.tables)
              && (!done ==> next == a.next && db.conn == a.base)
    {
      next := rec;
      var ins := InsertRecord(db.conn, rec, now);
      if ins.Ok? {
        var id := ins.value.1;
        db.conn := ins.value.0;
        db.Commit();
        db.conn := InsertLog(db.conn, id, "upload", UploadDetails(rec), now);
        db.Commit();
        return true, Ok(id), rec;
      }
      db.Rollback();
      match Classify(ins.error)
      case UuidConflict =>
        return true, Err(DuplicateFileError(FILE_EXISTS + rec.uuidKey)), rec;
      case HashConflict =>
        return true, Err(DuplicateFileError(HASH_EXISTS + rec.sha512Hash)), rec;
      case ShortKeyConflict =>
        if rec.retryCount >= 3 {
          return true, Err(DatabaseError(RetriesExhausted(rec))), rec;
        }
        return false, Err(DatabaseError("")), rec.(shortKey := None, retryCount := rec.retryCount + 1);
      case OtherIntegrity =>
        return true, Err(DatabaseError(INTEGRITY_FAILED + ins.error)), rec;
    }

    /** `store_file_record`, its recursive retry as a loop: the record object
        comes back with the fields the call set on it. */
    method StoreFileRecord(record: FileRecord, draws: nat -> Entropy, now: Time)
      returns (r: Result<nat, DbError>, rec: FileRecord)
      requires Valid()
      modifies db
      ensures Valid()
      ensures var s := StoreSpec(old(db.conn), record, draws, now);
              r == s.result && rec == s.record && db.conn == s.tables
    {
      ghost var t0 := db.conn;
      rec := record;
      while true
        invariant Valid()
        invariant StoreSpec(t0, record, draws, now) == StoreSpec(db.conn, rec, draws, now)
        decreases RetriesLeft(rec)
      {
        var done, res, next := StorePass(rec, draws, now);
        rec := next;
        if done {
          r := res;
          return;
        }
      }
    }

    /** One pass of `store_file_record`: finished, or the record to call it
        again with. */
    method StorePass(rec: FileRecord, draws: nat -> Entropy, now: Time)
      returns (done: bool, r: Result<nat, DbError>, next: FileRecord)
      requires Valid()
      modifies db
      ensures Valid()
      ensures done ==> StoreSpec(old(db.conn), rec, draws, now) == Stored(r, next, db.conn)
      ensures !done ==> StoreSpec(old(db.conn), rec, draws, now) == StoreSpec(db.conn, next, draws, now)
      ensures !done ==> RetriesLeft(next) < RetriesLeft(rec)
    {
      StoreSpecUnfold(db.conn, rec, draws, now);
      var p := PrepareRecordKey(rec, draws(rec.retryCount), now);
      if p.Err? {
        return true, Err(p.error), rec;
      }
      done, r, next := InsertPass(p.value, now);
    }

    /** `get_file_by_uuid`. */
    method GetFileByUuid(uuid: string, now: Time) returns (r: Option<FileRecord>)
      requires Valid()
      ensures r == Lookup(db.conn, UuidColumn, uuid, now)
    {
      r := Lookup(db.conn, UuidColumn, uuid, now);
    }

    /** `check_duplicate_by_hash`. */
    method CheckDuplicateByHash(hash: string, now: Time) returns (r: Option<FileRecord>)
      requires Valid()
      ensures r == Lookup(db.conn, HashColumn, hash, now)
    {
      r := Lookup(db.conn, HashColumn, hash, now);
    }

    /** `check_short_key_exists`: an active row holds the key. */
    method CheckShortKeyExists(key: string) returns (b: bool)
      requires Valid()
      ensures b <==> exists i :: 0 <= i < |db.conn.records| && ActiveMatch(db.conn.records[i], ShortKeyColumn, key)
    {
      b := FindActive(db.conn.records, ShortKeyColumn, key).Some?;
    }

    /** `get_file_by_short_key`: the row as read, then the 'access' log and a
        commit. */
    method GetFileByShortKey(key: string, now: Time) returns (r: Option<FileRecord>)
      requires Valid()
      modifies db
      ensures Valid()
      ensures r == Lookup(old(db.conn), ShortKeyColumn, key, now)
      ensures db.conn == AccessSpec(old(db.conn), key, now)
    {
      match FindActive(db.conn.records, ShortKeyColumn, key)
      case None =>
        r := None;
      case Some(i) =>
        var row := db.conn.records[i];
        db.conn := InsertLog(db.conn, row.id.value, "access", AccessDetails(key), now);
        db.Commit();
        r := Some(RowToRecord(row, now));
    }

    /** `update_file_record_upload_info`: True, with a commit, when a row was
        updated. */
    method UpdateFileRecordUploadInfo(hash: string, key: string, url: string, now: Time) returns (ok: bool)
      requires Valid()
      modifies db
      ensures Valid()
      ensures ok <==> FindActive(old(db.conn).records, HashColumn, hash).Some?
      ensures db.conn == UpdateUploadInfo(old(db.conn), hash, key, url, now).0
      ensures !ok ==> db.conn == old(db.conn)
    {
      var (t, n) := UpdateUploadInfo(db.conn, hash, key, url, now);
      UploadInfoUpdatesOne(db.conn, hash, key, url, now);
      db.conn := t;
      if n > 0 {
        db.Commit();
        return true;
      }
      return false;
    }

    /** `get_statistics`. */
    method GetStatistics() returns (st: DbStatistics)
      requires Valid()
      ensures st.totalFiles == ActiveCount(db.conn.records)
      ensures st.filesWithShortKeys == ActiveKeyedCount(db.conn.records)
      ensures st.totalSizeBytes == ActiveSize(db.conn.records)
      ensures st.uniqueExtensions == |ActiveExtensions(db.conn.records)|
      ensures st.shortKeyStatistics.usedShortKeysCount == CountKeyed(db.conn.records)
      ensures st.shortKeyStatistics.reservedKeysCount == |db.conn.reserved|
      ensures |st.shortKeyStatistics.sequences| == |db.conn.sequences|
      ensures forall i :: 0 <= i < |st.shortKeyStatistics.sequences| ==>
                st.shortKeyStatistics.sequences[i]
                == SequenceStat(db.conn.sequences[i].keyLength, db.conn.sequences[i].currentSequence,
                                db.conn.sequences[i].maxPossible, db.conn.sequences[i].exhausted)
      ensures st.shortKeyStatistics.charsetSize == 62 && st.shortKeyStatistics.charset == CHARSET
    {
      var rows := db.conn.records;
      var ks := keys.GetStatistics();
      st := DbStatistics(ActiveCount(rows), ActiveKeyedCount(rows), ActiveSize(rows),
                         |ActiveExtensions(rows)|, ks);
    }
  }
}
