/** The registry's schema: the supported version, the reserved words, the five
    tables as in-memory collections, the constraints the table definitions
    declare, and the triggers as functions on a row. */
module Schema {
  import opened Wrappers
  import opened Models

  /** The schema version this program supports. */
  const SCHEMA_VERSION: int := 1

  /** The words seeded into `reserved_short_keys`, with their reasons. */
  const RESERVED_KEYS: seq<(string, string)> := [
    ("api", "API端點保留"),
    ("admin", "管理界面保留"),
    ("www", "網站根目錄保留"),
    ("help", "幫助頁面保留"),
    ("test", "測試用途保留"),
    ("null", "空值保留"),
    ("temp", "臨時檔案保留"),
    ("data", "數據目錄保留"),
    ("file", "檔案關鍵字保留"),
    ("user", "用戶關鍵字保留"),
    ("root", "根目錄保留"),
    ("sys", "系統關鍵字保留"),
    ("app", "應用關鍵字保留"),
    ("web", "網頁關鍵字保留"),
    ("img", "圖片關鍵字保留"),
    ("pic", "圖片關鍵字保留"),
    ("404", "錯誤頁面保留"),
    ("500", "錯誤頁面保留"),
    ("403", "錯誤頁面保留"),
    ("401", "錯誤頁面保留")
  ]

  function ReservedWords(): (ws: seq<string>)
    ensures |ws| == |RESERVED_KEYS|
    ensures forall i :: 0 <= i < |ws| ==> ws[i] == RESERVED_KEYS[i].0
  {
    seq(|RESERVED_KEYS|, i requires 0 <= i < |RESERVED_KEYS| => RESERVED_KEYS[i].0)
  }

  /** Twenty distinct words, eight of them of the first minted length, 4. */
  lemma ReservedKeysDistinct()
    ensures |RESERVED_KEYS| == 20
    ensures forall i, j :: 0 <= i < j < |RESERVED_KEYS| ==> RESERVED_KEYS[i].0 != RESERVED_KEYS[j].0
    ensures forall w :: w in ["help", "test", "null", "temp", "data", "file", "user", "root"] ==>
              w in ReservedWords() && |w| == 4
  {
    var ws := ReservedWords();
    assert ws == ["api", "admin", "www", "help", "test", "null", "temp", "data", "file", "user",
                  "root", "sys", "app", "web", "img", "pic", "404", "500", "403", "401"];
  }

  /** A row of `schema_version`. */
  datatype VersionRow = VersionRow(version: int, appliedAt: Time)

  /** The contents of the database file. `created` says whether the tables have
      been created in it; the four counters are the AUTOINCREMENT high-water
      marks. `sequences` lists the rows of `short_key_sequences` in ascending
      `key_length`, the order every query of that table asks for; the other
      tables are in insertion order. */
  datatype Tables = Tables(
    created: bool,
    records: seq<FileRecord>,
    sequences: seq<ShortKeySequence>,
    reserved: seq<ReservedShortKey>,
    logs: seq<FileOperationLog>,
    versions: seq<VersionRow>,
    recordSeq: nat,
    sequenceSeq: nat,
    reservedSeq: nat,
    logSeq: nat)

  /** A database file that does not exist yet. */
  const EmptyFile := Tables(false, [], [], [], [], [], 0, 0, 0, 0)

  // ---------------------------------------------------------------- constraints

  /** `key_length INTEGER NOT NULL UNIQUE`, together with the ascending order of the model's list. */
  predicate SequencesOrdered(rows: seq<ShortKeySequence>) {
    forall i, j :: 0 <= i < j < |rows| ==> rows[i].keyLength < rows[j].keyLength
  }

  /** `uuid_key UNIQUE`, `sha512_hash UNIQUE`, `short_key UNIQUE` (NULLs distinct)
      and the AUTOINCREMENT primary key. */
  predicate RecordsUnique(rows: seq<FileRecord>, high: nat) {
    && (forall i :: 0 <= i < |rows| ==> rows[i].id.Some? && rows[i].id.value <= high)
    && (forall i, j :: 0 <= i < j < |rows| ==>
          && rows[i].id != rows[j].id
          && rows[i].uuidKey != rows[j].uuidKey
          && rows[i].sha512Hash != rows[j].sha512Hash
          && (rows[i].shortKey.Some? ==> rows[i].shortKey != rows[j].shortKey))
  }

  /** `short_key TEXT NOT NULL UNIQUE` of `reserved_short_keys`. */
  predicate ReservedUnique(rows: seq<ReservedShortKey>) {
    forall i, j :: 0 <= i < j < |rows| ==> rows[i].shortKey != rows[j].shortKey
  }

  /** Every sequence row has a positive length: the seeded row is 4 and every
      row created later is one longer than the longest row. */
  predicate LengthsPositive(rows: seq<ShortKeySequence>) {
    forall i :: 0 <= i < |rows| ==> rows[i].keyLength >= 1
  }

  predicate TablesValid(t: Tables) {
    && SequencesOrdered(t.sequences)
    && LengthsPositive(t.sequences)
    && RecordsUnique(t.records, t.recordSeq)
    && ReservedUnique(t.reserved)
    && (!t.created ==> t == EmptyFile)
  }

  // ---------------------------------------------------------------- triggers

  /** `update_short_key_sequences_timestamp` and `check_sequence_exhaustion`,
      which fire after every update of a sequence row. */
  function SequenceUpdated(row: ShortKeySequence, now: Time): (r: ShortKeySequence)
    ensures r.keyLength == row.keyLength && r.currentSequence == row.currentSequence
    ensures r.maxPossible == row.maxPossible && r.id == row.id && r.createdAt == row.createdAt
    ensures r.exhausted <==> row.exhausted || row.currentSequence >= row.maxPossible
    ensures r.updatedAt == Some(now)
  {
    row.(exhausted := row.exhausted || row.currentSequence >= row.maxPossible, updatedAt := Some(now))
  }

  /** `update_access_count`, with the `updated_at` trigger it sets off: an
      'access' log entry counts one access on its record; any other log entry
      leaves the record alone. */
  function AfterLogInsert(rec: FileRecord, log: FileOperationLog, now: Time): (r: FileRecord)
    ensures log.operationType == "access" && rec.id == Some(log.fileRecordId) ==>
              r == rec.(accessCount := rec.accessCount + 1, lastAccessedAt := Some(now), updatedAt := Some(now))
    ensures !(log.operationType == "access" && rec.id == Some(log.fileRecordId)) ==>
              r == rec
  {
    if log.operationType == "access" && rec.id == Some(log.fileRecordId) then
      rec.(accessCount := rec.accessCount + 1, lastAccessedAt := Some(now), updatedAt := Some(now))
    else rec
  }

  /** `update_file_records_timestamp`, after every update of a record. */
  function RecordUpdated(rec: FileRecord, now: Time): (r: FileRecord)
    ensures r.updatedAt == Some(now) && r.(updatedAt := rec.updatedAt) == rec
  {
    rec.(updatedAt := Some(now))
  }
}
