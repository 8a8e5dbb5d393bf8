/** The database file and the thread's connection to it, and the statements the
    registry executes, each as a function from the tables before to the tables
    after (with the triggers it sets off folded in). */
module Store {
  import opened Wrappers
  import opened Models
  import opened Schema

  // ---------------------------------------------------------------- queries

  /** `SELECT 1 FROM file_records WHERE short_key = ?`, whatever the status. */
  predicate KeyUsed(t: Tables, key: string) {
    exists i | 0 <= i < |t.records| :: t.records[i].shortKey == Some(key)
  }

  /** `SELECT 1 FROM reserved_short_keys WHERE short_key = ?`. */
  predicate KeyReserved(t: Tables, key: string) {
    exists i | 0 <= i < |t.reserved| :: t.reserved[i].shortKey == key
  }

  /** `SELECT MAX(key_length) FROM short_key_sequences`; None for an empty table. */
  function MaxKeyLength(t: Tables): (m: Option<int>)
    requires SequencesOrdered(t.sequences)
    ensures m.None? <==> t.sequences == []
    ensures m.Some? ==> forall i :: 0 <= i < |t.sequences| ==> t.sequences[i].keyLength <= m.value
    ensures m.Some? ==> exists i :: 0 <= i < |t.sequences| && t.sequences[i].keyLength == m.value
  {
    if t.sequences == [] then None
    else
      var last := |t.sequences| - 1;
      assert HasRow(t, t.sequences[last].keyLength);
      Some(t.sequences[last].keyLength)
  }

  /** The position of the row for length `len`, if there is one. */
  function RowIndex(rows: seq<ShortKeySequence>, len: int): (r: Option<nat>)
    ensures r.Some? ==> r.value < |rows| && rows[r.value].keyLength == len
    ensures r.None? ==> forall i :: 0 <= i < |rows| ==> rows[i].keyLength != len
  {
    if rows == [] then None
    else if rows[|rows| - 1].keyLength == len then Some(|rows| - 1)
    else RowIndex(rows[..|rows| - 1], len)
  }

  predicate HasRow(t: Tables, len: int) {
    exists i | 0 <= i < |t.sequences| :: t.sequences[i].keyLength == len
  }

  /** The tables differ at most in `short_key_sequences` and its counter. */
  predicate OnlySequencesChanged(t: Tables, r: Tables) {
    r == t.(sequences := r.sequences, sequenceSeq := r.sequenceSeq)
  }

  // ---------------------------------------------------------------- sequence rows

  /** Applies `f` to the row of length `len` (there is at most one) and then the
      update triggers; every other row is left as it is. */
  function UpdateRows(rows: seq<ShortKeySequence>, len: int, now: Time, bump: bool): (r: seq<ShortKeySequence>)
    ensures |r| == |rows|
    ensures forall i :: 0 <= i < |rows| ==> r[i].keyLength == rows[i].keyLength
    ensures forall i :: 0 <= i < |rows| && rows[i].keyLength != len ==> r[i] == rows[i]
    ensures forall i :: 0 <= i < |rows| && rows[i].keyLength == len ==>
              r[i] == SequenceUpdated(
                        if bump then rows[i].(currentSequence := rows[i].currentSequence + 1)
                        else rows[i].(exhausted := true), now)
  {
    seq(|rows|, i requires 0 <= i < |rows| =>
      if rows[i].keyLength != len then rows[i]
      else SequenceUpdated(
             if bump then rows[i].(currentSequence := rows[i].currentSequence + 1)
             else rows[i].(exhausted := true), now))
  }

  /** `UPDATE short_key_sequences SET exhausted = TRUE WHERE key_length = ?`. */
  function MarkExhausted(t: Tables, len: int, now: Time): (r: Tables)
    ensures r == t.(sequences := UpdateRows(t.sequences, len, now, false))
    ensures TablesValid(t) ==> TablesValid(r)
    ensures forall n :: HasRow(t, n) ==> HasRow(r, n)
  {
    t.(sequences := UpdateRows(t.sequences, len, now, false))
  }

  /** `UPDATE short_key_sequences SET current_sequence = current_sequence + 1 WHERE key_length = ?`. */
  function IncrementSequence(t: Tables, len: int, now: Time): (r: Tables)
    ensures r == t.(sequences := UpdateRows(t.sequences, len, now, true))
    ensures TablesValid(t) ==> TablesValid(r)
    ensures forall n :: HasRow(t, n) ==> HasRow(r, n)
  {
    t.(sequences := UpdateRows(t.sequences, len, now, true))
  }

  /** Inserts `row` at its place in ascending `key_length` order. */
  function InsertSorted(rows: seq<ShortKeySequence>, row: ShortKeySequence): (r: seq<ShortKeySequence>)
    requires SequencesOrdered(rows)
    requires forall i :: 0 <= i < |rows| ==> rows[i].keyLength != row.keyLength
    ensures SequencesOrdered(r)
    ensures |r| == |rows| + 1
    ensures forall x :: x in r <==> x in rows || x == row
  {
    if rows == [] then [row]
    else if row.keyLength < rows[0].keyLength then [row] + rows
    else
      var rest := InsertSorted(rows[1..], row);
      assert forall x :: x in rows <==> x == rows[0] || x in rows[1..];
      assert forall x :: x in rest ==> x.keyLength > rows[0].keyLength;
      var r := [rows[0]] + rest;
      assert forall j :: 1 <= j < |r| ==> r[j] == rest[j - 1] && r[j] in rest;
      r
  }

  /** `INSERT OR IGNORE INTO short_key_sequences (key_length, current_sequence, max_possible)
      VALUES (?, 0, ?)`: a new row when the length is absent, nothing otherwise. */
  function InsertOrIgnoreSequence(t: Tables, len: int, maxPossible: int, now: Time): (r: Tables)
    requires SequencesOrdered(t.sequences)
    ensures SequencesOrdered(r.sequences)
    ensures TablesValid(t) && t.created && len >= 1 ==> TablesValid(r)
    ensures HasRow(t, len) ==> r == t
    ensures !HasRow(t, len) ==>
              && |r.sequences| == |t.sequences| + 1
              && (forall x :: x in r.sequences <==>
                    (x in t.sequences ||
                     x == ShortKeySequence(Some(t.sequenceSeq + 1), len, 0, maxPossible, false, Some(now), Some(now))))
              && r == t.(sequences := r.sequences, sequenceSeq := t.sequenceSeq + 1)
  {
    if HasRow(t, len) then t
    else
      var row := ShortKeySequence(Some(t.sequenceSeq + 1), len, 0, maxPossible, false, Some(now), Some(now));
      var rows := InsertSorted(t.sequences, row);
      assert forall i :: 0 <= i < |rows| ==> rows[i] in rows;
      assert forall x :: x in t.sequences ==> x.keyLength >= 1 || !LengthsPositive(t.sequences);
      t.(sequences := rows, sequenceSeq := t.sequenceSeq + 1)
  }

  /** SQLite's INTEGER is a signed 64-bit value; the sqlite3 module refuses to
      bind a Python int outside it, before the statement runs. */
  const INTEGER_MAX: int := 0x7FFF_FFFF_FFFF_FFFF
  const BIND_OVERFLOW := "Python int too large to convert to SQLite INTEGER"

  predicate Bindable(v: int) {
    -INTEGER_MAX - 1 <= v <= INTEGER_MAX
  }

  /** `cursor.execute` of the INSERT OR IGNORE with `(length, max_possible)`:
      the parameters are bound first, so a value SQLite cannot hold raises
      `OverflowError` whether or not the length is present; otherwise the
      statement has the effect of `InsertOrIgnoreSequence`. */
  function ExecuteInsertSequence(t: Tables, len: int, maxPossible: int, now: Time): (r: Result<Tables, DbError>)
    requires SequencesOrdered(t.sequences)
    ensures r.Err? <==> !Bindable(len) || !Bindable(maxPossible)
    ensures r.Err? ==> r.error == OverflowError(BIND_OVERFLOW)
    ensures r.Ok? ==> r.value == InsertOrIgnoreSequence(t, len, maxPossible, now)
  {
    if Bindable(len) && Bindable(maxPossible) then Ok(InsertOrIgnoreSequence(t, len, maxPossible, now))
    else Err(OverflowError(BIND_OVERFLOW))
  }

  // ---------------------------------------------------------------- file records

  /** What a JSON column holds: `json.dumps(v) if v else None`, read back with `json.loads`. */
  function StoredMetadata(m: Option<map<string, string>>): (r: Option<map<string, string>>)
    ensures r.Some? <==> m.Some? && m.value != map[]
    ensures r.Some? ==> r == m
  {
    if m.Some? && m.value != map[] then m else None
  }

  function StoredTags(m: Option<seq<string>>): (r: Option<seq<string>>)
    ensures r.Some? <==> m.Some? && m.value != []
    ensures r.Some? ==> r == m
  {
    if m.Some? && m.value != [] then m else None
  }

  /** The row the INSERT of `store_file_record` writes: the listed columns come
      from the record, `id` from AUTOINCREMENT, and the columns it leaves out take
      their defaults (`access_count` 0, no last access, both timestamps now). */
  function StoredRow(r: FileRecord, id: nat, now: Time): (row: FileRecord)
    ensures row.id == Some(id) && row.accessCount == 0 && row.lastAccessedAt.None?
    ensures row.createdAt == Some(now) && row.updatedAt == Some(now) && row.retryCount == 0
    ensures row.uuidKey == r.uuidKey && row.shortKey == r.shortKey && row.sha512Hash == r.sha512Hash
    ensures row.status == r.status && row.uploadTimestamp == r.uploadTimestamp
  {
    r.(id := Some(id), accessCount := 0, lastAccessedAt := None, createdAt := Some(now),
       updatedAt := Some(now), metadata := StoredMetadata(r.metadata), tags := StoredTags(r.tags),
       retryCount := 0)
  }

  predicate HashTaken(t: Tables, h: string) {
    exists i | 0 <= i < |t.records| :: t.records[i].sha512Hash == h
  }

  predicate UuidTaken(t: Tables, u: string) {
    exists i | 0 <= i < |t.records| :: t.records[i].uuidKey == u
  }

  /** SQLite's integrity messages: the kind of constraint, then `table.column`. */
  const CONSTRAINT_FAILED := " constraint failed: "
  const RECORDS_TABLE := "file_records."
  const NOT_NULL_UPLOAD_TIMESTAMP := "NOT NULL" + CONSTRAINT_FAILED + RECORDS_TABLE + "upload_timestamp"
  const UNIQUE_SHA512_HASH := "UNIQUE" + CONSTRAINT_FAILED + RECORDS_TABLE + "sha512_hash"
  const UNIQUE_SHORT_KEY := "UNIQUE" + CONSTRAINT_FAILED + RECORDS_TABLE + "short_key"
  const UNIQUE_UUID_KEY := "UNIQUE" + CONSTRAINT_FAILED + RECORDS_TABLE + "uuid_key"

  /** The `IntegrityError` message of the INSERT, or None when it succeeds. SQLite
      checks NOT NULL first and then the UNIQUE indexes, the last declared first;
      only `upload_timestamp` can be NULL among the NOT NULL columns. */
  function InsertViolation(t: Tables, r: FileRecord): (v: Option<string>)
    ensures v.None? <==>
              r.uploadTimestamp.Some? && !HashTaken(t, r.sha512Hash)
              && !(r.shortKey.Some? && KeyUsed(t, r.shortKey.value)) && !UuidTaken(t, r.uuidKey)
  {
    if r.uploadTimestamp.None? then Some(NOT_NULL_UPLOAD_TIMESTAMP)
    else if HashTaken(t, r.sha512Hash) then Some(UNIQUE_SHA512_HASH)
    else if r.shortKey.Some? && KeyUsed(t, r.shortKey.value) then Some(UNIQUE_SHORT_KEY)
    else if UuidTaken(t, r.uuidKey) then Some(UNIQUE_UUID_KEY)
    else None
  }

  /** The INSERT of `store_file_record`: the new id, or the integrity error. */
  function InsertRecord(t: Tables, r: FileRecord, now: Time): (res: Result<(Tables, nat), string>)
    ensures res.Err? <==> InsertViolation(t, r).Some?
    ensures res.Err? ==> res.error == InsertViolation(t, r).value
    ensures res.Ok? ==>
              && res.value.1 == t.recordSeq + 1
              && res.value.0 == t.(records := t.records + [StoredRow(r, t.recordSeq + 1, now)],
                                   recordSeq := t.recordSeq + 1)
    ensures res.Ok? && RecordsUnique(t.records, t.recordSeq) ==> RecordsUnique(res.value.0.records, res.value.0.recordSeq)
  {
    match InsertViolation(t, r)
    case Some(msg) => Err(msg)
    case None =>
      var id := t.recordSeq + 1;
      var t' := t.(records := t.records + [StoredRow(r, id, now)], recordSeq := id);
      assert forall i :: 0 <= i < |t.records| ==> t.records[i].sha512Hash != r.sha512Hash;
      assert forall i :: 0 <= i < |t.records| ==> t.records[i].uuidKey != r.uuidKey;
      assert forall i :: 0 <= i < |t.records| && t.records[i].shortKey.Some? ==> t.records[i].shortKey != r.shortKey;
      Ok((t', id))
  }

  /** `INSERT INTO file_operation_logs (...)` and the access-count trigger. */
  function InsertLog(t: Tables, fileId: nat, op: string, details: seq<(string, Json)>, now: Time): (r: Tables)
    ensures |r.records| == |t.records| && r.logSeq == t.logSeq + 1
    ensures r.logs == t.logs + [FileOperationLog(Some(t.logSeq + 1), fileId, op,
                                  if details == [] then None else Some(details), None, None, Some(now))]
    ensures forall i :: 0 <= i < |t.records| ==> r.records[i] == AfterLogInsert(t.records[i], r.logs[|t.logs|], now)
    ensures r.sequences == t.sequences && r.reserved == t.reserved && r.versions == t.versions
    ensures r.recordSeq == t.recordSeq && r.created == t.created && r.sequenceSeq == t.sequenceSeq
    ensures r.reservedSeq == t.reservedSeq
    ensures TablesValid(t) && t.created ==> TablesValid(r)
  {
    var log := FileOperationLog(Some(t.logSeq + 1), fileId, op,
                                if details == [] then None else Some(details), None, None, Some(now));
    var rs := seq(|t.records|, i requires 0 <= i < |t.records| => AfterLogInsert(t.records[i], log, now));
    assert forall i :: 0 <= i < |t.records| ==> SameKeys(rs[i], t.records[i]);
    assert RecordsUnique(t.records, t.recordSeq) ==> RecordsUnique(rs, t.recordSeq);
    t.(records := rs, logs := t.logs + [log], logSeq := t.logSeq + 1)
  }

  /** The columns the uniqueness constraints look at are the same. */
  predicate SameKeys(a: FileRecord, b: FileRecord) {
    a.id == b.id && a.uuidKey == b.uuidKey && a.sha512Hash == b.sha512Hash && a.shortKey == b.shortKey
  }

  /** `UPDATE file_records SET r2_object_key = ?, upload_url = ?, updated_at = ?
      WHERE sha512_hash = ? AND status = 'active'`, with its row count. */
  function UpdateUploadInfo(t: Tables, hash: string, key: string, url: string, now: Time): (r: (Tables, nat))
    ensures |r.0.records| == |t.records|
    ensures r.1 == |set i | 0 <= i < |t.records| && t.records[i].sha512Hash == hash && t.records[i].status == "active"|
    ensures forall i :: 0 <= i < |t.records| ==>
              r.0.records[i] == if t.records[i].sha512Hash == hash && t.records[i].status == "active"
                                then t.records[i].(r2ObjectKey := key, uploadUrl := url, updatedAt := Some(now))
                                else t.records[i]
    ensures r.0 == t.(records := r.0.records)
    ensures TablesValid(t) ==> TablesValid(r.0)
  {
    var rs := seq(|t.records|, i requires 0 <= i < |t.records| =>
      if t.records[i].sha512Hash == hash && t.records[i].status == "active"
      then RecordUpdated(t.records[i].(r2ObjectKey := key, uploadUrl := url), now)
      else t.records[i]);
    (t.(records := rs), |set i | 0 <= i < |t.records| && t.records[i].sha512Hash == hash && t.records[i].status == "active"|)
  }

  // ---------------------------------------------------------------- base data

  /** `INSERT OR IGNORE INTO reserved_short_keys (short_key, reason) VALUES (?, ?)`. */
  function InsertOrIgnoreReserved(t: Tables, key: string, reason: string, now: Time): (r: Tables)
    ensures KeyReserved(t, key) ==> r == t
    ensures !KeyReserved(t, key) ==>
              r == t.(reserved := t.reserved + [ReservedShortKey(Some(t.reservedSeq + 1), key, reason, Some(now))],
                      reservedSeq := t.reservedSeq + 1)
    ensures ReservedUnique(t.reserved) ==> ReservedUnique(r.reserved)
    ensures KeyReserved(r, key)
    ensures forall k :: KeyReserved(t, k) ==> KeyReserved(r, k)
  {
    if KeyReserved(t, key) then t
    else
      var r := t.(reserved := t.reserved + [ReservedShortKey(Some(t.reservedSeq + 1), key, reason, Some(now))],
                  reservedSeq := t.reservedSeq + 1);
      assert r.reserved[|t.reserved|].shortKey == key;
      assert forall i :: 0 <= i < |t.reserved| ==> t.reserved[i].shortKey != key && r.reserved[i] == t.reserved[i];
      r
  }

  /** The thread's connection to the database file. `committed` is what the file
      holds; `conn` is what the connection sees, its open transaction included. */
  class Database {
    var committed: Tables
    var conn: Tables

    ghost predicate Valid()
      reads this
    {
      TablesValid(committed) && TablesValid(conn)
    }

    constructor (file: Tables)
      requires TablesValid(file)
      ensures Valid() && committed == file && conn == file
    {
      committed := file;
      conn := file;
    }

    /** `conn.commit()`. */
    method Commit()
      requires Valid()
      modifies this
      ensures Valid() && committed == old(conn) && conn == old(conn)
    {
      committed := conn;
    }

    /** `conn.rollback()`: the open transaction is discarded. */
    method Rollback()
      requires Valid()
      modifies this
      ensures Valid() && conn == old(committed) && committed == old(committed)
    {
      conn := committed;
    }
  }
}
