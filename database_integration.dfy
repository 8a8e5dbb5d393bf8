/** `DatabaseIntegration`: the upload pipeline's view of the registry. With
    short keys switched off there is no registry and every call is a guard that
    answers None, -1 or False; otherwise the calls forward to the registry. The
    digest, `stat` and `mimetypes` answers are the caller's parameters. */
module DatabaseIntegration {
  import opened Wrappers
  import opened Models
  import opened Schema
  import opened Store
  import opened ShortKeyGenerator
  import opened DatabaseManager
  import opened Paths
  import opened Text
  import opened HashUtils

  /** The settings the integration reads: `enable_short_keys` (not a field of
      `Config`, so a parameter here) and `hash_algorithm`. */
  datatype Settings = Settings(enableShortKeys: bool, hashAlgorithm: string)

  /** What `stat()` and `mimetypes.guess_type` report for the file. */
  datatype FileFacts = FileFacts(size: int, mimeType: Option<string>)

  const DEFAULT_MIME := "application/octet-stream"
  const HASH_FAILED := "無法計算檔案雜湊: "

  /** `if not sha512_hash`: no digest, or an empty one. */
  predicate NoDigest(digest: Option<string>) {
    digest.None? || digest.value == ""
  }

  /** `mime_type or "application/octet-stream"`. */
  function MimeOrDefault(m: Option<string>): (r: string)
    ensures r != ""
    ensures m.Some? && m.value != "" ==> r == m.value
  {
    if m.Some? && m.value != "" then m.value else DEFAULT_MIME
  }

  /** `create_file_record_from_path`: the record for a file, or the text of the
      `ValueError` raised when the digest is missing. */
  function RecordFromPath(p: Path, key: string, url: string, digest: Option<string>,
                          facts: FileFacts, algorithm: string, now: Time): (r: Result<FileRecord, string>)
    ensures r.Err? <==> NoDigest(digest)
    ensures r.Err? ==> r.error == HASH_FAILED + Str(p)
    ensures r.Ok? ==>
              && r.value.uuidKey == HashToUuid(digest.value)
              && r.value.sha512Hash == digest.value
              && r.value.fileExtension == Lower(Suffix(p))
              && r.value.originalFilename == Name(p)
              && r.value.mimeType == MimeOrDefault(facts.mimeType)
              && r.value.shortKey.None? && r.value.id.None?
              && r.value.status == "active" && r.value.accessCount == 0
              && r.value.uploadTimestamp == Some(now) && r.value.retryCount == 0
  {
    if NoDigest(digest) then Err(HASH_FAILED + Str(p))
    else
      var h := digest.value;
      Ok(PostInitRecord(BlankRecord.(
        uuidKey := HashToUuid(h),
        originalFilename := Name(p),
        fileExtension := Lower(Suffix(p)),
        fileSize := facts.size,
        mimeType := MimeOrDefault(facts.mimeType),
        sha512Hash := h,
        hashAlgorithm := algorithm,
        r2ObjectKey := key,
        uploadUrl := url,
        uploadTimestamp := Some(now)), now))
  }

  /** The record's identifier and extension are exactly the content-based file
      name the uploader would use for the same digest. */
  lemma RecordAgreesWithContentName(p: Path, key: string, url: string, digest: Option<string>,
                                    facts: FileFacts, algorithm: string, now: Time)
    requires !NoDigest(digest)
    ensures var r := RecordFromPath(p, key, url, digest, facts, algorithm, now).value;
            ContentBasedFilename(p, digest) == Some(r.uuidKey + r.fileExtension)
  {
  }

  /** Two files with the same digest get the same record identity, whatever
      their names, sizes or times. */
  lemma SameDigestSameIdentity(p1: Path, p2: Path, k1: string, k2: string, u1: string, u2: string,
                               digest: Option<string>, f1: FileFacts, f2: FileFacts,
                               a1: string, a2: string, n1: Time, n2: Time)
    requires !NoDigest(digest)
    ensures var r1 := RecordFromPath(p1, k1, u1, digest, f1, a1, n1).value;
            var r2 := RecordFromPath(p2, k2, u2, digest, f2, a2, n2).value;
            r1.uuidKey == r2.uuidKey && r1.sha512Hash == r2.sha512Hash
  {
  }

  /** Storing a built record whose digest some row already holds fails: with
      the allocator's error, or with the duplicate-hash error. */
  lemma RebuiltFileIsDuplicate(t: Tables, p: Path, key: string, url: string, digest: Option<string>,
                               facts: FileFacts, algorithm: string, draws: nat -> Entropy, now: Time)
    requires TablesValid(t) && t.created
    requires !NoDigest(digest) && HashTaken(t, digest.value)
    ensures var r := RecordFromPath(p, key, url, digest, facts, algorithm, now).value;
            var s := StoreSpec(t, r, draws, now);
            s.result.Err?
            && (s.result.error.DuplicateFileError? ==> s.result.error.msg == HASH_EXISTS + digest.value)
            && (!s.result.error.DuplicateFileError? ==> PrepareKey(t, r, draws(0), now).Err?)
  {
    var r := RecordFromPath(p, key, url, digest, facts, algorithm, now).value;
    StoreOutcome(t, r, draws, now);
    var pk := PrepareKey(t, r, draws(r.retryCount), now);
    if pk.Err? {
      assert pk.error.DatabaseError?;
    }
  }

  /** A `DatabaseIntegration`: the settings and, when short keys are on, the
      registry it opened. */
  class Integration {
    const settings: Settings
    const registry: Registry?

    ghost predicate Valid()
      reads this, registry, if registry != null then {registry.db} else {}
    {
      (registry != null <==> settings.enableShortKeys)
      && (registry != null ==> registry.Valid())
    }

    constructor (settings: Settings, registry: Registry?)
      requires registry != null <==> settings.enableShortKeys
      requires registry != null ==> registry.Valid()
      ensures Valid() && this.settings == settings && this.registry == registry
    {
      this.settings := settings;
      this.registry := registry;
    }

    /** `DatabaseIntegration(config)`: opening the registry's file may raise. */
    static method Open(settings: Settings, file: Tables, now: Time) returns (r: Result<Integration, DbError>)
      requires TablesValid(file)
      ensures r.Err? <==> settings.enableShortKeys && InitializeFile(file, now).Err?
      ensures r.Err? ==> r.error == InitializeFile(file, now).error
      ensures r.Ok? ==> fresh(r.value) && r.value.Valid() && r.value.settings == settings
      ensures r.Ok? && settings.enableShortKeys ==> r.value.registry.db.committed == InitializeFile(file, now).value
    {
      if !settings.enableShortKeys {
        var i := new Integration(settings, null);
        return Ok(i);
      }
      var o := Registry.Open(file, now);
      if o.Err? {
        return Err(o.error);
      }
      var i := new Integration(settings, o.value);
      return Ok(i);
    }

    /** `check_duplicate_file`, given the digest of the file. */
    method CheckDuplicateFile(digest: Option<string>, now: Time) returns (r: Option<FileRecord>)
      requires Valid()
      ensures registry == null || NoDigest(digest) ==> r.None?
      ensures registry != null && !NoDigest(digest) ==> r == Lookup(registry.db.conn, HashColumn, digest.value, now)
    {
      if registry == null {
        return None;
      }
      if NoDigest(digest) {
        return None;
      }
      r := registry.CheckDuplicateByHash(digest.value, now);
    }

    /** `store_file_record`: -1 without a registry, otherwise the registry's
        result, errors passed on unchanged. */
    method StoreFileRecord(record: FileRecord, draws: nat -> Entropy, now: Time)
      returns (r: Result<int, DbError>, rec: FileRecord)
      requires Valid()
      modifies if registry != null then {registry.db} else {}
      ensures Valid()
      ensures registry == null ==> r == Ok(-1) && rec == record
      ensures registry != null ==>
                var s := StoreSpec(old(registry.db.conn), record, draws, now);
                && (r.Ok? <==> s.result.Ok?)
                && (r.Ok? ==> r.value == s.result.value)
                && (r.Err? ==> r.error == s.result.error)
                && rec == s.record && registry.db.conn == s.tables
    {
      if registry == null {
        return Ok(-1), record;
      }
      var res;
      res, rec := registry.StoreFileRecord(record, draws, now);
      if res.Ok? {
        r := Ok(res.value);
      } else {
        r := Err(res.error);
      }
    }

    /** `update_file_record_upload_info`: False without a registry. */
    method UpdateFileRecordUploadInfo(hash: string, key: string, url: string, now: Time) returns (ok: bool)
      requires Valid()
      modifies if registry != null then {registry.db} else {}
      ensures Valid()
      ensures registry == null ==> !ok
      ensures registry != null ==>
                && (ok <==> FindActive(old(registry.db.conn).records, HashColumn, hash).Some?)
                && registry.db.conn == UpdateUploadInfo(old(registry.db.conn), hash, key, url, now).0
    {
      if registry == null {
        return false;
      }
      ok := registry.UpdateFileRecordUploadInfo(hash, key, url, now);
    }

    /** `get_file_by_short_key`: None without a registry. */
    method GetFileByShortKey(key: string, now: Time) returns (r: Option<FileRecord>)
      requires Valid()
      modifies if registry != null then {registry.db} else {}
      ensures Valid()
      ensures registry == null ==> r.None?
      ensures registry != null ==>
                && r == Lookup(old(registry.db.conn), ShortKeyColumn, key, now)
                && registry.db.conn == AccessSpec(old(registry.db.conn), key, now)
    {
      if registry == null {
        return None;
      }
      r := registry.GetFileByShortKey(key, now);
    }

    /** `get_file_by_uuid`: None without a registry. */
    method GetFileByUuid(uuid: string, now: Time) returns (r: Option<FileRecord>)
      requires Valid()
      ensures registry == null ==> r.None?
      ensures registry != null ==> r == Lookup(registry.db.conn, UuidColumn, uuid, now)
    {
      if registry == null {
        return None;
      }
      r := registry.GetFileByUuid(uuid, now);
    }

    /** `get_statistics`: None without a registry. */
    method GetStatistics() returns (r: Option<DbStatistics>)
      requires Valid()
      ensures r.None? <==> registry == null
      ensures r.Some? ==> r.value.totalFiles == ActiveCount(registry.db.conn.records)
      ensures r.Some? ==> r.value.filesWithShortKeys == ActiveKeyedCount(registry.db.conn.records)
      ensures r.Some? ==> r.value.totalSizeBytes == ActiveSize(registry.db.conn.records)
      ensures r.Some? ==> r.value.uniqueExtensions == |ActiveExtensions(registry.db.conn.records)|
      ensures r.Some? ==> r.value.shortKeyStatistics.usedShortKeysCount == CountKeyed(registry.db.conn.records)
      ensures r.Some? ==> r.value.shortKeyStatistics.reservedKeysCount == |registry.db.conn.reserved|
      ensures r.Some? ==> |r.value.shortKeyStatistics.sequences| == |registry.db.conn.sequences|
      ensures r.Some? ==> forall i :: 0 <= i < |r.value.shortKeyStatistics.sequences| ==>
                r.value.shortKeyStatistics.sequences[i]
                == SequenceStat(registry.db.conn.sequences[i].keyLength, registry.db.conn.sequences[i].currentSequence,
                                registry.db.conn.sequences[i].maxPossible, registry.db.conn.sequences[i].exhausted)
      ensures r.Some? ==> r.value.shortKeyStatistics.charsetSize == 62
                          && r.value.shortKeyStatistics.charset == CHARSET
    {
      if registry == null {
        return None;
      }
      var st := registry.GetStatistics();
      return Some(st);
    }
  }

  /** `create_database_integration`: None exactly when short keys are off. */
  method CreateDatabaseIntegration(settings: Settings, file: Tables, now: Time)
    returns (r: Result<Option<Integration>, DbError>)
    requires TablesValid(file)
    ensures r.Ok? && r.value.None? <==> !settings.enableShortKeys
    ensures r.Err? <==> settings.enableShortKeys && InitializeFile(file, now).Err?
    ensures r.Ok? && r.value.Some? ==> r.value.value.Valid() && r.value.value.registry != null
  {
    if !settings.enableShortKeys {
      return Ok(None);
    }
    var o := Integration.Open(settings, file, now);
    if o.Err? {
      return Err(o.error);
    }
    return Ok(Some(o.value));
  }
}
