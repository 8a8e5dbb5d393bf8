/** The four record types of the registry, with the defaults their dataclasses
    declare and the `__post_init__` step that fills missing timestamps. The same
    datatypes serve as the rows of the in-memory tables. */
module Models {
  import opened Wrappers

  /** A clock reading. Every operation reads the clock once and passes it in. */
  type Time = nat

  /** The JSON values the registry writes into `operation_details`. */
  datatype Json = JInt(i: int) | JStr(s: string) | JNull

  datatype FileRecord = FileRecord(
    id: Option<nat>,
    uuidKey: string,
    shortKey: Option<string>,
    originalFilename: string,
    fileExtension: string,
    fileSize: int,
    mimeType: string,
    sha512Hash: string,
    hashAlgorithm: string,
    r2ObjectKey: string,
    uploadUrl: string,
    uploadTimestamp: Option<Time>,
    shortKeyLength: Option<int>,
    shortKeyGenerationSalt: Option<string>,
    shortKeyCreatedAt: Option<Time>,
    status: string,
    accessCount: int,
    lastAccessedAt: Option<Time>,
    metadata: Option<map<string, string>>,
    tags: Option<seq<string>>,
    createdAt: Option<Time>,
    updatedAt: Option<Time>,
    /** The `_retry_count` attribute that the store attaches to the object it
        retries; 0 when absent. */
    retryCount: nat)

  /** Fills `v` with `now` when it is missing, as `__post_init__` does. */
  function FillTime(v: Option<Time>, now: Time): (r: Option<Time>)
    ensures r.Some?
    ensures v.Some? ==> r == v
    ensures v.None? ==> r == Some(now)
  {
    if v.None? then Some(now) else v
  }

  /** `FileRecord.__post_init__`. */
  function PostInitRecord(r: FileRecord, now: Time): (p: FileRecord)
    ensures p.uploadTimestamp == FillTime(r.uploadTimestamp, now)
    ensures p.createdAt == FillTime(r.createdAt, now)
    ensures p.updatedAt == FillTime(r.updatedAt, now)
    ensures p.(uploadTimestamp := r.uploadTimestamp, createdAt := r.createdAt, updatedAt := r.updatedAt) == r
  {
    r.(uploadTimestamp := FillTime(r.uploadTimestamp, now),
       createdAt := FillTime(r.createdAt, now),
       updatedAt := FillTime(r.updatedAt, now))
  }

  /** The field values `FileRecord()` starts from before `__post_init__`. */
  const BlankRecord := FileRecord(
    None, "", None, "", "", 0, "", "", "sha512", "", "", None,
    None, None, None, "active", 0, None, None, None, None, None, 0)

  /** `FileRecord()` constructed at time `now`. */
  function NewFileRecord(now: Time): (r: FileRecord)
    ensures r.id.None? && r.shortKey.None? && r.status == "active" && r.accessCount == 0
    ensures r.hashAlgorithm == "sha512" && r.r2ObjectKey == "" && r.uploadUrl == ""
    ensures r.uploadTimestamp == Some(now) && r.createdAt == Some(now) && r.updatedAt == Some(now)
    ensures r.retryCount == 0
  {
    PostInitRecord(BlankRecord, now)
  }

  /** Constructing twice leaves supplied timestamps alone: `__post_init__` is idempotent. */
  lemma PostInitRecordIdempotent(r: FileRecord, t1: Time, t2: Time)
    ensures PostInitRecord(PostInitRecord(r, t1), t2) == PostInitRecord(r, t1)
  {
  }

  datatype ShortKeySequence = ShortKeySequence(
    id: Option<nat>,
    keyLength: int,
    currentSequence: int,
    maxPossible: int,
    exhausted: bool,
    createdAt: Option<Time>,
    updatedAt: Option<Time>)

  /** `ShortKeySequence()` constructed at time `now`. */
  function NewShortKeySequence(now: Time): (s: ShortKeySequence)
    ensures s.id.None? && s.keyLength == 4 && s.currentSequence == 0
    ensures s.maxPossible == 0 && !s.exhausted
    ensures s.createdAt == Some(now) && s.updatedAt == Some(now)
  {
    PostInitSequence(ShortKeySequence(None, 4, 0, 0, false, None, None), now)
  }

  function PostInitSequence(s: ShortKeySequence, now: Time): (p: ShortKeySequence)
    ensures p.createdAt == FillTime(s.createdAt, now) && p.updatedAt == FillTime(s.updatedAt, now)
    ensures p.(createdAt := s.createdAt, updatedAt := s.updatedAt) == s
  {
    s.(createdAt := FillTime(s.createdAt, now), updatedAt := FillTime(s.updatedAt, now))
  }

  datatype ReservedShortKey = ReservedShortKey(
    id: Option<nat>,
    shortKey: string,
    reason: string,
    createdAt: Option<Time>)

  function PostInitReserved(k: ReservedShortKey, now: Time): (p: ReservedShortKey)
    ensures p.createdAt == FillTime(k.createdAt, now)
    ensures p.(createdAt := k.createdAt) == k
  {
    k.(createdAt := FillTime(k.createdAt, now))
  }

  datatype FileOperationLog = FileOperationLog(
    id: Option<nat>,
    fileRecordId: nat,
    operationType: string,
    operationDetails: Option<seq<(string, Json)>>,
    clientIp: Option<string>,
    userAgent: Option<string>,
    timestamp: Option<Time>)

  function PostInitLog(l: FileOperationLog, now: Time): (p: FileOperationLog)
    ensures p.timestamp == FillTime(l.timestamp, now)
    ensures p.(timestamp := l.timestamp) == l
  {
    l.(timestamp := FillTime(l.timestamp, now))
  }

  /** `FileOperationLog()` constructed at time `now`. */
  function NewFileOperationLog(now: Time): (l: FileOperationLog)
    ensures l.id.None? && l.fileRecordId == 0 && l.operationType == ""
    ensures l.operationDetails.None? && l.clientIp.None? && l.userAgent.None?
    ensures l.timestamp == Some(now)
  {
    PostInitLog(FileOperationLog(None, 0, "", None, None, None, None), now)
  }

  /** The exceptions the registry raises: its own five classes, the
      `TypeError` of comparing a NULL usage ratio, and the `OverflowError` of
      binding an int that SQLite's INTEGER cannot hold. */
  datatype DbError =
    | DatabaseError(msg: string)
    | DuplicateFileError(msg: string)
    | ShortKeyExhaustedError(msg: string)
    | ShortKeyCollisionError(msg: string)
    | SchemaVersionError(msg: string)
    | TypeError(msg: string)
    | OverflowError(msg: string)
  {
    /** `str(e)`. */
    function Message(): string {
      msg
    }
  }
}
