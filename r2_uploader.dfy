/** `R2Uploader`: what the uploader decides around the object store. The store
    is a `Bucket` object whose objects map keys to their content types; what
    goes wrong when the store is contacted comes from the caller as a fault
    per request. The content digest and the guessed MIME type are parameters
    too, and the sleeps of the back-off are returned instead of being slept. */
module R2Uploader {
  import opened Wrappers
  import opened Text
  import opened Paths
  import opened Config
  import opened HashUtils

  const CREDENTIALS_ERROR := "R2憑證配置錯誤，請檢查存取金鑰設定"
  const INIT_FAILED := "R2客戶端初始化失敗: "
  const NOT_INITIALIZED := "上傳器未正確初始化"
  const KEY_FAILED := "無法生成檔案金鑰"
  const AWS_ERROR := "AWS錯誤 "
  const FILE_MISSING := "檔案不存在: "
  const UPLOAD_ERROR := "上傳錯誤: "
  const DEFAULT_CONTENT_TYPE := "application/octet-stream"
  /** Python 3.12's text for unpacking three values into two names. */
  const UNPACK_ERROR := "too many values to unpack (expected 2)"

  /** Why creating the client failed. */
  datatype InitFault = NoCredentials | InitError(text: string)

  /** What a request to the store raised: a `ClientError` carrying its
      response's `Error` dictionary (or none), a missing local file, or any
      other exception with its text. No fault means the request succeeded. */
  datatype StoreFault =
    | ClientFault(error: Option<map<string, string>>)
    | FileMissing
    | OtherFault(text: string)

  /** `e.response['Error'][field]`: the `KeyError` text when either key is missing. */
  function ErrorField(error: Option<map<string, string>>, field: string): (r: Result<string, string>)
    ensures r.Err? <==> error.None? || field !in error.value
    ensures r.Ok? ==> r.value == error.value[field]
  {
    if error.None? then Err("'Error'")
    else if field !in error.value then Err("'" + field + "'")
    else Ok(error.value[field])
  }

  /** `_initialize_client`'s error text. */
  function InitMessage(f: InitFault): string {
    match f
    case NoCredentials => CREDENTIALS_ERROR
    case InitError(t) => INIT_FAILED + t
  }

  /** `_get_content_type`: the guessed type, or the generic one. */
  function ContentType(mime: Option<string>): (r: string)
    ensures r != ""
    ensures mime.Some? && mime.value != "" ==> r == mime.value
    ensures mime.None? ==> r == DEFAULT_CONTENT_TYPE
  {
    if mime.Some? && mime.value != "" then mime.value else DEFAULT_CONTENT_TYPE
  }

  /** The public URL of an object: the endpoint with every "https://" made
      "https://pub-", then the bucket and the key. */
  function ObjectUrl(c: Settings, key: string): (u: string)
  {
    ReplaceAll(c.r2EndpointUrl, "https://", "https://pub-") + "/" + c.r2BucketName + "/" + key
  }

  /** The URL ends with "/bucket/key" and does not depend on `custom_domain`. */
  lemma UrlIgnoresCustomDomain(c: Settings, key: string, domain: Option<string>)
    ensures ObjectUrl(c.(customDomain := domain), key) == ObjectUrl(c, key)
    ensures var u := ObjectUrl(c, key);
            var tail := "/" + c.r2BucketName + "/" + key;
            |u| >= |tail| && u[|u| - |tail|..] == tail
  {
    var head := ReplaceAll(c.r2EndpointUrl, "https://", "https://pub-");
    assert ObjectUrl(c, key) == head + ("/" + c.r2BucketName + "/" + key);
  }

  /** An endpoint "https://host" with no further "https://" becomes
      "https://pub-host". */
  lemma UrlOfPlainEndpoint(c: Settings, host: string, key: string)
    requires c.r2EndpointUrl == "https://" + host
    requires !Contains(host, "https://")
    ensures ObjectUrl(c, key) == "https://pub-" + host + "/" + c.r2BucketName + "/" + key
  {
    ReplaceAllLeading("https://", host, "https://pub-");
    ReplaceAllAbsent(host, "https://", "https://pub-");
  }

  /** What one call of `_do_upload` gives back: a result, or an exception that
      escaped it. */
  datatype Attempt = Returned(ok: bool, message: string) | Raised(text: string)

  /** A client error whose response lacks the `Error`, `Code` or `Message`
      entry: reading it inside the handler raises `KeyError`. */
  predicate Malformed(fault: Option<StoreFault>) {
    fault.Some? && fault.value.ClientFault?
    && (ErrorField(fault.value.error, "Code").Err? || ErrorField(fault.value.error, "Message").Err?)
  }

  /** `_do_upload`'s outcome for a request that met `fault`. */
  function UploadAttempt(c: Settings, p: Path, key: string, fault: Option<StoreFault>): (a: Attempt)
    ensures (a.Returned? && a.ok) <==> fault.None?
    ensures a.Returned? && a.ok ==> a.message == ObjectUrl(c, key)
    ensures a.Raised? <==> Malformed(fault)
  {
    match fault
    case None => Returned(true, ObjectUrl(c, key))
    case Some(ClientFault(e)) =>
      (match ErrorField(e, "Code")
       case Err(t) => Raised(t)
       case Ok(code) =>
         match ErrorField(e, "Message")
         case Err(t) => Raised(t)
         case Ok(m) => Returned(false, AWS_ERROR + code + ": " + m))
    case Some(FileMissing) => Returned(false, FILE_MISSING + Str(p))
    case Some(OtherFault(t)) => Returned(false, UPLOAD_ERROR + t)
  }

  function Pow2(k: nat): (r: nat)
    ensures r >= 1
  {
    if k == 0 then 1 else 2 * Pow2(k - 1)
  }

  /** `retry_delay * (2 ** attempt)`: the sleep after failed attempt `k`. */
  function Backoff(c: Settings, k: nat): real {
    c.retryDelay * Pow2(k) as real
  }

  /** The sleep taken after failed attempt `k`: none after the last one. */
  function SleepAfter(c: Settings, k: nat): seq<real> {
    if k < c.maxRetries then [Backoff(c, k)] else []
  }

  /** The final message once every attempt raised. */
  function RetryFailed(maxRetries: int, last: string): string {
    "上傳失敗（重試 " + IntToString(maxRetries) + " 次後）: " + last
  }

  /** What the retry loop returns, with the sleeps it took and the number of
      attempts it made. */
  datatype RetryOutcome = RetryOutcome(ok: bool, message: string, sleeps: seq<real>, attempts: nat)

  /** `_upload_with_retry` from attempt `k` on, `last` being the text of the
      latest escaped exception. */
  function RetryFrom(c: Settings, p: Path, key: string, faults: nat -> Option<StoreFault>, k: nat, last: string)
    : (r: RetryOutcome)
    decreases c.maxRetries + 1 - k
  {
    if k > c.maxRetries then RetryOutcome(false, RetryFailed(c.maxRetries, last), [], k)
    else
      match UploadAttempt(c, p, key, faults(k))
      case Returned(ok, m) => RetryOutcome(ok, m, [], k + 1)
      case Raised(t) =>
        var rest := RetryFrom(c, p, key, faults, k + 1, t);
        rest.(sleeps := SleepAfter(c, k) + rest.sleeps)
  }

  /** The whole retry loop. */
  function Retry(c: Settings, p: Path, key: string, faults: nat -> Option<StoreFault>): RetryOutcome {
    RetryFrom(c, p, key, faults, 0, "")
  }

  /** The schedule: at most `max_retries + 1` attempts, the sleep after failed
      attempt `j` is `retry_delay * 2^j`, and there is one sleep fewer than
      attempts, so none after the last. */
  lemma {:induction false} RetrySchedule(c: Settings, p: Path, key: string, faults: nat -> Option<StoreFault>,
                                         k: nat, last: string)
    requires k <= c.maxRetries
    ensures var r := RetryFrom(c, p, key, faults, k, last);
            && k < r.attempts <= c.maxRetries + 1
            && |r.sleeps| == r.attempts - k - 1
            && forall i :: 0 <= i < |r.sleeps| ==> r.sleeps[i] == Backoff(c, k + i)
    decreases c.maxRetries - k
  {
    if UploadAttempt(c, p, key, faults(k)).Raised? && k < c.maxRetries {
      RetrySchedule(c, p, key, faults, k + 1, UploadAttempt(c, p, key, faults(k)).text);
    }
  }

  /** Every attempt before the last one raised; a result that came back is the
      last attempt's. */
  lemma {:induction false} RetryStopsAtFirstResult(c: Settings, p: Path, key: string,
                                                   faults: nat -> Option<StoreFault>, k: nat, last: string)
    requires k <= c.maxRetries
    ensures var r := RetryFrom(c, p, key, faults, k, last);
            && k < r.attempts
            && (forall j :: k <= j < r.attempts - 1 ==> Malformed(faults(j)))
            && (!Malformed(faults(r.attempts - 1)) ==>
                  var a := UploadAttempt(c, p, key, faults(r.attempts - 1));
                  r.ok == a.ok && r.message == a.message)
            && (Malformed(faults(r.attempts - 1)) ==>
                  !r.ok && r.attempts == c.maxRetries + 1
                  && r.message == RetryFailed(c.maxRetries, UploadAttempt(c, p, key, faults(r.attempts - 1)).text))
    decreases c.maxRetries - k
  {
    RetrySchedule(c, p, key, faults, k, last);
    if UploadAttempt(c, p, key, faults(k)).Raised? && k < c.maxRetries {
      RetryStopsAtFirstResult(c, p, key, faults, k + 1, UploadAttempt(c, p, key, faults(k)).text);
    }
  }

  /** `_do_upload` catches every ordinary exception, so unless a client error
      is malformed the first attempt's result is returned and nothing is
      retried or slept. */
  lemma FirstResultReturns(c: Settings, p: Path, key: string, faults: nat -> Option<StoreFault>)
    requires c.maxRetries >= 0 && !Malformed(faults(0))
    ensures var r := Retry(c, p, key, faults);
            && r.attempts == 1 && r.sleeps == []
            && r.ok == faults(0).None?
            && r.message == UploadAttempt(c, p, key, faults(0)).message
  {
  }

  /** One turn of the retry loop: a result that came back ends it, an escaped
      exception moves on to the next attempt after the sleep for this one. */
  lemma RetryStep(c: Settings, p: Path, key: string, faults: nat -> Option<StoreFault>,
                  k: nat, last: string, taken: seq<real>)
    requires k <= c.maxRetries
    ensures var a := UploadAttempt(c, p, key, faults(k));
            var r := WithSleeps(taken, RetryFrom(c, p, key, faults, k, last));
            && (a.Returned? ==> r == RetryOutcome(a.ok, a.message, taken, k + 1))
            && (a.Raised? ==>
                  r == WithSleeps(taken + SleepAfter(c, k),
                                  RetryFrom(c, p, key, faults, k + 1, a.text)))
  {
    var a := UploadAttempt(c, p, key, faults(k));
    if a.Raised? {
      var rest := RetryFrom(c, p, key, faults, k + 1, a.text);
      var now := SleepAfter(c, k);
      assert RetryFrom(c, p, key, faults, k, last) == rest.(sleeps := now + rest.sleeps);
      assert taken + (now + rest.sleeps) == (taken + now) + rest.sleeps;
    }
  }

  /** Past the last attempt the loop reports the latest exception. */
  lemma RetryExhausted(c: Settings, p: Path, key: string, faults: nat -> Option<StoreFault>,
                       k: nat, last: string, taken: seq<real>)
    requires k > c.maxRetries
    ensures WithSleeps(taken, RetryFrom(c, p, key, faults, k, last))
            == RetryOutcome(false, RetryFailed(c.maxRetries, last), taken, k)
  {
    assert taken + [] == taken;
  }

  /** A retry loop that succeeded reports the object's URL. */
  lemma RetrySuccessUrl(c: Settings, p: Path, key: string, faults: nat -> Option<StoreFault>)
    ensures Retry(c, p, key, faults).ok ==> Retry(c, p, key, faults).message == ObjectUrl(c, key)
  {
    if Retry(c, p, key, faults).ok {
      RetryStopsAtFirstResult(c, p, key, faults, 0, "");
    }
  }

  /** `RetryFrom` with sleeps already taken in front. */
  function WithSleeps(taken: seq<real>, r: RetryOutcome): RetryOutcome {
    r.(sleeps := taken + r.sleeps)
  }

  /** The result of `upload_file`: success, the URL or error text, and whether
      the object was already there. */
  datatype UploadResult = UploadResult(success: bool, message: string, duplicate: bool)

  /** `check_file_exists` with a ready client: True only for an object that
      is there and a request that succeeded; a malformed client error escapes. */
  function ExistsAnswer(objects: map<string, string>, key: string, fault: Option<StoreFault>): (r: Result<bool, string>)
    ensures r.Err? <==> fault.Some? && fault.value.ClientFault? && ErrorField(fault.value.error, "Code").Err?
    ensures r == Ok(true) <==> fault.None? && key in objects
  {
    match fault
    case None => Ok(key in objects)
    case Some(ClientFault(e)) =>
      (match ErrorField(e, "Code")
       case Err(t) => Err(t)
       case Ok(_) => Ok(false))
    case Some(_) => Ok(false)
  }

  /** `upload_file`'s key: the given one, or the content-based name. */
  function KeyFor(p: Path, objectKey: Option<string>, digest: Option<string>): (r: Option<string>)
    ensures objectKey.Some? ==> r == objectKey
    ensures objectKey.None? ==> r == ContentBasedFilename(p, digest)
  {
    if objectKey.Some? then objectKey else ContentBasedFilename(p, digest)
  }

  /** What `upload_file` does before the retry loop, once the client exists:
      give up without a key, answer a duplicate, pass on an escaped
      exception, or go on to upload under `key`. */
  datatype Decision = Raise(text: string) | Finish(result: UploadResult) | Upload(key: string)

  function Decide(c: Settings, objects: map<string, string>, p: Path, objectKey: Option<string>,
                  digest: Option<string>, checkDuplicate: bool, headFault: Option<StoreFault>): (d: Decision)
    ensures KeyFor(p, objectKey, digest).None? ==> d == Finish(UploadResult(false, KEY_FAILED, false))
    ensures d.Upload? ==> Some(d.key) == KeyFor(p, objectKey, digest)
  {
    match KeyFor(p, objectKey, digest)
    case None => Finish(UploadResult(false, KEY_FAILED, false))
    case Some(key) =>
      if !checkDuplicate then Upload(key)
      else
        match ExistsAnswer(objects, key, headFault)
        case Err(t) => Raise(t)
        case Ok(found) => if found then Finish(UploadResult(true, ObjectUrl(c, key), true)) else Upload(key)
  }

  /** Without a key the store is never asked: the answer does not depend on
      the bucket or on any fault. */
  lemma NoKeyNoContact(c: Settings, o1: map<string, string>, o2: map<string, string>, p: Path,
                       checkDuplicate: bool, h1: Option<StoreFault>, h2: Option<StoreFault>)
    ensures Decide(c, o1, p, None, None, checkDuplicate, h1) == Decide(c, o2, p, None, None, checkDuplicate, h2)
            == Finish(UploadResult(false, KEY_FAILED, false))
  {
  }

  /** With the duplicate check on and the object present, the answer is the
      URL marked as a duplicate and nothing is uploaded. */
  lemma DuplicateShortCircuits(c: Settings, objects: map<string, string>, p: Path, objectKey: Option<string>,
                               digest: Option<string>)
    requires KeyFor(p, objectKey, digest).Some? && KeyFor(p, objectKey, digest).value in objects
    ensures var key := KeyFor(p, objectKey, digest).value;
            Decide(c, objects, p, objectKey, digest, true, None) == Finish(UploadResult(true, ObjectUrl(c, key), true))
  {
  }

  /** Any request error other than a malformed client error reads as "not
      there", so the file is uploaded again. */
  lemma HeadErrorMeansAbsent(c: Settings, objects: map<string, string>, p: Path, objectKey: Option<string>,
                             digest: Option<string>, fault: StoreFault)
    requires KeyFor(p, objectKey, digest).Some?
    requires !(fault.ClientFault? && ErrorField(fault.error, "Code").Err?)
    ensures Decide(c, objects, p, objectKey, digest, true, Some(fault)) == Upload(KeyFor(p, objectKey, digest).value)
  {
  }

  /** What `upload_file` answers with a ready client; an escaped exception is
      `Err` with its text. */
  function UploadAnswer(c: Settings, objects: map<string, string>, p: Path, objectKey: Option<string>,
                        digest: Option<string>, checkDuplicate: bool, headFault: Option<StoreFault>,
                        faults: nat -> Option<StoreFault>): (r: Result<UploadResult, string>)
    ensures r.Err? <==> Decide(c, objects, p, objectKey, digest, checkDuplicate, headFault).Raise?
    ensures r.Ok? && r.value.success && !r.value.duplicate ==>
              exists key :: Decide(c, objects, p, objectKey, digest, checkDuplicate, headFault) == Upload(key)
                            && r.value.message == ObjectUrl(c, key)
  {
    match Decide(c, objects, p, objectKey, digest, checkDuplicate, headFault)
    case Raise(t) => Err(t)
    case Finish(u) => Ok(u)
    case Upload(key) =>
      var o := Retry(c, p, key, faults);
      RetrySuccessUrl(c, p, key, faults);
      Ok(UploadResult(o.ok, o.message, false))
  }

  /** The bucket after `upload_file` with a ready client: the object is stored
      under its key, with the file's content type, only when the decision was to
      upload and the retry loop succeeded; every other object keeps its content. */
  function UploadedObjects(c: Settings, objects: map<string, string>, p: Path, objectKey: Option<string>,
                           digest: Option<string>, checkDuplicate: bool, mime: Option<string>,
                           headFault: Option<StoreFault>, faults: nat -> Option<StoreFault>)
    : (o: map<string, string>)
    ensures objects.Keys <= o.Keys
    ensures forall k :: k in o && Some(k) != KeyFor(p, objectKey, digest) ==> k in objects && o[k] == objects[k]
    ensures forall k :: k in o && (k !in objects || o[k] != objects[k]) ==> o[k] == ContentType(mime)
  {
    match Decide(c, objects, p, objectKey, digest, checkDuplicate, headFault)
    case Upload(key) => if Retry(c, p, key, faults).ok then objects[key := ContentType(mime)] else objects
    case _ => objects
  }

  /** The message `upload_files` reports for one mapping: the text of what the
      callback raised, else the text of what `upload_file` raised, else the
      unpacking error of `_upload_with_progress`. */
  function EntryMessage(d: Decision, cb: Option<Option<string>>): string {
    if cb.Some? && cb.value.Some? then cb.value.value else if d.Raise? then d.text else UNPACK_ERROR
  }

  /** Without an exception from the callback or from the duplicate check the
      message is the unpacking error. */
  lemma EntryMessageUnpack(c: Settings, objects: map<string, string>, p: Path, key: string,
                           head: Option<StoreFault>, cb: Option<Option<string>>)
    requires !Malformed(head) && !(cb.Some? && cb.value.Some?)
    ensures EntryMessage(Decide(c, objects, p, Some(key), None, true, head), cb) == UNPACK_ERROR
  {
    NoRaiseUnlessMalformed(c, objects, p, key, head);
  }

  /** The callback of mapping `i`: None without a callback, otherwise what
      calling it raised, if anything. */
  function CallbackAt(callback: Option<nat -> Option<string>>, i: nat): Option<Option<string>> {
    if callback.Some? then Some(callback.value(i)) else None
  }

  /** The keys of the first `n` mappings. */
  function MappedKeys(mappings: seq<(Path, string)>, n: nat): set<string>
    requires n <= |mappings|
  {
    set j | 0 <= j < n :: mappings[j].1
  }

  /** `upload_files` over the first `n` mappings, one after the other: the
      entries reported so far and the bucket they leave. Each mapping meets the
      bucket the mappings before it left. */
  function UploadRun(c: Settings, objects: map<string, string>, mappings: seq<(Path, string)>,
                     mimes: nat -> Option<string>, heads: nat -> Option<StoreFault>,
                     faults: nat -> nat -> Option<StoreFault>, callback: Option<nat -> Option<string>>, n: nat)
    : (seq<(Path, bool, string)>, map<string, string>)
    requires n <= |mappings|
  {
    if n == 0 then ([], objects)
    else
      var prev := UploadRun(c, objects, mappings, mimes, heads, faults, callback, n - 1);
      var (p, key) := mappings[n - 1];
      var d := Decide(c, prev.1, p, Some(key), None, true, heads(n - 1));
      (prev.0 + [(p, false, EntryMessage(d, CallbackAt(callback, n - 1)))],
       UploadedObjects(c, prev.1, p, Some(key), None, true, mimes(n - 1), heads(n - 1), faults(n - 1)))
  }

  /** The message of mapping `i`, met with the bucket the mappings before it left. */
  function MessageAt(c: Settings, objects: map<string, string>, mappings: seq<(Path, string)>,
                     mimes: nat -> Option<string>, heads: nat -> Option<StoreFault>,
                     faults: nat -> nat -> Option<StoreFault>, callback: Option<nat -> Option<string>>, i: nat): string
    requires i < |mappings|
  {
    var before := UploadRun(c, objects, mappings, mimes, heads, faults, callback, i).1;
    EntryMessage(Decide(c, before, mappings[i].0, Some(mappings[i].1), None, true, heads(i)), CallbackAt(callback, i))
  }

  /** One entry per mapping. */
  lemma {:induction false} UploadRunLength(c: Settings, objects: map<string, string>, mappings: seq<(Path, string)>,
                                           mimes: nat -> Option<string>, heads: nat -> Option<StoreFault>,
                                           faults: nat -> nat -> Option<StoreFault>,
                                           callback: Option<nat -> Option<string>>, n: nat)
    requires n <= |mappings|
    ensures |UploadRun(c, objects, mappings, mimes, heads, faults, callback, n).0| == n
  {
    if n > 0 {
      UploadRunLength(c, objects, mappings, mimes, heads, faults, callback, n - 1);
    }
  }

  /** Entry `i` is mapping `i`'s path, a failure, and the message met with the
      bucket the mappings before it left; later mappings do not change it. */
  lemma {:induction false} UploadRunEntry(c: Settings, objects: map<string, string>, mappings: seq<(Path, string)>,
                                          mimes: nat -> Option<string>, heads: nat -> Option<StoreFault>,
                                          faults: nat -> nat -> Option<StoreFault>,
                                          callback: Option<nat -> Option<string>>, n: nat, i: nat)
    requires i < n <= |mappings|
    ensures var es := UploadRun(c, objects, mappings, mimes, heads, faults, callback, n).0;
            i < |es| && es[i] == (mappings[i].0, false, MessageAt(c, objects, mappings, mimes, heads, faults, callback, i))
  {
    UploadRunLength(c, objects, mappings, mimes, heads, faults, callback, n - 1);
    UploadRunStep(c, objects, mappings, mimes, heads, faults, callback, n);
    if i < n - 1 {
      UploadRunEntry(c, objects, mappings, mimes, heads, faults, callback, n - 1, i);
    }
  }

  /** Mapping `n - 1` appends exactly its own entry. */
  lemma UploadRunStep(c: Settings, objects: map<string, string>, mappings: seq<(Path, string)>,
                      mimes: nat -> Option<string>, heads: nat -> Option<StoreFault>,
                      faults: nat -> nat -> Option<StoreFault>,
                      callback: Option<nat -> Option<string>>, n: nat)
    requires 0 < n <= |mappings|
    ensures UploadRun(c, objects, mappings, mimes, heads, faults, callback, n).0
            == UploadRun(c, objects, mappings, mimes, heads, faults, callback, n - 1).0
               + [(mappings[n - 1].0, false, MessageAt(c, objects, mappings, mimes, heads, faults, callback, n - 1))]
  {
  }

  /** Without a callback, a mapping whose duplicate check did not raise reports
      the unpacking error. */
  lemma MessageAtUnpack(c: Settings, objects: map<string, string>, mappings: seq<(Path, string)>,
                        mimes: nat -> Option<string>, heads: nat -> Option<StoreFault>,
                        faults: nat -> nat -> Option<StoreFault>, i: nat)
    requires i < |mappings| && !Malformed(heads(i))
    ensures MessageAt(c, objects, mappings, mimes, heads, faults, None, i) == UNPACK_ERROR
  {
    var before := UploadRun(c, objects, mappings, mimes, heads, faults, None, i).1;
    EntryMessageUnpack(c, before, mappings[i].0, mappings[i].1, heads(i), None);
  }

  /** A batch of uploads only adds or rewrites keys of its mappings, and every
      other object keeps its content. */
  lemma {:induction false} UploadRunFrame(c: Settings, objects: map<string, string>, mappings: seq<(Path, string)>,
                                          mimes: nat -> Option<string>, heads: nat -> Option<StoreFault>,
                                          faults: nat -> nat -> Option<StoreFault>,
                                          callback: Option<nat -> Option<string>>, n: nat)
    requires n <= |mappings|
    ensures var o := UploadRun(c, objects, mappings, mimes, heads, faults, callback, n).1;
            && objects.Keys <= o.Keys <= objects.Keys + MappedKeys(mappings, n)
            && forall k :: k in objects && k !in MappedKeys(mappings, n) ==> o[k] == objects[k]
  {
    if n > 0 {
      UploadRunFrame(c, objects, mappings, mimes, heads, faults, callback, n - 1);
      assert MappedKeys(mappings, n) == MappedKeys(mappings, n - 1) + {mappings[n - 1].1};
    }
  }

  /** The remote bucket: each object's key and its content type. */
  class Bucket {
    var objects: map<string, string>

    constructor (objects: map<string, string>)
      ensures this.objects == objects
    {
      this.objects := objects;
    }
  }

  /** The uploader: the settings, the bucket it talks to, and whether the
      client and the semaphore have been made. */
  class R2Uploader {
    const config: Settings
    const bucket: Bucket
    var hasClient: bool
    var hasSemaphore: bool

    /** The client and the semaphore are made together. */
    ghost predicate Valid()
      reads this
    {
      hasClient ==> hasSemaphore
    }

    constructor (config: Settings, bucket: Bucket)
      ensures Valid() && this.config == config && this.bucket == bucket
      ensures !hasClient && !hasSemaphore
    {
      this.config := config;
      this.bucket := bucket;
      hasClient := false;
      hasSemaphore := false;
    }

    /** `_initialize_client`. */
    method InitializeClient(init: Option<InitFault>) returns (err: Option<string>)
      requires Valid()
      modifies this
      ensures Valid()
      ensures err.None? <==> init.None?
      ensures init.Some? ==> err == Some(InitMessage(init.value))
                             && hasClient == old(hasClient) && hasSemaphore == old(hasSemaphore)
      ensures init.None? ==> hasClient && hasSemaphore
    {
      if init.Some? {
        return Some(InitMessage(init.value));
      }
      hasClient := true;
      hasSemaphore := true;
      return None;
    }

    /** `if self._client is None: self._initialize_client()`. */
    method EnsureClient(init: Option<InitFault>) returns (err: Option<string>)
      requires Valid()
      modifies this
      ensures Valid()
      ensures old(hasClient) ==> err.None? && hasClient == old(hasClient) && hasSemaphore == old(hasSemaphore)
      ensures !old(hasClient) ==> err == (if init.Some? then Some(InitMessage(init.value)) else None)
      ensures err.None? ==> hasClient && hasSemaphore
      ensures err.Some? ==> hasClient == old(hasClient) && hasSemaphore == old(hasSemaphore)
    {
      err := None;
      if !hasClient {
        err := InitializeClient(init);
      }
    }

    /** `test_connection`: True when the bucket answers; every request error
      is False, except a malformed client error, which escapes. */
    method TestConnection(init: Option<InitFault>, fault: Option<StoreFault>) returns (r: Result<bool, string>)
      requires Valid()
      modifies this
      ensures Valid()
      ensures hasClient <==> old(hasClient) || init.None?
      ensures !old(hasClient) && init.Some? ==> r == Err(InitMessage(init.value))
      ensures old(hasClient) || init.None? ==>
                r == match fault
                     case None => Ok(true)
                     case Some(ClientFault(e)) => if ErrorField(e, "Code").Err? then Err(ErrorField(e, "Code").error) else Ok(false)
                     case Some(_) => Ok(false)
    {
      var err := EnsureClient(init);
      if err.Some? {
        return Err(err.value);
      }
      match fault
      case None => r := Ok(true);
      case Some(ClientFault(e)) =>
        var code := ErrorField(e, "Code");
        if code.Err? {
          r := Err(code.error);
        } else {
          r := Ok(false);
        }
      case Some(_) => r := Ok(false);
    }

    /** `check_file_exists`. */
    method CheckFileExists(key: string, init: Option<InitFault>, fault: Option<StoreFault>) returns (r: Result<bool, string>)
      requires Valid()
      modifies this
      ensures Valid()
      ensures old(hasClient) ==> hasClient
      ensures !old(hasClient) && init.Some? ==> r == Err(InitMessage(init.value))
      ensures old(hasClient) || init.None? ==> r == ExistsAnswer(bucket.objects, key, fault)
    {
      var err := EnsureClient(init);
      if err.Some? {
        return Err(err.value);
      }
      r := ExistsAnswer(bucket.objects, key, fault);
    }

    /** `_do_upload`: one request; on success the object is stored with the
        file's content type. */
    method DoUpload(p: Path, key: string, mime: Option<string>, fault: Option<StoreFault>) returns (a: Attempt)
      modifies bucket
      ensures a == UploadAttempt(config, p, key, fault)
      ensures bucket.objects == if fault.None? then old(bucket.objects)[key := ContentType(mime)] else old(bucket.objects)
    {
      a := UploadAttempt(config, p, key, fault);
      if fault.None? {
        bucket.objects := bucket.objects[key := ContentType(mime)];
      }
    }

    /** `_upload_with_retry`: the attempt loop. */
    method UploadWithRetry(p: Path, key: string, mime: Option<string>, faults: nat -> Option<StoreFault>)
      returns (r: RetryOutcome)
      modifies bucket
      ensures r == Retry(config, p, key, faults)
      ensures bucket.objects == if r.ok then old(bucket.objects)[key := ContentType(mime)] else old(bucket.objects)
    {
      var lastError := "";
      var sleeps: seq<real> := [];
      var attempt: nat := 0;
      while attempt <= config.maxRetries
        invariant attempt == 0 || attempt <= config.maxRetries + 1
        invariant Retry(config, p, key, faults) == WithSleeps(sleeps, RetryFrom(config, p, key, faults, attempt, lastError))
        invariant bucket.objects == old(bucket.objects)
        decreases config.maxRetries + 1 - attempt
      {
        var a := DoUpload(p, key, mime, faults(attempt));
        RetryStep(config, p, key, faults, attempt, lastError, sleeps);
        if a.Returned? {
          return RetryOutcome(a.ok, a.message, sleeps, attempt + 1);
        }
        lastError := a.text;
        if attempt < config.maxRetries {
          sleeps := sleeps + [Backoff(config, attempt)];
        }
        attempt := attempt + 1;
      }
      RetryExhausted(config, p, key, faults, attempt, lastError, sleeps);
      r := RetryOutcome(false, RetryFailed(config.maxRetries, lastError), sleeps, attempt);
    }

    /** `upload_file`. An escaped exception is `Err` with its text. */
    method UploadFile(p: Path, objectKey: Option<string>, digest: Option<string>, checkDuplicate: bool,
                      mime: Option<string>, init: Option<InitFault>, headFault: Option<StoreFault>,
                      faults: nat -> Option<StoreFault>)
      returns (r: Result<UploadResult, string>)
      requires Valid()
      modifies this, bucket
      ensures Valid()
      ensures old(hasClient) ==> hasClient
      ensures !old(hasClient) && init.Some? ==> r == Err(InitMessage(init.value)) && bucket.objects == old(bucket.objects)
      ensures old(hasClient) || init.None? ==>
                match Decide(config, old(bucket.objects), p, objectKey, digest, checkDuplicate, headFault)
                case Raise(t) => r == Err(t) && bucket.objects == old(bucket.objects)
                case Finish(u) => r == Ok(u) && bucket.objects == old(bucket.objects)
                case Upload(key) =>
                  var o := Retry(config, p, key, faults);
                  && r == Ok(UploadResult(o.ok, o.message, false))
                  && bucket.objects == if o.ok then old(bucket.objects)[key := ContentType(mime)] else old(bucket.objects)
      ensures old(hasClient) || init.None? ==>
                r == UploadAnswer(config, old(bucket.objects), p, objectKey, digest, checkDuplicate, headFault, faults)
      ensures old(hasClient) || init.None? ==>
                bucket.objects == UploadedObjects(config, old(bucket.objects), p, objectKey, digest, checkDuplicate,
                                                  mime, headFault, faults)
    {
      var err := EnsureClient(init);
      if err.Some? {
        return Err(err.value);
      }
      // Making the client makes the semaphore, so `NOT_INITIALIZED` is never raised.
      assert hasSemaphore;
      var key := KeyFor(p, objectKey, digest);
      if key.None? {
        return Ok(UploadResult(false, KEY_FAILED, false));
      }
      if checkDuplicate {
        var present := CheckFileExists(key.value, init, headFault);
        if present.Err? {
          return Err(present.error);
        }
        if present.value {
          return Ok(UploadResult(true, ObjectUrl(config, key.value), true));
        }
      }
      var o := UploadWithRetry(p, key.value, mime, faults);
      r := Ok(UploadResult(o.ok, o.message, false));
    }

    /** `_upload_with_progress`. Unpacking `upload_file`'s three values into
        two names always raises, so the exception branch runs, the callback
        (if any) is told False, and False is returned; an exception from the
        callback escapes. `callback` is None without a callback, otherwise
        what calling it raised, if anything; `called` is the call it got. */
    method UploadWithProgress(p: Path, key: string, mime: Option<string>, headFault: Option<StoreFault>,
                              faults: nat -> Option<StoreFault>, callback: Option<Option<string>>)
      returns (r: Result<(bool, string), string>, called: Option<(Path, bool, string)>)
      requires Valid() && hasClient
      modifies this, bucket
      ensures Valid() && hasClient
      ensures var d := Decide(config, old(bucket.objects), p, Some(key), None, true, headFault);
              var msg := if d.Raise? then d.text else UNPACK_ERROR;
              && called == (if callback.Some? then Some((p, false, msg)) else None)
              && r == (if callback.Some? && callback.value.Some? then Err(callback.value.value) else Ok((false, msg)))
      ensures bucket.objects == UploadedObjects(config, old(bucket.objects), p, Some(key), None, true, mime, headFault, faults)
    {
      var u := UploadFile(p, Some(key), None, true, mime, None, headFault, faults);
      var msg := if u.Err? then u.error else UNPACK_ERROR;
      called := None;
      if callback.Some? {
        called := Some((p, false, msg));
        if callback.value.Some? {
          return Err(callback.value.value), called;
        }
      }
      r := Ok((false, msg));
    }

    /** `upload_files`, one mapping after the other: one result per mapping,
        in order, each reporting failure. */
    method UploadFiles(mappings: seq<(Path, string)>, mimes: nat -> Option<string>, init: Option<InitFault>,
                       heads: nat -> Option<StoreFault>, faults: nat -> nat -> Option<StoreFault>,
                       callback: Option<nat -> Option<string>>)
      returns (r: Result<seq<(Path, bool, string)>, string>)
      requires Valid()
      modifies this, bucket
      ensures Valid()
      ensures !old(hasClient) && init.Some? ==> r == Err(InitMessage(init.value))
      ensures old(hasClient) || init.None? ==> r.Ok?
      ensures r.Ok? ==>
                && |r.value| == |mappings|
                && forall i :: 0 <= i < |mappings| ==> r.value[i].0 == mappings[i].0 && !r.value[i].1
      ensures r.Ok? ==>
                forall i :: 0 <= i < |mappings| ==>
                  r.value[i].2 == MessageAt(config, old(bucket.objects), mappings, mimes, heads, faults, callback, i)
      ensures r.Ok? && callback.None? ==>
                forall i :: 0 <= i < |mappings| && !Malformed(heads(i)) ==> r.value[i].2 == UNPACK_ERROR
      ensures r.Err? ==> bucket.objects == old(bucket.objects)
      ensures r.Ok? ==>
                bucket.objects == UploadRun(config, old(bucket.objects), mappings, mimes, heads, faults, callback, |mappings|).1
      ensures old(bucket.objects).Keys <= bucket.objects.Keys <= old(bucket.objects).Keys + MappedKeys(mappings, |mappings|)
    {
      var err := EnsureClient(init);
      if err.Some? {
        return Err(err.value);
      }
      var results := UploadAll(mappings, mimes, heads, faults, callback);
      UploadRunLength(config, old(bucket.objects), mappings, mimes, heads, faults, callback, |mappings|);
      forall i | 0 <= i < |mappings|
        ensures results[i] == (mappings[i].0, false, MessageAt(config, old(bucket.objects), mappings, mimes, heads, faults, callback, i))
      {
        UploadRunEntry(config, old(bucket.objects), mappings, mimes, heads, faults, callback, |mappings|, i);
      }
      if callback.None? {
        forall i | 0 <= i < |mappings| && !Malformed(heads(i))
          ensures MessageAt(config, old(bucket.objects), mappings, mimes, heads, faults, callback, i) == UNPACK_ERROR
        {
          MessageAtUnpack(config, old(bucket.objects), mappings, mimes, heads, faults, i);
        }
      }
      UploadRunFrame(config, old(bucket.objects), mappings, mimes, heads, faults, callback, |mappings|);
      r := Ok(results);
    }

    /** The loop of `upload_files` over the mappings, with a ready client. */
    method UploadAll(mappings: seq<(Path, string)>, mimes: nat -> Option<string>,
                     heads: nat -> Option<StoreFault>, faults: nat -> nat -> Option<StoreFault>,
                     callback: Option<nat -> Option<string>>)
      returns (results: seq<(Path, bool, string)>)
      requires Valid() && hasClient
      modifies this, bucket
      ensures Valid() && hasClient
      ensures (results, bucket.objects)
              == UploadRun(config, old(bucket.objects), mappings, mimes, heads, faults, callback, |mappings|)
    {
      var o0 := bucket.objects;
      results := [];
      var i := 0;
      while i < |mappings|
        invariant 0 <= i <= |mappings| && Valid() && hasClient
        invariant (results, bucket.objects) == UploadRun(config, o0, mappings, mimes, heads, faults, callback, i)
      {
        var entry := UploadAt(o0, mappings, mimes, heads, faults, callback, i);
        results := results + [entry];
        i := i + 1;
      }
    }

    /** Mapping `i` of `upload_files`, after the mappings before it. */
    method UploadAt(o0: map<string, string>, mappings: seq<(Path, string)>, mimes: nat -> Option<string>,
                    heads: nat -> Option<StoreFault>, faults: nat -> nat -> Option<StoreFault>,
                    callback: Option<nat -> Option<string>>, i: nat)
      returns (entry: (Path, bool, string))
      requires Valid() && hasClient && i < |mappings|
      requires bucket.objects == UploadRun(config, o0, mappings, mimes, heads, faults, callback, i).1
      modifies this, bucket
      ensures Valid() && hasClient
      ensures var prev := UploadRun(config, o0, mappings, mimes, heads, faults, callback, i);
              UploadRun(config, o0, mappings, mimes, heads, faults, callback, i + 1) == (prev.0 + [entry], bucket.objects)
    {
      var (p, key) := mappings[i];
      entry := UploadOne(p, key, mimes(i), heads(i), faults(i), CallbackAt(callback, i));
    }

    /** One mapping of `upload_files`: its path, failure, and the message
        `_upload_with_progress` gave back or the text of what escaped it. */
    method UploadOne(p: Path, key: string, mime: Option<string>, head: Option<StoreFault>,
                     faults: nat -> Option<StoreFault>, cb: Option<Option<string>>)
      returns (entry: (Path, bool, string))
      requires Valid() && hasClient
      modifies this, bucket
      ensures Valid() && hasClient
      ensures entry.0 == p && !entry.1
      ensures entry.2 == EntryMessage(Decide(config, old(bucket.objects), p, Some(key), None, true, head), cb)
      ensures bucket.objects == UploadedObjects(config, old(bucket.objects), p, Some(key), None, true, mime, head, faults)
    {
      var res, _ := UploadWithProgress(p, key, mime, head, faults, cb);
      var message := if res.Err? then res.error else res.value.1;
      entry := (p, false, message);
    }

    /** `close`: the client and the semaphore are dropped. */
    method Close()
      modifies this
      ensures Valid() && !hasClient && !hasSemaphore
    {
      hasClient := false;
      hasSemaphore := false;
    }
  }

  /** The duplicate check raises only on a malformed client error. */
  lemma NoRaiseUnlessMalformed(c: Settings, objects: map<string, string>, p: Path, key: string,
                               head: Option<StoreFault>)
    requires !Malformed(head)
    ensures !Decide(c, objects, p, Some(key), None, true, head).Raise?
  {
  }
}
