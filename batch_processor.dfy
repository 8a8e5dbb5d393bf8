/** `BatchProcessor`: the per-file pipeline (validate, name, process, upload,
    report, clean up) and the batch around it, run one file after the other.
    The local disk is a `FileSystem` value the processor updates; the image
    codec, the hash function, the MIME guesser, the random source and the
    store's faults are per-file parameters. */
module BatchProcessor {
  import opened Wrappers
  import opened Text
  import opened Paths
  import opened Config
  import opened HashUtils
  import opened FileUtils
  import opened Models
  import ImageProcessor
  import PT = ProgressTracker
  import R2 = R2Uploader

  const ORIGINAL_DIR := Path(["images", "original"])
  const TRANSFER_DIR := Path(["images", "transfer"])
  const IMAGE_FAILED := "圖片處理失敗"
  const UNEXPECTED := "處理檔案時發生未預期錯誤: "
  const BATCH_FAILED := "批量處理失敗: "
  const NO_CONNECTION := "無法連接到Cloudflare R2，請檢查配置"
  /** Python 3.12's `TypeError` text for calling `complete_file` with four
      arguments besides `self`. */
  const COMPLETE_ARITY := "ProgressTracker.complete_file() takes from 2 to 4 positional arguments but 5 were given"

  /** What the outside world does for one file: the MIME type guessed for the
      original and for the processed copy, the sixteen random bytes `uuid4`
      would use, whether the codec succeeds and how large its output is,
      whether a plain copy succeeds, and the faults the store's requests meet. */
  datatype FileEnv = FileEnv(
    mime: Option<string>, transferMime: Option<string>, random: seq<nat>,
    imageOk: bool, outputSize: nat, copyOk: bool,
    headFault: Option<R2.StoreFault>, faults: nat -> Option<R2.StoreFault>)

  predicate ValidEnv(e: FileEnv) {
    |e.random| == 16 && forall i :: 0 <= i < 16 ==> e.random[i] < 256
  }

  /** `_generate_new_filename`: both branches of the format test build the
      same name, from the sanitised stem, the content identifier (or a random
      one when the digest is missing) and the lower-cased suffix. */
  function GenerateNewFilename(c: Settings, p: Path, digest: Option<string>, random: seq<nat>): (n: string)
    requires |random| == 16 && forall i :: 0 <= i < 16 ==> random[i] < 256
    ensures digest.Some? ==> n == FilenameWithOriginalName(p, digest).value
    ensures digest.None? ==> n == SanitizeFilename(Stem(p)) + "_" + ImageProcessor.Uuid4Hex(random) + Lower(Suffix(p))
  {
    if c.filenameFormat == "uuid" then
      var content := FilenameWithOriginalName(p, digest);
      if content.Some? && content.value != "" then content.value
      else SanitizeFilename(Stem(p)) + "_" + ImageProcessor.Uuid4Hex(random) + Lower(Suffix(p))
    else
      var content := FilenameWithOriginalName(p, digest);
      if content.Some? && content.value != "" then content.value
      else SanitizeFilename(Stem(p)) + "_" + ImageProcessor.Uuid4Hex(random) + Lower(Suffix(p))
  }

  /** The configured `filename_format` makes no difference. */
  lemma NewFilenameIgnoresFormat(c1: Settings, c2: Settings, p: Path, digest: Option<string>, random: seq<nat>)
    requires |random| == 16 && forall i :: 0 <= i < 16 ==> random[i] < 256
    ensures GenerateNewFilename(c1, p, digest, random) == GenerateNewFilename(c2, p, digest, random)
  {
  }

  /** `unlink()` of a file; anything else is left alone (the error is swallowed). */
  function Unlink(fs: FileSystem, p: Path): (r: FileSystem)
    ensures r.dirs == fs.dirs && r.files == fs.files - {p}
  {
    if p in fs.files then fs.(files := fs.files - {p}) else fs
  }

  /** Adding a fresh file and unlinking it again restores the disk. */
  lemma CreateThenUnlink(fs: FileSystem, p: Path, size: nat)
    requires p !in fs.files
    ensures Unlink(fs.(files := fs.files[p := size]), p) == fs
  {
    assert fs.files[p := size] - {p} == fs.files;
  }

  /** How one file ended, as `_process_single_file` sees it. */
  datatype FileOutcome =
    | Invalid(message: string)          // validation or image processing failed
    | UploadFailed(message: string)     // the uploader reported failure
    | Duplicate(url: string)            // the object was already there
    | Uploaded(url: string)             // uploaded; reporting it then raised
    | Crashed(message: string)          // the uploader raised

  /** How an answer of `upload_file` (an escaped exception is `Err`) ends
      the file: never as invalid. */
  function OutcomeOf(u: Result<R2.UploadResult, string>): (o: FileOutcome)
    ensures !o.Invalid?
    ensures o.Uploaded? <==> u.Ok? && u.value.success && !u.value.duplicate
  {
    if u.Err? then Crashed(u.error)
    else if u.value.success && u.value.duplicate then Duplicate(u.value.message)
    else if u.value.success then Uploaded(u.value.message)
    else UploadFailed(u.value.message)
  }

  /** The tracker calls one file makes. After an upload, `complete_file` is
      called with one argument too many, so its `TypeError` turns into
      `fail_file`. */
  function TrackerCalls(p: Path, o: FileOutcome): (es: seq<PT.Event>)
    ensures |es| >= 2 && es[0] == PT.Event.StartFileProcessing(p)
  {
    match o
    case Invalid(m) => [PT.Event.StartFileProcessing(p), PT.Event.FailFile(p, m)]
    case UploadFailed(m) =>
      [PT.Event.StartFileProcessing(p), PT.Event.StartFileUploading(p), PT.Event.FailFile(p, m)]
    case Duplicate(url) =>
      [PT.Event.StartFileProcessing(p), PT.Event.StartFileUploading(p), PT.Event.DuplicateFile(p, url)]
    case Uploaded(_) =>
      [PT.Event.StartFileProcessing(p), PT.Event.StartFileUploading(p), PT.Event.FailFile(p, UNEXPECTED + COMPLETE_ARITY)]
    case Crashed(m) =>
      [PT.Event.StartFileProcessing(p), PT.Event.StartFileUploading(p), PT.Event.FailFile(p, UNEXPECTED + m)]
  }

  /** A list of calls at one clock reading. */
  function RunAll(t: PT.Tracker, es: seq<PT.Event>, now: Time): PT.Tracker
    decreases |es|
  {
    if es == [] then t else RunAll(PT.Step(t, es[0], now), es[1..], now)
  }

  /** Every file ends with exactly one terminal call: one more processed file,
      counted as uploaded only for a duplicate and as failed otherwise, even
      when the upload went through. */
  lemma SingleFileCounts(t: PT.Tracker, p: Path, o: FileOutcome, now: Time)
    requires Str(p) in t.progress
    ensures var r := RunAll(t, TrackerCalls(p, o), now);
            && r.stats.processedFiles == t.stats.processedFiles + 1
            && r.stats.uploadedFiles == t.stats.uploadedFiles + (if o.Duplicate? then 1 else 0)
            && r.stats.failedFiles == t.stats.failedFiles + (if o.Duplicate? then 0 else 1)
            && r.stats.skippedFiles == t.stats.skippedFiles
            && r.stats.totalFiles == t.stats.totalFiles
            && r.progress.Keys == t.progress.Keys && r.order == t.order
  {
    var es := TrackerCalls(p, o);
    var t1 := PT.Step(t, es[0], now);
    assert RunAll(t, es, now) == RunAll(t1, es[1..], now);
    if |es| == 2 {
      assert RunAll(t1, es[1..], now) == PT.Step(t1, es[1], now);
    } else {
      var t2 := PT.Step(t1, es[1], now);
      assert RunAll(t1, es[1..], now) == RunAll(t2, es[2..], now);
      assert RunAll(t2, es[2..], now) == PT.Step(t2, es[2], now);
    }
  }

  /** The entry's final status: duplicate, or failed with the message the
      outcome carries; an upload that went through is reported as the
      `TypeError`. */
  lemma SingleFileStatus(t: PT.Tracker, p: Path, o: FileOutcome, now: Time)
    requires Str(p) in t.progress
    ensures Str(p) in RunAll(t, TrackerCalls(p, o), now).progress
    ensures var e := RunAll(t, TrackerCalls(p, o), now).progress[Str(p)];
            && (o.Duplicate? ==> e.status == PT.Duplicate && e.uploadUrl == o.url)
            && (o.Uploaded? ==> e.status == PT.Failed && e.errorMessage == UNEXPECTED + COMPLETE_ARITY)
            && ((o.Invalid? || o.UploadFailed?) ==> e.status == PT.Failed && e.errorMessage == o.message)
            && (o.Crashed? ==> e.status == PT.Failed && e.errorMessage == UNEXPECTED + o.message)
  {
    var es := TrackerCalls(p, o);
    var t1 := PT.Step(t, es[0], now);
    assert RunAll(t, es, now) == RunAll(t1, es[1..], now);
    if |es| == 2 {
      assert RunAll(t1, es[1..], now) == PT.Step(t1, es[1], now);
    } else {
      var t2 := PT.Step(t1, es[1], now);
      assert RunAll(t1, es[1..], now) == RunAll(t2, es[2..], now);
      assert RunAll(t2, es[2..], now) == PT.Step(t2, es[2], now);
    }
  }

  /** Running the calls keeps the tracker well formed and balanced. */
  lemma {:induction false} RunAllKeepsInvariant(t: PT.Tracker, es: seq<PT.Event>, now: Time)
    requires PT.WellFormed(t) && PT.Balanced(t.stats)
    ensures PT.WellFormed(RunAll(t, es, now)) && PT.Balanced(RunAll(t, es, now).stats)
    decreases |es|
  {
    if es != [] {
      PT.StepKeepsInvariant(t, es[0], now);
      RunAllKeepsInvariant(PT.Step(t, es[0], now), es[1..], now);
    }
  }

  /** The processed copy's path: free in the transfer directory, and the
      generated name itself whenever that name is free. */
  predicate TransferChoice(c: Settings, fs: FileSystem, p: Path, env: FileEnv, digestOf: Path -> Option<string>,
                           transfer: Path)
    requires ValidEnv(env)
  {
    && !Exists(fs, transfer) && Parent(transfer) == TRANSFER_DIR
    && var named := Child(TRANSFER_DIR, GenerateNewFilename(c, p, digestOf(p), env.random));
       !Exists(fs, named) ==> transfer == named
  }

  /** One file of a batch, met with the bucket `before`: how it ends and the
      bucket it leaves. A file that fails validation or processing ends as
      invalid and leaves the bucket alone; otherwise the processed copy
      `transfer` is uploaded under its content key and the file ends as
      `upload_file` answered. */
  predicate FileStep(c: Settings, fs: FileSystem, before: map<string, string>, p: Path, env: FileEnv,
                     digestOf: Path -> Option<string>, transfer: Path, o: FileOutcome, after: map<string, string>)
    requires ValidEnv(env)
  {
    var v := ValidateFile(fs, p, c, env.mime);
    if !v.0 then o == Invalid(v.1) && after == before
    else if !env.imageOk then o == Invalid(IMAGE_FAILED) && after == before
    else
      && TransferChoice(c, fs, p, env, digestOf, transfer)
      && o == OutcomeOf(R2.UploadAnswer(c, before, transfer, None, digestOf(transfer), c.checkDuplicate,
                                        env.headFault, env.faults))
      && after == R2.UploadedObjects(c, before, transfer, None, digestOf(transfer), c.checkDuplicate,
                                     env.transferMime, env.headFault, env.faults)
  }

  /** The files of a batch, one after the other: file `i` meets the bucket
      `buckets[i]` and leaves `buckets[i + 1]`. */
  predicate BatchSteps(c: Settings, fs: FileSystem, files: seq<Path>, envs: nat -> FileEnv,
                       digestOf: Path -> Option<string>, outs: seq<FileOutcome>, transfers: seq<Path>,
                       buckets: seq<map<string, string>>)
    requires forall i :: 0 <= i < |files| ==> ValidEnv(envs(i))
  {
    && |outs| == |files| && |transfers| == |files| && |buckets| == |files| + 1
    && forall i :: 0 <= i < |files| ==>
         FileStep(c, fs, buckets[i], files[i], envs(i), digestOf, transfers[i], outs[i], buckets[i + 1])
  }

  /** One more file of a batch. */
  lemma BatchStepsSnoc(c: Settings, fs: FileSystem, files: seq<Path>, envs: nat -> FileEnv,
                       digestOf: Path -> Option<string>, outs: seq<FileOutcome>, transfers: seq<Path>,
                       buckets: seq<map<string, string>>, i: nat, o: FileOutcome, transfer: Path,
                       after: map<string, string>)
    requires i < |files| && forall k :: 0 <= k < |files| ==> ValidEnv(envs(k))
    requires BatchSteps(c, fs, files[..i], envs, digestOf, outs, transfers, buckets)
    requires FileStep(c, fs, buckets[i], files[i], envs(i), digestOf, transfer, o, after)
    ensures BatchSteps(c, fs, files[..i + 1], envs, digestOf, outs + [o], transfers + [transfer], buckets + [after])
  {
    var outs', transfers', buckets' := outs + [o], transfers + [transfer], buckets + [after];
    forall k | 0 <= k < i + 1
      ensures FileStep(c, fs, buckets'[k], files[..i + 1][k], envs(k), digestOf, transfers'[k], outs'[k], buckets'[k + 1])
    {
      if k < i {
        assert FileStep(c, fs, buckets[k], files[..i][k], envs(k), digestOf, transfers[k], outs[k], buckets[k + 1]);
        SnocKeepsStep(c, fs, files, envs, digestOf, outs, transfers, buckets, i, o, transfer, after, k);
      }
    }
  }

  /** The steps before file `i` survive appending its own. */
  lemma SnocKeepsStep(c: Settings, fs: FileSystem, files: seq<Path>, envs: nat -> FileEnv,
                      digestOf: Path -> Option<string>, outs: seq<FileOutcome>, transfers: seq<Path>,
                      buckets: seq<map<string, string>>, i: nat, o: FileOutcome, transfer: Path,
                      after: map<string, string>, k: nat)
    requires k < i < |files| && ValidEnv(envs(k))
    requires |outs| == i && |transfers| == i && |buckets| == i + 1
    requires FileStep(c, fs, buckets[k], files[..i][k], envs(k), digestOf, transfers[k], outs[k], buckets[k + 1])
    ensures FileStep(c, fs, (buckets + [after])[k], files[..i + 1][k], envs(k), digestOf,
                     (transfers + [transfer])[k], (outs + [o])[k], (buckets + [after])[k + 1])
  {
    assert files[..i][k] == files[..i + 1][k];
    assert (buckets + [after])[k] == buckets[k] && (buckets + [after])[k + 1] == buckets[k + 1];
    assert (transfers + [transfer])[k] == transfers[k] && (outs + [o])[k] == outs[k];
  }

  /** One more file's calls on the tracker. */
  lemma RunFilesSnoc(t: PT.Tracker, files: seq<Path>, outs: seq<FileOutcome>, i: nat, o: FileOutcome, now: Time)
    requires i < |files| && |outs| == i
    ensures RunFiles(t, files[..i + 1], outs + [o], now)
            == RunAll(RunFiles(t, files[..i], outs, now), TrackerCalls(files[i], o), now)
  {
    assert files[..i + 1][..i] == files[..i];
    assert (outs + [o])[..i] == outs;
  }

  /** The tracker after the files' calls, one file after the other. */
  function RunFiles(t: PT.Tracker, files: seq<Path>, outs: seq<FileOutcome>, now: Time): PT.Tracker
    requires |outs| == |files|
    decreases |files|
  {
    if files == [] then t
    else
      RunAll(RunFiles(t, files[..|files| - 1], outs[..|outs| - 1], now),
             TrackerCalls(files[|files| - 1], outs[|outs| - 1]), now)
  }

  /** The URLs of the uploads that went through, in order. */
  function UploadedUrlsOf(outs: seq<FileOutcome>): seq<string>
    decreases |outs|
  {
    if outs == [] then []
    else
      var o := outs[|outs| - 1];
      UploadedUrlsOf(outs[..|outs| - 1]) + (if o.Uploaded? then [o.url] else [])
  }

  lemma UploadedUrlsSnoc(outs: seq<FileOutcome>, o: FileOutcome)
    ensures UploadedUrlsOf(outs + [o]) == UploadedUrlsOf(outs) + (if o.Uploaded? then [o.url] else [])
  {
    assert (outs + [o])[..|outs|] == outs;
  }

  /** The URL list after one more file, when it held the URLs of the files before. */
  lemma UploadedUrlsNext(urls0: seq<string>, outs: seq<FileOutcome>, o: FileOutcome, urls: seq<string>)
    requires urls == urls0 + UploadedUrlsOf(outs)
    ensures urls + (if o.Uploaded? then [o.url] else []) == urls0 + UploadedUrlsOf(outs + [o])
  {
    UploadedUrlsSnoc(outs, o);
    var extra := if o.Uploaded? then [o.url] else [];
    assert urls0 + UploadedUrlsOf(outs) + extra == urls0 + (UploadedUrlsOf(outs) + extra);
  }

  /** How many files ended as duplicates. */
  function CountDuplicates(outs: seq<FileOutcome>): (n: nat)
    decreases |outs|
  {
    if outs == [] then 0
    else CountDuplicates(outs[..|outs| - 1]) + (if outs[|outs| - 1].Duplicate? then 1 else 0)
  }

  /** A batch of registered files: each file is one more processed file, the
      duplicates are counted as uploaded and every other file as failed; the
      entries and the totals stay as they were. */
  lemma {:induction false} RunFilesCounts(t: PT.Tracker, files: seq<Path>, outs: seq<FileOutcome>, now: Time)
    requires |outs| == |files|
    requires forall j :: 0 <= j < |files| ==> Str(files[j]) in t.progress
    ensures var r := RunFiles(t, files, outs, now);
            && r.stats.processedFiles == t.stats.processedFiles + |files|
            && r.stats.uploadedFiles == t.stats.uploadedFiles + CountDuplicates(outs)
            && r.stats.failedFiles + CountDuplicates(outs) == t.stats.failedFiles + |files|
            && r.stats.skippedFiles == t.stats.skippedFiles
            && r.stats.totalFiles == t.stats.totalFiles
            && r.progress.Keys == t.progress.Keys && r.order == t.order
    decreases |files|
  {
    if files != [] {
      var n := |files| - 1;
      RunFilesCounts(t, files[..n], outs[..n], now);
      var mid := RunFiles(t, files[..n], outs[..n], now);
      SingleFileCounts(mid, files[n], outs[n], now);
    }
  }

  /** The uploaded URLs and the duplicates of a batch number at most one per
      file. */
  lemma {:induction false} UploadedUrlsBound(outs: seq<FileOutcome>)
    ensures |UploadedUrlsOf(outs)| + CountDuplicates(outs) <= |outs|
    decreases |outs|
  {
    if outs != [] {
      UploadedUrlsBound(outs[..|outs| - 1]);
    }
  }

  /** `_ensure_directories`: both working directories and their parent
      exist afterwards; files are untouched. */
  function EnsureDirectories(fs: FileSystem): (r: FileSystem)
    ensures r.files == fs.files && fs.dirs <= r.dirs
    ensures ORIGINAL_DIR in r.dirs && TRANSFER_DIR in r.dirs && Path(["images"]) in r.dirs
    ensures r.dirs - fs.dirs <= {Path(["images"]), ORIGINAL_DIR, TRANSFER_DIR}
  {
    fs.(dirs := fs.dirs + {Path(["images"]), ORIGINAL_DIR, TRANSFER_DIR})
  }

  /** The batch processor. */
  class BatchProcessor {
    const config: Settings
    const tracker: PT.ProgressTracker
    const bucket: R2.Bucket
    var uploadedUrls: seq<string>
    var fs: FileSystem

    ghost predicate Valid()
      reads this, tracker
    {
      tracker.Valid() && TRANSFER_DIR in fs.dirs && ORIGINAL_DIR in fs.dirs
    }

    /** `__init__`, with `_ensure_directories`. */
    constructor (config: Settings, fs: FileSystem, bucket: R2.Bucket)
      ensures this.config == config && this.bucket == bucket && uploadedUrls == []
      ensures this.fs == EnsureDirectories(fs)
      ensures fresh(tracker) && tracker.State() == PT.EMPTY
      ensures Valid()
    {
      this.config := config;
      this.bucket := bucket;
      uploadedUrls := [];
      this.fs := EnsureDirectories(fs);
      tracker := new PT.ProgressTracker(config.showProgress, config.progressUpdateInterval);
    }

    /** `transfer_dir / _generate_new_filename(p)`, made unique: a free
        name in the transfer directory. */
    method TransferPath(p: Path, env: FileEnv, digestOf: Path -> Option<string>) returns (t: Path)
      requires ValidEnv(env)
      ensures TransferChoice(config, fs, p, env, digestOf, t)
    {
      var name := GenerateNewFilename(config, p, digestOf(p), env.random);
      t := GetUniqueFilename(fs, Child(TRANSFER_DIR, name));
    }

    /** `process_image`: validate, name, make the name unique, process. On
        success the processed copy is a fresh file in the transfer directory. */
    method ProcessImage(p: Path, env: FileEnv, digestOf: Path -> Option<string>)
      returns (ok: bool, transfer: Path, message: string)
      requires Valid() && ValidEnv(env)
      modifies this
      ensures Valid() && uploadedUrls == old(uploadedUrls)
      ensures var v := ValidateFile(old(fs), p, config, env.mime);
              && (ok <==> v.0 && env.imageOk)
              && (!v.0 ==> message == v.1)
              && (v.0 && !env.imageOk ==> message == IMAGE_FAILED)
              && (ok ==> message == "")
      ensures !ok ==> fs == old(fs)
      ensures ok ==> TransferChoice(config, old(fs), p, env, digestOf, transfer)
      ensures ok ==> fs == old(fs).(files := old(fs).files[transfer := env.outputSize])
    {
      var v := ValidateFile(fs, p, config, env.mime);
      if !v.0 {
        return false, p, v.1;
      }
      transfer := TransferPath(p, env, digestOf);
      if !env.imageOk {
        return false, transfer, IMAGE_FAILED;
      }
      fs := fs.(files := fs.files[transfer := env.outputSize]);
      return true, transfer, "";
    }

    /** `_process_single_file`. The tracker gets the calls `TrackerCalls`
        lists; only an upload that went through adds its URL; the processed
        copy is removed in every case, so the disk ends as it began; and the
        bucket changes only for an upload that went through. */
    method ProcessSingleFile(p: Path, uploader: R2.R2Uploader, env: FileEnv,
                             digestOf: Path -> Option<string>, now: Time)
      returns (o: FileOutcome, ghost transfer: Path)
      requires Valid() && ValidEnv(env)
      requires uploader.Valid() && uploader.hasClient
      requires uploader.bucket == bucket && uploader.config == config
      modifies this, tracker, uploader, bucket
      ensures Valid() && uploader.Valid() && uploader.hasClient
      ensures tracker.State() == RunAll(old(tracker.State()), TrackerCalls(p, o), now)
      ensures uploadedUrls == old(uploadedUrls) + (if o.Uploaded? then [o.url] else [])
      ensures fs == old(fs)
      ensures var v := ValidateFile(old(fs), p, config, env.mime);
              && (o.Invalid? <==> !(v.0 && env.imageOk))
              && (o.Invalid? && !v.0 ==> o.message == v.1)
              && (o.Invalid? && v.0 ==> o.message == IMAGE_FAILED)
      ensures FileStep(config, old(fs), old(bucket.objects), p, env, digestOf, transfer, o, bucket.objects)
      ensures !o.Uploaded? ==> bucket.objects == old(bucket.objects)
      ensures o.Uploaded? ==>
                exists key :: o.url == R2.ObjectUrl(config, key)
                              && bucket.objects == old(bucket.objects)[key := R2.ContentType(env.transferMime)]
    {
      ghost var t0 := tracker.State();
      tracker.StartFileProcessing(p, now);
      ghost var t1 := tracker.State();
      var ok, path, message := ProcessImage(p, env, digestOf);
      transfer := path;
      if !ok {
        tracker.FailFile(p, message, now);
        o := Invalid(message);
        assert RunAll(t1, [PT.Event.FailFile(p, message)], now) == tracker.State();
        return;
      }
      o := UploadProcessed(p, path, uploader, env, digestOf, now);
      CreateThenUnlink(old(fs), path, env.outputSize);
      var es := TrackerCalls(p, o);
      assert RunAll(t0, es, now) == RunAll(t1, es[1..], now);
    }

    /** The part of `_process_single_file` after a successful `process_image`:
        report the upload, upload, report the outcome, remove the copy. */
    method UploadProcessed(p: Path, transfer: Path, uploader: R2.R2Uploader, env: FileEnv,
                           digestOf: Path -> Option<string>, now: Time)
      returns (o: FileOutcome)
      requires Valid()
      requires uploader.Valid() && uploader.hasClient
      requires uploader.bucket == bucket && uploader.config == config
      modifies this, tracker, uploader, bucket
      ensures Valid() && uploader.Valid() && uploader.hasClient
      ensures !o.Invalid?
      ensures tracker.State() == RunAll(old(tracker.State()), TrackerCalls(p, o)[1..], now)
      ensures uploadedUrls == old(uploadedUrls) + (if o.Uploaded? then [o.url] else [])
      ensures fs == Unlink(old(fs), transfer)
      ensures o == OutcomeOf(R2.UploadAnswer(config, old(bucket.objects), transfer, None, digestOf(transfer),
                                             config.checkDuplicate, env.headFault, env.faults))
      ensures bucket.objects == R2.UploadedObjects(config, old(bucket.objects), transfer, None, digestOf(transfer),
                                                   config.checkDuplicate, env.transferMime, env.headFault, env.faults)
      ensures !o.Uploaded? ==> bucket.objects == old(bucket.objects)
      ensures o.Uploaded? ==>
                exists key :: o.url == R2.ObjectUrl(config, key)
                              && bucket.objects == old(bucket.objects)[key := R2.ContentType(env.transferMime)]
    {
      ghost var t1 := tracker.State();
      tracker.StartFileUploading(p, now);
      ghost var t2 := tracker.State();
      var u := UploadTransfer(transfer, uploader, env, digestOf);
      o := Report(p, u, now);
      fs := Unlink(fs, transfer);
      var es := TrackerCalls(p, o);
      assert RunAll(t2, es[2..], now) == tracker.State();
      assert RunAll(t1, es[1..], now) == RunAll(t2, es[2..], now);
    }

    /** `uploader.upload_file(transfer_path, object_key=None, check_duplicate=...)`:
        the key comes from the processed copy's content. */
    method UploadTransfer(transfer: Path, uploader: R2.R2Uploader, env: FileEnv, digestOf: Path -> Option<string>)
      returns (u: Result<R2.UploadResult, string>)
      requires uploader.Valid() && uploader.hasClient
      requires uploader.bucket == bucket && uploader.config == config
      modifies uploader, bucket
      ensures uploader.Valid() && uploader.hasClient
      ensures match R2.Decide(config, old(bucket.objects), transfer, None, digestOf(transfer), config.checkDuplicate, env.headFault)
              case Raise(t) => u == Err(t)
              case Finish(r) => u == Ok(r)
              case Upload(key) =>
                var a := R2.Retry(config, transfer, key, env.faults);
                u == Ok(R2.UploadResult(a.ok, a.message, false))
      ensures u == R2.UploadAnswer(config, old(bucket.objects), transfer, None, digestOf(transfer),
                                   config.checkDuplicate, env.headFault, env.faults)
      ensures bucket.objects == R2.UploadedObjects(config, old(bucket.objects), transfer, None, digestOf(transfer),
                                                   config.checkDuplicate, env.transferMime, env.headFault, env.faults)
      ensures !OutcomeOf(u).Uploaded? ==> bucket.objects == old(bucket.objects)
      ensures OutcomeOf(u).Uploaded? ==>
                exists key :: OutcomeOf(u).url == R2.ObjectUrl(config, key)
                              && bucket.objects == old(bucket.objects)[key := R2.ContentType(env.transferMime)]
    {
      u := uploader.UploadFile(transfer, None, digestOf(transfer), config.checkDuplicate,
                               env.transferMime, None, env.headFault, env.faults);
      UploadedBucket(config, old(bucket.objects), bucket.objects, transfer, digestOf(transfer),
                     config.checkDuplicate, env, u);
    }

    /** The tracker call and the URL list update for what `upload_file`
        answered. */
    method Report(p: Path, u: Result<R2.UploadResult, string>, now: Time) returns (o: FileOutcome)
      requires Valid()
      modifies this, tracker
      ensures Valid() && fs == old(fs)
      ensures o == OutcomeOf(u)
      ensures tracker.State() == PT.Step(old(tracker.State()), TrackerCalls(p, o)[2], now)
      ensures uploadedUrls == old(uploadedUrls) + (if o.Uploaded? then [o.url] else [])
    {
      o := OutcomeOf(u);
      match o
      case Crashed(m) => tracker.FailFile(p, UNEXPECTED + m, now);
      case Duplicate(url) => tracker.DuplicateFile(p, url, now);
      case Uploaded(url) =>
        uploadedUrls := uploadedUrls + [url];
        tracker.FailFile(p, UNEXPECTED + COMPLETE_ARITY, now);
      case UploadFailed(m) => tracker.FailFile(p, m, now);
    }

    /** `process_and_upload_batch`, one file after the other. The error is
        the text of the `BatchProcessorError` raised. */
    method ProcessAndUploadBatch(files: seq<Path>, envs: nat -> FileEnv, digestOf: Path -> Option<string>,
                                 init: Option<R2.InitFault>, connectionFault: Option<R2.StoreFault>,
                                 now: Time)
      returns (err: Option<string>, ghost outs: seq<FileOutcome>, ghost transfers: seq<Path>,
               ghost buckets: seq<map<string, string>>)
      requires Valid() && forall i :: 0 <= i < |files| ==> ValidEnv(envs(i))
      modifies this, tracker, bucket
      ensures Valid()
      ensures files != [] ==>
                var t1 := PT.Step(old(tracker.State()), PT.Event.Initialize(files, StatOf(old(fs))), now);
                && (err.Some? ==> tracker.State() == PT.Step(t1, PT.Event.Finalize, now))
                && (err.None? ==> |outs| == |files|
                                  && tracker.State() == PT.Step(RunFiles(t1, files, outs, now), PT.Event.Finalize, now))
      ensures err.None? ==>
                && BatchSteps(config, old(fs), files, envs, digestOf, outs, transfers, buckets)
                && buckets[0] == old(bucket.objects) && bucket.objects == buckets[|files|]
                && uploadedUrls == old(uploadedUrls) + UploadedUrlsOf(outs)
      ensures files == [] ==>
                && err.None? && tracker.State() == old(tracker.State())
                && uploadedUrls == old(uploadedUrls) && fs == old(fs) && bucket.objects == old(bucket.objects)
      ensures files != [] ==> tracker.stats.totalFiles == |files| && tracker.stats.endTime == Some(now)
      ensures files != [] ==> (err.None? <==> init.None? && connectionFault.None?)
      ensures files != [] && init.Some? ==> err == Some(BATCH_FAILED + R2.InitMessage(init.value))
      ensures files != [] && init.None? && connectionFault.Some? && !connectionFault.value.ClientFault? ==>
                err == Some(BATCH_FAILED + NO_CONNECTION)
      ensures files != [] && init.None? && connectionFault.Some? && connectionFault.value.ClientFault? ==>
                var code := R2.ErrorField(connectionFault.value.error, "Code");
                err == Some(BATCH_FAILED + (if code.Err? then code.error else NO_CONNECTION))
      ensures err.Some? ==>
                && tracker.stats.processedFiles == old(tracker.stats.processedFiles)
                && uploadedUrls == old(uploadedUrls) && bucket.objects == old(bucket.objects)
      ensures err.None? ==>
                && tracker.stats.processedFiles == old(tracker.stats.processedFiles) + |files|
                && tracker.stats.uploadedFiles + tracker.stats.failedFiles
                   == old(tracker.stats.uploadedFiles) + old(tracker.stats.failedFiles) + |files|
                && |uploadedUrls| <= |old(uploadedUrls)| + |files|
      ensures fs == old(fs)
    {
      if files == [] {
        return None, [], [], [bucket.objects];
      }
      InitializeTracker(files, now);
      err, outs, transfers, buckets := ConnectAndProcess(files, envs, digestOf, init, connectionFault, now);
      tracker.Finalize(now);
    }

    /** The part of `process_and_upload_batch` inside `async with R2Uploader`:
        the connection test, then the files; the uploader is closed on the
        way out whatever happened. */
    method ConnectAndProcess(files: seq<Path>, envs: nat -> FileEnv, digestOf: Path -> Option<string>,
                             init: Option<R2.InitFault>, connectionFault: Option<R2.StoreFault>,
                             now: Time)
      returns (err: Option<string>, ghost outs: seq<FileOutcome>, ghost transfers: seq<Path>,
               ghost buckets: seq<map<string, string>>)
      requires Valid() && forall i :: 0 <= i < |files| ==> ValidEnv(envs(i))
      requires forall j :: 0 <= j < |files| ==> Str(files[j]) in tracker.State().progress
      modifies this, tracker, bucket
      ensures Valid() && fs == old(fs)
      ensures err.None? ==>
                && BatchSteps(config, old(fs), files, envs, digestOf, outs, transfers, buckets)
                && buckets[0] == old(bucket.objects) && bucket.objects == buckets[|files|]
                && tracker.State() == RunFiles(old(tracker.State()), files, outs, now)
                && uploadedUrls == old(uploadedUrls) + UploadedUrlsOf(outs)
      ensures tracker.stats.totalFiles == old(tracker.stats.totalFiles)
      ensures err.None? <==> init.None? && connectionFault.None?
      ensures init.Some? ==> err == Some(BATCH_FAILED + R2.InitMessage(init.value))
      ensures init.None? && connectionFault.Some? && !connectionFault.value.ClientFault? ==>
                err == Some(BATCH_FAILED + NO_CONNECTION)
      ensures init.None? && connectionFault.Some? && connectionFault.value.ClientFault? ==>
                var code := R2.ErrorField(connectionFault.value.error, "Code");
                err == Some(BATCH_FAILED + (if code.Err? then code.error else NO_CONNECTION))
      ensures err.Some? ==>
                && tracker.State() == old(tracker.State())
                && uploadedUrls == old(uploadedUrls) && bucket.objects == old(bucket.objects)
      ensures err.None? ==>
                && tracker.stats.processedFiles == old(tracker.stats.processedFiles) + |files|
                && tracker.stats.uploadedFiles + tracker.stats.failedFiles
                   == old(tracker.stats.uploadedFiles) + old(tracker.stats.failedFiles) + |files|
                && |uploadedUrls| <= |old(uploadedUrls)| + |files|
    {
      var uploader := new R2.R2Uploader(config, bucket);
      var connected := uploader.TestConnection(init, connectionFault);
      outs, transfers, buckets := [], [], [];
      if connected.Err? {
        err := Some(BATCH_FAILED + connected.error);
      } else if !connected.value {
        err := Some(BATCH_FAILED + NO_CONNECTION);
      } else {
        err := None;
        outs, transfers, buckets := ProcessFiles(files, uploader, envs, digestOf, now);
      }
      uploader.Close();
    }

    /** `progress_tracker.initialize(image_files)`, with the sizes read from
        the disk: every file has an entry and only the totals change. */
    method InitializeTracker(files: seq<Path>, now: Time)
      requires Valid()
      modifies tracker
      ensures Valid()
      ensures tracker.State() == PT.Step(old(tracker.State()), PT.Event.Initialize(files, StatOf(fs)), now)
      ensures forall j :: 0 <= j < |files| ==> Str(files[j]) in tracker.State().progress
      ensures tracker.stats == old(tracker.stats).(totalFiles := |files|, startTime := Some(now),
                                                   totalBytes := PT.TotalBytes(files, StatOf(fs)))
    {
      tracker.Initialize(files, StatOf(fs), now);
      PT.RegisterAllFacts(old(tracker.State()).(stats := old(tracker.State()).stats.(
                             totalFiles := |files|, startTime := Some(now), totalBytes := PT.TotalBytes(files, StatOf(fs)))),
                           files, StatOf(fs));
    }

    /** The files of a batch, one after the other, through one uploader: each
        file's outcome and the bucket it leaves are as `FileStep` gives them
        for the bucket the files before it left; the tracker gets every file's
        calls in order, and the URL list gains the URLs of the uploads that
        went through, in order. */
    method ProcessFiles(files: seq<Path>, uploader: R2.R2Uploader, envs: nat -> FileEnv,
                        digestOf: Path -> Option<string>, now: Time)
      returns (ghost outs: seq<FileOutcome>, ghost transfers: seq<Path>, ghost buckets: seq<map<string, string>>)
      requires Valid() && forall i :: 0 <= i < |files| ==> ValidEnv(envs(i))
      requires uploader.Valid() && uploader.hasClient
      requires uploader.bucket == bucket && uploader.config == config
      requires forall j :: 0 <= j < |files| ==> Str(files[j]) in tracker.State().progress
      modifies this, tracker, uploader, bucket
      ensures Valid() && uploader.Valid() && uploader.hasClient && fs == old(fs)
      ensures BatchSteps(config, old(fs), files, envs, digestOf, outs, transfers, buckets)
      ensures buckets[0] == old(bucket.objects) && bucket.objects == buckets[|files|]
      ensures tracker.State() == RunFiles(old(tracker.State()), files, outs, now)
      ensures uploadedUrls == old(uploadedUrls) + UploadedUrlsOf(outs)
      ensures tracker.order == old(tracker.order) && tracker.fileProgress.Keys == old(tracker.fileProgress.Keys)
      ensures tracker.stats.totalFiles == old(tracker.stats.totalFiles)
      ensures tracker.stats.processedFiles == old(tracker.stats.processedFiles) + |files|
      ensures tracker.stats.uploadedFiles + tracker.stats.failedFiles
              == old(tracker.stats.uploadedFiles) + old(tracker.stats.failedFiles) + |files|
      ensures tracker.stats.skippedFiles == old(tracker.stats.skippedFiles)
      ensures old(uploadedUrls) <= uploadedUrls && |uploadedUrls| <= |old(uploadedUrls)| + |files|
    {
      ghost var t0 := tracker.State();
      outs, transfers, buckets := [], [], [bucket.objects];
      var i := 0;
      while i < |files|
        invariant 0 <= i <= |files|
        invariant Valid() && uploader.Valid() && uploader.hasClient
        invariant uploader.bucket == bucket && uploader.config == config
        invariant fs == old(fs)
        invariant BatchSteps(config, old(fs), files[..i], envs, digestOf, outs, transfers, buckets)
        invariant buckets[0] == old(bucket.objects) && bucket.objects == buckets[i]
        invariant tracker.State() == RunFiles(t0, files[..i], outs, now)
        invariant uploadedUrls == old(uploadedUrls) + UploadedUrlsOf(outs)
      {
        var o, transfer := ProcessNext(files, i, uploader, envs, digestOf, now, t0, old(uploadedUrls), old(fs),
                                       outs, transfers, buckets);
        outs, transfers, buckets := outs + [o], transfers + [transfer], buckets + [bucket.objects];
        i := i + 1;
      }
      assert files[..|files|] == files;
      RunFilesCounts(t0, files, outs, now);
      UploadedUrlsBound(outs);
    }

    /** File `i` of `ProcessFiles`, with the batch's bookkeeping. */
    method ProcessNext(files: seq<Path>, i: nat, uploader: R2.R2Uploader, envs: nat -> FileEnv,
                       digestOf: Path -> Option<string>, now: Time, ghost t0: PT.Tracker, ghost urls0: seq<string>,
                       ghost fs0: FileSystem, ghost outs: seq<FileOutcome>, ghost transfers: seq<Path>,
                       ghost buckets: seq<map<string, string>>)
      returns (o: FileOutcome, ghost transfer: Path)
      requires i < |files| && Valid() && forall k :: 0 <= k < |files| ==> ValidEnv(envs(k))
      requires uploader.Valid() && uploader.hasClient
      requires uploader.bucket == bucket && uploader.config == config
      requires fs == fs0
      requires BatchSteps(config, fs0, files[..i], envs, digestOf, outs, transfers, buckets)
      requires bucket.objects == buckets[i]
      requires tracker.State() == RunFiles(t0, files[..i], outs, now)
      requires uploadedUrls == urls0 + UploadedUrlsOf(outs)
      modifies this, tracker, uploader, bucket
      ensures Valid() && uploader.Valid() && uploader.hasClient && fs == fs0
      ensures BatchSteps(config, fs0, files[..i + 1], envs, digestOf, outs + [o], transfers + [transfer],
                         buckets + [bucket.objects])
      ensures tracker.State() == RunFiles(t0, files[..i + 1], outs + [o], now)
      ensures uploadedUrls == urls0 + UploadedUrlsOf(outs + [o])
    {
      o, transfer := ProcessSingleFile(files[i], uploader, envs(i), digestOf, now);
      BatchStepsSnoc(config, fs0, files, envs, digestOf, outs, transfers, buckets, i, o, transfer, bucket.objects);
      RunFilesSnoc(t0, files, outs, i, o, now);
      UploadedUrlsNext(urls0, outs, o, old(uploadedUrls));
    }

    /** `copy_images_to_transfer`: each valid file copied to a fresh name in
        the transfer directory; invalid files and failed copies are skipped.
        Copies are fresh, pairwise distinct and the same size as their
        originals, and nothing that existed is touched. */
    method CopyImagesToTransfer(files: seq<Path>, envs: nat -> FileEnv, digestOf: Path -> Option<string>)
      returns (copied: seq<(Path, Path)>)
      requires Valid() && forall i :: 0 <= i < |files| ==> ValidEnv(envs(i))
      modifies this
      ensures Valid() && uploadedUrls == old(uploadedUrls)
      ensures |copied| <= |files|
      ensures forall j :: 0 <= j < |copied| ==> Copied(old(fs), fs, files, copied[j])
      ensures forall j, k :: 0 <= j < k < |copied| ==> copied[j].1 != copied[k].1
      ensures fs.dirs == old(fs).dirs && Grows(old(fs), fs)
    {
      copied := [];
      var i := 0;
      while i < |files|
        invariant 0 <= i <= |files| && Valid() && uploadedUrls == old(uploadedUrls)
        invariant |copied| <= i
        invariant fs.dirs == old(fs).dirs && Grows(old(fs), fs)
        invariant forall j :: 0 <= j < |copied| ==> Copied(old(fs), fs, files, copied[j])
        invariant forall j, k :: 0 <= j < k < |copied| ==> copied[j].1 != copied[k].1
      {
        ghost var before := fs;
        var t := CopyOne(files[i], envs(i), digestOf);
        if t.Some? {
          forall j | 0 <= j < |copied|
            ensures Copied(old(fs), fs, files, copied[j]) && copied[j].1 != t.value
          {
            assert Copied(old(fs), before, files, copied[j]);
          }
          copied := copied + [(files[i], t.value)];
        }
        i := i + 1;
      }
    }

    /** One iteration of `copy_images_to_transfer`. */
    method CopyOne(p: Path, env: FileEnv, digestOf: Path -> Option<string>) returns (t: Option<Path>)
      requires Valid() && ValidEnv(env)
      modifies this
      ensures Valid() && uploadedUrls == old(uploadedUrls) && fs.dirs == old(fs).dirs
      ensures t.Some? <==> ValidateFile(old(fs), p, config, env.mime).0 && env.copyOk
      ensures t.None? ==> fs == old(fs)
      ensures t.Some? ==>
                && p in old(fs).files && Parent(t.value) == TRANSFER_DIR && !Exists(old(fs), t.value)
                && fs.files == old(fs).files[t.value := old(fs).files[p]]
    {
      var v := ValidateFile(fs, p, config, env.mime);
      if !v.0 {
        return None;
      }
      var transfer := TransferPath(p, env, digestOf);
      if !env.copyOk {
        return None;
      }
      fs := fs.(files := fs.files[transfer := fs.files[p]]);
      return Some(transfer);
    }

    /** `get_uploaded_urls`: a copy of the collected URLs. */
    method GetUploadedUrls() returns (r: seq<string>)
      ensures r == uploadedUrls
    {
      r := uploadedUrls;
    }

    /** `export_results_to_csv`: the tracker has no `export_to_csv`, so the
        `AttributeError` is caught and the answer is always None. */
    method ExportResultsToCsv(csvPath: Option<Path>) returns (r: Option<Path>)
      ensures r.None?
    {
      r := None;
    }

    /** `scan_images`: the valid files below the original directory, sorted. */
    method ScanImages(listing: seq<Path>, mimeOf: Path -> Option<string>) returns (r: seq<Path>)
      requires Valid() && IsListingOf(fs, ORIGINAL_DIR, listing)
      ensures Exists(fs, ORIGINAL_DIR) ==>
                && SortedPaths(r)
                && (forall q :: q in r <==> Accepted(fs, ORIGINAL_DIR, config, mimeOf, q))
      ensures !Exists(fs, ORIGINAL_DIR) ==> r == []
    {
      r := FileUtils.ScanImages(fs, ORIGINAL_DIR, listing, config, mimeOf);
    }

    /** `get_processing_summary`, from the tracker. */
    method GetProcessingSummary() returns (r: PT.Summary)
      requires Valid()
      ensures r.processedFiles == r.uploadedFiles + r.failedFiles + r.skippedFiles
      ensures r.totalFiles == tracker.stats.totalFiles && r.successRate == PT.SuccessRate(tracker.stats)
    {
      r := tracker.GetSummary();
    }

    /** `get_uploaded_files_with_urls`, from the tracker. */
    method GetUploadedFilesWithUrls() returns (r: seq<(string, string)>)
      requires Valid()
      ensures r == PT.UploadedWithUrls(tracker.order, tracker.fileProgress)
    {
      r := tracker.GetUploadedFilesWithUrls();
    }

    /** `get_duplicate_files`, from the tracker. */
    method GetDuplicateFiles() returns (r: seq<string>)
      requires Valid()
      ensures r == tracker.duplicateFiles
    {
      r := tracker.GetDuplicateFiles();
    }

    /** `get_failed_files`, from the tracker. */
    method GetFailedFiles() returns (r: seq<PT.FileProgress>)
      requires Valid()
      ensures forall x :: x in r <==>
                (exists k :: k in tracker.order && tracker.fileProgress[k] == x && x.status == PT.Failed)
    {
      r := tracker.GetFailedFiles();
    }
  }

  /** Every file of `a` is in `b` with the same size. */
  ghost predicate Grows(a: FileSystem, b: FileSystem) {
    forall q :: q in a.files ==> q in b.files && b.files[q] == a.files[q]
  }

  /** `(original, copy)` is a copy made from `before`'s state into `after`. */
  ghost predicate Copied(before: FileSystem, after: FileSystem, files: seq<Path>, c: (Path, Path)) {
    && c.0 in files && c.0 in after.files && c.1 in after.files
    && after.files[c.1] == after.files[c.0]
    && Parent(c.1) == TRANSFER_DIR && !Exists(before, c.1)
  }

  /** `f.stat().st_size` for the paths that exist; a directory counts 0. */
  function StatOf(fs: FileSystem): (m: map<Path, nat>)
    ensures forall q :: q in m <==> Exists(fs, q)
    ensures forall q :: q in fs.files ==> q in m && m[q] == fs.files[q]
  {
    map q | q in fs.files.Keys + fs.dirs :: if q in fs.files then fs.files[q] else 0
  }

  /** What `UploadFile`'s contract says about the bucket, in the terms of the
      outcome `ProcessSingleFile` reports. */
  lemma UploadedBucket(c: Settings, before: map<string, string>, after: map<string, string>, transfer: Path,
                       digest: Option<string>, checkDuplicate: bool, env: FileEnv,
                       u: Result<R2.UploadResult, string>)
    requires
      match R2.Decide(c, before, transfer, None, digest, checkDuplicate, env.headFault)
      case Raise(t) => u == Err(t) && after == before
      case Finish(r) => u == Ok(r) && after == before
      case Upload(key) =>
        var o := R2.Retry(c, transfer, key, env.faults);
        && u == Ok(R2.UploadResult(o.ok, o.message, false))
        && after == if o.ok then before[key := R2.ContentType(env.transferMime)] else before
    ensures u.Ok? && u.value.success && !u.value.duplicate ==>
              exists key :: u.value.message == R2.ObjectUrl(c, key)
                            && after == before[key := R2.ContentType(env.transferMime)]
    ensures !(u.Ok? && u.value.success && !u.value.duplicate) ==> after == before
  {
    var d := R2.Decide(c, before, transfer, None, digest, checkDuplicate, env.headFault);
    if d.Upload? {
      var o := R2.Retry(c, transfer, d.key, env.faults);
      if o.ok {
        R2.RetrySchedule(c, transfer, d.key, env.faults, 0, "");
        R2.RetryStopsAtFirstResult(c, transfer, d.key, env.faults, 0, "");
        assert o.message == R2.ObjectUrl(c, d.key);
      }
    } else if d.Finish? && d.result.success {
      assert d.result.duplicate;
    }
  }
}
