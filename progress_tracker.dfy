/** `ProgressTracker`: per-file status entries keyed by the path's text, and
    counters that every terminal call bumps. The progress bar, its throttling
    and the log lines are display only and are not modelled; the clock is a
    parameter and `stat` is a map from the existing paths to their sizes. */
module ProgressTracker {
  import opened Wrappers
  import opened Paths
  import opened Models

  datatype Status = Pending | Processing | Uploading | Completed | Failed | Skipped | Duplicate

  /** `FileProgress`. */
  datatype FileProgress = FileProgress(
    filePath: Path, status: Status, errorMessage: string,
    startTime: Option<Time>, endTime: Option<Time>,
    fileSize: nat, newFilename: string, uploadUrl: string)

  /** `ProgressStats`. */
  datatype ProgressStats = ProgressStats(
    totalFiles: nat, processedFiles: nat, uploadedFiles: nat, failedFiles: nat, skippedFiles: nat,
    startTime: Option<Time>, endTime: Option<Time>, totalBytes: nat, processedBytes: nat)

  const ZERO_STATS := ProgressStats(0, 0, 0, 0, 0, None, None, 0, 0)
  const DUPLICATE_MESSAGE := "檔案已存在，跳過上傳"

  /** Every processed file was uploaded, failed or skipped. */
  predicate Balanced(s: ProgressStats) {
    s.processedFiles == s.uploadedFiles + s.failedFiles + s.skippedFiles
  }

  /** `success_rate`, exact: the float rounding is not modelled. */
  function SuccessRate(s: ProgressStats): (r: real)
    ensures s.totalFiles == 0 ==> r == 0.0
    ensures r >= 0.0
    ensures s.totalFiles > 0 ==> r * (s.totalFiles as real) == (s.uploadedFiles as real) * 100.0
  {
    if s.totalFiles == 0 then 0.0
    else (s.uploadedFiles as real / s.totalFiles as real) * 100.0
  }

  /** The tracker's state: the counters, the entries in their dictionary's
      insertion order, and the names reported as duplicates. */
  datatype Tracker = Tracker(stats: ProgressStats, order: seq<string>,
                             progress: map<string, FileProgress>, duplicates: seq<string>)

  const EMPTY := Tracker(ZERO_STATS, [], map[], [])

  /** The dictionary's keys, once each, in insertion order. */
  predicate WellFormed(t: Tracker) {
    && (forall i, j :: 0 <= i < j < |t.order| ==> t.order[i] != t.order[j])
    && (forall k :: k in t.progress ==> k in t.order)
    && (forall i :: 0 <= i < |t.order| ==> t.order[i] in t.progress)
  }

  /** The calls a batch makes on the tracker. */
  datatype Event =
    | Initialize(files: seq<Path>, stat: map<Path, nat>)
    | StartFileProcessing(path: Path)
    | StartFileUploading(path: Path)
    | CompleteFile(path: Path, newFilename: string, uploadUrl: string)
    | FailFile(path: Path, errorMessage: string)
    | SkipFile(path: Path, reason: string)
    | DuplicateFile(path: Path, uploadUrl: string)
    | Finalize

  /** `file_path.stat().st_size if file_path.exists() else 0`. */
  function SizeOf(stat: map<Path, nat>, p: Path): nat {
    if p in stat then stat[p] else 0
  }

  /** `sum(f.stat().st_size for f in files if f.exists())`: every occurrence counts. */
  function TotalBytes(files: seq<Path>, stat: map<Path, nat>): nat {
    if files == [] then 0 else TotalBytes(files[..|files| - 1], stat) + SizeOf(stat, files[|files| - 1])
  }

  /** One iteration of `initialize`'s loop: a fresh pending entry for the
      file's path text, replacing any entry already there (which keeps its
      place in the order). */
  function Register(t: Tracker, f: Path, stat: map<Path, nat>): (r: Tracker)
    ensures r.stats == t.stats && r.duplicates == t.duplicates
    ensures r.progress == t.progress[Str(f) := FileProgress(f, Pending, "", None, None, SizeOf(stat, f), "", "")]
    ensures WellFormed(t) ==> WellFormed(r)
  {
    var k := Str(f);
    var order := if k in t.progress then t.order else t.order + [k];
    t.(order := order,
       progress := t.progress[k := FileProgress(f, Pending, "", None, None, SizeOf(stat, f), "", "")])
  }

  /** `initialize`'s loop over the whole list. */
  function RegisterAll(t: Tracker, files: seq<Path>, stat: map<Path, nat>): (r: Tracker)
  {
    if files == [] then t
    else Register(RegisterAll(t, files[..|files| - 1], stat), files[|files| - 1], stat)
  }

  /** Registering keeps the state well formed, leaves the counters alone, and
      the entries are exactly the old ones plus one per path text. */
  lemma {:induction false} RegisterAllFacts(t: Tracker, files: seq<Path>, stat: map<Path, nat>)
    requires WellFormed(t)
    ensures var r := RegisterAll(t, files, stat);
            && WellFormed(r) && r.stats == t.stats && r.duplicates == t.duplicates
            && (forall k :: k in r.progress <==> k in t.progress || exists f :: f in files && Str(f) == k)
  {
    if files != [] {
      var init := files[..|files| - 1];
      var f := files[|files| - 1];
      RegisterAllFacts(t, init, stat);
      var r := RegisterAll(t, files, stat);
      forall k ensures k in r.progress <==> k in t.progress || exists g :: g in files && Str(g) == k {
        if k == Str(f) {
          assert f in files;
        } else {
          assert (exists g :: g in files && Str(g) == k) <==> (exists g :: g in init && Str(g) == k) by {
            assert forall g :: g in files <==> g in init || g == f;
          }
        }
      }
    }
  }

  /** The entry for a path text is the one made for the last file with that
      text; earlier files with the same text are overwritten. */
  lemma {:induction false} LastRegistrationWins(t: Tracker, files: seq<Path>, stat: map<Path, nat>, i: nat)
    requires i < |files|
    requires forall j :: i < j < |files| ==> Str(files[j]) != Str(files[i])
    ensures Str(files[i]) in RegisterAll(t, files, stat).progress
    ensures RegisterAll(t, files, stat).progress[Str(files[i])]
            == FileProgress(files[i], Pending, "", None, None, SizeOf(stat, files[i]), "", "")
  {
    if i < |files| - 1 {
      var init := files[..|files| - 1];
      assert init[i] == files[i];
      assert forall j :: i < j < |init| ==> init[j] == files[j];
      LastRegistrationWins(t, init, stat, i);
    }
  }

  /** The state change of one call. The terminal calls find the entry by the
      path's text, do nothing for a path that was never registered, and do not
      look at the entry's current status. */
  function Step(t: Tracker, e: Event, now: Time): (r: Tracker)
  {
    match e
    case Initialize(files, stat) =>
      var s := t.stats.(totalFiles := |files|, startTime := Some(now), totalBytes := TotalBytes(files, stat));
      RegisterAll(t.(stats := s), files, stat)
    case Finalize =>
      t.(stats := t.stats.(endTime := Some(now)))
    case StartFileProcessing(p) =>
      if Str(p) !in t.progress then t
      else
        var fp := t.progress[Str(p)];
        t.(progress := t.progress[Str(p) := fp.(status := Processing, startTime := Some(now))])
    case StartFileUploading(p) =>
      if Str(p) !in t.progress then t
      else
        var fp := t.progress[Str(p)];
        t.(progress := t.progress[Str(p) := fp.(status := Uploading)])
    case CompleteFile(p, name, url) =>
      if Str(p) !in t.progress then t
      else
        var fp := t.progress[Str(p)];
        var s := t.stats;
        t.(progress := t.progress[Str(p) := fp.(status := Completed, endTime := Some(now),
                                                newFilename := name, uploadUrl := url)],
           stats := s.(processedFiles := s.processedFiles + 1, uploadedFiles := s.uploadedFiles + 1,
                       processedBytes := s.processedBytes + fp.fileSize))
    case FailFile(p, msg) =>
      if Str(p) !in t.progress then t
      else
        var fp := t.progress[Str(p)];
        var s := t.stats;
        t.(progress := t.progress[Str(p) := fp.(status := Failed, endTime := Some(now), errorMessage := msg)],
           stats := s.(processedFiles := s.processedFiles + 1, failedFiles := s.failedFiles + 1))
    case SkipFile(p, reason) =>
      if Str(p) !in t.progress then t
      else
        var fp := t.progress[Str(p)];
        var s := t.stats;
        t.(progress := t.progress[Str(p) := fp.(status := Skipped, endTime := Some(now), errorMessage := reason)],
           stats := s.(processedFiles := s.processedFiles + 1, skippedFiles := s.skippedFiles + 1))
    case DuplicateFile(p, url) =>
      if Str(p) !in t.progress then t
      else
        var fp := t.progress[Str(p)];
        var s := t.stats;
        t.(progress := t.progress[Str(p) := fp.(status := Duplicate, endTime := Some(now), uploadUrl := url,
                                                errorMessage := DUPLICATE_MESSAGE)],
           duplicates := t.duplicates + [Name(p)],
           stats := s.(processedFiles := s.processedFiles + 1, uploadedFiles := s.uploadedFiles + 1,
                       processedBytes := s.processedBytes + fp.fileSize))
  }

  /** A sequence of calls, each with its clock reading. */
  function Run(t: Tracker, calls: seq<(Event, Time)>): Tracker
  {
    if calls == [] then t
    else Step(Run(t, calls[..|calls| - 1]), calls[|calls| - 1].0, calls[|calls| - 1].1)
  }

  /** Every call keeps the entries well formed and the counters balanced. */
  lemma StepKeepsInvariant(t: Tracker, e: Event, now: Time)
    requires WellFormed(t) && Balanced(t.stats)
    ensures WellFormed(Step(t, e, now)) && Balanced(Step(t, e, now).stats)
  {
    if e.Initialize? {
      RegisterAllFacts(t.(stats := t.stats.(totalFiles := |e.files|, startTime := Some(now),
                                             totalBytes := TotalBytes(e.files, e.stat))), e.files, e.stat);
    }
  }

  /** Starting from nothing, `processed = uploaded + failed + skipped` after
      any sequence of calls. */
  lemma {:induction false} RunKeepsBalance(calls: seq<(Event, Time)>)
    ensures WellFormed(Run(EMPTY, calls)) && Balanced(Run(EMPTY, calls).stats)
  {
    if calls != [] {
      RunKeepsBalance(calls[..|calls| - 1]);
      StepKeepsInvariant(Run(EMPTY, calls[..|calls| - 1]), calls[|calls| - 1].0, calls[|calls| - 1].1);
    }
  }

  /** Each name in `duplicate_files` came with one added to `uploaded`, and
      no call lowers `uploaded`: there are never more duplicate names than
      uploaded files. */
  lemma {:induction false} RunDuplicatesBounded(calls: seq<(Event, Time)>)
    ensures |Run(EMPTY, calls).duplicates| <= Run(EMPTY, calls).stats.uploadedFiles
  {
    if calls != [] {
      var t := Run(EMPTY, calls[..|calls| - 1]);
      var e := calls[|calls| - 1].0;
      var now := calls[|calls| - 1].1;
      RunDuplicatesBounded(calls[..|calls| - 1]);
      RunKeepsBalance(calls[..|calls| - 1]);
      if e.Initialize? {
        RegisterAllFacts(t.(stats := t.stats.(totalFiles := |e.files|, startTime := Some(now),
                                               totalBytes := TotalBytes(e.files, e.stat))), e.files, e.stat);
      }
    }
  }

  /** A path that was never registered leaves the tracker as it was. */
  lemma UnregisteredPathIsNoOp(t: Tracker, e: Event, now: Time)
    requires !e.Initialize? && !e.Finalize?
    requires Str(e.path) !in t.progress
    ensures Step(t, e, now) == t
  {
  }

  /** A terminal call adds one to `processed` and one to its own counter,
      whatever the entry's status was, so completing a file twice counts it
      twice. */
  lemma TerminalCallsCountAgain(t: Tracker, p: Path, name: string, url: string, now1: Time, now2: Time)
    requires Str(p) in t.progress
    ensures var t2 := Step(Step(t, CompleteFile(p, name, url), now1), CompleteFile(p, name, url), now2);
            && t2.stats.processedFiles == t.stats.processedFiles + 2
            && t2.stats.uploadedFiles == t.stats.uploadedFiles + 2
            && t2.stats.processedBytes == t.stats.processedBytes + 2 * t.progress[Str(p)].fileSize
  {
  }

  /** `initialize` counts every list element but keeps one entry per path
      text: a path listed twice is one entry and two files. */
  lemma RepeatedPathCollapses(p: Path, stat: map<Path, nat>, now: Time)
    ensures var t := Step(EMPTY, Initialize([p, p], stat), now);
            && t.stats.totalFiles == 2 && t.order == [Str(p)] && t.progress.Keys == {Str(p)}
            && t.stats.totalBytes == 2 * SizeOf(stat, p)
  {
    var k := Str(p);
    var tb := TotalBytes([p, p], stat);
    assert [p, p][..1] == [p] && [p][..0] == [];
    assert TotalBytes([p], stat) == SizeOf(stat, p);
    assert tb == 2 * SizeOf(stat, p);
    var s0 := EMPTY.(stats := ZERO_STATS.(totalFiles := 2, startTime := Some(now), totalBytes := tb));
    var t1 := Register(s0, p, stat);
    assert t1.order == [k];
    assert RegisterAll(s0, [p], stat) == t1;
    var t2 := Register(t1, p, stat);
    assert t2.order == [k];
    assert t2.progress.Keys == {k};
    assert RegisterAll(s0, [p, p], stat) == t2;
  }

  /** `get_failed_files`: the failed entries, in the dictionary's order. */
  function FailedFiles(order: seq<string>, progress: map<string, FileProgress>): (r: seq<FileProgress>)
    requires forall k :: k in order ==> k in progress
    ensures forall x :: x in r ==> x.status == Failed
    ensures forall k :: k in order && progress[k].status == Failed ==> progress[k] in r
    ensures |r| <= |order|
  {
    if order == [] then []
    else
      var init := FailedFiles(order[..|order| - 1], progress);
      var fp := progress[order[|order| - 1]];
      if fp.status == Failed then init + [fp] else init
  }

  /** `get_uploaded_files_with_urls`: (name, URL) of the completed and
      duplicate entries whose URL is not empty, in the dictionary's order. */
  function UploadedWithUrls(order: seq<string>, progress: map<string, FileProgress>): (r: seq<(string, string)>)
    requires forall k :: k in order ==> k in progress
    ensures forall x :: x in r ==> x.1 != ""
    ensures forall k :: k in order && progress[k].status in {Completed, Duplicate} && progress[k].uploadUrl != ""
                ==> (Name(progress[k].filePath), progress[k].uploadUrl) in r
    ensures |r| <= |order|
  {
    if order == [] then []
    else
      var init := UploadedWithUrls(order[..|order| - 1], progress);
      var fp := progress[order[|order| - 1]];
      if fp.status in {Completed, Duplicate} && fp.uploadUrl != "" then init + [(Name(fp.filePath), fp.uploadUrl)]
      else init
  }

  /** Every pair in the list comes from a completed or duplicate entry. */
  lemma {:induction false} UploadedComeFromEntries(order: seq<string>, progress: map<string, FileProgress>)
    requires forall k :: k in order ==> k in progress
    ensures forall x :: x in UploadedWithUrls(order, progress) ==>
              exists k :: k in order && progress[k].status in {Completed, Duplicate}
                          && x == (Name(progress[k].filePath), progress[k].uploadUrl)
  {
    if order != [] {
      var init := order[..|order| - 1];
      UploadedComeFromEntries(init, progress);
      assert forall k :: k in init ==> k in order;
    }
  }

  /** Every failed entry in the list is one of the tracker's entries. */
  lemma {:induction false} FailedComeFromEntries(order: seq<string>, progress: map<string, FileProgress>)
    requires forall k :: k in order ==> k in progress
    ensures forall x :: x in FailedFiles(order, progress) ==> exists k :: k in order && progress[k] == x
  {
    if order != [] {
      var init := order[..|order| - 1];
      FailedComeFromEntries(init, progress);
      assert forall k :: k in init ==> k in order;
    }
  }

  /** `get_summary` without the clock-derived `elapsed_time`. */
  datatype Summary = Summary(
    totalFiles: nat, processedFiles: nat, uploadedFiles: nat, failedFiles: nat, skippedFiles: nat,
    successRate: real, totalBytes: nat, processedBytes: nat,
    startTime: Option<Time>, endTime: Option<Time>)

  /** The tracker object. */
  class ProgressTracker {
    const showProgress: bool
    const updateInterval: int
    var stats: ProgressStats
    var order: seq<string>
    var fileProgress: map<string, FileProgress>
    var duplicateFiles: seq<string>

    ghost function State(): Tracker
      reads this
    {
      Tracker(stats, order, fileProgress, duplicateFiles)
    }

    ghost predicate Valid()
      reads this
    {
      WellFormed(State()) && Balanced(stats)
    }

    constructor (showProgress: bool, updateInterval: int)
      ensures State() == EMPTY
      ensures this.showProgress == showProgress && this.updateInterval == updateInterval
    {
      this.showProgress := showProgress;
      this.updateInterval := updateInterval;
      stats := ZERO_STATS;
      order := [];
      fileProgress := map[];
      duplicateFiles := [];
    }

    /** `initialize`: the counters for the new list, then one entry per file. */
    method Initialize(files: seq<Path>, stat: map<Path, nat>, now: Time)
      requires Valid()
      modifies this
      ensures Valid()
      ensures State() == Step(old(State()), Event.Initialize(files, stat), now)
    {
      ghost var t0 := old(State());
      stats := stats.(totalFiles := |files|, startTime := Some(now), totalBytes := TotalBytes(files, stat));
      ghost var base := State();
      var i := 0;
      while i < |files|
        invariant 0 <= i <= |files|
        invariant State() == RegisterAll(base, files[..i], stat)
      {
        assert files[..i + 1][..i] == files[..i];
        var f := files[i];
        var k := Str(f);
        if k !in fileProgress {
          order := order + [k];
        }
        fileProgress := fileProgress[k := FileProgress(f, Pending, "", None, None, SizeOf(stat, f), "", "")];
        i := i + 1;
      }
      assert files[..|files|] == files;
      StepKeepsInvariant(t0, Event.Initialize(files, stat), now);
    }

    /** Applies a per-file call to the entry of `p`, for the methods below. */
    method Apply(e: Event, now: Time)
      requires Valid() && !e.Initialize? && !e.Finalize?
      modifies this
      ensures Valid()
      ensures State() == Step(old(State()), e, now)
    {
      StepKeepsInvariant(State(), e, now);
      var k := Str(e.path);
      if k !in fileProgress {
        return;
      }
      var fp := fileProgress[k];
      match e
      case StartFileProcessing(_) =>
        fileProgress := fileProgress[k := fp.(status := Processing, startTime := Some(now))];
      case StartFileUploading(_) =>
        fileProgress := fileProgress[k := fp.(status := Uploading)];
      case CompleteFile(_, name, url) =>
        fileProgress := fileProgress[k := fp.(status := Completed, endTime := Some(now),
                                              newFilename := name, uploadUrl := url)];
        stats := stats.(processedFiles := stats.processedFiles + 1, uploadedFiles := stats.uploadedFiles + 1,
                        processedBytes := stats.processedBytes + fp.fileSize);
      case FailFile(_, msg) =>
        fileProgress := fileProgress[k := fp.(status := Failed, endTime := Some(now), errorMessage := msg)];
        stats := stats.(processedFiles := stats.processedFiles + 1, failedFiles := stats.failedFiles + 1);
      case SkipFile(_, reason) =>
        fileProgress := fileProgress[k := fp.(status := Skipped, endTime := Some(now), errorMessage := reason)];
        stats := stats.(processedFiles := stats.processedFiles + 1, skippedFiles := stats.skippedFiles + 1);
      case DuplicateFile(_, url) =>
        fileProgress := fileProgress[k := fp.(status := Duplicate, endTime := Some(now), uploadUrl := url,
                                              errorMessage := DUPLICATE_MESSAGE)];
        duplicateFiles := duplicateFiles + [Name(e.path)];
        stats := stats.(processedFiles := stats.processedFiles + 1, uploadedFiles := stats.uploadedFiles + 1,
                        processedBytes := stats.processedBytes + fp.fileSize);
    }

    /** `start_file_processing`. */
    method StartFileProcessing(p: Path, now: Time)
      requires Valid()
      modifies this
      ensures Valid() && State() == Step(old(State()), Event.StartFileProcessing(p), now)
    {
      Apply(Event.StartFileProcessing(p), now);
    }

    /** `start_file_uploading`. */
    method StartFileUploading(p: Path, now: Time)
      requires Valid()
      modifies this
      ensures Valid() && State() == Step(old(State()), Event.StartFileUploading(p), now)
    {
      Apply(Event.StartFileUploading(p), now);
    }

    /** `complete_file`. */
    method CompleteFile(p: Path, newFilename: string, uploadUrl: string, now: Time)
      requires Valid()
      modifies this
      ensures Valid() && State() == Step(old(State()), Event.CompleteFile(p, newFilename, uploadUrl), now)
    {
      Apply(Event.CompleteFile(p, newFilename, uploadUrl), now);
    }

    /** `fail_file`. */
    method FailFile(p: Path, errorMessage: string, now: Time)
      requires Valid()
      modifies this
      ensures Valid() && State() == Step(old(State()), Event.FailFile(p, errorMessage), now)
    {
      Apply(Event.FailFile(p, errorMessage), now);
    }

    /** `skip_file`. */
    method SkipFile(p: Path, reason: string, now: Time)
      requires Valid()
      modifies this
      ensures Valid() && State() == Step(old(State()), Event.SkipFile(p, reason), now)
    {
      Apply(Event.SkipFile(p, reason), now);
    }

    /** `duplicate_file`. */
    method DuplicateFile(p: Path, uploadUrl: string, now: Time)
      requires Valid()
      modifies this
      ensures Valid() && State() == Step(old(State()), Event.DuplicateFile(p, uploadUrl), now)
    {
      Apply(Event.DuplicateFile(p, uploadUrl), now);
    }

    /** `finalize`. */
    method Finalize(now: Time)
      requires Valid()
      modifies this
      ensures Valid() && State() == Step(old(State()), Event.Finalize, now)
      ensures stats == old(stats).(endTime := Some(now))
    {
      stats := stats.(endTime := Some(now));
    }

    /** `get_failed_files`. */
    method GetFailedFiles() returns (r: seq<FileProgress>)
      requires Valid()
      ensures r == FailedFiles(order, fileProgress)
      ensures forall x :: x in r <==> exists k :: k in order && fileProgress[k] == x && x.status == Failed
    {
      FailedComeFromEntries(order, fileProgress);
      r := FailedFiles(order, fileProgress);
    }

    /** `get_duplicate_files`: a copy of the names. */
    method GetDuplicateFiles() returns (r: seq<string>)
      requires Valid()
      ensures r == duplicateFiles
    {
      r := duplicateFiles;
    }

    /** `get_uploaded_files_with_urls`: the loop over the entries. */
    method GetUploadedFilesWithUrls() returns (r: seq<(string, string)>)
      requires Valid()
      ensures r == UploadedWithUrls(order, fileProgress)
      ensures forall x :: x in r <==>
                (exists k :: k in order && fileProgress[k].status in {Completed, Duplicate}
                             && fileProgress[k].uploadUrl != ""
                             && x == (Name(fileProgress[k].filePath), fileProgress[k].uploadUrl))
    {
      r := [];
      var i := 0;
      while i < |order|
        invariant 0 <= i <= |order|
        invariant r == UploadedWithUrls(order[..i], fileProgress)
      {
        assert order[..i + 1][..i] == order[..i];
        var fp := fileProgress[order[i]];
        if fp.status in {Completed, Duplicate} && fp.uploadUrl != "" {
          r := r + [(Name(fp.filePath), fp.uploadUrl)];
        }
        i := i + 1;
      }
      assert order[..|order|] == order;
      UploadedComeFromEntries(order, fileProgress);
    }

    /** `get_summary`. */
    method GetSummary() returns (r: Summary)
      requires Valid()
      ensures r.processedFiles == r.uploadedFiles + r.failedFiles + r.skippedFiles
      ensures r.totalFiles == stats.totalFiles && r.uploadedFiles == stats.uploadedFiles
      ensures r.failedFiles == stats.failedFiles && r.skippedFiles == stats.skippedFiles
      ensures r.successRate == SuccessRate(stats)
      ensures r.totalBytes == stats.totalBytes && r.processedBytes == stats.processedBytes
      ensures r.startTime == stats.startTime && r.endTime == stats.endTime
    {
      r := Summary(stats.totalFiles, stats.processedFiles, stats.uploadedFiles, stats.failedFiles,
                   stats.skippedFiles, SuccessRate(stats), stats.totalBytes, stats.processedBytes,
                   stats.startTime, stats.endTime);
    }
  }
}
