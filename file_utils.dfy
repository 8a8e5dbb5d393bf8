/** `FileUtils`: the image-type test, the file validation chain, the directory
    scan and the search for a free file name, over a file system given as a
    value. `mimetypes.guess_type` is the caller's oracle. */
module FileUtils {
  import opened Wrappers
  import opened Text
  import opened Paths
  import opened Config

  /** The file system as far as these helpers look at it: the regular files
      with their sizes, and the directories. */
  datatype FileSystem = FileSystem(files: map<Path, nat>, dirs: set<Path>)

  /** `p.exists()`. */
  predicate Exists(fs: FileSystem, p: Path) {
    p in fs.files || p in fs.dirs
  }

  /** `p.is_file()`. */
  predicate IsFile(fs: FileSystem, p: Path) {
    p in fs.files
  }

  /** Every path that exists. */
  function Taken(fs: FileSystem): (s: set<Path>)
    ensures forall p :: p in s <==> Exists(fs, p)
  {
    fs.files.Keys + fs.dirs
  }

  // ---------------------------------------------------------------- image type

  const DEFAULT_FORMATS: seq<string> := ["jpg", "jpeg", "png", "gif", "bmp", "tiff", "webp"]

  /** `file_path.suffix.lower().lstrip('.')`. */
  function Extension(p: Path): (e: string)
    ensures Suffix(p) == [] ==> e == []
    ensures Suffix(p) != [] ==> e == Lower(Suffix(p))[1..]
  {
    var s := Lower(Suffix(p));
    assert s != [] ==> s[0] == '.' && LStrip(s[1..], {'.'}) == s[1..];
    LStrip(s, {'.'})
  }

  /** `mime_type and not mime_type.startswith('image/')`. */
  predicate KnownNonImage(mime: Option<string>) {
    mime.Some? && mime.value != [] && !StartsWith(mime.value, "image/")
  }

  /** `is_image_file`, given what `mimetypes` guesses for the path. */
  function IsImageFile(p: Path, formats: Option<seq<string>>, mime: Option<string>): (b: bool)
    ensures b <==> Extension(p) in formats.GetOr(DEFAULT_FORMATS) && !KnownNonImage(mime)
  {
    var supported := if formats.None? then DEFAULT_FORMATS else formats.value;
    if Extension(p) !in supported then false
    else if KnownNonImage(mime) then false
    else true
  }

  /** The default list has seven entries, none of them empty, so a path
      without a suffix is never an image under it; an unknown MIME type does not
      reject a listed extension. */
  lemma DefaultFormats(p: Path, mime: Option<string>)
    ensures |DEFAULT_FORMATS| == 7
    ensures Suffix(p) == [] ==> !IsImageFile(p, None, mime)
    ensures Extension(p) in DEFAULT_FORMATS && mime.None? ==> IsImageFile(p, None, mime)
  {
  }

  /** The extension test ignores case: suffixes that agree after lower-casing
      get the same answer. */
  lemma ImageTestIgnoresCase(p: Path, q: Path, formats: Option<seq<string>>, mime: Option<string>)
    requires Lower(Suffix(p)) == Lower(Suffix(q))
    ensures IsImageFile(p, formats, mime) == IsImageFile(q, formats, mime)
  {
  }

  // ---------------------------------------------------------------- validation

  /** `f"{x:.2f}"` for `x = size / 1024 / 1024`: both divisions are exact in
      binary floating point, and the rounding to two decimals is correct
      rounding with ties to even. */
  function TwoDecimals(size: nat): (s: string) {
    var q := size * 100;
    var n := q / 1048576;
    var rem := q % 1048576;
    var m := if 2 * rem > 1048576 || (2 * rem == 1048576 && n % 2 == 1) then n + 1 else n;
    NatToString(m / 100) + "." + [DigitChar(m % 100 / 10), DigitChar(m % 10)]
  }

  /** `validate_file`: the first check that fails, in order, or (True, ""). */
  function ValidateFile(fs: FileSystem, p: Path, c: Settings, mime: Option<string>): (r: (bool, string))
    ensures r.0 <==> Exists(fs, p) && IsFile(fs, p)
                     && (!c.validateFileType || IsImageFile(p, Some(c.supportedFormats), mime))
                     && fs.files[p] <= MaxFileSizeBytes(c)
    ensures r.0 ==> r.1 == ""
    ensures !Exists(fs, p) ==> r == (false, "檔案不存在: " + Str(p))
    ensures Exists(fs, p) && !IsFile(fs, p) ==> r == (false, "不是檔案: " + Str(p))
    ensures IsFile(fs, p) && c.validateFileType && !IsImageFile(p, Some(c.supportedFormats), mime) ==>
              r == (false, "不支援的檔案格式: " + Suffix(p))
    ensures IsFile(fs, p) && (!c.validateFileType || IsImageFile(p, Some(c.supportedFormats), mime))
            && fs.files[p] > MaxFileSizeBytes(c) ==>
              r == (false, "檔案太大: " + TwoDecimals(fs.files[p]) + "MB (最大: " + IntToString(c.maxFileSizeMb) + "MB)")
  {
    if !Exists(fs, p) then (false, "檔案不存在: " + Str(p))
    else if !IsFile(fs, p) then (false, "不是檔案: " + Str(p))
    else if c.validateFileType && !IsImageFile(p, Some(c.supportedFormats), mime) then
      (false, "不支援的檔案格式: " + Suffix(p))
    else if fs.files[p] > MaxFileSizeBytes(c) then
      (false, "檔案太大: " + TwoDecimals(fs.files[p]) + "MB (最大: " + IntToString(c.maxFileSizeMb) + "MB)")
    else (true, "")
  }

  /** The size check is strict: a file of exactly the limit passes it, one byte
      more fails. */
  lemma SizeLimitInclusive(fs: FileSystem, p: Path, c: Settings, mime: Option<string>)
    requires IsFile(fs, p) && (!c.validateFileType || IsImageFile(p, Some(c.supportedFormats), mime))
    ensures fs.files[p] == MaxFileSizeBytes(c) ==> ValidateFile(fs, p, c, mime) == (true, "")
    ensures fs.files[p] == MaxFileSizeBytes(c) + 1 ==> !ValidateFile(fs, p, c, mime).0
  {
  }

  /** With type checking off, only existence, kind and size matter. */
  lemma TypeCheckOptional(fs: FileSystem, p: Path, c: Settings, m1: Option<string>, m2: Option<string>)
    requires !c.validateFileType
    ensures ValidateFile(fs, p, c, m1) == ValidateFile(fs, p, c, m2)
  {
  }

  // ---------------------------------------------------------------- sorting

  /** `s` is in the order `sorted()` leaves it. */
  predicate SortedPaths(s: seq<Path>) {
    forall i, j :: 0 <= i < j < |s| ==> !PathLess(s[j], s[i])
  }

  /** `x` placed into `s` before the first element that is not below it. */
  function InsertPath(x: Path, s: seq<Path>): (r: seq<Path>)
    ensures multiset(r) == multiset(s) + multiset{x}
    decreases |s|
  {
    if s == [] then [x]
    else if PathLess(s[0], x) then
      assert s == [s[0]] + s[1..];
      [s[0]] + InsertPath(x, s[1..])
    else [x] + s
  }

  /** Insertion keeps a sorted list sorted. */
  lemma {:induction false} InsertPathSorted(x: Path, s: seq<Path>)
    requires SortedPaths(s)
    ensures SortedPaths(InsertPath(x, s))
    decreases |s|
  {
    if s == [] {
    } else if PathLess(s[0], x) {
      var rest := InsertPath(x, s[1..]);
      InsertPathSorted(x, s[1..]);
      assert s == [s[0]] + s[1..];
      forall j | 0 <= j < |rest|
        ensures !PathLess(rest[j], s[0])
      {
        assert rest[j] in multiset(rest);
        if rest[j] == x {
          PartsLessAsymmetric(s[0].parts, x.parts);
        } else {
          assert rest[j] in multiset(s[1..]);
          var k :| 0 <= k < |s[1..]| && s[1..][k] == rest[j];
          assert !PathLess(s[k + 1], s[0]);
        }
      }
      assert InsertPath(x, s) == [s[0]] + rest;
    } else {
      forall j | 0 <= j < |s|
        ensures !PathLess(s[j], x)
      {
        if PathLess(s[j], x) && j > 0 {
          assert !PathLess(s[j], s[0]);
          PartsLessTotal(s[j].parts, s[0].parts);
          PartsLessTotal(s[0].parts, x.parts);
          if s[j] != s[0] {
            PartsLessTransitive(s[0].parts, s[j].parts, x.parts);
          }
        }
      }
    }
  }

  /** `sorted(s)`: insertion of each element in turn. */
  function SortPaths(s: seq<Path>): (r: seq<Path>)
    ensures SortedPaths(r) && multiset(r) == multiset(s)
  {
    if s == [] then []
    else
      assert s == s[..|s| - 1] + [s[|s| - 1]];
      var t := SortPaths(s[..|s| - 1]);
      InsertPathSorted(s[|s| - 1], t);
      InsertPath(s[|s| - 1], t)
  }

  // ---------------------------------------------------------------- scanning

  /** What `directory.rglob("*")` yields: every existing path strictly below
      the directory, each once. */
  ghost predicate IsListingOf(fs: FileSystem, dir: Path, listing: seq<Path>) {
    && (forall i, j :: 0 <= i < j < |listing| ==> listing[i] != listing[j])
    && (forall q :: q in listing <==> Below(q, dir) && Exists(fs, q))
  }

  /** The files below `dir` that pass validation. */
  predicate Accepted(fs: FileSystem, dir: Path, c: Settings, mimeOf: Path -> Option<string>, q: Path) {
    Below(q, dir) && IsFile(fs, q) && ValidateFile(fs, q, c, mimeOf(q)).0
  }

  /** `scan_images`: the valid files below the directory, sorted; nothing for a
      path that is not a directory. */
  method ScanImages(fs: FileSystem, dir: Path, listing: seq<Path>, c: Settings, mimeOf: Path -> Option<string>)
    returns (r: seq<Path>)
    requires IsListingOf(fs, dir, listing)
    ensures !(Exists(fs, dir) && dir in fs.dirs) ==> r == []
    ensures Exists(fs, dir) && dir in fs.dirs ==>
              && SortedPaths(r)
              && (forall q :: q in r <==> Accepted(fs, dir, c, mimeOf, q))
              && (forall i, j :: 0 <= i < j < |r| ==> r[i] != r[j])
  {
    var found: seq<Path> := [];
    if !Exists(fs, dir) || dir !in fs.dirs {
      return found;
    }
    var i := 0;
    while i < |listing|
      invariant 0 <= i <= |listing|
      invariant forall q :: q in found <==> q in listing[..i] && IsFile(fs, q) && ValidateFile(fs, q, c, mimeOf(q)).0
      invariant forall a, b :: 0 <= a < b < |found| ==> found[a] != found[b]
    {
      var q := listing[i];
      if IsFile(fs, q) {
        var v := ValidateFile(fs, q, c, mimeOf(q));
        if v.0 {
          assert forall k :: 0 <= k < i ==> listing[k] != q;
          assert q !in listing[..i];
          found := found + [q];
        }
      }
      assert listing[..i + 1] == listing[..i] + [listing[i]];
      i := i + 1;
    }
    assert listing[..i] == listing;
    r := SortPaths(found);
    DistinctPermutation(found, r);
  }

  /** A permutation of a list without repeats has none either. */
  lemma DistinctPermutation(a: seq<Path>, b: seq<Path>)
    requires multiset(a) == multiset(b)
    requires forall i, j :: 0 <= i < j < |a| ==> a[i] != a[j]
    ensures forall i, j :: 0 <= i < j < |b| ==> b[i] != b[j]
    ensures forall q :: q in a <==> q in b
  {
    forall q
      ensures q in a <==> q in b
    {
      assert q in a <==> q in multiset(a);
      assert q in b <==> q in multiset(b);
    }
    forall q | q in a
      ensures multiset(a)[q] == 1
    {
      DistinctCount(a, q);
    }
    forall i, j | 0 <= i < j < |b|
      ensures b[i] != b[j]
    {
      assert b[i] in a;
      CountAtLeast(b, i, j);
    }
  }

  /** Two positions holding the same path count twice. */
  lemma CountAtLeast(b: seq<Path>, i: nat, j: nat)
    requires i < j < |b|
    ensures multiset(b)[b[i]] >= if b[j] == b[i] then 2 else 1
  {
    assert b == b[..i] + [b[i]] + b[i + 1..j] + [b[j]] + b[j + 1..];
  }

  lemma {:induction false} DistinctCount(a: seq<Path>, q: Path)
    requires forall i, j :: 0 <= i < j < |a| ==> a[i] != a[j]
    requires q in a
    ensures multiset(a)[q] == 1
  {
    if a[0] == q {
      assert a == [a[0]] + a[1..];
      assert q !in a[1..];
    } else {
      assert a == [a[0]] + a[1..];
      DistinctCount(a[1..], q);
    }
  }

  // ---------------------------------------------------------------- free names

  /** `parent / f"{stem}_{n}{suffix}"`. */
  function Candidate(p: Path, n: nat): (q: Path)
    ensures Parent(q) == Parent(p)
  {
    Sibling(p, Stem(p) + "_" + NatToString(n) + Suffix(p))
  }

  /** Different counters give different names. */
  lemma CandidateInjective(p: Path, m: nat, n: nat)
    requires Candidate(p, m) == Candidate(p, n)
    ensures m == n
  {
    var a := Stem(p) + "_";
    var sa, sb := NatToString(m), NatToString(n);
    assert Name(Candidate(p, m)) == a + sa + Suffix(p);
    assert Name(Candidate(p, n)) == a + sb + Suffix(p);
    assert |sa| == |sb|;
    assert (a + sa + Suffix(p))[|a|..|a| + |sa|] == sa;
    assert (a + sb + Suffix(p))[|a|..|a| + |sb|] == sb;
    NatToStringInjective(m, n);
  }

  /** `get_unique_filename`: the path itself when it is free, otherwise the
      candidate with the least free counter from 1. */
  method GetUniqueFilename(fs: FileSystem, p: Path) returns (r: Path)
    ensures !Exists(fs, p) ==> r == p
    ensures Exists(fs, p) ==>
              exists n: nat :: 1 <= n && r == Candidate(p, n)
                && forall k: nat :: 1 <= k < n ==> Exists(fs, Candidate(p, k))
    ensures !Exists(fs, r)
    ensures Parent(r) == Parent(p)
  {
    if !Exists(fs, p) {
      return p;
    }
    var c := (k: nat) => Candidate(p, k);
    forall a: nat, b: nat | c(a) == c(b)
      ensures a == b
    {
      CandidateInjective(p, a, b);
    }
    var n := FirstFree(fs, c);
    r := Candidate(p, n);
    assert forall k: nat :: 1 <= k < n ==> Exists(fs, Candidate(p, k)) by {
      forall k: nat | 1 <= k < n
        ensures Exists(fs, Candidate(p, k))
      {
        assert c(k) == Candidate(p, k);
      }
    }
  }

  /** The counting loop of `get_unique_filename`, over the candidate names
      `c(1), c(2), ...`: the least counter from 1 whose name is free. It
      stops because the taken names are finite and the candidates pairwise
      distinct. */
  method FirstFree(fs: FileSystem, c: nat -> Path) returns (n: nat)
    requires forall a: nat, b: nat :: c(a) == c(b) ==> a == b
    ensures 1 <= n && !Exists(fs, c(n))
    ensures forall k: nat :: 1 <= k < n ==> Exists(fs, c(k))
  {
    var counter: nat := 1;
    while true
      invariant counter >= 1
      invariant forall k: nat :: 1 <= k < counter ==> Exists(fs, c(k))
      decreases |Taken(fs)| + 1 - counter
    {
      if !Exists(fs, c(counter)) {
        return counter;
      }
      TakenBound(fs, c, counter + 1);
      counter := counter + 1;
    }
  }

  /** The names `c(1) .. c(n-1)`. */
  ghost function Candidates(c: nat -> Path, n: nat): set<Path> {
    set k: nat | 1 <= k < n :: c(k)
  }

  /** There are `n - 1` of them. */
  lemma {:induction false} CandidatesSize(c: nat -> Path, n: nat)
    requires forall a: nat, b: nat :: c(a) == c(b) ==> a == b
    requires n >= 1
    ensures |Candidates(c, n)| == n - 1
  {
    if n == 1 {
      assert Candidates(c, 1) == {};
    } else {
      CandidatesSize(c, n - 1);
      assert Candidates(c, n) == Candidates(c, n - 1) + {c(n - 1)};
    }
  }

  /** When the first `n - 1` candidates are all taken, there are at least
      that many taken paths. */
  lemma TakenBound(fs: FileSystem, c: nat -> Path, n: nat)
    requires forall a: nat, b: nat :: c(a) == c(b) ==> a == b
    requires n >= 1 && forall k: nat :: 1 <= k < n ==> Exists(fs, c(k))
    ensures n - 1 <= |Taken(fs)|
  {
    CandidatesSize(c, n);
    SubsetSize(Candidates(c, n), Taken(fs));
  }

  lemma SubsetSize(a: set<Path>, b: set<Path>)
    requires a <= b
    ensures |a| <= |b|
  {
    assert b == a + (b - a);
  }
}
