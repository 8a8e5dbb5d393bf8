/** `Config`: the settings record, its field ranges and its four validators.
    Values arrive already typed (the environment parsing of `load_config` is not
    part of this model); `retry_delay` is a `real`. Validation checks every field
    in declaration order and reports the names of all fields that fail. */
module Config {
  import opened Wrappers
  import opened Text

  // ---------------------------------------------------------------- log level

  const LOG_LEVELS: seq<string> := ["DEBUG", "INFO", "WARNING", "ERROR", "CRITICAL"]
  const LOG_LEVEL_ERROR := "log_level must be one of ['DEBUG', 'INFO', 'WARNING', 'ERROR', 'CRITICAL']"

  /** `validate_log_level`: the upper-cased value, if it is one of the five levels. */
  function ValidateLogLevel(v: string): (r: Result<string, string>)
    ensures r.Ok? <==> Upper(v) in LOG_LEVELS
    ensures r.Ok? ==> r.value == Upper(v) && r.value in LOG_LEVELS
    ensures r.Err? ==> r.error == LOG_LEVEL_ERROR
  {
    if Upper(v) in LOG_LEVELS then Ok(Upper(v)) else Err(LOG_LEVEL_ERROR)
  }

  /** Each level is upper-case ASCII. */
  lemma LevelsUpper(l: string)
    requires l in LOG_LEVELS
    ensures Upper(l) == l
  {
    assert forall i :: 0 <= i < |l| ==> IsAsciiUpper(l[i]);
    UpperOfUpperAscii(l);
  }

  /** A stored level validates to itself. */
  lemma LogLevelStable(v: string)
    requires ValidateLogLevel(v).Ok?
    ensures ValidateLogLevel(ValidateLogLevel(v).value) == ValidateLogLevel(v)
  {
    LevelsUpper(Upper(v));
  }

  /** `v` is `l` with any of its ASCII letters in either case. */
  predicate CaseVariant(v: string, l: string) {
    |v| == |l| && forall i :: 0 <= i < |v| ==> v[i] == l[i] || (IsAsciiUpper(l[i]) && v[i] as int == l[i] as int + 32)
  }

  lemma {:induction false} UpperOfCaseVariant(v: string, l: string)
    requires CaseVariant(v, l)
    requires forall i :: 0 <= i < |l| ==> IsAsciiUpper(l[i])
    ensures Upper(v) == l
  {
    if v != [] {
      assert CaseVariant(v[1..], l[1..]);
      UpperOfCaseVariant(v[1..], l[1..]);
      assert UpperChar(v[0]) == [l[0]];
      assert l == [l[0]] + l[1..];
    }
  }

  /** Every spelling of a level in any mix of cases is accepted and stored as
      the level. */
  lemma LogLevelIgnoresCase(v: string, l: string)
    requires l in LOG_LEVELS && CaseVariant(v, l)
    ensures ValidateLogLevel(v) == Ok(l)
  {
    assert forall i :: 0 <= i < |l| ==> IsAsciiUpper(l[i]);
    UpperOfCaseVariant(v, l);
  }

  // ---------------------------------------------------------------- file-name format

  const FILENAME_FORMATS: seq<string> := ["original", "timestamp", "uuid", "custom"]
  const FILENAME_FORMAT_ERROR := "filename_format must be one of ['original', 'timestamp', 'uuid', 'custom']"

  /** `validate_filename_format`: exact match, no case folding. */
  function ValidateFilenameFormat(v: string): (r: Result<string, string>)
    ensures r.Ok? <==> v in FILENAME_FORMATS
    ensures r.Ok? ==> r.value == v
    ensures r.Err? ==> r.error == FILENAME_FORMAT_ERROR
  {
    if v in FILENAME_FORMATS then Ok(v) else Err(FILENAME_FORMAT_ERROR)
  }

  /** Case matters for the file-name format. */
  lemma FilenameFormatIsExact()
    ensures ValidateFilenameFormat("uuid").Ok?
    ensures ValidateFilenameFormat("UUID").Err?
  {
  }

  // ---------------------------------------------------------------- supported formats

  /** The two shapes the formats field is given in. */
  datatype FormatsInput = FormatsText(text: string) | FormatsList(items: seq<string>)

  /** `validate_supported_formats`. */
  function ValidateSupportedFormats(v: FormatsInput): (r: seq<string>)
    ensures v.FormatsList? ==> |r| == |v.items|
    ensures v.FormatsText? ==> |r| == |Split(v.text, ',')|
    ensures forall k :: 0 <= k < |r| ==> Lower(r[k]) == r[k]
  {
    var items := match v
      case FormatsText(s) => seq(|Split(s, ',')|, k requires 0 <= k < |Split(s, ',')| => Lower(StripSpace(Split(s, ',')[k])))
      case FormatsList(l) => l;
    LowerEachIdempotent(items);
    seq(|items|, k requires 0 <= k < |items| => Lower(items[k]))
  }

  /** Lower-casing twice is lower-casing once. */
  lemma LowerIdempotent(s: string)
    ensures Lower(Lower(s)) == Lower(s)
  {
  }

  lemma LowerEachIdempotent(items: seq<string>)
    ensures forall k :: 0 <= k < |items| ==> Lower(Lower(items[k])) == Lower(items[k])
  {
    forall k | 0 <= k < |items|
      ensures Lower(Lower(items[k])) == Lower(items[k])
    {
      LowerIdempotent(items[k]);
    }
  }

  /** The comma form gives each piece stripped and lower-cased; a list already
      in that form is kept as it is. */
  lemma SupportedFormatsNormalise(s: string)
    ensures var r := ValidateSupportedFormats(FormatsText(s));
            forall k :: 0 <= k < |r| ==> r[k] == Lower(StripSpace(Split(s, ',')[k]))
    ensures var r := ValidateSupportedFormats(FormatsText(s));
            ValidateSupportedFormats(FormatsList(r)) == r
  {
    var r := ValidateSupportedFormats(FormatsText(s));
    forall k | 0 <= k < |r|
      ensures r[k] == Lower(StripSpace(Split(s, ',')[k]))
    {
      LowerIdempotent(StripSpace(Split(s, ',')[k]));
    }
    forall k | 0 <= k < |r|
      ensures Lower(r[k]) == r[k]
    {
      LowerIdempotent(StripSpace(Split(s, ',')[k]));
    }
  }

  /** A list whose items are all lower case validates to itself. */
  lemma LowerListStable(fs: seq<string>)
    requires forall k :: 0 <= k < |fs| ==> Lower(fs[k]) == fs[k]
    ensures ValidateSupportedFormats(FormatsList(fs)) == fs
  {
    var r := ValidateSupportedFormats(FormatsList(fs));
    assert forall k :: 0 <= k < |r| ==> r[k] == Lower(fs[k]);
  }

  // ---------------------------------------------------------------- custom domain

  const CUSTOM_DOMAIN_ERROR := "custom_domain must be a valid URL (e.g., https://i.valorvie.net)"

  /** ASCII lower case, as the pattern's case-insensitive match compares. */
  function AsciiLower(c: char): char {
    if IsAsciiUpper(c) then (c as int + 32) as char else c
  }

  predicate EqualsIgnoringCase(s: string, lit: string) {
    |s| == |lit| && forall i :: 0 <= i < |s| ==> AsciiLower(s[i]) == lit[i]
  }

  /** Where `^https?://` ends, if it matches. */
  function SchemeEnd(u: string): (n: Option<nat>)
    ensures n.Some? ==> n.value <= |u| && (n.value == 7 || n.value == 8)
  {
    if |u| >= 8 && EqualsIgnoringCase(u[..8], "https://") then Some(8)
    else if |u| >= 7 && EqualsIgnoringCase(u[..7], "http://") then Some(7)
    else None
  }

  /** The index of the first ':' in `s`, or its length. */
  function FirstColon(s: string): (c: nat)
    ensures c <= |s| && (c < |s| ==> s[c] == ':')
    ensures forall i :: 0 <= i < c ==> s[i] != ':'
  {
    if s == [] || s[0] == ':' then 0 else 1 + FirstColon(s[1..])
  }

  /** `[A-Z0-9](?:[A-Z0-9-]{0,61}[A-Z0-9])?`, case-insensitively. */
  predicate ValidLabel(l: string) {
    && 1 <= |l| <= 63
    && IsAsciiAlnum(l[0]) && IsAsciiAlnum(l[|l| - 1])
    && forall i :: 0 <= i < |l| ==> IsAsciiAlnum(l[i]) || l[i] == '-'
  }

  /** `(?:label\.)*label`: every dot-separated piece is a label. */
  predicate ValidHost(h: string) {
    AllLabels(Split(h, '.'))
  }

  predicate AllLabels(parts: seq<string>) {
    parts == [] || (ValidLabel(parts[0]) && AllLabels(parts[1..]))
  }

  /** Every piece of a run of labels is a label. */
  lemma {:induction false} AllLabelsEach(parts: seq<string>, k: nat)
    requires AllLabels(parts) && k < |parts|
    ensures ValidLabel(parts[k])
  {
    if k > 0 {
      AllLabelsEach(parts[1..], k - 1);
    }
  }

  /** `(?::\d+)?`. */
  predicate ValidPort(p: string) {
    p == [] || (|p| >= 2 && p[0] == ':' && forall i :: 1 <= i < |p| ==> IsAsciiDigit(p[i]))
  }

  /** The whole of `u` matches the pattern. */
  predicate FullMatch(u: string) {
    match SchemeEnd(u)
    case None => false
    case Some(n) =>
      var rest := u[n..];
      var c := FirstColon(rest);
      ValidHost(rest[..c]) && ValidPort(rest[c..])
  }

  /** `url_pattern.match(u)`: `$` also matches before one final newline. */
  predicate DomainPattern(u: string) {
    FullMatch(u) || (u != [] && u[|u| - 1] == '\n' && FullMatch(u[..|u| - 1]))
  }

  /** `validate_custom_domain`: None for a missing or blank value, the value
      without trailing '/' when it matches, an error otherwise. */
  function ValidateCustomDomain(v: Option<string>): (r: Result<Option<string>, string>)
    ensures v.None? || StripSpace(v.value) == [] ==> r == Ok(None)
    ensures r.Err? ==> r.error == CUSTOM_DOMAIN_ERROR
    ensures r.Ok? && r.value.Some? ==>
              && DomainPattern(r.value.value)
              && r.value.value == RStrip(v.value, {'/'})
  {
    if v.None? || StripSpace(v.value) == [] then Ok(None)
    else
      var u := RStrip(v.value, {'/'});
      if DomainPattern(u) then Ok(Some(u)) else Err(CUSTOM_DOMAIN_ERROR)
  }

  /** A value that matches has a non-blank first character and no '/' at its end. */
  lemma MatchShape(u: string)
    requires DomainPattern(u)
    ensures |u| >= 8 && !IsSpace(u[0]) && u[|u| - 1] != '/'
  {
    if FullMatch(u) {
      FullMatchShape(u);
      AlnumNotSlash(u[|u| - 1]);
    } else {
      var w := u[..|u| - 1];
      FullMatchShape(w);
      assert u[0] == w[0];
    }
    SchemeLetterNotSpace(u[0]);
  }

  lemma SchemeLetterNotSpace(c: char)
    requires AsciiLower(c) == 'h'
    ensures !IsSpace(c)
  {
    assert c == 'h' || c == 'H';
  }

  lemma AlnumNotSlash(c: char)
    requires IsAsciiAlnum(c)
    ensures c != '/'
  {
  }

  /** A full match starts with 'h' or 'H', has a host after the scheme, and
      ends in a letter or digit. */
  lemma FullMatchShape(w: string)
    requires FullMatch(w)
    ensures |w| >= 8 && AsciiLower(w[0]) == 'h' && IsAsciiAlnum(w[|w| - 1])
  {
    var n := SchemeEnd(w).value;
    SchemeShape(w);
    var rest := w[n..];
    HostPortShape(rest);
    assert w[|w| - 1] == rest[|rest| - 1];
  }

  /** A matched scheme starts with 'h' or 'H'. */
  lemma SchemeShape(w: string)
    requires SchemeEnd(w).Some?
    ensures AsciiLower(w[0]) == 'h'
  {
    if |w| >= 8 && EqualsIgnoringCase(w[..8], "https://") {
      assert AsciiLower(w[..8][0]) == "https://"[0];
    } else {
      assert AsciiLower(w[..7][0]) == "http://"[0];
    }
  }

  /** A host followed by an optional port is non-empty and ends in a letter or digit. */
  lemma HostPortShape(rest: string)
    requires var c := FirstColon(rest); ValidHost(rest[..c]) && ValidPort(rest[c..])
    ensures |rest| >= 1 && IsAsciiAlnum(rest[|rest| - 1])
  {
    var c := FirstColon(rest);
    HostShape(rest[..c]);
    if c < |rest| {
      PortEnd(rest, c);
    } else {
      assert rest[..c] == rest;
    }
  }

  /** A port, when present, ends the string in a digit. */
  lemma PortEnd(rest: string, c: nat)
    requires c < |rest| && ValidPort(rest[c..])
    ensures IsAsciiDigit(rest[|rest| - 1])
  {
    var port := rest[c..];
    assert port != [] && |port| >= 2;
    assert port[|port| - 1] == rest[|rest| - 1];
  }

  /** A valid host is non-empty and ends in a letter or digit. */
  lemma HostShape(host: string)
    requires ValidHost(host)
    ensures host != [] && IsAsciiAlnum(host[|host| - 1])
  {
    var parts := Split(host, '.');
    AllLabelsEach(parts, 0);
    if host == [] {
      assert false;
    }
    LastPieceIsSuffix(host, '.');
    var last := parts[|parts| - 1];
    AllLabelsEach(parts, |parts| - 1);
    assert host[|host| - 1] == last[|last| - 1];
  }

  /** The last piece of a split ends the string. */
  lemma {:induction false} LastPieceIsSuffix(s: string, sep: char)
    ensures var parts := Split(s, sep);
            var last := parts[|parts| - 1];
            |last| <= |s| && s[|s| - |last|..] == last
    ensures |Split(s, sep)| == 1 ==> Split(s, sep)[0] == s
  {
    if s != [] {
      LastPieceIsSuffix(s[1..], sep);
      if s[0] == sep {
        LastPieceAfterSeparator(s, sep);
      } else {
        LastPieceAfterChar(s, sep);
      }
    }
  }

  /** The step of `LastPieceIsSuffix` when the string starts with the separator. */
  lemma LastPieceAfterSeparator(s: string, sep: char)
    requires s != [] && s[0] == sep
    requires var parts := Split(s[1..], sep);
             var last := parts[|parts| - 1];
             |last| <= |s[1..]| && s[1..][|s[1..]| - |last|..] == last
    ensures var parts := Split(s, sep);
            var last := parts[|parts| - 1];
            |last| <= |s| && s[|s| - |last|..] == last
    ensures |Split(s, sep)| == 1 ==> Split(s, sep)[0] == s
  {
    var rest := Split(s[1..], sep);
    var parts := Split(s, sep);
    assert parts == [""] + rest;
    LastOfCons("", rest);
    SuffixOfTail(s, rest[|rest| - 1]);
  }

  /** Putting a piece in front keeps the last piece. */
  lemma LastOfCons(x: string, rest: seq<string>)
    requires rest != []
    ensures ([x] + rest)[|[x] + rest| - 1] == rest[|rest| - 1]
  {
  }

  /** The step of `LastPieceIsSuffix` when the string starts with another character. */
  lemma LastPieceAfterChar(s: string, sep: char)
    requires s != [] && s[0] != sep
    requires var parts := Split(s[1..], sep);
             var last := parts[|parts| - 1];
             |last| <= |s[1..]| && s[1..][|s[1..]| - |last|..] == last
    requires |Split(s[1..], sep)| == 1 ==> Split(s[1..], sep)[0] == s[1..]
    ensures var parts := Split(s, sep);
            var last := parts[|parts| - 1];
            |last| <= |s| && s[|s| - |last|..] == last
    ensures |Split(s, sep)| == 1 ==> Split(s, sep)[0] == s
  {
    var rest := Split(s[1..], sep);
    if |rest| == 1 {
      SinglePieceAfterChar(s, sep);
      assert s[0..] == s;
    } else {
      ManyPiecesAfterChar(s, sep);
      SuffixOfTail(s, rest[|rest| - 1]);
    }
  }

  /** With a separator in the tail, the last piece is the tail's last piece. */
  lemma ManyPiecesAfterChar(s: string, sep: char)
    requires s != [] && s[0] != sep && |Split(s[1..], sep)| > 1
    ensures var parts := Split(s, sep);
            var rest := Split(s[1..], sep);
            |parts| == |rest| && parts[|parts| - 1] == rest[|rest| - 1]
  {
    var rest := Split(s[1..], sep);
    assert Split(s, sep) == [[s[0]] + rest[0]] + rest[1..];
    LastOfCons([s[0]] + rest[0], rest[1..]);
    assert rest[1..][|rest[1..]| - 1] == rest[|rest| - 1];
  }

  /** A tail without the separator gives the whole string as the only piece. */
  lemma SinglePieceAfterChar(s: string, sep: char)
    requires s != [] && s[0] != sep
    requires |Split(s[1..], sep)| == 1 && Split(s[1..], sep)[0] == s[1..]
    ensures Split(s, sep) == [s]
  {
    var rest := Split(s[1..], sep);
    assert Split(s, sep) == [[s[0]] + rest[0]] + rest[1..];
    assert [s[0]] + rest[0] == s;
  }

  /** A suffix of the tail is a suffix of the whole. */
  lemma SuffixOfTail(s: string, last: string)
    requires s != [] && |last| <= |s[1..]| && s[1..][|s[1..]| - |last|..] == last
    ensures |last| <= |s| && s[|s| - |last|..] == last
  {
    assert s[1..][|s[1..]| - |last|..] == s[|s| - |last|..];
  }

  /** A value that matches is accepted as it is. */
  lemma DomainStable(u: string)
    requires DomainPattern(u)
    ensures ValidateCustomDomain(Some(u)) == Ok(Some(u))
  {
    MatchShape(u);
    StripSpaceKeepsNonSpaceEnd(u);
    assert RStrip(u, {'/'}) == u;
  }

  /** An accepted domain validates to itself. */
  lemma CustomDomainStable(v: Option<string>)
    requires ValidateCustomDomain(v).Ok?
    ensures ValidateCustomDomain(ValidateCustomDomain(v).value) == ValidateCustomDomain(v)
  {
    var r := ValidateCustomDomain(v).value;
    if r.Some? {
      DomainStable(r.value);
    }
  }

  /** Stripping whitespace keeps a string whose first character is not whitespace. */
  lemma {:induction false} StripSpaceKeepsNonSpaceEnd(s: string)
    requires s != [] && !IsSpace(s[0])
    ensures StripSpace(s) != []
    decreases |s|
  {
    if IsSpace(s[|s| - 1]) {
      assert |s| >= 2;
      StripSpaceKeepsNonSpaceEnd(s[..|s| - 1]);
    }
  }

  // ---------------------------------------------------------------- the record

  /** The field values as given, before validation. */
  datatype RawConfig = RawConfig(
    r2EndpointUrl: string, r2AccessKeyId: string, r2SecretAccessKey: string, r2BucketName: string,
    maxConcurrentUploads: int, maxRetries: int, retryDelay: real,
    supportedFormats: FormatsInput,
    enableCompression: bool, compressionQuality: int, maxImageSize: int,
    logLevel: string, logFile: string,
    showProgress: bool, progressUpdateInterval: int,
    filenameFormat: string, customPrefix: string,
    maxFileSizeMb: int, validateFileType: bool,
    checkDuplicate: bool, hashAlgorithm: string,
    customDomain: Option<string>)

  /** A validated `Config`. */
  datatype Settings = Settings(
    r2EndpointUrl: string, r2AccessKeyId: string, r2SecretAccessKey: string, r2BucketName: string,
    maxConcurrentUploads: int, maxRetries: int, retryDelay: real,
    supportedFormats: seq<string>,
    enableCompression: bool, compressionQuality: int, maxImageSize: int,
    logLevel: string, logFile: string,
    showProgress: bool, progressUpdateInterval: int,
    filenameFormat: string, customPrefix: string,
    maxFileSizeMb: int, validateFileType: bool,
    checkDuplicate: bool, hashAlgorithm: string,
    customDomain: Option<string>)

  /** The defaults of the optional fields, around the four required ones. */
  function Defaults(endpoint: string, keyId: string, secret: string, bucket: string): (r: RawConfig)
    ensures r.maxConcurrentUploads == 5 && r.maxRetries == 3 && r.retryDelay == 1.0
    ensures r.compressionQuality == 85 && r.maxImageSize == 2048 && r.maxFileSizeMb == 50
  {
    RawConfig(endpoint, keyId, secret, bucket, 5, 3, 1.0,
              FormatsList(["jpg", "jpeg", "png", "gif", "bmp", "tiff", "webp"]),
              true, 85, 2048, "INFO", "logs/uploadr2.log", true, 1,
              "original", "img_", 50, true, true, "sha512", None)
  }

  /** The `ge`/`le` bounds of the integer and real fields. */
  predicate InRanges(maxConcurrentUploads: int, maxRetries: int, retryDelay: real, compressionQuality: int,
                     maxImageSize: int, progressUpdateInterval: int, maxFileSizeMb: int) {
    && 1 <= maxConcurrentUploads <= 20
    && 0 <= maxRetries <= 10
    && 0.1 <= retryDelay <= 60.0
    && 1 <= compressionQuality <= 100
    && 128 <= maxImageSize <= 8192
    && 1 <= progressUpdateInterval <= 10
    && 1 <= maxFileSizeMb <= 500
  }

  /** What every validated record satisfies. */
  predicate SettingsValid(c: Settings) {
    && InRanges(c.maxConcurrentUploads, c.maxRetries, c.retryDelay, c.compressionQuality,
                c.maxImageSize, c.progressUpdateInterval, c.maxFileSizeMb)
    && c.logLevel in LOG_LEVELS
    && c.filenameFormat in FILENAME_FORMATS
    && (forall k :: 0 <= k < |c.supportedFormats| ==> Lower(c.supportedFormats[k]) == c.supportedFormats[k])
    && (c.customDomain.Some? ==> DomainPattern(c.customDomain.value))
  }

  /** The field name, when the check on it fails. */
  function Failing(name: string, ok: bool): seq<string> {
    if ok then [] else [name]
  }

  /** The names of the fields that fail, in declaration order. */
  function Failures(raw: RawConfig): (fs: seq<string>) {
    Failing("max_concurrent_uploads", 1 <= raw.maxConcurrentUploads <= 20)
    + Failing("max_retries", 0 <= raw.maxRetries <= 10)
    + Failing("retry_delay", 0.1 <= raw.retryDelay <= 60.0)
    + Failing("supported_formats", raw.supportedFormats.FormatsList?)
    + Failing("compression_quality", 1 <= raw.compressionQuality <= 100)
    + Failing("max_image_size", 128 <= raw.maxImageSize <= 8192)
    + Failing("log_level", ValidateLogLevel(raw.logLevel).Ok?)
    + Failing("progress_update_interval", 1 <= raw.progressUpdateInterval <= 10)
    + Failing("filename_format", ValidateFilenameFormat(raw.filenameFormat).Ok?)
    + Failing("max_file_size_mb", 1 <= raw.maxFileSizeMb <= 500)
    + Failing("custom_domain", ValidateCustomDomain(raw.customDomain).Ok?)
  }

  /** `Config(**fields)`: the validated record, or the failing field names. */
  function Validate(raw: RawConfig): (r: Result<Settings, seq<string>>)
    ensures r.Err? <==> Failures(raw) != []
    ensures r.Err? ==> r.error == Failures(raw)
    ensures r.Ok? ==> SettingsValid(r.value)
  {
    if Failures(raw) != [] then Err(Failures(raw))
    else
      var fs := ValidateSupportedFormats(raw.supportedFormats);
      Ok(Settings(raw.r2EndpointUrl, raw.r2AccessKeyId, raw.r2SecretAccessKey, raw.r2BucketName,
                  raw.maxConcurrentUploads, raw.maxRetries, raw.retryDelay,
                  fs,
                  raw.enableCompression, raw.compressionQuality, raw.maxImageSize,
                  ValidateLogLevel(raw.logLevel).value, raw.logFile,
                  raw.showProgress, raw.progressUpdateInterval,
                  raw.filenameFormat, raw.customPrefix,
                  raw.maxFileSizeMb, raw.validateFileType,
                  raw.checkDuplicate, raw.hashAlgorithm,
                  ValidateCustomDomain(raw.customDomain).value))
  }

  /** `supported_formats` is declared `List[str]`, so a comma-separated text is
      refused by the type check before the validator runs. */
  lemma FormatsTextRefused(raw: RawConfig)
    requires raw.supportedFormats.FormatsText?
    ensures Validate(raw).Err? && "supported_formats" in Validate(raw).error
  {
    assert Failing("supported_formats", raw.supportedFormats.FormatsList?) == ["supported_formats"];
  }

  /** A validated record, given back as field values. */
  function AsRaw(c: Settings): RawConfig {
    RawConfig(c.r2EndpointUrl, c.r2AccessKeyId, c.r2SecretAccessKey, c.r2BucketName,
              c.maxConcurrentUploads, c.maxRetries, c.retryDelay,
              FormatsList(c.supportedFormats),
              c.enableCompression, c.compressionQuality, c.maxImageSize,
              c.logLevel, c.logFile, c.showProgress, c.progressUpdateInterval,
              c.filenameFormat, c.customPrefix, c.maxFileSizeMb, c.validateFileType,
              c.checkDuplicate, c.hashAlgorithm, c.customDomain)
  }

  /** No check fails on a validated record. */
  lemma NoFailures(c: Settings)
    requires SettingsValid(c)
    ensures Failures(AsRaw(c)) == []
  {
    LevelsUpper(c.logLevel);
    if c.customDomain.Some? {
      DomainStable(c.customDomain.value);
    }
  }

  /** Validating a validated record gives it back unchanged. */
  lemma RevalidateIsIdentity(c: Settings)
    requires SettingsValid(c)
    ensures Validate(AsRaw(c)) == Ok(c)
  {
    var raw := AsRaw(c);
    NoFailures(c);
    LowerListStable(c.supportedFormats);
    LevelsUpper(c.logLevel);
    assert ValidateLogLevel(raw.logLevel).value == c.logLevel;
    if c.customDomain.Some? {
      DomainStable(c.customDomain.value);
    }
    assert ValidateCustomDomain(raw.customDomain).value == c.customDomain;
  }

  /** The defaults validate, whatever the four required strings are. */
  lemma DefaultsValid(endpoint: string, keyId: string, secret: string, bucket: string)
    ensures Validate(Defaults(endpoint, keyId, secret, bucket)).Ok?
  {
    LevelsUpper("INFO");
  }

  /** `max_file_size_bytes`. */
  function MaxFileSizeBytes(c: Settings): (n: int)
    ensures n % 1048576 == 0 && n / 1048576 == c.maxFileSizeMb
    ensures SettingsValid(c) ==> 1048576 <= n <= 524288000
  {
    c.maxFileSizeMb * 1024 * 1024
  }
}
