/** `HashUtils`: the content identifier made from a digest, the file-name
    sanitiser and the two file-name builders. The digest itself (SHA-512 of the
    file's bytes, FIPS 180-4) is computed outside the model and arrives as an
    `Option<string>`, None when reading the file failed. */
module HashUtils {
  import opened Wrappers
  import opened Text
  import opened Paths

  // ---------------------------------------------------------------- identifiers

  /** The first 32 characters, right-padded with '0' when there are fewer. */
  function Normalize32(h: string): (r: string)
    ensures |r| == 32
    ensures |h| >= 32 ==> r == h[..32]
    ensures |h| < 32 ==> r[..|h|] == h && forall i :: |h| <= i < 32 ==> r[i] == '0'
  {
    if |h| < 32 then h + seq(32 - |h|, _ => '0') else h[..32]
  }

  /** `hash_to_uuid`: the 32 characters in the 8-4-4-4-12 layout of section 3 of
      RFC 4122, unvalidated and with no version or variant bits set. */
  function HashToUuid(h: string): (u: string)
    ensures |u| == 36
    ensures u[8] == '-' && u[13] == '-' && u[18] == '-' && u[23] == '-'
  {
    var v := Normalize32(h);
    v[..8] + "-" + v[8..12] + "-" + v[12..16] + "-" + v[16..20] + "-" + v[20..32]
  }

  /** The characters outside the four dash positions of the layout. */
  function UuidDigits(u: string): string
    requires |u| == 36
  {
    u[..8] + u[9..13] + u[14..18] + u[19..23] + u[24..]
  }

  /** Taking out the dashes gives back the normalised 32 characters. */
  lemma UuidDigitsOfHash(h: string)
    ensures UuidDigits(HashToUuid(h)) == Normalize32(h)
  {
    var v := Normalize32(h);
    var u := HashToUuid(h);
    assert u[..8] == v[..8] && u[9..13] == v[8..12] && u[14..18] == v[12..16];
    assert u[19..23] == v[16..20] && u[24..] == v[20..32];
    assert v == v[..8] + v[8..12] + v[12..16] + v[16..20] + v[20..32];
  }

  /** Two digests get the same identifier exactly when they agree after
      normalisation: in particular when they share their first 32 characters. */
  lemma SameUuid(a: string, b: string)
    ensures HashToUuid(a) == HashToUuid(b) <==> Normalize32(a) == Normalize32(b)
    ensures |a| >= 32 && |b| >= 32 && a[..32] == b[..32] ==> HashToUuid(a) == HashToUuid(b)
  {
    UuidDigitsOfHash(a);
    UuidDigitsOfHash(b);
  }

  // ---------------------------------------------------------------- sanitising

  /** The characters `[<>:"/\\|?*]` matches. */
  predicate Unsafe(c: char) {
    c in "<>:\"/\\|?*"
  }

  /** `[\x00-\x1f\x7f-\x9f]`. */
  predicate Control(c: char) {
    c as int <= 0x1F || 0x7F <= c as int <= 0x9F
  }

  predicate NoUnsafe(s: string) {
    forall i :: 0 <= i < |s| ==> !Unsafe(s[i])
  }

  predicate NoSpace(s: string) {
    forall i :: 0 <= i < |s| ==> !IsSpace(s[i])
  }

  predicate NoControl(s: string) {
    forall i :: 0 <= i < |s| ==> !Control(s[i])
  }

  /** The characters `strip(' ._')` removes. */
  const EDGE_CHARS: set<char> := {' ', '.', '_'}

  /** `re.sub(r'[<>:"/\\|?*]', '_', s)`. */
  function ReplaceUnsafe(s: string): (r: string)
    ensures |r| == |s| && NoUnsafe(r)
    ensures forall i :: 0 <= i < |s| ==> r[i] == if Unsafe(s[i]) then '_' else s[i]
  {
    seq(|s|, i requires 0 <= i < |s| => if Unsafe(s[i]) then '_' else s[i])
  }

  /** `s` without its leading whitespace. */
  function SkipSpace(s: string): (r: string)
    ensures |r| <= |s| && r == s[|s| - |r|..]
    ensures r != [] ==> !IsSpace(r[0])
  {
    if s != [] && IsSpace(s[0]) then SkipSpace(s[1..]) else s
  }

  /** `re.sub(r'\s+', '_', s)`: every run of whitespace becomes one '_'. */
  function CollapseSpace(s: string): string
    decreases |s|
  {
    if s == [] then []
    else if IsSpace(s[0]) then "_" + CollapseSpace(SkipSpace(s[1..]))
    else [s[0]] + CollapseSpace(s[1..])
  }

  /** Collapsing leaves no whitespace. */
  lemma {:induction false} CollapseLeavesNoSpace(s: string)
    ensures NoSpace(CollapseSpace(s))
    decreases |s|
  {
    if s != [] {
      if IsSpace(s[0]) {
        var rest := SkipSpace(s[1..]);
        CollapseLeavesNoSpace(rest);
        assert CollapseSpace(s) == "_" + CollapseSpace(rest);
      } else {
        CollapseLeavesNoSpace(s[1..]);
        assert CollapseSpace(s) == [s[0]] + CollapseSpace(s[1..]);
      }
    }
  }

  /** Collapsing brings in no unsafe character. */
  lemma {:induction false} CollapseKeepsSafe(s: string)
    requires NoUnsafe(s)
    ensures NoUnsafe(CollapseSpace(s))
    decreases |s|
  {
    if s != [] {
      if IsSpace(s[0]) {
        var rest := SkipSpace(s[1..]);
        assert NoUnsafe(s[1..]);
        SkipSpaceSafe(s[1..]);
        CollapseKeepsSafe(rest);
        assert CollapseSpace(s) == "_" + CollapseSpace(rest);
        assert !Unsafe('_');
        ConsSafe('_', CollapseSpace(rest));
      } else {
        assert NoUnsafe(s[1..]);
        CollapseKeepsSafe(s[1..]);
        assert CollapseSpace(s) == [s[0]] + CollapseSpace(s[1..]);
        ConsSafe(s[0], CollapseSpace(s[1..]));
      }
    }
  }

  lemma {:induction false} SkipSpaceSafe(t: string)
    requires NoUnsafe(t)
    ensures NoUnsafe(SkipSpace(t))
    decreases |t|
  {
    if t != [] && IsSpace(t[0]) {
      assert NoUnsafe(t[1..]);
      SkipSpaceSafe(t[1..]);
    }
  }

  lemma ConsSafe(c: char, t: string)
    requires !Unsafe(c) && NoUnsafe(t)
    ensures NoUnsafe([c] + t)
  {
    assert forall i :: 0 < i <= |t| ==> ([c] + t)[i] == t[i - 1];
  }

  /** Collapsing is the identity on a string without whitespace. */
  lemma {:induction false} CollapseWithoutSpace(s: string)
    requires NoSpace(s)
    ensures CollapseSpace(s) == s
  {
    if s != [] {
      assert NoSpace(s[1..]);
      CollapseWithoutSpace(s[1..]);
    }
  }

  /** `re.sub(r'[\x00-\x1f\x7f-\x9f]', '', s)`. */
  function RemoveControl(s: string): string {
    if s == [] then []
    else if Control(s[0]) then RemoveControl(s[1..])
    else [s[0]] + RemoveControl(s[1..])
  }

  /** Removal leaves no control character, keeps the absence of the other two
      classes and is the identity on a string without control characters. */
  lemma {:induction false} RemoveControlFacts(s: string)
    ensures NoControl(RemoveControl(s))
    ensures NoUnsafe(s) ==> NoUnsafe(RemoveControl(s))
    ensures NoSpace(s) ==> NoSpace(RemoveControl(s))
    ensures NoControl(s) ==> RemoveControl(s) == s
  {
    if s != [] {
      RemoveControlFacts(s[1..]);
      assert NoUnsafe(s) ==> NoUnsafe(s[1..]);
      assert NoSpace(s) ==> NoSpace(s[1..]);
      assert NoControl(s) ==> NoControl(s[1..]);
    }
  }

  /** `sanitized[:100].rstrip('._')`. */
  function Truncate(s: string): (r: string)
    ensures |r| <= 100 && |r| <= |s| && r == s[..|r|]
    ensures r != [] ==> r[|r| - 1] != '.' && r[|r| - 1] != '_'
  {
    var h := if |s| <= 100 then s else s[..100];
    RStrip(h, {'.', '_'})
  }

  /** The character passes of `_sanitize_filename`, up to the strip. */
  function Cleaned(name: string): string {
    Strip(RemoveControl(CollapseSpace(ReplaceUnsafe(name))), EDGE_CHARS)
  }

  /** The length cap above 200 UTF-8 bytes, then the fallback to "file". */
  function Capped(s: string): string {
    var t := if Utf8Length(s) > 200 then Truncate(s) else s;
    if t == [] then "file" else t
  }

  /** `_sanitize_filename`. */
  function SanitizeFilename(name: string): string {
    Capped(Cleaned(name))
  }

  /** All three character classes are absent. */
  predicate Allowed(s: string) {
    NoUnsafe(s) && NoSpace(s) && NoControl(s)
  }

  /** What a sanitised name looks like: not empty; no unsafe, whitespace or
      control character; no ' ', '.' or '_' at either end; and at most 200 UTF-8
      bytes or at most 100 characters. */
  predicate CleanName(s: string) {
    && s != [] && Allowed(s)
    && s[0] !in EDGE_CHARS && s[|s| - 1] !in EDGE_CHARS
    && (Utf8Length(s) <= 200 || |s| <= 100)
  }

  /** Stripping only takes characters off the ends. */
  lemma StripKeepsAllowed(c: string, chars: set<char>)
    requires Allowed(c)
    ensures Allowed(Strip(c, chars))
  {
    var l := LStrip(c, chars);
    assert Allowed(l);
    var r := RStrip(l, chars);
    assert Allowed(r);
    assert Strip(c, chars) == r;
  }

  /** Stripping a string whose ends are not stripped characters changes nothing. */
  lemma StripClean(s: string, chars: set<char>)
    requires s != [] && s[0] !in chars && s[|s| - 1] !in chars
    ensures Strip(s, chars) == s
  {
    assert LStrip(s, chars) == s;
    assert RStrip(s, chars) == s;
  }

  /** The character passes leave an allowed string with clean ends. */
  lemma CleanedFacts(name: string)
    ensures var s := Cleaned(name);
            Allowed(s) && (s != [] ==> s[0] !in EDGE_CHARS && s[|s| - 1] !in EDGE_CHARS)
  {
    var a := ReplaceUnsafe(name);
    var b := CollapseSpace(a);
    CollapseLeavesNoSpace(a);
    CollapseKeepsSafe(a);
    var c := RemoveControl(b);
    RemoveControlFacts(b);
    StripKeepsAllowed(c, EDGE_CHARS);
  }

  /** The cap keeps an allowed string with clean ends clean. */
  lemma CappedFacts(s: string)
    requires Allowed(s) && (s != [] ==> s[0] !in EDGE_CHARS && s[|s| - 1] !in EDGE_CHARS)
    ensures CleanName(Capped(s))
  {
    if Utf8Length(s) > 200 {
      var t := Truncate(s);
      assert Allowed(t);
      if t != [] {
        assert t[0] == s[0];
        assert t[|t| - 1] == s[|t| - 1];
      }
    } else if s == [] {
      assert Capped(s) == "file";
      assert Allowed("file");
    }
  }

  /** Every output of the sanitiser is a clean name. */
  lemma SanitizedIsClean(name: string)
    ensures CleanName(SanitizeFilename(name))
  {
    CleanedFacts(name);
    CappedFacts(Cleaned(name));
  }

  /** The character passes leave an allowed string with clean ends as it is. */
  lemma CleanedUnchanged(s: string)
    requires Allowed(s) && s != [] && s[0] !in EDGE_CHARS && s[|s| - 1] !in EDGE_CHARS
    ensures Cleaned(s) == s
  {
    assert ReplaceUnsafe(s) == s;
    CollapseWithoutSpace(s);
    RemoveControlFacts(s);
    StripClean(s, EDGE_CHARS);
  }

  /** The cap leaves a clean name as it is. */
  lemma CappedUnchanged(s: string)
    requires CleanName(s)
    ensures Capped(s) == s
  {
    if Utf8Length(s) > 200 {
      assert RStrip(s, {'.', '_'}) == s;
    }
  }

  /** A clean name is left as it is. */
  lemma CleanNameUnchanged(name: string)
    requires CleanName(name)
    ensures SanitizeFilename(name) == name
  {
    CleanedUnchanged(name);
    CappedUnchanged(name);
  }

  /** Sanitising twice is sanitising once. */
  lemma SanitizeIdempotent(name: string)
    ensures SanitizeFilename(SanitizeFilename(name)) == SanitizeFilename(name)
  {
    SanitizedIsClean(name);
    CleanNameUnchanged(SanitizeFilename(name));
  }

  // ---------------------------------------------------------------- file names

  /** `generate_content_based_filename`, given the digest the file produced. */
  function ContentBasedFilename(p: Path, digest: Option<string>): (r: Option<string>)
    ensures r.None? <==> digest.None?
  {
    match digest
    case None => None
    case Some(h) => Some(HashToUuid(h) + Lower(Suffix(p)))
  }

  /** `generate_filename_with_original_name`, given the digest. */
  function FilenameWithOriginalName(p: Path, digest: Option<string>): (r: Option<string>)
    ensures r.None? <==> digest.None?
  {
    match digest
    case None => None
    case Some(h) => Some(SanitizeFilename(Stem(p)) + "_" + HashToUuid(h) + Lower(Suffix(p)))
  }

  /** Lower-casing keeps dots where they are and adds none. */
  lemma LowerKeepsDots(s: string)
    ensures forall i :: 0 <= i < |s| ==> (Lower(s)[i] == '.' <==> s[i] == '.')
  {
  }

  /** The suffix of `base + ext`, where `base` has no dot and `ext` is a suffix. */
  lemma SuffixAfterDotless(base: string, ext: string)
    requires base != [] && ext != []
    requires ext[0] == '.' && forall j :: 1 <= j < |ext| ==> ext[j] != '.'
    requires |ext| >= 2
    ensures Suffix(Path([base + ext])) == ext && Stem(Path([base + ext])) == base
  {
    var q := Path([base + ext]);
    assert ext == "." + ext[1..];
    assert base + ext == base + "." + ext[1..];
    SuffixOfDotted(q, base, ext[1..]);
  }

  /** The identifier of a digest without dots has none either. */
  lemma UuidDotless(h: string)
    requires forall i :: 0 <= i < |h| ==> h[i] != '.'
    ensures forall i :: 0 <= i < 36 ==> HashToUuid(h)[i] != '.'
  {
    var v := Normalize32(h);
    assert forall i :: 0 <= i < 32 ==> v[i] != '.';
  }

  /** A content-based name keeps the file's suffix, lower-cased, after the
      36-character identifier; without a suffix it is the identifier alone. */
  lemma ContentNameKeepsSuffix(p: Path, h: string)
    requires forall i :: 0 <= i < |h| ==> h[i] != '.'
    ensures var n := ContentBasedFilename(p, Some(h)).value;
            && n[..36] == HashToUuid(h)
            && Suffix(Path([n])) == Lower(Suffix(p))
  {
    var u := HashToUuid(h);
    var e := Lower(Suffix(p));
    var n := u + e;
    assert n[..36] == u;
    UuidDotless(h);
    LowerKeepsDots(Suffix(p));
    if e == [] {
      assert n == u;
      assert LastDot(n).None?;
    } else {
      SuffixAfterDotless(u, e);
    }
  }

  /** A name built from the original stem splits back, at its suffix, into the
      lower-cased suffix and the sanitised stem followed by '_' and the
      identifier. */
  lemma OriginalNameLayout(p: Path, h: string)
    requires forall i :: 0 <= i < |h| ==> h[i] != '.'
    requires Suffix(p) != []
    ensures var n := FilenameWithOriginalName(p, Some(h)).value;
            && Suffix(Path([n])) == Lower(Suffix(p))
            && Stem(Path([n])) == SanitizeFilename(Stem(p)) + "_" + HashToUuid(h)
  {
    var base := SanitizeFilename(Stem(p)) + "_" + HashToUuid(h);
    var e := Lower(Suffix(p));
    LowerKeepsDots(Suffix(p));
    assert FilenameWithOriginalName(p, Some(h)).value == base + e;
    SuffixAfterDotless(base, e);
  }
}
