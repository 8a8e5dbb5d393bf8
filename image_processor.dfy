/** `ImageProcessor`: the decisions around the image codec. The pixels and the
    codec itself are not modelled; what is modelled is the size an image is
    scaled to, the options it is saved with, and the name a processed file
    gets. The clock and the random source are parameters. */
module ImageProcessor {
  import opened Wrappers
  import opened Text
  import opened Paths
  import opened Config

  // ------------------------------------------------------------------ resize

  /** `_resize_image`'s size rule for a `width` x `height` image and a positive
      `max_size` (the caller only resizes when the setting is positive). The
      float division followed by `int(...)` is the floor of the exact quotient. */
  function ResizeDimensions(width: nat, height: nat, maxSize: nat): (r: (nat, nat))
    requires maxSize > 0
  {
    if width <= maxSize && height <= maxSize then (width, height)
    else if width > height then (maxSize, height * maxSize / width)
    else (width * maxSize / height, maxSize)
  }

  /** An image that already fits is left as it is. */
  lemma FittingImageUnchanged(width: nat, height: nat, maxSize: nat)
    requires maxSize > 0
    ensures ResizeDimensions(width, height, maxSize) == (width, height)
            <==> (width <= maxSize && height <= maxSize)
  {
    if !(width <= maxSize && height <= maxSize) {
      var r := ResizeDimensions(width, height, maxSize);
      if width > height {
        assert r.0 == maxSize < width;
      } else {
        assert r.1 == maxSize < height;
      }
    }
  }

  /** After a resize the longer side (the height for a square image) is exactly
      `max_size`, neither side exceeds it, and neither side grows. */
  lemma ResizedFitsBox(width: nat, height: nat, maxSize: nat)
    requires maxSize > 0
    requires width > maxSize || height > maxSize
    ensures var r := ResizeDimensions(width, height, maxSize);
            && r.0 <= maxSize && r.1 <= maxSize
            && r.0 <= width && r.1 <= height
            && (width > height ==> r.0 == maxSize)
            && (width <= height ==> r.1 == maxSize)
  {
    if width > height {
      ScaledDown(height, maxSize, width);
    } else {
      ScaledDown(width, maxSize, height);
    }
  }

  /** `a * m / b` for `m < b` and `a <= b` is at most both `a` and `m`. */
  lemma ScaledDown(a: nat, m: nat, b: nat)
    requires 0 < m < b && a <= b
    ensures a * m / b <= m && a * m / b <= a
  {
    var q := a * m / b;
    FloorBounds(a * m, b);
    MulLe(a, b, m);
    assert a * m < (m + 1) * b;
    ProductBound(q, m, b);
    MulLe(m, b, a);
    assert a * m < (a + 1) * b;
    ProductBound(q, a, b);
  }

  lemma MulLe(a: nat, b: nat, m: nat)
    requires a <= b
    ensures a * m <= b * m
  {
  }

  lemma ProductBound(q: nat, m: nat, b: nat)
    requires b > 0 && q * b < (m + 1) * b
    ensures q <= m
  {
  }

  /** The scaled side keeps the aspect ratio up to the truncation: it is the
      largest side that does not exceed the exact proportion. */
  lemma ResizeKeepsAspect(width: nat, height: nat, maxSize: nat)
    requires maxSize > 0
    requires width > maxSize || height > maxSize
    ensures var r := ResizeDimensions(width, height, maxSize);
            && (width > height ==> r.1 * width <= height * maxSize < (r.1 + 1) * width)
            && (width <= height ==> r.0 * height <= width * maxSize < (r.0 + 1) * height)
  {
    if width > height {
      FloorBounds(height * maxSize, width);
    } else {
      FloorBounds(width * maxSize, height);
    }
  }

  lemma FloorBounds(x: nat, d: nat)
    requires d > 0
    ensures (x / d) * d <= x < (x / d + 1) * d
  {
  }

  // ------------------------------------------------------------- saving

  /** The keyword arguments of `img.save`: a quality and `optimize=True`, or
      none at all. */
  datatype SaveOptions = Defaults | Compressed(quality: int, optimize: bool)

  const JPEG_SUFFIXES := [".jpg", ".jpeg"]

  /** The options `process_image` saves with: compressed only when compression
      is on and the output's lower-cased suffix is a JPEG one. */
  function SaveOptionsFor(c: Settings, output: Path): (r: SaveOptions)
    ensures r.Compressed? <==> c.enableCompression && Lower(Suffix(output)) in JPEG_SUFFIXES
    ensures r.Compressed? ==> r.quality == c.compressionQuality && r.optimize
  {
    if c.enableCompression && Lower(Suffix(output)) in JPEG_SUFFIXES then
      Compressed(c.compressionQuality, true)
    else Defaults
  }

  /** What `process_image` makes of an image of the given size: the size it
      saves and the options it saves with. */
  datatype Plan = Plan(width: nat, height: nat, options: SaveOptions)

  /** `process_image`'s decisions: scale only when `max_image_size` is
      positive, then choose the save options. */
  function PlanImage(width: nat, height: nat, c: Settings, output: Path): (r: Plan)
    ensures c.maxImageSize > 0 ==> r.width <= c.maxImageSize && r.height <= c.maxImageSize
    ensures c.maxImageSize > 0 ==> r.width <= width && r.height <= height
    ensures c.maxImageSize <= 0 ==> r.width == width && r.height == height
    ensures c.maxImageSize > 0 ==> (r.width, r.height) == ResizeDimensions(width, height, c.maxImageSize as nat)
    ensures c.maxImageSize > 0 && width <= c.maxImageSize && height <= c.maxImageSize ==>
              r.width == width && r.height == height
    ensures r.options == SaveOptionsFor(c, output)
  {
    var size :=
      if c.maxImageSize > 0 then
        var m := c.maxImageSize as nat;
        (if width > m || height > m then ResizedFitsBox(width, height, m); ResizeDimensions(width, height, m)
         else ResizeDimensions(width, height, m))
      else (width, height);
    Plan(size.0, size.1, SaveOptionsFor(c, output))
  }

  // -------------------------------------------------------------- names

  /** A reading of `datetime.now()`. */
  datatype DateTime = DateTime(year: nat, month: nat, day: nat,
                               hour: nat, minute: nat, second: nat, microsecond: nat)

  predicate ValidDateTime(t: DateTime) {
    && 1 <= t.year <= 9999 && 1 <= t.month <= 12 && 1 <= t.day <= 31
    && t.hour < 24 && t.minute < 60 && t.second < 60 && t.microsecond < 1000000
  }

  /** The last `w` decimal digits of `n`, zero-padded: `%0wd` for `n < 10^w`. */
  function Digits(n: nat, w: nat): (r: string)
    ensures |r| == w
    ensures forall i :: 0 <= i < w ==> IsAsciiDigit(r[i])
  {
    if w == 0 then "" else Digits(n / 10, w - 1) + [DigitChar(n % 10)]
  }

  /** `%Y%m%d_%H%M%S`; `%Y` is not padded (the C library's behaviour). */
  function DateStamp(t: DateTime): string {
    NatToString(t.year) + Digits(t.month, 2) + Digits(t.day, 2) + "_"
    + Digits(t.hour, 2) + Digits(t.minute, 2) + Digits(t.second, 2)
  }

  /** `strftime("%Y%m%d_%H%M%S_%f")[:-3]`: the microseconds cut to milliseconds. */
  function MillisStamp(t: DateTime): (r: string)
    ensures |r| == |DateStamp(t)| + 4
    ensures r[..|DateStamp(t)|] == DateStamp(t) && r[|DateStamp(t)|] == '_'
  {
    var full := DateStamp(t) + "_" + Digits(t.microsecond, 6);
    full[..|full| - 3]
  }

  /** The cut keeps the first three of the six microsecond digits, which are
      the milliseconds. */
  lemma MillisAreMilliseconds(t: DateTime)
    requires ValidDateTime(t)
    ensures MillisStamp(t) == DateStamp(t) + "_" + Digits(t.microsecond / 1000, 3)
  {
    var us := t.microsecond;
    var d6 := Digits(us, 6);
    assert d6 == Digits(us / 10, 5) + [DigitChar(us % 10)];
    assert Digits(us / 10, 5) == Digits(us / 10 / 10, 4) + [DigitChar(us / 10 % 10)];
    assert Digits(us / 10 / 10, 4) == Digits(us / 10 / 10 / 10, 3) + [DigitChar(us / 10 / 10 % 10)];
    assert us / 10 / 10 / 10 == us / 1000;
    assert d6[..3] == Digits(us / 1000, 3);
    var full := DateStamp(t) + "_" + d6;
    assert full[..|full| - 3] == DateStamp(t) + "_" + d6[..3];
  }

  /** A four-digit year gives a stamp of fixed length. */
  lemma DateStampLength(t: DateTime)
    requires 1000 <= t.year <= 9999
    ensures |DateStamp(t)| == 15
  {
    YearDigits(t.year);
  }

  lemma YearDigits(y: nat)
    requires 1000 <= y <= 9999
    ensures |NatToString(y)| == 4
  {
    var a, b, c := y / 10, y / 10 / 10, y / 10 / 10 / 10;
    assert 1 <= c < 10;
    assert |NatToString(c)| == 1;
    assert 10 <= b < 100 && b / 10 == c;
    assert |NatToString(b)| == 2;
    assert 100 <= a < 1000 && a / 10 == b;
    assert |NatToString(a)| == 3;
    assert y >= 10 && y / 10 == a;
  }

  /** `f"{n:x}"` for one hexadecimal digit. */
  function HexDigit(d: nat): (c: char)
    requires d < 16
    ensures c in "0123456789abcdef"
  {
    "0123456789abcdef"[d]
  }

  /** The sixteen random bytes with the version (4) and variant (RFC 4122)
      bits set, as `uuid.uuid4` does. */
  function Uuid4Bytes(random: seq<nat>): (b: seq<nat>)
    requires |random| == 16 && forall i :: 0 <= i < 16 ==> random[i] < 256
    ensures |b| == 16 && forall i :: 0 <= i < 16 ==> b[i] < 256
    ensures b[6] / 16 == 4 && 8 <= b[8] / 16 <= 11
  {
    random[6 := random[6] % 16 + 64][8 := random[8] % 64 + 128]
  }

  /** `uuid.uuid4().hex` from the sixteen bytes `os.urandom` produced. */
  function Uuid4Hex(random: seq<nat>): (r: string)
    requires |random| == 16 && forall i :: 0 <= i < 16 ==> random[i] < 256
    ensures |r| == 32
    ensures forall i :: 0 <= i < 32 ==> r[i] in "0123456789abcdef"
  {
    var b := Uuid4Bytes(random);
    seq(32, i requires 0 <= i < 32 => if i % 2 == 0 then HexDigit(b[i / 2] / 16) else HexDigit(b[i / 2] % 16))
  }

  /** The version digit is '4' and the variant digit one of 8, 9, a, b. */
  lemma Uuid4Marks(random: seq<nat>)
    requires |random| == 16 && forall i :: 0 <= i < 16 ==> random[i] < 256
    ensures Uuid4Hex(random)[12] == '4'
    ensures Uuid4Hex(random)[16] in "89ab"
  {
    var b := Uuid4Bytes(random);
    assert Uuid4Hex(random)[12] == HexDigit(b[6] / 16);
    assert Uuid4Hex(random)[16] == HexDigit(b[8] / 16);
  }

  /** `generate_filename`. `now` and `random` stand for the clock and the
      random source, which are read only by the formats that need them. */
  function GenerateFilename(p: Path, c: Settings, now: DateTime, random: seq<nat>): (r: string)
    requires |random| == 16 && forall i :: 0 <= i < 16 ==> random[i] < 256
    ensures c.filenameFormat !in ["timestamp", "uuid", "custom"] ==> r == Name(p)
    ensures c.filenameFormat == "timestamp" ==> r == MillisStamp(now) + Lower(Suffix(p))
    ensures c.filenameFormat == "uuid" ==> r == Uuid4Hex(random) + Lower(Suffix(p))
    ensures c.filenameFormat == "custom" ==> r == c.customPrefix + DateStamp(now) + Lower(Suffix(p))
  {
    var extension := Lower(Suffix(p));
    if c.filenameFormat == "original" then Name(p)
    else if c.filenameFormat == "timestamp" then MillisStamp(now) + extension
    else if c.filenameFormat == "uuid" then Uuid4Hex(random) + extension
    else if c.filenameFormat == "custom" then c.customPrefix + DateStamp(now) + extension
    else Name(p)
  }

  /** A stamp or identifier has no dot, so a generated name's own suffix is the
      original's lower-cased suffix; a custom name starts with the prefix.
      Without a suffix the name is the stamp or identifier alone. */
  lemma GeneratedNameKeepsSuffix(p: Path, c: Settings, now: DateTime, random: seq<nat>)
    requires |random| == 16 && forall i :: 0 <= i < 16 ==> random[i] < 256
    requires c.filenameFormat in ["timestamp", "uuid", "custom"]
    requires forall i :: 0 <= i < |c.customPrefix| ==> c.customPrefix[i] != '.'
    ensures var r := GenerateFilename(p, c, now, random);
            && Suffix(Path([r])) == Lower(Suffix(p))
            && (c.filenameFormat == "custom" ==> r[..|c.customPrefix|] == c.customPrefix)
  {
    var r := GenerateFilename(p, c, now, random);
    if c.filenameFormat == "timestamp" {
      assert r == MillisStamp(now) + Lower(Suffix(p));
      DateStampDotless(now);
      StampedNameSuffix(MillisStamp(now), p);
    } else if c.filenameFormat == "uuid" {
      assert r == Uuid4Hex(random) + Lower(Suffix(p));
      StampedNameSuffix(Uuid4Hex(random), p);
    } else {
      assert r == c.customPrefix + DateStamp(now) + Lower(Suffix(p));
      CustomNameSuffix(c.customPrefix, now, p);
    }
  }

  lemma CustomNameSuffix(prefix: string, now: DateTime, p: Path)
    requires forall i :: 0 <= i < |prefix| ==> prefix[i] != '.'
    ensures var r := prefix + DateStamp(now) + Lower(Suffix(p));
            && Suffix(Path([r])) == Lower(Suffix(p))
            && r[..|prefix|] == prefix
  {
    DateStampDotless(now);
    PrefixedNameSuffix(prefix, DateStamp(now), p);
  }

  lemma PrefixedNameSuffix(prefix: string, stamp: string, p: Path)
    requires forall i :: 0 <= i < |prefix| ==> prefix[i] != '.'
    requires stamp != [] && forall i :: 0 <= i < |stamp| ==> stamp[i] != '.'
    ensures var r := prefix + stamp + Lower(Suffix(p));
            && Suffix(Path([r])) == Lower(Suffix(p))
            && r[..|prefix|] == prefix
  {
    var base := prefix + stamp;
    assert forall i :: 0 <= i < |base| ==> base[i] != '.' by {
      forall i | 0 <= i < |base| ensures base[i] != '.' {
        if i < |prefix| { assert base[i] == prefix[i]; }
        else { assert base[i] == stamp[i - |prefix|]; }
      }
    }
    StampedNameSuffix(base, p);
    var e := Lower(Suffix(p));
    assert (base + e)[..|prefix|] == prefix;
  }

  /** A dotless base followed by the lower-cased suffix of `p` has that suffix. */
  lemma StampedNameSuffix(base: string, p: Path)
    requires base != [] && forall i :: 0 <= i < |base| ==> base[i] != '.'
    ensures Suffix(Path([base + Lower(Suffix(p))])) == Lower(Suffix(p))
  {
    LowerOfSuffix(Suffix(p));
    DotlessBaseSuffix(base, Lower(Suffix(p)));
  }

  /** A dotless base followed by a suffix has that suffix. */
  lemma DotlessBaseSuffix(base: string, e: string)
    requires base != [] && forall i :: 0 <= i < |base| ==> base[i] != '.'
    requires e == [] || (|e| >= 2 && e[0] == '.' && forall j :: 1 <= j < |e| ==> e[j] != '.')
    ensures Suffix(Path([base + e])) == e
  {
    if e == [] {
      assert base + e == base;
      NoDotNoSuffix(base);
    } else {
      assert base + e == base + "." + e[1..];
      SuffixOfDotted(Path([base + e]), base, e[1..]);
    }
  }

  lemma DateStampDotless(t: DateTime)
    ensures |DateStamp(t)| >= 12
    ensures forall i :: 0 <= i < |DateStamp(t)| ==> DateStamp(t)[i] != '.'
    ensures forall i :: 0 <= i < |MillisStamp(t)| ==> MillisStamp(t)[i] != '.'
  {
    var d := DateStamp(t);
    var m := MillisStamp(t);
    assert forall i :: 0 <= i < |d| ==> m[i] == d[i];
  }

  /** The lower-cased suffix still starts with its dot and has no other. */
  lemma LowerOfSuffix(s: string)
    requires s == [] || (|s| >= 2 && s[0] == '.' && forall j :: 1 <= j < |s| ==> s[j] != '.')
    ensures var e := Lower(s);
            e == [] || (|e| >= 2 && e[0] == '.' && forall j :: 1 <= j < |e| ==> e[j] != '.')
  {
  }

  lemma NoDotNoSuffix(n: string)
    requires forall i :: 0 <= i < |n| ==> n[i] != '.'
    ensures Suffix(Path([n])) == []
  {
  }
}
