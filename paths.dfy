/** File-system paths as `pathlib.PurePosixPath` sees them: a list of components.
    `name`, `stem`, `suffix`, `parent`, `/` and the ordering that `sorted()` uses
    on a list of paths. */
module Paths {
  import opened Wrappers
  import opened Text

  /** A path is its list of components; the last one is the file name. */
  datatype Path = Path(parts: seq<string>)

  /** `str(p)`: the components joined with '/'. */
  function Str(p: Path): string {
    Join(p.parts, '/')
  }

  /** `p.name`: the last component, or "" for the empty path. */
  function Name(p: Path): (n: string)
    ensures p.parts != [] ==> n == p.parts[|p.parts| - 1]
  {
    if p.parts == [] then "" else p.parts[|p.parts| - 1]
  }

  /** `p.parent`. */
  function Parent(p: Path): (q: Path)
    ensures p.parts != [] ==> p.parts == q.parts + [Name(p)]
  {
    if p.parts == [] then p else Path(p.parts[..|p.parts| - 1])
  }

  /** `p / name`. */
  function Child(p: Path, name: string): (q: Path)
    ensures Name(q) == name && Parent(q) == p
  {
    assert (p.parts + [name])[..|p.parts|] == p.parts;
    Path(p.parts + [name])
  }

  lemma ParentChild(p: Path)
    requires p.parts != []
    ensures Child(Parent(p), Name(p)) == p
  {
  }

  /** The index of the last '.' in `s`, if any. */
  function LastDot(s: string): (r: Option<nat>)
    ensures r.Some? ==>
              r.value < |s| && s[r.value] == '.' && (forall j :: r.value < j < |s| ==> s[j] != '.')
    ensures r.None? ==> forall j :: 0 <= j < |s| ==> s[j] != '.'
  {
    if s == [] then None
    else if s[|s| - 1] == '.' then Some(|s| - 1)
    else LastDot(s[..|s| - 1])
  }

  /** The index where the suffix starts: the last dot, unless it is the first or
      the final character of the name (a leading-dot name such as ".env" and a
      trailing dot have no suffix). */
  function SuffixStart(name: string): (i: nat)
    ensures i <= |name|
  {
    match LastDot(name)
    case Some(d) => if 0 < d < |name| - 1 then d else |name|
    case None => |name|
  }

  /** `p.suffix`: empty, or a '.' followed by at least one character, none of
      them a '.'. */
  function Suffix(p: Path): (s: string)
    ensures s == [] || (|s| >= 2 && s[0] == '.' && forall j :: 1 <= j < |s| ==> s[j] != '.')
  {
    var n := Name(p);
    n[SuffixStart(n)..]
  }

  /** `p.stem`. */
  function Stem(p: Path): (s: string)
    ensures s + Suffix(p) == Name(p)
  {
    var n := Name(p);
    n[..SuffixStart(n)]
  }

  /** A name with a dot strictly inside it, after which no dot follows, splits at that dot. */
  lemma SuffixOfDotted(p: Path, base: string, ext: string)
    requires base != [] && ext != []
    requires forall j :: 0 <= j < |ext| ==> ext[j] != '.'
    requires Name(p) == base + "." + ext
    ensures Suffix(p) == "." + ext && Stem(p) == base
  {
    var n := Name(p);
    var d := |base|;
    assert n[d] == '.';
    match LastDot(n)
    case None =>
      assert false;
    case Some(e) =>
      assert forall j :: d < j < |n| ==> n[j] == ext[j - d - 1];
      assert e == d;
  }

  /** `p.with_name(name)` for the sibling that keeps the directory. */
  function Sibling(p: Path, name: string): (q: Path)
    ensures Parent(q) == Parent(p) && Name(q) == name
  {
    Child(Parent(p), name)
  }

  /** `q` lies strictly below `d`. */
  predicate Below(q: Path, d: Path) {
    |d.parts| < |q.parts| && q.parts[..|d.parts|] == d.parts
  }

  // ---------------------------------------------------------------- ordering

  /** `a < b` for Python strings: code point by code point. */
  predicate StrLess(a: string, b: string)
    decreases |a|
  {
    if a == [] then b != []
    else if b == [] then false
    else if a[0] != b[0] then a[0] < b[0]
    else StrLess(a[1..], b[1..])
  }

  /** `a < b` for paths: component lists compared lexicographically. */
  predicate PathLess(a: Path, b: Path) {
    PartsLess(a.parts, b.parts)
  }

  predicate PartsLess(a: seq<string>, b: seq<string>)
    decreases |a|
  {
    if a == [] then b != []
    else if b == [] then false
    else if a[0] != b[0] then StrLess(a[0], b[0])
    else PartsLess(a[1..], b[1..])
  }

  lemma {:induction false} StrLessIrreflexive(a: string)
    ensures !StrLess(a, a)
    decreases |a|
  {
    if a != [] {
      StrLessIrreflexive(a[1..]);
    }
  }

  lemma {:induction false} StrLessTotal(a: string, b: string)
    ensures a == b || StrLess(a, b) || StrLess(b, a)
    decreases |a|
  {
    if a != [] && b != [] && a[0] == b[0] {
      StrLessTotal(a[1..], b[1..]);
      if a[1..] == b[1..] {
        assert a == [a[0]] + a[1..] && b == [b[0]] + b[1..];
      }
    }
  }

  lemma {:induction false} StrLessAsymmetric(a: string, b: string)
    requires StrLess(a, b)
    ensures !StrLess(b, a)
    decreases |a|
  {
    if a != [] && b != [] && a[0] == b[0] {
      StrLessAsymmetric(a[1..], b[1..]);
    }
  }

  lemma {:induction false} StrLessTransitive(a: string, b: string, c: string)
    requires StrLess(a, b) && StrLess(b, c)
    ensures StrLess(a, c)
    decreases |a|
  {
    if a != [] && a[0] == b[0] && b[0] == c[0] {
      StrLessTransitive(a[1..], b[1..], c[1..]);
    }
  }

  lemma {:induction false} PartsLessIrreflexive(a: seq<string>)
    ensures !PartsLess(a, a)
    decreases |a|
  {
    if a != [] {
      PartsLessIrreflexive(a[1..]);
    }
  }

  lemma {:induction false} PartsLessTotal(a: seq<string>, b: seq<string>)
    ensures a == b || PartsLess(a, b) || PartsLess(b, a)
    decreases |a|
  {
    if a != [] && b != [] {
      if a[0] == b[0] {
        PartsLessTotal(a[1..], b[1..]);
        if a[1..] == b[1..] {
          assert a == [a[0]] + a[1..] && b == [b[0]] + b[1..];
        }
      } else {
        StrLessTotal(a[0], b[0]);
      }
    }
  }

  lemma {:induction false} PartsLessAsymmetric(a: seq<string>, b: seq<string>)
    requires PartsLess(a, b)
    ensures !PartsLess(b, a)
    decreases |a|
  {
    if a != [] && b != [] {
      if a[0] == b[0] {
        PartsLessAsymmetric(a[1..], b[1..]);
      } else {
        StrLessAsymmetric(a[0], b[0]);
      }
    }
  }

  lemma {:induction false} PartsLessTransitive(a: seq<string>, b: seq<string>, c: seq<string>)
    requires PartsLess(a, b) && PartsLess(b, c)
    ensures PartsLess(a, c)
    decreases |a|
  {
    if a != [] && b != [] && c != [] {
      if a[0] == b[0] && b[0] == c[0] {
        PartsLessTransitive(a[1..], b[1..], c[1..]);
      } else if a[0] == b[0] {
      } else if b[0] == c[0] {
      } else {
        StrLessTransitive(a[0], b[0], c[0]);
        if a[0] == c[0] {
          StrLessAsymmetric(a[0], b[0]);
        }
      }
    }
  }
}
