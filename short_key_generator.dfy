/** The short-key allocator: it picks a key length from the sequence table,
    draws candidate keys over a 62-character alphabet, rejects reserved and used
    ones, counts the key it hands out, and moves to a longer length when a
    length is nearly full or 100 draws in a row are rejected.

    The randomness (`secrets.token_hex`, `secrets.token_bytes` and the salted
    `hash()` mixed into each position) is an `Entropy` value the caller passes;
    only the alphabet and the length of a candidate depend on the code. */
module ShortKeyGenerator {
  import opened Wrappers
  import opened Text
  import opened Models
  import opened Schema
  import opened Store

  /** `string.digits`, `string.ascii_lowercase` and `string.ascii_uppercase`. */
  function CharRange(first: char, n: nat): (r: string)
    requires first as int + n <= 0xD800
    ensures |r| == n && forall i :: 0 <= i < n ==> r[i] as int == first as int + i
  {
    seq(n, i requires 0 <= i < n => (first as int + i) as char)
  }

  const DIGITS: string := CharRange('0', 10)
  const ASCII_LOWERCASE: string := CharRange('a', 26)
  const ASCII_UPPERCASE: string := CharRange('A', 26)

  /** Digits, then lower-case, then upper-case letters. */
  const CHARSET: string := DIGITS + ASCII_LOWERCASE + ASCII_UPPERCASE
  const SALT_LENGTH: nat := 16
  const MAX_ATTEMPTS: nat := 100
  const MAX_ALLOWED_LENGTH: int := 12

  /** The secrets the generator draws: the salt of one call, and the random
      integer mixed into position `i` of draw `d`, `pick(d, i)`. Draws 0..99 are
      the first length's attempts and draws 100..199 the escalated length's. */
  datatype Entropy = Entropy(salt: string, pick: (nat, nat) -> nat)

  /** What `generate_short_key` returns: the key, its length and the salt. */
  datatype Minted = Minted(key: string, length: int, salt: string)

  lemma CharsetIsAlphanumeric()
    ensures |CHARSET| == 62
    ensures forall c :: c in CHARSET <==> IsAsciiAlnum(c)
    ensures forall i, j :: 0 <= i < j < |CHARSET| ==> CHARSET[i] != CHARSET[j]
  {
    assert forall i :: 0 <= i < 10 ==> CHARSET[i] == DIGITS[i];
    assert forall i :: 10 <= i < 36 ==> CHARSET[i] == ASCII_LOWERCASE[i - 10];
    assert forall i :: 36 <= i < 62 ==> CHARSET[i] == ASCII_UPPERCASE[i - 36];
    forall c | IsAsciiAlnum(c)
      ensures c in CHARSET
    {
      if IsAsciiDigit(c) {
        assert CHARSET[c as int - '0' as int] == c;
      } else if IsAsciiLower(c) {
        assert CHARSET[c as int - 'a' as int + 10] == c;
      } else {
        assert CHARSET[c as int - 'A' as int + 36] == c;
      }
    }
  }

  // ---------------------------------------------------------------- capacity

  function Pow(b: nat, e: nat): (r: nat)
    ensures b >= 1 ==> r >= 1
  {
    if e == 0 then 1 else b * Pow(b, e - 1)
  }

  /** `int(62 ** length * 0.999)` in exact arithmetic: 0.1% of the combinations
      are set aside. (A negative length gives 0 combinations.) */
  function MaxPossible(length: int): (m: nat)
    ensures length >= 1 ==> 61 <= m < Pow(62, length)
  {
    if length < 0 then 0
    else
      var total := Pow(|CHARSET|, length);
      assert length >= 1 ==> total >= 62 by {
        if length >= 1 {
          PowGrows(length);
        }
      }
      total * 999 / 1000
  }

  lemma {:induction false} PowGrows(e: nat)
    requires e >= 1
    ensures Pow(62, e) >= 62
  {
    if e > 1 {
      PowGrows(e - 1);
    }
  }

  /** The longest length whose new row can be stored: from length 11 on,
      `max_possible` exceeds SQLite's largest INTEGER. */
  const MAX_STORABLE_LENGTH: int := 10

  /** Both parameters of a new row for `length` can be bound. */
  predicate RowBinds(length: int) {
    Bindable(length) && Bindable(MaxPossible(length))
  }

  lemma {:induction false} PowMonotone(a: nat, b: nat)
    requires a <= b
    ensures Pow(62, a) <= Pow(62, b)
    decreases b - a
  {
    if a < b {
      PowMonotone(a, b - 1);
    }
  }

  /** A new row binds exactly up to length 10. */
  lemma RowBindsUpToTen(length: int)
    requires length >= 0
    ensures RowBinds(length) <==> length <= MAX_STORABLE_LENGTH
  {
    assert Pow(62, 10) == 839299365868340224;
    assert Pow(62, 11) == 52036560683837093888;
    if length <= MAX_STORABLE_LENGTH {
      PowMonotone(length, 10);
    } else {
      PowMonotone(11, length);
    }
  }

  lemma MaxPossibleOfFour()
    ensures MaxPossible(4) == 14761559
  {
    assert Pow(62, 4) == 14776336;
  }

  // ---------------------------------------------------------------- candidates

  /** What `_generate_key_with_length(length, salt, draw)` returns: one character
      per position, chosen by the draw's random integer modulo 62. */
  function CandidateKey(length: int, e: Entropy, draw: nat): (k: string)
    ensures |k| == if length < 0 then 0 else length
    ensures forall i :: 0 <= i < |k| ==> k[i] == PickChar(e.pick(draw, i))
  {
    var n := if length < 0 then 0 else length;
    seq(n, i requires 0 <= i < n => PickChar(e.pick(draw, i)))
  }

  /** `CHARSET[combined % len(CHARSET)]`; the length is written out as 62
      (`CharsetIsAlphanumeric`), which keeps the remainder linear. */
  function PickChar(combined: nat): (c: char)
    ensures IsAsciiAlnum(c)
  {
    CharsetIsAlphanumeric();
    CHARSET[combined % 62]
  }

  /** A candidate is rejected when it is reserved or some record of any status
      already holds it. */
  predicate Rejected(t: Tables, key: string) {
    KeyReserved(t, key) || KeyUsed(t, key)
  }

  /** Attempt `a` (draw base + a) at this length is rejected. */
  predicate RejectedAt(t: Tables, length: int, e: Entropy, base: nat, a: nat) {
    Rejected(t, CandidateKey(length, e, base + a))
  }

  /** The first attempt in [from, 100) whose candidate (of draw base + attempt)
      is not rejected, with that candidate. */
  function FirstFree(t: Tables, length: int, e: Entropy, base: nat, from: nat): (r: Option<(nat, string)>)
    ensures r.Some? ==>
              && from <= r.value.0 < MAX_ATTEMPTS
              && r.value.1 == CandidateKey(length, e, base + r.value.0)
              && !Rejected(t, r.value.1)
    decreases MAX_ATTEMPTS - from
  {
    if from >= MAX_ATTEMPTS then None
    else
      var key := CandidateKey(length, e, base + from);
      if !Rejected(t, key) then Some((from, key))
      else FirstFree(t, length, e, base, from + 1)
  }

  /** One attempt of the search: a candidate that is not rejected is the answer. */
  lemma FirstFreeHit(t: Tables, length: int, e: Entropy, base: nat, a: nat, key: string)
    requires a < MAX_ATTEMPTS && key == CandidateKey(length, e, base + a)
    requires !KeyReserved(t, key) && !KeyUsed(t, key)
    ensures FirstFree(t, length, e, base, a) == Some((a, key))
  {
  }

  /** One attempt of the search: a rejected candidate moves on to the next attempt. */
  lemma FirstFreeMiss(t: Tables, length: int, e: Entropy, base: nat, a: nat, key: string)
    requires a < MAX_ATTEMPTS && key == CandidateKey(length, e, base + a)
    requires KeyReserved(t, key) || KeyUsed(t, key)
    ensures FirstFree(t, length, e, base, a) == FirstFree(t, length, e, base, a + 1)
  {
  }

  /** The attempts are tried in order: every attempt before the one found was
      rejected. */
  lemma {:induction false} FirstFreeRejectsEarlier(t: Tables, length: int, e: Entropy, base: nat, from: nat)
    requires FirstFree(t, length, e, base, from).Some?
    ensures forall a: nat :: from <= a < FirstFree(t, length, e, base, from).value.0 ==>
              RejectedAt(t, length, e, base, a)
    decreases MAX_ATTEMPTS - from
  {
    var n := FirstFree(t, length, e, base, from).value.0;
    if from < n {
      var here := RejectedAt(t, length, e, base, from);
      assert here;
      assert FirstFree(t, length, e, base, from) == FirstFree(t, length, e, base, from + 1);
      FirstFreeRejectsEarlier(t, length, e, base, from + 1);
      forall a: nat | from <= a < n ensures RejectedAt(t, length, e, base, a) {
        if a == from {
          assert here;
        }
      }
    }
  }

  /** When no attempt is found, all of [from, 100) were rejected. */
  lemma {:induction false} NoFreeRejectsAll(t: Tables, length: int, e: Entropy, base: nat, from: nat)
    requires FirstFree(t, length, e, base, from).None?
    ensures forall a: nat :: from <= a < MAX_ATTEMPTS ==> RejectedAt(t, length, e, base, a)
    decreases MAX_ATTEMPTS - from
  {
    if from < MAX_ATTEMPTS {
      var here := RejectedAt(t, length, e, base, from);
      assert here;
      NoFreeRejectsAll(t, length, e, base, from + 1);
      forall a: nat | from <= a < MAX_ATTEMPTS ensures RejectedAt(t, length, e, base, a) {
        if a == from {
          assert here;
        }
      }
    }
  }

  // ---------------------------------------------------------------- length selection

  /** `usage_ratio < 0.85` for a row whose ratio is not NULL, in exact arithmetic.
      The band 0.80..0.85 chooses the row too (it only logs). */
  predicate BelowThreshold(row: ShortKeySequence) {
    (row.maxPossible > 0 && 100 * row.currentSequence < 85 * row.maxPossible)
    || (row.maxPossible < 0 && 100 * row.currentSequence > 85 * row.maxPossible)
  }

  /** `usage_ratio < 0.80`: the band without a warning. */
  predicate BelowWarning(row: ShortKeySequence) {
    (row.maxPossible > 0 && 100 * row.currentSequence < 80 * row.maxPossible)
    || (row.maxPossible < 0 && 100 * row.currentSequence > 80 * row.maxPossible)
  }

  /** `'<' not supported ...`: SQLite divides by a zero `max_possible` to NULL. */
  const RATIO_TYPE_ERROR := "'<' not supported between instances of 'NoneType' and 'float'"

  /** `WHERE NOT exhausted ORDER BY key_length ASC`. */
  function NonExhausted(rows: seq<ShortKeySequence>): (r: seq<ShortKeySequence>)
    ensures forall x :: x in r <==> x in rows && !x.exhausted
    ensures SequencesOrdered(rows) ==> SequencesOrdered(r)
    ensures |r| <= |rows|
  {
    if rows == [] then []
    else
      var rest := NonExhausted(rows[1..]);
      assert forall x :: x in rows <==> x == rows[0] || x in rows[1..];
      if rows[0].exhausted then rest
      else
        FilteredCons(rows, rest);
        [rows[0]] + rest
  }

  /** Keeping the head in front of a filtered tail keeps the order. */
  lemma FilteredCons(rows: seq<ShortKeySequence>, rest: seq<ShortKeySequence>)
    requires rows != []
    requires forall x :: x in rest ==> x in rows[1..]
    requires SequencesOrdered(rows[1..]) ==> SequencesOrdered(rest)
    ensures SequencesOrdered(rows) ==> SequencesOrdered([rows[0]] + rest)
  {
    if SequencesOrdered(rows) {
      var r := [rows[0]] + rest;
      assert SequencesOrdered(rows[1..]) by {
        forall i, j | 0 <= i < j < |rows[1..]|
          ensures rows[1..][i].keyLength < rows[1..][j].keyLength
        {
          assert rows[1..][i] == rows[i + 1] && rows[1..][j] == rows[j + 1];
        }
      }
      forall j | 1 <= j < |r|
        ensures r[0].keyLength < r[j].keyLength
      {
        assert r[j] == rest[j - 1];
        assert r[j] in rows[1..];
        var k :| 0 <= k < |rows[1..]| && rows[1..][k] == r[j];
        assert rows[k + 1] == r[j];
      }
      forall i, j | 0 <= i < j < |r|
        ensures r[i].keyLength < r[j].keyLength
      {
        if i > 0 {
          assert r[i] == rest[i - 1] && r[j] == rest[j - 1];
        }
      }
    }
  }

  /** `row[0] if row and row[0] else 3` over `SELECT MAX(key_length)`. */
  function LongestOr3(t: Tables): (m: int)
    requires SequencesOrdered(t.sequences)
    ensures t.sequences == [] ==> m == 3
    ensures LengthsPositive(t.sequences) && t.sequences != [] ==> m == MaxKeyLength(t).value
  {
    match MaxKeyLength(t)
    case None => 3
    case Some(x) => if x == 0 then 3 else x
  }

  /** The length a new sequence row gets: one more than the longest row, or 4. */
  function NextLength(t: Tables): (n: int)
    requires SequencesOrdered(t.sequences)
    ensures LengthsPositive(t.sequences) ==> n >= 2
    ensures LengthsPositive(t.sequences) ==> forall i :: 0 <= i < |t.sequences| ==> t.sequences[i].keyLength < n
  {
    LongestOr3(t) + 1
  }

  /** The scan of `_get_current_length` over the rows it fetched: each row at or
      above 85% is marked exhausted and passed over; the first row below 85% is
      chosen; a NULL ratio raises; when no row is chosen, a row one longer than
      the longest is created (INSERT OR IGNORE) and its length chosen, unless
      binding its capacity overflows. */
  function ScanRows(t: Tables, rows: seq<ShortKeySequence>, now: Time): (r: Result<(int, Tables), DbError>)
    requires TablesValid(t) && t.created
    requires forall i :: 0 <= i < |rows| ==> HasRow(t, rows[i].keyLength)
    ensures r.Ok? ==> TablesValid(r.value.1) && r.value.1.created && HasRow(r.value.1, r.value.0)
    ensures r.Ok? ==> r.value.1.records == t.records && r.value.1.reserved == t.reserved
    ensures r.Ok? ==> OnlySequencesChanged(t, r.value.1)
    ensures r.Err? ==> r.error == TypeError(RATIO_TYPE_ERROR) || r.error == OverflowError(BIND_OVERFLOW)
    decreases |rows|
  {
    if rows == [] then
      var next := NextLength(t);
      match ExecuteInsertSequence(t, next, MaxPossible(next), now)
      case Err(err) => Err(err)
      case Ok(t') =>
        assert HasRow(t', next) by {
          if !HasRow(t, next) {
            var row := ShortKeySequence(Some(t.sequenceSeq + 1), next, 0, MaxPossible(next), false, Some(now), Some(now));
            assert row in t'.sequences;
          }
        }
        Ok((next, t'))
    else if rows[0].maxPossible == 0 then Err(TypeError(RATIO_TYPE_ERROR))
    else if BelowWarning(rows[0]) then Ok((rows[0].keyLength, t))
    else if BelowThreshold(rows[0]) then Ok((rows[0].keyLength, t))
    else ScanRows(MarkExhausted(t, rows[0].keyLength, now), rows[1..], now)
  }

  /** `_get_current_length`: the chosen length and the tables after the scan. */
  function CurrentLength(t: Tables, now: Time): (r: Result<(int, Tables), DbError>)
    requires TablesValid(t) && t.created
  {
    FetchedRowsPresent(t);
    ScanRows(t, NonExhausted(t.sequences), now)
  }

  /** Every fetched row is a row of the table. */
  lemma FetchedRowsPresent(t: Tables)
    ensures var rows := NonExhausted(t.sequences);
            forall i :: 0 <= i < |rows| ==> HasRow(t, rows[i].keyLength)
  {
    var rows := NonExhausted(t.sequences);
    forall i | 0 <= i < |rows|
      ensures HasRow(t, rows[i].keyLength)
    {
      assert rows[i] in rows;
      var j :| 0 <= j < |t.sequences| && t.sequences[j] == rows[i];
    }
  }

  // ---------------------------------------------------------------- the whole call

  /** The outcome of one call: what it returns or raises, the tables the
      connection then sees, and whether the call committed them. On an error the
      connection is rolled back, whatever `tables` holds. */
  datatype Step = Step(result: Result<Minted, DbError>, tables: Tables, commits: bool)

  const EXHAUSTED_MESSAGE := "已達到最大長度限制: 12"

  function CollisionMessage(length: int): string {
    "無法在長度 " + IntToString(length) + " 生成唯一短檔名"
  }

  /** `_upgrade_to_next_length`: one length past the longest row, below the
      ceiling of 12, with 100 more draws (100..199); nothing is committed here.
      The INSERT of the new row overflows from length 11 on. */
  function Upgrade(t: Tables, e: Entropy, now: Time): (s: Step)
    requires TablesValid(t) && t.created
    ensures TablesValid(s.tables) && s.tables.created && !s.commits
    ensures OnlySequencesChanged(t, s.tables)
    ensures s.result.Ok? ==> RowBinds(s.result.value.length)
  {
    var longest := LongestOr3(t);
    if longest >= MAX_ALLOWED_LENGTH then Step(Err(ShortKeyExhaustedError(EXHAUSTED_MESSAGE)), t, false)
    else
      var next := longest + 1;
      match ExecuteInsertSequence(t, next, MaxPossible(next), now)
      case Err(err) => Step(Err(err), t, false)
      case Ok(t2) =>
        match FirstFree(t2, next, e, MAX_ATTEMPTS, 0)
        case Some((_, key)) => Step(Ok(Minted(key, next, e.salt)), IncrementSequence(t2, next, now), false)
        case None => Step(Err(ShortKeyCollisionError(CollisionMessage(next))), t2, false)
  }

  /** `generate_short_key`: choose a length, try 100 candidates there, and
      escalate when all of them are rejected. */
  function Mint(t: Tables, e: Entropy, now: Time): (s: Step)
    requires TablesValid(t) && t.created
    ensures TablesValid(s.tables) && s.tables.created
  {
    match CurrentLength(t, now)
    case Err(err) => Step(Err(err), t, false)
    case Ok((length, t1)) =>
      match FirstFree(t1, length, e, 0, 0)
      case Some((_, key)) => Step(Ok(Minted(key, length, e.salt)), IncrementSequence(t1, length, now), true)
      case None => Upgrade(t1, e, now)
  }

  /** The allocator writes only `short_key_sequences`: records, reserved words,
      logs and versions are as they were, whatever the outcome. */
  lemma MintTouchesOnlySequences(t: Tables, e: Entropy, now: Time)
    requires TablesValid(t) && t.created
    ensures OnlySequencesChanged(t, Mint(t, e, now).tables)
  {
    var c := CurrentLength(t, now);
    if c.Ok? {
      var t1 := c.value.1;
      if FirstFree(t1, c.value.0, e, 0, 0).None? {
        assert Mint(t, e, now) == Upgrade(t1, e, now);
      }
    }
  }

  /** The tables just before the counter of the minted length is incremented. */
  function BeforeIncrement(t: Tables, e: Entropy, now: Time): (b: Tables)
    requires TablesValid(t) && t.created
    requires Mint(t, e, now).result.Ok?
  {
    var t1 := CurrentLength(t, now).value.1;
    var length := CurrentLength(t, now).value.0;
    if FirstFree(t1, length, e, 0, 0).Some? then t1
    else InsertOrIgnoreSequence(t1, LongestOr3(t1) + 1, MaxPossible(LongestOr3(t1) + 1), now)
  }

  // ---------------------------------------------------------------- properties

  /** A minted key has the chosen length, is made of ASCII letters and digits,
      and was neither reserved nor held by any record before the call. */
  lemma MintedKeyFree(t: Tables, e: Entropy, now: Time)
    requires TablesValid(t) && t.created
    requires Mint(t, e, now).result.Ok?
    ensures var m := Mint(t, e, now).result.value;
            && |m.key| == m.length && m.length >= 1 && m.salt == e.salt
            && (forall i :: 0 <= i < |m.key| ==> IsAsciiAlnum(m.key[i]))
            && !KeyReserved(t, m.key) && !KeyUsed(t, m.key)
  {
    var m := Mint(t, e, now).result.value;
    var c := CurrentLength(t, now);
    assert c.Ok?;
    var length := c.value.0;
    var t1 := c.value.1;
    assert t1.records == t.records && t1.reserved == t.reserved;
    if FirstFree(t1, length, e, 0, 0).None? {
      assert Mint(t, e, now) == Upgrade(t1, e, now);
      UpgradedKeyFree(t1, e, now);
    } else {
      var k :| 0 <= k < |t1.sequences| && t1.sequences[k].keyLength == length;
      var f := FirstFree(t1, length, e, 0, 0).value;
      assert m.key == f.1 && m.length == length;
      CandidateKeyAlnum(length, e, f.0);
    }
  }

  /** A candidate is made of ASCII letters and digits. */
  lemma CandidateKeyAlnum(length: int, e: Entropy, draw: nat)
    ensures var k := CandidateKey(length, e, draw);
            forall i :: 0 <= i < |k| ==> IsAsciiAlnum(k[i])
  {
    var k := CandidateKey(length, e, draw);
    forall i | 0 <= i < |k| ensures IsAsciiAlnum(k[i]) {
      assert k[i] == PickChar(e.pick(draw, i));
    }
  }

  lemma UpgradedKeyFree(t: Tables, e: Entropy, now: Time)
    requires TablesValid(t) && t.created
    requires Upgrade(t, e, now).result.Ok?
    ensures var m := Upgrade(t, e, now).result.value;
            && |m.key| == m.length && m.length >= 1 && m.salt == e.salt
            && (forall i :: 0 <= i < |m.key| ==> IsAsciiAlnum(m.key[i]))
            && !KeyReserved(t, m.key) && !KeyUsed(t, m.key)
  {
    var next := LongestOr3(t) + 1;
    var t2 := InsertOrIgnoreSequence(t, next, MaxPossible(next), now);
    assert t2.records == t.records && t2.reserved == t.reserved;
    var f := FirstFree(t2, next, e, MAX_ATTEMPTS, 0).value;
    CandidateKeyAlnum(next, e, MAX_ATTEMPTS + f.0);
    assert next >= 1 by {
      if t.sequences != [] {
        assert t.sequences[0].keyLength <= MaxKeyLength(t).value;
      }
    }
  }

  /** The counter of the minted length goes up by one and nothing else changes
      in that last step: the allocation is counted exactly once. */
  lemma MintCountsOnce(t: Tables, e: Entropy, now: Time)
    requires TablesValid(t) && t.created
    requires Mint(t, e, now).result.Ok?
    ensures var s := Mint(t, e, now);
            var b := BeforeIncrement(t, e, now);
            && HasRow(b, s.result.value.length)
            && s.tables == IncrementSequence(b, s.result.value.length, now)
            && b.records == t.records && b.reserved == t.reserved
  {
    var c := CurrentLength(t, now);
    assert c.Ok?;
    var length := c.value.0;
    var t1 := c.value.1;
    if FirstFree(t1, length, e, 0, 0).None? {
      assert Mint(t, e, now) == Upgrade(t1, e, now);
      UpgradeCountsOnce(t1, e, now);
    } else {
      assert Mint(t, e, now).tables == IncrementSequence(t1, length, now);
    }
  }

  lemma UpgradeCountsOnce(t: Tables, e: Entropy, now: Time)
    requires TablesValid(t) && t.created
    requires Upgrade(t, e, now).result.Ok?
    ensures var s := Upgrade(t, e, now);
            var next := LongestOr3(t) + 1;
            var b := InsertOrIgnoreSequence(t, next, MaxPossible(next), now);
            && s.result.value.length == next
            && HasRow(b, next) && s.tables == IncrementSequence(b, next, now)
            && b.records == t.records && b.reserved == t.reserved
  {
    var next := LongestOr3(t) + 1;
    var b := InsertOrIgnoreSequence(t, next, MaxPossible(next), now);
    if !HasRow(t, next) {
      var row := ShortKeySequence(Some(t.sequenceSeq + 1), next, 0, MaxPossible(next), false, Some(now), Some(now));
      assert row in b.sequences;
    }
  }

  /** `Grows(t, r)`: no length row disappears, no counter goes down and no row
      stops being exhausted. Every statement of the allocator keeps it. */
  predicate Grows(t: Tables, r: Tables) {
    && t.records == r.records && t.reserved == r.reserved
    && forall i :: 0 <= i < |t.sequences| ==> Kept(t.sequences[i], r)
  }

  predicate Kept(row: ShortKeySequence, r: Tables) {
    exists j :: 0 <= j < |r.sequences| && r.sequences[j].keyLength == row.keyLength
      && r.sequences[j].currentSequence >= row.currentSequence
      && (row.exhausted ==> r.sequences[j].exhausted)
  }

  lemma GrowsTransitive(a: Tables, b: Tables, c: Tables)
    requires Grows(a, b) && Grows(b, c)
    ensures Grows(a, c)
  {
    forall i | 0 <= i < |a.sequences|
      ensures Kept(a.sequences[i], c)
    {
      var j :| 0 <= j < |b.sequences| && b.sequences[j].keyLength == a.sequences[i].keyLength
        && b.sequences[j].currentSequence >= a.sequences[i].currentSequence
        && (a.sequences[i].exhausted ==> b.sequences[j].exhausted);
      assert Kept(b.sequences[j], c);
    }
  }

  lemma UpdateGrows(t: Tables, len: int, now: Time, bump: bool)
    ensures Grows(t, t.(sequences := UpdateRows(t.sequences, len, now, bump)))
  {
    var r := t.(sequences := UpdateRows(t.sequences, len, now, bump));
    forall i | 0 <= i < |t.sequences|
      ensures Kept(t.sequences[i], r)
    {
      assert r.sequences[i].keyLength == t.sequences[i].keyLength;
    }
  }

  lemma InsertGrows(t: Tables, len: int, maxPossible: int, now: Time)
    requires SequencesOrdered(t.sequences)
    ensures Grows(t, InsertOrIgnoreSequence(t, len, maxPossible, now))
  {
    var r := InsertOrIgnoreSequence(t, len, maxPossible, now);
    forall i | 0 <= i < |t.sequences|
      ensures Kept(t.sequences[i], r)
    {
      assert t.sequences[i] in r.sequences;
    }
  }

  lemma {:induction false} ScanGrows(t: Tables, rows: seq<ShortKeySequence>, now: Time)
    requires TablesValid(t) && t.created
    requires forall i :: 0 <= i < |rows| ==> HasRow(t, rows[i].keyLength)
    requires ScanRows(t, rows, now).Ok?
    ensures Grows(t, ScanRows(t, rows, now).value.1)
    decreases |rows|
  {
    if rows == [] {
      InsertGrows(t, NextLength(t), MaxPossible(NextLength(t)), now);
    } else if rows[0].maxPossible == 0 || BelowWarning(rows[0]) || BelowThreshold(rows[0]) {
      assert forall i :: 0 <= i < |t.sequences| ==> Kept(t.sequences[i], t);
    } else {
      var t' := MarkExhausted(t, rows[0].keyLength, now);
      UpdateGrows(t, rows[0].keyLength, now, false);
      ScanGrows(t', rows[1..], now);
      GrowsTransitive(t, t', ScanRows(t', rows[1..], now).value.1);
    }
  }

  /** A successful call keeps `Grows`: counters only rise, exhaustion is never
      undone, and no length is lost. */
  lemma MintGrows(t: Tables, e: Entropy, now: Time)
    requires TablesValid(t) && t.created
    requires Mint(t, e, now).result.Ok?
    ensures Grows(t, Mint(t, e, now).tables)
  {
    var rows := NonExhausted(t.sequences);
    FetchedRowsPresent(t);
    var c := CurrentLength(t, now);
    assert c == ScanRows(t, rows, now) && c.Ok?;
    ScanGrows(t, rows, now);
    var length := c.value.0;
    var t1 := c.value.1;
    var b := BeforeIncrement(t, e, now);
    MintCountsOnce(t, e, now);
    var m := Mint(t, e, now).result.value.length;
    if FirstFree(t1, length, e, 0, 0).None? {
      InsertGrows(t1, LongestOr3(t1) + 1, MaxPossible(LongestOr3(t1) + 1), now);
      GrowsTransitive(t, t1, b);
    } else {
      assert b == t1;
    }
    UpdateGrows(b, m, now, true);
    GrowsTransitive(t, b, Mint(t, e, now).tables);
  }

  /** The scan's choice: the first fetched row below 85% is chosen and every
      row before it was at or above 85%; when there is none, the length one past
      the longest is chosen; a zero capacity before any choice raises the
      `TypeError`, and a new row that cannot be bound the `OverflowError`. */
  lemma {:induction false} ScanChoice(t: Tables, rows: seq<ShortKeySequence>, now: Time)
    requires TablesValid(t) && t.created
    requires forall i :: 0 <= i < |rows| ==> HasRow(t, rows[i].keyLength)
    ensures ScanRows(t, rows, now).Ok? ==> ChoiceOk(t, rows, ScanRows(t, rows, now).value.0)
    ensures ScanRows(t, rows, now).Err? && ScanRows(t, rows, now).error.TypeError? ==> ChoiceErr(rows)
    ensures ScanRows(t, rows, now).Err? && ScanRows(t, rows, now).error.OverflowError? ==> ChoiceOverflow(t, rows)
    decreases |rows|
  {
    if rows != [] && rows[0].maxPossible != 0 && !BelowWarning(rows[0]) && !BelowThreshold(rows[0]) {
      ScanChoice(MarkExhausted(t, rows[0].keyLength, now), rows[1..], now);
      ScanChoicePassed(t, rows, now);
    } else if rows != [] && rows[0].maxPossible != 0 {
      assert Chosen(rows, 0);
    }
  }

  /** The step of `ScanChoice` over a row the scan passes over. */
  lemma ScanChoicePassed(t: Tables, rows: seq<ShortKeySequence>, now: Time)
    requires TablesValid(t) && t.created
    requires forall i :: 0 <= i < |rows| ==> HasRow(t, rows[i].keyLength)
    requires rows != [] && rows[0].maxPossible != 0 && !BelowWarning(rows[0]) && !BelowThreshold(rows[0])
    requires var t' := MarkExhausted(t, rows[0].keyLength, now);
             var r := ScanRows(t', rows[1..], now);
             && (r.Ok? ==> ChoiceOk(t', rows[1..], r.value.0))
             && (r.Err? && r.error.TypeError? ==> ChoiceErr(rows[1..]))
             && (r.Err? && r.error.OverflowError? ==> ChoiceOverflow(t', rows[1..]))
    ensures ScanRows(t, rows, now).Ok? ==> ChoiceOk(t, rows, ScanRows(t, rows, now).value.0)
    ensures ScanRows(t, rows, now).Err? && ScanRows(t, rows, now).error.TypeError? ==> ChoiceErr(rows)
    ensures ScanRows(t, rows, now).Err? && ScanRows(t, rows, now).error.OverflowError? ==> ChoiceOverflow(t, rows)
  {
    var t' := MarkExhausted(t, rows[0].keyLength, now);
    var r := ScanRows(t', rows[1..], now);
    assert ScanRows(t, rows, now) == r;
    MarkExhaustedKeepsNext(t, rows[0].keyLength, now);
    if r.Ok? {
      ChoiceShiftOk(t, t', rows, r.value.0);
    } else if r.error.TypeError? {
      ChoiceShiftErr(rows);
    } else if r.error.OverflowError? {
      assert forall j :: 1 <= j < |rows| ==> rows[j] == rows[1..][j - 1];
    }
  }

  /** Marking a row exhausted leaves the lengths, hence the next length, alone. */
  lemma MarkExhaustedKeepsNext(t: Tables, len: int, now: Time)
    requires SequencesOrdered(t.sequences)
    ensures SequencesOrdered(MarkExhausted(t, len, now).sequences)
    ensures NextLength(MarkExhausted(t, len, now)) == NextLength(t)
  {
    var t' := MarkExhausted(t, len, now);
    assert forall i :: 0 <= i < |t.sequences| ==> t'.sequences[i].keyLength == t.sequences[i].keyLength;
  }

  predicate ChoiceOk(t: Tables, rows: seq<ShortKeySequence>, length: int)
    requires SequencesOrdered(t.sequences)
  {
    || (exists k :: 0 <= k < |rows| && Chosen(rows, k) && rows[k].keyLength == length)
    || ((forall j :: 0 <= j < |rows| ==> Passed(rows[j])) && length == NextLength(t))
  }

  /** Every fetched row is passed over and the new row cannot be bound. */
  predicate ChoiceOverflow(t: Tables, rows: seq<ShortKeySequence>)
    requires SequencesOrdered(t.sequences)
  {
    (forall j :: 0 <= j < |rows| ==> Passed(rows[j])) && !RowBinds(NextLength(t))
  }

  predicate ChoiceErr(rows: seq<ShortKeySequence>) {
    exists k :: 0 <= k < |rows| && rows[k].maxPossible == 0 && forall j :: 0 <= j < k ==> Passed(rows[j])
  }

  lemma ChoiceShiftOk(t: Tables, t': Tables, rows: seq<ShortKeySequence>, length: int)
    requires SequencesOrdered(t.sequences) && SequencesOrdered(t'.sequences)
    requires rows != [] && Passed(rows[0]) && NextLength(t') == NextLength(t)
    requires ChoiceOk(t', rows[1..], length)
    ensures ChoiceOk(t, rows, length)
  {
    if exists k :: 0 <= k < |rows[1..]| && Chosen(rows[1..], k) && rows[1..][k].keyLength == length {
      var k :| 0 <= k < |rows[1..]| && Chosen(rows[1..], k) && rows[1..][k].keyLength == length;
      assert forall j :: 1 <= j < k + 1 ==> rows[j] == rows[1..][j - 1];
      assert Chosen(rows, k + 1);
    } else {
      assert forall j :: 1 <= j < |rows| ==> rows[j] == rows[1..][j - 1];
    }
  }

  lemma ChoiceShiftErr(rows: seq<ShortKeySequence>)
    requires rows != [] && Passed(rows[0])
    requires ChoiceErr(rows[1..])
    ensures ChoiceErr(rows)
  {
    var k :| 0 <= k < |rows[1..]| && rows[1..][k].maxPossible == 0
             && forall j :: 0 <= j < k ==> Passed(rows[1..][j]);
    assert forall j :: 1 <= j < k + 1 ==> rows[j] == rows[1..][j - 1];
    assert rows[k + 1].maxPossible == 0;
  }

  /** How many fetched rows the scan passes over before it stops. */
  function ScanStop(rows: seq<ShortKeySequence>): (k: nat)
    ensures k <= |rows|
    ensures forall j :: 0 <= j < k ==> Passed(rows[j])
    ensures k < |rows| ==> !Passed(rows[k])
    decreases |rows|
  {
    if rows == [] || !Passed(rows[0]) then 0
    else
      var k := 1 + ScanStop(rows[1..]);
      assert forall j :: 1 <= j < k ==> rows[j] == rows[1..][j - 1];
      k
  }

  /** The key lengths of `rows`, in order. */
  function LengthsOf(rows: seq<ShortKeySequence>): seq<int> {
    seq(|rows|, j requires 0 <= j < |rows| => rows[j].keyLength)
  }

  /** `UPDATE short_key_sequences SET exhausted = TRUE WHERE key_length = ?`
      for each length of `lens`: those rows are marked exhausted with
      `updated_at = now`, every other row is left as it is. */
  function MarkLengths(s: seq<ShortKeySequence>, lens: seq<int>, now: Time): (r: seq<ShortKeySequence>)
    ensures |r| == |s| && forall i :: 0 <= i < |s| ==> r[i].keyLength == s[i].keyLength
    ensures SequencesOrdered(s) ==> SequencesOrdered(r)
  {
    seq(|s|, i requires 0 <= i < |s| =>
      if s[i].keyLength in lens then s[i].(exhausted := true, updatedAt := Some(now)) else s[i])
  }

  /** The scan's effect on the tables. It stops at the first fetched row below
      85%: a zero capacity there raises; otherwise that row's length is chosen
      and every row it passed over is marked exhausted, nothing else being
      touched. When it passes over every fetched row, those are marked
      exhausted and a row one longer than the longest, with its full capacity,
      is inserted unless it exists, and its length is chosen; when that
      capacity cannot be bound, the INSERT raises `OverflowError` instead. */
  lemma {:induction false} ScanEffect(t: Tables, rows: seq<ShortKeySequence>, now: Time)
    requires TablesValid(t) && t.created
    requires forall i :: 0 <= i < |rows| ==> HasRow(t, rows[i].keyLength)
    ensures var k := ScanStop(rows);
            var marked := t.(sequences := MarkLengths(t.sequences, LengthsOf(rows[..k]), now));
            var r := ScanRows(t, rows, now);
            && (r.Err? <==> (k < |rows| && rows[k].maxPossible == 0) || (k == |rows| && !RowBinds(NextLength(t))))
            && (k < |rows| && rows[k].maxPossible == 0 ==> r == Err(TypeError(RATIO_TYPE_ERROR)))
            && (k < |rows| && r.Ok? ==> r.value == (rows[k].keyLength, marked))
            && (k == |rows| && RowBinds(NextLength(t)) ==>
                  r == Ok((NextLength(t), InsertOrIgnoreSequence(marked, NextLength(t), MaxPossible(NextLength(t)), now))))
            && (k == |rows| && !RowBinds(NextLength(t)) ==> r == Err(OverflowError(BIND_OVERFLOW)))
    decreases |rows|
  {
    var k := ScanStop(rows);
    if rows == [] || !Passed(rows[0]) {
      assert LengthsOf(rows[..k]) == [];
      assert MarkLengths(t.sequences, [], now) == t.sequences;
    } else {
      var t' := MarkExhausted(t, rows[0].keyLength, now);
      ScanEffect(t', rows[1..], now);
      MarkExhaustedKeepsNext(t, rows[0].keyLength, now);
      MarkThenMark(t.sequences, rows, k, now);
    }
  }

  /** Marking the first row's length, then the lengths of the next `k - 1`
      rows, is marking the lengths of the first `k` rows. */
  lemma MarkThenMark(s: seq<ShortKeySequence>, rows: seq<ShortKeySequence>, k: nat, now: Time)
    requires 1 <= k <= |rows|
    ensures MarkLengths(UpdateRows(s, rows[0].keyLength, now, false), LengthsOf(rows[1..][..k - 1]), now)
            == MarkLengths(s, LengthsOf(rows[..k]), now)
  {
    var a := LengthsOf(rows[1..][..k - 1]);
    var b := LengthsOf(rows[..k]);
    forall x
      ensures x in b <==> x == rows[0].keyLength || x in a
    {
      if x in b {
        var j :| 0 <= j < |b| && b[j] == x;
        if j > 0 {
          assert a[j - 1] == x;
        }
      }
      if x in a {
        var j :| 0 <= j < |a| && a[j] == x;
        assert b[j + 1] == x;
      }
      if x == rows[0].keyLength {
        assert b[0] == x;
      }
    }
  }

  /** A row the scan passes over: a usage ratio of 85% or more. */
  predicate Passed(row: ShortKeySequence) {
    row.maxPossible != 0 && !BelowThreshold(row)
  }

  /** Row `k` is chosen: below 85% and every row before it was passed over. */
  predicate Chosen(rows: seq<ShortKeySequence>, k: int)
    requires 0 <= k < |rows|
  {
    BelowThreshold(rows[k]) && forall j :: 0 <= j < k ==> Passed(rows[j])
  }

  /** The escalation: the ceiling error exactly when the longest length is 12 or
      more; the `OverflowError` of the INSERT exactly when it is 10 or 11;
      otherwise a key one longer than the longest row, or, after 100 rejected
      draws, the collision error. */
  lemma UpgradeOutcome(t: Tables, e: Entropy, now: Time)
    requires TablesValid(t) && t.created
    ensures var s := Upgrade(t, e, now);
            && (s.result.Err? && s.result.error.ShortKeyExhaustedError? <==> LongestOr3(t) >= MAX_ALLOWED_LENGTH)
            && (s.result.Err? && s.result.error.OverflowError? <==>
                  MAX_STORABLE_LENGTH <= LongestOr3(t) < MAX_ALLOWED_LENGTH)
            && (s.result.Err? && s.result.error.OverflowError? ==> s.result.error.msg == BIND_OVERFLOW)
            && (s.result.Ok? ==> s.result.value.length == LongestOr3(t) + 1 <= MAX_STORABLE_LENGTH)
            && (s.result.Err? && s.result.error.ShortKeyCollisionError? ==>
                  LongestOr3(t) < MAX_STORABLE_LENGTH
                  && FirstFree(s.tables, LongestOr3(t) + 1, e, MAX_ATTEMPTS, 0).None?)
            && (s.result.Err? ==>
                  s.result.error.ShortKeyExhaustedError? || s.result.error.OverflowError?
                  || s.result.error.ShortKeyCollisionError?)
  {
    var longest := LongestOr3(t);
    assert longest >= 1 by {
      if t.sequences != [] {
        assert t.sequences[0].keyLength <= MaxKeyLength(t).value;
      }
    }
    RowBindsUpToTen(longest + 1);
    if longest < MAX_ALLOWED_LENGTH {
      var inserted := ExecuteInsertSequence(t, longest + 1, MaxPossible(longest + 1), now);
      if inserted.Err? {
        assert Upgrade(t, e, now) == Step(Err(OverflowError(BIND_OVERFLOW)), t, false);
      } else {
        assert Upgrade(t, e, now).result.Ok? || Upgrade(t, e, now).result.error.ShortKeyCollisionError?;
      }
    }
  }

  /** A single length-4 row at 17 of 20 (85%) is passed over and marked
      exhausted, and a length-5 row is created and chosen. */
  lemma ScanEscalatesAtEightyFivePercent(t: Tables, now: Time)
    requires TablesValid(t) && t.created
    requires |t.sequences| == 1 && t.sequences[0].keyLength == 4 && !t.sequences[0].exhausted
    requires t.sequences[0].currentSequence == 17 && t.sequences[0].maxPossible == 20
    ensures CurrentLength(t, now).Ok?
    ensures var (length, t1) := CurrentLength(t, now).value;
            && length == 5 && |t1.sequences| == 2
            && t1.sequences[0].keyLength == 4 && t1.sequences[0].exhausted
            && t1.sequences[1].keyLength == 5 && t1.sequences[1].maxPossible == MaxPossible(5)
  {
    var rows := NonExhausted(t.sequences);
    assert t.sequences[0] in rows;
    assert rows == t.sequences;
    var t' := MarkExhausted(t, 4, now);
    assert ScanRows(t, rows, now) == ScanRows(t', rows[1..], now);
    assert rows[1..] == [];
    assert t'.sequences[0].exhausted && t'.sequences[0].keyLength == 4;
    assert MaxKeyLength(t') == Some(4);
    assert NextLength(t') == 5;
    assert !HasRow(t', 5);
    var t2 := InsertOrIgnoreSequence(t', 5, MaxPossible(5), now);
    assert ScanRows(t', [], now) == Ok((5, t2));
    var row := ShortKeySequence(Some(t'.sequenceSeq + 1), 5, 0, MaxPossible(5), false, Some(now), Some(now));
    assert row in t2.sequences && t'.sequences[0] in t2.sequences;
    assert |t2.sequences| == 2;
    assert t2.sequences[0] in t2.sequences && t2.sequences[1] in t2.sequences;
  }

  /** A single length-10 row at 17 of 20 (85%) is passed over, and the row of
      length 11 that would replace it cannot be bound: the call raises
      `OverflowError` instead of handing out an 11-character key. */
  lemma ScanOverflowsPastTen(t: Tables, now: Time)
    requires TablesValid(t) && t.created
    requires |t.sequences| == 1 && t.sequences[0].keyLength == 10 && !t.sequences[0].exhausted
    requires t.sequences[0].currentSequence == 17 && t.sequences[0].maxPossible == 20
    ensures CurrentLength(t, now) == Err(OverflowError(BIND_OVERFLOW))
  {
    var rows := NonExhausted(t.sequences);
    assert t.sequences[0] in rows;
    assert rows == t.sequences;
    var t' := MarkExhausted(t, 10, now);
    assert ScanRows(t, rows, now) == ScanRows(t', rows[1..], now);
    assert rows[1..] == [];
    assert t'.sequences[0].keyLength == 10 && |t'.sequences| == 1;
    assert MaxKeyLength(t') == Some(10);
    RowBindsUpToTen(11);
  }

  // ---------------------------------------------------------------- statistics

  /** One entry of `sequences` in `get_statistics` (without `usage_percent`). */
  datatype SequenceStat = SequenceStat(length: int, current: int, maxPossible: int, exhausted: bool)

  datatype KeyStatistics = KeyStatistics(
    sequences: seq<SequenceStat>,
    reservedKeysCount: nat,
    usedShortKeysCount: nat,
    charsetSize: nat,
    charset: string)

  /** `SELECT COUNT(*) FROM file_records WHERE short_key IS NOT NULL`. */
  function CountKeyed(rows: seq<FileRecord>): (n: nat)
    ensures n <= |rows|
  {
    if rows == [] then 0
    else CountKeyed(rows[..|rows| - 1]) + (if rows[|rows| - 1].shortKey.Some? then 1 else 0)
  }

  /** Storing a record with a short key counts one more used key; one without
      leaves the count alone. */
  lemma CountKeyedAfterInsert(t: Tables, r: FileRecord, now: Time)
    requires InsertRecord(t, r, now).Ok?
    ensures CountKeyed(InsertRecord(t, r, now).value.0.records)
            == CountKeyed(t.records) + (if r.shortKey.Some? then 1 else 0)
  {
    var rs := InsertRecord(t, r, now).value.0.records;
    assert rs[..|rs| - 1] == t.records;
  }

  /** The generator and the connection it shares with the registry. */
  class KeyGenerator {
    const db: Database

    constructor (db: Database)
      ensures this.db == db
    {
      this.db := db;
    }

    /** `_generate_key_with_length`: one character per position. */
    method GenerateKeyWithLength(length: int, e: Entropy, draw: nat) returns (key: string)
      ensures key == CandidateKey(length, e, draw)
    {
      var n := if length < 0 then 0 else length;
      key := "";
      var i := 0;
      while i < n
        invariant 0 <= i <= n
        invariant |key| == i
        invariant forall j :: 0 <= j < i ==> key[j] == PickChar(e.pick(draw, j))
      {
        key := key + [PickChar(e.pick(draw, i))];
        i := i + 1;
      }
    }

    /** `_get_current_length`: the scan, with the rows' UPDATEs and the INSERT of
        a new row in the connection's open transaction. */
    method GetCurrentLength(now: Time) returns (r: Result<int, DbError>)
      requires db.Valid() && db.conn.created
      modifies db
      ensures db.Valid() && db.committed == old(db.committed)
      ensures CurrentLength(old(db.conn), now).Err? <==> r.Err?
      ensures r.Err? ==> r.error == CurrentLength(old(db.conn), now).error
      ensures r.Ok? ==> (r.value, db.conn) == CurrentLength(old(db.conn), now).value
      ensures var t := old(db.conn);
              var rows := NonExhausted(t.sequences);
              var k := ScanStop(rows);
              var marked := t.(sequences := MarkLengths(t.sequences, LengthsOf(rows[..k]), now));
              && (r.Err? <==> (k < |rows| && rows[k].maxPossible == 0) || (k == |rows| && !RowBinds(NextLength(t))))
              && (k < |rows| && rows[k].maxPossible == 0 ==> r == Err(TypeError(RATIO_TYPE_ERROR)))
              && (r.Ok? && k < |rows| ==> r.value == rows[k].keyLength && db.conn == marked)
              && (k == |rows| && RowBinds(NextLength(t)) ==>
                    && r == Ok(NextLength(t))
                    && db.conn == InsertOrIgnoreSequence(marked, NextLength(t), MaxPossible(NextLength(t)), now))
              && (k == |rows| && !RowBinds(NextLength(t)) ==> r == Err(OverflowError(BIND_OVERFLOW)))
    {
      var rows := NonExhausted(db.conn.sequences);
      FetchedRowsPresent(db.conn);
      ScanEffect(db.conn, rows, now);
      r := ScanFetched(rows, now);
    }

    /** The loop of `_get_current_length` over the fetched rows. */
    method ScanFetched(rows: seq<ShortKeySequence>, now: Time) returns (r: Result<int, DbError>)
      requires db.Valid() && db.conn.created
      requires forall i :: 0 <= i < |rows| ==> HasRow(db.conn, rows[i].keyLength)
      modifies db
      ensures db.Valid() && db.committed == old(db.committed)
      ensures ScanRows(old(db.conn), rows, now).Err? <==> r.Err?
      ensures r.Err? ==> r.error == ScanRows(old(db.conn), rows, now).error
      ensures r.Ok? ==> (r.value, db.conn) == ScanRows(old(db.conn), rows, now).value
    {
      ghost var t0 := db.conn;
      var i := 0;
      while i < |rows|
        invariant 0 <= i <= |rows|
        invariant db.Valid() && db.conn.created && db.committed == old(db.committed)
        invariant forall k :: i <= k < |rows| ==> HasRow(db.conn, rows[k].keyLength)
        invariant ScanRows(t0, rows, now) == ScanRows(db.conn, rows[i..], now)
      {
        var row := rows[i];
        if row.maxPossible == 0 {
          return Err(TypeError(RATIO_TYPE_ERROR));
        }
        if BelowWarning(row) {
          return Ok(row.keyLength);
        } else if BelowThreshold(row) {
          // 80-85%: still used, with a warning
          return Ok(row.keyLength);
        }
        db.conn := MarkExhausted(db.conn, row.keyLength, now);
        assert rows[i..][1..] == rows[i + 1..];
        i := i + 1;
      }
      var next := NextLength(db.conn);
      var inserted := ExecuteInsertSequence(db.conn, next, MaxPossible(next), now);
      if inserted.Err? {
        return Err(inserted.error);
      }
      db.conn := inserted.value;
      return Ok(next);
    }

    /** `_upgrade_to_next_length`. */
    method UpgradeToNextLength(e: Entropy, now: Time) returns (r: Result<Minted, DbError>)
      requires db.Valid() && db.conn.created
      modifies db
      ensures db.Valid() && db.committed == old(db.committed)
      ensures r == Upgrade(old(db.conn), e, now).result
      ensures r.Ok? ==> db.conn == Upgrade(old(db.conn), e, now).tables
    {
      var t := db.conn;
      var longest := LongestOr3(t);
      if longest >= MAX_ALLOWED_LENGTH {
        return Err(ShortKeyExhaustedError(EXHAUSTED_MESSAGE));
      }
      var next := longest + 1;
      var inserted := ExecuteInsertSequence(t, next, MaxPossible(next), now);
      if inserted.Err? {
        return Err(inserted.error);
      }
      var t2 := inserted.value;
      db.conn := t2;
      var found := DrawFree(t2, next, e, MAX_ATTEMPTS);
      if found.Some? {
        var t3 := IncrementSequence(t2, next, now);
        assert Upgrade(t, e, now) == Step(Ok(Minted(found.value.1, next, e.salt)), t3, false);
        db.conn := t3;
        return Ok(Minted(found.value.1, next, e.salt));
      }
      return Err(ShortKeyCollisionError(CollisionMessage(next)));
    }

    /** The escalated length's `for attempt in range(100)`: draws `base + attempt`
        until a candidate is neither reserved nor used. */
    method DrawFree(t: Tables, length: int, e: Entropy, base: nat) returns (found: Option<(nat, string)>)
      ensures found == FirstFree(t, length, e, base, 0)
    {
      for attempt := 0 to MAX_ATTEMPTS
        invariant FirstFree(t, length, e, base, 0) == FirstFree(t, length, e, base, attempt)
      {
        var key := GenerateKeyWithLength(length, e, base + attempt);
        if !KeyReserved(t, key) && !KeyUsed(t, key) {
          FirstFreeHit(t, length, e, base, attempt, key);
          return Some((attempt, key));
        }
        FirstFreeMiss(t, length, e, base, attempt, key);
      }
      assert FirstFree(t, length, e, base, MAX_ATTEMPTS) == None;
      return None;
    }

    /** `generate_short_key`. A raised error rolls the connection back. */
    method GenerateShortKey(e: Entropy, now: Time) returns (r: Result<Minted, DbError>)
      requires db.Valid() && db.conn.created
      modifies db
      ensures db.Valid()
      ensures r == Mint(old(db.conn), e, now).result
      ensures r.Ok? ==> db.conn == Mint(old(db.conn), e, now).tables
      ensures r.Ok? ==> db.committed == if Mint(old(db.conn), e, now).commits then db.conn else old(db.committed)
      ensures r.Err? ==> db.conn == old(db.committed) && db.committed == old(db.committed)
    {
      ghost var t0 := db.conn;
      var current := GetCurrentLength(now);
      if current.Err? {
        db.Rollback();
        return Err(current.error);
      }
      var length := current.value;
      ghost var t1 := db.conn;
      var key := TryLength(length, e, now);
      if key.Some? {
        assert Mint(t0, e, now) == Step(Ok(Minted(key.value, length, e.salt)), db.conn, true);
        return Ok(Minted(key.value, length, e.salt));
      }
      assert Mint(t0, e, now) == Upgrade(t1, e, now);
      r := UpgradeToNextLength(e, now);
      if r.Err? {
        db.Rollback();
      }
    }
  
    /** The first `for attempt in range(100)` of `generate_short_key`: a candidate
        that is neither reserved nor used bumps the length's counter and commits. */
    method TryLength(length: int, e: Entropy, now: Time) returns (key: Option<string>)
      requires db.Valid() && db.conn.created
      modifies db
      ensures db.Valid()
      ensures key.Some? <==> FirstFree(old(db.conn), length, e, 0, 0).Some?
      ensures key.Some? ==> key.value == FirstFree(old(db.conn), length, e, 0, 0).value.1
      ensures key.Some? ==> db.conn == IncrementSequence(old(db.conn), length, now) && db.committed == db.conn
      ensures key.None? ==> db.conn == old(db.conn) && db.committed == old(db.committed)
    {
      ghost var t1 := db.conn;
      for attempt := 0 to MAX_ATTEMPTS
        invariant db.conn == t1 && db.committed == old(db.committed) && db.Valid()
        invariant FirstFree(t1, length, e, 0, 0) == FirstFree(t1, length, e, 0, attempt)
      {
        var candidate := GenerateKeyWithLength(length, e, attempt);
        if KeyReserved(db.conn, candidate) {
          FirstFreeMiss(t1, length, e, 0, attempt, candidate);
          continue;
        }
        if !KeyUsed(db.conn, candidate) {
          FirstFreeHit(t1, length, e, 0, attempt, candidate);
          db.conn := IncrementSequence(db.conn, length, now);
          db.Commit();
          return Some(candidate);
        }
        FirstFreeMiss(t1, length, e, 0, attempt, candidate);
      }
      assert FirstFree(t1, length, e, 0, MAX_ATTEMPTS) == None;
      return None;
    }

    /** `get_statistics`. */
    method GetStatistics() returns (st: KeyStatistics)
      ensures |st.sequences| == |db.conn.sequences|
      ensures forall i :: 0 <= i < |st.sequences| ==>
                st.sequences[i] == SequenceStat(db.conn.sequences[i].keyLength, db.conn.sequences[i].currentSequence,
                                                db.conn.sequences[i].maxPossible, db.conn.sequences[i].exhausted)
      ensures st.reservedKeysCount == |db.conn.reserved|
      ensures st.usedShortKeysCount == CountKeyed(db.conn.records)
      ensures st.charsetSize == 62 && st.charset == CHARSET
    {
      var rows := db.conn.sequences;
      var out: seq<SequenceStat> := [];
      for i := 0 to |rows|
        invariant |out| == i
        invariant forall j :: 0 <= j < i ==>
                    out[j] == SequenceStat(rows[j].keyLength, rows[j].currentSequence, rows[j].maxPossible, rows[j].exhausted)
      {
        out := out + [SequenceStat(rows[i].keyLength, rows[i].currentSequence, rows[i].maxPossible, rows[i].exhausted)];
      }
      var used := 0;
      var records := db.conn.records;
      for i := 0 to |records|
        invariant used == CountKeyed(records[..i])
      {
        assert records[..i + 1][..i] == records[..i];
        if records[i].shortKey.Some? {
          used := used + 1;
        }
      }
      assert records[..|records|] == records;
      CharsetIsAlphanumeric();
      st := KeyStatistics(out, |db.conn.reserved|, used, |CHARSET|, CHARSET);
    }
  }
}
