/** The pure helpers of the static-timetable ingest script (scripts/ingest-static.ts):
    date reformatting, CSV field parsing, `H:M:S` to seconds, record filtering and batch slicing. */
module IngestStatic {
  import opened Wrappers
  import opened Decimal
  import opened Seqs

  /** Records per insert statement. */
  const BATCH_SIZE: nat := 5000

  // ---------------------------------------------------------------------------
  // formatDate
  // ---------------------------------------------------------------------------

  /** `s.slice(i, j)` for 0 <= i <= j: both ends clamped to the length. */
  function Slice(s: string, i: nat, j: nat): (r: string)
    requires i <= j
    ensures |r| == (if j <= |s| then j else |s|) - (if i <= |s| then i else |s|)
  {
    var hi := if j <= |s| then j else |s|;
    var lo := if i <= |s| then i else |s|;
    s[lo..hi]
  }

  /** GTFS `YYYYMMDD` to `YYYY-MM-DD`; shorter input keeps whatever characters it has. */
  function FormatDate(yyyymmdd: string): (r: string)
    ensures |r| == (if |yyyymmdd| < 8 then |yyyymmdd| else 8) + 2
    ensures |yyyymmdd| == 8 ==>
              && r[4] == '-' && r[7] == '-'
              && r[..4] == yyyymmdd[..4] && r[5..7] == yyyymmdd[4..6] && r[8..] == yyyymmdd[6..]
  {
    Slice(yyyymmdd, 0, 4) + "-" + Slice(yyyymmdd, 4, 6) + "-" + Slice(yyyymmdd, 6, 8)
  }

  /** Removing the two dashes from a formatted date gives the GTFS date back. */
  lemma FormatDateRoundTrip(yyyymmdd: string)
    requires |yyyymmdd| == 8
    ensures var r := FormatDate(yyyymmdd); r[..4] + r[5..7] + r[8..] == yyyymmdd
  {
    var r := FormatDate(yyyymmdd);
    assert yyyymmdd == yyyymmdd[..4] + yyyymmdd[4..6] + yyyymmdd[6..];
  }

  // ---------------------------------------------------------------------------
  // parseBoolean, toNull
  // ---------------------------------------------------------------------------

  /** GTFS booleans are `"1"`; every other spelling, `"true"` included, reads as false. */
  function ParseBoolean(value: string): (b: bool)
    ensures b <==> value == "1"
  {
    value == "1"
  }

  /** Optional CSV field: absent and empty both become null; anything else is kept as is. */
  function ToNull(value: Option<string>): (r: Option<string>)
    ensures r.None? <==> (value.None? || value == Some(""))
    ensures r.Some? ==> r == value && r.value != ""
  {
    match value
    case None => None
    case Some(v) => if v == "" then None else Some(v)
  }

  // ---------------------------------------------------------------------------
  // parseInt(value, 10)
  // ---------------------------------------------------------------------------

  /** JavaScript's StrWhiteSpaceChar: the WhiteSpace and LineTerminator code points. */
  predicate IsJsWhitespace(c: char) {
    var n := c as int;
    n == 0x09 || n == 0x0A || n == 0x0B || n == 0x0C || n == 0x0D || n == 0x20 || n == 0xA0
    || n == 0x1680 || (0x2000 <= n <= 0x200A) || n == 0x2028 || n == 0x2029
    || n == 0x202F || n == 0x205F || n == 0x3000 || n == 0xFEFF
  }

  function TrimStart(s: string): (r: string)
    ensures |r| <= |s| && r == s[|s| - |r|..]
    ensures |r| > 0 ==> !IsJsWhitespace(r[0])
  {
    if |s| > 0 && IsJsWhitespace(s[0]) then TrimStart(s[1..]) else s
  }

  /** Length of the longest all-digit prefix of `s`. */
  function DigitPrefixLength(s: string): (n: nat)
    ensures n <= |s| && IsDigits(s[..n])
    ensures n < |s| ==> !IsDigit(s[n])
  {
    if |s| > 0 && IsDigit(s[0]) then
      var n := 1 + DigitPrefixLength(s[1..]);
      assert forall i | 1 <= i < n :: s[..n][i] == s[1..][..n - 1][i - 1];
      n
    else 0
  }

  /** `parseInt(s, 10)`: leading white space is skipped and the rest is read by `ParseTrimmed`;
      `None` stands for `NaN` (no digit where one is expected). */
  function ParseInt(s: string): (r: Option<int>)
    ensures r.Some? ==> exists k | 0 <= k < |s| :: IsDigit(s[k])
    ensures r.Some? && r.value < 0 ==> '-' in s
  {
    var t := TrimStart(s);
    var r := ParseTrimmed(t);
    assert r.Some? ==> IsDigit(s[|s| - |t| + SignLength(t)]);
    assert r.Some? && r.value < 0 ==> s[|s| - |t|] == '-';
    r
  }

  /** 1 when the text starts with a sign, else 0. */
  function SignLength(t: string): (n: nat)
    ensures n <= |t|
  {
    if |t| > 0 && (t[0] == '-' || t[0] == '+') then 1 else 0
  }

  /** `parseInt` after the white space: one optional sign, then the longest run of digits. */
  function ParseTrimmed(t: string): (r: Option<int>)
    ensures r.Some? ==> SignLength(t) < |t| && IsDigit(t[SignLength(t)])
    ensures r.Some? && r.value < 0 ==> t[0] == '-'
  {
    var negative := |t| > 0 && t[0] == '-';
    var body := t[SignLength(t)..];
    var n := DigitPrefixLength(body);
    if n == 0 then None
    else
      var v: int := Value(body[..n]);
      assert body[..n][0] == body[0];
      Some(if negative then -v else v)
  }

  /** A digit string parses to its decimal value; trailing garbage after digits is ignored;
      no digit at all is `NaN`. */
  lemma ParseIntOfDigits(s: string)
    requires |s| >= 1 && IsDigits(s)
    ensures ParseInt(s) == Some(Value(s))
  {
    assert !IsJsWhitespace(s[0]);
    assert TrimStart(s) == "" + "" + s + "";
    ParseIntOfTrimmed(s, "", s, "");
  }

  /** `parseInt` on its general shape: leading white space, at most one sign, a run of digits,
      then anything that does not start with a digit. The run is read in decimal and negated
      after a minus sign. */
  lemma {:induction false} ParseIntOfText(ws: string, sign: string, d: string, rest: string)
    requires forall k | 0 <= k < |ws| :: IsJsWhitespace(ws[k])
    requires sign == "" || sign == "+" || sign == "-"
    requires |d| >= 1 && IsDigits(d)
    requires |rest| == 0 || !IsDigit(rest[0])
    ensures ParseInt(ws + sign + d + rest) == Some(if sign == "-" then -(Value(d) as int) else Value(d) as int)
  {
    var x := sign + d + rest;
    assert ws + sign + d + rest == ws + x;
    assert !IsJsWhitespace(x[0]) by {
      if sign == "" { assert x[0] == d[0]; } else { assert x[0] == sign[0]; }
    }
    TrimStartSkips(ws, x);
    ParseIntOfTrimmed(ws + x, sign, d, rest);
  }

  lemma {:induction false} ParseIntOfTrimmed(s: string, sign: string, d: string, rest: string)
    requires sign == "" || sign == "+" || sign == "-"
    requires |d| >= 1 && IsDigits(d)
    requires |rest| == 0 || !IsDigit(rest[0])
    requires TrimStart(s) == sign + d + rest
    ensures ParseInt(s) == Some(if sign == "-" then -(Value(d) as int) else Value(d) as int)
  {
    ParseTrimmedOfRun(sign, d, rest);
  }

  lemma {:induction false} ParseTrimmedOfRun(sign: string, d: string, rest: string)
    requires sign == "" || sign == "+" || sign == "-"
    requires |d| >= 1 && IsDigits(d)
    requires |rest| == 0 || !IsDigit(rest[0])
    ensures ParseTrimmed(sign + d + rest) == Some(if sign == "-" then -(Value(d) as int) else Value(d) as int)
  {
    var t := sign + d + rest;
    var body := d + rest;
    assert SignLength(t) == |sign| && (|t| > 0 && t[0] == '-' <==> sign == "-") by {
      if sign == "" { assert t[0] == d[0]; } else { assert t[0] == sign[0]; }
    }
    assert t[|sign|..] == body;
    DigitPrefixOfRun(d, rest);
    assert body[..|d|] == d;
  }

  /** `parseInt` is `NaN` when no digit follows the white space and the optional sign. */
  lemma {:induction false} ParseIntNaN(ws: string, sign: string, rest: string)
    requires forall k | 0 <= k < |ws| :: IsJsWhitespace(ws[k])
    requires sign == "" || sign == "+" || sign == "-"
    requires |rest| == 0 || !IsDigit(rest[0])
    requires sign == "" && |rest| > 0 ==> !IsJsWhitespace(rest[0]) && rest[0] != '+' && rest[0] != '-'
    ensures ParseInt(ws + sign + rest) == None
  {
    var x := sign + rest;
    assert ws + sign + rest == ws + x;
    TrimStartSkips(ws, x);
    assert (if |x| > 0 && (x[0] == '-' || x[0] == '+') then x[1..] else x) == rest;
  }

  /** White space in front of text that does not start with white space is all that is trimmed. */
  lemma {:induction false} TrimStartSkips(ws: string, x: string)
    requires forall k | 0 <= k < |ws| :: IsJsWhitespace(ws[k])
    requires |x| == 0 || !IsJsWhitespace(x[0])
    ensures TrimStart(ws + x) == x
  {
    if |ws| > 0 {
      assert (ws + x)[1..] == ws[1..] + x;
      TrimStartSkips(ws[1..], x);
    }
  }

  /** A run of digits followed by a non-digit is exactly the digit prefix. */
  lemma {:induction false} DigitPrefixOfRun(d: string, rest: string)
    requires IsDigits(d)
    requires |rest| == 0 || !IsDigit(rest[0])
    ensures DigitPrefixLength(d + rest) == |d|
  {
    if |d| > 0 {
      assert (d + rest)[1..] == d[1..] + rest;
      DigitPrefixOfRun(d[1..], rest);
    }
  }

  /** `parseIntOrNull`: absent or empty input and `NaN` all give null. */
  function ParseIntOrNull(value: Option<string>): (r: Option<int>)
    ensures value.None? || value == Some("") ==> r.None?
    ensures value.Some? && value.value != "" ==> r == ParseInt(value.value)
  {
    match value
    case None => None
    case Some(v) => if v == "" then None else ParseInt(v)
  }

  /** What the ingest stores for a decimal number read back from its own text. */
  lemma ParseIntOrNullOfNumber(n: nat)
    ensures ParseIntOrNull(Some(NatToString(n))) == Some(n)
  {
    ParseIntOfDigits(NatToString(n));
  }

  /** Text with no digit where the number should start is null. */
  lemma ParseIntOrNullNonNumeric(v: string)
    requires |v| > 0 && !IsDigit(v[0]) && !IsJsWhitespace(v[0]) && v[0] != '-' && v[0] != '+'
    ensures ParseIntOrNull(Some(v)) == None
  {
  }

  // ---------------------------------------------------------------------------
  // timeToSeconds
  // ---------------------------------------------------------------------------

  /** Index of the first `c` in `s`. */
  function IndexOf(s: string, c: char): (i: nat)
    requires c in s
    ensures i < |s| && s[i] == c && c !in s[..i]
  {
    if s[0] == c then 0
    else
      var i := 1 + IndexOf(s[1..], c);
      assert s[..i] == [s[0]] + s[1..][..i - 1];
      i
  }

  /** `s.split(sep)` for a one-character separator: the pieces between separators, at least one. */
  function Split(s: string, sep: char): (parts: seq<string>)
    ensures |parts| >= 1
    ensures forall k | 0 <= k < |parts| :: sep !in parts[k]
    decreases |s|
  {
    if sep !in s then [s]
    else
      var i := IndexOf(s, sep);
      [s[..i]] + Split(s[i + 1..], sep)
  }

  lemma SplitFirst(a: string, sep: char, b: string)
    requires sep !in a
    ensures Split(a + [sep] + b, sep) == [a] + Split(b, sep)
  {
    var s := a + [sep] + b;
    assert s[|a|] == sep;
    assert s[..|a|] == a;
    var i := IndexOf(s, sep);
    assert i == |a|;
    assert s[..i] == a;
    assert s[i + 1..] == b;
  }

  /** `parts.join(sep)`: the pieces with one separator between neighbours. */
  function Join(parts: seq<string>, sep: char): string
  {
    if |parts| == 0 then ""
    else if |parts| == 1 then parts[0]
    else parts[0] + [sep] + Join(parts[1..], sep)
  }

  /** Splitting loses nothing: joining the pieces back with the separator gives the input. */
  lemma {:induction false} SplitJoin(s: string, sep: char)
    ensures Join(Split(s, sep), sep) == s
    decreases |s|
  {
    if sep in s {
      var i := IndexOf(s, sep);
      var head, rest := s[..i], Split(s[i + 1..], sep);
      assert Split(s, sep) == [head] + rest;
      SplitJoin(s[i + 1..], sep);
      JoinCons(head, rest, sep);
      assert s == head + [sep] + s[i + 1..];
    }
  }

  lemma JoinCons(head: string, rest: seq<string>, sep: char)
    requires |rest| >= 1
    ensures Join([head] + rest, sep) == head + [sep] + Join(rest, sep)
  {
    assert ([head] + rest)[1..] == rest;
  }

  /** `parseInt(x, 10) || 0`: `NaN` (and zero) count as 0. */
  function ParseIntOrZero(x: string): int
  {
    match ParseInt(x)
    case Some(v) => v
    case None => 0
  }

  /** GTFS `H:M:S` to seconds past midnight; hours may exceed 23; a missing or non-numeric
      component counts as 0; pieces after the third are ignored. */
  function TimeToSeconds(value: string): (r: int)
    ensures ':' !in value ==> r == ParseIntOrZero(value) * 3600
  {
    ParseZero();
    var parts := Split(value, ':');
    var h := if |parts| > 0 then parts[0] else "0";
    var m := if |parts| > 1 then parts[1] else "0";
    var s := if |parts| > 2 then parts[2] else "0";
    ParseIntOrZero(h) * 3600 + ParseIntOrZero(m) * 60 + ParseIntOrZero(s)
  }

  /** Three digit fields separated by colons: hours * 3600 + minutes * 60 + seconds. */
  lemma {:induction false} TimeToSecondsOfFields(h: string, m: string, s: string)
    requires |h| >= 1 && |m| >= 1 && |s| >= 1 && IsDigits(h) && IsDigits(m) && IsDigits(s)
    ensures TimeToSeconds(h + ":" + m + ":" + s) == Value(h) * 3600 + Value(m) * 60 + Value(s)
  {
    NoColonInDigits(h);
    NoColonInDigits(m);
    NoColonInDigits(s);
    SplitThree(h, m, s);
    var x := h + ":" + m + ":" + s;
    assert TimeToSeconds(x) == ParseIntOrZero(h) * 3600 + ParseIntOrZero(m) * 60 + ParseIntOrZero(s);
    ParseIntOrZeroOfDigits(h);
    ParseIntOrZeroOfDigits(m);
    ParseIntOrZeroOfDigits(s);
  }

  lemma {:induction false} ParseIntOrZeroOfDigits(d: string)
    requires |d| >= 1 && IsDigits(d)
    ensures ParseIntOrZero(d) == Value(d)
  {
    ParseIntOfDigits(d);
  }

  /** A bare number of hours: the missing minutes and seconds count as 0. */
  lemma TimeToSecondsHoursOnly(h: string)
    requires |h| >= 1 && IsDigits(h)
    ensures TimeToSeconds(h) == Value(h) * 3600
  {
    NoColonInDigits(h);
    ParseIntOfDigits(h);
  }

  lemma ParseZero()
    ensures ParseIntOrZero("0") == 0
  {
    var z := "0";
    assert IsDigits(z);
    ParseIntOfDigits(z);
    assert Value(z) == 10 * Value(z[..0]) + DigitValue(z[0]);
  }

  /** A non-numeric component contributes nothing. */
  lemma {:induction false} TimeToSecondsNonNumericMinutes(h: string, m: string, s: string)
    requires |h| >= 1 && |s| >= 1 && IsDigits(h) && IsDigits(s)
    requires ':' !in m && ParseInt(m).None?
    ensures TimeToSeconds(h + ":" + m + ":" + s) == Value(h) * 3600 + Value(s)
  {
    NoColonInDigits(h);
    NoColonInDigits(s);
    SplitThree(h, m, s);
    var x := h + ":" + m + ":" + s;
    assert TimeToSeconds(x) == ParseIntOrZero(h) * 3600 + ParseIntOrZero(m) * 60 + ParseIntOrZero(s);
    ParseIntOrZeroOfDigits(h);
    ParseIntOrZeroOfDigits(s);
  }

  /** Three colon-free pieces joined by colons split back into exactly those pieces. */
  lemma SplitThree(h: string, m: string, s: string)
    requires ':' !in h && ':' !in m && ':' !in s
    ensures Split(h + ":" + m + ":" + s, ':') == [h, m, s]
  {
    assert h + ":" + m + ":" + s == h + [':'] + (m + [':'] + s);
    SplitFirst(h, ':', m + [':'] + s);
    SplitFirst(m, ':', s);
  }

  lemma NoColonInDigits(s: string)
    requires IsDigits(s)
    ensures ':' !in s
  {
    forall i | 0 <= i < |s|
      ensures s[i] != ':'
    {
      assert IsDigit(s[i]);
    }
  }

  // ---------------------------------------------------------------------------
  // filterRecords
  // ---------------------------------------------------------------------------

  /** `filterRecords`: keeps the records that pass `isValid`, in order, and counts the rest. */
  method FilterRecords<T>(records: seq<T>, isValid: T -> bool) returns (filtered: seq<T>, skipped: nat)
    ensures filtered == Filter(records, isValid)
    ensures skipped == |records| - |filtered|
    ensures skipped == CountFailing(records, isValid)
  {
    filtered := [];
    skipped := 0;
    var i := |records|;
    var kept: seq<T> := [];
    // Filter is defined from the front, so the suffix records[i..] is processed first.
    while i > 0
      invariant 0 <= i <= |records|
      invariant kept == Filter(records[i..], isValid)
      invariant skipped == CountFailing(records[i..], isValid)
    {
      i := i - 1;
      assert records[i..][1..] == records[i + 1..];
      if isValid(records[i]) {
        kept := [records[i]] + kept;
      } else {
        skipped := skipped + 1;
      }
    }
    assert records[0..] == records;
    filtered := kept;
    FilterCount(records, isValid);
  }

  /** A record is kept exactly when it passes the predicate. */
  lemma FilterRecordsMembership<T>(records: seq<T>, isValid: T -> bool, x: T)
    ensures x in Filter(records, isValid) <==> x in records && isValid(x)
  {
    if x in records && isValid(x) {
      FilterKeepsAll(records, isValid, x);
    }
  }

  // ---------------------------------------------------------------------------
  // batchInsert
  // ---------------------------------------------------------------------------

  /** `batchInsert`: walks the records `BATCH_SIZE` at a time, passing each slice to the insert
      callback unless in dry-run mode. Returns the slices handed to the callback and the batch
      total it announces. */
  method BatchInsert<T>(records: seq<T>, dryRun: bool) returns (inserted: seq<seq<T>>, totalBatches: nat)
    ensures totalBatches == (|records| + BATCH_SIZE - 1) / BATCH_SIZE
    ensures dryRun ==> inserted == []
    ensures !dryRun ==> Flatten(inserted) == records
    ensures !dryRun ==> |inserted| == totalBatches
    ensures forall k | 0 <= k < |inserted| :: 0 < |inserted[k]| <= BATCH_SIZE
    ensures forall k | 0 <= k < |inserted| - 1 :: |inserted[k]| == BATCH_SIZE
  {
    totalBatches := (|records| + BATCH_SIZE - 1) / BATCH_SIZE;
    inserted := [];
    var i := 0;
    ghost var iterations := 0;
    while i < |records|
      invariant i == iterations * BATCH_SIZE
      invariant i <= |records| ==> iterations <= totalBatches
      invariant i > |records| ==> iterations == totalBatches
      invariant dryRun ==> inserted == []
      invariant !dryRun ==> |inserted| == iterations && Flatten(inserted) == records[..Min(i, |records|)]
      invariant forall k | 0 <= k < |inserted| :: 0 < |inserted[k]| <= BATCH_SIZE
      invariant forall k | 0 <= k < |inserted| - 1 :: |inserted[k]| == BATCH_SIZE
      invariant |inserted| > 0 && i < |records| ==> |inserted[|inserted| - 1]| == BATCH_SIZE
    {
      var batch := records[i..Min(i + BATCH_SIZE, |records|)];
      if !dryRun {
        FlattenAppend(inserted, batch);
        assert records[..Min(i + BATCH_SIZE, |records|)] == records[..i] + batch;
        inserted := inserted + [batch];
      }
      i := i + BATCH_SIZE;
      iterations := iterations + 1;
    }
    assert records[..Min(i, |records|)] == records;
  }
}
