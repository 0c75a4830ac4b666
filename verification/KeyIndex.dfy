/** Data skipping for a key of the first column: what min/max statistics, which may be cut to 32
    characters, prove about the rows of a file (KeyMatcher). Text is a sequence of UTF-8 bytes. */
module KeyIndex {
  import opened Options
  import Decimal

  newtype Byte = b: int | 0 <= b < 256

  type Text = seq<Byte>

  // ---- the order of texts --------------------------------------------------------------------

  /** byte order of UTF-8 */
  predicate Before(a: Text, b: Text) {
    if b == [] then false
    else if a == [] then true
    else a[0] < b[0] || (a[0] == b[0] && Before(a[1..], b[1..]))
  }

  lemma {:induction false} BeforeTransitive(a: Text, b: Text, c: Text)
    requires !Before(b, a) && !Before(c, b)
    ensures !Before(c, a)
    decreases |a|
  {
    if a != [] && b != [] && c != [] && a[0] == b[0] == c[0] { BeforeTransitive(a[1..], b[1..], c[1..]); }
  }

  lemma {:induction false} BeforeTotal(a: Text, b: Text)
    ensures a == b || Before(a, b) || Before(b, a)
    ensures !(Before(a, b) && Before(b, a))
    decreases |a|
  {
    if a != [] && b != [] {
      BeforeTotal(a[1..], b[1..]);
      assert a == [a[0]] + a[1..] && b == [b[0]] + b[1..];
    }
  }

  lemma {:induction false} PrefixNotAfter(p: Text, s: Text)
    requires p <= s
    ensures !Before(s, p)
    decreases |p|
  {
    if p != [] { PrefixNotAfter(p[1..], s[1..]); }
  }

  lemma {:induction false} BeforeLonger(k: Text, p: Text, s: Text)
    requires p <= s && Before(k, p)
    ensures Before(k, s)
    decreases |p|
  {
    if k != [] && k[0] == p[0] { BeforeLonger(k[1..], p[1..], s[1..]); }
  }

  /** Between a prefix of s and s itself there are only texts with that prefix. */
  lemma {:induction false} BetweenPrefixAndWhole(p: Text, k: Text, s: Text)
    requires p <= s && !Before(k, p) && !Before(s, k)
    ensures p <= k
    decreases |p|
  {
    if p != [] { BetweenPrefixAndWhole(p[1..], k[1..], s[1..]); }
  }

  // ---- characters ----------------------------------------------------------------------------

  /** The byte does not continue a character: (c & 0xC0) != 0x80. */
  predicate Starts(c: Byte) { !(0x80 <= c < 0xC0) }

  function CodePoints(text: Text): nat {
    if text == [] then 0 else CodePoints(text[..|text| - 1]) + if Starts(text[|text| - 1]) then 1 else 0
  }

  /** The longest prefix with at most n characters. */
  ghost predicate IsFirst(p: Text, text: Text, n: nat) {
    p <= text && CodePoints(p) <= n && (p == text || (CodePoints(p) == n && Starts(text[|p|])))
  }

  method CountCodePoints(text: Text) returns (count: nat)
    ensures count == CodePoints(text)
  {
    count := 0;
    for i := 0 to |text|
      invariant count == CodePoints(text[..i])
    {
      assert text[..i + 1][..i] == text[..i];
      if Starts(text[i]) { count := count + 1; }
    }
    assert text[..|text|] == text;
  }

  method FirstCodePoints(text: Text, n: nat) returns (p: Text)
    ensures p == First(text, n)
  {
    var count := 0;
    for i := 0 to |text|
      invariant count == CodePoints(text[..i]) && count <= n
    {
      assert text[..i + 1][..i] == text[..i];
      if Starts(text[i]) {
        if count == n {
          FirstIsUnique(text[..i], First(text, n), text, n);
          return text[..i];
        }
        count := count + 1;
      }
    }
    assert text[..|text|] == text;
    FirstIsUnique(text, First(text, n), text, n);
    return text;
  }

  /** first_code_points */
  function First(text: Text, n: nat): (p: Text)
    ensures IsFirst(p, text, n)
  {
    if text == [] then []
    else
      var p := First(text[..|text| - 1], n);
      if p == text[..|text| - 1] && (!Starts(text[|text| - 1]) || CodePoints(p) < n) then text else p
  }

  lemma {:induction false} CodePointsGrow(p: Text, s: Text)
    requires p <= s
    ensures CodePoints(p) <= CodePoints(s)
    ensures p != s && Starts(s[|p|]) ==> CodePoints(p) < CodePoints(s)
    decreases |s|
  {
    if p != s {
      CodePointsGrow(p, s[..|s| - 1]);
    }
  }

  lemma FirstIsUnique(p: Text, q: Text, text: Text, n: nat)
    requires IsFirst(p, text, n) && IsFirst(q, text, n)
    ensures p == q
  {
    if |p| < |q| {
      assert p <= q;
      CodePointsGrow(p, q);
    } else if |q| < |p| {
      assert q <= p;
      CodePointsGrow(q, p);
    }
  }

  // ---- UTF-8 -------------------------------------------------------------------------------------

  type CodePoint = c: nat | c < 0x110000

  /** A code point in UTF-8 (section 3 of RFC 3629). */
  function Utf8(c: CodePoint): Text {
    if c < 0x80 then [c as Byte]
    else if c < 0x800 then [(0xC0 + c / 0x40) as Byte, Continued(c)]
    else if c < 0x10000 then [(0xE0 + c / 0x1000) as Byte, Continued(c / 0x40), Continued(c)]
    else [(0xF0 + c / 0x40000) as Byte, Continued(c / 0x1000), Continued(c / 0x40), Continued(c)]
  }

  /** Six more bits. */
  function Continued(c: nat): Byte { (0x80 + c % 0x40) as Byte }

  function Encoded(points: seq<CodePoint>): Text {
    if points == [] then [] else Encoded(points[..|points| - 1]) + Utf8(points[|points| - 1])
  }

  lemma Utf8Shape(c: CodePoint)
    ensures var more := Utf8(c);
            && more != [] && Starts(more[0])
            && forall i | 0 < i < |more| :: more[i] in {Continued(c), Continued(c / 0x40), Continued(c / 0x1000)}
  {}

  lemma ContinuedStartsNothing(c: nat)
    ensures !Starts(Continued(c))
  {}

  lemma OneCodePoint(text: Text, c: CodePoint)
    ensures Utf8(c) != [] && CodePoints(text + Utf8(c)) == CodePoints(text) + 1 && Starts(Utf8(c)[0])
  {
    var more := Utf8(c);
    Utf8Shape(c);
    var rest := more[1..];
    forall i | 0 <= i < |rest| ensures !Starts(rest[i]) {
      assert rest[i] == more[i + 1];
      ContinuedStartsNothing(c);
      ContinuedStartsNothing(c / 0x40);
      ContinuedStartsNothing(c / 0x1000);
    }
    CodePointsSnoc(text, more[0]);
    ContinuedBytes(text + [more[0]], rest);
    assert text + [more[0]] + rest == text + more;
  }

  lemma {:induction false} ContinuedBytes(text: Text, more: Text)
    requires forall i | 0 <= i < |more| :: !Starts(more[i])
    ensures CodePoints(text + more) == CodePoints(text)
    decreases |more|
  {
    if more == [] {
      assert text + more == text;
    } else {
      CodePointsSnoc(text, more[0]);
      ContinuedBytes(text + [more[0]], more[1..]);
      assert text + [more[0]] + more[1..] == text + more;
    }
  }

  lemma CodePointsSnoc(text: Text, b: Byte)
    ensures CodePoints(text + [b]) == CodePoints(text) + if Starts(b) then 1 else 0
  {
    assert (text + [b])[..|text|] == text;
  }

  /** What is counted are the code points, and cutting a text to n characters keeps its first n code points. */
  lemma {:induction false} FirstCutsCodePoints(points: seq<CodePoint>, n: nat)
    ensures CodePoints(Encoded(points)) == |points|
    ensures First(Encoded(points), n) == Encoded(if n < |points| then points[..n] else points)
    decreases |points|
  {
    if points != [] {
      var before, c := points[..|points| - 1], points[|points| - 1];
      FirstCutsCodePoints(before, n);
      OneCodePoint(Encoded(before), c);
      if n <= |before| {
        assert (if n < |before| then before[..n] else before) == points[..n];
        CutBefore(Encoded(before), Utf8(c), n);
      }
    }
    if n >= |points| { FirstIsUnique(Encoded(points), First(Encoded(points), n), Encoded(points), n); }
  }

  /** A whole character more does not change a cut. */
  lemma CutBefore(text: Text, more: Text, n: nat)
    requires more != [] && Starts(more[0]) && CodePoints(text) >= n
    ensures First(text + more, n) == First(text, n)
  {
    var p := First(text, n);
    if p == text { assert (text + more)[|p|] == more[0]; } else { assert (text + more)[|p|] == text[|p|]; }
    FirstIsUnique(First(text + more, n), p, text + more, n);
  }

  // ---- integers as text --------------------------------------------------------------------------

  /** Each byte as the character with its number. */
  function Chars(text: Text): string {
    seq(|text|, i requires 0 <= i < |text| => (text[i] as int) as char)
  }

  /** The bytes of an ASCII text. */
  function Bytes(s: string): (text: Text)
    requires forall i | 0 <= i < |s| :: s[i] < 128 as char
    ensures Chars(text) == s
  {
    seq(|s|, i requires 0 <= i < |s| => (s[i] as int) as Byte)
  }

  const INT64_MAX := 0x7FFF_FFFF_FFFF_FFFF

  predicate IsInt64(n: int) { -INT64_MAX - 1 <= n <= INT64_MAX }

  /** std::from_chars over the whole text: an optional minus sign, at least one digit, 64 bits. */
  function ParseInteger(text: Text): (r: Option<int>)
    ensures r.Some? ==> IsInt64(r.value)
  {
    var s := Chars(text);
    var negative := s != "" && s[0] == '-';
    var digits := if negative then s[1..] else s;
    if digits == "" || !Decimal.Digits(digits) then None
    else
      var n: int := if negative then 0 - Decimal.Value(digits) as int else Decimal.Value(digits);
      if IsInt64(n) then Some(n) else None
  }

  /** A number as the text of its statistics. */
  function NumberText(n: int): Text { Bytes(Decimal.IntText(n)) }

  /** A written number is read back. */
  lemma NumberTextRoundTrip(n: int)
    ensures ParseInteger(NumberText(n)) == if IsInt64(n) then Some(n) else None
  {
    Decimal.NatTextValue(if n < 0 then -n else n);
    if n < 0 { assert Decimal.IntText(n)[1..] == Decimal.NatText(-n); }
  }

  // ---- keys and statistics -----------------------------------------------------------------------

  datatype Kind = Integer | Date | String | Other

  datatype Value = Number(n: int) | Characters(text: Text) | Opaque(id: nat)

  /** A column with nulls. */
  type Column = seq<Option<Value>>

  /** The chunks of a column or table follow each other. */
  function Concatenated<T>(chunks: seq<seq<T>>): seq<T> {
    if chunks == [] then [] else chunks[0] + Concatenated(chunks[1..])
  }

  lemma OneChunk<T>(column: seq<T>)
    ensures Concatenated([column]) == column
  {
    var none: seq<seq<T>> := [];
    assert [column][1..] == none;
  }

  /** A key of the first column. value: the key as a value of the column's type; valid: it is one.
      date: reading a date, which is arrow's business. */
  datatype KeyMatcher = KeyMatcher(kind: Kind, key: Text, value: Value, valid: bool, date: Text -> Option<int>)
  {
    ghost predicate Consistent() {
      match kind
      case Integer => value.Number?
      case Date => value.Number?
      case String => value == Characters(key)
      case Other => true
    }

    function Parse(text: Text): Option<int> {
      if kind == Date then date(text) else ParseInteger(text)
    }
  }

  datatype KeyMatch = NoRow | Possible | Exact

  const STRING_STATS_PREFIX: nat := 32

  /** classify; min, max: None if the statistics do not have the column; records: -1 if unknown. */
  function Classify(m: KeyMatcher, min: Option<Text>, max: Option<Text>, records: int): KeyMatch
    requires m.Consistent()
  {
    if !m.valid || records == 0 then NoRow
    else if min.None? || max.None? then Possible
    else match m.kind
      case Other => Possible
      case String => ClassifyText(m.key, min.value, max.value, records)
      case _ =>
        var low, high := m.Parse(min.value), m.Parse(max.value);
        if low.None? || high.None? then Possible
        else if m.value.n < low.value || m.value.n > high.value then NoRow
        else if records == 1 && low.value == m.value.n && high.value == m.value.n then Exact
        else Possible
  }

  function ClassifyText(key: Text, min: Text, max: Text, records: int): KeyMatch {
    if Before(key, min) then NoRow
    else if Before(max, key) && (CodePoints(max) < STRING_STATS_PREFIX || !(First(max, STRING_STATS_PREFIX) <= key)) then NoRow
    else if records == 1 && min == key && max == key && CodePoints(key) < STRING_STATS_PREFIX then Exact
    else Possible
  }

  /** A statistic as the log has it. A JSON null is read as the empty text. */
  datatype Stat = Absent | Null | Is(text: Text)

  function Read(stat: Stat): Option<Text> {
    match stat
    case Absent => None
    case Null => Some([])
    case Is(text) => Some(text)
  }

  predicate HasRow(column: Column, value: Value) { Some(value) in column }

  predicate AllNull(column: Column) { forall v <- column :: v.None? }

  ghost predicate IsMinimum(column: Column, text: Text) {
    HasRow(column, Characters(text)) && forall v <- column | v.Some? && v.value.Characters? :: !Before(v.value.text, text)
  }

  ghost predicate IsMaximum(column: Column, text: Text) {
    HasRow(column, Characters(text)) && forall v <- column | v.Some? && v.value.Characters? :: !Before(text, v.value.text)
  }

  /** The real minimum, or its first 32 characters. */
  ghost predicate HonestMin(column: Column, text: Text) {
    exists whole :: IsMinimum(column, whole) && (text == whole || text == First(whole, STRING_STATS_PREFIX))
  }

  /** The real maximum, or its first 32 characters, to which an engine may have added more. */
  ghost predicate HonestMax(column: Column, text: Text) {
    exists whole :: IsMaximum(column, whole) && (text == whole || IsCut(text, whole))
  }

  ghost predicate IsCut(text: Text, whole: Text) {
    var p := First(whole, STRING_STATS_PREFIX);
    CodePoints(p) == STRING_STATS_PREFIX && p <= text && (p == text || Starts(text[|p|]))
  }

  ghost predicate IntegerBounds(column: Column, low: int, high: int) {
    && (exists n :: HasRow(column, Number(n)))
    && forall v <- column | v.Some? && v.value.Number? :: low <= v.value.n <= high
  }

  /** What the statistics of a file promise about its column. */
  ghost predicate Honest(m: KeyMatcher, column: Column, min: Stat, max: Stat, records: int) {
    && (records == -1 || records == |column|)
    && (min.Null? || max.Null? ==> AllNull(column))
    && (min.Is? && max.Is? ==>
          match m.kind
          case String => HonestMin(column, min.text) && HonestMax(column, max.text)
          case Other => true
          case _ =>
            var low, high := m.Parse(min.text), m.Parse(max.text);
            low.Some? && high.Some? ==> IntegerBounds(column, low.value, high.value))
  }

  // ---- skipping a file is sound -----------------------------------------------------------------

  lemma CutMaximum(key: Text, text: Text, whole: Text)
    requires IsCut(text, whole) && !Before(whole, key) && Before(text, key)
    ensures CodePoints(text) >= STRING_STATS_PREFIX && First(text, STRING_STATS_PREFIX) <= key
  {
    var p := First(whole, STRING_STATS_PREFIX);
    CodePointsGrow(p, text);
    FirstIsUnique(First(text, STRING_STATS_PREFIX), p, text, STRING_STATS_PREFIX);
    PrefixNotAfter(p, text);
    BeforeTotal(text, key);
    BeforeTransitive(p, text, key);
    BetweenPrefixAndWhole(p, key, whole);
  }

  lemma TextNotSkipped(column: Column, key: Text, min: Text, max: Text, records: int)
    requires HasRow(column, Characters(key)) && HonestMin(column, min) && HonestMax(column, max)
    ensures ClassifyText(key, min, max, records) != NoRow
  {
    var low :| IsMinimum(column, low) && (min == low || min == First(low, STRING_STATS_PREFIX));
    PrefixNotAfter(min, low);
    BeforeTotal(key, low);
    BeforeTransitive(min, low, key);
    var high :| IsMaximum(column, high) && (max == high || IsCut(max, high));
    if Before(max, key) { CutMaximum(key, max, high); }
  }

  /** A file that is skipped has no row with the key. */
  lemma SkippedHasNoRow(m: KeyMatcher, column: Column, min: Stat, max: Stat, records: int)
    requires m.Consistent() && Honest(m, column, min, max, records)
    requires m.valid && Classify(m, Read(min), Read(max), records) == NoRow
    ensures !HasRow(column, m.value)
  {
    if HasRow(column, m.value) {
      if min.Is? && max.Is? && m.kind == String { TextNotSkipped(column, m.key, min.text, max.text, records); }
    }
  }

  /** The statistics leave no room for the key: whatever texts they were cut from. */
  ghost predicate ExcludesText(key: Text, min: Text, max: Text) {
    forall low, high | MayBeMinimum(min, low) && MayBeMaximum(max, high) :: Before(key, low) || Before(high, key)
  }

  ghost predicate MayBeMinimum(min: Text, low: Text) { min == low || min == First(low, STRING_STATS_PREFIX) }

  ghost predicate MayBeMaximum(max: Text, high: Text) { max == high || IsCut(max, high) }

  ghost predicate Excludes(m: KeyMatcher, min: Text, max: Text) {
    match m.kind
    case Other => false
    case String => ExcludesText(m.key, min, max)
    case _ =>
      var low, high := m.Parse(min), m.Parse(max);
      m.value.Number? && low.Some? && high.Some? && !(low.value <= m.value.n <= high.value)
  }

  /** n bytes above all others. */
  function Highest(n: nat): (text: Text)
    ensures |text| == n && forall i | 0 <= i < n :: text[i] == 255
  {
    seq(n, _ => 255)
  }

  lemma {:induction false} HighestIsAbove(p: Text, rest: Text)
    ensures !Before(p + Highest(|rest| + 1), p + rest)
    decreases |p|, |rest|
  {
    var high := p + Highest(|rest| + 1);
    if p != [] {
      assert high[1..] == p[1..] + Highest(|rest| + 1) && (p + rest)[1..] == p[1..] + rest;
      HighestIsAbove(p[1..], rest);
    } else if rest != [] {
      assert high[1..] == [] + Highest(|rest|) && (p + rest)[1..] == [] + rest[1..];
      HighestIsAbove([], rest[1..]);
    }
  }

  /** A cut maximum may have been any text with the same first characters. */
  lemma CutLeavesRoom(key: Text, max: Text)
    requires CodePoints(max) >= STRING_STATS_PREFIX && First(max, STRING_STATS_PREFIX) <= key
    ensures exists high :: MayBeMaximum(max, high) && !Before(high, key)
  {
    var p := First(max, STRING_STATS_PREFIX);
    var rest := key[|p|..];
    var high := p + Highest(|rest| + 1);
    assert key == p + rest && high[|p|] == 255;
    HighestIsAbove(p, rest);
    FirstIsUnique(First(high, STRING_STATS_PREFIX), p, high, STRING_STATS_PREFIX);
    assert MayBeMaximum(max, high);
  }

  lemma TextSkippedExactly(key: Text, min: Text, max: Text, records: int)
    ensures ClassifyText(key, min, max, records) == NoRow <==> ExcludesText(key, min, max)
  {
    if ClassifyText(key, min, max, records) == NoRow {
      forall low, high | MayBeMinimum(min, low) && MayBeMaximum(max, high) ensures Before(key, low) || Before(high, key) {
        if Before(key, min) {
          BeforeLonger(key, min, low);
        } else if !Before(high, key) {
          if max != high { CutMaximum(key, max, high); }
        }
      }
    } else if Before(max, key) {
      CutLeavesRoom(key, max);
      var high :| MayBeMaximum(max, high) && !Before(high, key);
      assert MayBeMinimum(min, min);
    } else {
      assert MayBeMinimum(min, min) && MayBeMaximum(max, max);
    }
  }

  /** A file is skipped exactly if it has no rows, or its statistics leave no room for the key. */
  lemma SkippedExactly(m: KeyMatcher, min: Option<Text>, max: Option<Text>, records: int)
    requires m.Consistent() && m.valid
    ensures Classify(m, min, max, records) == NoRow <==> records == 0 || (min.Some? && max.Some? && Excludes(m, min.value, max.value))
  {
    if m.kind == String && min.Some? && max.Some? { TextSkippedExactly(m.key, min.value, max.value, records); }
  }

  lemma ShortMinimumIsReal(text: Text, whole: Text)
    requires (text == whole || text == First(whole, STRING_STATS_PREFIX)) && CodePoints(text) < STRING_STATS_PREFIX
    ensures text == whole
  {}

  lemma ExactText(column: Column, key: Text, min: Text, max: Text)
    requires HonestMin(column, min) && HonestMax(column, max) && |column| == 1
    requires ClassifyText(key, min, max, 1) == Exact
    ensures column == [Some(Characters(key))]
  {
    var low :| IsMinimum(column, low) && (min == low || min == First(low, STRING_STATS_PREFIX));
    ShortMinimumIsReal(min, low);
  }

  /** A file that counts as exact holds one row, and it has the key, unless its statistics are JSON
      nulls, which look like those of an empty text. */
  lemma ExactIsOneRow(m: KeyMatcher, column: Column, min: Stat, max: Stat, records: int)
    requires m.Consistent() && Honest(m, column, min, max, records)
    requires m.kind == Date ==> m.date([]).None?
    requires Classify(m, Read(min), Read(max), records) == Exact
    ensures column == [Some(m.value)] <==> min.Is? && max.Is?
    ensures !(min.Is? && max.Is?) ==> m.kind == String && m.key == [] && column == [None]
  {
    if min.Is? && max.Is? {
      if m.kind == String { ExactText(column, m.key, min.text, max.text); }
      else {
        var n :| HasRow(column, Number(n));
      }
    } else {
      assert |column| == 1 && column[0] in column;
      if min.Is? || max.Is? { assert AllNull(column); }
    }
  }

  /** It happens: a single null row with null statistics counts as an exact match of the empty key. */
  lemma NullStatisticsFool(date: Text -> Option<int>)
    ensures var m := KeyMatcher(String, [], Characters([]), true, date);
            && Honest(m, [None], Null, Null, 1) && Classify(m, Read(Null), Read(Null), 1) == Exact
            && !HasRow([None], m.value)
  {}
}
