/** Dates and instants (days_from_civil, civil_from_days and the day split of format_timestamp and
    parse_timestamp) in the proleptic Gregorian calendar of ISO 8601. */
module Calendar {
  import opened Decimal

  datatype Date = Date(year: int, month: int, day: int)

  // ---- the calendar itself -----------------------------------------------------------------------

  predicate Leap(y: int) { y % 4 == 0 && (y % 100 != 0 || y % 400 == 0) }

  function MonthLength(y: int, m: int): int {
    if m == 2 then (if Leap(y) then 29 else 28)
    else if m == 4 || m == 6 || m == 9 || m == 11 then 30
    else 31
  }

  predicate ValidDate(date: Date) {
    1 <= date.month <= 12 && 1 <= date.day <= MonthLength(date.year, date.month)
  }

  function NextDay(date: Date): Date {
    if date.day < MonthLength(date.year, date.month) then date.(day := date.day + 1)
    else if date.month < 12 then Date(date.year, date.month + 1, 1)
    else Date(date.year + 1, 1, 1)
  }

  // ---- the arithmetic of the code ------------------------------------------------------------------

  /** C++ division rounds towards zero; b is positive. */
  function Quot(a: int, b: int): int
    requires b > 0
  {
    if a < 0 then -((-a) / b) else a / b
  }

  function DayOfYear(m: int, d: int): int {
    (153 * (if m > 2 then m - 3 else m + 9) + 2) / 5 + d - 1
  }

  function DayOfEra(yoe: int, doy: int): int { yoe * 365 + yoe / 4 - yoe / 100 + doy }

  function DaysFromCivil(date: Date): int {
    var y := if date.month <= 2 then date.year - 1 else date.year;
    var era := Quot(if y >= 0 then y else y - 399, 400);
    var yoe := y - era * 400;
    era * 146097 + DayOfEra(yoe, DayOfYear(date.month, date.day)) - 719468
  }

  function YearOfEra(doe: int): int { (doe - doe / 1460 + doe / 36524 - doe / 146096) / 365 }

  /** The era of a day number and the day in the era. */
  function EraOf(days: int): (int, int) {
    var z := days + 719468;
    var era := Quot(if z >= 0 then z else z - 146096, 146097);
    (era, z - era * 146097)
  }

  function CivilFromDays(days: int): Date { CivilOfEra(EraOf(days).0, EraOf(days).1) }

  function CivilOfEra(era: int, doe: int): Date {
    var yoe := YearOfEra(doe);
    var doy := doe - (365 * yoe + yoe / 4 - yoe / 100);
    var mp := MonthOf(doy);
    var m := Month(mp);
    Date(if m <= 2 then yoe + era * 400 + 1 else yoe + era * 400, m, doy - MonthStart(mp) + 1)
  }

  /** The month, counted from March, of a day of the year. */
  function MonthOf(doy: int): int { (5 * doy + 2) / 153 }

  function MonthStart(mp: int): int { (153 * mp + 2) / 5 }

  function Month(mp: int): int { if mp < 10 then mp + 3 else mp - 9 }

  // ---- proofs ----------------------------------------------------------------------------------------

  /** The trick with the negative case is division rounding down. */
  lemma FloorDivision(a: int, b: int)
    requires b > 0
    ensures Quot(if a >= 0 then a else a - (b - 1), b) == a / b
  {
    if a < 0 {
      var q := a / b;
      assert a == q * b + a % b && 0 <= a % b < b;
      var n := -(a - (b - 1));
      assert n == (-q) * b + (b - 1 - a % b);
      DivisionUnique(n, b, -q, b - 1 - a % b);
    }
  }

  lemma DivisionUnique(n: int, b: int, q: int, r: int)
    requires b > 0 && n == q * b + r && 0 <= r < b
    ensures n / b == q && n % b == r
  {
    assert n == (n / b) * b + n % b;
    var k := n / b - q;
    assert k * b == r - n % b;
    assert k >= 1 ==> k * b >= b;
    assert k <= -1 ==> k * b <= -b;
  }

  /** The years of an era start in March; the last of the day numbers of a year. */
  function LastDay(yoe: int): int {
    if Leap(yoe + 1) then 365 else 364
  }

  lemma YearOfEraInverse(yoe: int, doy: int)
    requires 0 <= yoe < 400 && 0 <= doy <= LastDay(yoe)
    ensures 0 <= DayOfEra(yoe, doy) < 146097
    ensures YearOfEra(DayOfEra(yoe, doy)) == yoe
  {
    var doe := DayOfEra(yoe, doy);
    var q, r, p := yoe / 4, yoe % 4, yoe / 100;
    assert doe == 1461 * q + 365 * r - p + doy;
    assert r < 3 ==> doy <= 364;
    var a, b, c := doe / 1460, doe / 36524, doe / 146096;
    assert a == q || a == q + 1;
    assert b == p || b == p + 1;
  }

  /** Every day of an era lies in one of its years. */
  lemma {:induction false} YearOfDay(doe: nat) returns (yoe: int, doy: int)
    requires doe < 146097
    ensures 0 <= yoe < 400 && 0 <= doy <= LastDay(yoe) && doe == DayOfEra(yoe, doy)
  {
    if doe == 0 { return 0, 0; }
    yoe, doy := YearOfDay(doe - 1);
    if doy < LastDay(yoe) { doy := doy + 1; }
    else { YearEnds(yoe); yoe, doy := yoe + 1, 0; }
  }

  lemma YearEnds(yoe: int)
    requires 0 <= yoe < 400
    ensures DayOfEra(yoe, LastDay(yoe)) + 1 == if yoe < 399 then DayOfEra(yoe + 1, 0) else 146097
  {}

  /** y is the year that starts in March before the day. */
  lemma MonthInverse(y: int, m: int, d: int)
    requires 1 <= m <= 12 && 1 <= d <= MonthLength(if m <= 2 then y + 1 else y, m)
    ensures var doy := DayOfYear(m, d); var mp := MonthOf(doy);
            && 0 <= doy <= (if Leap(y + 1) then 365 else 364)
            && Month(mp) == m && doy - MonthStart(mp) + 1 == d
  {
    var mp := if m > 2 then m - 3 else m + 9;
    assert mp == 0 || mp == 1 || mp == 2 || mp == 3 || mp == 4 || mp == 5 || mp == 6 || mp == 7 || mp == 8 || mp == 9 || mp == 10 || mp == 11;
  }

  lemma DayHasMonth(y: int, doy: int)
    requires 0 <= doy <= if Leap(y + 1) then 365 else 364
    ensures var mp := MonthOf(doy); var m := Month(mp); var d := doy - MonthStart(mp) + 1;
            && 0 <= mp < 12 && 1 <= m <= 12 && 1 <= d <= MonthLength(if m <= 2 then y + 1 else y, m)
            && DayOfYear(m, d) == doy
  {
    var mp := MonthOf(doy);
    assert 0 <= mp < 12;
    assert mp == 0 || mp == 1 || mp == 2 || mp == 3 || mp == 4 || mp == 5 || mp == 6 || mp == 7 || mp == 8 || mp == 9 || mp == 10 || mp == 11;
  }

  lemma LeapRepeats(y: int, era: int)
    ensures Leap(y + 400 * era) == Leap(y)
  {
    DivisionUnique(y + 400 * era, 400, y / 400 + era, y % 400);
    DivisionUnique(y + 400 * era, 100, y / 100 + 4 * era, y % 100);
    DivisionUnique(y + 400 * era, 4, y / 4 + 100 * era, y % 4);
  }

  /** Day number and parts of an era determine each other. */
  lemma EraOfDay(era: int, doe: int)
    requires 0 <= doe < 146097
    ensures EraOf(era * 146097 + doe - 719468) == (era, doe)
  {
    var z := era * 146097 + doe;
    DivisionUnique(z, 146097, era, doe);
    FloorDivision(z, 146097);
  }

  /** The date in year yoe of an era, years starting in March. */
  function MarchDate(era: int, yoe: int, m: int, d: int): Date {
    Date(if m <= 2 then yoe + era * 400 + 1 else yoe + era * 400, m, d)
  }

  predicate ValidMarchDate(yoe: int, m: int, d: int) {
    0 <= yoe < 400 && 1 <= m <= 12 && 1 <= d <= MonthLength(if m <= 2 then yoe + 1 else yoe, m)
  }

  function MarchYear(date: Date): int { if date.month <= 2 then date.year - 1 else date.year }

  /** Every date is one, and validity does not depend on the era. */
  lemma InEra(date: Date)
    ensures var era, yoe := MarchYear(date) / 400, MarchYear(date) % 400;
            && date == MarchDate(era, yoe, date.month, date.day)
            && (ValidDate(date) <==> ValidMarchDate(yoe, date.month, date.day))
  {
    var y := MarchYear(date);
    LeapRepeats(if date.month <= 2 then y % 400 + 1 else y % 400, y / 400);
  }

  lemma MarchDateValid(era: int, yoe: int, m: int, d: int)
    requires ValidMarchDate(yoe, m, d)
    ensures ValidDate(MarchDate(era, yoe, m, d))
  {
    LeapRepeats(if m <= 2 then yoe + 1 else yoe, era);
  }

  lemma EraOfYear(era: int, yoe: int, m: int, d: int)
    requires 0 <= yoe < 400
    ensures DaysFromCivil(MarchDate(era, yoe, m, d)) == era * 146097 + DayOfEra(yoe, DayOfYear(m, d)) - 719468
  {
    var y := yoe + era * 400;
    DivisionUnique(y, 400, era, yoe);
    FloorDivision(y, 400);
  }

  lemma CivilOfEraDate(era: int, yoe: int, m: int, d: int)
    requires ValidMarchDate(yoe, m, d)
    ensures 0 <= DayOfEra(yoe, DayOfYear(m, d)) < 146097
    ensures CivilOfEra(era, DayOfEra(yoe, DayOfYear(m, d))) == MarchDate(era, yoe, m, d)
  {
    MonthInverse(yoe, m, d);
    YearOfEraInverse(yoe, DayOfYear(m, d));
  }

  lemma CivilOfMarchDate(era: int, yoe: int, m: int, d: int, days: int)
    requires ValidMarchDate(yoe, m, d) && days == DaysFromCivil(MarchDate(era, yoe, m, d))
    ensures CivilFromDays(days) == MarchDate(era, yoe, m, d)
  {
    EraOfYear(era, yoe, m, d);
    CivilOfEraDate(era, yoe, m, d);
    EraOfDay(era, DayOfEra(yoe, DayOfYear(m, d)));
  }

  /** The code reads every valid date back from its day number. */
  lemma CivilOfDays(date: Date)
    requires ValidDate(date)
    ensures CivilFromDays(DaysFromCivil(date)) == date
  {
    InEra(date);
    CivilOfMarchDate(MarchYear(date) / 400, MarchYear(date) % 400, date.month, date.day, DaysFromCivil(date));
  }

  lemma DayOfMarchDate(days: int) returns (era: int, yoe: int, m: int, d: int)
    ensures ValidMarchDate(yoe, m, d) && DaysFromCivil(MarchDate(era, yoe, m, d)) == days
  {
    var z := days + 719468;
    era := z / 146097;
    var doy;
    yoe, doy := YearOfDay(z % 146097);
    DayHasMonth(yoe, doy);
    m, d := Month(MonthOf(doy)), doy - MonthStart(MonthOf(doy)) + 1;
    EraOfYear(era, yoe, m, d);
  }

  /** Every number is the day number of a valid date, the one the code computes. */
  lemma DaysOfCivil(days: int)
    ensures ValidDate(CivilFromDays(days)) && DaysFromCivil(CivilFromDays(days)) == days
  {
    var era, yoe, m, d := DayOfMarchDate(days);
    CivilOfMarchDate(era, yoe, m, d, days);
    MarchDateValid(era, yoe, m, d);
  }

  /** Day numbers count days: the next day of the calendar has the next number ... */
  lemma NumbersCountDays(date: Date)
    requires ValidDate(date)
    ensures ValidDate(NextDay(date)) && DaysFromCivil(NextDay(date)) == DaysFromCivil(date) + 1
  {
    InEra(date);
    var era, yoe := MarchYear(date) / 400, MarchYear(date) % 400;
    NextMarchDate(era, yoe, date.month, date.day);
  }

  /** The next day is in the same year, or the first day of the next one. */
  lemma NextInYear(era: int, yoe: int, m: int, d: int) returns (m': int, d': int)
    requires ValidMarchDate(yoe, m, d) && !(m == 2 && d == MonthLength(yoe + 1, 2))
    ensures ValidMarchDate(yoe, m', d') && NextDay(MarchDate(era, yoe, m, d)) == MarchDate(era, yoe, m', d')
    ensures DayOfYear(m', d') == DayOfYear(m, d) + 1
  {
    LeapRepeats(if m <= 2 then yoe + 1 else yoe, era);
    if d < MonthLength(if m <= 2 then yoe + 1 else yoe, m) { m', d' := m, d + 1; }
    else if m < 12 { m', d' := m + 1, 1; }
    else { m', d' := 1, 1; }
  }

  lemma NextYear(era: int, yoe: int) returns (era': int, yoe': int)
    requires 0 <= yoe < 400
    ensures NextDay(MarchDate(era, yoe, 2, MonthLength(yoe + 1, 2))) == MarchDate(era', yoe', 3, 1) && 0 <= yoe' < 400
    ensures era' * 146097 + DayOfEra(yoe', DayOfYear(3, 1)) ==
            era * 146097 + DayOfEra(yoe, DayOfYear(2, MonthLength(yoe + 1, 2))) + 1
  {
    LeapRepeats(yoe + 1, era);
    YearEnds(yoe);
    if yoe < 399 { era', yoe' := era, yoe + 1; } else { era', yoe' := era + 1, 0; }
  }

  lemma NextMarchDate(era: int, yoe: int, m: int, d: int)
    requires ValidMarchDate(yoe, m, d)
    ensures var date := MarchDate(era, yoe, m, d);
            ValidDate(NextDay(date)) && DaysFromCivil(NextDay(date)) == DaysFromCivil(date) + 1
  {
    EraOfYear(era, yoe, m, d);
    if m == 2 && d == MonthLength(yoe + 1, 2) {
      var era', yoe' := NextYear(era, yoe);
      EraOfYear(era', yoe', 3, 1);
      MarchDateValid(era', yoe', 3, 1);
    } else {
      var m', d' := NextInYear(era, yoe, m, d);
      EraOfYear(era, yoe, m', d');
      MarchDateValid(era, yoe, m', d');
    }
  }

  /** ... starting at 1 January 1970. */
  lemma NumbersStartAtEpoch()
    ensures DaysFromCivil(Date(1970, 1, 1)) == 0
  {}

  // ---- instants ----------------------------------------------------------------------------------

  const DAY: int := 86400000000

  datatype Instant = Instant(date: Date, hour: int, minute: int, second: int, micros: int)

  predicate ValidInstant(i: Instant) {
    && ValidDate(i.date) && 0 <= i.hour < 24 && 0 <= i.minute < 60 && 0 <= i.second < 60
    && 0 <= i.micros < 1000000
  }

  /** What parse_timestamp makes of the parts: microseconds since the epoch. */
  function Recombined(i: Instant): int {
    DaysFromCivil(i.date) * DAY + (i.hour * 3600 + i.minute * 60 + i.second) * 1000000 + i.micros
  }

  /** format_timestamp: the parts are valid and recombine to the instant, before the epoch too. */
  method SplitInstant(micros: int) returns (i: Instant)
    ensures ValidInstant(i) && Recombined(i) == micros
  {
    var days := Quot(micros, DAY);
    var rest := micros - days * DAY;
    if rest < 0 {
      rest := rest + DAY;
      days := days - 1;
    }
    assert 0 <= rest < DAY && days * DAY + rest == micros;
    DaysOfCivil(days);
    i := TimeOfDay(CivilFromDays(days), rest);
  }

  method TimeOfDay(date: Date, rest: int) returns (i: Instant)
    requires 0 <= rest < DAY && ValidDate(date)
    ensures ValidInstant(i) && i.date == date
    ensures (i.hour * 3600 + i.minute * 60 + i.second) * 1000000 + i.micros == rest
  {
    var secs := rest / 1000000;
    i := Instant(date, secs / 3600, secs / 60 % 60, secs % 60, rest % 1000000);
  }

  /** No two valid instants recombine to the same number, so splitting also undoes recombining. */
  lemma InstantsAreUnique(a: Instant, b: Instant)
    requires ValidInstant(a) && ValidInstant(b) && Recombined(a) == Recombined(b)
    ensures a == b
  {
    var x := (a.hour * 3600 + a.minute * 60 + a.second) * 1000000 + a.micros;
    var y := (b.hour * 3600 + b.minute * 60 + b.second) * 1000000 + b.micros;
    SameDay(DaysFromCivil(a.date), DaysFromCivil(b.date), x, y);
    CivilOfDays(a.date);
    CivilOfDays(b.date);
  }

  lemma SameDay(m: int, n: int, x: int, y: int)
    requires m * DAY + x == n * DAY + y && 0 <= x < DAY && 0 <= y < DAY
    ensures m == n && x == y
  {}

  // ---- fractions of a second ---------------------------------------------------------------------

  /** The digits before the first other character; zeros after them. */
  function DigitAt(text: string, k: nat): (d: int)
    ensures 0 <= d < 10
  {
    if k < |text| && forall j | 0 <= j <= k :: IsDigit(text[j]) then text[k] as int - '0' as int else 0
  }

  /** The first n digits as a number. */
  function FirstDigits(text: string, n: nat): int {
    if n == 0 then 0 else FirstDigits(text, n - 1) * 10 + DigitAt(text, n - 1)
  }

  /** Up to six digits count; missing ones are zeros. */
  method FractionMicros(text: string) returns (micros: int)
    ensures micros == FirstDigits(text, 6)
  {
    micros := 0;
    var digits := 0;
    var i := 0;
    while i < |text| && IsDigit(text[i])
      invariant 0 <= i <= |text| && forall j | 0 <= j < i :: IsDigit(text[j])
      invariant digits == if i < 6 then i else 6
      invariant micros == FirstDigits(text, digits)
    {
      if digits < 6 {
        micros := micros * 10 + (text[i] as int - '0' as int);
        digits := digits + 1;
      }
      i := i + 1;
    }
    while digits < 6
      invariant digits <= 6 && (digits < 6 ==> i <= digits) && micros == FirstDigits(text, digits)
      invariant 0 <= digits && (i == |text| || !IsDigit(text[i]))
    {
      assert DigitAt(text, digits) == 0;
      micros := micros * 10;
      digits := digits + 1;
    }
  }

  /** A fraction of n digits is their value in units of 10^-n seconds; digits after the sixth do
      not count. */
  lemma FractionScale(text: string, n: nat)
    requires n <= |text| && Digits(text[..n]) && (n < |text| ==> !IsDigit(text[n]))
    ensures n <= 6 ==> FirstDigits(text, 6) == Value(text[..n]) * Pow10(6 - n)
    ensures n > 6 ==> Digits(text[..6]) && FirstDigits(text, 6) == Value(text[..6])
  {
    forall j | 0 <= j < n ensures IsDigit(text[j]) { assert text[..n][j] == text[j]; }
    FirstDigitsValue(text, if n < 6 then n else 6);
    if n < 6 { ZerosAfter(text, n, 6); }
  }

  lemma {:induction false} FirstDigitsValue(text: string, n: nat)
    requires n <= |text| && forall j | 0 <= j < n :: IsDigit(text[j])
    ensures Digits(text[..n]) && FirstDigits(text, n) == Value(text[..n])
    decreases n
  {
    if n > 0 {
      FirstDigitsValue(text, n - 1);
      assert text[..n][..n - 1] == text[..n - 1];
    }
  }

  lemma {:induction false} ZerosAfter(text: string, n: nat, m: nat)
    requires n <= |text| && (n < |text| ==> !IsDigit(text[n])) && n <= m
    ensures FirstDigits(text, m) == FirstDigits(text, n) * Pow10(m - n)
    decreases m
  {
    if n < m {
      ZerosAfter(text, n, m - 1);
      assert DigitAt(text, m - 1) == 0;
      Tenfold(FirstDigits(text, n), Pow10(m - 1 - n));
    }
  }

  /** A printed fraction is read back. */
  lemma {:induction false} FractionRoundTrip(x: nat, n: nat, text: string)
    requires x < Pow10(n) && Pad(x, n) <= text
    ensures FirstDigits(text, n) == x
    decreases n
  {
    if n > 0 {
      FractionRoundTrip(x / 10, n - 1, text);
      assert text[n - 1] == Pad(x, n)[n - 1];
      assert forall j | 0 <= j < n :: text[j] == Pad(x, n)[j];
    }
  }
}
