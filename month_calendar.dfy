/**
  The calendar logic of components/MonthCalendar.tsx: the date helpers, the 6 × 7 month
  grid, the grouping of a month's events by day, the per-day dot cap, the reload retry
  counter and the title guard of the add-event form. A JavaScript `Date` is its local
  year, month (0 = January) and day of month; days in a month and the day of the week
  are computed from the proleptic Gregorian calendar.
 */
module MonthCalendar {
  import opened Wrappers
  import opened Text
  import opened Db

  /** What `getFullYear()`, `getMonth()` and `getDate()` return. */
  datatype Date = Date(year: int, month: int, day: int)

  predicate IsLeap(y: int) {
    y % 4 == 0 && (y % 100 != 0 || y % 400 == 0)
  }

  /** `new Date(y, m + 1, 0).getDate()`: the last day of month `m`. */
  function DaysInMonth(y: int, m: int): (n: int)
    requires 0 <= m < 12
    ensures 28 <= n <= 31
    ensures n == 29 <==> m == 1 && IsLeap(y)
  {
    if m == 1 then (if IsLeap(y) then 29 else 28)
    else if m == 3 || m == 5 || m == 8 || m == 10 then 30
    else 31
  }

  /** The day count of the first of the next month, as `new Date(y, m + 1, 1)` rolls
      December over into January of the next year. */
  function NextMonthStart(y: int, m: int): int
    requires 0 <= m < 12
  {
    if m < 11 then DaysFromCivil(y, m + 2, 1) else DaysFromCivil(y + 1, 1, 1)
  }

  /** The month lengths are the calendar's: the first of the next month lies exactly
      `DaysInMonth(y, m)` days after the first of month `m`, which is what
      `new Date(y, m + 1, 0).getDate()` reads off. */
  lemma DaysInMonthByCivil(y: int, m: int)
    requires 0 <= m < 12
    ensures NextMonthStart(y, m) - DaysFromCivil(y, m + 1, 1) == DaysInMonth(y, m)
  {
    if m == 1 {
      MarchYearLength(y);
    }
  }

  /** Days from 1 March of year 0 to 1 March of year `z`, by 400-year eras. */
  function MarchStart(z: int): int {
    (z / 400) * 146097 + (z % 400) * 365 + (z % 400) / 4 - (z % 400) / 100
  }

  /** The year from 1 March of `y - 1` to 1 March of `y` has 366 days exactly when `y` is
      a leap year. */
  lemma MarchYearLength(y: int)
    ensures DaysFromCivil(y, 3, 1) - DaysFromCivil(y, 2, 1) == if IsLeap(y) then 29 else 28
  {
    assert DaysFromCivil(y, 3, 1) == MarchStart(y) - 719468;
    assert DaysFromCivil(y, 2, 1) == MarchStart(y - 1) + 337 - 719468;
    MarchStartStep(y);
  }

  lemma MarchStartStep(y: int)
    ensures MarchStart(y) - MarchStart(y - 1) == if IsLeap(y) then 366 else 365
  {
    var q, r := (y - 1) / 400, (y - 1) % 400;
    if r == 399 {
      EraEnd(y, q);
    } else {
      WithinEra(y, q, r);
    }
  }

  /** Year `y` starts a new 400-year era, and is a leap year. */
  lemma EraEnd(y: int, q: int)
    requires y - 1 == q * 400 + 399
    ensures MarchStart(y) - MarchStart(y - 1) == 366 && IsLeap(y)
  {
    DivModOf(y - 1, q, 399);
    DivModOf(y, q + 1, 0);
    QuarterOfEra(y);
  }

  /** Years `y - 1` and `y` lie in one 400-year era. */
  lemma WithinEra(y: int, q: int, r: int)
    requires y - 1 == q * 400 + r && 0 <= r < 399
    ensures MarchStart(y) - MarchStart(y - 1) == if IsLeap(y) then 366 else 365
  {
    DivModOf(y - 1, q, r);
    DivModOf(y, q, r + 1);
    LeapByRemainder(y, r + 1);
  }

  /** Euclidean division by 400 of a number written as `q * 400 + k`. */
  lemma DivModOf(y: int, q: int, k: int)
    requires 0 <= k < 400 && y == q * 400 + k
    ensures y / 400 == q && y % 400 == k
  {
  }

  /** Leap years are decided by the year's remainder modulo 400. */
  lemma LeapByRemainder(y: int, k: int)
    requires 0 < k < 400 && y % 400 == k
    ensures IsLeap(y) <==> k % 4 == 0 && k % 100 != 0
    ensures k / 4 - (k - 1) / 4 == if k % 4 == 0 then 1 else 0
    ensures k / 100 - (k - 1) / 100 == if k % 100 == 0 then 1 else 0
  {
    QuarterOfEra(y);
    CenturyOfEra(y);
    StepQuarter(k);
    StepCentury(k);
  }

  /** A year's remainder modulo 4 is that of its remainder modulo 400. */
  lemma QuarterOfEra(y: int)
    ensures y % 4 == (y % 400) % 4
  {
    var a, k := y / 400, y % 400;
    var b, r := k / 4, k % 4;
    assert y == 4 * (100 * a + b) + r;
    DivModQuarter(y, 100 * a + b, r);
  }

  /** A year's remainder modulo 100 is that of its remainder modulo 400. */
  lemma CenturyOfEra(y: int)
    ensures y % 100 == (y % 400) % 100
  {
    var a, k := y / 400, y % 400;
    var b, r := k / 100, k % 100;
    assert y == 100 * (4 * a + b) + r;
    DivModCentury(y, 4 * a + b, r);
  }

  lemma DivModQuarter(y: int, q: int, k: int)
    requires 0 <= k < 4 && y == q * 4 + k
    ensures y / 4 == q && y % 4 == k
  {
  }

  lemma DivModCentury(y: int, q: int, k: int)
    requires 0 <= k < 100 && y == q * 100 + k
    ensures y / 100 == q && y % 100 == k
  {
  }

  /** Going from `k - 1` to `k` raises the quotient by 4 exactly at a multiple of 4. */
  lemma StepQuarter(k: int)
    ensures k / 4 - (k - 1) / 4 == if k % 4 == 0 then 1 else 0
  {
    var q, r := (k - 1) / 4, (k - 1) % 4;
    if r == 3 {
      assert k == (q + 1) * 4;
    } else {
      assert k == q * 4 + (r + 1);
    }
  }

  /** Going from `k - 1` to `k` raises the quotient by 100 exactly at a multiple of 100. */
  lemma StepCentury(k: int)
    ensures k / 100 - (k - 1) / 100 == if k % 100 == 0 then 1 else 0
  {
    var q, r := (k - 1) / 100, (k - 1) % 100;
    if r == 99 {
      assert k == (q + 1) * 100;
    } else {
      assert k == q * 100 + (r + 1);
    }
  }

  /** A date a `Date` object can report. */
  predicate ValidDate(d: Date) {
    0 <= d.month < 12 && 1 <= d.day <= DaysInMonth(d.year, d.month)
  }

  /** Days from 1970-01-01 to the date (negative before it), month 1-based. */
  function DaysFromCivil(y: int, m: int, d: int): int
    requires 1 <= m <= 12
  {
    var y' := if m <= 2 then y - 1 else y;
    var era := y' / 400;
    var yoe := y' - era * 400;
    var mp := if m > 2 then m - 3 else m + 9;
    var doy := (153 * mp + 2) / 5 + d - 1;
    var doe := yoe * 365 + yoe / 4 - yoe / 100 + doy;
    era * 146097 + doe - 719468
  }

  /** `getDay()`: 0 for Sunday up to 6 for Saturday; 1 January 1970 was a Thursday. */
  function Weekday(y: int, m: int, d: int): (w: int)
    requires 0 <= m < 12
    ensures 0 <= w < 7
  {
    (DaysFromCivil(y, m + 1, d) + 4) % 7
  }

  /** 1 January 2025 was a Wednesday. */
  lemma WeekdayAnchor()
    ensures DaysFromCivil(2025, 1, 1) == 20089
    ensures Weekday(2025, 0, 1) == 3
  {
  }

  /** Within a month each day is one weekday after the one before. */
  lemma WeekdayOfDay(y: int, m: int, d: int)
    requires 0 <= m < 12
    ensures Weekday(y, m, d) == (Weekday(y, m, 1) + d - 1) % 7
  {
    var n := DaysFromCivil(y, m + 1, 1);
    assert DaysFromCivil(y, m + 1, d) == n + d - 1;
    ModShift(n + 4, d - 1);
  }

  lemma ModShift(a: int, b: int)
    ensures (a + b) % 7 == (a % 7 + b) % 7
  {
    var q := a / 7;
    assert a == 7 * q + a % 7;
    assert a + b == 7 * q + (a % 7 + b);
  }

  /* ---------------- isoDate ---------------- */

  /** `isoDate(d)`: `${y}-${mm}-${dd}` with month and day padded to two digits. */
  function IsoDate(d: Date): string
    requires ValidDate(d)
  {
    IntToString(d.year) + "-" + Pad2(d.month + 1) + "-" + Pad2(d.day)
  }

  /** The date a `YYYY-MM-DD` string names. */
  function ParseIso(s: string): Date
    requires IsDateShape(s)
  {
    Date(ParseNat(s[..4]), ParseNat(s[5..7]) - 1, ParseNat(s[8..]))
  }

  /** For four-digit years `isoDate` produces the `YYYY-MM-DD` shape the routes accept,
      and the string reads back as the date. */
  lemma IsoDateRoundTrip(d: Date)
    requires ValidDate(d) && 1000 <= d.year <= 9999
    ensures IsDateShape(IsoDate(d))
    ensures ParseIso(IsoDate(d)) == d
  {
    var y, mm, dd := NatToString(d.year), Pad2(d.month + 1), Pad2(d.day);
    FourDigits(d.year);
    Pad2TwoDigits(d.month + 1);
    Pad2TwoDigits(d.day);
    ParseNatToString(d.year);
    assert IsoDate(d) == y + "-" + mm + "-" + dd;
    DashedParts(y, mm, dd);
  }

  lemma {:induction false} DashedParts(y: string, mm: string, dd: string)
    requires |y| == 4 && |mm| == 2 && |dd| == 2 && AllDigits(y) && AllDigits(mm) && AllDigits(dd)
    ensures var s := y + "-" + mm + "-" + dd;
            IsDateShape(s) && s[..4] == y && s[5..7] == mm && s[8..] == dd
  {
    var s := y + "-" + mm + "-" + dd;
    assert s[..4] == y;
    assert s[5..7] == mm;
    assert s[8..] == dd;
  }

  /* ---------------- formatDateCH ---------------- */

  /** `formatDateCH(d)`: `${d}.${m}.${yyyy}` without padding. Only the signs of day and
      month matter here, so any date with non-negative fields is accepted. */
  function FormatDateCH(d: Date): string
    requires 0 <= d.month && 0 <= d.day
  {
    NatToString(d.day) + "." + NatToString(d.month + 1) + "." + IntToString(d.year)
  }

  /** Index of the first `.` at or after `i`, or the length when there is none. */
  function DotFrom(s: string, i: nat): (k: nat)
    requires i <= |s|
    ensures i <= k <= |s|
    ensures k < |s| ==> s[k] == '.'
    decreases |s| - i
  {
    if i == |s| || s[i] == '.' then i else DotFrom(s, i + 1)
  }

  function DotAt(s: string): nat {
    DotFrom(s, 0)
  }

  lemma {:induction false} DotFromDigits(s: string, i: nat, n: nat)
    requires i <= n < |s| && s[n] == '.'
    requires forall k :: i <= k < n ==> IsDigit(s[k])
    ensures DotFrom(s, i) == n
    decreases n - i
  {
    if i < n {
      assert IsDigit(s[i]);
      DotFromDigits(s, i + 1, n);
    }
  }

  lemma DotAfterDigits(a: string, b: string)
    requires AllDigits(a)
    ensures DotAt(a + "." + b) == |a|
    ensures (a + "." + b)[..|a|] == a && (a + "." + b)[|a| + 1..] == b
  {
    var s := a + "." + b;
    assert forall k :: 0 <= k < |a| ==> s[k] == a[k];
    DotFromDigits(s, 0, |a|);
  }

  /** Reads `d.m.y` back, if it has that form. */
  function ParseCH(s: string): Option<Date> {
    var i := DotAt(s);
    if i == |s| then None
    else
      var rest := s[i + 1..];
      var j := DotAt(rest);
      if j == |rest| then None
      else if AllDigits(s[..i]) && AllDigits(rest[..j]) && AllDigits(rest[j + 1..]) then
        Some(Date(ParseNat(rest[j + 1..]), ParseNat(rest[..j]) - 1, ParseNat(s[..i])))
      else None
  }

  /** The Swiss form reads back as the date, for years from 0 on (every valid date of
      such a year included). */
  lemma FormatDateCHRoundTrip(d: Date)
    requires 0 <= d.month && 0 <= d.day && d.year >= 0
    ensures ParseCH(FormatDateCH(d)) == Some(d)
  {
    assert IntToString(d.year) == NatToString(d.year);
    ParseCHOfNats(d.day, d.month + 1, d.year);
  }

  lemma {:induction false} ParseCHOfNats(day: nat, month: nat, year: nat)
    ensures ParseCH(NatToString(day) + "." + NatToString(month) + "." + NatToString(year))
            == Some(Date(year, month - 1, day))
  {
    ParseNatToString(day);
    ParseNatToString(month);
    ParseNatToString(year);
    ParseCHParts(NatToString(day), NatToString(month), NatToString(year));
  }

  lemma {:induction false} ParseCHParts(a: string, b: string, c: string)
    requires AllDigits(a) && AllDigits(b) && AllDigits(c)
    ensures ParseCH(a + "." + b + "." + c) == Some(Date(ParseNat(c), ParseNat(b) - 1, ParseNat(a)))
  {
    DotsRegroup(a, b, c);
    ParseCHSplit(a, b, c);
  }

  lemma {:induction false} DotsRegroup(a: string, b: string, c: string)
    ensures a + "." + b + "." + c == a + "." + (b + "." + c)
  {
  }

  lemma {:induction false} ParseCHSplit(a: string, b: string, c: string)
    requires AllDigits(a) && AllDigits(b) && AllDigits(c)
    ensures ParseCH(a + "." + (b + "." + c)) == Some(Date(ParseNat(c), ParseNat(b) - 1, ParseNat(a)))
  {
    DotAfterDigits(a, b + "." + c);
    DotAfterDigits(b, c);
  }

  /** Day and month are not padded. */
  lemma FormatDateCHUnpadded()
    ensures FormatDateCH(Date(2025, 2, 7)) == "7.3.2025"
  {
    assert NatToString(2025) == "2025" by {
      assert NatToString(2) == "2";
      assert NatToString(20) == "20";
      assert NatToString(202) == "202";
    }
  }

  /* ---------------- addMonth ---------------- */

  /** Months since January of year 0. */
  function MonthIndex(d: Date): int {
    12 * d.year + d.month
  }

  /** `addMonth(d, delta)`: `new Date(y, m + delta, 1)`, whose month overflow carries into
      the year. */
  function AddMonth(d: Date, delta: int): (r: Date)
    ensures ValidDate(r) && r.day == 1
    ensures MonthIndex(r) == MonthIndex(d) + delta
  {
    Date(d.year + (d.month + delta) / 12, (d.month + delta) % 12, 1)
  }

  /** Two first days of a month with the same month index are the same date. */
  lemma MonthIndexInjective(a: Date, b: Date)
    requires 0 <= a.month < 12 && 0 <= b.month < 12 && a.day == b.day
    requires MonthIndex(a) == MonthIndex(b)
    ensures a == b
  {
  }

  /** Moving by `a` months and then by `b` is moving by `a + b`; moving by 0 goes to the
      first of the same month. */
  lemma AddMonthCompose(d: Date, a: int, b: int)
    requires ValidDate(d)
    ensures AddMonth(AddMonth(d, a), b) == AddMonth(d, a + b)
    ensures AddMonth(d, 0) == d.(day := 1)
  {
    MonthIndexInjective(AddMonth(AddMonth(d, a), b), AddMonth(d, a + b));
    MonthIndexInjective(AddMonth(d, 0), d.(day := 1));
  }

  /** December plus one is January of the next year, and January minus one is December of
      the previous year. */
  lemma AddMonthRollsOver(y: int)
    ensures AddMonth(Date(y, 11, 15), 1) == Date(y + 1, 0, 1)
    ensures AddMonth(Date(y, 0, 15), -1) == Date(y - 1, 11, 1)
  {
  }

  /* ---------------- monthMatrix ---------------- */

  /** `(start.getDay() + 6) % 7`: the column of the first, Monday being column 0. */
  function Lead(y: int, m: int): (k: int)
    requires 0 <= m < 12
    ensures 0 <= k < 7
  {
    (Weekday(y, m, 1) + 6) % 7
  }

  /** Cell `k` (row-major) of the month grid: `lead` blanks, the days in order, blanks. */
  function GridCell(y: int, m: int, k: int): Option<Date>
    requires 0 <= m < 12
  {
    var lead := Lead(y, m);
    if lead <= k < lead + DaysInMonth(y, m) then Some(Date(y, m, k - lead + 1)) else None
  }

  /** Every day of the month appears once, in the column of its own weekday. */
  lemma GridPlacesDays(y: int, m: int, day: int)
    requires 0 <= m < 12 && 1 <= day <= DaysInMonth(y, m)
    ensures GridCell(y, m, Lead(y, m) + day - 1) == Some(Date(y, m, day))
    ensures (Lead(y, m) + day - 1) % 7 == (Weekday(y, m, day) + 6) % 7
    ensures forall k :: 0 <= k < 42 && GridCell(y, m, k) == Some(Date(y, m, day)) ==> k == Lead(y, m) + day - 1
  {
    WeekdayOfDay(y, m, day);
    var w := Weekday(y, m, 1);
    ModShift(w + 6, day - 1);
    ModShift(w + day - 1, 6);
  }

  /** `monthMatrix(current)`: push the leading blanks, the days, blanks to the end of the
      week and blanks up to 42 cells, then cut the cells into six weeks of seven. */
  method MonthMatrix(current: Date) returns (weeks: seq<seq<Option<Date>>>)
    requires ValidDate(current)
    ensures |weeks| == 6
    ensures forall i :: 0 <= i < 6 ==> |weeks[i]| == 7
    ensures forall i, j :: 0 <= i < 6 && 0 <= j < 7 ==> weeks[i][j] == GridCell(current.year, current.month, 7 * i + j)
  {
    var y, m := current.year, current.month;
    var daysInMonth := DaysInMonth(y, m);
    var startDow := (Weekday(y, m, 1) + 6) % 7;
    var cells: seq<Option<Date>> := [];
    var i := 0;
    while i < startDow
      invariant 0 <= i <= startDow && |cells| == i
      invariant forall k :: 0 <= k < |cells| ==> cells[k] == GridCell(y, m, k)
    {
      cells := cells + [None];
      i := i + 1;
    }
    var d := 1;
    while d <= daysInMonth
      invariant 1 <= d <= daysInMonth + 1 && |cells| == startDow + d - 1
      invariant forall k :: 0 <= k < |cells| ==> cells[k] == GridCell(y, m, k)
    {
      cells := cells + [Some(Date(y, m, d))];
      d := d + 1;
    }
    while |cells| % 7 != 0
      invariant startDow + daysInMonth <= |cells| <= 42
      invariant forall k :: 0 <= k < |cells| ==> cells[k] == GridCell(y, m, k)
      decreases 42 - |cells|
    {
      cells := cells + [None];
    }
    while |cells| < 42
      invariant startDow + daysInMonth <= |cells| <= 42
      invariant forall k :: 0 <= k < |cells| ==> cells[k] == GridCell(y, m, k)
      decreases 42 - |cells|
    {
      cells := cells + [None];
    }
    weeks := [];
    var w := 0;
    while w < 6
      invariant 0 <= w <= 6 && |weeks| == w
      invariant forall i :: 0 <= i < w ==> |weeks[i]| == 7
      invariant forall i, j :: 0 <= i < w && 0 <= j < 7 ==> weeks[i][j] == GridCell(y, m, 7 * i + j)
    {
      weeks := weeks + [cells[w * 7..w * 7 + 7]];
      w := w + 1;
    }
  }

  /* ---------------- mapped ---------------- */

  /** The events of one date, in input order. */
  function OnDate(events: seq<DBEvent>, d: string): seq<DBEvent> {
    if events == [] then []
    else OnDate(events[..|events| - 1], d)
         + (if events[|events| - 1].date == d then [events[|events| - 1]] else [])
  }

  /** A bucket holds each event of its date as often as the input does, and nothing else. */
  lemma {:induction false} OnDateCounts(events: seq<DBEvent>, d: string, e: DBEvent)
    ensures multiset(OnDate(events, d))[e] == if e.date == d then multiset(events)[e] else 0
  {
    if events != [] {
      var init := events[..|events| - 1];
      OnDateCounts(init, d, e);
      assert events == init + [events[|events| - 1]];
    }
  }

  /** So each event lands in exactly one bucket, the one of its own date. */
  lemma OneBucketPerEvent(events: seq<DBEvent>, e: DBEvent, d: string)
    requires e in events
    ensures e in OnDate(events, e.date)
    ensures e in OnDate(events, d) ==> d == e.date
  {
    OnDateCounts(events, e.date, e);
    OnDateCounts(events, d, e);
  }

  /** `mapped`: `for (const ev of events) (m[ev.date] ||= []).push(ev)`. */
  method Group(events: seq<DBEvent>) returns (m: map<string, seq<DBEvent>>)
    ensures forall d :: d in m <==> OnDate(events, d) != []
    ensures forall d :: d in m ==> m[d] == OnDate(events, d)
  {
    m := map[];
    var i := 0;
    while i < |events|
      invariant 0 <= i <= |events|
      invariant forall d :: d in m <==> OnDate(events[..i], d) != []
      invariant forall d :: d in m ==> m[d] == OnDate(events[..i], d)
    {
      var ev := events[i];
      assert events[..i + 1][..i] == events[..i];
      if ev.date in m {
        m := m[ev.date := m[ev.date] + [ev]];
      } else {
        m := m[ev.date := [ev]];
      }
      i := i + 1;
    }
    assert events[..i] == events;
  }

  /* ---------------- the dots of a day ---------------- */

  const MaxDots: nat := 8

  /** `dayEvents.slice(0, MAX_DOTS)`, each shown in its type's colour. */
  function Dots(dayEvents: seq<DBEvent>): (r: seq<string>)
    ensures |r| <= MaxDots && (|r| == MaxDots || |r| == |dayEvents|) && |r| <= |dayEvents|
    ensures forall k :: 0 <= k < |r| ==> r[k] == Color(dayEvents[k].kind)
  {
    var n := if |dayEvents| < MaxDots then |dayEvents| else MaxDots;
    seq(n, k requires 0 <= k < n => Color(dayEvents[k].kind))
  }

  /** The `+N` badge: shown only above the cap, counting the events without a dot. */
  function Badge(count: nat): Option<nat> {
    if count > MaxDots then Some(count - MaxDots) else None
  }

  /** Dots and badge together account for every event of the day, and a badge never
      says `+0`. */
  lemma DotsAndBadgeCount(dayEvents: seq<DBEvent>)
    ensures |Dots(dayEvents)| + Badge(|dayEvents|).GetOr(0) == |dayEvents|
    ensures Badge(|dayEvents|) != Some(0)
  {
  }

  /* ---------------- loadWithRetry ---------------- */

  /** One call of `load()` by `loadWithRetry`, with the `tries` it was made under. */
  datatype Attempt = Attempt(tries: nat, threw: bool)

  /** The loads `loadWithRetry(tries)` makes: one now and, while `tries > 0`, those of
      `loadWithRetry(tries - 1)` later. The call with `tries = t` throws when `t` is in
      `throws`; the `catch {}` discards that. */
  function LoadWithRetry(tries: nat, throws: set<nat>): (log: seq<Attempt>)
    ensures |log| == tries + 1
    ensures forall k :: 0 <= k < |log| ==> log[k] == Attempt(tries - k, tries - k in throws)
    decreases tries
  {
    [Attempt(tries, tries in throws)] + (if tries > 0 then LoadWithRetry(tries - 1, throws) else [])
  }

  /** The default `loadWithRetry()` loads three times however many of them fail. */
  lemma DefaultRetryLoadsThrice(throws: set<nat>)
    ensures |LoadWithRetry(2, throws)| == 3
    ensures |LoadWithRetry(2, throws)| == |LoadWithRetry(2, {})|
  {
  }

  /* ---------------- AddEventForm.save ---------------- */

  /** `save`: no insert when the trimmed title is shorter than two UTF-16 code units; otherwise
      `db.insert` with the title as typed, untrimmed. */
  method Save(store: LocalStore, title: string, date: string, kind: EventType, desc: string,
              id: string, now: string)
    returns (inserted: bool)
    modifies store
    ensures inserted <==> Utf16Length(Trim(title)) >= 2
    ensures !inserted ==> store.stored == old(store.stored)
    ensures inserted ==> store.stored == Events(LsRead(old(store.stored)) + [DBEvent(id, title, date, kind, Some(desc), now)])
  {
    if Utf16Length(Trim(title)) < 2 {
      return false;
    }
    var _ := store.Insert(Draft(title, date, kind, Some(desc)), id, now);
    inserted := true;
  }

  /** A title of one character between spaces is refused by the form. */
  lemma PaddedShortTitleRefused()
    ensures Utf16Length(Trim(" A ")) < 2
  {
    TrimPadded("A");
    TrimNoop("A");
  }
}
