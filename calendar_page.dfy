/** The logic of the calendar page: the 42-cell month grid that starts on a
    Monday, the `YYYY-MM-DD` day keys, the grouping of resources by day, and
    the summary a day cell shows. Month numbers count from 0, as in
    JavaScript dates. */
module CalendarPage {

  import opened Wrappers
  import opened Text
  import opened Seqs
  import opened ClientModel

  // ------------------------------------------------------------ the grid

  /** A grid cell: `monthOffset` is -1, 0 or 1 for the previous, shown and
      next month, and `day` is the day number the cell's date is built from. */
  datatype Cell = Cell(monthOffset: int, day: int, isCurrentMonth: bool)

  const GridSize := 42

  /** How many cells of the previous month precede day 1 in a week that
      starts on Monday, for `getDay()` of the first (0 is Sunday). */
  function LeadingCount(firstWeekday: int): (n: int)
    requires 0 <= firstWeekday <= 6
    ensures 0 <= n <= 6
    ensures firstWeekday == 0 ==> n == 6
    ensures firstWeekday > 0 ==> n == firstWeekday - 1
  {
    if firstWeekday == 0 then 6 else firstWeekday - 1
  }

  /** `getDaysInMonth`, with the weekday of the first, the month's length and
      the number it takes as the previous month's length as inputs: first the
      previous month's last days, then the month, then the next month's first
      days up to 42 cells. */
  method GetDaysInMonth(firstWeekday: int, daysInMonth: int, daysInPrevMonth: int) returns (days: seq<Cell>)
    requires 0 <= firstWeekday <= 6
    ensures var lead := LeadingCount(firstWeekday);
      var used := lead + (if daysInMonth > 0 then daysInMonth else 0);
      && |days| == (if used <= GridSize then GridSize else used)
      && (forall i :: 0 <= i < lead ==> days[i] == Cell(-1, daysInPrevMonth - lead + 1 + i, false))
      && (forall i :: lead <= i < used ==> days[i] == Cell(0, i - lead + 1, true))
      && (forall i :: used <= i < |days| ==> days[i] == Cell(1, i - used + 1, false))
  {
    var lead := LeadingCount(firstWeekday);
    days := [];
    var i := lead - 1;
    while i >= 0
      invariant -1 <= i < lead
      invariant |days| == lead - 1 - i
      invariant forall k :: 0 <= k < |days| ==> days[k] == Cell(-1, daysInPrevMonth - lead + 1 + k, false)
    {
      days := days + [Cell(-1, daysInPrevMonth - i, false)];
      i := i - 1;
    }
    var day := 1;
    while day <= daysInMonth
      invariant if daysInMonth > 0 then 1 <= day <= daysInMonth + 1 else day == 1
      invariant |days| == lead + day - 1
      invariant forall k :: 0 <= k < lead ==> days[k] == Cell(-1, daysInPrevMonth - lead + 1 + k, false)
      invariant forall k :: lead <= k < |days| ==> days[k] == Cell(0, k - lead + 1, true)
    {
      days := days + [Cell(0, day, true)];
      day := day + 1;
    }
    var used := |days|;
    var remaining := GridSize - used;
    day := 1;
    while day <= remaining
      invariant if remaining > 0 then 1 <= day <= remaining + 1 else day == 1
      invariant |days| == used + day - 1
      invariant forall k :: 0 <= k < lead ==> days[k] == Cell(-1, daysInPrevMonth - lead + 1 + k, false)
      invariant forall k :: lead <= k < used ==> days[k] == Cell(0, k - lead + 1, true)
      invariant forall k :: used <= k < |days| ==> days[k] == Cell(1, k - used + 1, false)
    {
      days := days + [Cell(1, day, false)];
      day := day + 1;
    }
  }

  /** The cells flagged as the current month are exactly the month's days,
      in order, whenever the month fits in the grid. */
  lemma CurrentMonthCells(days: seq<Cell>, firstWeekday: int, daysInMonth: int, daysInPrevMonth: int, i: int)
    requires 0 <= firstWeekday <= 6 && 0 <= daysInMonth
    requires var lead := LeadingCount(firstWeekday);
      && |days| == (if lead + daysInMonth <= GridSize then GridSize else lead + daysInMonth)
      && (forall k :: 0 <= k < lead ==> days[k] == Cell(-1, daysInPrevMonth - lead + 1 + k, false))
      && (forall k :: lead <= k < lead + daysInMonth ==> days[k] == Cell(0, k - lead + 1, true))
      && (forall k :: lead + daysInMonth <= k < |days| ==> days[k] == Cell(1, k - lead - daysInMonth + 1, false))
    requires 0 <= i < |days|
    ensures days[i].isCurrentMonth <==> LeadingCount(firstWeekday) <= i < LeadingCount(firstWeekday) + daysInMonth
    ensures days[i].isCurrentMonth ==> 1 <= days[i].day <= daysInMonth
  {
  }

  // ---------------------------------------------------- calendar arithmetic

  predicate IsLeapYear(y: int)
  {
    y % 4 == 0 && (y % 100 != 0 || y % 400 == 0)
  }

  /** The length of month `m` of year `y`; months outside 0..11 roll over
      into neighbouring years, as the `Date` constructor does. */
  function DaysIn(y: int, m: int): (n: int)
    ensures 28 <= n <= 31
  {
    var year := y + m / 12;
    var month := m % 12;
    if month == 1 then (if IsLeapYear(year) then 29 else 28)
    else if month == 3 || month == 5 || month == 8 || month == 10 then 30
    else 31
  }

  /** `new Date(y, m, d).getDay()` for a date inside its month, by Sakamoto's
      method (0 is Sunday). */
  function Weekday(y: int, m: int, d: int): (w: int)
    requires 0 <= m <= 11
    ensures 0 <= w <= 6
  {
    var t := [0, 3, 2, 5, 0, 3, 5, 1, 4, 6, 2, 4];
    var year := if m < 2 then y - 1 else y;
    (year + year / 4 - year / 100 + year / 400 + t[m] + d) % 7
  }

  /** The date `new Date(y, m, d)` stands for, for a day from 1 to 28 past
      the end of month `m`: a day past the month's end rolls into the next
      month, and a month outside 0..11 into a neighbouring year. */
  function DateFrom(y: int, m: int, d: int): (r: Date)
    requires 1 <= d <= DaysIn(y, m) + 28
    ensures ValidDate(r) && r.day <= DaysIn(r.year, r.month)
    ensures d <= DaysIn(y, m) ==> r.day == d && r.year * 12 + r.month == y * 12 + m
    ensures d > DaysIn(y, m) ==> r.day == d - DaysIn(y, m) && r.year * 12 + r.month == y * 12 + m + 1
  {
    var n := if d <= DaysIn(y, m) then m else m + 1;
    var day := if d <= DaysIn(y, m) then d else d - DaysIn(y, m);
    assert DaysIn(y + n / 12, n % 12) == DaysIn(y, n);
    Date(y + n / 12, n % 12, day)
  }

  /** The month grid as the page builds it: `new Date(year, month - 1, 0)`
      is the last day of the month two before, so that month's length is
      what the leading cells count down from. */
  method GridAsWritten(year: int, month: int) returns (days: seq<Cell>)
    requires 0 <= month <= 11
    ensures var lead := LeadingCount(Weekday(year, month, 1));
      && |days| == GridSize
      && (forall i :: 0 <= i < lead ==> days[i] == Cell(-1, DaysIn(year, month - 2) - lead + 1 + i, false))
      && (forall i :: lead <= i < lead + DaysIn(year, month) ==> days[i] == Cell(0, i - lead + 1, true))
  {
    days := GetDaysInMonth(Weekday(year, month, 1), DaysIn(year, month), DaysIn(year, month - 2));
  }

  /** The grid with the previous month's length, `new Date(year, month, 0)`:
      the leading cells are the last days of the previous month, and the last
      of them is that month's last day, the day before the first. */
  method Grid(year: int, month: int) returns (days: seq<Cell>)
    requires 0 <= month <= 11
    ensures var lead := LeadingCount(Weekday(year, month, 1));
      && |days| == GridSize
      && (forall i :: 0 <= i < lead ==> days[i] == Cell(-1, DaysIn(year, month - 1) - lead + 1 + i, false))
      && (forall i :: 0 <= i < lead ==> days[i].monthOffset == -1 && 1 <= days[i].day <= DaysIn(year, month - 1))
      && (lead > 0 ==> days[lead - 1].day == DaysIn(year, month - 1))
      && (forall i :: 0 < i < lead ==> days[i].day == days[i - 1].day + 1)
      && (forall i :: lead <= i < lead + DaysIn(year, month) ==> days[i] == Cell(0, i - lead + 1, true))
  {
    days := GetDaysInMonth(Weekday(year, month, 1), DaysIn(year, month), DaysIn(year, month - 1));
  }

  /** June 2024 starts on a Saturday, so five May cells lead; the page counts
      them down from April's 30, giving May 26 to 30 before June 1: May 31,
      the day before June 1, never appears. */
  method GridAsWrittenSkipsMay31() returns (days: seq<Cell>)
    ensures |days| == GridSize
    ensures forall i :: 0 <= i < 5 ==> days[i] == Cell(-1, 26 + i, false)
    ensures days[5] == Cell(0, 1, true)
    ensures forall i :: 0 <= i < 5 ==> DateFrom(2024, 4, days[i].day) != Date(2024, 4, 31)
  {
    assert Weekday(2024, 5, 1) == 6 && DaysIn(2024, 3) == 30;
    days := GridAsWritten(2024, 5);
  }

  /** March 2024 starts on a Friday, so four February cells lead; the page
      counts them down from January's 31, giving February 28 to 31. February
      2024 has 29 days, so the cells for February 30 and 31 are the dates
      March 1 and 2, which the grid shows again right after. */
  method GridAsWrittenRepeatsMarch1And2() returns (days: seq<Cell>)
    ensures |days| == GridSize
    ensures days[2] == Cell(-1, 30, false) && days[3] == Cell(-1, 31, false)
    ensures days[4] == Cell(0, 1, true) && days[5] == Cell(0, 2, true)
    ensures DateFrom(2024, 1, days[2].day) == DateFrom(2024, 2, days[4].day) == Date(2024, 2, 1)
    ensures DateFrom(2024, 1, days[3].day) == DateFrom(2024, 2, days[5].day) == Date(2024, 2, 2)
  {
    assert Weekday(2024, 2, 1) == 5 && DaysIn(2024, 0) == 31 && DaysIn(2024, 1) == 29;
    days := GridAsWritten(2024, 2);
  }

  /** With the previous month's length, June 2024's leading cells end on
      May 31, the day before June 1. */
  method GridShowsMay31() returns (days: seq<Cell>)
    ensures |days| == GridSize
    ensures days[4] == Cell(-1, 31, false) && days[5] == Cell(0, 1, true)
    ensures DateFrom(2024, 4, days[4].day) == Date(2024, 4, 31)
  {
    assert Weekday(2024, 5, 1) == 6 && DaysIn(2024, 4) == 31;
    days := Grid(2024, 5);
  }

  /** With the previous month's length, March 2024's leading cells are
      February 26 to 29, each a date of February. */
  method GridEndsFebruaryOn29() returns (days: seq<Cell>)
    ensures |days| == GridSize
    ensures forall i :: 0 <= i < 4 ==> days[i] == Cell(-1, 26 + i, false) && DateFrom(2024, 1, days[i].day) == Date(2024, 1, 26 + i)
    ensures days[4] == Cell(0, 1, true)
  {
    assert Weekday(2024, 2, 1) == 5 && DaysIn(2024, 1) == 29;
    days := Grid(2024, 2);
  }

  // --------------------------------------------------------------- day keys

  /** `getDateKey`: the year, then the 1-based month and the day, each padded
      to two digits, joined by `-`. */
  function DateKey(d: Date): (k: string)
  {
    IntToString(d.year) + "-" + PadStart(IntToString(d.month + 1), 2, '0') + "-" + PadStart(IntToString(d.day), 2, '0')
  }

  /** A date the `Date` object can report: month 0..11, day 1..31. */
  predicate ValidDate(d: Date)
  {
    0 <= d.month <= 11 && 1 <= d.day <= 31
  }

  /** A two-digit field of a key: exactly two digits with value `n`. */
  lemma {:induction false} PaddedTwoDigits(n: nat)
    requires 1 <= n <= 31
    ensures var s := PadStart(IntToString(n), 2, '0');
      |s| == 2 && AllDigits(s) && DigitsValue(s) == n
  {
    var r := NatToString(n);
    if n < 10 {
      var s := PadStart(r, 2, '0');
      assert s == "0" + r;
      DigitsValueLeadingZero(r);
    }
  }

  /** Key shape: for a valid date of a year from 0 on, the key is the year's
      digits, `-`, two month digits, `-`, two day digits. */
  lemma DateKeyShape(d: Date)
    requires ValidDate(d) && d.year >= 0
    ensures var k := DateKey(d);
      && |k| == |NatToString(d.year)| + 6
      && k[..|NatToString(d.year)|] == NatToString(d.year)
      && k[|k| - 6] == '-' && k[|k| - 3] == '-'
  {
    PaddedTwoDigits(d.month + 1);
    PaddedTwoDigits(d.day);
  }

  /** Reads a key back: year, month and day as the three `-`-separated
      digit runs. */
  function ParseDateKey(k: string): (d: Option<Date>)
  {
    var parts := Split(k, '-');
    if |parts| == 3 && AllDigits(parts[0]) && AllDigits(parts[1]) && AllDigits(parts[2]) then
      Some(Date(DigitsValue(parts[0]), DigitsValue(parts[1]) - 1, DigitsValue(parts[2])))
    else None
  }

  /** Three pieces without the separator, joined by it, split back into
      those three pieces. */
  lemma SplitThree(a: string, b: string, c: string, sep: char)
    requires sep !in a && sep !in b && sep !in c
    ensures Split(a + [sep] + b + [sep] + c, sep) == [a, b, c]
  {
    assert a + [sep] + b + [sep] + c == a + [sep] + (b + [sep] + c);
    SplitAfterPiece(a, sep, b + [sep] + c);
    SplitAfterPiece(b, sep, c);
    SplitNoSeparator(c, sep);
  }

  lemma DigitsHaveNoDash(s: string)
    requires AllDigits(s)
    ensures '-' !in s
  {
    forall i | 0 <= i < |s| ensures s[i] != '-' {
      assert IsDigit(s[i]);
    }
  }

  /** Reading a key back gives the date it was made from, so two valid dates
      of years from 0 on never share a key. */
  lemma DateKeyRoundTrip(d: Date)
    requires ValidDate(d) && d.year >= 0
    ensures ParseDateKey(DateKey(d)) == Some(d)
  {
    var y := NatToString(d.year);
    var mm := PadStart(IntToString(d.month + 1), 2, '0');
    var dd := PadStart(IntToString(d.day), 2, '0');
    PaddedTwoDigits(d.month + 1);
    PaddedTwoDigits(d.day);
    DigitsHaveNoDash(y);
    DigitsHaveNoDash(mm);
    DigitsHaveNoDash(dd);
    assert DateKey(d) == y + ['-'] + mm + ['-'] + dd;
    SplitThree(y, mm, dd, '-');
  }

  lemma DateKeyInjective(a: Date, b: Date)
    requires ValidDate(a) && a.year >= 0 && ValidDate(b) && b.year >= 0
    requires DateKey(a) == DateKey(b)
    ensures a == b
  {
    DateKeyRoundTrip(a);
    DateKeyRoundTrip(b);
  }

  // --------------------------------------------------------------- grouping

  /** The key of the day a resource was created on. */
  function DayOf(r: Resource): string
  {
    DateKey(r.createdAt)
  }

  /** Some resource has this key. */
  predicate KeyOccurs(rs: seq<Resource>, keyOf: Resource -> string, key: string)
  {
    exists k :: 0 <= k < |rs| && keyOf(rs[k]) == key
  }

  /** `grouped` holds one entry per key some resource has, and that entry is
      the resources with that key in input order. */
  ghost predicate IsGrouping(rs: seq<Resource>, keyOf: Resource -> string, grouped: map<string, seq<Resource>>)
  {
    && (forall key :: key in grouped <==> KeyOccurs(rs, keyOf, key))
    && (forall key :: key in grouped ==> grouped[key] == Filter(rs, (r: Resource) => keyOf(r) == key))
  }

  /** `resources.forEach(...)` in `resourcesByDate`: each resource is pushed
      onto the entry of its key, the entry being created empty the first
      time the key is seen. */
  method GroupBy(rs: seq<Resource>, keyOf: Resource -> string) returns (grouped: map<string, seq<Resource>>)
    ensures IsGrouping(rs, keyOf, grouped)
  {
    grouped := map[];
    for n := 0 to |rs|
      invariant IsGrouping(rs[..n], keyOf, grouped)
    {
      ghost var prev := grouped;
      var r := rs[n];
      var key := keyOf(r);
      if key !in grouped {
        grouped := grouped[key := []];
      }
      grouped := grouped[key := grouped[key] + [r]];
      GroupingStep(rs[..n], keyOf, r, prev);
      assert rs[..n + 1] == rs[..n] + [r];
    }
    assert rs[..|rs|] == rs;
  }

  /** `resourcesByDate`: the resources grouped by the day they were created on. */
  method ResourcesByDate(rs: seq<Resource>) returns (grouped: map<string, seq<Resource>>)
    ensures IsGrouping(rs, DayOf, grouped)
  {
    grouped := GroupBy(rs, DayOf);
  }

  /** One more resource goes to the end of its key's entry, which is created
      empty when missing. */
  lemma GroupingStep(rs: seq<Resource>, keyOf: Resource -> string, r: Resource, grouped: map<string, seq<Resource>>)
    requires IsGrouping(rs, keyOf, grouped)
    ensures var key := keyOf(r);
      IsGrouping(rs + [r], keyOf, grouped[key := (if key in grouped then grouped[key] else []) + [r]])
  {
    var key := keyOf(r);
    var next := grouped[key := (if key in grouped then grouped[key] else []) + [r]];
    if key !in grouped {
      NoGroupNoResources(rs, keyOf, grouped, key);
    }
    forall other | other in next
      ensures next[other] == Filter(rs + [r], (x: Resource) => keyOf(x) == other)
    {
      FilterAppend(rs, r, (x: Resource) => keyOf(x) == other);
    }
    forall other
      ensures other in next <==> KeyOccurs(rs + [r], keyOf, other)
    {
      if KeyOccurs(rs, keyOf, other) {
        var k :| 0 <= k < |rs| && keyOf(rs[k]) == other;
        assert (rs + [r])[k] == rs[k];
      }
      if KeyOccurs(rs + [r], keyOf, other) {
        var k :| 0 <= k < |rs| + 1 && keyOf((rs + [r])[k]) == other;
        if k < |rs| { assert rs[k] == (rs + [r])[k]; }
      }
      assert (rs + [r])[|rs|] == r;
    }
  }

  /** A key without an entry has no resources. */
  lemma NoGroupNoResources(rs: seq<Resource>, keyOf: Resource -> string, grouped: map<string, seq<Resource>>, key: string)
    requires IsGrouping(rs, keyOf, grouped) && key !in grouped
    ensures Filter(rs, (x: Resource) => keyOf(x) == key) == []
  {
    assert !KeyOccurs(rs, keyOf, key);
    FilterDropsAll(rs, (x: Resource) => keyOf(x) == key);
  }

  /** `resourcesByDate[dateKey] || []`: what a day cell lists. */
  function DayResources(grouped: map<string, seq<Resource>>, key: string): seq<Resource>
  {
    if key in grouped then grouped[key] else []
  }

  /** An entry, or the empty list for a missing key, holds exactly the
      resources with that key, in input order, each as often as it occurs in
      the input. */
  lemma {:induction false} EntryIsThatKey(rs: seq<Resource>, keyOf: Resource -> string, grouped: map<string, seq<Resource>>, key: string, r: Resource)
    requires IsGrouping(rs, keyOf, grouped)
    ensures DayResources(grouped, key) == Filter(rs, (x: Resource) => keyOf(x) == key)
    ensures multiset(DayResources(grouped, key))[r] == if keyOf(r) == key then multiset(rs)[r] else 0
  {
    if key !in grouped {
      NoGroupNoResources(rs, keyOf, grouped, key);
    }
    FilterMultiset(rs, (x: Resource) => keyOf(x) == key, r);
  }

  // ---------------------------------------------------------- cell summary

  /** What a day cell shows: at most the first three resources and, beyond
      three, the line `+N autre` with N the number not shown, `autres` when
      N is more than one. */
  datatype Summary = Summary(shown: seq<Resource>, more: Option<string>)

  function DaySummary(day: seq<Resource>): (s: Summary)
    ensures |s.shown| == (if |day| < 3 then |day| else 3) && s.shown == day[..|s.shown|]
    ensures s.more.Some? <==> |day| > 3
    ensures s.more.Some? ==> s.more.value == "+" + NatToString(|day| - 3) + " autre" + (if |day| - 3 > 1 then "s" else "")
  {
    var shown := if |day| < 3 then day else day[..3];
    if |day| > 3 then
      var n := |day| - 3;
      Summary(shown, Some("+" + NatToString(n) + " autre" + (if n > 1 then "s" else "")))
    else Summary(shown, None)
  }

  /** The shown resources and the number in the `+N` line account for every
      resource of the day, and the line reads back that number. */
  lemma DaySummaryCounts(day: seq<Resource>)
    requires |day| > 3
    ensures var s := DaySummary(day);
      var digits := s.more.value[1..|s.more.value| - (if |day| - 3 > 1 then 7 else 6)];
      && AllDigits(digits) && |s.shown| + DigitsValue(digits) == |day|
  {
    var n := |day| - 3;
    var digits := NatToString(n);
    var tail := " autre" + (if n > 1 then "s" else "");
    var text := "+" + digits + tail;
    assert text == DaySummary(day).more.value;
    assert |tail| == (if n > 1 then 7 else 6);
    assert text[1..|text| - |tail|] == digits;
  }
}
