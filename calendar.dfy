/** The month calendar (components/CalendarView.tsx): the `YYYY-MM-DD` day
    keys, the grid of day cells built by two loops, month navigation and the
    add-event modal. The month length and the weekday of the first day come
    from the JavaScript Date object and are inputs here. */
module Calendar {
  import opened Types
  import opened Seqs
  import opened Text

  /** `${year}-${MM}-${DD}`, where `month` is already 1-based (getMonth() + 1)
      and month and day are padded to two digits. */
  function DateKey(year: int, month: nat, day: nat): (k: string)
    ensures IntToString(year) <= k
  {
    IntToString(year) + DateSuffix(month, day)
  }

  /** The `-MM-DD` part of the key. */
  function DateSuffix(month: nat, day: nat): string
  {
    "-" + PadStart2(NatToString(month)) + "-" + PadStart2(NatToString(day))
  }

  /** For months and days below 100 the key ends in exactly six characters
      `-MM-DD` whose digits read back as the month and the day. */
  lemma DateKeyLayout(year: int, month: nat, day: nat)
    requires month < 100 && day < 100
    ensures var k := DateKey(year, month, day);
      && |k| == |IntToString(year)| + 6
      && k[..|IntToString(year)|] == IntToString(year)
      && k[|k| - 6] == '-' && k[|k| - 3] == '-'
      && AllDigits(k[|k| - 5..|k| - 3]) && DigitsValue(k[|k| - 5..|k| - 3]) == month
      && AllDigits(k[|k| - 2..]) && DigitsValue(k[|k| - 2..]) == day
  {
    TwoDigitsValue(month);
    TwoDigitsValue(day);
    var y := IntToString(year);
    var mm := PadStart2(NatToString(month));
    var dd := PadStart2(NatToString(day));
    var k := DateKey(year, month, day);
    assert k == y + "-" + mm + "-" + dd;
    assert k[|k| - 5..|k| - 3] == mm;
    assert k[|k| - 2..] == dd;
  }

  /** Different days have different keys, so no event shows on two days. */
  lemma DateKeyInjective(y1: int, m1: nat, d1: nat, y2: int, m2: nat, d2: nat)
    requires m1 < 100 && d1 < 100 && m2 < 100 && d2 < 100
    requires DateKey(y1, m1, d1) == DateKey(y2, m2, d2)
    ensures y1 == y2 && m1 == m2 && d1 == d2
  {
    TwoDigitsValue(m1);
    TwoDigitsValue(d1);
    TwoDigitsValue(m2);
    TwoDigitsValue(d2);
    var mm1, dd1 := PadStart2(NatToString(m1)), PadStart2(NatToString(d1));
    var mm2, dd2 := PadStart2(NatToString(m2)), PadStart2(NatToString(d2));
    SplitAppend(IntToString(y1), DateSuffix(m1, d1), IntToString(y2), DateSuffix(m2, d2));
    IntToStringInjective(y1, y2);
    SplitAppend("-" + mm1 + "-", dd1, "-" + mm2 + "-", dd2);
    SplitAppend("-" + mm1, "-", "-" + mm2, "-");
    SplitAppend("-", mm1, "-", mm2);
  }

  function DateIs(key: string): StudyEvent -> bool
  {
    (e: StudyEvent) => e.date == key
  }

  /** `events.filter(e => e.date === dateStr)`: exactly the events whose date
      string equals the key, each as often as it occurs in the list (the order
      is DayEventsInOrder). */
  function DayEvents(events: seq<StudyEvent>, key: string): (r: seq<StudyEvent>)
    ensures forall e :: e in r <==> e in events && e.date == key
    ensures forall e :: multiset(r)[e] == if e.date == key then multiset(events)[e] else 0
  {
    FilterMultiplicity(DateIs(key), events);
    Filter(DateIs(key), events)
  }

  /** The events of a day keep their order in the event list. */
  lemma DayEventsInOrder(events: seq<StudyEvent>, key: string)
    ensures IsSubsequence(DayEvents(events, key), events)
  {
    FilterIsSubsequence(DateIs(key), events);
  }

  /** An event is listed under at most one day of the month. */
  lemma EventOnOneDay(events: seq<StudyEvent>, e: StudyEvent, year: int, month: nat, d1: nat, d2: nat)
    requires month < 100 && d1 < 100 && d2 < 100
    requires e in DayEvents(events, DateKey(year, month, d1))
    requires e in DayEvents(events, DateKey(year, month, d2))
    ensures d1 == d2
  {
    DateKeyInjective(year, month, d1, year, month, d2);
  }

  /** One cell of the month grid: a leading blank, or a day with its key and events. */
  datatype Cell = Blank(index: nat) | DayCell(day: nat, key: string, events: seq<StudyEvent>)

  /** The cell of day `day`: its key and the events on that date. */
  function DayCellOf(year: int, month: nat, day: nat, events: seq<StudyEvent>): Cell
  {
    DayCell(day, DateKey(year, month, day), DayEvents(events, DateKey(year, month, day)))
  }

  /** The cells of the days of one month, by day number. */
  function MonthDays(year: int, month: nat, events: seq<StudyEvent>): nat -> Cell
  {
    (day: nat) => DayCellOf(year, month, day, events)
  }

  /** `n` leading blank cells. */
  function Blanks(n: nat): seq<Cell>
  {
    if n == 0 then [] else Blanks(n - 1) + [Blank(n - 1)]
  }

  /** `first` blanks, then `cellOf(1)`, ..., `cellOf(days)`. */
  function Grid(first: nat, days: nat, cellOf: nat -> Cell): seq<Cell>
  {
    if days == 0 then Blanks(first) else Grid(first, days - 1, cellOf) + [cellOf(days)]
  }

  lemma {:induction false} BlanksLayout(n: nat)
    ensures |Blanks(n)| == n
    ensures forall i :: 0 <= i < n ==> Blanks(n)[i] == Blank(i)
  {
    if n > 0 {
      BlanksLayout(n - 1);
    }
  }

  /** A grid is `first` blanks followed by one cell per day in order, so it
      has `first + days` cells. */
  lemma {:induction false} GridLayout(first: nat, days: nat, cellOf: nat -> Cell)
    ensures |Grid(first, days, cellOf)| == first + days
    ensures forall i :: 0 <= i < first ==> Grid(first, days, cellOf)[i] == Blank(i)
    ensures forall j :: first <= j < first + days ==> Grid(first, days, cellOf)[j] == cellOf(j - first + 1)
  {
    if days == 0 {
      BlanksLayout(first);
    } else {
      GridLayout(first, days - 1, cellOf);
      var g' := Grid(first, days - 1, cellOf);
      var g := Grid(first, days, cellOf);
      assert g == g' + [cellOf(days)];
      forall i | 0 <= i < first
        ensures g[i] == Blank(i)
      {
        assert g[i] == g'[i];
      }
      forall j | first <= j < first + days
        ensures g[j] == cellOf(j - first + 1)
      {
        if j < |g'| {
          assert g[j] == g'[j];
        }
      }
    }
  }

  /** The month grid: the blanks, then day 1..days with their keys and events. */
  lemma MonthGridLayout(year: int, month: nat, first: nat, days: nat, events: seq<StudyEvent>)
    ensures var g := Grid(first, days, MonthDays(year, month, events));
      && |g| == first + days
      && (forall i :: 0 <= i < first ==> g[i] == Blank(i))
      && (forall j :: first <= j < first + days ==> g[j] == DayCellOf(year, month, j - first + 1, events))
  {
    var cellOf := MonthDays(year, month, events);
    GridLayout(first, days, cellOf);
    var g := Grid(first, days, cellOf);
    forall j | first <= j < first + days
      ensures g[j] == DayCellOf(year, month, j - first + 1, events)
    {
      assert g[j] == cellOf(j - first + 1);
    }
  }

  /** The two `for` loops that fill `dayCells`: `firstDayOfMonth` blanks, then
      one cell per day 1..daysInMonth; `month0` is getMonth() (0-based). */
  method BuildDayCells(year: int, month0: nat, firstDayOfMonth: nat, daysInMonth: nat, events: seq<StudyEvent>)
    returns (cells: seq<Cell>)
    ensures cells == Grid(firstDayOfMonth, daysInMonth, MonthDays(year, month0 + 1, events))
  {
    cells := BuildBlanks(firstDayOfMonth);
    var d: nat := 1;
    while d <= daysInMonth
      invariant 1 <= d <= daysInMonth + 1
      invariant cells == Grid(firstDayOfMonth, d - 1, MonthDays(year, month0 + 1, events))
    {
      var cell := BuildDayCell(year, month0 + 1, d, events);
      cells := cells + [cell];
      d := d + 1;
    }
  }

  /** The first loop: one blank cell per weekday before the first of the month. */
  method BuildBlanks(firstDayOfMonth: nat) returns (cells: seq<Cell>)
    ensures cells == Blanks(firstDayOfMonth)
  {
    cells := [];
    var i: nat := 0;
    while i < firstDayOfMonth
      invariant i <= firstDayOfMonth
      invariant cells == Blanks(i)
    {
      cells := cells + [Blank(i)];
      i := i + 1;
    }
  }

  /** The body of the second loop: the key `dateStr` and the events `dayEvents` of day `d`. */
  method BuildDayCell(year: int, month: nat, d: nat, events: seq<StudyEvent>) returns (cell: Cell)
    ensures cell == DayCellOf(year, month, d, events)
  {
    var dateStr := DateKey(year, month, d);
    var dayEvents := DayEvents(events, dateStr);
    cell := DayCell(d, dateStr, dayEvents);
  }

  /** getMonth() is always 0..11. */
  type Month = m: int | 0 <= m < 12

  datatype YearMonth = YearMonth(year: int, month: Month)

  /** Months counted from year 0, so that consecutive months differ by one. */
  function Ordinal(ym: YearMonth): int
  {
    12 * ym.year + ym.month
  }

  /** `new Date(year, month, 1)` with an out-of-range month carries into the
      year; Dafny's division by a positive number is flooring, as the Date
      constructor's normalisation is. */
  function Normalize(year: int, month: int): (r: YearMonth)
    ensures Ordinal(r) == 12 * year + month
  {
    YearMonth(year + month / 12, month % 12)
  }

  /** prevMonth and nextMonth: the adjacent month. */
  function PrevMonth(ym: YearMonth): (r: YearMonth)
    ensures Ordinal(r) == Ordinal(ym) - 1
    ensures ym.month == 0 ==> r == YearMonth(ym.year - 1, 11)
    ensures ym.month > 0 ==> r == YearMonth(ym.year, ym.month - 1)
  {
    Normalize(ym.year, ym.month - 1)
  }

  function NextMonth(ym: YearMonth): (r: YearMonth)
    ensures Ordinal(r) == Ordinal(ym) + 1
    ensures ym.month == 11 ==> r == YearMonth(ym.year + 1, 0)
    ensures ym.month < 11 ==> r == YearMonth(ym.year, ym.month + 1)
  {
    Normalize(ym.year, ym.month + 1)
  }

  /** A month is determined by its ordinal, so stepping back and forth returns
      to where one started. */
  lemma OrdinalInjective(a: YearMonth, b: YearMonth)
    requires Ordinal(a) == Ordinal(b)
    ensures a == b
  {
  }

  lemma NavigationInverse(ym: YearMonth)
    ensures NextMonth(PrevMonth(ym)) == ym
    ensures PrevMonth(NextMonth(ym)) == ym
  {
    OrdinalInjective(NextMonth(PrevMonth(ym)), ym);
    OrdinalInjective(PrevMonth(NextMonth(ym)), ym);
  }

  /** What handleSaveEvent hands to onAddEvent: no id and no subject. */
  datatype EventDraft = EventDraft(title: string, date: string, kind: EventType)

  /** The save rule: a non-blank title gives the draft with the trimmed title,
      the modal's date and the chosen type; a blank title gives nothing. */
  function SaveOutcome(title: string, date: string, kind: EventType): (r: Option<EventDraft>)
    ensures r.None? <==> IsBlank(title)
    ensures r.Some? ==> r.value.title == Trim(title) && r.value.date == date && r.value.kind == kind
  {
    match NonBlankTrim(title)
    case Some(t) => Some(EventDraft(t, date, kind))
    case None => None
  }

  class CalendarState {
    var current: YearMonth
    var day: int
    var isModalOpen: bool
    var modalDate: string
    var eventTitle: string
    var eventType: EventType

    /** `today` and `dayOfMonth` stand for `new Date()`. */
    constructor (today: YearMonth, dayOfMonth: int)
      ensures current == today && day == dayOfMonth
      ensures !isModalOpen && modalDate == "" && eventTitle == "" && eventType == Study
    {
      current := today;
      day := dayOfMonth;
      isModalOpen := false;
      modalDate := "";
      eventTitle := "";
      eventType := Study;
    }

    /** prevMonth: day 1 of the month before. */
    method Prev()
      modifies this`current, this`day
      ensures current == PrevMonth(old(current)) && day == 1
    {
      current := PrevMonth(current);
      day := 1;
    }

    /** nextMonth: day 1 of the month after. */
    method Next()
      modifies this`current, this`day
      ensures current == NextMonth(old(current)) && day == 1
    {
      current := NextMonth(current);
      day := 1;
    }

    /** handleOpenModal: the clicked date, an empty title, type 'study', open. */
    method OpenModal(dateStr: string)
      modifies this`modalDate, this`eventTitle, this`eventType, this`isModalOpen
      ensures modalDate == dateStr && eventTitle == "" && eventType == Study && isModalOpen
    {
      modalDate := dateStr;
      eventTitle := "";
      eventType := Study;
      isModalOpen := true;
    }

    method EditTitle(text: string)
      modifies this`eventTitle
      ensures eventTitle == text
    {
      eventTitle := text;
    }

    method SelectType(kind: EventType)
      modifies this`eventType
      ensures eventType == kind
    {
      eventType := kind;
    }

    /** The close and cancel buttons. */
    method CloseModal()
      modifies this`isModalOpen
      ensures !isModalOpen
    {
      isModalOpen := false;
    }

    /** handleSaveEvent: emit the draft and close, or do nothing when the
        title is blank. */
    method SaveEvent() returns (emitted: Option<EventDraft>)
      modifies this`isModalOpen
      ensures emitted == SaveOutcome(eventTitle, modalDate, eventType)
      ensures isModalOpen == (old(isModalOpen) && emitted.None?)
    {
      emitted := SaveOutcome(eventTitle, modalDate, eventType);
      if emitted.Some? {
        isModalOpen := false;
      }
    }

    /** The grid for the month on display. */
    method Cells(firstDayOfMonth: nat, daysInMonth: nat, events: seq<StudyEvent>) returns (cells: seq<Cell>)
      ensures |cells| == firstDayOfMonth + daysInMonth
      ensures forall i :: 0 <= i < firstDayOfMonth ==> cells[i] == Blank(i)
      ensures forall j :: firstDayOfMonth <= j < |cells| ==>
        cells[j] == DayCellOf(current.year, current.month + 1, j - firstDayOfMonth + 1, events)
    {
      cells := BuildDayCells(current.year, current.month, firstDayOfMonth, daysInMonth, events);
      MonthGridLayout(current.year, current.month + 1, firstDayOfMonth, daysInMonth, events);
    }
  }
}
