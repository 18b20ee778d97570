/** The personal calendar: the user's participations bucketed by the `YYYY-MM-DD` key of
    their start, a month grid of 6 weeks of 7 days that starts on a Monday, the day
    selected by default, month stepping and the local removal of a cancelled
    participation. */
module UserCalendar {
  import opened Common
  import opened Text
  import opened Civil
  import opened Participations

  // ---------------------------------------------------------------------------
  // Day keys and buckets (`dateToYmd`, `groupByYmd`)

  /** The local day of `new Date(p.occurrence_debut || '')`; `None` for an Invalid Date. */
  function StartDay(parse: Parser, p: Participation): Option<CivilDate> {
    var text := if p.start.Some? then p.start.value else "";
    match parse(text)
    case Some(m) => Some(m.local)
    case None => None
  }

  /** `dateToYmd` of that start: `YYYY-MM-DD`, or `NaN-NaN-NaN` for an Invalid Date. */
  function DayKey(parse: Parser, p: Participation): (key: string)
    ensures StartDay(parse, p).Some? ==> key == Ymd(StartDay(parse, p).value) && key != InvalidYmd
    ensures StartDay(parse, p).None? ==> key == InvalidYmd
  {
    match StartDay(parse, p)
    case Some(c) => YmdNotInvalid(c); Ymd(c)
    case None => InvalidYmd
  }

  /** Participations on different days have different keys. */
  lemma DayKeySeparatesDays(parse: Parser, p: Participation, q: Participation)
    requires StartDay(parse, p).Some? && StartDay(parse, q).Some?
    requires StartDay(parse, p) != StartDay(parse, q)
    ensures DayKey(parse, p) != DayKey(parse, q)
  {
    if DayKey(parse, p) == DayKey(parse, q) {
      YmdInjective(StartDay(parse, p).value, StartDay(parse, q).value);
    }
  }

  function DayKeyOf(parse: Parser): Participation -> string {
    (p: Participation) => DayKey(parse, p)
  }

  function OnDay(parse: Parser, key: string): Participation -> bool {
    InBucket(DayKeyOf(parse), key)
  }

  /** `groupByYmd`: one entry per day that occurs, holding that day's participations in
      list order. */
  method GroupByYmd(list: seq<Participation>, parse: Parser) returns (m: map<string, seq<Participation>>)
    ensures m.Keys == set p | p in list :: DayKey(parse, p)
    ensures forall k :: k in m ==> m[k] == Filter(list, OnDay(parse, k))
  {
    m := BucketBy(list, DayKeyOf(parse));
  }

  // ---------------------------------------------------------------------------
  // The month grid (`buildCalendar`)

  datatype DayCell = DayCell(
    date: CivilDate,
    ymd: string,
    isCurrentMonth: bool,
    isPast: bool,
    isToday: bool,
    events: seq<Participation>)

  /** `new Date(year, month, 1)` for a month index 0..11. */
  function FirstOfMonth(year: int, month: int): (d: CivilDate)
    requires 0 <= month < 12
    ensures Valid(d) && d.day == 1 && d.month == month + 1 && d.year == JsYear(year)
  {
    CivilDate(JsYear(year), month + 1, 1)
  }

  /** `(first.getDay() + 6) % 7`: how many days of the first week precede the 1st. */
  function Shift(year: int, month: int): (n: nat)
    requires 0 <= month < 12
    ensures n == MondayIndex(FirstOfMonth(year, month)) && n < 7
  {
    (JsGetDay(FirstOfMonth(year, month)) + 6) % 7
  }

  /** `new Date(year, month, 1 - shift)`: the first day of the grid. */
  function GridStart(year: int, month: int): (d: CivilDate)
    requires 0 <= month < 12
    ensures Valid(d)
  {
    SubDays(FirstOfMonth(year, month), Shift(year, month))
  }

  /** Cell `i` of the grid, as the loop builds it. */
  function Cell(year: int, month: int, i: nat, todayYmd: string, byYmd: map<string, seq<Participation>>): DayCell
    requires 0 <= month < 12
  {
    var d := AddDays(GridStart(year, month), i);
    var ymd := Ymd(d);
    DayCell(d, ymd, d.month == month + 1, StrLess(ymd, todayYmd), ymd == todayYmd,
            if ymd in byYmd then byYmd[ymd] else [])
  }

  /** `cells` are the 42 cells of the month. */
  predicate IsGrid(cells: seq<DayCell>, year: int, month: int, todayYmd: string, byYmd: map<string, seq<Participation>>)
    requires 0 <= month < 12
  {
    |cells| == 42 && forall i {:trigger Cell(year, month, i, todayYmd, byYmd)} :: 0 <= i < 42 ==> cells[i] == Cell(year, month, i, todayYmd, byYmd)
  }

  /** The cell loop of `buildCalendar`. */
  method GridCells(year: int, month: int, todayYmd: string, byYmd: map<string, seq<Participation>>) returns (cells: seq<DayCell>)
    requires 0 <= month < 12
    ensures IsGrid(cells, year, month, todayYmd, byYmd)
  {
    cells := [];
    for i := 0 to 42
      invariant |cells| == i
      invariant forall k {:trigger Cell(year, month, k, todayYmd, byYmd)} :: 0 <= k < i ==> cells[k] == Cell(year, month, k, todayYmd, byYmd)
    {
      var c := Cell(year, month, i, todayYmd, byYmd);
      ghost var before := cells;
      cells := cells + [c];
      forall k | 0 <= k < i + 1
        ensures cells[k] == Cell(year, month, k, todayYmd, byYmd)
      {
        if k < i {
          assert cells[k] == before[k];
        }
      }
    }
  }

  /** The grid starts on the Monday on or before the 1st and runs over 42 consecutive days. */
  lemma GridShape(g: seq<DayCell>, year: int, month: int, todayYmd: string, byYmd: map<string, seq<Participation>>)
    requires 0 <= month < 12 && IsGrid(g, year, month, todayYmd, byYmd)
    ensures var first := FirstOfMonth(year, month);
      (forall i :: 0 <= i < 42 ==> Valid(g[i].date))
      && MondayIndex(g[0].date) == 0
      && DayNumber(first) - 7 < DayNumber(g[0].date) <= DayNumber(first)
      && forall i :: 0 <= i < 41 ==> DayNumber(g[i + 1].date) == DayNumber(g[i].date) + 1
  {
    var s := GridStart(year, month);
    assert g[0] == Cell(year, month, 0, todayYmd, byYmd);
    assert g[0].date == AddDays(s, 0) == s;
    GridStartMonday(year, month);
    forall i | 0 <= i < 42
      ensures Valid(g[i].date)
    {
      assert g[i] == Cell(year, month, i, todayYmd, byYmd);
    }
    forall i | 0 <= i < 41
      ensures DayNumber(g[i + 1].date) == DayNumber(g[i].date) + 1
    {
      assert g[i] == Cell(year, month, i, todayYmd, byYmd);
      assert g[i + 1] == Cell(year, month, i + 1, todayYmd, byYmd);
    }
  }

  lemma GridStartMonday(year: int, month: int)
    requires 0 <= month < 12
    ensures MondayIndex(GridStart(year, month)) == 0
  {
    var f := FirstOfMonth(year, month);
    var sh := Shift(year, month);
    var g := SubDays(f, sh);
    assert g == GridStart(year, month);
    RoundDownToWeek(DayNumber(f), sh, DayNumber(g));
  }

  lemma RoundDownToWeek(x: int, r: int, y: int)
    requires r == x % 7 && y == x - r
    ensures y % 7 == 0
  {
  }

  /** Within a month, day numbers step with the day of the month. */
  lemma SameMonth(y: int, m: int, d1: int, d2: int)
    requires Valid(CivilDate(y, m, d1)) && Valid(CivilDate(y, m, d2))
    ensures DayNumber(CivilDate(y, m, d2)) == DayNumber(CivilDate(y, m, d1)) + (d2 - d1)
  {
  }

  /** The grid's dates by position: the `shift` days before the 1st are in the previous
      month, the month's own days follow in order, and the rest are in the next month. */
  lemma GridDate(year: int, month: int, i: nat)
    requires 0 <= month < 12 && i < 42
    ensures var d := AddDays(GridStart(year, month), i); var sh := Shift(year, month);
      var y, m := JsYear(year), month + 1;
      (sh <= i < sh + DaysInMonth(y, m) ==> d == CivilDate(y, m, i - sh + 1))
      && (d.month == m <==> sh <= i < sh + DaysInMonth(y, m))
  {
    var first := FirstOfMonth(year, month);
    var sh := Shift(year, month);
    var d := AddDays(GridStart(year, month), i);
    var dim := DaysInMonth(first.year, first.month);
    assert DayNumber(d) == DayNumber(first) - sh + i;
    if sh <= i < sh + dim {
      DayOfMonthAt(first, d, i - sh);
    } else if i < sh {
      BeforeMonth(first, d, sh - i);
    } else {
      AfterMonth(first, d, i - sh - dim);
    }
  }

  /** The day `k` days after the 1st, within the month, is day `k + 1` of that month. */
  lemma DayOfMonthAt(first: CivilDate, d: CivilDate, k: int)
    requires Valid(first) && first.day == 1 && Valid(d)
    requires 0 <= k < DaysInMonth(first.year, first.month) && DayNumber(d) == DayNumber(first) + k
    ensures d == CivilDate(first.year, first.month, k + 1)
  {
    SameMonth(first.year, first.month, 1, k + 1);
    DayNumberInjective(CivilDate(first.year, first.month, k + 1), d);
  }

  /** A day less than a week before the 1st is in the previous month. */
  lemma BeforeMonth(first: CivilDate, d: CivilDate, n: int)
    requires Valid(first) && first.day == 1 && Valid(d)
    requires 1 <= n <= 7 && DayNumber(d) == DayNumber(first) - n
    ensures d.month != first.month
  {
    var pl := PrevDay(first);
    PrevDayNumber(first);
    assert pl.month != first.month && pl.day == DaysInMonth(pl.year, pl.month);
    var c := CivilDate(pl.year, pl.month, pl.day - (n - 1));
    SameMonth(pl.year, pl.month, pl.day - (n - 1), pl.day);
    DayNumberInjective(c, d);
  }

  /** A day within four weeks after the month's last day is in the next month. */
  lemma AfterMonth(first: CivilDate, d: CivilDate, n: int)
    requires Valid(first) && first.day == 1 && Valid(d)
    requires 0 <= n < 28 && DayNumber(d) == DayNumber(first) + DaysInMonth(first.year, first.month) + n
    ensures d.month != first.month
  {
    var y, m := first.year, first.month;
    var dim := DaysInMonth(y, m);
    var last := CivilDate(y, m, dim);
    SameMonth(y, m, 1, dim);
    var nf := NextDay(last);
    NextDayNumber(last);
    assert nf.month != m && nf.day == 1;
    var c := CivilDate(nf.year, nf.month, 1 + n);
    SameMonth(nf.year, nf.month, 1, 1 + n);
    DayNumberInjective(c, d);
  }

  /** A cell belongs to the displayed month exactly when it lies in the month's run of
      positions, and then it is that day of the month. */
  lemma CurrentMonthCells(g: seq<DayCell>, year: int, month: int, todayYmd: string, byYmd: map<string, seq<Participation>>, i: nat)
    requires 0 <= month < 12 && IsGrid(g, year, month, todayYmd, byYmd) && i < 42
    ensures var c := g[i]; var sh := Shift(year, month);
      var y := JsYear(year);
      (c.isCurrentMonth <==> sh <= i < sh + DaysInMonth(y, month + 1))
      && (c.isCurrentMonth ==> c.date == CivilDate(y, month + 1, i - sh + 1))
  {
    assert g[i] == Cell(year, month, i, todayYmd, byYmd);
    GridDate(year, month, i);
  }

  /** Every day of the displayed month has its cell. */
  lemma MonthFullyShown(g: seq<DayCell>, year: int, month: int, todayYmd: string, byYmd: map<string, seq<Participation>>, day: int)
    requires 0 <= month < 12 && IsGrid(g, year, month, todayYmd, byYmd)
    requires Valid(CivilDate(JsYear(year), month + 1, day))
    ensures var i := Shift(year, month) + day - 1;
      0 <= i < 42 && g[i].date == CivilDate(JsYear(year), month + 1, day) && g[i].isCurrentMonth
  {
    var i := Shift(year, month) + day - 1;
    assert g[i] == Cell(year, month, i, todayYmd, byYmd);
    GridDate(year, month, i);
  }

  /** `isToday` marks the cell of today's date, so at most one cell is today; `isPast`
      compares the keys as strings, which for years of four digits is the date order. */
  lemma TodayAndPast(g: seq<DayCell>, year: int, month: int, today: Day, byYmd: map<string, seq<Participation>>, i: nat)
    requires 0 <= month < 12 && IsGrid(g, year, month, Ymd(today), byYmd) && i < 42
    ensures var c := g[i];
      Valid(c.date) && (c.isToday <==> c.date == today)
      && (1000 <= c.date.year <= 9999 && 1000 <= today.year <= 9999 ==>
            (c.isPast <==> DayNumber(c.date) < DayNumber(today)))
  {
    var c := g[i];
    assert c == Cell(year, month, i, Ymd(today), byYmd);
    if c.isToday {
      YmdInjective(c.date, today);
    }
    if 1000 <= c.date.year <= 9999 && 1000 <= today.year <= 9999 {
      YmdOrder(c.date, today);
    }
  }

  lemma OneToday(g: seq<DayCell>, year: int, month: int, today: Day, byYmd: map<string, seq<Participation>>, i: nat, j: nat)
    requires 0 <= month < 12 && IsGrid(g, year, month, Ymd(today), byYmd) && i < 42 && j < 42
    requires g[i].isToday && g[j].isToday
    ensures i == j
  {
    TodayAndPast(g, year, month, today, byYmd, i);
    TodayAndPast(g, year, month, today, byYmd, j);
    assert g[i] == Cell(year, month, i, Ymd(today), byYmd);
    assert g[j] == Cell(year, month, j, Ymd(today), byYmd);
  }

  /** A cell shows the bucket of its day: the participations whose start falls on it. */
  lemma CellEvents(g: seq<DayCell>, year: int, month: int, todayYmd: string, list: seq<Participation>, parse: Parser,
                   byYmd: map<string, seq<Participation>>, i: nat)
    requires 0 <= month < 12 && IsGrid(g, year, month, todayYmd, byYmd) && i < 42
    requires byYmd.Keys == set p | p in list :: DayKey(parse, p)
    requires forall k :: k in byYmd ==> byYmd[k] == Filter(list, OnDay(parse, k))
    ensures g[i].events == Filter(list, OnDay(parse, g[i].ymd))
  {
    var c := g[i];
    assert c == Cell(year, month, i, todayYmd, byYmd);
    if c.ymd !in byYmd {
      forall x | x in list
        ensures !OnDay(parse, c.ymd)(x)
      {
        assert DayKey(parse, x) in byYmd.Keys;
      }
      FilterNone(list, OnDay(parse, c.ymd));
    }
  }

  // ---------------------------------------------------------------------------
  // Default selection

  function TodayInMonth(): DayCell -> bool {
    (c: DayCell) => c.isToday && c.isCurrentMonth
  }

  function InMonthWithEvents(): DayCell -> bool {
    (c: DayCell) => c.isCurrentMonth && |c.events| > 0
  }

  /** Today's cell of the month if there is one, else the first cell of the month with
      events, else the 1st of the month. */
  function DefaultSelection(cells: seq<DayCell>, year: int, month: int): string
    requires 0 <= month < 12
  {
    match Find(cells, TodayInMonth())
    case Some(k) => cells[k].ymd
    case None =>
      match Find(cells, InMonthWithEvents())
      case Some(k) => cells[k].ymd
      case None => Ymd(FirstOfMonth(year, month))
  }

  /** When today is in the displayed month, today is selected. */
  lemma DefaultIsToday(g: seq<DayCell>, year: int, month: int, today: Day, byYmd: map<string, seq<Participation>>)
    requires 0 <= month < 12 && IsGrid(g, year, month, Ymd(today), byYmd)
    requires today.year == JsYear(year) && today.month == month + 1
    ensures DefaultSelection(g, year, month) == Ymd(today)
  {
    MonthFullyShown(g, year, month, Ymd(today), byYmd, today.day);
    var i := Shift(year, month) + today.day - 1;
    assert g[i] == Cell(year, month, i, Ymd(today), byYmd);
    assert TodayInMonth()(g[i]);
    var k := Find(g, TodayInMonth());
    assert k.Some?;
    assert g[k.value] == Cell(year, month, k.value, Ymd(today), byYmd);
  }

  /** Otherwise the first day of the month with participations is selected, or the 1st. */
  lemma DefaultElsewhere(g: seq<DayCell>, year: int, month: int, today: Day, byYmd: map<string, seq<Participation>>)
    requires 0 <= month < 12 && IsGrid(g, year, month, Ymd(today), byYmd)
    requires !(today.year == JsYear(year) && today.month == month + 1)
    ensures (forall i :: 0 <= i < 42 ==> !(g[i].isCurrentMonth && |g[i].events| > 0))
            ==> DefaultSelection(g, year, month) == Ymd(FirstOfMonth(year, month))
    ensures forall i :: 0 <= i < 42 && g[i].isCurrentMonth && |g[i].events| > 0
                        && (forall j :: 0 <= j < i ==> !(g[j].isCurrentMonth && |g[j].events| > 0))
                        ==> DefaultSelection(g, year, month) == g[i].ymd
  {
    forall i | 0 <= i < 42
      ensures !TodayInMonth()(g[i])
    {
      CurrentMonthCells(g, year, month, Ymd(today), byYmd, i);
      TodayAndPast(g, year, month, today, byYmd, i);
    }
    DefaultWithoutToday(g, year, month);
  }

  /** With no cell that is today in the month, the selection falls to the events or the 1st. */
  lemma DefaultWithoutToday(g: seq<DayCell>, year: int, month: int)
    requires 0 <= month < 12 && |g| == 42
    requires forall i :: 0 <= i < 42 ==> !TodayInMonth()(g[i])
    ensures (forall i :: 0 <= i < 42 ==> !(g[i].isCurrentMonth && |g[i].events| > 0))
            ==> DefaultSelection(g, year, month) == Ymd(FirstOfMonth(year, month))
    ensures forall i :: 0 <= i < 42 && g[i].isCurrentMonth && |g[i].events| > 0
                        && (forall j :: 0 <= j < i ==> !(g[j].isCurrentMonth && |g[j].events| > 0))
                        ==> DefaultSelection(g, year, month) == g[i].ymd
  {
    assert Find(g, TodayInMonth()).None?;
    var k := Find(g, InMonthWithEvents());
    if k.Some? {
      forall i | 0 <= i < 42 && g[i].isCurrentMonth && |g[i].events| > 0
                 && (forall j :: 0 <= j < i ==> !(g[j].isCurrentMonth && |g[j].events| > 0))
        ensures i == k.value
      {
        assert InMonthWithEvents()(g[i]);
        assert InMonthWithEvents()(g[k.value]);
      }
    }
  }

  // ---------------------------------------------------------------------------
  // Month stepping

  /** The month before: 12 * year + month goes down by one, the month stays in 0..11. */
  function Previous(year: int, month: int): (r: (int, int))
    requires 0 <= month < 12
    ensures 0 <= r.1 < 12 && 12 * r.0 + r.1 == 12 * year + month - 1
  {
    if month == 0 then (year - 1, 11) else (year, month - 1)
  }

  /** The month after: 12 * year + month goes up by one, the month stays in 0..11. */
  function Following(year: int, month: int): (r: (int, int))
    requires 0 <= month < 12
    ensures 0 <= r.1 < 12 && 12 * r.0 + r.1 == 12 * year + month + 1
  {
    if month == 11 then (year + 1, 0) else (year, month + 1)
  }

  /** Stepping back and then forward returns to the same month, and conversely. */
  lemma StepsInverse(year: int, month: int)
    requires 0 <= month < 12
    ensures Following(Previous(year, month).0, Previous(year, month).1) == (year, month)
    ensures Previous(Following(year, month).0, Following(year, month).1) == (year, month)
  {
    var p := Previous(year, month);
    var f := Following(p.0, p.1);
    assert 12 * f.0 + f.1 == 12 * year + month;
    var q := Following(year, month);
    var b := Previous(q.0, q.1);
    assert 12 * b.0 + b.1 == 12 * year + month;
  }

  // ---------------------------------------------------------------------------
  // Cancelling

  function NotId(id: int): Participation -> bool {
    (x: Participation) => x.id != id
  }

  /** The day cells with the participation `id` taken out of the cells of day `key`. */
  function WithoutInCells(cells: seq<DayCell>, key: string, id: int): (r: seq<DayCell>)
    ensures |r| == |cells|
    ensures forall i :: 0 <= i < |r| ==>
      r[i] == if cells[i].ymd == key then cells[i].(events := Filter(cells[i].events, NotId(id))) else cells[i]
  {
    seq(|cells|, (i: int) requires 0 <= i < |cells| =>
      if cells[i].ymd == key then cells[i].(events := Filter(cells[i].events, NotId(id))) else cells[i])
  }

  /** After the removal no cell of that day shows a participation with that id, the other
      participations stay, and the cells of other days are untouched. */
  lemma CancelledGone(cells: seq<DayCell>, key: string, id: int, i: nat)
    requires i < |cells|
    ensures var r := WithoutInCells(cells, key, id);
      r[i].ymd == cells[i].ymd && r[i].date == cells[i].date
      && (cells[i].ymd == key ==> forall x :: x in r[i].events ==> x.id != id && x in cells[i].events)
      && (cells[i].ymd == key ==> forall x :: x in cells[i].events && x.id != id ==> x in r[i].events)
      && (cells[i].ymd != key ==> r[i] == cells[i])
  {
    forall x | x in cells[i].events && x.id != id
      ensures x in Filter(cells[i].events, NotId(id))
    {
      FilterKeeps(cells[i].events, NotId(id), x);
    }
  }

  // ---------------------------------------------------------------------------
  // The component

  class DashboardUserComponent {
    var viewYear: int
    /** A month index, 0 = January. */
    var viewMonth: int
    var days: seq<DayCell>
    var selectedYmd: Option<string>
    var loading: bool
    var mapByYmd: map<string, seq<Participation>>

    ghost predicate Valid()
      reads this
    {
      0 <= viewMonth < 12
    }

    /** The component before anything has loaded: the current month is shown. */
    constructor (today: Day)
      ensures Valid()
      ensures viewYear == today.year && viewMonth == today.month - 1
      ensures days == [] && selectedYmd == None && loading && mapByYmd == map[]
    {
      viewYear := today.year;
      viewMonth := today.month - 1;
      days := [];
      selectedYmd := None;
      loading := true;
      mapByYmd := map[];
    }

    /** `buildCalendar`, with `today` the date of `new Date()`. */
    method BuildCalendar(year: int, month: int, today: Day)
      requires 0 <= month < 12
      modifies this`days, this`selectedYmd
      ensures IsGrid(days, year, month, Ymd(today), mapByYmd)
      ensures selectedYmd == Some(DefaultSelection(days, year, month))
    {
      var first := FirstOfMonth(year, month);
      days := GridCells(year, month, Ymd(today), mapByYmd);
      var todayCell := Find(days, TodayInMonth());
      var firstWithEvents := Find(days, InMonthWithEvents());
      if todayCell.Some? {
        selectedYmd := Some(days[todayCell.value].ymd);
      } else if firstWithEvents.Some? {
        selectedYmd := Some(days[firstWithEvents.value].ymd);
      } else {
        selectedYmd := Some(Ymd(first));
      }
    }

    /** Both participation lists arrived: bucket them and draw the month. */
    method OnLoaded(future: seq<Participation>, past: seq<Participation>, parse: Parser, today: Day)
      requires Valid()
      modifies this
      ensures Valid() && viewYear == old(viewYear) && viewMonth == old(viewMonth)
      ensures mapByYmd.Keys == set p | p in future + past :: DayKey(parse, p)
      ensures forall k :: k in mapByYmd ==> mapByYmd[k] == Filter(future + past, OnDay(parse, k))
      ensures IsGrid(days, viewYear, viewMonth, Ymd(today), mapByYmd)
      ensures selectedYmd == Some(DefaultSelection(days, viewYear, viewMonth))
      ensures !loading
    {
      var all := future + past;
      mapByYmd := GroupByYmd(all, parse);
      BuildCalendar(viewYear, viewMonth, today);
      loading := false;
    }

    /** The lists could not be loaded: an empty month is drawn. */
    method OnLoadFailed(today: Day)
      requires Valid()
      modifies this
      ensures Valid() && viewYear == old(viewYear) && viewMonth == old(viewMonth)
      ensures mapByYmd == map[]
      ensures IsGrid(days, viewYear, viewMonth, Ymd(today), mapByYmd)
      ensures selectedYmd == Some(DefaultSelection(days, viewYear, viewMonth))
      ensures !loading
    {
      mapByYmd := map[];
      BuildCalendar(viewYear, viewMonth, today);
      loading := false;
    }

    method PrevMonth(today: Day)
      requires Valid()
      modifies this
      ensures Valid()
      ensures (viewYear, viewMonth) == Previous(old(viewYear), old(viewMonth))
      ensures mapByYmd == old(mapByYmd) && loading == old(loading)
      ensures IsGrid(days, viewYear, viewMonth, Ymd(today), mapByYmd)
      ensures selectedYmd == Some(DefaultSelection(days, viewYear, viewMonth))
    {
      if viewMonth == 0 {
        viewMonth := 11;
        viewYear := viewYear - 1;
      } else {
        viewMonth := viewMonth - 1;
      }
      BuildCalendar(viewYear, viewMonth, today);
    }

    method NextMonth(today: Day)
      requires Valid()
      modifies this
      ensures Valid()
      ensures (viewYear, viewMonth) == Following(old(viewYear), old(viewMonth))
      ensures mapByYmd == old(mapByYmd) && loading == old(loading)
      ensures IsGrid(days, viewYear, viewMonth, Ymd(today), mapByYmd)
      ensures selectedYmd == Some(DefaultSelection(days, viewYear, viewMonth))
    {
      if viewMonth == 11 {
        viewMonth := 0;
        viewYear := viewYear + 1;
      } else {
        viewMonth := viewMonth + 1;
      }
      BuildCalendar(viewYear, viewMonth, today);
    }

    method SelectDay(d: DayCell)
      modifies this`selectedYmd
      ensures selectedYmd == Some(d.ymd)
    {
      selectedYmd := Some(d.ymd);
    }

    /** The participations of the selected day: none without a selected day (an empty
      key counts as none) or without a bucket for it. */
    function SelectedEvents(): (r: seq<Participation>)
      reads this
      ensures selectedYmd.None? || selectedYmd == Some("") ==> r == []
      ensures selectedYmd.Some? && selectedYmd.value != "" && selectedYmd.value !in mapByYmd ==> r == []
      ensures selectedYmd.Some? && selectedYmd.value != "" && selectedYmd.value in mapByYmd ==> r == mapByYmd[selectedYmd.value]
    {
      if selectedYmd.Some? && selectedYmd.value != "" then
        (if selectedYmd.value in mapByYmd then mapByYmd[selectedYmd.value] else [])
      else []
    }

    /** The cancel request for `p` succeeded: `p`'s id leaves the bucket and the cells of
      the day of its start; the bucket is written even if it was missing. */
    method OnCancelled(p: Participation, parse: Parser)
      modifies this`mapByYmd, this`days
      ensures var key := DayKey(parse, p);
        mapByYmd == old(mapByYmd)[key := Filter(if key in old(mapByYmd) then old(mapByYmd)[key] else [], NotId(p.id))]
      ensures days == WithoutInCells(old(days), DayKey(parse, p), p.id)
    {
      var ymd := DayKey(parse, p);
      var list := if ymd in mapByYmd then mapByYmd[ymd] else [];
      mapByYmd := mapByYmd[ymd := Filter(list, NotId(p.id))];
      days := WithoutInCells(days, ymd, p.id);
    }
  }

  /** `isFuture`: the start parses and is not before `now` (NaN compares false). */
  predicate IsFuture(parse: Parser, p: Participation, now: int) {
    var text := if p.start.Some? then p.start.value else "";
    parse(text).Some? && parse(text).value.ms >= now
  }
}
