/**
 * The month calendar of calendar.ts: a `Calendar` object holding the
 * displayed year and month and an optional selected date, the month
 * navigation and date selection that update it, and the inline keyboard it
 * renders (a header with previous/next controls, a Monday-first weekday row,
 * then the days of the month in rows of seven).
 *
 * The keyboard builder is modelled by what it does to a grid of rows:
 * `text` appends a button to the last row, `row` opens a new empty row, and a
 * fresh keyboard is one empty row. Buttons are tagged `Cell`s; `Button` gives
 * the text and callback data each one is drawn with. The ambient
 * `new Date()` is passed in as `today`.
 */
module CalendarEngine {
  import opened CivilDates
  import opened DecimalText

  datatype Option<T> = None | Some(value: T)

  /** A keyboard button, by role. */
  datatype Cell =
    | Blank
    | Label(text: string)
    | NavPrev
    | NavNext
    | DaySelectable(day: int)
    | DayDisabled(day: int)

  /** A JavaScript `Date`: a calendar day, or the invalid date `new Date(y, m, NaN)` makes. */
  datatype JsDate = Day(date: Date) | InvalidDate

  /** Rows of buttons, top to bottom. */
  type Grid = seq<seq<Cell>>

  datatype Direction = Prev | Next

  const MonthNames: seq<string> := [
    "January", "February", "March", "April", "May", "June",
    "July", "August", "September", "October", "November", "December"
  ]

  const DayNames: seq<string> := ["Mon", "Tue", "Wed", "Thu", "Fri", "Sat", "Sun"]

  /** The text and callback data a cell is drawn with; a past day is drawn like a blank. */
  function Button(c: Cell): (string, string) {
    match c
    case Blank => (" ", "ignore")
    case Label(t) => (t, "ignore")
    case NavPrev => ("<<", "prev_month")
    case NavNext => (">>", "next_month")
    case DaySelectable(d) => (IntToString(d), "date_" + IntToString(d))
    case DayDisabled(_) => (" ", "ignore")
  }

  /**
   * An inline keyboard under construction: the rows already closed and the
   * last row, which `text` appends to. A new keyboard is one empty row.
   */
  datatype Builder = Builder(closed: Grid, last: seq<Cell>)

  /** `InlineKeyboard.text`: append a button to the last row. */
  function Text(kb: Builder, c: Cell): Builder {
    kb.(last := kb.last + [c])
  }

  /** `InlineKeyboard.row`: close the last row and start a new, empty one. */
  function Row(kb: Builder): Builder {
    Builder(kb.closed + [kb.last], [])
  }

  /** The rows the keyboard sends, the last (possibly empty) row included. */
  function Markup(kb: Builder): Grid {
    kb.closed + [kb.last]
  }

  // ---------------------------------------------------------------------
  // What the keyboard of a month is

  /** Months counted from year 0, so that month distances are differences. */
  function MonthIndex(y: int, m: int): int {
    y * 12 + m
  }

  predicate IsCurrentMonth(y: int, m: int, today: Date) {
    y == today.year && m == today.month
  }

  predicate IsBeyondOneYear(y: int, m: int, today: Date) {
    (y - today.year) * 12 + (m - today.month) > 12
  }

  /** Blanks before day 1: its weekday counted from Monday = 0. */
  function LeadingBlanks(firstDayOfWeek: int): int {
    if firstDayOfWeek == 0 then 6 else firstDayOfWeek - 1
  }

  /** Blanks that complete the last row after `dayIndex` cells. */
  function TrailingBlanks(dayIndex: int): int {
    if dayIndex % 7 != 0 then 7 - dayIndex % 7 else 0
  }

  function Blanks(n: nat): seq<Cell> {
    seq(n, _ => Blank)
  }

  /** Leading blanks of month `m` of year `y`. */
  function Lead(y: int, m: int): int
    requires 0 <= m < 12
  {
    LeadingBlanks(Weekday(FirstDayNumber(FullYear(y), m)))
  }

  function DayCell(y: int, m: int, today: Date, day: int): Cell {
    if IsCurrentMonth(y, m, today) && day < today.day then DayDisabled(day) else DaySelectable(day)
  }

  function HeaderRow(y: int, m: int, today: Date): seq<Cell>
    requires 0 <= m < 12
  {
    [ if IsCurrentMonth(y, m, today) then Blank else NavPrev,
      Label(MonthNames[m] + " " + IntToString(y)),
      if IsBeyondOneYear(y, m, today) then Blank else NavNext ]
  }

  function WeekdayRow(): seq<Cell> {
    seq(7, i requires 0 <= i < 7 => Label(DayNames[i]))
  }

  function DayCells(y: int, m: int, today: Date): seq<Cell>
    requires 0 <= m < 12
  {
    seq(DaysInMonth(FullYear(y), m), i => DayCell(y, m, today, i + 1))
  }

  /** Every cell below the weekday row, read left to right and top to bottom. */
  function DayGrid(y: int, m: int, today: Date): seq<Cell>
    requires 0 <= m < 12
  {
    var lead := Lead(y, m);
    Blanks(lead) + DayCells(y, m, today) + Blanks(TrailingBlanks(lead + DaysInMonth(FullYear(y), m)))
  }

  /** Consecutive rows of seven. */
  function Rows(cells: seq<Cell>): Grid
    requires |cells| % 7 == 0
    decreases |cells|
  {
    if |cells| == 0 then [] else [cells[..7]] + Rows(cells[7..])
  }

  /**
   * The keyboard of a month: header, weekday names, the day rows, and the
   * empty row the builder leaves open when the last day closes a row.
   */
  function Keyboard(y: int, m: int, today: Date): Grid
    requires 0 <= m < 12
  {
    var lead := Lead(y, m);
    [HeaderRow(y, m, today), WeekdayRow()]
      + Rows(DayGrid(y, m, today))
      + (if (lead + DaysInMonth(FullYear(y), m)) % 7 == 0 then [[]] else [])
  }

  /**
   * The builder after `top` and then the cells `c`, with a new row opened
   * after every seventh cell: the complete rows are closed, the rest is open.
   */
  function Laid(top: Grid, c: seq<Cell>): Builder {
    var full := |c| - |c| % 7;
    Builder(top + Rows(c[..full]), c[full..])
  }

  /** The builder after `Laid(top, c)` and `k` more blanks, with no new row opened. */
  function Padded(top: Grid, c: seq<Cell>, k: nat): Builder {
    var full := |c| - |c| % 7;
    Builder(top + Rows(c[..full]), c[full..] + Blanks(k))
  }

  // ---------------------------------------------------------------------
  // Lemmas about the layout

  lemma {:induction false} RowsAppend(a: seq<Cell>, b: seq<Cell>)
    requires |a| % 7 == 0 && |b| == 7
    ensures Rows(a + b) == Rows(a) + [b]
    decreases |a|
  {
    if |a| == 0 {
      assert a + b == b && b[..7] == b;
      assert Rows(b[7..]) == [];
    } else {
      RowsAppend(a[7..], b);
      assert (a + b)[..7] == a[..7];
      assert (a + b)[7..] == a[7..] + b;
    }
  }

  /** The rows hold the cells in order, seven to a row. */
  lemma {:induction false} RowsCell(cells: seq<Cell>)
    requires |cells| % 7 == 0
    ensures |Rows(cells)| == |cells| / 7
    ensures forall r :: 0 <= r < |Rows(cells)| ==> |Rows(cells)[r]| == 7
    ensures forall i :: 0 <= i < |cells| ==> Rows(cells)[i / 7][i % 7] == cells[i]
    decreases |cells|
  {
    if |cells| > 0 {
      RowsCell(cells[7..]);
      var rest := Rows(cells[7..]);
      forall i | 0 <= i < |cells|
        ensures Rows(cells)[i / 7][i % 7] == cells[i]
      {
        if i >= 7 {
          assert (i - 7) / 7 == i / 7 - 1 && (i - 7) % 7 == i % 7;
          assert rest[(i - 7) / 7][(i - 7) % 7] == cells[7..][i - 7];
        }
      }
    }
  }

  /** Fewer than seven cells fill no row: they all sit in the open last row. */
  lemma LaidShort(top: Grid, c: seq<Cell>)
    requires |c| < 7
    ensures Laid(top, c) == Builder(top, c)
  {
    assert c[..0] == [] && c[0..] == c;
    assert Rows([]) == [];
    assert top + [] == top;
  }

  /** Emitting one more cell: append it, and open a new row when it completes one. */
  lemma EmitCell(top: Grid, c: seq<Cell>, x: Cell)
    ensures Laid(top, c + [x])
      == if (|c| + 1) % 7 == 0 then Row(Text(Laid(top, c), x)) else Text(Laid(top, c), x)
  {
    var full := |c| - |c| % 7;
    var c' := c + [x];
    assert c'[..full] == c[..full];
    if (|c| + 1) % 7 == 0 {
      assert |c'| - |c'| % 7 == |c'|;
      assert c'[..|c'|] == c[..full] + (c[full..] + [x]);
      RowsAppend(c[..full], c[full..] + [x]);
      assert c'[|c'|..] == [];
    } else {
      assert |c'| - |c'| % 7 == full;
      assert c'[full..] == c[full..] + [x];
    }
  }

  /** One more trailing blank. */
  lemma EmitBlank(top: Grid, c: seq<Cell>, k: nat)
    ensures Text(Padded(top, c, k), Blank) == Padded(top, c, k + 1)
  {
    var full := |c| - |c| % 7;
    assert c[full..] + Blanks(k) + [Blank] == c[full..] + Blanks(k + 1);
  }

  /**
   * After the cells `c` and the blanks that complete their last row, the
   * builder holds `top`, the rows of seven, and an empty last row exactly
   * when no blank was needed.
   */
  lemma MarkupOfCells(top: Grid, c: seq<Cell>)
    ensures |c| % 7 == 0 ==> Markup(Laid(top, c)) == top + Rows(c) + [[]]
    ensures |c| % 7 != 0 ==>
              && |c + Blanks(TrailingBlanks(|c|))| % 7 == 0
              && Markup(Padded(top, c, TrailingBlanks(|c|))) == top + Rows(c + Blanks(TrailingBlanks(|c|)))
  {
    var n := |c|;
    var full := n - n % 7;
    var trail := TrailingBlanks(n);
    if n % 7 == 0 {
      assert c[..full] == c && c[full..] == [];
    } else {
      assert c[..full] + (c[full..] + Blanks(trail)) == c + Blanks(trail);
      RowsAppend(c[..full], c[full..] + Blanks(trail));
    }
  }

  /** The keyboard of a month is what the builder holds after the days and the trailing blanks. */
  lemma KeyboardFromBuilder(y: int, m: int, today: Date, n: int)
    requires 0 <= m < 12
    requires n == Lead(y, m) + DaysInMonth(FullYear(y), m)
    ensures var top := [HeaderRow(y, m, today), WeekdayRow()];
            var c := Blanks(Lead(y, m)) + DayCells(y, m, today);
            && |c| == n
            && (n % 7 == 0 ==> Keyboard(y, m, today) == Markup(Laid(top, c)))
            && (n % 7 != 0 ==> Keyboard(y, m, today) == Markup(Padded(top, c, 7 - n % 7)))
  {
    var top := [HeaderRow(y, m, today), WeekdayRow()];
    var c := Blanks(Lead(y, m)) + DayCells(y, m, today);
    assert DayGrid(y, m, today) == c + Blanks(TrailingBlanks(|c|));
    if |c| % 7 == 0 {
      assert c + Blanks(TrailingBlanks(|c|)) == c;
    }
    MarkupOfCells(top, c);
  }

  lemma DayGridShape(y: int, m: int, today: Date)
    requires 0 <= m < 12
    ensures 0 <= Lead(y, m) < 7
    ensures 0 <= TrailingBlanks(Lead(y, m) + DaysInMonth(FullYear(y), m)) < 7
    ensures |DayGrid(y, m, today)| % 7 == 0
    ensures |DayGrid(y, m, today)| == Lead(y, m) + DaysInMonth(FullYear(y), m) + TrailingBlanks(Lead(y, m) + DaysInMonth(FullYear(y), m))
  {
  }

  /** The cells below the weekday row: leading blanks, the days in order, trailing blanks. */
  lemma DayGridCells(y: int, m: int, today: Date)
    requires 0 <= m < 12
    ensures forall i :: 0 <= i < |DayGrid(y, m, today)| ==>
      DayGrid(y, m, today)[i]
        == if Lead(y, m) <= i < Lead(y, m) + DaysInMonth(FullYear(y), m) then DayCell(y, m, today, i - Lead(y, m) + 1) else Blank
  {
    var lead, dim := Lead(y, m), DaysInMonth(FullYear(y), m);
    var cells := DayGrid(y, m, today);
    var days := DayCells(y, m, today);
    forall i | 0 <= i < |cells|
      ensures cells[i] == if lead <= i < lead + dim then DayCell(y, m, today, i - lead + 1) else Blank
    {
      if lead <= i < lead + dim {
        assert cells[i] == days[i - lead];
      }
    }
  }

  /** The keyboard is the header, the weekday row, then the day grid cut into rows of seven. */
  lemma KeyboardRows(y: int, m: int, today: Date)
    requires 0 <= m < 12
    ensures |DayGrid(y, m, today)| % 7 == 0
    ensures var kb := Keyboard(y, m, today);
            var cells := DayGrid(y, m, today);
            var closes := (Lead(y, m) + DaysInMonth(FullYear(y), m)) % 7 == 0;
            && |kb| == 2 + |cells| / 7 + (if closes then 1 else 0)
            && kb[0] == HeaderRow(y, m, today) && kb[1] == WeekdayRow()
            && (forall r :: 2 <= r < 2 + |cells| / 7 ==> |kb[r]| == 7)
            && (forall i :: 0 <= i < |cells| ==> kb[2 + i / 7][i % 7] == cells[i])
            && (closes ==> kb[|kb| - 1] == [])
  {
    var cells := DayGrid(y, m, today);
    DayGridShape(y, m, today);
    RowsCell(cells);
    var kb := Keyboard(y, m, today);
    forall i | 0 <= i < |cells|
      ensures kb[2 + i / 7][i % 7] == cells[i]
    {
      assert kb[2 + i / 7] == Rows(cells)[i / 7];
    }
  }

  /**
   * The shape of a month's keyboard: a three-button header, the weekday row,
   * rows of seven below it, and a final empty row exactly when the last day
   * fills the last row; at most six leading and six trailing blanks.
   */
  lemma KeyboardShape(y: int, m: int, today: Date)
    requires 0 <= m < 12
    ensures var kb := Keyboard(y, m, today);
            var lead := Lead(y, m);
            var dim := DaysInMonth(FullYear(y), m);
            var rows := (lead + dim + TrailingBlanks(lead + dim)) / 7;
            && 0 <= lead < 7
            && 0 <= TrailingBlanks(lead + dim) < 7
            && (TrailingBlanks(lead + dim) == 0 <==> (lead + dim) % 7 == 0)
            && |kb| == 2 + rows + (if (lead + dim) % 7 == 0 then 1 else 0)
            && |kb[0]| == 3 && kb[1] == WeekdayRow()
            && (forall r :: 2 <= r < 2 + rows ==> |kb[r]| == 7)
            && ((lead + dim) % 7 == 0 ==> kb[|kb| - 1] == [])
  {
    DayGridShape(y, m, today);
    KeyboardRows(y, m, today);
  }

  /**
   * The header as drawn: the previous control is a blank exactly in the
   * current month, the next control is a blank exactly more than twelve
   * months ahead, and the title between them names the month and year.
   */
  lemma KeyboardHeader(y: int, m: int, today: Date)
    requires 0 <= m < 12 && 0 <= today.month < 12
    ensures var header := Keyboard(y, m, today)[0];
            && |header| == 3
            && (Button(header[0]) == (" ", "ignore") <==> y == today.year && m == today.month)
            && (Button(header[0]) != (" ", "ignore") ==> Button(header[0]) == ("<<", "prev_month"))
            && Button(header[1]) == (MonthNames[m] + " " + IntToString(y), "ignore")
            && (Button(header[2]) == (" ", "ignore") <==> MonthIndex(y, m) - MonthIndex(today.year, today.month) > 12)
            && (Button(header[2]) != (" ", "ignore") ==> Button(header[2]) == (">>", "next_month"))
  {
    var header := Keyboard(y, m, today)[0];
    assert header == HeaderRow(y, m, today);
    assert Button(NavPrev) != (" ", "ignore") by {
      assert "<<"[0] != " "[0];
    }
    assert Button(NavNext) != (" ", "ignore") by {
      assert ">>"[0] != " "[0];
    }
  }

  /** The cell in row `r` and column `c` of a grid, if there is one. */
  function CellAt(g: Grid, r: int, c: int): Option<Cell> {
    if 0 <= r < |g| && 0 <= c < |g[r]| then Some(g[r][c]) else None
  }

  /**
   * Day `d` of the month sits in row `(lead + d - 1) / 7` and column
   * `(lead + d - 1) % 7` of the day rows; it is disabled exactly when the
   * month is the current one and `d` is before today.
   */
  lemma KeyboardDays(y: int, m: int, today: Date, d: int)
    requires 0 <= m < 12 && 1 <= d <= DaysInMonth(FullYear(y), m)
    ensures var i := Lead(y, m) + d - 1;
            CellAt(Keyboard(y, m, today), 2 + i / 7, i % 7)
              == Some(if IsCurrentMonth(y, m, today) && d < today.day then DayDisabled(d) else DaySelectable(d))
  {
    var lead := Lead(y, m);
    var i := lead + d - 1;
    DayGridShape(y, m, today);
    assert DayGrid(y, m, today)[i] == DayCell(y, m, today, d) by {
      assert DayGrid(y, m, today)[i] == DayCells(y, m, today)[d - 1];
    }
    assert CellAt(Keyboard(y, m, today), 2 + i / 7, i % 7) == Some(DayGrid(y, m, today)[i]) by {
      KeyboardRows(y, m, today);
    }
  }

  /** Every other cell of the day rows is blank. */
  lemma KeyboardBlanks(y: int, m: int, today: Date, i: int)
    requires 0 <= m < 12 && 0 <= i < |DayGrid(y, m, today)|
    requires !(Lead(y, m) <= i < Lead(y, m) + DaysInMonth(FullYear(y), m))
    ensures CellAt(Keyboard(y, m, today), 2 + i / 7, i % 7) == Some(Blank)
  {
    DayGridCells(y, m, today);
    KeyboardRows(y, m, today);
    assert CellAt(Keyboard(y, m, today), 2 + i / 7, i % 7) == Some(DayGrid(y, m, today)[i]);
  }

  lemma ModAdd(a: int, b: int)
    ensures (a % 7 + b) % 7 == (a + b) % 7
  {
    ModShift(a % 7 + b, a / 7);
    assert a % 7 + b + 7 * (a / 7) == a + b;
  }

  /** Day `d` is drawn in the column of its own weekday, Monday first. */
  lemma DayColumn(y: int, m: int, d: int)
    requires 0 <= m < 12 && 1 <= d <= DaysInMonth(FullYear(y), m)
    ensures (Lead(y, m) + d - 1) % 7 == LeadingBlanks(Weekday(DayNumber(Date(FullYear(y), m, d))))
  {
    var f := FirstDayNumber(FullYear(y), m);
    var w := Weekday(f);
    var v := Weekday(DayNumber(Date(FullYear(y), m, d)));
    assert v == (f + d + 3) % 7;
    assert Lead(y, m) + d - 1 == (w + 6) % 7 + d - 1;
    assert (Lead(y, m) + d - 1) % 7 == (f + d + 9) % 7 by {
      ModAdd(w + 6, d - 1);
      ModAdd(f + 4, d + 5);
    }
    assert LeadingBlanks(v) == (f + d + 9) % 7 by {
      assert LeadingBlanks(v) == (v + 6) % 7;
      ModAdd(f + d + 3, 6);
    }
  }

  /**
   * Pressing a navigation control the keyboard shows keeps the displayed
   * month between the current month and thirteen months ahead.
   */
  lemma NavigationStaysInRange(y: int, m: int, today: Date, direction: Direction)
    requires 0 <= m < 12 && 0 <= today.month < 12
    requires 0 <= MonthIndex(y, m) - MonthIndex(today.year, today.month) <= 13
    requires direction == Prev ==> HeaderRow(y, m, today)[0] == NavPrev
    requires direction == Next ==> HeaderRow(y, m, today)[2] == NavNext
    ensures 0 <= MonthIndex(y, m) + (if direction == Next then 1 else -1) - MonthIndex(today.year, today.month) <= 13
  {
    if direction == Prev && MonthIndex(y, m) == MonthIndex(today.year, today.month) {
      MonthIndexInjective(y, m, today.year, today.month);
    }
  }

  /** A month is determined by its index. */
  lemma MonthIndexInjective(y1: int, m1: int, y2: int, m2: int)
    requires 0 <= m1 < 12 && 0 <= m2 < 12
    requires MonthIndex(y1, m1) == MonthIndex(y2, m2)
    ensures y1 == y2 && m1 == m2
  {
  }

  /** February 2024 seen on 2024-02-10: it starts on a Thursday; days 1-9 are disabled, 10-29 selectable. */
  lemma February2024(d: int)
    requires 1 <= d <= 29
    ensures DaysInMonth(2024, 1) == 29 && Lead(2024, 1) == 3
    ensures DayGrid(2024, 1, Date(2024, 1, 10))[3 + d - 1]
      == if d < 10 then DayDisabled(d) else DaySelectable(d)
  {
    assert FirstDayNumber(2024, 1) == 19754;
    assert DayGrid(2024, 1, Date(2024, 1, 10))[3 + d - 1] == DayCells(2024, 1, Date(2024, 1, 10))[d - 1];
  }

  // ---------------------------------------------------------------------
  // The steps of `generateInlineKeyboard`

  /** A new keyboard with the header row and the row of day names. */
  method StartKeyboard(prev: Cell, title: Cell, next: Cell) returns (kb: Builder)
    ensures kb == Laid([[prev, title, next], WeekdayRow()], [])
  {
    kb := Builder([], []);
    kb := Text(kb, prev);
    kb := Text(kb, title);
    kb := Text(kb, next);
    assert kb.last == [prev, title, next];
    kb := Row(kb);
    for k := 0 to 7
      invariant kb.closed == [[prev, title, next]] && kb.last == WeekdayRow()[..k]
    {
      assert WeekdayRow()[k] == Label(DayNames[k]);
      assert WeekdayRow()[..k + 1] == WeekdayRow()[..k] + [WeekdayRow()[k]];
      kb := Text(kb, Label(DayNames[k]));
    }
    kb := Row(kb);
    assert WeekdayRow()[..7] == WeekdayRow();
    LaidShort([[prev, title, next], WeekdayRow()], []);
  }

  /** `n` blanks before day 1. */
  method LayOutLeadingBlanks(kb0: Builder, ghost top: Grid, n: int) returns (kb: Builder)
    requires kb0 == Laid(top, [])
    requires 0 <= n < 7
    ensures kb == Laid(top, Blanks(n))
  {
    LaidShort(top, []);
    kb := kb0;
    for i := 0 to n
      invariant kb == Builder(top, Blanks(i))
    {
      assert Blanks(i) + [Blank] == Blanks(i + 1);
      kb := Text(kb, Blank);
    }
    LaidShort(top, Blanks(n));
  }

  /** One cell of the day grid: its button, and a new row when it is the seventh of its row. */
  method PutCell(kb0: Builder, ghost top: Grid, ghost c: seq<Cell>, cell: Cell, dayIndex0: int)
    returns (kb: Builder, dayIndex: int)
    requires kb0 == Laid(top, c) && dayIndex0 == |c|
    ensures kb == Laid(top, c + [cell]) && dayIndex == dayIndex0 + 1
  {
    EmitCell(top, c, cell);
    kb := Text(kb0, cell);
    dayIndex := dayIndex0 + 1;
    if dayIndex % 7 == 0 {
      kb := Row(kb);
    }
  }

  /** The days of the month after `lead` blanks, a new row after every seventh cell. */
  method LayOutDays(kb0: Builder, ghost top: Grid, y: int, m: int, today: Date,
                    isCurrentMonth: bool, lead: int, daysInMonth: int) returns (kb: Builder)
    requires 0 <= m < 12 && 0 <= lead && daysInMonth == DaysInMonth(FullYear(y), m)
    requires isCurrentMonth == IsCurrentMonth(y, m, today)
    requires kb0 == Laid(top, Blanks(lead))
    ensures kb == Laid(top, Blanks(lead) + DayCells(y, m, today))
  {
    kb := kb0;
    ghost var days := DayCells(y, m, today);
    ghost var emitted := Blanks(lead);
    var dayIndex := lead;
    for day := 1 to daysInMonth + 1
      invariant dayIndex == |emitted| == lead + day - 1
      invariant emitted == Blanks(lead) + days[..day - 1]
      invariant kb == Laid(top, emitted)
    {
      var cell := if isCurrentMonth && day < today.day then DayDisabled(day) else DaySelectable(day);
      assert emitted + [cell] == Blanks(lead) + days[..day] by {
        assert days[..day] == days[..day - 1] + [cell];
      }
      kb, dayIndex := PutCell(kb, top, emitted, cell, dayIndex);
      emitted := emitted + [cell];
    }
    assert days[..daysInMonth] == days;
  }

  /** `k` blanks appended to the last row, with no new row opened. */
  method LayOutTrailingBlanks(kb0: Builder, ghost top: Grid, ghost c: seq<Cell>, k: int) returns (kb: Builder)
    requires kb0 == Laid(top, c)
    requires 0 <= k
    ensures kb == Padded(top, c, k)
  {
    kb := kb0;
    assert kb == Padded(top, c, 0);
    for i := 0 to k
      invariant kb == Padded(top, c, i)
    {
      EmitBlank(top, c, i);
      kb := Text(kb, Blank);
    }
  }

  // ---------------------------------------------------------------------
  // The calendar object

  class Calendar {
    var currentYear: int
    var currentMonth: int
    var selectedDate: Option<JsDate>

    ghost predicate Valid()
      reads this
    {
      0 <= currentMonth < 12 && (selectedDate.Some? && selectedDate.value.Day? ==> ValidDate(selectedDate.value.date))
    }

    /** A calendar showing today's month, with nothing selected. */
    constructor (today: Date)
      requires ValidDate(today)
      ensures Valid()
      ensures currentYear == today.year && currentMonth == today.month && selectedDate == None
    {
      currentYear := today.year;
      currentMonth := today.month;
      selectedDate := None;
    }

    /**
     * `new Date(year, month + 1, 0).getDate()`: the last day of the month,
     * of year 1900 + `year` when `year` is from 0 to 99.
     */
    static method GetDaysInMonth(year: int, month: int) returns (n: int)
      requires 0 <= month < 12
      ensures n == DaysInMonth(FullYear(year), month)
    {
      var last := NewDate(year, month + 1, 0);
      n := last.day;
      ghost var y := FullYear(year);
      assert DayNumber(last) == DayNumber(Date(y, month, DaysInMonth(y, month))) by {
        MonthStep(y, month);
        if month == 11 {
          assert (month + 1) / 12 == 1 && (month + 1) % 12 == 0;
        } else {
          assert (month + 1) / 12 == 0 && (month + 1) % 12 == month + 1;
        }
      }
      DayNumberInjective(last, Date(y, month, DaysInMonth(y, month)));
    }

    /** `new Date(year, month, 1).getDay()`: the weekday of the first, Sunday = 0 (years 0 to 99 read as 1900 to 1999). */
    static method GetFirstDayOfWeek(year: int, month: int) returns (w: int)
      requires 0 <= month < 12
      ensures 0 <= w < 7
      ensures w == SakamotoWeekday(FullYear(year), month + 1, 1)
      ensures w == Weekday(FirstDayNumber(FullYear(year), month))
    {
      var first := NewDate(year, month, 1);
      w := Weekday(DayNumber(first));
      WeekdayAgreesWithSakamoto(first);
    }

    /** The keyboard for the displayed month as seen on `today`. */
    method GenerateInlineKeyboard(today: Date) returns (keyboard: Grid)
      requires Valid()
      ensures keyboard == Keyboard(currentYear, currentMonth, today)
    {
      var year, month := currentYear, currentMonth;
      var daysInMonth := GetDaysInMonth(year, month);
      var firstDayOfWeek := GetFirstDayOfWeek(year, month);

      var isCurrentMonth := year == today.year && month == today.month;
      var isBeyondOneYear := (year - today.year) * 12 + (month - today.month) > 12;

      // Month/year row with the previous and next controls, then the day names
      var kb := StartKeyboard(
        if isCurrentMonth then Blank else NavPrev,
        Label(MonthNames[month] + " " + IntToString(year)),
        if isBeyondOneYear then Blank else NavNext);
      ghost var top := [HeaderRow(year, month, today), WeekdayRow()];
      assert kb == Laid(top, []);

      // Leading blanks, then the days, a new row after every seventh cell
      var dayIndex := if firstDayOfWeek == 0 then 6 else firstDayOfWeek - 1;
      assert dayIndex == Lead(year, month);
      kb := LayOutLeadingBlanks(kb, top, dayIndex);
      kb := LayOutDays(kb, top, year, month, today, isCurrentMonth, dayIndex, daysInMonth);
      dayIndex := dayIndex + daysInMonth;
      ghost var emitted := Blanks(Lead(year, month)) + DayCells(year, month, today);
      KeyboardFromBuilder(year, month, today, dayIndex);

      // Trailing blanks completing the last row
      if dayIndex % 7 != 0 {
        var remainingEmptyCells := 7 - dayIndex % 7;
        kb := LayOutTrailingBlanks(kb, top, emitted, remainingEmptyCells);
        assert Markup(kb) == Keyboard(year, month, today);
      } else {
        assert Markup(kb) == Keyboard(year, month, today);
      }
      keyboard := Markup(kb);
    }

    /** One month back or forward; the year moves only when the month wraps. */
    method ChangeMonth(direction: Direction)
      requires Valid()
      modifies this
      ensures Valid()
      ensures selectedDate == old(selectedDate)
      ensures MonthIndex(currentYear, currentMonth)
        == old(MonthIndex(currentYear, currentMonth)) + (if direction == Next then 1 else -1)
      ensures currentYear == old(currentYear) +
        (if direction == Prev && old(currentMonth) == 0 then -1
         else if direction == Next && old(currentMonth) == 11 then 1
         else 0)
    {
      if direction == Prev {
        currentMonth := currentMonth - 1;
        if currentMonth < 0 {
          currentMonth := 11;
          currentYear := currentYear - 1;
        }
      } else if direction == Next {
        currentMonth := currentMonth + 1;
        if currentMonth > 11 {
          currentMonth := 0;
          currentYear := currentYear + 1;
        }
      }
    }

    /**
     * `new Date(currentYear, currentMonth, day)`: the given day of the
     * displayed month (years 0 to 99 read as 1900 to 1999), rolled into a
     * neighbouring month when out of range; a day that is not a number
     * (`None`) gives the invalid date.
     */
    method SelectDate(day: Option<int>)
      requires Valid()
      modifies this`selectedDate
      ensures Valid()
      ensures day == None ==> selectedDate == Some(InvalidDate)
      ensures day.Some? ==>
                && selectedDate.Some? && selectedDate.value.Day?
                && DayNumber(selectedDate.value.date) == FirstDayNumber(FullYear(currentYear), currentMonth) + day.value - 1
      ensures day.Some? && 1 <= day.value <= DaysInMonth(FullYear(currentYear), currentMonth) ==>
                selectedDate == Some(Day(Date(FullYear(currentYear), currentMonth, day.value)))
    {
      if day.Some? {
        var date := NewDate(currentYear, currentMonth, day.value);
        assert currentMonth / 12 == 0 && currentMonth % 12 == currentMonth;
        selectedDate := Some(Day(date));
      } else {
        selectedDate := Some(InvalidDate);
      }
    }

    /** The selection; a selected calendar day is a valid date. */
    function GetSelectedDate(): (r: Option<JsDate>)
      reads this
      requires Valid()
      ensures r.Some? && r.value.Day? ==> ValidDate(r.value.date)
    {
      selectedDate
    }
  }

  // ---------------------------------------------------------------------
  // Uses of the calendar object

  /** Stepping one month and back restores the displayed month and keeps the selection. */
  method ChangeMonthAndBack(calendar: Calendar, direction: Direction)
    requires calendar.Valid()
    modifies calendar
    ensures calendar.Valid()
    ensures calendar.currentYear == old(calendar.currentYear)
    ensures calendar.currentMonth == old(calendar.currentMonth)
    ensures calendar.selectedDate == old(calendar.selectedDate)
  {
    ghost var y, m := calendar.currentYear, calendar.currentMonth;
    calendar.ChangeMonth(direction);
    calendar.ChangeMonth(if direction == Prev then Next else Prev);
    MonthIndexInjective(calendar.currentYear, calendar.currentMonth, y, m);
  }

  /** Nothing is selected until a day is chosen; then that day of the displayed month is. */
  method SelectionLifecycle(today: Date, day: int) returns (before: Option<JsDate>, after: Option<JsDate>)
    requires ValidDate(today) && 1 <= day <= DaysInMonth(FullYear(today.year), today.month)
    ensures before == None
    ensures after == Some(Day(Date(FullYear(today.year), today.month, day)))
  {
    var calendar := new Calendar(today);
    before := calendar.GetSelectedDate();
    calendar.SelectDate(Some(day));
    after := calendar.GetSelectedDate();
  }

  /** December 2024 is followed by January 2025, which is preceded by December 2024. */
  method DecemberWraps() returns (next: (int, int), back: (int, int))
    ensures next == (2025, 0) && back == (2024, 11)
  {
    var calendar := new Calendar(Date(2024, 11, 1));
    calendar.ChangeMonth(Next);
    next := (calendar.currentYear, calendar.currentMonth);
    calendar.ChangeMonth(Prev);
    back := (calendar.currentYear, calendar.currentMonth);
  }
}
