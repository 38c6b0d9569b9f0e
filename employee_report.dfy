/**
 * The per-employee PDF report: hours per record and per day, and the table body
 * (a Spanish header row and one row per report date) handed to the PDF library.
 */
module EmployeeReport {
  import opened Options
  import opened Clock
  import opened Seqs
  import TimeSheetPage

  /** One record of the `hours` prop; a time is `None` when it is absent or empty,
      an hour field when it is absent or `null`. */
  datatype HourRecord = HourRecord(
    date: string,
    entryTime: Option<Minute>,
    exitTime: Option<Minute>,
    overtimeHours: Option<real>,
    sickLeaveHours: Option<real>,
    vacationHours: Option<real>,
    holidayHours: Option<real>,
    otherHours: Option<real>)

  /** The `hours` prop: an array, a plain object (whose values are records), or
      `null`/`undefined`. */
  datatype Hours = ArrayOf(items: seq<HourRecord>) | ObjectOf(entries: seq<HourRecord>) | Missing

  /** A cell of the table body. */
  datatype Cell = Text(s: string) | Clock(at: Minute) | Amount(x: real)

  /** `{}`: the record used when no record matches a date. */
  function NoRecord(date: string): HourRecord
  {
    HourRecord(date, None, None, None, None, None, None, None)
  }

  /** `Object.values(hours || {})`. */
  function Values(hours: Hours): seq<HourRecord>
  {
    match hours
    case ArrayOf(items) => items
    case ObjectOf(entries) => entries
    case Missing => []
  }

  /** `Array.isArray(hours) ? hours : []`. */
  function AsArray(hours: Hours): seq<HourRecord>
  {
    if hours.ArrayOf? then hours.items else []
  }

  /** `x || 0` on an hour field. */
  function OrZero(v: Option<real>): real
  {
    if v.Some? then v.value else 0.0
  }

  /** Worked hours of a record: exit minus entry on the same day, with no overnight
      correction, or 0 when either time is missing. */
  function WorkHours(r: HourRecord): (h: real)
    ensures r.entryTime.None? || r.exitTime.None? ==> h == 0.0
    ensures r.entryTime.Some? && r.exitTime.Some? ==>
              h * 60.0 == (r.exitTime.value - r.entryTime.value) as real
    ensures h < 0.0 <==> r.entryTime.Some? && r.exitTime.Some? && r.exitTime.value < r.entryTime.value
  {
    if r.exitTime.Some? && r.entryTime.Some? then HoursBetween(r.entryTime.value, r.exitTime.value) else 0.0
  }

  /** The amount one record adds to a total: worked hours plus the five hour fields. */
  function RecordHours(r: HourRecord): real
  {
    WorkHours(r) + OrZero(r.overtimeHours) + OrZero(r.sickLeaveHours) +
    OrZero(r.vacationHours) + OrZero(r.holidayHours) + OrZero(r.otherHours)
  }

  /** The total of a list of records, added front to back. */
  function TotalOf(xs: seq<HourRecord>): real
    decreases |xs|
  {
    if xs == [] then 0.0 else TotalOf(xs[..|xs| - 1]) + RecordHours(xs[|xs| - 1])
  }

  /** The records of `xs` dated `day`, in order. */
  function OnDay(xs: seq<HourRecord>, day: string): seq<HourRecord>
  {
    Filter(xs, (r: HourRecord) => r.date == day)
  }

  /** The `forEach` that adds up `total` over a list of records. */
  method AddUp(xs: seq<HourRecord>) returns (total: real)
    ensures total == TotalOf(xs)
  {
    total := 0.0;
    var i := 0;
    while i < |xs|
      invariant 0 <= i <= |xs|
      invariant total == TotalOf(xs[..i])
    {
      assert xs[..i + 1][..i] == xs[..i];
      total := total + RecordHours(xs[i]);
      i := i + 1;
    }
    assert xs[..i] == xs;
  }

  /** `calculateTotalHours(reportDate)`: the total over every record; the date
      argument is not used. */
  method CalculateTotalHours(hours: Hours, reportDate: string) returns (total: real)
    ensures total == TotalOf(Values(hours))
  {
    total := AddUp(Values(hours));
  }

  /** `calculateTotalHoursDay(day)`: the total over the records dated `day`. */
  method CalculateTotalHoursDay(hours: Hours, day: string) returns (total: real)
    ensures total == TotalOf(OnDay(Values(hours), day))
  {
    var hoursData := OnDay(Values(hours), day);
    total := AddUp(hoursData);
  }

  /** The header row of the body. */
  function Header(): seq<Cell>
  {
    [Text("Fecha"), Text("Hora de Inicio"), Text("Hora de Finalización"), Text("Horas Extra"),
     Text("Enfermedad"), Text("Vacaciones"), Text("Días Festivos"), Text("Otro"), Text("Total de Horas")]
  }

  /** `time || "N/A"`. */
  function TimeCell(t: Option<Minute>): Cell
  {
    if t.Some? then Clock(t.value) else Text("N/A")
  }

  /** The record whose cells are shown for `date`: the first array record with that
      date, or `{}`. */
  function Shown(hours: Hours, date: string): HourRecord
  {
    var matches := OnDay(AsArray(hours), date);
    if |matches| > 0 then matches[0] else NoRecord(date)
  }

  /** The seven middle cells of a row show record `m`: its times, or "N/A" when
      missing, and its five hour fields, or 0 when missing. */
  predicate Displays(row: seq<Cell>, m: HourRecord)
    requires |row| == 9
  {
    && row[1] == (if m.entryTime.Some? then Clock(m.entryTime.value) else Text("N/A"))
    && row[2] == (if m.exitTime.Some? then Clock(m.exitTime.value) else Text("N/A"))
    && row[3..8] == [Amount(OrZero(m.overtimeHours)), Amount(OrZero(m.sickLeaveHours)),
                     Amount(OrZero(m.vacationHours)), Amount(OrZero(m.holidayHours)),
                     Amount(OrZero(m.otherHours))]
  }

  /** The cells of a row that shows date `date`, record `m` and total `total`. */
  function Cells(date: string, m: HourRecord, total: real): (row: seq<Cell>)
    ensures |row| == 9 && row[0] == Text(date) && row[8] == Amount(total)
    ensures Displays(row, m)
  {
    [Text(date), TimeCell(m.entryTime), TimeCell(m.exitTime),
     Amount(OrZero(m.overtimeHours)), Amount(OrZero(m.sickLeaveHours)), Amount(OrZero(m.vacationHours)),
     Amount(OrZero(m.holidayHours)), Amount(OrZero(m.otherHours)), Amount(total)]
  }

  /** The row of one report date: the date, the cells of the first array record
      with that date (or "N/A" and zeros when there is none), and the day total
      over every value of `hours`. */
  function Row(hours: Hours, date: string): (row: seq<Cell>)
    ensures |row| == |Header()|
    ensures row[0] == Text(date)
    ensures row[8] == Amount(TotalOf(OnDay(Values(hours), date)))
    ensures (forall i :: 0 <= i < |AsArray(hours)| ==> AsArray(hours)[i].date != date) ==>
              row[1..8] == [Text("N/A"), Text("N/A"), Amount(0.0), Amount(0.0), Amount(0.0), Amount(0.0), Amount(0.0)]
    ensures forall i :: 0 <= i < |AsArray(hours)| && AsArray(hours)[i].date == date &&
                        (forall j :: 0 <= j < i ==> AsArray(hours)[j].date != date) ==>
              Displays(row, AsArray(hours)[i])
  {
    ShownIsFirstMatch(hours, date);
    Cells(date, Shown(hours, date), TotalOf(OnDay(Values(hours), date)))
  }

  /** The header followed by one row per report date. */
  function Body(hours: Hours, reportDates: seq<string>): seq<seq<Cell>>
  {
    [Header()] + seq(|reportDates|, i requires 0 <= i < |reportDates| => Row(hours, reportDates[i]))
  }

  /** `generatePDF`'s table body: `None` when there are no report dates (nothing is
      generated), otherwise the header and one row per date in order. */
  method GeneratePdfBody(hours: Hours, reportDates: Option<seq<string>>) returns (body: Option<seq<seq<Cell>>>)
    ensures reportDates.None? || reportDates.value == [] <==> body.None?
    ensures body.Some? ==> body.value == Body(hours, reportDates.value)
  {
    if reportDates.None? || |reportDates.value| == 0 {
      return None;
    }
    var dates := reportDates.value;
    var employeeHours := AsArray(hours);
    var rows := [Header()];
    var i := 0;
    while i < |dates|
      invariant 0 <= i <= |dates|
      invariant rows == Body(hours, dates[..i])
    {
      var row := RowFor(hours, employeeHours, dates[i]);
      BodyAppend(hours, dates, i);
      rows := rows + [row];
      i := i + 1;
    }
    assert dates[..i] == dates;
    return Some(rows);
  }

  /** Pushing the row of the next date extends the body by that row. */
  lemma BodyAppend(hours: Hours, dates: seq<string>, i: nat)
    requires i < |dates|
    ensures Body(hours, dates[..i + 1]) == Body(hours, dates[..i]) + [Row(hours, dates[i])]
  {
    var b, b' := Body(hours, dates[..i]), Body(hours, dates[..i + 1]);
    assert |b'| == |b| + 1;
    forall k | 0 <= k < |b'| ensures b'[k] == (b + [Row(hours, dates[i])])[k] {
      if 0 < k < |b| { assert dates[..i + 1][k - 1] == dates[..i][k - 1]; }
    }
  }

  /** One `forEach` iteration of `generatePDF`: pick the first matching record and
      build its row. */
  method RowFor(hours: Hours, employeeHours: seq<HourRecord>, reportDate: string) returns (row: seq<Cell>)
    requires employeeHours == AsArray(hours)
    ensures row == Row(hours, reportDate)
  {
    var filteredHours := OnDay(employeeHours, reportDate);
    var m := if |filteredHours| > 0 then filteredHours[0] else NoRecord(reportDate);
    var totalHours := CalculateTotalHoursDay(hours, reportDate);
    row := [Text(reportDate), TimeCell(m.entryTime), TimeCell(m.exitTime),
            Amount(OrZero(m.overtimeHours)), Amount(OrZero(m.sickLeaveHours)), Amount(OrZero(m.vacationHours)),
            Amount(OrZero(m.holidayHours)), Amount(OrZero(m.otherHours)), Amount(totalHours)];
  }

  /** Totals add over concatenation. */
  lemma {:induction false} TotalOfConcat(a: seq<HourRecord>, b: seq<HourRecord>)
    ensures TotalOf(a + b) == TotalOf(a) + TotalOf(b)
    decreases |b|
  {
    if b == [] {
      assert a + b == a;
    } else {
      var n := |b| - 1;
      assert (a + b)[..|a + b| - 1] == a + b[..n];
      TotalOfConcat(a, b[..n]);
    }
  }

  /** A record added to the list adds its hours to its own day's total, however
      many records that day already has, and leaves the other days alone. */
  lemma DayTotalAppend(xs: seq<HourRecord>, r: HourRecord, day: string)
    ensures TotalOf(OnDay(xs + [r], day)) ==
            TotalOf(OnDay(xs, day)) + (if r.date == day then RecordHours(r) else 0.0)
  {
    var p := (x: HourRecord) => x.date == day;
    FilterConcat(xs, [r], p);
    TotalOfConcat(OnDay(xs, day), OnDay([r], day));
    assert [r][1..] == [];
    if r.date == day {
      assert OnDay([r], day) == [r];
      assert TotalOf([r]) == TotalOf([r][..0]) + RecordHours(r);
    } else {
      assert OnDay([r], day) == [];
    }
  }

  /** When every record has the same day, that day's total is the whole total. */
  lemma {:induction false} DayTotalAllSameDay(xs: seq<HourRecord>, day: string)
    requires forall i :: 0 <= i < |xs| ==> xs[i].date == day
    ensures TotalOf(OnDay(xs, day)) == TotalOf(xs)
  {
    FilterAllPass(xs, (x: HourRecord) => x.date == day);
  }

  /** A day that no record has totals 0. */
  lemma DayTotalAbsent(xs: seq<HourRecord>, day: string)
    requires forall i :: 0 <= i < |xs| ==> xs[i].date != day
    ensures TotalOf(OnDay(xs, day)) == 0.0
  {
    FilterNonePass(xs, (x: HourRecord) => x.date == day);
  }

  /** The shown cells come from the lowest-indexed array record with that date, and
      from `{}` when there is none. */
  lemma ShownIsFirstMatch(hours: Hours, date: string)
    ensures var xs := AsArray(hours);
            (forall i :: 0 <= i < |xs| ==> xs[i].date != date) ==> Shown(hours, date) == NoRecord(date)
    ensures var xs := AsArray(hours);
            forall i :: 0 <= i < |xs| && xs[i].date == date && (forall j :: 0 <= j < i ==> xs[j].date != date) ==>
              Shown(hours, date) == xs[i]
  {
    var xs := AsArray(hours);
    var p := (x: HourRecord) => x.date == date;
    FilterEmptyIff(xs, p);
    if OnDay(xs, date) != [] {
      FilterHead(xs, p);
      var k :| 0 <= k < |xs| && xs[k] == OnDay(xs, date)[0] && p(xs[k]) && forall j :: 0 <= j < k ==> !p(xs[j]);
      forall i | 0 <= i < |xs| && xs[i].date == date && (forall j :: 0 <= j < i ==> xs[j].date != date)
        ensures Shown(hours, date) == xs[i]
      {
        assert i == k;
      }
    }
  }

  /** When `hours` is not an array every row shows "N/A" times and zero hour
      fields; only its total comes from the object's values. */
  lemma NonArrayRows(hours: Hours, date: string)
    requires !hours.ArrayOf?
    ensures Row(hours, date)[1..8] ==
            [Text("N/A"), Text("N/A"), Amount(0.0), Amount(0.0), Amount(0.0), Amount(0.0), Amount(0.0)]
    ensures Row(hours, date)[8] == Amount(TotalOf(OnDay(Values(hours), date)))
  {
  }

  /** The body has the header and one nine-cell row per date, row `i + 1` starting
      with date `i`. */
  lemma BodyShape(hours: Hours, reportDates: seq<string>)
    ensures |Body(hours, reportDates)| == |reportDates| + 1
    ensures Body(hours, reportDates)[0] == Header() && |Header()| == 9
    ensures forall i :: 1 <= i <= |reportDates| ==>
              |Body(hours, reportDates)[i]| == 9 && Body(hours, reportDates)[i][0] == Text(reportDates[i - 1])
  {
  }

  /** The report's worked hours are the time sheet's minus the overnight day: the
      two agree when the exit is not earlier than the entry and differ by 24
      otherwise. */
  lemma WrapDiffers(r: HourRecord)
    requires r.entryTime.Some? && r.exitTime.Some?
    ensures var sheet := TimeSheetPage.CalculateHours(TimeSheetPage.Time(r.entryTime.value), TimeSheetPage.Time(r.exitTime.value));
            WorkHours(r) == (if r.exitTime.value < r.entryTime.value then sheet - 24.0 else sheet)
  {
  }
}
