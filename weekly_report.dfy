/**
 * The weekly report: per-employee totals of seven daily hour figures, pay at the
 * employee's rate, the seven days of the week shown, and the table's header and
 * rows.
 */
module WeeklyReport {
  import opened Seqs

  datatype Employee = Employee(id: string, name: string, rate: real)

  /** A cell of the desktop table. */
  datatype Cell = Label(s: string) | DayLabel(day: int) | HoursCell(h: real) | Money(x: real)

  /** The six employees the page starts with, all at 15 per hour. */
  function InitialEmployees(): (es: seq<Employee>)
    ensures |es| == 6 && forall i :: 0 <= i < |es| ==> es[i].rate == 15.0
  {
    [Employee("1001", "ISAAC", 15.0), Employee("1002", "ERLINDA", 15.0), Employee("1003", "JOSE", 15.0),
     Employee("1004", "MILAGROS", 15.0), Employee("1005", "DAVID", 15.0), Employee("1006", "HUGO", 15.0)]
  }

  /** `hours.reduce((sum, hour) => sum + hour, acc)`. */
  function Reduce(acc: real, hours: seq<real>): real
    decreases |hours|
  {
    if hours == [] then acc else Reduce(acc + hours[0], hours[1..])
  }

  /** `calculateTotalHours(hours)`. */
  function CalculateTotalHours(hours: seq<real>): (total: real)
    ensures hours == [] ==> total == 0.0
  {
    Reduce(0.0, hours)
  }

  /** `calculateTotalPay(hours, rate)`: the week's hours, all at the one rate. */
  function CalculateTotalPay(hours: seq<real>, rate: real): (pay: real)
    ensures pay == Sum(hours) * rate
  {
    TotalIsSum(hours);
    CalculateTotalHours(hours) * rate
  }

  /** `weeklyHours[employee.id] || Array(7).fill(0)`: an employee without an entry
      gets seven zeros (an array, even an empty one, is truthy). */
  function HoursFor(weeklyHours: map<string, seq<real>>, id: string): (hours: seq<real>)
    ensures id in weeklyHours ==> hours == weeklyHours[id]
    ensures id !in weeklyHours ==> hours == [0.0, 0.0, 0.0, 0.0, 0.0, 0.0, 0.0]
  {
    if id in weeklyHours then weeklyHours[id] else seq(7, _ => 0.0)
  }

  /** `renderWeekDays()`: the seven days from the start of the week, in order. */
  method RenderWeekDays(weekStart: int) returns (days: seq<int>)
    ensures |days| == 7
    ensures forall i :: 0 <= i < 7 ==> days[i] == weekStart + i
  {
    days := [];
    var i := 0;
    while i < 7
      invariant 0 <= i <= 7
      invariant |days| == i
      invariant forall k :: 0 <= k < i ==> days[k] == weekStart + k
    {
      days := days + [weekStart + i];
      i := i + 1;
    }
  }

  /** The header row: the employee column, the seven days, then three totals. */
  function Header(days: seq<int>): (cells: seq<Cell>)
    ensures |cells| == 1 + |days| + 3
    ensures cells[0] == Label("Empleado")
    ensures forall i :: 0 <= i < |days| ==> cells[1 + i] == DayLabel(days[i])
    ensures cells[|days| + 1..] == [Label("Total Horas"), Label("Tarifa por Hora"), Label("Total a Pagar")]
  {
    [Label("Empleado")] + seq(|days|, i requires 0 <= i < |days| => DayLabel(days[i])) +
    [Label("Total Horas"), Label("Tarifa por Hora"), Label("Total a Pagar")]
  }

  /** The row of one employee: name, one cell per hour figure, total, rate, pay. */
  function Row(weeklyHours: map<string, seq<real>>, e: Employee): (cells: seq<Cell>)
    ensures var hours := HoursFor(weeklyHours, e.id);
            && |cells| == |hours| + 4
            && cells[0] == Label(e.name)
            && (forall i :: 0 <= i < |hours| ==> cells[1 + i] == HoursCell(hours[i]))
            && cells[|hours| + 1] == HoursCell(CalculateTotalHours(hours))
            && cells[|hours| + 2] == Money(e.rate)
            && cells[|hours| + 3] == Money(CalculateTotalHours(hours) * e.rate)
  {
    var hours := HoursFor(weeklyHours, e.id);
    [Label(e.name)] + seq(|hours|, i requires 0 <= i < |hours| => HoursCell(hours[i])) +
    [HoursCell(CalculateTotalHours(hours)), Money(e.rate), Money(CalculateTotalPay(hours, e.rate))]
  }

  /** The fold adds its start value to the total of the list. */
  lemma {:induction false} ReduceShift(acc: real, hours: seq<real>)
    ensures Reduce(acc, hours) == acc + Reduce(0.0, hours)
    decreases |hours|
  {
    if hours != [] {
      ReduceShift(acc + hours[0], hours[1..]);
      ReduceShift(hours[0], hours[1..]);
    }
  }

  /** The left fold agrees with the sum added from the back. */
  lemma {:induction false} TotalIsSum(hours: seq<real>)
    ensures CalculateTotalHours(hours) == Sum(hours)
    decreases |hours|
  {
    if hours != [] {
      var n := |hours| - 1;
      TotalIsSum(hours[..n]);
      TotalConcat(hours[..n], [hours[n]]);
      assert hours[..n] + [hours[n]] == hours;
      assert [hours[n]][1..] == [];
      assert CalculateTotalHours([hours[n]]) == Reduce(0.0 + hours[n], []);
    }
  }

  /** Totals add over concatenation: the hours of a fortnight are the hours of its
      two weeks. */
  lemma {:induction false} TotalConcat(a: seq<real>, b: seq<real>)
    ensures CalculateTotalHours(a + b) == CalculateTotalHours(a) + CalculateTotalHours(b)
    decreases |a|
  {
    if a == [] {
      assert a + b == b;
    } else {
      assert (a + b)[1..] == a[1..] + b;
      ReduceShift(a[0], a[1..] + b);
      ReduceShift(a[0], a[1..]);
      TotalConcat(a[1..], b);
    }
  }

  /** Pay adds over concatenation, at a fixed rate. */
  lemma PayConcat(a: seq<real>, b: seq<real>, rate: real)
    ensures CalculateTotalPay(a + b, rate) == CalculateTotalPay(a, rate) + CalculateTotalPay(b, rate)
  {
    TotalConcat(a, b);
  }

  /** Hours that are all non-negative total to a non-negative figure no smaller than
      any single day. */
  lemma {:induction false} TotalBounds(hours: seq<real>)
    requires forall i :: 0 <= i < |hours| ==> hours[i] >= 0.0
    ensures CalculateTotalHours(hours) >= 0.0
    ensures forall i :: 0 <= i < |hours| ==> hours[i] <= CalculateTotalHours(hours)
    decreases |hours|
  {
    if hours != [] {
      TotalBounds(hours[1..]);
      ReduceShift(hours[0], hours[1..]);
      forall i | 0 <= i < |hours| ensures hours[i] <= CalculateTotalHours(hours) {
        if i > 0 { assert hours[i] == hours[1..][i - 1]; }
      }
    }
  }

  /** Zero hours every day total 0. */
  lemma {:induction false} TotalZero(hours: seq<real>)
    requires forall i :: 0 <= i < |hours| ==> hours[i] == 0.0
    ensures CalculateTotalHours(hours) == 0.0
    decreases |hours|
  {
    if hours != [] {
      TotalZero(hours[1..]);
      ReduceShift(hours[0], hours[1..]);
    }
  }

  /** An employee without hours shows a total of 0 and a pay of 0. */
  lemma MissingEmployeeZero(weeklyHours: map<string, seq<real>>, e: Employee)
    requires e.id !in weeklyHours
    ensures CalculateTotalHours(HoursFor(weeklyHours, e.id)) == 0.0
    ensures CalculateTotalPay(HoursFor(weeklyHours, e.id), e.rate) == 0.0
    ensures |Row(weeklyHours, e)| == 11
  {
    TotalZero(HoursFor(weeklyHours, e.id));
  }

  /** With a week's seven figures, the header and every row have 11 cells. */
  lemma TableWidth(weeklyHours: map<string, seq<real>>, e: Employee, days: seq<int>)
    requires |days| == 7
    requires |HoursFor(weeklyHours, e.id)| == 7
    ensures |Header(days)| == 11 && |Row(weeklyHours, e)| == 11
  {
  }
}
