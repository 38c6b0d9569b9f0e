/**
 * The time-sheet screen: a table date -> employee -> entry that the inputs edit
 * one field at a time, and the per-employee hour and pay totals computed from
 * it. Entry fields carry the screen's own Spanish names.
 */
module TimeSheetPage {
  import opened Clock
  import opened Options
  import opened Seqs

  /** A calendar day, as a day index (the table is keyed by its 'yyyy-MM-dd' string). */
  type Day = int
  type EmployeeId = string

  datatype Field = Entrada | Salida | HorasExtra | Enfermedad | Vacaciones | DiasFestivos | Otro

  /** What an input element's `e.target.value` holds: the empty string, an "HH:MM"
      time, a decimal string, or any other text. */
  datatype Input = Blank | Time(at: Minute) | Number(amount: real) | Text

  /** One employee's entry for one day: only the fields that were ever edited. */
  type Entry = map<Field, Input>

  /** `timeData`: date -> employee id -> entry. */
  type Table = map<Day, map<EmployeeId, Entry>>

  datatype Employee = Employee(id: EmployeeId, name: string, rate: real, overtimeRate: real)

  /** A `<MenuItem value={i}>` of the day selector, showing day `day`. */
  datatype DayOption = DayOption(value: nat, day: Day)

  /** The screen's fixed staff list: six employees at 18/h, overtime 25/h. */
  function InitialEmployees(): seq<Employee>
  {
    [ Employee("1001", "Isaac", 18.0, 25.0), Employee("1002", "Erlinda", 18.0, 25.0),
      Employee("1003", "Jose", 18.0, 25.0), Employee("1004", "Milagros", 18.0, 25.0),
      Employee("1005", "David", 18.0, 25.0), Employee("1006", "Hugo", 18.0, 25.0) ]
  }

  /** A field never edited reads as `undefined`, which every reader treats like "". */
  function Read(en: Entry, f: Field): Input
  {
    if f in en then en[f] else Blank
  }

  predicate IsTimeField(f: Field)
  {
    f == Entrada || f == Salida
  }

  /** What a `type="time"` input can hand over. */
  predicate TimeLike(v: Input)
  {
    v.Blank? || v.Time?
  }

  /** The time fields are edited only through time inputs. */
  predicate Fits(f: Field, v: Input)
  {
    IsTimeField(f) ==> TimeLike(v)
  }

  predicate EntryFits(en: Entry)
  {
    TimeLike(Read(en, Entrada)) && TimeLike(Read(en, Salida))
  }

  predicate WellFormed(t: Table)
  {
    forall d, e :: d in t && e in t[d] ==> EntryFits(t[d][e])
  }

  /** `calculateHours(entrada, salida)`: 0 when either time is missing, otherwise
      the difference, with 24 hours added when the exit is earlier (overnight). */
  function CalculateHours(entrada: Input, salida: Input): (h: real)
    requires TimeLike(entrada) && TimeLike(salida)
    ensures entrada.Blank? || salida.Blank? ==> h == 0.0
    ensures 0.0 <= h < 24.0
    ensures entrada.Time? && salida.Time? ==> h * 60.0 == ((salida.at - entrada.at) % 1440) as real
  {
    if entrada.Blank? || salida.Blank? then 0.0
    else
      var diff := HoursBetween(entrada.at, salida.at);
      if diff < 0.0 then diff + 24.0 else diff
  }

  /** `parseFloat(v) || 0`: empty or non-numeric text counts as 0; an "HH:MM"
      string parses as its hour digits. */
  function ParseHours(v: Input): real
  {
    match v
    case Blank => 0.0
    case Time(at) => (at / 60) as real
    case Number(x) => x
    case Text => 0.0
  }

  function Worked(en: Entry): real
    requires EntryFits(en)
  {
    CalculateHours(Read(en, Entrada), Read(en, Salida))
  }

  function Overtime(en: Entry): real
  {
    ParseHours(Read(en, HorasExtra))
  }

  /** Sick, vacation, holiday and other hours. */
  function Leave(en: Entry): real
  {
    ParseHours(Read(en, Enfermedad)) + ParseHours(Read(en, Vacaciones))
    + ParseHours(Read(en, DiasFestivos)) + ParseHours(Read(en, Otro))
  }

  /** The hours one entry adds to the employee's total. */
  function DayHours(en: Entry): real
    requires EntryFits(en)
  {
    Worked(en) + Overtime(en) + Leave(en)
  }

  /** The pay one entry adds: worked and leave hours at the rate, overtime at the overtime rate. */
  function DayPay(en: Entry, emp: Employee): real
    requires EntryFits(en)
  {
    Worked(en) * emp.rate + Overtime(en) * emp.overtimeRate + Leave(en) * emp.rate
  }

  predicate Covers(t: Table, dates: seq<Day>)
  {
    forall i :: 0 <= i < |dates| ==> dates[i] in t
  }

  /** What date `d` adds to the hour total of `id`: nothing when `id` has no entry that day. */
  function HoursAt(t: Table, d: Day, id: EmployeeId): real
    requires WellFormed(t) && d in t
  {
    if id in t[d] then DayHours(t[d][id]) else 0.0
  }

  function OvertimeAt(t: Table, d: Day, id: EmployeeId): real
    requires d in t
  {
    if id in t[d] then Overtime(t[d][id]) else 0.0
  }

  function PayAt(t: Table, d: Day, emp: Employee): real
    requires WellFormed(t) && d in t
  {
    if emp.id in t[d] then DayPay(t[d][emp.id], emp) else 0.0
  }

  /** Sum of `DayHours` over `dates`, in order; a date without an entry for `id` adds 0. */
  function HoursOver(t: Table, dates: seq<Day>, id: EmployeeId): real
    requires WellFormed(t) && Covers(t, dates)
    decreases |dates|
  {
    if dates == [] then 0.0
    else HoursOver(t, dates[..|dates| - 1], id) + HoursAt(t, dates[|dates| - 1], id)
  }

  /** Sum of the overtime field over `dates`. */
  function OvertimeOver(t: Table, dates: seq<Day>, id: EmployeeId): real
    requires Covers(t, dates)
    decreases |dates|
  {
    if dates == [] then 0.0
    else OvertimeOver(t, dates[..|dates| - 1], id) + OvertimeAt(t, dates[|dates| - 1], id)
  }

  /** Sum of `DayPay` over `dates`. */
  function PayOver(t: Table, dates: seq<Day>, emp: Employee): real
    requires WellFormed(t) && Covers(t, dates)
    decreases |dates|
  {
    if dates == [] then 0.0
    else PayOver(t, dates[..|dates| - 1], emp) + PayAt(t, dates[|dates| - 1], emp)
  }

  /** The per-date figures that `HoursOver`, `OvertimeOver` and `PayOver` add up. */
  function HoursDays(t: Table, dates: seq<Day>, id: EmployeeId): (r: seq<real>)
    requires WellFormed(t) && Covers(t, dates)
    ensures |r| == |dates| && forall i :: 0 <= i < |dates| ==> r[i] == HoursAt(t, dates[i], id)
  {
    seq(|dates|, i requires 0 <= i < |dates| => HoursAt(t, dates[i], id))
  }

  function OvertimeDays(t: Table, dates: seq<Day>, id: EmployeeId): (r: seq<real>)
    requires Covers(t, dates)
    ensures |r| == |dates| && forall i :: 0 <= i < |dates| ==> r[i] == OvertimeAt(t, dates[i], id)
  {
    seq(|dates|, i requires 0 <= i < |dates| => OvertimeAt(t, dates[i], id))
  }

  function PayDays(t: Table, dates: seq<Day>, emp: Employee): (r: seq<real>)
    requires WellFormed(t) && Covers(t, dates)
    ensures |r| == |dates| && forall i :: 0 <= i < |dates| ==> r[i] == PayAt(t, dates[i], emp)
  {
    seq(|dates|, i requires 0 <= i < |dates| => PayAt(t, dates[i], emp))
  }

  /** The row of date `d`, or `{}` when the date was never edited. */
  function RowOf(t: Table, d: Day): map<EmployeeId, Entry>
  {
    if d in t then t[d] else map[]
  }

  /** The entry of (`d`, `e`), or `{}`. */
  function EntryOf(t: Table, d: Day, e: EmployeeId): Entry
  {
    var row := RowOf(t, d);
    if e in row then row[e] else map[]
  }

  /** The state update of `handleTimeChange(d, e, f, v)`: `table[d][e][f] := v`,
      creating the row and the entry when absent; nothing else changes. */
  function SetField(t: Table, d: Day, e: EmployeeId, f: Field, v: Input): (r: Table)
    ensures r.Keys == t.Keys + {d}
    ensures forall d' :: d' in r && d' != d ==> r[d'] == t[d']
    ensures r[d].Keys == RowOf(t, d).Keys + {e}
    ensures forall e' :: e' in r[d] && e' != e ==> r[d][e'] == RowOf(t, d)[e']
    ensures r[d][e].Keys == EntryOf(t, d, e).Keys + {f}
    ensures r[d][e][f] == v
    ensures forall g :: g in r[d][e] && g != f ==> r[d][e][g] == EntryOf(t, d, e)[g]
    ensures WellFormed(t) && Fits(f, v) ==> WellFormed(r)
  {
    var prev := EntryOf(t, d, e);
    var en := prev[f := v];
    var r := t[d := RowOf(t, d)[e := en]];
    assert WellFormed(t) && Fits(f, v) ==> WellFormed(r) by {
      if WellFormed(t) && Fits(f, v) {
        assert EntryFits(prev);
        assert Read(en, Entrada) == if f == Entrada then v else Read(prev, Entrada);
        assert Read(en, Salida) == if f == Salida then v else Read(prev, Salida);
        forall d', e' | d' in r && e' in r[d'] ensures EntryFits(r[d'][e']) {
          if d' != d || e' != e {
            assert r[d'][e'] == t[d'][e'];
          }
        }
      }
    }
    r
  }

  /** `employees.find(emp => emp.id === id)` */
  function FindEmployee(employees: seq<Employee>, id: EmployeeId): (r: Option<Employee>)
    ensures r.None? <==> forall i :: 0 <= i < |employees| ==> employees[i].id != id
    ensures r.Some? ==> exists i :: 0 <= i < |employees| && employees[i] == r.value && r.value.id == id &&
                                    forall j :: 0 <= j < i ==> employees[j].id != id
  {
    if employees == [] then None
    else if employees[0].id == id then Some(employees[0])
    else
      var r := FindEmployee(employees[1..], id);
      assert r.Some? ==> exists i :: 1 <= i < |employees| && employees[i] == r.value &&
                                     forall j :: 0 <= j < i ==> employees[j].id != id by {
        if r.Some? {
          var i :| 0 <= i < |employees[1..]| && employees[1..][i] == r.value && r.value.id == id &&
                   forall j :: 0 <= j < i ==> employees[1..][j].id != id;
          assert employees[i + 1] == r.value;
          forall j | 0 <= j < i + 1 ensures employees[j].id != id {
            if j > 0 { assert employees[j] == employees[1..][j - 1]; }
          }
        }
      }
      assert r.None? ==> forall i :: 0 <= i < |employees| ==> employees[i].id != id by {
        if r.None? {
          forall i | 0 <= i < |employees| ensures employees[i].id != id {
            if i > 0 { assert employees[i] == employees[1..][i - 1]; }
          }
        }
      }
      r
  }

  /** `filteredEmployees`: everyone when no employee is selected, otherwise those
      whose id is the selected one, in their original order. */
  function FilteredEmployees(employees: seq<Employee>, selected: EmployeeId): (r: seq<Employee>)
    ensures selected == "" ==> r == employees
    ensures selected != "" ==> forall x :: x in r ==> x in employees && x.id == selected
    ensures selected != "" ==> forall i :: 0 <= i < |employees| && employees[i].id == selected ==> employees[i] in r
    ensures IsSubsequence(r, employees)
    ensures selected != "" ==> forall x :: multiset(r)[x] == if x.id == selected then multiset(employees)[x] else 0
  {
    if selected != "" then
      var p := (x: Employee) => x.id == selected;
      FilterIsSubsequence(employees, p);
      FilterCounts(employees, p);
      Filter(employees, p)
    else
      FilterAllPass(employees, (x: Employee) => true);
      FilterIsSubsequence(employees, (x: Employee) => true);
      employees
  }

  /** The screen's state. `dates` lists the keys of `timeData` in the order they
      were added, which is the order `Object.values(timeData)` visits them. */
  class TimeSheet {
    var weekStart: Day
    var employees: seq<Employee>
    var selectedEmployee: EmployeeId
    var selectedDay: nat
    var timeData: Table
    var dates: seq<Day>

    ghost predicate Valid()
      reads this
    {
      && WellFormed(timeData)
      && Covers(timeData, dates)
      && (forall d :: d in timeData ==> d in dates)
      && (forall i, j :: 0 <= i < j < |dates| ==> dates[i] != dates[j])
    }

    /** The initial state, with the week starting `today`. */
    constructor (today: Day)
      ensures Valid()
      ensures weekStart == today && employees == InitialEmployees()
      ensures selectedEmployee == "" && selectedDay == 0
      ensures timeData == map[] && dates == []
    {
      weekStart := today;
      employees := InitialEmployees();
      selectedEmployee := "";
      selectedDay := 0;
      timeData := map[];
      dates := [];
    }

    /** `handleTimeChange(dateString, employeeId, field, value)` */
    method HandleTimeChange(d: Day, e: EmployeeId, f: Field, v: Input)
      requires Valid() && Fits(f, v)
      modifies this`timeData, this`dates
      ensures Valid()
      ensures timeData == SetField(old(timeData), d, e, f, v)
      ensures dates == if d in old(timeData) then old(dates) else old(dates) + [d]
    {
      if d !in timeData {
        dates := dates + [d];
      }
      timeData := SetField(timeData, d, e, f, v);
    }

    /** `calculateTotalHours(employeeId)`, before `toFixed(2)`: every stored date counts. */
    method CalculateTotalHours(id: EmployeeId) returns (total: real)
      requires Valid()
      ensures total == HoursOver(timeData, dates, id)
    {
      total := 0.0;
      var i := 0;
      while i < |dates|
        invariant 0 <= i <= |dates|
        invariant total == HoursOver(timeData, dates[..i], id)
      {
        var day := timeData[dates[i]];
        if id in day {
          var en := day[id];
          var regularHours := CalculateHours(Read(en, Entrada), Read(en, Salida));
          var extraHours := ParseHours(Read(en, HorasExtra));
          var sickHours := ParseHours(Read(en, Enfermedad));
          var vacationHours := ParseHours(Read(en, Vacaciones));
          var holidayHours := ParseHours(Read(en, DiasFestivos));
          var otherHours := ParseHours(Read(en, Otro));
          total := total + (regularHours + extraHours + sickHours + vacationHours + holidayHours + otherHours);
        }
        assert dates[..i + 1][..i] == dates[..i];
        i := i + 1;
      }
      assert dates[..|dates|] == dates;
    }

    /** `calculateTotalPay(employeeId)`, before `toFixed(2)`: 0 for an unknown employee. */
    method CalculateTotalPay(id: EmployeeId) returns (totalPay: real)
      requires Valid()
      ensures FindEmployee(employees, id).None? ==> totalPay == 0.0
      ensures FindEmployee(employees, id).Some? ==> totalPay == PayOver(timeData, dates, FindEmployee(employees, id).value)
    {
      var found := FindEmployee(employees, id);
      if found.None? {
        return 0.0;
      }
      var emp := found.value;
      totalPay := 0.0;
      var i := 0;
      while i < |dates|
        invariant 0 <= i <= |dates|
        invariant totalPay == PayOver(timeData, dates[..i], emp)
      {
        var day := timeData[dates[i]];
        if id in day {
          totalPay := AddDayPay(totalPay, day[id], emp);
        }
        assert dates[..i + 1][..i] == dates[..i];
        assert PayOver(timeData, dates[..i + 1], emp) == PayOver(timeData, dates[..i], emp) + PayAt(timeData, dates[i], emp);
        i := i + 1;
      }
      assert dates[..|dates|] == dates;
    }

    /** The three `totalPay +=` steps for one entry. */
    static method AddDayPay(totalPay: real, en: Entry, emp: Employee) returns (r: real)
      requires EntryFits(en)
      ensures r == totalPay + DayPay(en, emp)
    {
      var regularHours := CalculateHours(Read(en, Entrada), Read(en, Salida));
      var extraHours := ParseHours(Read(en, HorasExtra));
      var sickHours := ParseHours(Read(en, Enfermedad));
      var vacationHours := ParseHours(Read(en, Vacaciones));
      var holidayHours := ParseHours(Read(en, DiasFestivos));
      var otherHours := ParseHours(Read(en, Otro));
      r := totalPay + regularHours * emp.rate;
      r := r + extraHours * emp.overtimeRate;
      r := r + (sickHours + vacationHours + holidayHours + otherHours) * emp.rate;
    }

    /** `renderDayOptions()`: option i shows `addDays(weekStart, i)`. */
    method RenderDayOptions() returns (options: seq<DayOption>)
      ensures |options| == 7
      ensures forall i :: 0 <= i < 7 ==> options[i] == DayOption(i, weekStart + i)
    {
      options := [];
      for i := 0 to 7
        invariant |options| == i
        invariant forall k :: 0 <= k < i ==> options[k] == DayOption(k, weekStart + k)
      {
        options := options + [DayOption(i, weekStart + i)];
      }
    }
  }

  // ----- properties of the totals -----

  /** Hour totals are additive over a split of the dates. */
  lemma {:induction false} HoursOverConcat(t: Table, a: seq<Day>, b: seq<Day>, id: EmployeeId)
    requires WellFormed(t) && Covers(t, a) && Covers(t, b)
    ensures Covers(t, a + b)
    ensures HoursOver(t, a + b, id) == HoursOver(t, a, id) + HoursOver(t, b, id)
    decreases |b|
  {
    assert Covers(t, a + b);
    if b == [] {
      assert a + b == a;
    } else {
      var b' := b[..|b| - 1];
      assert (a + b)[..|a + b| - 1] == a + b';
      HoursOverConcat(t, a, b', id);
    }
  }

  /** Pay totals are additive over a split of the dates. */
  lemma {:induction false} PayOverConcat(t: Table, a: seq<Day>, b: seq<Day>, emp: Employee)
    requires WellFormed(t) && Covers(t, a) && Covers(t, b)
    ensures Covers(t, a + b)
    ensures PayOver(t, a + b, emp) == PayOver(t, a, emp) + PayOver(t, b, emp)
    decreases |b|
  {
    assert Covers(t, a + b);
    if b == [] {
      assert a + b == a;
    } else {
      var b' := b[..|b| - 1];
      assert (a + b)[..|a + b| - 1] == a + b';
      PayOverConcat(t, a, b', emp);
    }
  }

  /** Pay is the non-overtime hours at the rate plus the overtime at the overtime
      rate, so the screen's pay formula and `(hours - overtime) * rate +
      overtime * overtimeRate` agree. */
  lemma PayFromHours(t: Table, dates: seq<Day>, emp: Employee)
    requires WellFormed(t) && Covers(t, dates)
    ensures PayOver(t, dates, emp) ==
            Priced(HoursOver(t, dates, emp.id), OvertimeOver(t, dates, emp.id), emp.rate, emp.overtimeRate)
  {
    PayDaysFromHours(t, dates, emp);
    SumLinear(PayDays(t, dates, emp), HoursDays(t, dates, emp.id), OvertimeDays(t, dates, emp.id),
              emp.rate, emp.overtimeRate);
    SumsOfDays(t, dates, emp);
  }

  lemma PayDaysFromHours(t: Table, dates: seq<Day>, emp: Employee)
    requires WellFormed(t) && Covers(t, dates)
    ensures forall i :: 0 <= i < |dates| ==>
              PayDays(t, dates, emp)[i] ==
              Priced(HoursDays(t, dates, emp.id)[i], OvertimeDays(t, dates, emp.id)[i], emp.rate, emp.overtimeRate)
  {
    forall i | 0 <= i < |dates|
      ensures PayAt(t, dates[i], emp) ==
              Priced(HoursAt(t, dates[i], emp.id), OvertimeAt(t, dates[i], emp.id), emp.rate, emp.overtimeRate)
    {
      if emp.id in t[dates[i]] {
        DayPayFromHours(t[dates[i]][emp.id], emp);
      }
    }
  }

  /** The recursive totals are the sums of the per-date figures. */
  lemma {:induction false} SumsOfDays(t: Table, dates: seq<Day>, emp: Employee)
    requires WellFormed(t) && Covers(t, dates)
    ensures PayOver(t, dates, emp) == Sum(PayDays(t, dates, emp))
    ensures HoursOver(t, dates, emp.id) == Sum(HoursDays(t, dates, emp.id))
    ensures OvertimeOver(t, dates, emp.id) == Sum(OvertimeDays(t, dates, emp.id))
    decreases |dates|
  {
    if dates != [] {
      var rest := dates[..|dates| - 1];
      SumsOfDays(t, rest, emp);
      assert PayDays(t, dates, emp)[..|dates| - 1] == PayDays(t, rest, emp);
      assert HoursDays(t, dates, emp.id)[..|dates| - 1] == HoursDays(t, rest, emp.id);
      assert OvertimeDays(t, dates, emp.id)[..|dates| - 1] == OvertimeDays(t, rest, emp.id);
    }
  }

  /** One entry's pay, written as its non-overtime hours at the rate plus its
      overtime at the overtime rate. */
  lemma DayPayFromHours(en: Entry, emp: Employee)
    requires EntryFits(en)
    ensures DayPay(en, emp) == Priced(DayHours(en), Overtime(en), emp.rate, emp.overtimeRate)
  {
    var w, ov, l, r := Worked(en), Overtime(en), Leave(en), emp.rate;
    assert (w + ov + l - ov) * r == w * r + l * r;
  }

  /** An employee with no entry on any of the dates totals 0 hours and 0 pay. */
  lemma {:induction false} AbsentEmployeeTotalsZero(t: Table, dates: seq<Day>, emp: Employee)
    requires WellFormed(t) && Covers(t, dates)
    requires forall i :: 0 <= i < |dates| ==> emp.id !in t[dates[i]]
    ensures HoursOver(t, dates, emp.id) == 0.0
    ensures PayOver(t, dates, emp) == 0.0
    decreases |dates|
  {
    if dates != [] {
      AbsentEmployeeTotalsZero(t, dates[..|dates| - 1], emp);
    }
  }

  /** With only the punch pair filled in, an entry adds exactly its worked hours. */
  lemma OnlyPunchesCountWorked(en: Entry)
    requires EntryFits(en)
    requires forall f :: f in en ==> IsTimeField(f)
    ensures DayHours(en) == Worked(en)
  {
  }

  /** A field never edited, cleared, or holding non-numeric text counts as 0 hours. */
  lemma BlankOrTextCountsZero(en: Entry, f: Field)
    requires f !in en || en[f].Blank? || en[f].Text?
    ensures ParseHours(Read(en, f)) == 0.0
  {
  }

  /** What `parseFloat(v) || 0` gives for each kind of text: 0 for blank or
      non-numeric text, the number itself, and the whole hours of an `HH:MM`
      string (`parseFloat` stops at the colon). */
  lemma ParseHoursMeaning(v: Input)
    ensures v.Blank? || v.Text? ==> ParseHours(v) == 0.0
    ensures v.Number? ==> ParseHours(v) == v.amount
    ensures v.Time? ==> var r := ParseHours(v);
              r == r.Floor as real && r.Floor * 60 <= v.at < r.Floor * 60 + 60
  {
  }

  /** 22:00 to 06:00 is an 8-hour overnight shift; equal times give 0. */
  lemma OvernightShift()
    ensures CalculateHours(Time(At(22, 0)), Time(At(6, 0))) == 8.0
    ensures CalculateHours(Time(At(9, 30)), Time(At(9, 30))) == 0.0
  {
  }

  /** 8 worked hours plus 2 overtime hours at 18/25 pay 194. */
  lemma PayExample()
    ensures var t := map[0 := map["1001" := map[Entrada := Time(At(8, 0)), Salida := Time(At(16, 0)), HorasExtra := Number(2.0)]]];
            HoursOver(t, [0], "1001") == 10.0 && PayOver(t, [0], InitialEmployees()[0]) == 194.0
  {
    var t := map[0 := map["1001" := map[Entrada := Time(At(8, 0)), Salida := Time(At(16, 0)), HorasExtra := Number(2.0)]]];
    assert [0][..0] == [];
    assert Worked(t[0]["1001"]) == 8.0;
  }
}
