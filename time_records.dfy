/**
 * The time-record normaliser of the `useTime` hook: `transformResponse` groups
 * the flat records of the time API into a table date -> employee -> entry,
 * truncating ISO date-times to their `YYYY-MM-DD` and `HH:MM` parts and copying
 * an hour field only when its value is truthy.
 */
module TimeRecords {
  import opened Options

  /** One element of `response.data`. A `None` time or hour is `null`/`undefined`;
      a `None` date is missing, `null` or not a string, so that `.split` throws. */
  datatype RawRecord = RawRecord(
    date: Option<string>,
    employeeId: string,
    entryTime: Option<string>,
    exitTime: Option<string>,
    overtimeHours: Option<real>,
    sickLeaveHours: Option<real>,
    vacationHours: Option<real>,
    holidayHours: Option<real>,
    otherHours: Option<real>)

  /** `response.data`: an array of records, or anything else. */
  datatype Payload = Array(items: seq<RawRecord>) | NotArray

  /** One entry of the result; `None` is `null`. */
  datatype TimeEntry = TimeEntry(
    entryTime: Option<string>,
    exitTime: Option<string>,
    overtimeHours: Option<real>,
    sickLeaveHours: Option<real>,
    vacationHours: Option<real>,
    holidayHours: Option<real>,
    otherHours: Option<real>)

  /** `result`: date -> employee id -> entry. */
  type TimeTable = map<string, map<string, TimeEntry>>

  /** The call returns the table, or throws a `TypeError` out of the loop. */
  datatype Outcome = Done(table: TimeTable) | TypeError

  datatype TimeColumn = EntryTime | ExitTime
  datatype HourColumn = OvertimeHours | SickLeaveHours | VacationHours | HolidayHours | OtherHours

  function RawTime(r: RawRecord, c: TimeColumn): Option<string>
  {
    match c
    case EntryTime => r.entryTime
    case ExitTime => r.exitTime
  }

  function RawHours(r: RawRecord, c: HourColumn): Option<real>
  {
    match c
    case OvertimeHours => r.overtimeHours
    case SickLeaveHours => r.sickLeaveHours
    case VacationHours => r.vacationHours
    case HolidayHours => r.holidayHours
    case OtherHours => r.otherHours
  }

  function StoredTime(en: TimeEntry, c: TimeColumn): Option<string>
  {
    match c
    case EntryTime => en.entryTime
    case ExitTime => en.exitTime
  }

  function StoredHours(en: TimeEntry, c: HourColumn): Option<real>
  {
    match c
    case OvertimeHours => en.overtimeHours
    case SickLeaveHours => en.sickLeaveHours
    case VacationHours => en.vacationHours
    case HolidayHours => en.holidayHours
    case OtherHours => en.otherHours
  }

  /** A newly created entry: all seven fields `null`. */
  function Fresh(): (en: TimeEntry)
    ensures forall c :: StoredTime(en, c).None?
    ensures forall c :: StoredHours(en, c).None?
  {
    TimeEntry(None, None, None, None, None, None, None)
  }

  /** `if (item.entryTime)`: a string is truthy when present and non-empty. */
  predicate TimeTruthy(v: Option<string>)
  {
    v.Some? && v.value != ""
  }

  /** `if (item.overtimeHours)`: a number is truthy when present and non-zero. */
  predicate HoursTruthy(v: Option<real>)
  {
    v.Some? && v.value != 0.0
  }

  /** `s.split(c)[0]`: everything before the first `c`, or all of `s`. */
  function Before(s: string, c: char): (r: string)
    ensures r <= s && c !in r
    ensures |r| < |s| ==> s[|r|] == c
    ensures |r| == |s| <==> c !in s
  {
    if s == [] then []
    else if s[0] == c then []
    else [s[0]] + Before(s[1..], c)
  }

  /** The `YYYY-MM-DD` key of a record: its `date` up to the first `"T"`. */
  function DatePart(date: string): (r: string)
    ensures r <= date && 'T' !in r
    ensures |r| < |date| ==> date[|r|] == 'T'
  {
    Before(date, 'T')
  }

  /** `s.slice(0, 5)` */
  function Take5(s: string): (r: string)
    ensures r <= s && |r| == if |s| < 5 then |s| else 5
  {
    if |s| <= 5 then s else s[..5]
  }

  /** `s.split("T")[1].slice(0, 5)`: the first five characters of the piece
      after the first `"T"`, or `None` when there is no `"T"` and `[1]` is
      `undefined`, so that `.slice` throws. */
  function TimeSlice(s: string): (r: Option<string>)
    ensures r.None? <==> 'T' !in s
    ensures r.Some? ==> |r.value| <= 5 && 'T' !in r.value
    ensures r.Some? ==> r.value <= s[|Before(s, 'T')| + 1..]
    ensures r.Some? ==> var piece := Before(s[|Before(s, 'T')| + 1..], 'T');
                        |r.value| == if |piece| < 5 then |piece| else 5
  {
    var head := Before(s, 'T');
    if |head| == |s| then None
    else Some(Take5(Before(s[|head| + 1..], 'T')))
  }

  /** The stored `HH:MM` of a truthy time, or `None` when slicing it throws. */
  function NewTime(v: Option<string>): Option<string>
    requires TimeTruthy(v)
  {
    TimeSlice(v.value)
  }

  /** One of the record's truthy times has no `"T"`, so slicing it throws. */
  predicate TimeThrows(r: RawRecord)
  {
    exists c :: TimeTruthy(RawTime(r, c)) && 'T' !in RawTime(r, c).value
  }

  /** A record makes the loop throw when `item.date.split` does, or when one of
      its truthy times has no `"T"`. */
  predicate Throws(r: RawRecord)
  {
    r.date.None? || TimeThrows(r)
  }

  /** The record's date is present and its `YYYY-MM-DD` part is `date`. */
  predicate Dated(r: RawRecord, date: string)
  {
    r.date.Some? && DatePart(r.date.value) == date
  }

  /** The record's key is (`date`, `id`). */
  predicate Keyed(r: RawRecord, date: string, id: string)
  {
    Dated(r, date) && r.employeeId == id
  }

  /** The row of `date`, or `{}` when it does not exist yet. */
  function RowAt(t: TimeTable, date: string): map<string, TimeEntry>
  {
    if date in t then t[date] else map[]
  }

  /** The entry of (`date`, `id`), or a fresh one when it does not exist yet. */
  function EntryAt(t: TimeTable, date: string, id: string): TimeEntry
  {
    var row := RowAt(t, date);
    if id in row then row[id] else Fresh()
  }

  /** `if (item.f) entry.f = item.f`, for an hour field. */
  function KeepHours(raw: Option<real>, stored: Option<real>): Option<real>
  {
    if HoursTruthy(raw) then raw else stored
  }

  /** `if (item.f) entry.f = item.f.split("T")[1].slice(0, 5)`, for a time field
      whose slicing does not throw. */
  function KeepTime(raw: Option<string>, stored: Option<string>): Option<string>
  {
    if TimeTruthy(raw) then NewTime(raw) else stored
  }

  /** The assignments of one loop iteration to an entry; `None` when one throws. */
  function Assign(en: TimeEntry, r: RawRecord): Option<TimeEntry>
  {
    if (TimeTruthy(r.entryTime) && NewTime(r.entryTime).None?) ||
       (TimeTruthy(r.exitTime) && NewTime(r.exitTime).None?) then None
    else
      Some(TimeEntry(
        KeepTime(r.entryTime, en.entryTime),
        KeepTime(r.exitTime, en.exitTime),
        KeepHours(r.overtimeHours, en.overtimeHours),
        KeepHours(r.sickLeaveHours, en.sickLeaveHours),
        KeepHours(r.vacationHours, en.vacationHours),
        KeepHours(r.holidayHours, en.holidayHours),
        KeepHours(r.otherHours, en.otherHours)))
  }

  /** The two initialisations of one iteration: `result[date] = {}` when the row
      is missing, then a fresh entry when the employee is missing. */
  function Touch(t: TimeTable, date: string, id: string): TimeTable
  {
    var t1 := if date !in t then t[date := map[]] else t;
    if id !in t1[date] then t1[date := t1[date][id := Fresh()]] else t1
  }

  /** One iteration of the `forEach`: create the row and the entry when absent,
      then assign the record's fields. */
  function Place(t: TimeTable, r: RawRecord): Outcome
  {
    if r.date.None? then TypeError
    else
      var date, id := DatePart(r.date.value), r.employeeId;
      var t1 := Touch(t, date, id);
      match Assign(t1[date][id], r)
      case None => TypeError
      case Some(en) => Done(t1[date := t1[date][id := en]])
  }

  /** The assignments throw exactly on a truthy time without a `"T"`. */
  lemma AssignThrows(en: TimeEntry, r: RawRecord)
    ensures Assign(en, r).None? <==> TimeThrows(r)
  {
    assert RawTime(r, EntryTime) == r.entryTime && RawTime(r, ExitTime) == r.exitTime;
  }

  /** Otherwise each field is the record's value when truthy and the old one when not. */
  lemma AssignEffect(en: TimeEntry, r: RawRecord)
    ensures Assign(en, r).None? <==> TimeThrows(r)
    ensures Assign(en, r).Some? ==>
              forall c :: StoredTime(Assign(en, r).value, c) == KeepTime(RawTime(r, c), StoredTime(en, c))
    ensures Assign(en, r).Some? ==>
              forall c :: StoredHours(Assign(en, r).value, c) == KeepHours(RawHours(r, c), StoredHours(en, c))
  {
    AssignThrows(en, r);
  }

  /** The initialisations add the row and the entry if absent and change nothing else. */
  lemma TouchEffect(t: TimeTable, date: string, id: string)
    ensures var r := Touch(t, date, id);
            && r.Keys == t.Keys + {date}
            && (forall d :: d in t && d != date ==> r[d] == t[d])
            && r[date].Keys == RowAt(t, date).Keys + {id}
            && (forall e :: e in r[date] && e != id ==> r[date][e] == RowAt(t, date)[e])
            && r[date][id] == EntryAt(t, date, id)
  {
  }

  /** One iteration throws exactly when the record `Throws`. */
  lemma PlaceThrows(t: TimeTable, r: RawRecord)
    ensures Place(t, r).TypeError? <==> Throws(r)
  {
    if r.date.Some? {
      var date := DatePart(r.date.value);
      AssignThrows(Touch(t, date, r.employeeId)[date][r.employeeId], r);
    }
  }

  /** One iteration throws exactly when the record `Throws`; otherwise it changes
      the entry of the record's (date, employee) key, creating it when absent,
      and leaves every other date and entry alone. */
  lemma PlaceEffect(t: TimeTable, r: RawRecord)
    ensures Place(t, r).TypeError? <==> Throws(r)
    ensures Place(t, r).Done? ==> r.date.Some?
    ensures r.date.Some? ==>
            var date, id := DatePart(r.date.value), r.employeeId;
            Place(t, r).Done? ==>
            && Place(t, r).table.Keys == t.Keys + {date}
            && (forall d :: d in t && d != date ==> Place(t, r).table[d] == t[d])
            && Place(t, r).table[date].Keys == RowAt(t, date).Keys + {id}
            && (forall e :: e in RowAt(t, date) && e != id ==> Place(t, r).table[date][e] == RowAt(t, date)[e])
            && Some(Place(t, r).table[date][id]) == Assign(EntryAt(t, date, id), r)
  {
    if r.date.Some? {
      var date, id := DatePart(r.date.value), r.employeeId;
      TouchEffect(t, date, id);
      AssignEffect(Touch(t, date, id)[date][id], r);
    }
  }

  /** The loop over `items`, starting from `t`, stopping at the first throw. */
  function IngestFrom(t: TimeTable, items: seq<RawRecord>): Outcome
    decreases |items|
  {
    if items == [] then Done(t)
    else
      match IngestFrom(t, items[..|items| - 1])
      case TypeError => TypeError
      case Done(t') => Place(t', items[|items| - 1])
  }

  /** `transformResponse(data)`: `{}` for anything that is not an array. */
  function Transform(data: Payload): Outcome
  {
    match data
    case NotArray => Done(map[])
    case Array(items) => IngestFrom(map[], items)
  }

  /** `transformResponse`, building `result` in place. */
  method TransformResponse(data: Payload) returns (outcome: Outcome)
    ensures outcome == Transform(data)
    ensures data.NotArray? ==> outcome == Done(map[])
  {
    var result: TimeTable := map[];
    if data.Array? {
      var items := data.items;
      var i := 0;
      while i < |items|
        invariant 0 <= i <= |items|
        invariant IngestFrom(map[], items[..i]) == Done(result)
      {
        assert items[..i + 1][..i] == items[..i];
        var step := PlaceRecord(result, items[i]);
        assert IngestFrom(map[], items[..i + 1]) == step;
        if step.TypeError? {
          ThrowPersists(map[], items, i + 1);
          return TypeError;
        }
        result := step.table;
        i := i + 1;
      }
      assert items[..|items|] == items;
    }
    return Done(result);
  }

  /** The `forEach` callback: one record placed into `result` in place. */
  method PlaceRecord(result: TimeTable, item: RawRecord) returns (outcome: Outcome)
    ensures outcome == Place(result, item)
  {
    if item.date.None? {
      return TypeError;
    }
    var res := result;
    var date := DatePart(item.date.value);
    var employeeId := item.employeeId;
    if date !in res {
      res := res[date := map[]];
    }
    if employeeId !in res[date] {
      res := res[date := res[date][employeeId := Fresh()]];
    }
    assert res == Touch(result, date, employeeId);
    var en := res[date][employeeId];
    var copied := CopyTimes(en, item);
    AssignThrows(en, item);
    if copied.None? {
      return TypeError;
    }
    en := CopyHours(copied.value, item);
    res := res[date := res[date][employeeId := en]];
    return Done(res);
  }

  /** The two `if (item.t) entry.t = item.t.split("T")[1].slice(0, 5)`
      assignments of the loop body; `None` when one of them throws. */
  method CopyTimes(en: TimeEntry, item: RawRecord) returns (r: Option<TimeEntry>)
    ensures r.None? <==> TimeThrows(item)
    ensures r.Some? ==> r.value == en.(entryTime := KeepTime(item.entryTime, en.entryTime),
                                       exitTime := KeepTime(item.exitTime, en.exitTime))
  {
    var e := en;
    if TimeTruthy(item.entryTime) {
      var hhmm := TimeSlice(item.entryTime.value);
      if hhmm.None? {
        assert RawTime(item, EntryTime) == item.entryTime;
        return None;
      }
      e := e.(entryTime := hhmm);
    }
    if TimeTruthy(item.exitTime) {
      var hhmm := TimeSlice(item.exitTime.value);
      if hhmm.None? {
        assert RawTime(item, ExitTime) == item.exitTime;
        return None;
      }
      e := e.(exitTime := hhmm);
    }
    assert RawTime(item, EntryTime) == item.entryTime && RawTime(item, ExitTime) == item.exitTime;
    return Some(e);
  }

  /** The five `if (item.h) entry.h = item.h` assignments of the loop body. */
  method CopyHours(en: TimeEntry, item: RawRecord) returns (r: TimeEntry)
    ensures r == en.(overtimeHours := KeepHours(item.overtimeHours, en.overtimeHours),
                     sickLeaveHours := KeepHours(item.sickLeaveHours, en.sickLeaveHours),
                     vacationHours := KeepHours(item.vacationHours, en.vacationHours),
                     holidayHours := KeepHours(item.holidayHours, en.holidayHours),
                     otherHours := KeepHours(item.otherHours, en.otherHours))
  {
    r := en;
    if HoursTruthy(item.overtimeHours) {
      r := r.(overtimeHours := item.overtimeHours);
    }
    if HoursTruthy(item.sickLeaveHours) {
      r := r.(sickLeaveHours := item.sickLeaveHours);
    }
    if HoursTruthy(item.vacationHours) {
      r := r.(vacationHours := item.vacationHours);
    }
    if HoursTruthy(item.holidayHours) {
      r := r.(holidayHours := item.holidayHours);
    }
    if HoursTruthy(item.otherHours) {
      r := r.(otherHours := item.otherHours);
    }
  }

  // ----- properties of the normaliser -----

  /** Loops over consecutive slices compose. */
  lemma {:induction false} IngestConcat(t: TimeTable, a: seq<RawRecord>, b: seq<RawRecord>)
    ensures IngestFrom(t, a + b) ==
            match IngestFrom(t, a)
            case TypeError => TypeError
            case Done(t') => IngestFrom(t', b)
    decreases |b|
  {
    if b == [] {
      assert a + b == a;
    } else {
      assert (a + b)[..|a + b| - 1] == a + b[..|b| - 1];
      IngestConcat(t, a, b[..|b| - 1]);
    }
  }

  /** Once a prefix throws, the whole call throws. */
  lemma ThrowPersists(t: TimeTable, items: seq<RawRecord>, n: nat)
    requires n <= |items|
    requires IngestFrom(t, items[..n]).TypeError?
    ensures IngestFrom(t, items).TypeError?
  {
    assert items == items[..n] + items[n..];
    IngestConcat(t, items[..n], items[n..]);
  }

  /** The call throws exactly when some record has no string date or a truthy
      time without a `"T"`. */
  lemma {:induction false} TypeErrorIff(t: TimeTable, items: seq<RawRecord>)
    ensures IngestFrom(t, items).TypeError? <==> exists i :: 0 <= i < |items| && Throws(items[i])
    decreases |items|
  {
    if items != [] {
      var n := |items| - 1;
      TypeErrorIff(t, items[..n]);
      if IngestFrom(t, items[..n]).Done? {
        PlaceThrows(IngestFrom(t, items[..n]).table, items[n]);
      }
      if exists i :: 0 <= i < n && Throws(items[..n][i]) {
        var i :| 0 <= i < n && Throws(items[..n][i]);
        assert items[i] == items[..n][i];
      }
      if exists i :: 0 <= i < |items| && Throws(items[i]) {
        var i :| 0 <= i < |items| && Throws(items[i]);
        if i < n {
          assert items[..n][i] == items[i];
        }
      }
    }
  }

  /** Some record of `items` has key (`date`, `id`). */
  predicate Occurs(items: seq<RawRecord>, date: string, id: string)
  {
    exists i :: 0 <= i < |items| && Keyed(items[i], date, id)
  }

  /** A record for that key, if any, reads `date` as its key. */
  predicate DateOccurs(items: seq<RawRecord>, date: string)
  {
    exists i :: 0 <= i < |items| && Dated(items[i], date)
  }

  /** Reference value of an hour field: the last truthy value among the records
      for (`date`, `id`), or `init` when none is truthy. */
  function LastHours(items: seq<RawRecord>, date: string, id: string, c: HourColumn, init: Option<real>): Option<real>
    decreases |items|
  {
    if items == [] then init
    else
      var r := items[|items| - 1];
      if Keyed(r, date, id) && HoursTruthy(RawHours(r, c)) then RawHours(r, c)
      else LastHours(items[..|items| - 1], date, id, c, init)
  }

  /** Reference value of a time field: the `HH:MM` of the last truthy time among
      the records for (`date`, `id`), or `init` when none is truthy. */
  function LastTime(items: seq<RawRecord>, date: string, id: string, c: TimeColumn, init: Option<string>): Option<string>
    decreases |items|
  {
    if items == [] then init
    else
      var r := items[|items| - 1];
      if Keyed(r, date, id) && TimeTruthy(RawTime(r, c)) then NewTime(RawTime(r, c))
      else LastTime(items[..|items| - 1], date, id, c, init)
  }

  lemma OccursSplit(items: seq<RawRecord>, date: string, id: string)
    requires items != []
    ensures var n := |items| - 1;
            Occurs(items, date, id) <==>
            Occurs(items[..n], date, id) || Keyed(items[n], date, id)
  {
    var n := |items| - 1;
    if Occurs(items[..n], date, id) {
      var i :| 0 <= i < n && Keyed(items[..n][i], date, id);
      assert items[i] == items[..n][i];
    }
    if Occurs(items, date, id) && !Keyed(items[n], date, id) {
      var i :| 0 <= i < |items| && Keyed(items[i], date, id);
      assert items[..n][i] == items[i];
    }
  }

  lemma DateOccursSplit(items: seq<RawRecord>, date: string)
    requires items != []
    ensures var n := |items| - 1;
            DateOccurs(items, date) <==> DateOccurs(items[..n], date) || Dated(items[n], date)
  {
    var n := |items| - 1;
    if DateOccurs(items[..n], date) {
      var i :| 0 <= i < n && Dated(items[..n][i], date);
      assert items[i] == items[..n][i];
    }
    if DateOccurs(items, date) && !Dated(items[n], date) {
      var i :| 0 <= i < |items| && Dated(items[i], date);
      assert items[..n][i] == items[i];
    }
  }

  /** A successful call's dates are those of the start table plus the `YYYY-MM-DD`
      keys of the records. */
  lemma {:induction false} IngestDates(t: TimeTable, items: seq<RawRecord>)
    requires IngestFrom(t, items).Done?
    ensures forall date :: date in IngestFrom(t, items).table <==> date in t || DateOccurs(items, date)
    decreases |items|
  {
    if items != [] {
      var n := |items| - 1;
      IngestDates(t, items[..n]);
      var t' := IngestFrom(t, items[..n]).table;
      assert Place(t', items[n]) == IngestFrom(t, items);
      PlaceEffect(t', items[n]);
      forall date
        ensures date in IngestFrom(t, items).table <==> date in t || DateOccurs(items, date)
      {
        DateOccursSplit(items, date);
      }
    }
  }

  /** A successful call's (date, employee) pairs are those of the start table
      plus the pairs occurring in the records. */
  lemma {:induction false} IngestPairs(t: TimeTable, items: seq<RawRecord>)
    requires IngestFrom(t, items).Done?
    ensures var r := IngestFrom(t, items).table;
            forall date, id :: date in r && id in r[date] <==> id in RowAt(t, date) || Occurs(items, date, id)
    decreases |items|
  {
    if items != [] {
      var n := |items| - 1;
      var x := items[n];
      IngestPairs(t, items[..n]);
      var t' := IngestFrom(t, items[..n]).table;
      var r := IngestFrom(t, items).table;
      assert Place(t', x) == Done(r);
      PlaceEffect(t', x);
      forall date, id
        ensures date in r && id in r[date] <==> id in RowAt(t, date) || Occurs(items, date, id)
      {
        OccursSplit(items, date, id);
        assert date in t' && id in t'[date] <==> id in RowAt(t, date) || Occurs(items[..n], date, id);
        if Dated(x, date) {
          assert id in r[date] <==> id in RowAt(t', date) || id == x.employeeId;
        } else {
          assert date in r <==> date in t';
        }
      }
    }
  }

  /** Every hour field of a successful call's entry is the last truthy value
      the records gave it, or its start value (`null` for a new entry). */
  lemma {:induction false} IngestHours(t: TimeTable, items: seq<RawRecord>)
    requires IngestFrom(t, items).Done?
    ensures var r := IngestFrom(t, items).table;
            forall date, id, c :: date in r && id in r[date] ==>
              StoredHours(r[date][id], c) == LastHours(items, date, id, c, StoredHours(EntryAt(t, date, id), c))
    decreases |items|
  {
    if items != [] {
      var n := |items| - 1;
      var rest, x := items[..n], items[n];
      IngestHours(t, rest);
      IngestPairs(t, rest);
      var t' := IngestFrom(t, rest).table;
      var r := IngestFrom(t, items).table;
      assert Place(t', x) == Done(r);
      PlaceEffect(t', x);
      forall date, id, c | date in r && id in r[date]
        ensures StoredHours(r[date][id], c) == LastHours(items, date, id, c, StoredHours(EntryAt(t, date, id), c))
      {
        var init := StoredHours(EntryAt(t, date, id), c);
        if Keyed(x, date, id) {
          AssignEffect(EntryAt(t', date, id), x);
          assert StoredHours(r[date][id], c) == KeepHours(RawHours(x, c), StoredHours(EntryAt(t', date, id), c));
          if !(date in t' && id in t'[date]) {
            LastHoursAbsent(rest, date, id, c, init);
          }
          assert LastHours(rest, date, id, c, init) == StoredHours(EntryAt(t', date, id), c);
        } else {
          assert date in t' && id in t'[date] && r[date][id] == t'[date][id];
        }
      }
    }
  }

  /** Every time field of a successful call's entry is the `HH:MM` of the last
      truthy time the records gave it, or its start value. */
  lemma {:induction false} IngestTimes(t: TimeTable, items: seq<RawRecord>)
    requires IngestFrom(t, items).Done?
    ensures var r := IngestFrom(t, items).table;
            forall date, id, c :: date in r && id in r[date] ==>
              StoredTime(r[date][id], c) == LastTime(items, date, id, c, StoredTime(EntryAt(t, date, id), c))
    decreases |items|
  {
    if items != [] {
      var n := |items| - 1;
      var rest, x := items[..n], items[n];
      IngestTimes(t, rest);
      IngestPairs(t, rest);
      var t' := IngestFrom(t, rest).table;
      var r := IngestFrom(t, items).table;
      assert Place(t', x) == Done(r);
      PlaceEffect(t', x);
      forall date, id, c | date in r && id in r[date]
        ensures StoredTime(r[date][id], c) == LastTime(items, date, id, c, StoredTime(EntryAt(t, date, id), c))
      {
        var init := StoredTime(EntryAt(t, date, id), c);
        if Keyed(x, date, id) {
          AssignEffect(EntryAt(t', date, id), x);
          assert StoredTime(r[date][id], c) == KeepTime(RawTime(x, c), StoredTime(EntryAt(t', date, id), c));
          if !(date in t' && id in t'[date]) {
            LastTimeAbsent(rest, date, id, c, init);
          }
          assert LastTime(rest, date, id, c, init) == StoredTime(EntryAt(t', date, id), c);
        } else {
          assert date in t' && id in t'[date] && r[date][id] == t'[date][id];
        }
      }
    }
  }

  /** A key no record has keeps its start value. */
  lemma {:induction false} LastHoursAbsent(items: seq<RawRecord>, date: string, id: string, c: HourColumn, init: Option<real>)
    requires !Occurs(items, date, id)
    ensures LastHours(items, date, id, c, init) == init
    decreases |items|
  {
    if items != [] {
      var n := |items| - 1;
      assert !Occurs(items[..n], date, id);
      LastHoursAbsent(items[..n], date, id, c, init);
    }
  }

  lemma {:induction false} LastTimeAbsent(items: seq<RawRecord>, date: string, id: string, c: TimeColumn, init: Option<string>)
    requires !Occurs(items, date, id)
    ensures LastTime(items, date, id, c, init) == init
    decreases |items|
  {
    if items != [] {
      var n := |items| - 1;
      assert !Occurs(items[..n], date, id);
      LastTimeAbsent(items[..n], date, id, c, init);
    }
  }

  /** Feeding the hour-field reference its own result changes nothing. */
  lemma {:induction false} LastHoursIdempotent(items: seq<RawRecord>, date: string, id: string, c: HourColumn, init: Option<real>)
    ensures LastHours(items, date, id, c, LastHours(items, date, id, c, init)) == LastHours(items, date, id, c, init)
    decreases |items|
  {
    if items != [] {
      LastHoursIdempotent(items[..|items| - 1], date, id, c, init);
    }
  }

  lemma {:induction false} LastTimeIdempotent(items: seq<RawRecord>, date: string, id: string, c: TimeColumn, init: Option<string>)
    ensures LastTime(items, date, id, c, LastTime(items, date, id, c, init)) == LastTime(items, date, id, c, init)
    decreases |items|
  {
    if items != [] {
      LastTimeIdempotent(items[..|items| - 1], date, id, c, init);
    }
  }

  /** An entry is determined by its seven columns. */
  lemma EntryByColumns(a: TimeEntry, b: TimeEntry)
    requires forall c :: StoredTime(a, c) == StoredTime(b, c)
    requires forall c :: StoredHours(a, c) == StoredHours(b, c)
    ensures a == b
  {
    assert StoredTime(a, EntryTime) == StoredTime(b, EntryTime);
    assert StoredTime(a, ExitTime) == StoredTime(b, ExitTime);
    assert StoredHours(a, OvertimeHours) == StoredHours(b, OvertimeHours);
    assert StoredHours(a, SickLeaveHours) == StoredHours(b, SickLeaveHours);
    assert StoredHours(a, VacationHours) == StoredHours(b, VacationHours);
    assert StoredHours(a, HolidayHours) == StoredHours(b, HolidayHours);
    assert StoredHours(a, OtherHours) == StoredHours(b, OtherHours);
  }

  /** A second run leaves every entry of the first run's table as it was. */
  lemma AgainEntry(items: seq<RawRecord>, date: string, id: string)
    requires IngestFrom(map[], items).Done?
    requires IngestFrom(IngestFrom(map[], items).table, items).Done?
    requires var t1 := IngestFrom(map[], items).table; date in t1 && id in t1[date]
    ensures var t1 := IngestFrom(map[], items).table;
            var t2 := IngestFrom(t1, items).table;
            date in t2 && id in t2[date] && t2[date][id] == t1[date][id]
  {
    var t1 := IngestFrom(map[], items).table;
    var t2 := IngestFrom(t1, items).table;
    IngestPairs(t1, items);
    IngestHours(map[], items);
    IngestHours(t1, items);
    IngestTimes(map[], items);
    IngestTimes(t1, items);
    assert id in RowAt(t1, date);
    assert date in t2 && id in t2[date];
    forall c ensures StoredHours(t2[date][id], c) == StoredHours(t1[date][id], c) {
      LastHoursIdempotent(items, date, id, c, None);
    }
    forall c ensures StoredTime(t2[date][id], c) == StoredTime(t1[date][id], c) {
      LastTimeIdempotent(items, date, id, c, None);
    }
    EntryByColumns(t2[date][id], t1[date][id]);
  }

  /** A second run adds no date. */
  lemma AgainDates(items: seq<RawRecord>)
    requires IngestFrom(map[], items).Done?
    requires IngestFrom(IngestFrom(map[], items).table, items).Done?
    ensures IngestFrom(IngestFrom(map[], items).table, items).table.Keys == IngestFrom(map[], items).table.Keys
  {
    var t1 := IngestFrom(map[], items).table;
    IngestDates(map[], items);
    IngestDates(t1, items);
  }

  /** A second run adds no (date, employee) pair. */
  lemma AgainRows(items: seq<RawRecord>, date: string)
    requires IngestFrom(map[], items).Done?
    requires IngestFrom(IngestFrom(map[], items).table, items).Done?
    requires date in IngestFrom(map[], items).table
    ensures var t1 := IngestFrom(map[], items).table;
            date in IngestFrom(t1, items).table && IngestFrom(t1, items).table[date].Keys == t1[date].Keys
  {
    var t1 := IngestFrom(map[], items).table;
    var t2 := IngestFrom(t1, items).table;
    AgainDates(items);
    IngestPairs(map[], items);
    IngestPairs(t1, items);
    forall id ensures id in t2[date] <==> id in t1[date] {
      assert id !in RowAt(map[], date);
      assert id in RowAt(t1, date) <==> id in t1[date];
    }
  }

  /** Running the records again over the table they produced changes nothing. */
  lemma IngestAgain(items: seq<RawRecord>)
    requires IngestFrom(map[], items).Done?
    ensures IngestFrom(IngestFrom(map[], items).table, items) == IngestFrom(map[], items)
  {
    var t1 := IngestFrom(map[], items).table;
    TypeErrorIff(map[], items);
    TypeErrorIff(t1, items);
    var t2 := IngestFrom(t1, items).table;
    AgainDates(items);
    forall date | date in t1
      ensures t2[date] == t1[date]
    {
      AgainRows(items, date);
      forall id | id in t1[date]
        ensures t2[date][id] == t1[date][id]
      {
        AgainEntry(items, date, id);
      }
    }
  }

  /** `transformResponse` is idempotent on its input: the records sent twice
      over give the same table as sent once. */
  lemma TransformTwice(items: seq<RawRecord>)
    ensures Transform(Array(items + items)) == Transform(Array(items))
  {
    IngestConcat(map[], items, items);
    if IngestFrom(map[], items).Done? {
      IngestAgain(items);
    }
  }

  /** `split` finds the first separator: the piece before it is `p`. */
  lemma {:induction false} BeforeSeparator(p: string, c: char, rest: string)
    requires c !in p
    ensures Before(p + [c] + rest, c) == p
  {
    if p != [] {
      assert (p + [c] + rest)[1..] == p[1..] + [c] + rest;
      BeforeSeparator(p[1..], c, rest);
    }
  }

  /** The stored time of `day + "T" + hhmm + tail` is `hhmm`. */
  lemma SliceAfter(day: string, hhmm: string, tail: string)
    requires 'T' !in day && 'T' !in hhmm + tail && |hhmm| == 5
    ensures TimeSlice(day + "T" + hhmm + tail) == Some(hhmm)
  {
    var s, after := day + "T" + hhmm + tail, hhmm + tail;
    assert s == day + ['T'] + after;
    BeforeSeparator(day, 'T', after);
    assert s[|day| + 1..] == after;
    assert Before(after, 'T') == after;
    assert after[..5] == hhmm;
    assert Take5(after) == hhmm;
  }

  /** The first record placed into an empty table makes a one-entry table. */
  lemma PlaceFirst(r: RawRecord, en: TimeEntry)
    requires r.date.Some? && Assign(Fresh(), r) == Some(en)
    ensures IngestFrom(map[], [r]) == Done(map[DatePart(r.date.value) := map[r.employeeId := en]])
  {
    var date, id := DatePart(r.date.value), r.employeeId;
    assert [r][..0] == [];
    var t1 := Touch(map[], date, id);
    assert t1 == map[date := map[id := Fresh()]];
    assert t1[date][id := en] == map[id := en];
    assert t1[date := map[id := en]] == map[date := map[id := en]];
    assert IngestFrom(map[], [r]) == Place(map[], r);
  }

  /** A single record: its key is the date before the `"T"`, its times are the
      five characters after the `"T"`, a zero hour field stays `null` and a
      non-zero one is copied. */
  lemma SingleRecord(day: string, rest: string, id: string, in5: string, inRest: string,
                     out5: string, outRest: string, sick: real)
    requires 'T' !in day && 'T' !in in5 + inRest && 'T' !in out5 + outRest
    requires |in5| == 5 && |out5| == 5 && sick != 0.0
    ensures var rec := RawRecord(Some(day + "T" + rest), id, Some(day + "T" + in5 + inRest),
                                 Some(day + "T" + out5 + outRest), Some(0.0), Some(sick), None, None, None);
            Transform(Array([rec])) ==
            Done(map[day := map[id := TimeEntry(Some(in5), Some(out5), None, Some(sick), None, None, None)]])
  {
    var rec := RawRecord(Some(day + "T" + rest), id, Some(day + "T" + in5 + inRest),
                         Some(day + "T" + out5 + outRest), Some(0.0), Some(sick), None, None, None);
    BeforeSeparator(day, 'T', rest);
    SliceAfter(day, in5, inRest);
    SliceAfter(day, out5, outRest);
    var en := TimeEntry(Some(in5), Some(out5), None, Some(sick), None, None, None);
    assert Assign(Fresh(), rec) == Some(en);
    assert DatePart(rec.date.value) == day;
    PlaceFirst(rec, en);
  }
}
