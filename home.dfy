/**
 * The home page's head count per department, as `getDepartmentData` computes it
 * for the pie chart, including the misspelt property it reads in its guard.
 */
module Home {
  import opened Options

  /** A name property: a string, or absent (`undefined`). */
  datatype Name = Named(s: string) | Unnamed

  /** `employee.department`: absent (`undefined` or `null`), or a department
      object with its `departmentName` and its (normally absent) `departmenName`. */
  datatype Department = Absent | Dept(departmentName: Name, departmenName: Name)

  datatype Employee = Employee(department: Department)

  /** A value of `departmentCounts[k]`: not yet set (`undefined`), a count, or
      `NaN` (what `undefined += 1` gives). */
  datatype Count = Unset | N(n: nat) | NaN

  /** `departmentCounts`: its keys in insertion order and their values. */
  datatype Tally = Tally(keys: seq<string>, counts: map<string, Count>)

  /** One slice of the pie chart: `{ id, value, label }`. */
  datatype Slice = Slice(id: string, value: Count, labelText: string)

  /** The property key a name becomes: `undefined` is the key "undefined". */
  function Key(n: Name): string
  {
    match n
    case Named(s) => s
    case Unnamed => "undefined"
  }

  function Lookup(t: Tally, k: string): Count
  {
    if k in t.counts then t.counts[k] else Unset
  }

  /** `if (count)`: only a positive count is truthy (`NaN` is falsy). */
  predicate Truthy(c: Count)
  {
    c.N? && c.n != 0
  }

  /** `count + 1` */
  function Inc(c: Count): Count
  {
    match c
    case N(n) => N(n + 1)
    case _ => NaN
  }

  /** `departmentCounts[k] = c`: a new key goes to the end of the key order. */
  function Store(t: Tally, k: string, c: Count): (r: Tally)
    ensures r.counts == t.counts[k := c]
    ensures k in t.counts ==> r.keys == t.keys
    ensures k !in t.counts ==> r.keys == t.keys + [k]
  {
    Tally(if k in t.counts then t.keys else t.keys + [k], t.counts[k := c])
  }

  /** The keys are distinct and are exactly the set ones. */
  ghost predicate WellKept(t: Tally)
  {
    (forall i, j :: 0 <= i < j < |t.keys| ==> t.keys[i] != t.keys[j]) &&
    (forall k :: k in t.counts <==> k in t.keys)
  }

  function EmptyTally(): Tally
  {
    Tally([], map[])
  }

  /** One `forEach` iteration as written: the guard reads `departmenName`, the
      update writes `departmentName`. `None` when `employee.department` is
      absent (the property read throws). */
  function Tick(t: Tally, e: Employee): Option<Tally>
  {
    if e.department.Absent? then None
    else
      var probe, name := Key(e.department.departmenName), Key(e.department.departmentName);
      if Truthy(Lookup(t, probe)) then Some(Store(t, name, Inc(Lookup(t, name))))
      else Some(Store(t, name, N(1)))
  }

  /** The loop over `data`, stopping at the first throw. */
  function TallyOf(data: seq<Employee>): Option<Tally>
    decreases |data|
  {
    if data == [] then Some(EmptyTally())
    else
      var prev := TallyOf(data[..|data| - 1]);
      if prev.None? then None else Tick(prev.value, data[|data| - 1])
  }

  /** The `departmentCounts` loop, updating the object in place. */
  method CountDepartments(data: seq<Employee>) returns (r: Option<Tally>)
    ensures r == TallyOf(data)
  {
    var keys: seq<string> := [];
    var departmentCounts: map<string, Count> := map[];
    var i := 0;
    while i < |data|
      invariant 0 <= i <= |data|
      invariant TallyOf(data[..i]) == Some(Tally(keys, departmentCounts))
    {
      assert data[..i + 1][..i] == data[..i];
      var employee := data[i];
      if employee.department.Absent? {
        FailurePersists(data, i + 1);
        return None;
      }
      var probe := Key(employee.department.departmenName);
      var name := Key(employee.department.departmentName);
      var current := if probe in departmentCounts then departmentCounts[probe] else Unset;
      var next := N(1);
      if Truthy(current) {
        next := Inc(if name in departmentCounts then departmentCounts[name] else Unset);
      }
      if name !in departmentCounts {
        keys := keys + [name];
      }
      departmentCounts := departmentCounts[name := next];
      i := i + 1;
    }
    assert data[..i] == data;
    return Some(Tally(keys, departmentCounts));
  }

  /** `Object.keys(departmentCounts).map(...)`: one slice per key, in key order. */
  function PieChartData(t: Tally): (pie: seq<Slice>)
    ensures |pie| == |t.keys|
    ensures forall i :: 0 <= i < |pie| ==>
              pie[i].id == t.keys[i] && pie[i].labelText == t.keys[i] && pie[i].value == Lookup(t, t.keys[i])
  {
    seq(|t.keys|, i requires 0 <= i < |t.keys| => Slice(t.keys[i], Lookup(t, t.keys[i]), t.keys[i]))
  }

  /** What `await fetchEmployees()` hands `getDepartmentData`. `success` is not
      checked, so only the shape of `data` matters:
      - `Employees`: the resolved body's `data` is an array, from a successful
        request or from the error body of a failed one;
      - `NotAnArray`: the body's `data` is missing, `null` or not an array (the
        error body of a failed request normally has `data: null`), so
        `data.forEach` throws;
      - `Rejected`: the request failed with no `err.response`, so the
        destructuring in `performApiCall` throws and the await rejects. */
  datatype Fetched = Employees(data: seq<Employee>) | NotAnArray | Rejected

  /** The fetch or the count throws into the `catch`, and no chart is set. */
  predicate ChartThrows(reply: Fetched)
  {
    !reply.Employees? || TallyOf(reply.data).None?
  }

  /** `getDepartmentData`'s result: the pie data, or `None` when the fetch or the
      loop threw (the error is logged and the chart keeps its data). */
  method GetDepartmentData(reply: Fetched) returns (pie: Option<seq<Slice>>)
    ensures pie.None? <==> ChartThrows(reply)
    ensures pie.Some? ==> reply.Employees? && pie.value == PieChartData(TallyOf(reply.data).value)
  {
    if !reply.Employees? {
      return None;
    }
    var counts := CountDepartments(reply.data);
    if counts.None? {
      return None;
    }
    return Some(PieChartData(counts.value));
  }

  /** No chart exactly when the fetch did not give an array or some employee has
      no department object. */
  lemma ChartThrowsIff(reply: Fetched)
    ensures ChartThrows(reply) <==>
            reply.NotAnArray? || reply.Rejected? ||
            exists i :: 0 <= i < |reply.data| && reply.data[i].department.Absent?
  {
    if reply.Employees? {
      ThrowsIff(reply.data);
    }
  }

  /** Once an employee without a department is reached, the whole loop throws. */
  lemma {:induction false} FailurePersists(data: seq<Employee>, n: nat)
    requires n <= |data|
    requires TallyOf(data[..n]).None?
    ensures TallyOf(data).None?
    decreases |data| - n
  {
    if n < |data| {
      assert data[..n + 1][..n] == data[..n];
      FailurePersists(data, n + 1);
    } else {
      assert data[..n] == data;
    }
  }

  /** The loop throws exactly when some employee has no department. */
  lemma {:induction false} ThrowsIff(data: seq<Employee>)
    ensures TallyOf(data).None? <==> exists i :: 0 <= i < |data| && data[i].department.Absent?
    decreases |data|
  {
    if data != [] {
      var n := |data| - 1;
      ThrowsIff(data[..n]);
      if exists i :: 0 <= i < n && data[..n][i].department.Absent? {
        var i :| 0 <= i < n && data[..n][i].department.Absent?;
        assert data[i] == data[..n][i];
      }
      if exists i :: 0 <= i < |data| && data[i].department.Absent? {
        var i :| 0 <= i < |data| && data[i].department.Absent?;
        if i < n { assert data[..n][i] == data[i]; }
      }
    }
  }

  /** Some employee of `data` has a department whose name has key `k`. */
  predicate NameOccurs(data: seq<Employee>, k: string)
  {
    exists i :: 0 <= i < |data| && data[i].department.Dept? && Key(data[i].department.departmentName) == k
  }

  /** An iteration that does not throw keeps the keys distinct and adds the
      employee's department name to them. */
  lemma TickKeys(t: Tally, e: Employee)
    requires Tick(t, e).Some?
    requires WellKept(t)
    ensures WellKept(Tick(t, e).value)
    ensures forall k :: k in Tick(t, e).value.keys <==> k in t.keys || k == Key(e.department.departmentName)
  {
    var name := Key(e.department.departmentName);
    var r := Tick(t, e).value;
    assert r.counts.Keys == t.counts.Keys + {name};
    assert r.keys == if name in t.counts then t.keys else t.keys + [name];
  }

  /** The names of a prefix and then one more employee. */
  lemma NameOccursSplit(data: seq<Employee>, k: string)
    requires data != []
    ensures var n := |data| - 1;
            NameOccurs(data, k) <==>
            NameOccurs(data[..n], k) || (data[n].department.Dept? && Key(data[n].department.departmentName) == k)
  {
    var n := |data| - 1;
    if NameOccurs(data[..n], k) {
      var i :| 0 <= i < n && data[..n][i].department.Dept? && Key(data[..n][i].department.departmentName) == k;
      assert data[i] == data[..n][i];
    }
    if NameOccurs(data, k) {
      var i :| 0 <= i < |data| && data[i].department.Dept? && Key(data[i].department.departmentName) == k;
      if i < n { assert data[..n][i] == data[i]; }
    }
  }

  /** The keys are distinct and are exactly the keys of the employees' department
      names. */
  lemma {:induction false} KeysAreNames(data: seq<Employee>)
    requires TallyOf(data).Some?
    ensures WellKept(TallyOf(data).value)
    ensures forall k :: k in TallyOf(data).value.keys <==> NameOccurs(data, k)
    decreases |data|
  {
    if data != [] {
      var n := |data| - 1;
      assert TallyOf(data[..n]).Some?;
      KeysAreNames(data[..n]);
      TickKeys(TallyOf(data[..n]).value, data[n]);
      forall k ensures k in TallyOf(data).value.keys <==> NameOccurs(data, k) {
        NameOccursSplit(data, k);
      }
    }
  }

  /** With real data (every department named, none named "undefined", no
      `departmenName` property) the guard always reads `undefined`, so every
      count is 1 however many employees share a department. */
  lemma {:induction false} TypoCountsOnce(data: seq<Employee>)
    requires forall i :: 0 <= i < |data| ==> data[i].department.Dept?
    requires forall i :: 0 <= i < |data| ==> data[i].department.departmenName == Unnamed
    requires forall i :: 0 <= i < |data| ==>
               data[i].department.departmentName.Named? && data[i].department.departmentName.s != "undefined"
    ensures TallyOf(data).Some?
    ensures forall k :: k in TallyOf(data).value.counts ==> TallyOf(data).value.counts[k] == N(1)
    ensures "undefined" !in TallyOf(data).value.counts
    decreases |data|
  {
    if data != [] {
      var n := |data| - 1;
      TypoCountsOnce(data[..n]);
      var t := TallyOf(data[..n]).value;
      assert Lookup(t, Key(data[n].department.departmenName)) == Unset;
    }
  }

  /** How many employees of `data` have a department whose name has key `k`. */
  function Members(data: seq<Employee>, k: string): nat
    decreases |data|
  {
    if data == [] then 0
    else
      var e := data[|data| - 1];
      Members(data[..|data| - 1], k) + (if e.department.Dept? && Key(e.department.departmentName) == k then 1 else 0)
  }

  /** One iteration as evidently intended: the guard reads `departmentName`. */
  function IntendedTick(t: Tally, e: Employee): Option<Tally>
  {
    if e.department.Absent? then None
    else
      var name := Key(e.department.departmentName);
      if Truthy(Lookup(t, name)) then Some(Store(t, name, Inc(Lookup(t, name))))
      else Some(Store(t, name, N(1)))
  }

  function IntendedTallyOf(data: seq<Employee>): Option<Tally>
    decreases |data|
  {
    if data == [] then Some(EmptyTally())
    else
      var prev := IntendedTallyOf(data[..|data| - 1]);
      if prev.None? then None else IntendedTick(prev.value, data[|data| - 1])
  }

  /** With the guard corrected, every key's count is its number of employees and
      a name that no employee has is not a key. */
  lemma {:induction false} IntendedCounts(data: seq<Employee>)
    requires IntendedTallyOf(data).Some?
    ensures forall k :: k in IntendedTallyOf(data).value.counts ==>
              IntendedTallyOf(data).value.counts[k] == N(Members(data, k))
    ensures forall k :: k !in IntendedTallyOf(data).value.counts ==> Members(data, k) == 0
    decreases |data|
  {
    if data != [] {
      var n := |data| - 1;
      assert IntendedTallyOf(data[..n]).Some?;
      IntendedCounts(data[..n]);
    }
  }

  /** Two employees of one department: as written the department counts 1. */
  lemma TypoUndercounts()
    ensures var sales := Employee(Dept(Named("Sales"), Unnamed));
            TallyOf([sales, sales]) == Some(Tally(["Sales"], map["Sales" := N(1)]))
  {
    var sales := Employee(Dept(Named("Sales"), Unnamed));
    assert [sales, sales][..1] == [sales];
    assert [sales][..0] == [];
    var one := Tally(["Sales"], map["Sales" := N(1)]);
    assert TallyOf([sales]) == Tick(EmptyTally(), sales);
    assert Store(EmptyTally(), "Sales", N(1)) == one;
    assert TallyOf([sales]) == Some(one);
    assert Lookup(one, "undefined") == Unset;
    assert one.counts["Sales" := N(1)] == one.counts;
  }

  /** The same two employees, counted as intended: 2. */
  lemma IntendedCountsTwo()
    ensures var sales := Employee(Dept(Named("Sales"), Unnamed));
            IntendedTallyOf([sales, sales]) == Some(Tally(["Sales"], map["Sales" := N(2)]))
  {
    var sales := Employee(Dept(Named("Sales"), Unnamed));
    assert [sales, sales][..1] == [sales];
    assert [sales][..0] == [];
    var one := Tally(["Sales"], map["Sales" := N(1)]);
    assert IntendedTallyOf([sales]) == IntendedTick(EmptyTally(), sales);
    assert Store(EmptyTally(), "Sales", N(1)) == one;
    assert IntendedTallyOf([sales]) == Some(one);
    assert Lookup(one, "Sales") == N(1);
    assert one.counts["Sales" := N(2)] == map["Sales" := N(2)];
  }

  /** No employees, no slices. */
  lemma EmptyPie()
    ensures TallyOf([]) == Some(EmptyTally()) && PieChartData(EmptyTally()) == []
  {
  }
}
