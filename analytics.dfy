/** The turnover dashboard of the backend (backend/analytics/views.py, `turnover_analytics`):
    the requester's scope, the risk counters and the high-risk list built in a loop, the
    per-department counts, the per-department risk table built in a loop over grouped rows,
    the pending and completed survey counts, and the five TURNOVER factors with the highest
    average score. */
module Analytics {
  import opened Basics
  import opened Domain
  import opened SurveyModels
  import opened SurveyViews
  import opened Grouping

  const LOW := "LOW"
  const MEDIUM := "MEDIUM"
  const HIGH := "HIGH"

  /** An employee with its user's names and department joined in. */
  datatype EmployeeRecord = EmployeeRecord(id: int, firstName: string, lastName: string,
                                           department: Option<int>, departmentName: Option<string>, risk: string)

  // ---------------------------------------------------------------------------
  // Scope

  /** An HR requester sees its own department only (a null department matching a null one);
      every other requester sees everything. */
  predicate InScope(r: Requester, department: Option<int>) {
    r.role != HR || department == r.department
  }

  function ScopedEmployees(emps: seq<EmployeeRecord>, r: Requester): (scoped: seq<EmployeeRecord>)
    ensures |scoped| <= |emps|
    ensures forall e :: e in scoped <==> e in emps && InScope(r, e.department)
  {
    if |emps| == 0 then []
    else
      var e := emps[|emps| - 1];
      assert emps == emps[..|emps| - 1] + [e];
      ScopedEmployees(emps[..|emps| - 1], r) + (if InScope(r, e.department) then [e] else [])
  }

  function ScopedAssignmentRows(rows: seq<AssignmentRow>, r: Requester): (scoped: seq<AssignmentRow>)
    ensures |scoped| <= |rows|
    ensures forall a :: a in scoped <==> a in rows && InScope(r, a.department)
  {
    if |rows| == 0 then []
    else
      var a := rows[|rows| - 1];
      assert rows == rows[..|rows| - 1] + [a];
      ScopedAssignmentRows(rows[..|rows| - 1], r) + (if InScope(r, a.department) then [a] else [])
  }

  function EmployeeInScope(r: Requester): EmployeeRecord -> bool {
    (x: EmployeeRecord) => InScope(r, x.department)
  }

  /** `ScopedEmployees` is the order-keeping filter by its condition. */
  lemma {:induction false} ScopedEmployeesIsKeep(xs: seq<EmployeeRecord>, r: Requester)
    ensures ScopedEmployees(xs, r) == Keep(xs, EmployeeInScope(r))
  {
    if |xs| > 0 {
      ScopedEmployeesIsKeep(xs[..|xs| - 1], r);
    }
  }

  /** Scoping a concatenation scopes each part: the kept employees stay in their original order. */
  lemma {:induction false} ScopedEmployeesSplit(front: seq<EmployeeRecord>, back: seq<EmployeeRecord>, r: Requester)
    ensures ScopedEmployees(front + back, r) == ScopedEmployees(front, r) + ScopedEmployees(back, r)
  {
    ScopedEmployeesIsKeep(front + back, r);
    ScopedEmployeesIsKeep(front, r);
    ScopedEmployeesIsKeep(back, r);
    KeepSplit(front, back, EmployeeInScope(r));
  }

  function AssignmentInScope(r: Requester): AssignmentRow -> bool {
    (x: AssignmentRow) => InScope(r, x.department)
  }

  /** `ScopedAssignmentRows` is the order-keeping filter by its condition. */
  lemma {:induction false} ScopedAssignmentRowsIsKeep(xs: seq<AssignmentRow>, r: Requester)
    ensures ScopedAssignmentRows(xs, r) == Keep(xs, AssignmentInScope(r))
  {
    if |xs| > 0 {
      ScopedAssignmentRowsIsKeep(xs[..|xs| - 1], r);
    }
  }

  /** Scoping a concatenation scopes each part: the kept assignments stay in their original order. */
  lemma {:induction false} ScopedAssignmentRowsSplit(front: seq<AssignmentRow>, back: seq<AssignmentRow>, r: Requester)
    ensures ScopedAssignmentRows(front + back, r) == ScopedAssignmentRows(front, r) + ScopedAssignmentRows(back, r)
  {
    ScopedAssignmentRowsIsKeep(front + back, r);
    ScopedAssignmentRowsIsKeep(front, r);
    ScopedAssignmentRowsIsKeep(back, r);
    KeepSplit(front, back, AssignmentInScope(r));
  }

  lemma {:induction false} OthersSeeAllEmployees(emps: seq<EmployeeRecord>, r: Requester)
    requires r.role != HR
    ensures ScopedEmployees(emps, r) == emps
  {
    if |emps| > 0 {
      OthersSeeAllEmployees(emps[..|emps| - 1], r);
      assert emps == emps[..|emps| - 1] + [emps[|emps| - 1]];
    }
  }

  // ---------------------------------------------------------------------------
  // Names

  /** `f"{first} {last}".strip() or username`; the user model has no username, so the
      fallback is null (None). */
  function DisplayName(first: string, last: string): (name: Option<string>)
    ensures name.None? <==> forall i :: 0 <= i < |first + " " + last| ==> IsPySpace((first + " " + last)[i])
    ensures name.Some? ==> name.value != "" && !IsPySpace(name.value[0]) && !IsPySpace(name.value[|name.value| - 1])
                           && CutFrom(first + " " + last, name.value, IsPySpace)
  {
    var full := PyStrip(first + " " + last);
    if full == "" then None else Some(full)
  }

  /** The shown name is any cut of `"first last"` that removes only whitespace and keeps
      non-space ends: there is exactly one. */
  lemma {:induction false} DisplayNameIsTheCut(first: string, last: string, shown: string)
    requires CutFrom(first + " " + last, shown, IsPySpace)
    requires shown != "" && !IsPySpace(shown[0]) && !IsPySpace(shown[|shown| - 1])
    ensures DisplayName(first, last) == Some(shown)
  {
    var full := first + " " + last;
    var a: nat, b: nat :| CutAt(full, shown, a, b, IsPySpace);
    assert full[a] == shown[0];
    assert PyStrip(full) != "";
    CutIsUnique(full, PyStrip(full), shown, IsPySpace);
  }

  /** Names without surrounding whitespace are shown joined by one space. */
  lemma {:induction false} DisplayNameOfTrimmedNames(first: string, last: string)
    requires first != "" && last != "" && !IsPySpace(first[0]) && !IsPySpace(last[|last| - 1])
    ensures DisplayName(first, last) == Some(first + " " + last)
  {
    var full := first + " " + last;
    assert full[0] == first[0] && full[|full| - 1] == last[|last| - 1];
    CutWhole(full, IsPySpace);
    DisplayNameIsTheCut(first, last, full);
  }

  /** One blank name: the other, if it has no surrounding whitespace, is shown alone. */
  lemma {:induction false} DisplayNameOfOneName(name: string)
    requires name != "" && !IsPySpace(name[0]) && !IsPySpace(name[|name| - 1])
    ensures DisplayName("", name) == Some(name)
    ensures DisplayName(name, "") == Some(name)
  {
    var f1 := "" + " " + name;
    assert CutAt(f1, name, 1, |f1|, IsPySpace);
    DisplayNameIsTheCut("", name, name);
    var f2 := name + " " + "";
    assert CutAt(f2, name, 0, |name|, IsPySpace);
    DisplayNameIsTheCut(name, "", name);
  }

  /** Whitespace around the names is not shown: padding outside them changes nothing. */
  lemma {:induction false} DisplayNameIgnoresPadding(first: string, last: string, pre: string, post: string)
    requires forall i :: 0 <= i < |pre| ==> IsPySpace(pre[i])
    requires forall i :: 0 <= i < |post| ==> IsPySpace(post[i])
    ensures DisplayName(pre + first, last + post) == DisplayName(first, last)
  {
    var inner := first + " " + last;
    var outer := (pre + first) + " " + (last + post);
    assert outer == pre + inner + post;
    match DisplayName(first, last)
    case None =>
      AllSpacePadded(pre, inner, post, IsPySpace);
    case Some(shown) =>
      CutThroughPadding(pre, inner, post, shown, IsPySpace);
      DisplayNameIsTheCut(pre + first, last + post, shown);
  }

  /** Blank names fall back to the (null) username. */
  lemma {:induction false} DisplayNameOfBlankNames()
    ensures DisplayName("", "") == None
  {
    assert IsPySpace(("" + " " + "")[0]);
  }

  /** `d['user__department__name'] or 'N/A'`. */
  function DepartmentLabel(name: Option<string>): (shown: string)
    ensures shown != ""
    ensures name.Some? && name.value != "" ==> shown == name.value
    ensures name.None? || name.value == "" ==> shown == "N/A"
  {
    if name.None? || name.value == "" then "N/A" else name.value
  }

  /** `getattr(emp.user.department, 'name', 'N/A')`: 'N/A' only without a department. */
  function HighRiskDepartment(name: Option<string>): (shown: string)
    ensures name.Some? ==> shown == name.value
    ensures name.None? ==> shown == "N/A"
  {
    if name.Some? then name.value else "N/A"
  }

  // ---------------------------------------------------------------------------
  // Risk counters and the high-risk list

  datatype RiskCounts = RiskCounts(low: nat, medium: nat, high: nat)

  datatype HighRiskEntry = HighRiskEntry(name: Option<string>, department: string)

  datatype RiskSummary = RiskSummary(counts: RiskCounts, highRisk: seq<HighRiskEntry>)

  function EntryOf(e: EmployeeRecord): HighRiskEntry {
    HighRiskEntry(DisplayName(e.firstName, e.lastName), HighRiskDepartment(e.departmentName))
  }

  /** The loop body for one employee: an empty risk is skipped, a risk outside the three
      counters raises KeyError (None). */
  function CountStep(s: Option<RiskSummary>, e: EmployeeRecord): Option<RiskSummary> {
    if s.None? || e.risk == "" then s
    else
      var c := s.value.counts;
      if e.risk == LOW then Some(s.value.(counts := c.(low := c.low + 1)))
      else if e.risk == MEDIUM then Some(s.value.(counts := c.(medium := c.medium + 1)))
      else if e.risk == HIGH then Some(RiskSummary(c.(high := c.high + 1), s.value.highRisk + [EntryOf(e)]))
      else None
  }

  function Summarised(emps: seq<EmployeeRecord>): Option<RiskSummary> {
    if |emps| == 0 then Some(RiskSummary(RiskCounts(0, 0, 0), []))
    else CountStep(Summarised(emps[..|emps| - 1]), emps[|emps| - 1])
  }

  /** The number of employees whose risk is `risk`. */
  function RiskCount(emps: seq<EmployeeRecord>, risk: string): nat {
    if |emps| == 0 then 0
    else RiskCount(emps[..|emps| - 1], risk) + (if emps[|emps| - 1].risk == risk then 1 else 0)
  }

  /** The high-risk employees, in order, as the dashboard lists them. */
  function HighRiskEntries(emps: seq<EmployeeRecord>): seq<HighRiskEntry> {
    if |emps| == 0 then []
    else
      var e := emps[|emps| - 1];
      HighRiskEntries(emps[..|emps| - 1]) + (if e.risk == HIGH then [EntryOf(e)] else [])
  }

  predicate KnownRisk(risk: string) {
    risk == "" || risk == LOW || risk == MEDIUM || risk == HIGH
  }

  /** The loop raises exactly when some employee has a non-empty risk outside LOW, MEDIUM and
      HIGH; otherwise each counter counts the employees with its risk, and the high-risk list
      holds exactly the HIGH employees in iteration order. */
  lemma {:induction false} SummaryCounts(emps: seq<EmployeeRecord>)
    ensures Summarised(emps).None? <==> exists i :: 0 <= i < |emps| && !KnownRisk(emps[i].risk)
    ensures Summarised(emps).Some? ==>
      Summarised(emps).value == RiskSummary(RiskCounts(RiskCount(emps, LOW), RiskCount(emps, MEDIUM), RiskCount(emps, HIGH)),
                                            HighRiskEntries(emps))
  {
    if |emps| > 0 {
      var init := emps[..|emps| - 1];
      SummaryCounts(init);
      if Summarised(init).None? {
        var i :| 0 <= i < |init| && !KnownRisk(init[i].risk);
        assert emps[i] == init[i];
      }
      forall i | 0 <= i < |init| && !KnownRisk(init[i].risk)
        ensures Summarised(init).None?
      {
        assert init[i] == emps[i];
      }
    }
  }

  /** The three counters add up to the number of employees with a risk, and the high-risk
      list is as long as the HIGH counter. */
  lemma {:induction false} CountersAddUp(emps: seq<EmployeeRecord>)
    requires forall i :: 0 <= i < |emps| ==> KnownRisk(emps[i].risk)
    ensures RiskCount(emps, LOW) + RiskCount(emps, MEDIUM) + RiskCount(emps, HIGH) == |emps| - RiskCount(emps, "")
    ensures |HighRiskEntries(emps)| == RiskCount(emps, HIGH)
  {
    if |emps| > 0 {
      CountersAddUp(emps[..|emps| - 1]);
    }
  }

  /** The risk loop of `turnover_analytics`. */
  method SummariseRisks(emps: seq<EmployeeRecord>) returns (summary: Option<RiskSummary>)
    ensures summary == Summarised(emps)
  {
    var low, medium, high := 0, 0, 0;
    var highRisk: seq<HighRiskEntry> := [];
    var i := 0;
    while i < |emps|
      invariant 0 <= i <= |emps|
      invariant Summarised(emps[..i]) == Some(RiskSummary(RiskCounts(low, medium, high), highRisk))
    {
      assert emps[..i + 1][..i] == emps[..i];
      var e := emps[i];
      if e.risk != "" {
        if e.risk == LOW {
          low := low + 1;
        } else if e.risk == MEDIUM {
          medium := medium + 1;
        } else if e.risk == HIGH {
          high := high + 1;
          highRisk := highRisk + [EntryOf(e)];
        } else {
          assert Summarised(emps[..i + 1]) == None;
          CrashedStaysCrashed(emps, i + 1);
          assert emps[..|emps|] == emps;
          return None;
        }
      }
      i := i + 1;
    }
    assert emps[..|emps|] == emps;
    summary := Some(RiskSummary(RiskCounts(low, medium, high), highRisk));
  }

  lemma {:induction false} CrashedStaysCrashed(emps: seq<EmployeeRecord>, n: nat)
    requires n <= |emps| && Summarised(emps[..n]).None?
    ensures Summarised(emps).None?
    decreases |emps| - n
  {
    if n < |emps| {
      assert emps[..n + 1][..n] == emps[..n];
      CrashedStaysCrashed(emps, n + 1);
    } else {
      assert emps[..n] == emps;
    }
  }

  // ---------------------------------------------------------------------------
  // Employees per department

  datatype DepartmentCount = DepartmentCount(name: string, count: nat)

  function DeptPairs(emps: seq<EmployeeRecord>): (pairs: seq<(Option<string>, real)>)
    ensures |pairs| == |emps|
    ensures forall i :: 0 <= i < |emps| ==> pairs[i] == (emps[i].departmentName, 0.0)
  {
    if |emps| == 0 then [] else DeptPairs(emps[..|emps| - 1]) + [(emps[|emps| - 1].departmentName, 0.0)]
  }

  /** `by_department`: one entry per group of department names, labelled. */
  function Labelled(gs: seq<Group<Option<string>>>): (r: seq<DepartmentCount>)
    ensures |r| == |gs|
    ensures forall i :: 0 <= i < |gs| ==> r[i] == DepartmentCount(DepartmentLabel(gs[i].key), gs[i].count)
  {
    if |gs| == 0 then [] else Labelled(gs[..|gs| - 1]) + [DepartmentCount(DepartmentLabel(gs[|gs| - 1].key), gs[|gs| - 1].count)]
  }

  function ByDepartment(emps: seq<EmployeeRecord>): seq<DepartmentCount> {
    Labelled(GroupBy(DeptPairs(emps)))
  }

  function TotalCount(r: seq<DepartmentCount>): nat {
    if |r| == 0 then 0 else TotalCount(r[..|r| - 1]) + r[|r| - 1].count
  }

  lemma {:induction false} LabelledTotal(gs: seq<Group<Option<string>>>)
    ensures TotalCount(Labelled(gs)) == GroupCountWhere(gs, Anything())
  {
    if |gs| > 0 {
      LabelledTotal(gs[..|gs| - 1]);
      assert Labelled(gs)[..|gs| - 1] == Labelled(gs[..|gs| - 1]);
    }
  }

  /** Every scoped employee is counted in exactly one department entry. */
  lemma {:induction false} ByDepartmentTotal(emps: seq<EmployeeRecord>)
    ensures TotalCount(ByDepartment(emps)) == |emps|
  {
    LabelledTotal(GroupBy(DeptPairs(emps)));
    GroupCountsTotal(DeptPairs(emps));
  }

  // ---------------------------------------------------------------------------
  // Risk per department

  type RiskKey = (Option<string>, string)

  datatype DeptRisk = DeptRisk(department: string, low: nat, medium: nat, high: nat)

  /** The (department name, risk) pair of each employee, grouped by the ORM. */
  function RiskPairs(emps: seq<EmployeeRecord>): (pairs: seq<(RiskKey, real)>)
    ensures |pairs| == |emps|
    ensures forall i :: 0 <= i < |emps| ==> pairs[i].0 == (emps[i].departmentName, emps[i].risk)
  {
    if |emps| == 0 then [] else RiskPairs(emps[..|emps| - 1]) + [((emps[|emps| - 1].departmentName, emps[|emps| - 1].risk), 0.0)]
  }

  function CellIndex(table: seq<DeptRisk>, d: string): (found: Option<nat>)
    ensures found.Some? ==> found.value < |table| && table[found.value].department == d
    ensures found.None? ==> forall i :: 0 <= i < |table| ==> table[i].department != d
  {
    if |table| == 0 then None
    else if table[|table| - 1].department == d then Some(|table| - 1)
    else CellIndex(table[..|table| - 1], d)
  }

  /** Adds `n` to the counter of `risk`; other risks change nothing. */
  function Bump(c: DeptRisk, risk: string, n: nat): DeptRisk {
    if risk == LOW then c.(low := c.low + n)
    else if risk == MEDIUM then c.(medium := c.medium + n)
    else if risk == HIGH then c.(high := c.high + n)
    else c
  }

  /** The loop body for one grouped row. */
  function TableStep(table: seq<DeptRisk>, row: Group<RiskKey>): seq<DeptRisk> {
    var d := DepartmentLabel(row.key.0);
    match CellIndex(table, d)
    case Some(i) => table[i := Bump(table[i], row.key.1, row.count)]
    case None => table + [Bump(DeptRisk(d, 0, 0, 0), row.key.1, row.count)]
  }

  function RiskTable(rows: seq<Group<RiskKey>>): seq<DeptRisk> {
    if |rows| == 0 then [] else TableStep(RiskTable(rows[..|rows| - 1]), rows[|rows| - 1])
  }

  /** The keys of the cell of department `d` and risk `risk`. */
  function InCell(d: string, risk: string): RiskKey -> bool {
    (k: RiskKey) => DepartmentLabel(k.0) == d && k.1 == risk
  }

  predicate HasDepartment(rows: seq<Group<RiskKey>>, d: string) {
    exists j :: 0 <= j < |rows| && DepartmentLabel(rows[j].key.0) == d
  }

  /** The counters of department `d`, all zero when it has no entry. */
  function Cell(table: seq<DeptRisk>, d: string): DeptRisk {
    match CellIndex(table, d)
    case Some(i) => table[i]
    case None => DeptRisk(d, 0, 0, 0)
  }

  /** A row of another department leaves the entry of `d` as it was. */
  lemma {:induction false} TableStepOther(table: seq<DeptRisk>, row: Group<RiskKey>, d: string)
    requires DepartmentLabel(row.key.0) != d
    ensures CellIndex(TableStep(table, row), d) == CellIndex(table, d)
    ensures Cell(TableStep(table, row), d) == Cell(table, d)
  {
    var d' := DepartmentLabel(row.key.0);
    match CellIndex(table, d')
    case Some(i) => CellIndexOther(table, i, Bump(table[i], row.key.1, row.count), d);
    case None => CellIndexAppend(table, Bump(DeptRisk(d', 0, 0, 0), row.key.1, row.count), d);
  }

  /** A row of department `d` adds its count to the counter of its risk. */
  lemma {:induction false} TableStepSame(table: seq<DeptRisk>, row: Group<RiskKey>, d: string)
    requires DepartmentLabel(row.key.0) == d
    requires CellIndex(table, d).None? ==> Cell(table, d) == DeptRisk(d, 0, 0, 0)
    ensures CellIndex(TableStep(table, row), d).Some?
    ensures Cell(TableStep(table, row), d) == Bump(Cell(table, d), row.key.1, row.count)
  {
    var t := TableStep(table, row);
    match CellIndex(table, d)
    case Some(i) => CellIndexSame(table, i, Bump(table[i], row.key.1, row.count));
    case None =>
      assert t[..|table|] == table;
      assert t[|table|].department == d;
  }

  lemma {:induction false} HasDepartmentSplit(rows: seq<Group<RiskKey>>, d: string)
    requires |rows| > 0
    ensures HasDepartment(rows, d) <==> HasDepartment(rows[..|rows| - 1], d) || DepartmentLabel(rows[|rows| - 1].key.0) == d
  {
    var init := rows[..|rows| - 1];
    if HasDepartment(init, d) {
      var j :| 0 <= j < |init| && DepartmentLabel(init[j].key.0) == d;
      assert rows[j] == init[j];
    }
    if HasDepartment(rows, d) {
      var j :| 0 <= j < |rows| && DepartmentLabel(rows[j].key.0) == d;
      if j < |init| {
        assert init[j] == rows[j];
      }
    }
  }

  /** The cell of `d` exists exactly when some row is of department `d`. */
  lemma {:induction false} RiskTableHasCell(rows: seq<Group<RiskKey>>, d: string)
    ensures CellIndex(RiskTable(rows), d).Some? <==> HasDepartment(rows, d)
  {
    if |rows| > 0 {
      var init := rows[..|rows| - 1];
      var row := rows[|rows| - 1];
      RiskTableHasCell(init, d);
      HasDepartmentSplit(rows, d);
      assert RiskTable(rows) == TableStep(RiskTable(init), row);
      if DepartmentLabel(row.key.0) != d {
        TableStepOther(RiskTable(init), row, d);
      } else {
        TableStepSame(RiskTable(init), row, d);
      }
    }
  }

  /** Adding a row of department `d` to its counters is adding its count to each cell whose
      keys it matches. */
  lemma {:induction false} BumpMatchesCells(c: DeptRisk, row: Group<RiskKey>, d: string)
    requires DepartmentLabel(row.key.0) == d
    ensures Bump(c, row.key.1, row.count)
            == DeptRisk(c.department, c.low + (if InCell(d, LOW)(row.key) then row.count else 0),
                        c.medium + (if InCell(d, MEDIUM)(row.key) then row.count else 0),
                        c.high + (if InCell(d, HIGH)(row.key) then row.count else 0))
  {
  }

  /** Each counter of department `d` sums the counts of that department's rows with that
      risk. */
  lemma {:induction false} RiskTableCells(rows: seq<Group<RiskKey>>, d: string)
    ensures Cell(RiskTable(rows), d) == DeptRisk(d, GroupCountWhere(rows, InCell(d, LOW)),
                                                 GroupCountWhere(rows, InCell(d, MEDIUM)),
                                                 GroupCountWhere(rows, InCell(d, HIGH)))
  {
    if |rows| > 0 {
      var init := rows[..|rows| - 1];
      var row := rows[|rows| - 1];
      RiskTableCells(init, d);
      var c := Cell(RiskTable(init), d);
      if DepartmentLabel(row.key.0) != d {
        TableStepOther(RiskTable(init), row, d);
        assert !InCell(d, LOW)(row.key) && !InCell(d, MEDIUM)(row.key) && !InCell(d, HIGH)(row.key);
      } else {
        TableStepSame(RiskTable(init), row, d);
        BumpMatchesCells(c, row, d);
      }
    }
  }

  lemma {:induction false} CellIndexOther(table: seq<DeptRisk>, i: nat, c: DeptRisk, d: string)
    requires i < |table| && c.department == table[i].department && table[i].department != d
    ensures CellIndex(table[i := c], d) == CellIndex(table, d)
  {
    var t := table[i := c];
    if |table| > 0 && i < |table| - 1 {
      assert t[..|t| - 1] == table[..|table| - 1][i := c];
      CellIndexOther(table[..|table| - 1], i, c, d);
    } else if |table| > 0 {
      assert t[..|t| - 1] == table[..|table| - 1];
    }
  }

  lemma {:induction false} CellIndexSame(table: seq<DeptRisk>, i: nat, c: DeptRisk)
    requires i < |table| && c.department == table[i].department
    requires CellIndex(table, c.department) == Some(i)
    ensures CellIndex(table[i := c], c.department) == Some(i)
  {
    var t := table[i := c];
    if i < |table| - 1 {
      assert t[..|t| - 1] == table[..|table| - 1][i := c];
      CellIndexSame(table[..|table| - 1], i, c);
    }
  }

  lemma {:induction false} CellIndexAppend(table: seq<DeptRisk>, c: DeptRisk, d: string)
    requires c.department != d
    ensures CellIndex(table + [c], d) == CellIndex(table, d)
  {
    assert (table + [c])[..|table|] == table;
  }

  predicate DistinctDepartments(table: seq<DeptRisk>) {
    forall i, j :: 0 <= i < j < |table| ==> table[i].department != table[j].department
  }

  /** Each department appears once in the table. */
  lemma {:induction false} RiskTableDistinct(rows: seq<Group<RiskKey>>)
    ensures DistinctDepartments(RiskTable(rows))
  {
    if |rows| > 0 {
      RiskTableDistinct(rows[..|rows| - 1]);
      var t0 := RiskTable(rows[..|rows| - 1]);
      var row := rows[|rows| - 1];
      var t := RiskTable(rows);
      match CellIndex(t0, DepartmentLabel(row.key.0))
      case Some(i) =>
        assert forall k :: 0 <= k < |t0| ==> t[k].department == t0[k].department;
      case None =>
        assert forall k :: 0 <= k < |t0| ==> t[k] == t0[k];
    }
  }

  /** The risk loop of `turnover_analytics` over the grouped rows. */
  method RiskByDepartment(rows: seq<Group<RiskKey>>) returns (table: seq<DeptRisk>)
    ensures table == RiskTable(rows)
  {
    table := [];
    var j := 0;
    while j < |rows|
      invariant 0 <= j <= |rows|
      invariant table == RiskTable(rows[..j])
    {
      assert rows[..j + 1][..j] == rows[..j];
      table := RiskStep(table, rows[j]);
      j := j + 1;
    }
    assert rows[..|rows|] == rows;
  }

  /** One pass of the risk loop: find or append the department's entry, then bump the
      counter named by the row's risk. */
  method RiskStep(table0: seq<DeptRisk>, row: Group<RiskKey>) returns (table: seq<DeptRisk>)
    ensures table == TableStep(table0, row)
  {
    table := table0;
    var d := DepartmentLabel(row.key.0);
    var found := CellIndex(table, d);
    if found.None? {
      table := table + [DeptRisk(d, 0, 0, 0)];
      found := Some(|table| - 1);
    }
    var i := found.value;
    if row.key.1 == LOW {
      table := table[i := table[i].(low := table[i].low + row.count)];
    } else if row.key.1 == MEDIUM {
      table := table[i := table[i].(medium := table[i].medium + row.count)];
    } else if row.key.1 == HIGH {
      table := table[i := table[i].(high := table[i].high + row.count)];
    }
  }

  /** The number of employees shown under department `d` with risk `risk`. */
  function EmployeesInCell(emps: seq<EmployeeRecord>, d: string, risk: string): nat {
    if |emps| == 0 then 0
    else
      var e := emps[|emps| - 1];
      EmployeesInCell(emps[..|emps| - 1], d, risk) + (if DepartmentLabel(e.departmentName) == d && e.risk == risk then 1 else 0)
  }

  lemma {:induction false} CellCountsEmployees(emps: seq<EmployeeRecord>, d: string, risk: string)
    ensures CountWhere(RiskPairs(emps), InCell(d, risk)) == EmployeesInCell(emps, d, risk)
  {
    if |emps| > 0 {
      CellCountsEmployees(emps[..|emps| - 1], d, risk);
      assert RiskPairs(emps)[..|emps| - 1] == RiskPairs(emps[..|emps| - 1]);
    }
  }

  /** `riskByDepartment`: department `d` has an entry exactly when some scoped employee is
      shown under `d`, and its counters are the numbers of such employees with LOW, MEDIUM
      and HIGH risk. */
  lemma {:induction false} RiskByDepartmentCounts(emps: seq<EmployeeRecord>, d: string)
    ensures var table := RiskTable(GroupBy(RiskPairs(emps)));
      && (CellIndex(table, d).Some? <==> exists i :: 0 <= i < |emps| && DepartmentLabel(emps[i].departmentName) == d)
      && Cell(table, d) == DeptRisk(d, EmployeesInCell(emps, d, LOW), EmployeesInCell(emps, d, MEDIUM),
                                    EmployeesInCell(emps, d, HIGH))
  {
    var pairs := RiskPairs(emps);
    var rows := GroupBy(pairs);
    RiskTableHasCell(rows, d);
    RiskTableCells(rows, d);
    GroupByShape(pairs);
    GroupByKeepsTotals(pairs, InCell(d, LOW));
    GroupByKeepsTotals(pairs, InCell(d, MEDIUM));
    GroupByKeepsTotals(pairs, InCell(d, HIGH));
    CellCountsEmployees(emps, d, LOW);
    CellCountsEmployees(emps, d, MEDIUM);
    CellCountsEmployees(emps, d, HIGH);
    if HasDepartment(rows, d) {
      var j :| 0 <= j < |rows| && DepartmentLabel(rows[j].key.0) == d;
      assert HasGroup(rows, rows[j].key);
      var i :| 0 <= i < |pairs| && pairs[i].0 == rows[j].key;
      assert DepartmentLabel(emps[i].departmentName) == d;
    }
    if exists i :: 0 <= i < |emps| && DepartmentLabel(emps[i].departmentName) == d {
      var i :| 0 <= i < |emps| && DepartmentLabel(emps[i].departmentName) == d;
      assert HasPair(pairs, pairs[i].0);
      var j :| 0 <= j < |rows| && rows[j].key == pairs[i].0;
      assert HasDepartment(rows, d);
    }
  }

  // ---------------------------------------------------------------------------
  // Pending and completed surveys

  function PendingCount(rows: seq<AssignmentRow>): nat {
    if |rows| == 0 then 0 else PendingCount(rows[..|rows| - 1]) + (if rows[|rows| - 1].isCompleted then 0 else 1)
  }

  function DoneCount(rows: seq<AssignmentRow>): nat {
    if |rows| == 0 then 0 else DoneCount(rows[..|rows| - 1]) + (if rows[|rows| - 1].isCompleted then 1 else 0)
  }

  lemma {:induction false} PendingPlusDone(rows: seq<AssignmentRow>)
    ensures PendingCount(rows) + DoneCount(rows) == |rows|
  {
    if |rows| > 0 {
      PendingPlusDone(rows[..|rows| - 1]);
    }
  }

  // ---------------------------------------------------------------------------
  // Top risk factors

  datatype FactorAverage = FactorAverage(factor: string, avg: real)

  /** The factor name and score of a scored response to a question of a TURNOVER factor. */
  function TurnoverScore(qs: seq<QuestionRow>, row: ResponseRow): Option<(string, real)> {
    if row.score.None? then None
    else match QuestionById(qs, row.questionId)
      case Some(qr) =>
        if qr.q.factor.Some? && qr.q.factor.value.ftype == TURNOVER then Some((qr.q.factor.value.name, row.score.value))
        else None
      case None => None
  }

  function FactorPairs(qs: seq<QuestionRow>, rows: seq<ResponseRow>): (pairs: seq<(string, real)>)
    ensures forall j :: 0 <= j < |pairs| ==> exists k :: 0 <= k < |rows| && TurnoverScore(qs, rows[k]) == Some(pairs[j])
  {
    if |rows| == 0 then []
    else
      var init := FactorPairs(qs, rows[..|rows| - 1]);
      var last := TurnoverScore(qs, rows[|rows| - 1]);
      var pairs := init + (if last.Some? then [last.value] else []);
      assert forall j :: 0 <= j < |init| ==> pairs[j] == init[j];
      assert forall k :: 0 <= k < |rows| - 1 ==> rows[..|rows| - 1][k] == rows[k];
      pairs
  }

  /** `Avg('score')` of each group. */
  function Averages(gs: seq<Group<string>>): (avgs: seq<FactorAverage>)
    ensures |avgs| == |gs|
    ensures forall i :: 0 <= i < |gs| ==> avgs[i].factor == gs[i].key
  {
    if |gs| == 0 then []
    else
      var g := gs[|gs| - 1];
      Averages(gs[..|gs| - 1]) + [FactorAverage(g.key, if g.count > 0 then g.sum / (g.count as real) else 0.0)]
  }

  predicate NonIncreasing(s: seq<FactorAverage>) {
    forall i, j :: 0 <= i < j < |s| ==> s[i].avg >= s[j].avg
  }

  function InsertDesc(x: FactorAverage, s: seq<FactorAverage>): (r: seq<FactorAverage>)
    requires NonIncreasing(s)
    ensures NonIncreasing(r)
    ensures multiset(r) == multiset(s) + multiset{x}
    ensures r[0] == x || (|s| > 0 && r[0] == s[0])
  {
    if |s| == 0 then [x]
    else if x.avg >= s[0].avg then [x] + s
    else
      var rest := InsertDesc(x, s[1..]);
      assert s == [s[0]] + s[1..];
      assert rest[0].avg <= s[0].avg;
      [s[0]] + rest
  }

  /** `order_by('-avg')`. */
  function SortDesc(s: seq<FactorAverage>): (r: seq<FactorAverage>)
    ensures NonIncreasing(r)
    ensures multiset(r) == multiset(s)
  {
    if |s| == 0 then []
    else
      assert s == [s[0]] + s[1..];
      InsertDesc(s[0], SortDesc(s[1..]))
  }

  /** The factor averages before the cut. */
  function AllAverages(qs: seq<QuestionRow>, rows: seq<ResponseRow>): seq<FactorAverage> {
    Averages(GroupBy(FactorPairs(qs, rows)))
  }

  /** The first `n` of a non-increasing sequence are at least as large as the others. */
  lemma {:induction false} PrefixIsLargest(sorted: seq<FactorAverage>, n: nat)
    requires NonIncreasing(sorted) && n <= |sorted|
    ensures multiset(sorted[..n]) + multiset(sorted[n..]) == multiset(sorted)
    ensures forall x, t :: x in sorted[n..] && t in sorted[..n] ==> x.avg <= t.avg
  {
    assert sorted == sorted[..n] + sorted[n..];
  }

  /** `order_by('-avg')[:5]`: the first five averages in non-increasing order (all of them
      when there are fewer), each one of the given averages, and none left out above one
      kept. */
  function TopFive(all: seq<FactorAverage>): (top: seq<FactorAverage>)
    ensures |top| == if |all| < 5 then |all| else 5
    ensures NonIncreasing(top)
    ensures forall t :: t in top ==> t in all
    ensures exists rest: seq<FactorAverage> :: multiset(top) + multiset(rest) == multiset(all)
                                               && forall x, t :: x in rest && t in top ==> x.avg <= t.avg
  {
    var sorted := SortDesc(all);
    var n := if |all| < 5 then |all| else 5;
    SortedPrefix(all, n);
    sorted[..n]
  }

  /** A prefix of the sorted averages keeps their order, holds given averages only, and is
      completed to all of them by a remainder that is nowhere larger. */
  lemma {:induction false} SortedPrefix(all: seq<FactorAverage>, n: nat)
    requires n <= |all|
    ensures var sorted := SortDesc(all);
      && n <= |sorted|
      && NonIncreasing(sorted[..n])
      && (forall t :: t in sorted[..n] ==> t in all)
      && multiset(sorted[..n]) + multiset(sorted[n..]) == multiset(all)
      && (forall x, t :: x in sorted[n..] && t in sorted[..n] ==> x.avg <= t.avg)
  {
    var sorted := SortDesc(all);
    assert |sorted| == |multiset(sorted)| == |multiset(all)| == |all|;
    PrefixIsLargest(sorted, n);
    forall t | t in sorted[..n] ensures t in all {
      assert t in multiset(sorted[..n]);
      assert t in multiset(all);
    }
  }

  /** `topRiskFactors`, before rounding. */
  function TopFactors(qs: seq<QuestionRow>, rows: seq<ResponseRow>): seq<FactorAverage> {
    TopFive(AllAverages(qs, rows))
  }

  /** Every listed factor is a TURNOVER factor with a scored response, and its average is the
      mean of the scores recorded under its name. */
  lemma {:induction false} TopFactorsAreTurnover(qs: seq<QuestionRow>, rows: seq<ResponseRow>, t: FactorAverage)
    requires t in TopFactors(qs, rows)
    ensures exists k :: 0 <= k < |rows| && TurnoverScore(qs, rows[k]).Some? && TurnoverScore(qs, rows[k]).value.0 == t.factor
    ensures var pairs := FactorPairs(qs, rows);
      CountWhere(pairs, Is(t.factor)) > 0 && t.avg == SumWhere(pairs, Is(t.factor)) / (CountWhere(pairs, Is(t.factor)) as real)
  {
    var pairs := FactorPairs(qs, rows);
    var gs := GroupBy(pairs);
    var avgs := Averages(gs);
    assert t in avgs;
    var i :| 0 <= i < |avgs| && avgs[i] == t;
    GroupByShape(pairs);
    GroupOfKey(pairs, i);
    AverageAt(gs, i);
    assert HasGroup(gs, gs[i].key);
    var j :| 0 <= j < |pairs| && pairs[j].0 == gs[i].key;
  }

  lemma {:induction false} AverageAt(gs: seq<Group<string>>, i: nat)
    requires i < |gs|
    ensures Averages(gs)[i] == FactorAverage(gs[i].key, if gs[i].count > 0 then gs[i].sum / (gs[i].count as real) else 0.0)
  {
    if i < |gs| - 1 {
      AverageAt(gs[..|gs| - 1], i);
    }
  }

  // ---------------------------------------------------------------------------
  // The response

  datatype Dashboard = Dashboard(total: nat, counts: RiskCounts, byDepartment: seq<DepartmentCount>,
                                 pending: nat, completed: nat, highRisk: seq<HighRiskEntry>,
                                 topFactors: seq<FactorAverage>, riskByDepartment: seq<DeptRisk>)

  /** `turnover_analytics` for requester `r`; None is the KeyError of an unknown risk. The
      employee figures and the survey counts are scoped, the top factors are not. */
  function TurnoverAnalytics(r: Requester, emps: seq<EmployeeRecord>, assignments: seq<AssignmentRow>,
                             qs: seq<QuestionRow>, responses: seq<ResponseRow>): (d: Option<Dashboard>)
    ensures d.None? <==> exists e :: e in emps && InScope(r, e.department) && !KnownRisk(e.risk)
    ensures d.Some? ==>
      && d.value.total == |ScopedEmployees(emps, r)|
      && d.value.counts.low + d.value.counts.medium + d.value.counts.high <= d.value.total
      && |d.value.highRisk| == d.value.counts.high
      && TotalCount(d.value.byDepartment) == d.value.total
      && d.value.pending + d.value.completed == |ScopedAssignmentRows(assignments, r)|
      && |d.value.topFactors| <= 5
      && DistinctDepartments(d.value.riskByDepartment)
  {
    var scoped := ScopedEmployees(emps, r);
    var scopedRows := ScopedAssignmentRows(assignments, r);
    SummaryCounts(scoped);
    PendingPlusDone(scopedRows);
    ByDepartmentTotal(scoped);
    RiskTableDistinct(GroupBy(RiskPairs(scoped)));
    match Summarised(scoped)
    case None => None
    case Some(s) =>
      CountersAddUp(scoped);
      Some(Dashboard(|scoped|, s.counts, ByDepartment(scoped), PendingCount(scopedRows), DoneCount(scopedRows),
                     s.highRisk, TopFactors(qs, responses), RiskTable(GroupBy(RiskPairs(scoped)))))
  }
}
