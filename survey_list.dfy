/** The HR survey list page (src/pages/hr/SurveyList.tsx): deleting a survey from the local
    list, selecting employees for an assignment, the guards and payloads of the assignment
    requests, the two search filters and the category labels. */
module SurveyListPage {
  import opened Basics

  /** The fields of a survey row the page reads. */
  datatype SurveyRow = SurveyRow(id: int, title: string, description: string, category: string)

  /** The fields of an employee row the employee search reads. */
  datatype EmployeeRow = EmployeeRow(id: int, name: string, email: string, department: string,
                                     position: string)

  /** The body of one `POST /surveys/assignments/`. */
  datatype AssignmentPayload = AssignmentPayload(survey: int, employee: int, dueDate: string)

  // ---------------------------------------------------------------------------
  // Employee selection

  predicate NoDuplicates<T(==)>(s: seq<T>) {
    forall i, j :: 0 <= i < j < |s| ==> s[i] != s[j]
  }

  /** `toggleEmployeeSelection`: a selected id is removed, any other id is appended. */
  function ToggledSelection(selected: seq<int>, employeeId: int): (r: seq<int>)
    ensures employeeId in r <==> employeeId !in selected
  {
    if employeeId in selected then
      var r := Without(selected, employeeId);
      assert multiset(r)[employeeId] == 0;
      r
    else selected + [employeeId]
  }

  lemma {:induction false} WithoutKeepsNoDuplicates<T>(s: seq<T>, x: T)
    requires NoDuplicates(s)
    ensures NoDuplicates(Without(s, x))
  {
    if |s| > 0 {
      var init := s[..|s| - 1];
      WithoutKeepsNoDuplicates(init, x);
      var last := s[|s| - 1];
      assert last !in init;
      assert multiset(Without(init, x))[last] == 0;
      assert last !in Without(init, x);
    }
  }

  /** Toggling never introduces a duplicate id. */
  lemma {:induction false} ToggleKeepsNoDuplicates(selected: seq<int>, employeeId: int)
    requires NoDuplicates(selected)
    ensures NoDuplicates(ToggledSelection(selected, employeeId))
  {
    if employeeId in selected {
      WithoutKeepsNoDuplicates(selected, employeeId);
    }
  }

  /** Toggling an unselected id twice restores the list exactly. */
  lemma {:induction false} ToggleTwiceRestores(selected: seq<int>, employeeId: int)
    requires employeeId !in selected
    ensures ToggledSelection(ToggledSelection(selected, employeeId), employeeId) == selected
  {
    var s := selected + [employeeId];
    assert s[..|s| - 1] == selected;
    WithoutAbsent(selected, employeeId);
  }

  lemma {:induction false} OccursOnce<T>(s: seq<T>, x: T)
    requires NoDuplicates(s) && x in s
    ensures multiset(s)[x] == 1
  {
    var init := s[..|s| - 1];
    assert s == init + [s[|s| - 1]];
    if s[|s| - 1] == x {
      assert x !in init;
    } else {
      OccursOnce(init, x);
    }
  }

  /** On a duplicate-free list, toggling a selected id twice restores the same selection,
      with that id moved to the end. */
  lemma {:induction false} ToggleTwiceSelected(selected: seq<int>, employeeId: int)
    requires NoDuplicates(selected) && employeeId in selected
    ensures ToggledSelection(ToggledSelection(selected, employeeId), employeeId)
            == Without(selected, employeeId) + [employeeId]
    ensures multiset(ToggledSelection(ToggledSelection(selected, employeeId), employeeId))
            == multiset(selected)
  {
    var removed := Without(selected, employeeId);
    assert multiset(removed)[employeeId] == 0;
    assert ToggledSelection(removed, employeeId) == removed + [employeeId];
    OccursOnce(selected, employeeId);
    calc {
      multiset(removed + [employeeId]);
      multiset(selected)[employeeId := 0] + multiset{employeeId};
      multiset(selected);
    }
  }

  /** The list order is not restored when the toggled id was not last: [1, 2] becomes [2, 1]. */
  lemma {:induction false} ToggleTwiceReorders()
    ensures ToggledSelection(ToggledSelection([1, 2], 1), 1) == [2, 1]
  {
    assert [1, 2][..1] == [1];
    assert Without([1], 1) == [];
  }

  // ---------------------------------------------------------------------------
  // Assignment payloads

  /** `selectedEmployees.map(...)`: one payload per selected employee, in selection order. */
  function AssignmentPayloads(surveyId: int, selected: seq<int>, dueDate: string): (r: seq<AssignmentPayload>)
    ensures |r| == |selected|
    ensures forall i :: 0 <= i < |r| ==> r[i] == AssignmentPayload(surveyId, selected[i], dueDate)
  {
    seq(|selected|, i requires 0 <= i < |selected| => AssignmentPayload(surveyId, selected[i], dueDate))
  }

  /** Every payload names the selected survey and the same due date, and the payloads'
      employees are exactly the selected ids. */
  lemma {:induction false} PayloadsCoverSelection(surveyId: int, selected: seq<int>, dueDate: string)
    ensures forall p :: p in AssignmentPayloads(surveyId, selected, dueDate) ==>
              p.survey == surveyId && p.dueDate == dueDate && p.employee in selected
    ensures forall e :: e in selected ==>
              AssignmentPayload(surveyId, e, dueDate) in AssignmentPayloads(surveyId, selected, dueDate)
  {
    var r := AssignmentPayloads(surveyId, selected, dueDate);
    forall e | e in selected
      ensures AssignmentPayload(surveyId, e, dueDate) in r
    {
      var i :| 0 <= i < |selected| && selected[i] == e;
      assert r[i] == AssignmentPayload(surveyId, e, dueDate);
    }
  }

  // ---------------------------------------------------------------------------
  // Search filters

  /** `title.includes(q) || description.includes(q)`. */
  predicate SurveyMatches(s: SurveyRow, query: string) {
    Contains(s.title, query) || Contains(s.description, query)
  }

  /** `filteredSurveys`. */
  function FilteredSurveys(surveys: seq<SurveyRow>, query: string): (r: seq<SurveyRow>)
    ensures |r| <= |surveys|
    ensures forall s :: s in r <==> s in surveys && SurveyMatches(s, query)
  {
    if |surveys| == 0 then []
    else
      var last := surveys[|surveys| - 1];
      FilteredSurveys(surveys[..|surveys| - 1], query) + (if SurveyMatches(last, query) then [last] else [])
  }

  function SurveyMatchesQuery(query: string): SurveyRow -> bool {
    x => SurveyMatches(x, query)
  }

  /** `FilteredSurveys` is the order-keeping filter by its condition. */
  lemma {:induction false} FilteredSurveysIsKeep(xs: seq<SurveyRow>, query: string)
    ensures FilteredSurveys(xs, query) == Keep(xs, SurveyMatchesQuery(query))
  {
    if |xs| > 0 {
      FilteredSurveysIsKeep(xs[..|xs| - 1], query);
    }
  }

  /** Filtering a concatenation filters each part: the matching surveys stay in their original order. */
  lemma {:induction false} FilteredSurveysSplit(front: seq<SurveyRow>, back: seq<SurveyRow>, query: string)
    ensures FilteredSurveys(front + back, query) == FilteredSurveys(front, query) + FilteredSurveys(back, query)
  {
    FilteredSurveysIsKeep(front + back, query);
    FilteredSurveysIsKeep(front, query);
    FilteredSurveysIsKeep(back, query);
    KeepSplit(front, back, SurveyMatchesQuery(query));
  }

  /** The empty query keeps every survey, in order. */
  lemma {:induction false} EmptySurveyQueryKeepsAll(surveys: seq<SurveyRow>)
    ensures FilteredSurveys(surveys, "") == surveys
  {
    forall i | 0 <= i < |surveys|
      ensures SurveyMatchesQuery("")(surveys[i])
    {
      EmptyContained(surveys[i].title);
    }
    KeepAll(surveys, SurveyMatchesQuery(""));
    FilteredSurveysIsKeep(surveys, "");
  }

  /** `name`, `email`, `department` or `position` includes the query. */
  predicate EmployeeMatches(e: EmployeeRow, query: string) {
    Contains(e.name, query) || Contains(e.email, query) || Contains(e.department, query)
    || Contains(e.position, query)
  }

  /** `filteredEmployees`. */
  function FilteredEmployees(employees: seq<EmployeeRow>, query: string): (r: seq<EmployeeRow>)
    ensures |r| <= |employees|
    ensures forall e :: e in r <==> e in employees && EmployeeMatches(e, query)
  {
    if |employees| == 0 then []
    else
      var last := employees[|employees| - 1];
      FilteredEmployees(employees[..|employees| - 1], query)
      + (if EmployeeMatches(last, query) then [last] else [])
  }

  function EmployeeMatchesQuery(query: string): EmployeeRow -> bool {
    x => EmployeeMatches(x, query)
  }

  /** `FilteredEmployees` is the order-keeping filter by its condition. */
  lemma {:induction false} FilteredEmployeesIsKeep(xs: seq<EmployeeRow>, query: string)
    ensures FilteredEmployees(xs, query) == Keep(xs, EmployeeMatchesQuery(query))
  {
    if |xs| > 0 {
      FilteredEmployeesIsKeep(xs[..|xs| - 1], query);
    }
  }

  /** Filtering a concatenation filters each part: the matching employees stay in their original order. */
  lemma {:induction false} FilteredEmployeesSplit(front: seq<EmployeeRow>, back: seq<EmployeeRow>, query: string)
    ensures FilteredEmployees(front + back, query) == FilteredEmployees(front, query) + FilteredEmployees(back, query)
  {
    FilteredEmployeesIsKeep(front + back, query);
    FilteredEmployeesIsKeep(front, query);
    FilteredEmployeesIsKeep(back, query);
    KeepSplit(front, back, EmployeeMatchesQuery(query));
  }

  /** The empty query keeps every employee, in order. */
  lemma {:induction false} EmptyEmployeeQueryKeepsAll(employees: seq<EmployeeRow>)
    ensures FilteredEmployees(employees, "") == employees
  {
    forall i | 0 <= i < |employees|
      ensures EmployeeMatchesQuery("")(employees[i])
    {
      EmptyContained(employees[i].name);
    }
    KeepAll(employees, EmployeeMatchesQuery(""));
    FilteredEmployeesIsKeep(employees, "");
  }

  // ---------------------------------------------------------------------------
  // The employee search on the rows the server sends

  /** An employee as the page holds it after `setEmployees(response.data)`: a property the
      reply lacks reads as `undefined` (None). */
  datatype JsEmployee = JsEmployee(id: int, name: Option<string>, email: Option<string>,
                                   department: Option<string>, position: Option<string>)

  /** The `user_details` object nested in a served employee: the user serializer's readable
      fields (the password is write-only; `department_details` and `date_joined` are not needed
      here). */
  datatype ServedUser = ServedUser(id: int, email: string, firstName: string, lastName: string,
                                   role: string, department: Option<int>, isActive: bool)

  /** One row of `GET /users/employees/`. The employee's `user` key is write-only and is not
      sent; the user's email and names sit inside `user_details`. The row itself has no name,
      email or department. */
  datatype ServedEmployee = ServedEmployee(id: int, userDetails: ServedUser, position: string,
                                           hireDate: string, isActive: bool, turnoverRisk: string)

  function FromServer(e: ServedEmployee): (j: JsEmployee)
    ensures j.id == e.id && j.position == Some(e.position)
    ensures j.name.None? && j.email.None? && j.department.None?
  {
    JsEmployee(e.id, None, None, None, Some(e.position))
  }

  function AllFromServer(served: seq<ServedEmployee>): (js: seq<JsEmployee>)
    ensures |js| == |served|
    ensures forall i :: 0 <= i < |served| ==> js[i] == FromServer(served[i])
  {
    if |served| == 0 then []
    else AllFromServer(served[..|served| - 1]) + [FromServer(served[|served| - 1])]
  }

  /** A row carrying all four searched fields. */
  function Complete(e: EmployeeRow): (j: JsEmployee)
    ensures j.id == e.id && j.name == Some(e.name) && j.email == Some(e.email)
    ensures j.department == Some(e.department) && j.position == Some(e.position)
  {
    JsEmployee(e.id, Some(e.name), Some(e.email), Some(e.department), Some(e.position))
  }

  function AllComplete(rows: seq<EmployeeRow>): (js: seq<JsEmployee>)
    ensures |js| == |rows|
    ensures forall i :: 0 <= i < |rows| ==> js[i] == Complete(rows[i])
  {
    if |rows| == 0 then [] else AllComplete(rows[..|rows| - 1]) + [Complete(rows[|rows| - 1])]
  }

  /** `field.includes(query)`: None when `field` is `undefined`, which throws a TypeError. */
  function FieldIncludes(field: Option<string>, query: string): (r: Option<bool>)
    ensures r.None? <==> field.None?
    ensures r.Some? ==> (r.value <==> Contains(field.value, query))
  {
    if field.None? then None else Some(Contains(field.value, query))
  }

  /** The search callback: the four `includes` calls joined by `||`, left to right, each made
      only when the ones before it gave false. None: a TypeError. */
  function JsEmployeeMatches(e: JsEmployee, query: string): (r: Option<bool>)
    ensures e.name.None? ==> r.None?
    ensures e.name.Some? && e.email.Some? && e.department.Some? && e.position.Some? ==>
              r == Some(EmployeeMatches(EmployeeRow(e.id, e.name.value, e.email.value, e.department.value,
                                                    e.position.value), query))
  {
    match FieldIncludes(e.name, query)
    case None => None
    case Some(true) => Some(true)
    case Some(false) =>
      match FieldIncludes(e.email, query)
      case None => None
      case Some(true) => Some(true)
      case Some(false) =>
        match FieldIncludes(e.department, query)
        case None => None
        case Some(true) => Some(true)
        case Some(false) => FieldIncludes(e.position, query)
  }

  /** `employees.filter(...)` on the rows the page holds: the callback runs on each row in
      order, and the first TypeError ends the filter (None). */
  function JsFilteredEmployees(employees: seq<JsEmployee>, query: string): (r: Option<seq<JsEmployee>>)
    ensures r.Some? ==> |r.value| <= |employees|
    ensures r.Some? ==> forall e :: e in r.value ==> e in employees && JsEmployeeMatches(e, query) == Some(true)
  {
    if |employees| == 0 then Some([])
    else
      var last := employees[|employees| - 1];
      match JsFilteredEmployees(employees[..|employees| - 1], query)
      case None => None
      case Some(kept) =>
        match JsEmployeeMatches(last, query)
        case None => None
        case Some(keep) => Some(kept + (if keep then [last] else []))
  }

  /** As written, the search runs on the rows `GET /users/employees/` sends, which have no
      `name`: whatever the query, the empty one included, a non-empty list makes the filter
      throw. */
  lemma {:induction false} ServedEmployeesBreakSearch(served: seq<ServedEmployee>, query: string)
    requires |served| > 0
    ensures JsFilteredEmployees(AllFromServer(served), query).None?
  {
    var js := AllFromServer(served);
    assert js[|js| - 1] == FromServer(served[|served| - 1]);
  }

  lemma {:induction false} AllCompleteAppend(rows: seq<EmployeeRow>, e: EmployeeRow)
    ensures AllComplete(rows + [e]) == AllComplete(rows) + [Complete(e)]
  {
    assert (rows + [e])[..|rows|] == rows;
  }

  lemma {:induction false} JsFilteredSnoc(init: seq<JsEmployee>, e: JsEmployee, query: string)
    requires JsFilteredEmployees(init, query).Some? && JsEmployeeMatches(e, query).Some?
    ensures JsFilteredEmployees(init + [e], query)
            == Some(JsFilteredEmployees(init, query).value + (if JsEmployeeMatches(e, query).value then [e] else []))
  {
    assert (init + [e])[..|init|] == init;
  }

  lemma {:induction false} CompleteRowMatches(e: EmployeeRow, query: string)
    ensures JsEmployeeMatches(Complete(e), query) == Some(EmployeeMatches(e, query))
  {
    assert e == EmployeeRow(e.id, e.name, e.email, e.department, e.position);
  }

  /** On rows that carry all four fields, the search never throws and keeps exactly what
      `FilteredEmployees` keeps, in the same order. */
  lemma {:induction false} CompleteRowsFilter(rows: seq<EmployeeRow>, query: string)
    ensures JsFilteredEmployees(AllComplete(rows), query) == Some(AllComplete(FilteredEmployees(rows, query)))
  {
    CompleteRowsKeep(rows, query);
    FilteredEmployeesIsKeep(rows, query);
  }

  lemma {:induction false} CompleteRowsKeep(rows: seq<EmployeeRow>, query: string)
    ensures JsFilteredEmployees(AllComplete(rows), query) == Some(AllComplete(Keep(rows, EmployeeMatchesQuery(query))))
  {
    if |rows| > 0 {
      var init, last := rows[..|rows| - 1], rows[|rows| - 1];
      var keep := EmployeeMatchesQuery(query);
      var kept := Keep(init, keep);
      CompleteRowsKeep(init, query);
      CompleteRowMatches(last, query);
      JsFilteredSnoc(AllComplete(init), Complete(last), query);
      assert AllComplete(rows) == AllComplete(init) + [Complete(last)];
      assert Keep(rows, keep) == kept + (if keep(last) then [last] else []);
      AllCompleteOptionalAppend(kept, last, keep(last));
    }
  }

  lemma {:induction false} AllCompleteOptionalAppend(rows: seq<EmployeeRow>, e: EmployeeRow, b: bool)
    ensures AllComplete(rows + (if b then [e] else [])) == AllComplete(rows) + (if b then [Complete(e)] else [])
  {
    if b {
      AllCompleteAppend(rows, e);
    } else {
      assert rows + [] == rows;
      assert AllComplete(rows) + [] == AllComplete(rows);
    }
  }

  // ---------------------------------------------------------------------------
  // Category labels

  /** `getCategoryLabel`: the four category codes have fixed labels; any other code is shown
      as it is. */
  function CategoryLabel(category: string): (shown: string)
    ensures category == "END_CONTRACT" ==> shown == "End-of-Contract"
    ensures category == "RENEWAL" ==> shown == "Renewal Consideration"
    ensures category == "MID_CONTRACT" ==> shown == "Mid-Contract"
    ensures category == "ONBOARDING" ==> shown == "Onboarding"
    ensures category !in {"END_CONTRACT", "RENEWAL", "MID_CONTRACT", "ONBOARDING"} ==> shown == category
  {
    if category == "END_CONTRACT" then "End-of-Contract"
    else if category == "RENEWAL" then "Renewal Consideration"
    else if category == "MID_CONTRACT" then "Mid-Contract"
    else if category == "ONBOARDING" then "Onboarding"
    else category
  }

  /** No two category codes share a label, so the label identifies a known code. */
  lemma {:induction false} CategoryLabelsDistinct(a: string, b: string)
    requires a in {"END_CONTRACT", "RENEWAL", "MID_CONTRACT", "ONBOARDING"}
    requires b in {"END_CONTRACT", "RENEWAL", "MID_CONTRACT", "ONBOARDING"}
    requires a != b
    ensures CategoryLabel(a) != CategoryLabel(b)
  {
  }

  // ---------------------------------------------------------------------------
  // Deleting a survey

  /** `surveys.filter(s => s.id !== id)`. */
  function WithoutSurvey(surveys: seq<SurveyRow>, id: int): (r: seq<SurveyRow>)
    ensures |r| <= |surveys|
  {
    if |surveys| == 0 then []
    else
      var last := surveys[|surveys| - 1];
      WithoutSurvey(surveys[..|surveys| - 1], id) + (if last.id == id then [] else [last])
  }

  /** The surveys kept are exactly those whose id is not the deleted one. */
  lemma {:induction false} WithoutSurveyMembers(surveys: seq<SurveyRow>, id: int)
    ensures forall s :: s in WithoutSurvey(surveys, id) <==> s in surveys && s.id != id
  {
    if |surveys| > 0 {
      var init := surveys[..|surveys| - 1];
      var last := surveys[|surveys| - 1];
      WithoutSurveyMembers(init, id);
      assert surveys == init + [last];
    }
  }

  /** Only surveys with the deleted id leave the list: a list without that id is unchanged. */
  lemma {:induction false} WithoutAbsentSurvey(surveys: seq<SurveyRow>, id: int)
    requires forall i :: 0 <= i < |surveys| ==> surveys[i].id != id
    ensures WithoutSurvey(surveys, id) == surveys
  {
    if |surveys| > 0 {
      var init := surveys[..|surveys| - 1];
      var last := surveys[|surveys| - 1];
      assert forall i :: 0 <= i < |init| ==> init[i].id != id by {
        forall i | 0 <= i < |init|
          ensures init[i].id != id
        {
          assert init[i] == surveys[i];
        }
      }
      WithoutAbsentSurvey(init, id);
      assert surveys == init + [last];
    }
  }

  // ---------------------------------------------------------------------------
  // The page

  class ListPage {
    var surveys: seq<SurveyRow>
    var selectedSurvey: Option<SurveyRow>
    var selectedEmployees: seq<int>
    var assignmentDueDate: string

    constructor (loaded: seq<SurveyRow>)
      ensures surveys == loaded && selectedSurvey == None
      ensures selectedEmployees == [] && assignmentDueDate == ""
    {
      surveys := loaded;
      selectedSurvey := None;
      selectedEmployees := [];
      assignmentDueDate := "";
    }

    /** `handleDeleteClick` and `handleAssignClick`: the survey the modal acts on. */
    method SelectSurvey(s: SurveyRow)
      modifies this
      ensures selectedSurvey == Some(s)
      ensures surveys == old(surveys) && selectedEmployees == old(selectedEmployees)
      ensures assignmentDueDate == old(assignmentDueDate)
    {
      selectedSurvey := Some(s);
    }

    method SetDueDate(dueDate: string)
      modifies this
      ensures assignmentDueDate == dueDate
      ensures surveys == old(surveys) && selectedSurvey == old(selectedSurvey)
      ensures selectedEmployees == old(selectedEmployees)
    {
      assignmentDueDate := dueDate;
    }

    /** `toggleEmployeeSelection`. */
    method ToggleEmployeeSelection(employeeId: int)
      modifies this
      ensures selectedEmployees == ToggledSelection(old(selectedEmployees), employeeId)
      ensures surveys == old(surveys) && selectedSurvey == old(selectedSurvey)
      ensures assignmentDueDate == old(assignmentDueDate)
    {
      if employeeId in selectedEmployees {
        selectedEmployees := Without(selectedEmployees, employeeId);
      } else {
        selectedEmployees := selectedEmployees + [employeeId];
      }
    }

    /** `confirmDelete`: without a selected survey nothing is requested; otherwise the delete
        request names the selected survey and, if it succeeds (`deleted`), every survey with
        that id leaves the local list. */
    method ConfirmDelete(deleted: bool) returns (request: Option<int>)
      modifies this
      ensures selectedSurvey.None? ==> request.None? && surveys == old(surveys)
      ensures selectedSurvey.Some? ==> request == Some(selectedSurvey.value.id)
      ensures selectedSurvey.Some? && deleted ==> surveys == WithoutSurvey(old(surveys), selectedSurvey.value.id)
      ensures selectedSurvey.Some? && !deleted ==> surveys == old(surveys)
      ensures selectedSurvey == old(selectedSurvey) && selectedEmployees == old(selectedEmployees)
      ensures assignmentDueDate == old(assignmentDueDate)
    {
      if selectedSurvey.None? {
        return None;
      }
      request := Some(selectedSurvey.value.id);
      if deleted {
        surveys := WithoutSurvey(surveys, selectedSurvey.value.id);
      }
    }

    /** `assignSurvey`: no request without a selected survey, with no employee selected, or
        with an empty due date; otherwise one request per selected employee, and when all of
        them succeed (`allSucceeded`) the selection and the due date are cleared. */
    method AssignSurvey(allSucceeded: bool) returns (requests: seq<AssignmentPayload>)
      modifies this
      ensures selectedSurvey.None? || |old(selectedEmployees)| == 0 || old(assignmentDueDate) == "" ==>
                requests == [] && selectedEmployees == old(selectedEmployees)
                && assignmentDueDate == old(assignmentDueDate)
      ensures selectedSurvey.Some? && |old(selectedEmployees)| > 0 && old(assignmentDueDate) != "" ==>
                requests == AssignmentPayloads(selectedSurvey.value.id, old(selectedEmployees), old(assignmentDueDate))
                && (allSucceeded ==> selectedEmployees == [] && assignmentDueDate == "")
                && (!allSucceeded ==> selectedEmployees == old(selectedEmployees)
                                      && assignmentDueDate == old(assignmentDueDate))
      ensures surveys == old(surveys) && selectedSurvey == old(selectedSurvey)
    {
      if selectedSurvey.None? || |selectedEmployees| == 0 {
        return [];
      }
      if assignmentDueDate == "" {
        return [];
      }
      requests := AssignmentPayloads(selectedSurvey.value.id, selectedEmployees, assignmentDueDate);
      if allSucceeded {
        selectedEmployees := [];
        assignmentDueDate := "";
      }
    }
  }
}
