/** The survey endpoints of the backend (backend/surveys/views.py): the completion rate of
    `statistics`, the role scoping of assignments and responses, `submit` with its weighted
    total, and the `score` action that overrides one response's score and re-totals the
    assignment. The database is a class whose tables are sequences of rows. */
module SurveyViews {
  import opened Basics
  import opened JsonValues
  import opened Domain
  import opened SurveyModels

  // ---------------------------------------------------------------------------
  // Counting rows

  /** `SurveyAssignment.objects.filter(survey=survey).count()`. */
  function AssignedCount(rows: seq<AssignmentRow>, surveyId: int): nat {
    if |rows| == 0 then 0
    else AssignedCount(rows[..|rows| - 1], surveyId) + (if rows[|rows| - 1].surveyId == surveyId then 1 else 0)
  }

  /** The same count restricted to `is_completed=True`. */
  function CompletedCount(rows: seq<AssignmentRow>, surveyId: int): nat {
    if |rows| == 0 then 0
    else
      var a := rows[|rows| - 1];
      CompletedCount(rows[..|rows| - 1], surveyId) + (if a.surveyId == surveyId && a.isCompleted then 1 else 0)
  }

  lemma {:induction false} CompletedAtMostAssigned(rows: seq<AssignmentRow>, surveyId: int)
    ensures CompletedCount(rows, surveyId) <= AssignedCount(rows, surveyId)
  {
    if |rows| > 0 {
      CompletedAtMostAssigned(rows[..|rows| - 1], surveyId);
    }
  }

  /** `completion_rate` of `statistics`: the completed share of the survey's assignments in
      percent, 0 when the survey has none. */
  function CompletionRate(rows: seq<AssignmentRow>, surveyId: int): (rate: real)
    ensures 0.0 <= rate <= 100.0
    ensures AssignedCount(rows, surveyId) == 0 ==> rate == 0.0
    ensures rate == 100.0 <==> AssignedCount(rows, surveyId) > 0 && CompletedCount(rows, surveyId) == AssignedCount(rows, surveyId)
  {
    var total := AssignedCount(rows, surveyId);
    var completed := CompletedCount(rows, surveyId);
    CompletedAtMostAssigned(rows, surveyId);
    if total > 0 then
      PercentBounds(completed, total);
      (completed as real) / (total as real) * 100.0
    else 0.0
  }

  /** A share in percent lies between 0 and 100 and is 100 exactly for the whole. */
  lemma {:induction false} PercentBounds(part: nat, whole: nat)
    requires part <= whole && 0 < whole
    ensures var rate := (part as real) / (whole as real) * 100.0;
      0.0 <= rate <= 100.0 && (rate == 100.0 <==> part == whole)
  {
    var q := (part as real) / (whole as real);
    assert q * (whole as real) == part as real;
    assert q <= 1.0 by {
      if q > 1.0 {
        assert q * (whole as real) > whole as real;
      }
    }
    if q * 100.0 == 100.0 {
      assert q == 1.0;
    }
  }

  // ---------------------------------------------------------------------------
  // Role scoping

  /** The authenticated user making a request. */
  datatype Requester = Requester(userId: int, role: string, department: Option<int>)

  /** `get_queryset` of the assignment and response viewsets: ADMIN sees every assignment, HR
      those whose employee's department equals its own (a null department matching a null
      one, as the ORM's `department=None` does), anyone else only its own. */
  predicate Visible(r: Requester, a: AssignmentRow) {
    if r.role == ADMIN then true
    else if r.role == HR then a.department == r.department
    else a.employeeUser == r.userId
  }

  /** The scoped assignment list, in table order. */
  function ScopedAssignments(rows: seq<AssignmentRow>, r: Requester): (scoped: seq<AssignmentRow>)
    ensures |scoped| <= |rows|
    ensures forall a :: a in scoped <==> a in rows && Visible(r, a)
  {
    if |rows| == 0 then []
    else
      var init := ScopedAssignments(rows[..|rows| - 1], r);
      var a := rows[|rows| - 1];
      assert rows == rows[..|rows| - 1] + [a];
      if Visible(r, a) then init + [a] else init
  }

  function VisibleTo(r: Requester): AssignmentRow -> bool {
    x => Visible(r, x)
  }

  /** `ScopedAssignments` is the order-keeping filter by its condition. */
  lemma {:induction false} ScopedAssignmentsIsKeep(xs: seq<AssignmentRow>, r: Requester)
    ensures ScopedAssignments(xs, r) == Keep(xs, VisibleTo(r))
  {
    if |xs| > 0 {
      ScopedAssignmentsIsKeep(xs[..|xs| - 1], r);
    }
  }

  /** Filtering a concatenation filters each part: the visible assignments stay in their original order. */
  lemma {:induction false} ScopedAssignmentsSplit(front: seq<AssignmentRow>, back: seq<AssignmentRow>, r: Requester)
    ensures ScopedAssignments(front + back, r) == ScopedAssignments(front, r) + ScopedAssignments(back, r)
  {
    ScopedAssignmentsIsKeep(front + back, r);
    ScopedAssignmentsIsKeep(front, r);
    ScopedAssignmentsIsKeep(back, r);
    KeepSplit(front, back, VisibleTo(r));
  }

  lemma {:induction false} AdminSeesAll(rows: seq<AssignmentRow>, r: Requester)
    requires r.role == ADMIN
    ensures ScopedAssignments(rows, r) == rows
  {
    if |rows| > 0 {
      AdminSeesAll(rows[..|rows| - 1], r);
      assert rows == rows[..|rows| - 1] + [rows[|rows| - 1]];
    }
  }

  /** HR sees exactly the assignments of its own department, an employee exactly its own. */
  lemma {:induction false} ScopingByRole(rows: seq<AssignmentRow>, r: Requester, a: AssignmentRow)
    requires a in rows
    ensures r.role == HR ==> (a in ScopedAssignments(rows, r) <==> a.department == r.department)
    ensures r.role != ADMIN && r.role != HR ==> (a in ScopedAssignments(rows, r) <==> a.employeeUser == r.userId)
  {
  }

  // ---------------------------------------------------------------------------
  // The database

  datatype Db = Db(surveys: seq<int>, questions: seq<QuestionRow>, assignments: seq<AssignmentRow>,
                   responses: seq<ResponseRow>)

  /** `get_object` of the survey viewset: the survey exists and is in the requester's
      queryset (every survey for ADMIN and HR, surveys assigned to it for anyone else). */
  predicate SurveyVisible(db: Db, r: Requester, surveyId: int) {
    surveyId in db.surveys
    && (r.role == ADMIN || r.role == HR
        || exists k :: 0 <= k < |db.assignments| && db.assignments[k].surveyId == surveyId
                       && db.assignments[k].employeeUser == r.userId)
  }

  /** The question with primary key `id`. */
  function QuestionById(qs: seq<QuestionRow>, id: int): (found: Option<QuestionRow>)
    ensures found.Some? ==> found.value in qs && found.value.id == id
    ensures found.None? ==> forall k :: 0 <= k < |qs| ==> qs[k].id != id
  {
    if |qs| == 0 then None
    else if qs[0].id == id then Some(qs[0])
    else
      var rest := QuestionById(qs[1..], id);
      assert forall k :: 1 <= k < |qs| ==> qs[k] == qs[1..][k - 1];
      rest
  }

  /** The index of the assignment with primary key `id`. */
  function AssignmentById(rows: seq<AssignmentRow>, id: int): (found: Option<nat>)
    ensures found.Some? ==> found.value < |rows| && rows[found.value].id == id
    ensures found.None? ==> forall k :: 0 <= k < |rows| ==> rows[k].id != id
  {
    if |rows| == 0 then None
    else if rows[|rows| - 1].id == id then Some(|rows| - 1)
    else AssignmentById(rows[..|rows| - 1], id)
  }

  /** `SurveyAssignment.objects.get(id=…, survey=…, employee__user=…)`. */
  function OwnAssignment(rows: seq<AssignmentRow>, id: int, surveyId: int, userId: int): (found: Option<nat>)
    ensures found.Some? ==> found.value < |rows| && rows[found.value].id == id
                            && rows[found.value].surveyId == surveyId && rows[found.value].employeeUser == userId
    ensures found.None? ==> forall k :: 0 <= k < |rows| ==>
                              !(rows[k].id == id && rows[k].surveyId == surveyId && rows[k].employeeUser == userId)
  {
    if |rows| == 0 then None
    else
      var a := rows[|rows| - 1];
      if a.id == id && a.surveyId == surveyId && a.employeeUser == userId then Some(|rows| - 1)
      else OwnAssignment(rows[..|rows| - 1], id, surveyId, userId)
  }

  /** The index of the response of `assignmentId` to `questionId`. */
  function ResponseIndex(rows: seq<ResponseRow>, assignmentId: int, questionId: int): (found: Option<nat>)
    ensures found.Some? ==> found.value < |rows| && rows[found.value].assignmentId == assignmentId
                            && rows[found.value].questionId == questionId
    ensures found.None? ==> forall k :: 0 <= k < |rows| ==>
                              !(rows[k].assignmentId == assignmentId && rows[k].questionId == questionId)
  {
    if |rows| == 0 then None
    else
      var found := ResponseIndex(rows[..|rows| - 1], assignmentId, questionId);
      if found.Some? then found
      else if rows[|rows| - 1].assignmentId == assignmentId && rows[|rows| - 1].questionId == questionId
      then Some(|rows| - 1)
      else None
  }

  /** `update_or_create(assignment=…, question=…, defaults={'answer': …})`: the existing row
      gets the new answer and keeps its score, otherwise a row without a score is added. */
  function Upsert(rows: seq<ResponseRow>, assignmentId: int, questionId: int, answer: Json): seq<ResponseRow> {
    match ResponseIndex(rows, assignmentId, questionId)
    case Some(k) => rows[k := rows[k].(answer := answer)]
    case None => rows + [ResponseRow(assignmentId, questionId, answer, None)]
  }

  /** Saving a new score on the response of `assignmentId` to `questionId`. */
  function SetScore(rows: seq<ResponseRow>, assignmentId: int, questionId: int, score: Option<real>): seq<ResponseRow> {
    match ResponseIndex(rows, assignmentId, questionId)
    case Some(k) => rows[k := rows[k].(score := score)]
    case None => rows
  }

  lemma {:induction false} UpsertEffect(rows: seq<ResponseRow>, assignmentId: int, questionId: int, answer: Json)
    requires UniqueResponses(rows)
    ensures var r := Upsert(rows, assignmentId, questionId, answer);
      && UniqueResponses(r)
      && |rows| <= |r| <= |rows| + 1
      && (exists k :: 0 <= k < |r| && r[k].assignmentId == assignmentId && r[k].questionId == questionId
                      && r[k].answer == answer)
      && (forall k :: 0 <= k < |rows| && (rows[k].assignmentId != assignmentId || rows[k].questionId != questionId)
                      ==> r[k] == rows[k])
  {
    var r := Upsert(rows, assignmentId, questionId, answer);
    match ResponseIndex(rows, assignmentId, questionId)
    case Some(k) =>
      assert r[k].answer == answer;
    case None =>
      assert r[|rows|].answer == answer;
  }

  lemma {:induction false} SetScoreKeepsUnique(rows: seq<ResponseRow>, assignmentId: int, questionId: int, score: Option<real>)
    requires UniqueResponses(rows)
    ensures UniqueResponses(SetScore(rows, assignmentId, questionId, score))
    ensures |SetScore(rows, assignmentId, questionId, score)| == |rows|
  {
  }

  // ---------------------------------------------------------------------------
  // submit

  /** One element of `responses` in the submission; None stands for a null `question_id`. */
  datatype Entry = Entry(questionId: Option<int>, answer: Json)

  /** The body of a submission; None stands for a null `assignment_id`. */
  datatype Submission = Submission(assignmentId: Option<int>, entries: seq<Entry>)

  /** What the serializer accepts: integer ids and non-null answers. */
  predicate ValidSubmission(s: Submission) {
    s.assignmentId.Some?
    && forall k :: 0 <= k < |s.entries| ==> s.entries[k].questionId.Some? && s.entries[k].answer != JNull
  }

  datatype Status = Ok(total: real) | BadRequest | NotFound | ServerError

  /** Submit's weighting: a score counts, times the factor's weight, only when the question
      has a factor. */
  function SubmitWeight(q: ScoringQuestion, score: Option<real>): real {
    if score.Some? && q.factor.Some? then score.value * q.factor.value.weight else 0.0
  }

  /** The state of submit's loop: still running with the rows and the running total, or
      stopped by an exception from `calculate_score` (the rows written so far persist). */
  datatype Progress = Running(rows: seq<ResponseRow>, total: real) | Crashed(rows: seq<ResponseRow>)

  /** The body of submit's loop for one entry. */
  function SubmitStep(qs: seq<QuestionRow>, surveyId: int, assignmentId: int, p: Progress, e: Entry,
                      parseFloat: string -> Option<real>): Progress
  {
    if p.Crashed? || e.questionId.None? then p
    else match QuestionById(qs, e.questionId.value)
      case None => p
      case Some(qr) =>
        if qr.surveyId != surveyId then p
        else WriteEntry(p.rows, p.total, assignmentId, qr, e.answer, parseFloat)
  }

  /** The part of the loop body for an entry whose question belongs to the survey: write the
      answer, then score it when the question is scored. */
  function WriteEntry(rows0: seq<ResponseRow>, total0: real, assignmentId: int, qr: QuestionRow, answer: Json,
                      parseFloat: string -> Option<real>): Progress
  {
    var rows := Upsert(rows0, assignmentId, qr.id, answer);
    if !qr.q.hasScoring then Running(rows, total0)
    else AfterScore(rows, total0, assignmentId, qr, ScoreOf(qr.q, answer, parseFloat))
  }

  /** What `calculate_score`'s outcome does: an exception stops the loop; a returned score is
      saved on the response and its weighted value added to the total. */
  function AfterScore(rows: seq<ResponseRow>, total0: real, assignmentId: int, qr: QuestionRow, r: ScoreResult): Progress {
    match r
    case Raised => Crashed(rows)
    case Returned(s) => Running(SetScore(rows, assignmentId, qr.id, s), total0 + SubmitWeight(qr.q, s))
  }

  /** Submit's loop over the entries. */
  function SubmitRun(qs: seq<QuestionRow>, surveyId: int, assignmentId: int, start: Progress, entries: seq<Entry>,
                     parseFloat: string -> Option<real>): Progress
  {
    if |entries| == 0 then start
    else
      SubmitStep(qs, surveyId, assignmentId,
                 SubmitRun(qs, surveyId, assignmentId, start, entries[..|entries| - 1], parseFloat),
                 entries[|entries| - 1], parseFloat)
  }

  /** The assignment after a successful submit. */
  function Completed(a: AssignmentRow, now: real, total: real): AssignmentRow {
    a.(isCompleted := true, completedAt := Some(now), totalScore := Some(total))
  }

  /** `submit`: the new database and the response status. */
  function Submitted(db: Db, r: Requester, surveyId: int, sub: Submission, now: real,
                     parseFloat: string -> Option<real>): (Db, Status)
  {
    if !SurveyVisible(db, r, surveyId) then (db, NotFound)
    else if !ValidSubmission(sub) then (db, BadRequest)
    else match OwnAssignment(db.assignments, sub.assignmentId.value, surveyId, r.userId)
      case None => (db, NotFound)
      case Some(k) =>
        match SubmitRun(db.questions, surveyId, db.assignments[k].id, Running(db.responses, 0.0), sub.entries, parseFloat)
        case Crashed(rows) => (db.(responses := rows), ServerError)
        case Running(rows, total) =>
          (db.(responses := rows, assignments := db.assignments[k := Completed(db.assignments[k], now, total)]), Ok(total))
  }

  // ---------------------------------------------------------------------------
  // Properties of submit

  /** What one entry adds to submit's total (nothing for a question outside the survey). */
  function Contribution(qs: seq<QuestionRow>, surveyId: int, e: Entry, parseFloat: string -> Option<real>): real {
    if e.questionId.None? then 0.0
    else match QuestionById(qs, e.questionId.value)
      case None => 0.0
      case Some(qr) =>
        if qr.surveyId != surveyId || !qr.q.hasScoring then 0.0
        else match ScoreOf(qr.q, e.answer, parseFloat)
          case Raised => 0.0
          case Returned(s) => SubmitWeight(qr.q, s)
  }

  function ContributionSum(qs: seq<QuestionRow>, surveyId: int, entries: seq<Entry>, parseFloat: string -> Option<real>): real {
    if |entries| == 0 then 0.0
    else ContributionSum(qs, surveyId, entries[..|entries| - 1], parseFloat) + Contribution(qs, surveyId, entries[|entries| - 1], parseFloat)
  }

  /** Submit's total is the sum of the entries' contributions, and a run that finished
      normally finished normally on every prefix. */
  lemma {:induction false} SubmitTotalIsSum(qs: seq<QuestionRow>, surveyId: int, assignmentId: int, rows0: seq<ResponseRow>,
                                            entries: seq<Entry>, parseFloat: string -> Option<real>)
    requires SubmitRun(qs, surveyId, assignmentId, Running(rows0, 0.0), entries, parseFloat).Running?
    ensures SubmitRun(qs, surveyId, assignmentId, Running(rows0, 0.0), entries, parseFloat).total
            == ContributionSum(qs, surveyId, entries, parseFloat)
  {
    if |entries| > 0 {
      var init := entries[..|entries| - 1];
      var p := SubmitRun(qs, surveyId, assignmentId, Running(rows0, 0.0), init, parseFloat);
      assert p.Running?;
      SubmitTotalIsSum(qs, surveyId, assignmentId, rows0, init, parseFloat);
    }
  }

  /** A score adds to submit's total only with a factor, then times the factor's weight; a
      scored question without a factor adds nothing. */
  lemma {:induction false} ContributionRule(qs: seq<QuestionRow>, surveyId: int, e: Entry, parseFloat: string -> Option<real>, qr: QuestionRow, s: real)
    requires e.questionId == Some(qr.id) && QuestionById(qs, qr.id) == Some(qr) && qr.surveyId == surveyId
    requires qr.q.hasScoring && ScoreOf(qr.q, e.answer, parseFloat) == Returned(Some(s))
    ensures qr.q.factor.None? ==> Contribution(qs, surveyId, e, parseFloat) == 0.0
    ensures qr.q.factor.Some? ==> Contribution(qs, surveyId, e, parseFloat) == s * qr.q.factor.value.weight
  {
  }

  /** An entry whose question does not belong to the survey changes nothing. */
  lemma {:induction false} ForeignQuestionSkipped(qs: seq<QuestionRow>, surveyId: int, assignmentId: int, p: Progress, e: Entry,
                               parseFloat: string -> Option<real>)
    requires e.questionId.Some?
    requires forall k :: 0 <= k < |qs| && qs[k].id == e.questionId.value ==> qs[k].surveyId != surveyId
    ensures SubmitStep(qs, surveyId, assignmentId, p, e, parseFloat) == p
  {
  }

  /** Submit keeps at most one response per (assignment, question). */
  lemma {:induction false} SubmitRunKeepsUnique(qs: seq<QuestionRow>, surveyId: int, assignmentId: int, start: Progress,
                                                entries: seq<Entry>, parseFloat: string -> Option<real>)
    requires UniqueResponses(start.rows)
    ensures UniqueResponses(SubmitRun(qs, surveyId, assignmentId, start, entries, parseFloat).rows)
  {
    if |entries| > 0 {
      var p := SubmitRun(qs, surveyId, assignmentId, start, entries[..|entries| - 1], parseFloat);
      SubmitRunKeepsUnique(qs, surveyId, assignmentId, start, entries[..|entries| - 1], parseFloat);
      var e := entries[|entries| - 1];
      if p.Running? && e.questionId.Some? {
        match QuestionById(qs, e.questionId.value)
        case None =>
        case Some(qr) =>
          UpsertEffect(p.rows, assignmentId, qr.id, e.answer);
          var rows := Upsert(p.rows, assignmentId, qr.id, e.answer);
          match ScoreOf(qr.q, e.answer, parseFloat)
          case Raised =>
          case Returned(s) => SetScoreKeepsUnique(rows, assignmentId, qr.id, s);
      }
    }
  }

  /** The outcomes of submit: 404 for a survey outside the requester's queryset or an
      assignment that is not the requester's own for this survey, 400 for an invalid body,
      and on success the assignment is completed at `now` with the computed total. */
  lemma {:induction false} SubmitOutcomes(db: Db, r: Requester, surveyId: int, sub: Submission, now: real, parseFloat: string -> Option<real>)
    ensures var (db', status) := Submitted(db, r, surveyId, sub, now, parseFloat);
      && (status == NotFound <==>
            !SurveyVisible(db, r, surveyId)
            || (ValidSubmission(sub)
                && forall k :: 0 <= k < |db.assignments| ==>
                     !(db.assignments[k].id == sub.assignmentId.value && db.assignments[k].surveyId == surveyId
                       && db.assignments[k].employeeUser == r.userId)))
      && (status == BadRequest <==> SurveyVisible(db, r, surveyId) && !ValidSubmission(sub))
      && (status == NotFound || status == BadRequest ==> db' == db)
      && (status.Ok? ==> exists k :: 0 <= k < |db.assignments| && db'.assignments[k].isCompleted
                          && db'.assignments[k].completedAt == Some(now) && db'.assignments[k].totalScore == Some(status.total)
                          && db.assignments[k].employeeUser == r.userId && db.assignments[k].surveyId == surveyId)
  {
  }

  /** Submit's total is the sum of the contributions of the submitted entries. */
  lemma {:induction false} SubmittedTotal(db: Db, r: Requester, surveyId: int, sub: Submission, now: real, parseFloat: string -> Option<real>)
    requires Submitted(db, r, surveyId, sub, now, parseFloat).1.Ok?
    ensures Submitted(db, r, surveyId, sub, now, parseFloat).1.total == ContributionSum(db.questions, surveyId, sub.entries, parseFloat)
  {
    var k := OwnAssignment(db.assignments, sub.assignmentId.value, surveyId, r.userId).value;
    SubmitTotalIsSum(db.questions, surveyId, db.assignments[k].id, db.responses, sub.entries, parseFloat);
  }

  /** An entry for an unscored question of the survey only writes its answer. */
  lemma {:induction false} UnscoredStep(qs: seq<QuestionRow>, surveyId: int, assignmentId: int, rows: seq<ResponseRow>,
                                        qr: QuestionRow, answer: Json, parseFloat: string -> Option<real>)
    requires QuestionById(qs, qr.id) == Some(qr) && qr.surveyId == surveyId && !qr.q.hasScoring
    ensures SubmitStep(qs, surveyId, assignmentId, Running(rows, 0.0), Entry(Some(qr.id), answer), parseFloat)
            == Running(Upsert(rows, assignmentId, qr.id, answer), 0.0)
  {
  }

  /** The same unscored question answered twice in one submission leaves one response,
      holding the later answer, and adds nothing to the total. */
  lemma {:induction false} RepeatedQuestionOverwrites(qs: seq<QuestionRow>, surveyId: int, assignmentId: int, rows0: seq<ResponseRow>,
                                   qr: QuestionRow, first: Json, second: Json, parseFloat: string -> Option<real>)
    requires UniqueResponses(rows0)
    requires QuestionById(qs, qr.id) == Some(qr) && qr.surveyId == surveyId && !qr.q.hasScoring
    ensures var p := SubmitRun(qs, surveyId, assignmentId, Running(rows0, 0.0),
                               [Entry(Some(qr.id), first), Entry(Some(qr.id), second)], parseFloat);
      && p.Running?
      && p.total == 0.0
      && (exists k :: 0 <= k < |p.rows| && p.rows[k].assignmentId == assignmentId && p.rows[k].questionId == qr.id
                      && p.rows[k].answer == second)
      && UniqueResponses(p.rows)
  {
    var es := [Entry(Some(qr.id), first), Entry(Some(qr.id), second)];
    var start := Running(rows0, 0.0);
    assert es[..1] == [es[0]] && es[..1][..0] == [];
    var rows1 := Upsert(rows0, assignmentId, qr.id, first);
    UnscoredStep(qs, surveyId, assignmentId, rows0, qr, first, parseFloat);
    assert SubmitRun(qs, surveyId, assignmentId, start, es[..1], parseFloat) == Running(rows1, 0.0);
    var rows2 := Upsert(rows1, assignmentId, qr.id, second);
    UnscoredStep(qs, surveyId, assignmentId, rows1, qr, second, parseFloat);
    assert SubmitRun(qs, surveyId, assignmentId, start, es, parseFloat) == Running(rows2, 0.0);
    UpsertEffect(rows0, assignmentId, qr.id, first);
    UpsertEffect(rows1, assignmentId, qr.id, second);
  }

  // ---------------------------------------------------------------------------
  // score

  /** Re-scoring's weighting: times the factor's weight with a factor, the raw score without. */
  function RescoreWeight(q: ScoringQuestion, s: real): real {
    if q.factor.Some? then s * q.factor.value.weight else s
  }

  /** What one stored response adds to the re-scored total of `assignmentId`. */
  function RescoreTerm(qs: seq<QuestionRow>, row: ResponseRow, assignmentId: int): real {
    if row.assignmentId != assignmentId || row.score.None? then 0.0
    else match QuestionById(qs, row.questionId)
      case Some(qr) => if qr.q.hasScoring then RescoreWeight(qr.q, row.score.value) else 0.0
      case None => 0.0
  }

  /** The re-scored total: the assignment's scored responses of scoring questions, each
      weighted by its factor or counted raw. */
  function RescoreTotal(qs: seq<QuestionRow>, rows: seq<ResponseRow>, assignmentId: int): real {
    if |rows| == 0 then 0.0
    else RescoreTotal(qs, rows[..|rows| - 1], assignmentId) + RescoreTerm(qs, rows[|rows| - 1], assignmentId)
  }

  /** `score`: the new database and the response status. `raw` is `request.data.get('score')`
      (None when the key is absent). */
  function Rescored(db: Db, r: Requester, assignmentId: int, questionId: int, raw: Option<Json>,
                    parseFloat: string -> Option<real>): (Db, Status)
  {
    match ResponseIndex(db.responses, assignmentId, questionId)
    case None => (db, NotFound)
    case Some(i) =>
      match AssignmentById(db.assignments, assignmentId)
      case None => (db, NotFound)
      case Some(k) =>
        if !Visible(r, db.assignments[k]) then (db, NotFound)
        else if raw.None? || raw.value == JNull then (db, BadRequest)
        else match PyFloat(raw.value, parseFloat)
          case FTypeError => (db, ServerError)
          case FValueError => (db, BadRequest)
          case FValue(x) =>
            match QuestionById(db.questions, questionId)
            case None => (db, NotFound)
            case Some(qr) =>
              if qr.q.hasScoring && (x < 0.0 || x > qr.q.scoringPoints) then (db, BadRequest)
              else
                var rows := db.responses[i := db.responses[i].(score := Some(x))];
                var total := RescoreTotal(db.questions, rows, assignmentId);
                (db.(responses := rows, assignments := db.assignments[k := db.assignments[k].(totalScore := Some(total))]), Ok(total))
  }

  /** The bounds check of `score`: a scoring question accepts exactly the scores in
      [0, scoring_points]; a question without scoring accepts any number. */
  lemma {:induction false} ScoreBounds(db: Db, r: Requester, assignmentId: int, questionId: int, x: int, parseFloat: string -> Option<real>)
    requires ResponseIndex(db.responses, assignmentId, questionId).Some?
    requires AssignmentById(db.assignments, assignmentId).Some?
    requires Visible(r, db.assignments[AssignmentById(db.assignments, assignmentId).value])
    requires QuestionById(db.questions, questionId).Some?
    ensures var qr := QuestionById(db.questions, questionId).value;
      var status := Rescored(db, r, assignmentId, questionId, Some(JInt(x)), parseFloat).1;
      && (qr.q.hasScoring ==> (status.Ok? <==> 0.0 <= x as real <= qr.q.scoringPoints))
      && (!qr.q.hasScoring ==> status.Ok?)
      && (status.Ok? ==> Rescored(db, r, assignmentId, questionId, Some(JInt(x)), parseFloat).0.responses
                         [ResponseIndex(db.responses, assignmentId, questionId).value].score == Some(x as real))
  {
  }

  /** A missing or null score is a 400 and changes nothing. */
  lemma {:induction false} MissingScoreRejected(db: Db, r: Requester, assignmentId: int, questionId: int, parseFloat: string -> Option<real>)
    ensures var (db', status) := Rescored(db, r, assignmentId, questionId, None, parseFloat);
      db' == db && (status == BadRequest || status == NotFound)
    ensures var (db', status) := Rescored(db, r, assignmentId, questionId, Some(JNull), parseFloat);
      db' == db && (status == BadRequest || status == NotFound)
  {
  }

  /** The re-scored total is additive over the table. */
  lemma {:induction false} RescoreTotalAppend(qs: seq<QuestionRow>, rows: seq<ResponseRow>, extra: ResponseRow, assignmentId: int)
    ensures RescoreTotal(qs, rows + [extra], assignmentId) == RescoreTotal(qs, rows, assignmentId) + RescoreTerm(qs, extra, assignmentId)
  {
    assert (rows + [extra])[..|rows|] == rows;
  }

  /** Rows of other assignments do not count. */
  lemma {:induction false} RescoreIgnoresOthers(qs: seq<QuestionRow>, rows: seq<ResponseRow>, assignmentId: int)
    requires forall k :: 0 <= k < |rows| ==> rows[k].assignmentId != assignmentId
    ensures RescoreTotal(qs, rows, assignmentId) == 0.0
  {
    if |rows| > 0 {
      RescoreIgnoresOthers(qs, rows[..|rows| - 1], assignmentId);
    }
  }

  // ---------------------------------------------------------------------------
  // The two totals disagree

  /** A scored RATING question without a factor. */
  function UnfactoredRating(): QuestionRow {
    QuestionRow(1, 1, ScoringQuestion(RATING, true, 5.0, Some(map["1" := 1.0]), None))
  }

  /** Submitting the answer `{value: 3}` to a scored question without a factor stores the
      score 3 but totals 0; re-scoring the same rows totals 3. */
  lemma {:induction false} SubmitAndRescoreDisagree(parseFloat: string -> Option<real>)
    ensures var qs := [UnfactoredRating()];
      var p := SubmitRun(qs, 1, 7, Running([], 0.0), [Entry(Some(1), Singleton("value", JInt(3)))], parseFloat);
      && p == Running([ResponseRow(7, 1, Singleton("value", JInt(3)), Some(3.0))], 0.0)
      && RescoreTotal(qs, p.rows, 7) == 3.0
  {
    var qs := [UnfactoredRating()];
    var e := Entry(Some(1), Singleton("value", JInt(3)));
    assert [e][..0] == [];
    RatingScore(UnfactoredRating().q, 3, parseFloat);
    var rows := [ResponseRow(7, 1, Singleton("value", JInt(3)), Some(3.0))];
    assert rows[..0] == [];
  }

  /** Submit with re-scoring's weighting: what one entry should add to the total. */
  function CorrectedContribution(qs: seq<QuestionRow>, surveyId: int, e: Entry, parseFloat: string -> Option<real>): real {
    if e.questionId.None? then 0.0
    else match QuestionById(qs, e.questionId.value)
      case None => 0.0
      case Some(qr) =>
        if qr.surveyId != surveyId || !qr.q.hasScoring then 0.0
        else match ScoreOf(qr.q, e.answer, parseFloat)
          case Returned(Some(s)) => RescoreWeight(qr.q, s)
          case _ => 0.0
  }

  function CorrectedSum(qs: seq<QuestionRow>, surveyId: int, entries: seq<Entry>, parseFloat: string -> Option<real>): real {
    if |entries| == 0 then 0.0
    else CorrectedSum(qs, surveyId, entries[..|entries| - 1], parseFloat) + CorrectedContribution(qs, surveyId, entries[|entries| - 1], parseFloat)
  }

  /** Entries with pairwise different question ids. */
  predicate DistinctQuestions(entries: seq<Entry>) {
    forall i, j :: 0 <= i < j < |entries| ==> entries[i].questionId != entries[j].questionId
  }

  lemma {:induction false} DistinctQuestionsInit(entries: seq<Entry>)
    requires DistinctQuestions(entries) && |entries| > 0
    ensures DistinctQuestions(entries[..|entries| - 1])
    ensures forall j :: 0 <= j < |entries| - 1 ==> entries[j].questionId != entries[|entries| - 1].questionId
  {
  }

  /** Once scoring has raised, further entries change nothing. */
  lemma {:induction false} CrashedStays(qs: seq<QuestionRow>, surveyId: int, assignmentId: int, p: Progress, e: Entry,
                                        parseFloat: string -> Option<real>)
    requires SubmitStep(qs, surveyId, assignmentId, p, e, parseFloat).Running?
    ensures p.Running?
  {
  }

  /** Every row of `assignmentId` answers a question named by one of the entries. */
  predicate RowsFromEntries(rows: seq<ResponseRow>, assignmentId: int, entries: seq<Entry>) {
    forall k :: 0 <= k < |rows| && rows[k].assignmentId == assignmentId ==>
      exists j :: 0 <= j < |entries| && entries[j].questionId == Some(rows[k].questionId)
  }

  lemma {:induction false} AppendThenScore(rows: seq<ResponseRow>, assignmentId: int, questionId: int, answer: Json, s: Option<real>)
    requires ResponseIndex(rows, assignmentId, questionId).None?
    ensures Upsert(rows, assignmentId, questionId, answer) == rows + [ResponseRow(assignmentId, questionId, answer, None)]
    ensures SetScore(rows + [ResponseRow(assignmentId, questionId, answer, None)], assignmentId, questionId, s)
            == rows + [ResponseRow(assignmentId, questionId, answer, s)]
  {
    var r := rows + [ResponseRow(assignmentId, questionId, answer, None)];
    assert r[..|r| - 1] == rows;
  }

  /** One step of submit, for an entry whose question was not answered before: the rows
      gain at most that entry's response, and re-scoring them gains the entry's corrected
      contribution. */
  lemma {:induction false} CorrectedStep(qs: seq<QuestionRow>, surveyId: int, assignmentId: int, p: Progress, init: seq<Entry>, e: Entry,
                      parseFloat: string -> Option<real>)
    requires p.Running? && RowsFromEntries(p.rows, assignmentId, init)
    requires forall j :: 0 <= j < |init| ==> init[j].questionId != e.questionId
    requires SubmitStep(qs, surveyId, assignmentId, p, e, parseFloat).Running?
    ensures var p' := SubmitStep(qs, surveyId, assignmentId, p, e, parseFloat);
      RescoreTotal(qs, p'.rows, assignmentId) == RescoreTotal(qs, p.rows, assignmentId) + CorrectedContribution(qs, surveyId, e, parseFloat)
      && RowsFromEntries(p'.rows, assignmentId, init + [e])
  {
    var entries := init + [e];
    var p' := SubmitStep(qs, surveyId, assignmentId, p, e, parseFloat);
    if e.questionId.Some? && QuestionById(qs, e.questionId.value).Some?
       && QuestionById(qs, e.questionId.value).value.surveyId == surveyId {
      var qr := QuestionById(qs, e.questionId.value).value;
      forall k | 0 <= k < |p.rows|
        ensures !(p.rows[k].assignmentId == assignmentId && p.rows[k].questionId == qr.id)
      {
      }
      var s := if qr.q.hasScoring then ScoreOf(qr.q, e.answer, parseFloat).score else None;
      AppendThenScore(p.rows, assignmentId, qr.id, e.answer, s);
      var newRow := ResponseRow(assignmentId, qr.id, e.answer, s);
      assert p'.rows == p.rows + [newRow];
      RescoreTotalAppend(qs, p.rows, newRow, assignmentId);
      RowsFromEntriesGrow(p.rows, assignmentId, init, e);
      RowsFromEntriesAppend(p.rows, assignmentId, entries, newRow);
    } else {
      assert p' == p;
      RowsFromEntriesGrow(p.rows, assignmentId, init, e);
    }
  }

  lemma {:induction false} RowsFromEntriesGrow(rows: seq<ResponseRow>, assignmentId: int, init: seq<Entry>, e: Entry)
    requires RowsFromEntries(rows, assignmentId, init)
    ensures RowsFromEntries(rows, assignmentId, init + [e])
  {
    var entries := init + [e];
    forall k | 0 <= k < |rows| && rows[k].assignmentId == assignmentId
      ensures exists j :: 0 <= j < |entries| && entries[j].questionId == Some(rows[k].questionId)
    {
      var j :| 0 <= j < |init| && init[j].questionId == Some(rows[k].questionId);
      assert entries[j] == init[j];
    }
  }

  lemma {:induction false} RowsFromEntriesAppend(rows: seq<ResponseRow>, assignmentId: int, entries: seq<Entry>,
                                                 row: ResponseRow)
    requires RowsFromEntries(rows, assignmentId, entries)
    requires |entries| > 0 && entries[|entries| - 1].questionId == Some(row.questionId)
    ensures RowsFromEntries(rows + [row], assignmentId, entries)
  {
    var r := rows + [row];
    forall k | 0 <= k < |r| && r[k].assignmentId == assignmentId
      ensures exists j :: 0 <= j < |entries| && entries[j].questionId == Some(r[k].questionId)
    {
      if k < |rows| {
        assert r[k] == rows[k];
      } else {
        assert entries[|entries| - 1].questionId == Some(r[k].questionId);
      }
    }
  }

  /** For an assignment without stored responses, a submission answering each question at
      most once totals, under re-scoring's weighting, exactly what re-scoring the stored rows
      gives. */
  lemma {:induction false} CorrectedSubmitAgreesWithRescore(qs: seq<QuestionRow>, surveyId: int, assignmentId: int,
                                                            rows0: seq<ResponseRow>, entries: seq<Entry>,
                                                            parseFloat: string -> Option<real>)
    requires forall k :: 0 <= k < |rows0| ==> rows0[k].assignmentId != assignmentId
    requires DistinctQuestions(entries)
    requires SubmitRun(qs, surveyId, assignmentId, Running(rows0, 0.0), entries, parseFloat).Running?
    ensures var p := SubmitRun(qs, surveyId, assignmentId, Running(rows0, 0.0), entries, parseFloat);
      RescoreTotal(qs, p.rows, assignmentId) == CorrectedSum(qs, surveyId, entries, parseFloat)
      && RowsFromEntries(p.rows, assignmentId, entries)
  {
    if |entries| == 0 {
      RescoreIgnoresOthers(qs, rows0, assignmentId);
    } else {
      var init := entries[..|entries| - 1];
      var e := entries[|entries| - 1];
      var p := SubmitRun(qs, surveyId, assignmentId, Running(rows0, 0.0), init, parseFloat);
      assert SubmitRun(qs, surveyId, assignmentId, Running(rows0, 0.0), entries, parseFloat)
          == SubmitStep(qs, surveyId, assignmentId, p, e, parseFloat);
      CrashedStays(qs, surveyId, assignmentId, p, e, parseFloat);
      DistinctQuestionsInit(entries);
      assert forall j :: 0 <= j < |init| ==> init[j] == entries[j];
      CorrectedSubmitAgreesWithRescore(qs, surveyId, assignmentId, rows0, init, parseFloat);
      CorrectedStep(qs, surveyId, assignmentId, p, init, e, parseFloat);
      assert init + [e] == entries;
    }
  }

  // ---------------------------------------------------------------------------
  // The loops of the two views

  /** Submit's loop: each entry of a question in the survey is upserted and, for a scoring
      question, scored by `calculate_score` and weighted into the running total. */
  method RunEntries(qs: seq<QuestionRow>, surveyId: int, assignmentId: int, rows0: seq<ResponseRow>,
                    entries: seq<Entry>, parseFloat: string -> Option<real>) returns (p: Progress)
    ensures p == SubmitRun(qs, surveyId, assignmentId, Running(rows0, 0.0), entries, parseFloat)
  {
    var start := Running(rows0, 0.0);
    var rows := rows0;
    var total := 0.0;
    var i := 0;
    while i < |entries|
      invariant 0 <= i <= |entries|
      invariant SubmitRun(qs, surveyId, assignmentId, start, entries[..i], parseFloat) == Running(rows, total)
    {
      assert entries[..i + 1][..i] == entries[..i];
      var next := RunEntry(qs, surveyId, assignmentId, rows, total, entries[i], parseFloat);
      if next.Crashed? {
        CrashIsFinal(qs, surveyId, assignmentId, start, entries, i + 1, parseFloat);
        return next;
      }
      rows, total := next.rows, next.total;
      i := i + 1;
    }
    assert entries[..|entries|] == entries;
    p := Running(rows, total);
  }

  /** One pass of submit's loop: skip an entry whose question is not in the survey, otherwise
      write and score it. */
  method RunEntry(qs: seq<QuestionRow>, surveyId: int, assignmentId: int, rows0: seq<ResponseRow>,
                  total0: real, e: Entry, parseFloat: string -> Option<real>) returns (p: Progress)
    ensures p == SubmitStep(qs, surveyId, assignmentId, Running(rows0, total0), e, parseFloat)
  {
    if e.questionId.None? {
      return Running(rows0, total0);
    }
    var question := QuestionById(qs, e.questionId.value);
    if question.None? || question.value.surveyId != surveyId {
      return Running(rows0, total0);
    }
    p := WriteAndScore(rows0, total0, assignmentId, question.value, e.answer, parseFloat);
  }

  /** Writing the answer, then, for a scored question, `calculate_score`, saving the score and
      adding its weighted value to the total. */
  method WriteAndScore(rows0: seq<ResponseRow>, total0: real, assignmentId: int, qr: QuestionRow, answer: Json,
                       parseFloat: string -> Option<real>) returns (p: Progress)
    ensures p == WriteEntry(rows0, total0, assignmentId, qr, answer, parseFloat)
  {
    var rows := Upsert(rows0, assignmentId, qr.id, answer);
    if qr.q.hasScoring {
      var s := CalculateScore(qr.q, answer, parseFloat);
      p := ApplyScore(rows, total0, assignmentId, qr, s);
    } else {
      p := Running(rows, total0);
    }
  }

  /** The rest of the loop body once `calculate_score` has returned or raised. */
  method ApplyScore(rows0: seq<ResponseRow>, total0: real, assignmentId: int, qr: QuestionRow, s: ScoreResult)
    returns (p: Progress)
    ensures p == AfterScore(rows0, total0, assignmentId, qr, s)
  {
    if s.Raised? {
      return Crashed(rows0);
    }
    var rows := SetScore(rows0, assignmentId, qr.id, s.score);
    var total := total0;
    if s.score.Some? && qr.q.factor.Some? {
      total := total + s.score.value * qr.q.factor.value.weight;
    }
    p := Running(rows, total);
  }

  /** The re-scoring loop over the stored responses. */
  method TotalScore(qs: seq<QuestionRow>, rows: seq<ResponseRow>, assignmentId: int) returns (total: real)
    ensures total == RescoreTotal(qs, rows, assignmentId)
  {
    total := 0.0;
    var j := 0;
    while j < |rows|
      invariant 0 <= j <= |rows|
      invariant total == RescoreTotal(qs, rows[..j], assignmentId)
    {
      assert rows[..j + 1][..j] == rows[..j];
      var row := rows[j];
      if row.assignmentId == assignmentId && row.score.Some? {
        var rq := QuestionById(qs, row.questionId);
        if rq.Some? && rq.value.q.hasScoring {
          if rq.value.q.factor.Some? {
            total := total + row.score.value * rq.value.q.factor.value.weight;
          } else {
            total := total + row.score.value;
          }
        }
      }
      j := j + 1;
    }
    assert rows[..|rows|] == rows;
  }

  // ---------------------------------------------------------------------------
  // The database as the views change it

  class Store {
    var surveys: seq<int>
    var questions: seq<QuestionRow>
    var assignments: seq<AssignmentRow>
    var responses: seq<ResponseRow>

    function State(): Db
      reads this
    {
      Db(surveys, questions, assignments, responses)
    }

    constructor (db: Db)
      ensures State() == db
    {
      surveys := db.surveys;
      questions := db.questions;
      assignments := db.assignments;
      responses := db.responses;
    }

    /** `SurveyViewSet.submit`. */
    method Submit(r: Requester, surveyId: int, sub: Submission, now: real, parseFloat: string -> Option<real>)
      returns (status: Status)
      modifies this
      ensures (State(), status) == Submitted(old(State()), r, surveyId, sub, now, parseFloat)
    {
      if !SurveyVisible(State(), r, surveyId) {
        return NotFound;
      }
      if !ValidSubmission(sub) {
        return BadRequest;
      }
      var found := OwnAssignment(assignments, sub.assignmentId.value, surveyId, r.userId);
      if found.None? {
        return NotFound;
      }
      var k := found.value;
      var p := RunEntries(questions, surveyId, assignments[k].id, responses, sub.entries, parseFloat);
      responses := p.rows;
      if p.Crashed? {
        return ServerError;
      }
      assignments := assignments[k := Completed(assignments[k], now, p.total)];
      status := Ok(p.total);
    }

    /** `SurveyResponseViewSet.score`. */
    method Score(r: Requester, assignmentId: int, questionId: int, raw: Option<Json>, parseFloat: string -> Option<real>)
      returns (status: Status)
      modifies this
      ensures (State(), status) == Rescored(old(State()), r, assignmentId, questionId, raw, parseFloat)
    {
      var found := ResponseIndex(responses, assignmentId, questionId);
      if found.None? {
        return NotFound;
      }
      var owner := AssignmentById(assignments, assignmentId);
      if owner.None? || !Visible(r, assignments[owner.value]) {
        return NotFound;
      }
      if raw.None? || raw.value == JNull {
        return BadRequest;
      }
      var parsed := PyFloat(raw.value, parseFloat);
      if parsed.FTypeError? {
        return ServerError;
      }
      if parsed.FValueError? {
        return BadRequest;
      }
      var x := parsed.r;
      var question := QuestionById(questions, questionId);
      if question.None? {
        return NotFound;
      }
      var q := question.value.q;
      if q.hasScoring && (x < 0.0 || x > q.scoringPoints) {
        return BadRequest;
      }
      var i := found.value;
      responses := responses[i := responses[i].(score := Some(x))];
      var total := TotalScore(questions, responses, assignmentId);
      var k := owner.value;
      assignments := assignments[k := assignments[k].(totalScore := Some(total))];
      status := Ok(total);
    }
  }

  /** Once `calculate_score` has raised, the remaining entries are not processed. */
  lemma {:induction false} CrashIsFinal(qs: seq<QuestionRow>, surveyId: int, assignmentId: int, start: Progress,
                                        entries: seq<Entry>, n: nat, parseFloat: string -> Option<real>)
    requires n <= |entries|
    requires SubmitRun(qs, surveyId, assignmentId, start, entries[..n], parseFloat).Crashed?
    ensures SubmitRun(qs, surveyId, assignmentId, start, entries, parseFloat)
            == SubmitRun(qs, surveyId, assignmentId, start, entries[..n], parseFloat)
    decreases |entries| - n
  {
    if n < |entries| {
      assert entries[..n + 1][..n] == entries[..n];
      CrashIsFinal(qs, surveyId, assignmentId, start, entries, n + 1, parseFloat);
    } else {
      assert entries[..n] == entries;
    }
  }
}
