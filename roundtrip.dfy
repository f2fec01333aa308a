/** The answers of the employee's survey form on their way to the backend and back: the list
    the form posts to `submit` (src/pages/employee/SurveyResponse.tsx), what `submit` and
    `calculate_score` make of it (backend/surveys/views.py, backend/surveys/models.py), and
    the list `responses/` serves for a completed assignment, from which the form rebuilds its
    record of answers. */
module AnswerRoundTrip {
  import opened Basics
  import opened JsonValues
  import opened Domain
  import opened SurveyResponseForm
  import opened SurveyModels
  import opened SurveyViews

  /** The posted list as `submit` reads it: each element's `question_id` and `answer`. */
  function Received(payload: seq<PayloadEntry>): seq<Entry> {
    seq(|payload|, i requires 0 <= i < |payload| => Entry(payload[i].questionId, payload[i].answer))
  }

  /** A question id as a key of the form's record, when it can be one. */
  function RecordKey(id: Option<int>): Option<nat> {
    if id.Some? && id.value >= 0 then Some(id.value as nat) else None
  }

  // ---------------------------------------------------------------------------
  // What `responses/` serves

  /** The served rows of an assignment as the form reads them: the response serializer names
      the question field `question`, so every item's `question_id` is undefined. */
  function Served(rows: seq<ResponseRow>): seq<StoredItem> {
    seq(|rows|, i requires 0 <= i < |rows| => StoredItem(None, rows[i].answer))
  }

  /** The served rows with the question's id under `question_id`. */
  function ServedWithIds(rows: seq<ResponseRow>): seq<StoredItem> {
    seq(|rows|, i requires 0 <= i < |rows| => StoredItem(RecordKey(Some(rows[i].questionId)), rows[i].answer))
  }

  /** As written, the rebuilt record of a completed assignment with stored answers has the
      single key "undefined", holding the last row's answer: no question shows its answer. */
  lemma {:induction false} ServedAnswersLoseTheirQuestions(rows: seq<ResponseRow>)
    requires |rows| > 0
    ensures Rebuilt(Served(rows)).Keys == {UndefinedKey}
    ensures Rebuilt(Served(rows))[UndefinedKey] == RebuildValue(rows[|rows| - 1].answer)
  {
    var items := Served(rows);
    RebuiltKeys(items);
    assert KeyOf(items[0]) == UndefinedKey;
    forall k | k in Rebuilt(items)
      ensures k == UndefinedKey
    {
      var i :| 0 <= i < |items| && KeyOf(items[i]) == k;
    }
  }

  // ---------------------------------------------------------------------------
  // The raw answer, as written

  /** A survey (id 1) with one scored RATING question (id 1) under a factor of weight 1, and
      one open assignment (id 7) of the employee whose user id is 20. */
  function RatingDb(): Db {
    Db([1],
       [QuestionRow(1, 1, ScoringQuestion(RATING, true, 5.0, Some(map["1" := 1.0]),
                                         Some(Factor(1, "Workload", TURNOVER, 1.0))))],
       [AssignmentRow(7, 1, 3, 20, None, false, None, None)],
       [])
  }

  function RatingEmployee(): Requester {
    Requester(20, EMPLOYEE, None)
  }

  /** The payload of a record holding one answer is that answer, unchanged, under its id. */
  lemma {:induction false} PayloadOfOne(n: nat, v: Json)
    ensures Payload(map[Id(n) := v]) == [PayloadEntry(Some(n), v)]
  {
    var responses := map[Id(n) := v];
    PayloadLength(responses);
    PayloadFaithful(responses);
    var keys := KeysInOrder(responses);
    assert keys[0] in responses;
  }

  /** As written: a rating of 3 is recorded as the bare number 3 and posted as it is;
      `calculate_score` reads `.get` on it and raises, so submit fails with the answer row
      already written and without a score, and the assignment stays open. Served back with
      its question id, the row rebuilds to ''. */
  lemma {:induction false} RawRatingCrashesSubmit(parseFloat: string -> Option<real>)
    ensures Payload(map[Id(1) := JInt(3)]) == [PayloadEntry(Some(1), JInt(3))]
    ensures var sub := Submission(Some(7), Received(Payload(map[Id(1) := JInt(3)])));
      var (db', status) := Submitted(RatingDb(), RatingEmployee(), 1, sub, 0.0, parseFloat);
      && status == ServerError
      && db'.responses == [ResponseRow(7, 1, JInt(3), None)]
      && db'.assignments == RatingDb().assignments
    ensures Rebuilt(ServedWithIds([ResponseRow(7, 1, JInt(3), None)])) == map[Id(1) := JStr("")]
  {
    PayloadOfOne(1, JInt(3));
    RawRatingSubmitFails(parseFloat);
    RawRatingRebuildsBlank();
  }

  /** As written: submit over the bare rating answers 500, keeps the unscored row it wrote
      and leaves the assignment open. */
  lemma {:induction false} RawRatingSubmitFails(parseFloat: string -> Option<real>)
    ensures var sub := Submission(Some(7), Received([PayloadEntry(Some(1), JInt(3))]));
      var (db', status) := Submitted(RatingDb(), RatingEmployee(), 1, sub, 0.0, parseFloat);
      && status == ServerError
      && db'.responses == [ResponseRow(7, 1, JInt(3), None)]
      && db'.assignments == RatingDb().assignments
  {
    var db := RatingDb();
    var entries := Received([PayloadEntry(Some(1), JInt(3))]);
    assert entries == [Entry(Some(1), JInt(3))];
    assert db.assignments[0].surveyId == 1 && db.assignments[0].employeeUser == 20;
    assert SurveyVisible(db, RatingEmployee(), 1);
    assert OwnAssignment(db.assignments, 7, 1, 20) == Some(0);
    assert entries[..0] == [];
    BareAnswerRaises(db.questions[0].q, JInt(3), parseFloat);
  }

  /** As written: the unscored bare rating, served back under its id, rebuilds to ''. */
  lemma {:induction false} RawRatingRebuildsBlank()
    ensures Rebuilt(ServedWithIds([ResponseRow(7, 1, JInt(3), None)])) == map[Id(1) := JStr("")]
  {
    var items := ServedWithIds([ResponseRow(7, 1, JInt(3), None)]);
    assert items == [StoredItem(Some(1), JInt(3))];
    assert items[..0] == [];
  }

  // ---------------------------------------------------------------------------
  // The wrapped answer, corrected

  /** The answer as `calculate_score` and the rebuild read it: a checkbox's list under
      `values`, any other answer under `value`. */
  function WrapAnswer(t: QuestionType, v: Json): (w: Json)
    ensures w.JObj? && RebuildValue(w) == v
  {
    if t == CHECKBOX then Singleton("values", v) else Singleton("value", v)
  }

  /** The type of the form's question with id `id` (the first one); free text when there is
      none. */
  function QuestionKind(qs: seq<FormQuestion>, id: int): (t: QuestionType)
    ensures (exists i :: 0 <= i < |qs| && qs[i].id == id && qs[i].qtype == t)
            || (t == TEXT && forall i :: 0 <= i < |qs| ==> qs[i].id != id)
  {
    if |qs| == 0 then TEXT
    else if qs[0].id == id then qs[0].qtype
    else
      var t := QuestionKind(qs[1..], id);
      assert forall i :: 1 <= i < |qs| ==> qs[i] == qs[1..][i - 1];
      t
  }

  function EntryKind(qs: seq<FormQuestion>, id: Option<int>): QuestionType {
    if id.Some? then QuestionKind(qs, id.value) else TEXT
  }

  /** The corrected payload: the entries of `Payload`, each answer wrapped by its question's
      type. */
  function WrappedPayload(qs: seq<FormQuestion>, responses: map<Key, Json>): seq<PayloadEntry> {
    var raw := Payload(responses);
    seq(|raw|, i requires 0 <= i < |raw| =>
      PayloadEntry(raw[i].questionId, WrapAnswer(EntryKind(qs, raw[i].questionId), raw[i].answer)))
  }

  /** An answer `calculate_score` reads without raising, whatever the question: an object
      whose `values` member, if it has one, can be iterated. */
  predicate Readable(a: Json) {
    a.JObj? && IteratedTexts(GetOr(a.fields, "values", JArr([]))).Some?
  }

  lemma {:induction false} ReadableNeverRaises(q: ScoringQuestion, a: Json, parseFloat: string -> Option<real>)
    requires Readable(a)
    ensures ScoreOf(q, a, parseFloat).Returned?
  {
  }

  /** A run over readable answers never stops on an exception. */
  lemma {:induction false} ReadableRunCompletes(qs: seq<QuestionRow>, surveyId: int, assignmentId: int,
                                                start: Progress, entries: seq<Entry>,
                                                parseFloat: string -> Option<real>)
    requires start.Running?
    requires forall k :: 0 <= k < |entries| ==> Readable(entries[k].answer)
    ensures SubmitRun(qs, surveyId, assignmentId, start, entries, parseFloat).Running?
  {
    if |entries| > 0 {
      var init := entries[..|entries| - 1];
      var e := entries[|entries| - 1];
      ReadableRunCompletes(qs, surveyId, assignmentId, start, init, parseFloat);
      if e.questionId.Some? && QuestionById(qs, e.questionId.value).Some? {
        ReadableNeverRaises(QuestionById(qs, e.questionId.value).value.q, e.answer, parseFloat);
      }
    }
  }

  lemma {:induction false} WrappedLength(qs: seq<FormQuestion>, responses: map<Key, Json>)
    ensures |WrappedPayload(qs, responses)| == |KeysInOrder(responses)|
  {
    PayloadFaithful(responses);
  }

  /** Entry `i` of the wrapped payload: the id of the record's `i`-th key and its answer,
      wrapped by its question's type. */
  lemma {:induction false} WrappedEntry(qs: seq<FormQuestion>, responses: map<Key, Json>, i: nat)
    requires i < |KeysInOrder(responses)|
    ensures var k := KeysInOrder(responses)[i];
      && k in responses
      && i < |WrappedPayload(qs, responses)|
      && WrappedPayload(qs, responses)[i] == PayloadEntry(KeyId(k), WrapAnswer(EntryKind(qs, KeyId(k)), responses[k]))
  {
    PayloadFaithful(responses);
    assert KeysInOrder(responses)[i] in KeysInOrder(responses);
  }

  /** A wrapped answer is readable unless a checkbox answer is not a list. */
  lemma {:induction false} WrapReadable(t: QuestionType, v: Json)
    requires t == CHECKBOX ==> v.JArr?
    ensures Readable(WrapAnswer(t, v))
  {
  }

  /** Every wrapped answer is readable when the record holds a list for each checkbox
      question, as the checkbox handler records it. */
  lemma {:induction false} WrappedIsReadable(qs: seq<FormQuestion>, responses: map<Key, Json>)
    requires forall k :: k in responses && k.Id? && QuestionKind(qs, k.n) == CHECKBOX ==> responses[k].JArr?
    ensures forall i :: 0 <= i < |WrappedPayload(qs, responses)| ==>
              Readable(WrappedPayload(qs, responses)[i].answer)
  {
    WrappedLength(qs, responses);
    var keys := KeysInOrder(responses);
    forall i | 0 <= i < |WrappedPayload(qs, responses)|
      ensures Readable(WrappedPayload(qs, responses)[i].answer)
    {
      WrappedEntry(qs, responses, i);
      var k := keys[i];
      WrapReadable(EntryKind(qs, KeyId(k)), responses[k]);
    }
  }

  /** Corrected: with every answer wrapped by its question's type, a record whose keys are
      question ids and whose checkbox answers are lists submits successfully to an assignment
      of the requester's in a survey visible to the requester. */
  lemma {:induction false} CorrectedFormSubmits(db: Db, r: Requester, surveyId: int, qs: seq<FormQuestion>,
                             responses: map<Key, Json>, assignmentId: int, now: real,
                             parseFloat: string -> Option<real>)
    requires SurveyVisible(db, r, surveyId)
    requires OwnAssignment(db.assignments, assignmentId, surveyId, r.userId).Some?
    requires UndefinedKey !in responses
    requires forall k :: k in responses && k.Id? && QuestionKind(qs, k.n) == CHECKBOX ==> responses[k].JArr?
    ensures Submitted(db, r, surveyId, Submission(Some(assignmentId), Received(WrappedPayload(qs, responses))),
                      now, parseFloat).1.Ok?
  {
    var p := WrappedPayload(qs, responses);
    var entries := Received(p);
    WrappedLength(qs, responses);
    WrappedIsReadable(qs, responses);
    forall k | 0 <= k < |entries|
      ensures entries[k].questionId.Some? && entries[k].answer != JNull
    {
      WrappedEntry(qs, responses, k);
    }
    assert ValidSubmission(Submission(Some(assignmentId), entries));
    var a := OwnAssignment(db.assignments, assignmentId, surveyId, r.userId).value;
    ReadableRunCompletes(db.questions, surveyId, db.assignments[a].id, Running(db.responses, 0.0), entries, parseFloat);
  }

  /** The items of a served list when each posted entry is stored under its question id. */
  function StoredEntries(p: seq<PayloadEntry>): seq<StoredItem> {
    seq(|p|, i requires 0 <= i < |p| => StoredItem(RecordKey(p[i].questionId), p[i].answer))
  }

  /** Corrected: the wrapped answers, served back under their question ids, rebuild to the
      record the form posted. */
  lemma {:induction false} WrappedPayloadRoundTrip(qs: seq<FormQuestion>, responses: map<Key, Json>)
    requires UndefinedKey !in responses
    ensures Rebuilt(StoredEntries(WrappedPayload(qs, responses))) == responses
  {
    var p := WrappedPayload(qs, responses);
    var items := StoredEntries(p);
    var keys := KeysInOrder(responses);
    WrappedLength(qs, responses);
    forall i | 0 <= i < |items|
      ensures KeyOf(items[i]) == keys[i] && keys[i] in responses
              && RebuildValue(items[i].answer) == responses[keys[i]]
    {
      WrappedEntry(qs, responses, i);
    }
    RebuiltFromKeys(items, keys, responses);
  }

  /** Items that carry every key of a record, each with an answer that rebuilds to its key's
      value in the record, rebuild to that record. */
  lemma {:induction false} RebuiltFromKeys(items: seq<StoredItem>, keys: seq<Key>, responses: map<Key, Json>)
    requires |items| == |keys|
    requires forall i :: 0 <= i < |items| ==>
               KeyOf(items[i]) == keys[i] && keys[i] in responses && RebuildValue(items[i].answer) == responses[keys[i]]
    requires forall k :: k in responses ==> k in keys
    ensures Rebuilt(items) == responses
  {
    forall k | k in Rebuilt(items)
      ensures k in responses && Rebuilt(items)[k] == responses[k]
    {
      RebuiltValue(items, keys, responses, k);
    }
    RebuiltKeys(items);
  }

  lemma {:induction false} RebuiltValue(items: seq<StoredItem>, keys: seq<Key>, responses: map<Key, Json>, k: Key)
    requires |items| == |keys|
    requires forall i :: 0 <= i < |items| ==>
               KeyOf(items[i]) == keys[i] && keys[i] in responses && RebuildValue(items[i].answer) == responses[keys[i]]
    requires k in Rebuilt(items)
    ensures k in responses && Rebuilt(items)[k] == responses[k]
  {
    RebuiltLastWins(items, k);
  }
}
