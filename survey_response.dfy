/** The employee's survey form (src/pages/employee/SurveyResponse.tsx): a record of answers
    keyed by question id, guarded by the read-only flag of the page URL, the required-answer
    check run before submitting, the submitted payload, the rebuild of the record from stored
    answers, and the checkbox toggle. */
module SurveyResponseForm {
  import opened Basics
  import opened JsonValues
  import opened Domain

  /** A key of the `responses` record. Question ids are array-index keys; the rebuild from
      stored answers writes under the key "undefined" when an item has no `question_id`. */
  datatype Key = Id(n: nat) | UndefinedKey

  /** The fields of a survey question the form reads. */
  datatype FormQuestion = FormQuestion(id: nat, qtype: QuestionType, options: Option<seq<string>>,
                                       isRequired: bool)

  /** The fields of the assignment the form reads: its id, its survey's id, and whether it
      has been completed. */
  datatype Assignment = Assignment(id: int, surveyId: int, isCompleted: bool)

  /** One item of `GET /surveys/assignments/<id>/responses/`: its `question_id` property, if it
      has one, and its `answer`. */
  datatype StoredItem = StoredItem(questionId: Option<nat>, answer: Json)

  /** One element of the submitted `responses` list. `questionId` is `parseInt` of the key;
      NaN (None) is serialised as null. */
  datatype PayloadEntry = PayloadEntry(questionId: Option<int>, answer: Json)

  /** The body of `POST /surveys/forms/<surveyId>/submit/`. */
  datatype SubmitRequest = SubmitRequest(surveyId: int, assignmentId: int, responses: seq<PayloadEntry>)

  // ---------------------------------------------------------------------------
  // Required-answer check

  /** The filter predicate of `unansweredRequired`: a required checkbox question needs a
      non-empty array; any other required question needs a value other than undefined, null
      and ''. */
  predicate Flagged(q: FormQuestion, responses: map<Key, Json>) {
    if !q.isRequired then false
    else if q.qtype == CHECKBOX then
      !(Id(q.id) in responses && responses[Id(q.id)].JArr? && |responses[Id(q.id)].elems| > 0)
    else
      Id(q.id) !in responses || responses[Id(q.id)] == JNull || responses[Id(q.id)] == JStr("")
  }

  /** `questions.filter(...)`: the flagged questions, in their order. */
  function Unanswered(qs: seq<FormQuestion>, responses: map<Key, Json>): (r: seq<FormQuestion>)
    ensures |r| <= |qs|
    ensures forall q :: q in r <==> q in qs && Flagged(q, responses)
  {
    if |qs| == 0 then []
    else
      Unanswered(qs[..|qs| - 1], responses)
      + (if Flagged(qs[|qs| - 1], responses) then [qs[|qs| - 1]] else [])
  }

  function FlaggedIn(responses: map<Key, Json>): FormQuestion -> bool {
    x => Flagged(x, responses)
  }

  /** `Unanswered` is the order-keeping filter by its condition. */
  lemma {:induction false} UnansweredIsKeep(xs: seq<FormQuestion>, responses: map<Key, Json>)
    ensures Unanswered(xs, responses) == Keep(xs, FlaggedIn(responses))
  {
    if |xs| > 0 {
      UnansweredIsKeep(xs[..|xs| - 1], responses);
    }
  }

  /** Flagging a concatenation flags each part: the flagged questions are listed in the form's order. */
  lemma {:induction false} UnansweredSplit(front: seq<FormQuestion>, back: seq<FormQuestion>, responses: map<Key, Json>)
    ensures Unanswered(front + back, responses) == Unanswered(front, responses) + Unanswered(back, responses)
  {
    UnansweredIsKeep(front + back, responses);
    UnansweredIsKeep(front, responses);
    UnansweredIsKeep(back, responses);
    KeepSplit(front, back, FlaggedIn(responses));
  }

  /** Recording an answer for one question never changes whether another question is flagged. */
  lemma {:induction false} FlagIsLocal(q: FormQuestion, responses: map<Key, Json>, k: Key, v: Json)
    requires k != Id(q.id)
    ensures Flagged(q, responses[k := v]) == Flagged(q, responses)
  {
  }

  /** A non-empty answer of the right shape clears a required question's flag: a non-empty
      array for a checkbox question, anything but null and '' for the other types. */
  lemma {:induction false} AnswerClearsFlag(q: FormQuestion, responses: map<Key, Json>, v: Json)
    requires q.qtype == CHECKBOX ==> v.JArr? && |v.elems| > 0
    requires q.qtype != CHECKBOX ==> v != JNull && v != JStr("")
    ensures !Flagged(q, responses[Id(q.id) := v])
  {
  }

  /** An empty array never answers a required checkbox question, and '' never answers a
      required question of another type. */
  lemma {:induction false} EmptyAnswerKeepsFlag(q: FormQuestion, responses: map<Key, Json>)
    requires q.isRequired
    ensures Flagged(q, responses[Id(q.id) := if q.qtype == CHECKBOX then JArr([]) else JStr("")])
  {
  }

  // ---------------------------------------------------------------------------
  // Payload

  /** The integer-like keys of the record. */
  function IdKeys(responses: map<Key, Json>): set<nat> {
    set k | k in responses.Keys && k.Id? :: k.n
  }

  /** The integer-like keys of the record as keys, ascending. */
  function AscendingIdKeys(responses: map<Key, Json>): (r: seq<Key>)
    ensures forall i :: 0 <= i < |r| ==> r[i].Id?
    ensures forall i, j :: 0 <= i < j < |r| ==> r[i].n < r[j].n
  {
    var ids := Ascending(IdKeys(responses));
    seq(|ids|, i requires 0 <= i < |ids| => Id(ids[i]))
  }

  lemma {:induction false} AscendingIdKeysCover(responses: map<Key, Json>)
    ensures forall k :: k in AscendingIdKeys(responses) <==> k in responses && k.Id?
  {
    forall k | k in responses && k.Id?
      ensures k in AscendingIdKeys(responses)
    {
      IdKeyListed(responses, k);
    }
    forall k | k in AscendingIdKeys(responses)
      ensures k in responses
    {
      ListedKeyPresent(responses, k);
    }
  }

  lemma {:induction false} IdKeyListed(responses: map<Key, Json>, k: Key)
    requires k in responses && k.Id?
    ensures k in AscendingIdKeys(responses)
  {
    var ids := Ascending(IdKeys(responses));
    assert k.n in IdKeys(responses);
    var i :| 0 <= i < |ids| && ids[i] == k.n;
    assert AscendingIdKeys(responses)[i] == k;
  }

  lemma {:induction false} ListedKeyPresent(responses: map<Key, Json>, k: Key)
    requires k in AscendingIdKeys(responses)
    ensures k in responses
  {
    var ids := Ascending(IdKeys(responses));
    var r := AscendingIdKeys(responses);
    var i :| 0 <= i < |r| && r[i] == k;
    assert ids[i] in IdKeys(responses);
  }

  /** The keys in the order `Object.entries` lists them: integer-like keys ascending, then the
      string key "undefined". */
  function KeysInOrder(responses: map<Key, Json>): (r: seq<Key>)
    ensures forall k :: k in r <==> k in responses
    ensures forall i, j :: 0 <= i < j < |r| ==> r[i] != r[j]
    ensures forall i, j :: 0 <= i < j < |r| && r[j].Id? ==> r[i].Id? && r[i].n < r[j].n
  {
    var ids := AscendingIdKeys(responses);
    var tail := if UndefinedKey in responses then [UndefinedKey] else [];
    IdsThenUndefined(responses, ids, tail);
    ids + tail
  }

  lemma {:induction false} IdsThenUndefined(responses: map<Key, Json>, ids: seq<Key>, tail: seq<Key>)
    requires ids == AscendingIdKeys(responses)
    requires tail == if UndefinedKey in responses then [UndefinedKey] else []
    ensures forall k :: k in ids + tail <==> k in responses
    ensures forall i, j :: 0 <= i < j < |ids + tail| ==> (ids + tail)[i] != (ids + tail)[j]
    ensures forall i, j :: 0 <= i < j < |ids + tail| && (ids + tail)[j].Id? ==>
              (ids + tail)[i].Id? && (ids + tail)[i].n < (ids + tail)[j].n
  {
    IdsThenUndefinedCover(responses, ids, tail);
    AscendingThenUndefined(ids, tail);
  }

  lemma {:induction false} IdsThenUndefinedCover(responses: map<Key, Json>, ids: seq<Key>, tail: seq<Key>)
    requires ids == AscendingIdKeys(responses)
    requires tail == if UndefinedKey in responses then [UndefinedKey] else []
    ensures forall k :: k in ids + tail <==> k in responses
  {
    forall k
      ensures k in ids + tail <==> k in responses
    {
      KeyInIdsThenUndefined(responses, ids, tail, k);
    }
  }

  lemma {:induction false} KeyInIdsThenUndefined(responses: map<Key, Json>, ids: seq<Key>, tail: seq<Key>, k: Key)
    requires ids == AscendingIdKeys(responses)
    requires tail == if UndefinedKey in responses then [UndefinedKey] else []
    ensures k in ids + tail <==> k in responses
  {
    assert k in ids + tail <==> k in ids || k in tail;
    if k.Id? {
      assert k !in tail;
      if k in responses {
        IdKeyListed(responses, k);
      } else if k in ids {
        ListedKeyPresent(responses, k);
      }
    } else {
      assert k !in ids;
    }
  }

  lemma {:induction false} AscendingThenUndefined(ids: seq<Key>, tail: seq<Key>)
    requires forall i :: 0 <= i < |ids| ==> ids[i].Id?
    requires forall i, j :: 0 <= i < j < |ids| ==> ids[i].n < ids[j].n
    requires tail == [] || tail == [UndefinedKey]
    ensures forall i, j :: 0 <= i < j < |ids + tail| ==> (ids + tail)[i] != (ids + tail)[j]
    ensures forall i, j :: 0 <= i < j < |ids + tail| && (ids + tail)[j].Id? ==>
              (ids + tail)[i].Id? && (ids + tail)[i].n < (ids + tail)[j].n
  {
    var r := ids + tail;
    forall i, j | 0 <= i < j < |r|
      ensures r[i] != r[j]
    {
      if j < |ids| {
        assert r[i].n < r[j].n;
      } else {
        assert r[i].Id?;
      }
    }
  }

  /** The text of a key, as `Object.entries` hands it over. */
  function KeyText(k: Key): string {
    match k
    case Id(n) => IntToDecimal(n)
    case UndefinedKey => "undefined"
  }

  /** `Object.entries(responses).map(([questionId, answer]) => ({question_id: parseInt(questionId), answer}))`. */
  function Payload(responses: map<Key, Json>): seq<PayloadEntry> {
    var keys := KeysInOrder(responses);
    seq(|keys|, i requires 0 <= i < |keys| => PayloadEntry(ParseInt(KeyText(keys[i])), responses[keys[i]]))
  }

  /** The question id a key stands for: its number, or nothing for "undefined". */
  function KeyId(k: Key): Option<int> {
    if k.Id? then Some(k.n) else None
  }

  lemma {:induction false} UndefinedIsNaN()
    ensures ParseInt("undefined") == None
  {
    assert !IsDigit("undefined"[0]);
  }

  /** The payload has one entry per recorded key, in `Object.entries` order; each entry carries
      the key's question id (nothing for "undefined") and the stored answer unchanged. */
  lemma {:induction false} PayloadFaithful(responses: map<Key, Json>)
    ensures |Payload(responses)| == |KeysInOrder(responses)|
    ensures forall i :: 0 <= i < |Payload(responses)| ==>
              Payload(responses)[i] == PayloadEntry(KeyId(KeysInOrder(responses)[i]),
                                                     responses[KeysInOrder(responses)[i]])
  {
    var keys := KeysInOrder(responses);
    forall i | 0 <= i < |keys|
      ensures ParseInt(KeyText(keys[i])) == KeyId(keys[i])
    {
      if keys[i].Id? {
        ParseIntOfDecimal(keys[i].n);
      } else {
        UndefinedIsNaN();
      }
    }
  }

  lemma {:induction false} DistinctCount<T>(s: seq<T>)
    requires forall i, j :: 0 <= i < j < |s| ==> s[i] != s[j]
    ensures |set x | x in s| == |s|
  {
    if |s| > 0 {
      var init := s[..|s| - 1];
      DistinctCount(init);
      assert (set x | x in s) == (set x | x in init) + {s[|s| - 1]};
      assert s[|s| - 1] !in (set x | x in init);
    }
  }

  /** There are as many payload entries as recorded answers. */
  lemma {:induction false} PayloadLength(responses: map<Key, Json>)
    ensures |Payload(responses)| == |responses|
  {
    var keys := KeysInOrder(responses);
    DistinctCount(keys);
    assert (set x | x in keys) == responses.Keys;
  }

  // ---------------------------------------------------------------------------
  // Rebuild from stored answers

  /** The value the rebuild records for a stored answer: its `value` member, else its `values`
      member, else ''. */
  function RebuildValue(answer: Json): (v: Json)
    ensures !answer.JObj? ==> v == JStr("")
  {
    if HasOwn(answer, "value") then Lookup(answer.fields, "value").value
    else if HasOwn(answer, "values") then Lookup(answer.fields, "values").value
    else JStr("")
  }

  /** `responseMap[item.question_id]`: an absent `question_id` becomes the key "undefined". */
  function KeyOf(item: StoredItem): Key {
    if item.questionId.Some? then Id(item.questionId.value) else UndefinedKey
  }

  /** The record the `existing.forEach` loop builds, the later item winning on a repeated key. */
  function Rebuilt(items: seq<StoredItem>): map<Key, Json> {
    if |items| == 0 then map[]
    else
      var last := items[|items| - 1];
      Rebuilt(items[..|items| - 1])[KeyOf(last) := RebuildValue(last.answer)]
  }

  /** The rebuilt record has exactly the keys of the items. */
  lemma {:induction false} RebuiltKeys(items: seq<StoredItem>)
    ensures forall k :: k in Rebuilt(items) <==> exists i :: 0 <= i < |items| && KeyOf(items[i]) == k
  {
    if |items| > 0 {
      var n := |items| - 1;
      var init := items[..n];
      RebuiltKeys(init);
      forall k
        ensures k in Rebuilt(items) <==> exists i :: 0 <= i < |items| && KeyOf(items[i]) == k
      {
        if k == KeyOf(items[n]) {
          assert k in Rebuilt(items);
        } else if k in Rebuilt(items) {
          assert k in Rebuilt(init);
          var i :| 0 <= i < |init| && KeyOf(init[i]) == k;
          assert KeyOf(items[i]) == k;
        }
      }
    }
  }

  /** The key `k` is last written by item `i`. */
  predicate LastWriter(items: seq<StoredItem>, k: Key, i: int) {
    0 <= i < |items| && KeyOf(items[i]) == k && forall j :: i < j < |items| ==> KeyOf(items[j]) != k
  }

  /** Each key of the rebuilt record holds the value rebuilt from the last item with that key
      (and by RebuiltKeys the record has exactly the items' keys). */
  lemma {:induction false} RebuiltLastWins(items: seq<StoredItem>, k: Key)
    requires k in Rebuilt(items)
    ensures exists i :: LastWriter(items, k, i) && Rebuilt(items)[k] == RebuildValue(items[i].answer)
  {
    var n := |items| - 1;
    var init := items[..n];
    if k == KeyOf(items[n]) {
      assert LastWriter(items, k, n);
    } else {
      RebuiltLastWins(init, k);
      var i :| LastWriter(init, k, i) && Rebuilt(init)[k] == RebuildValue(init[i].answer);
      assert items[i] == init[i];
      assert LastWriter(items, k, i);
    }
  }

  /** A stored `{value: v}` or `{values: v}` object is rebuilt to `v`. */
  lemma {:induction false} WrappedAnswerRebuilt(v: Json)
    ensures RebuildValue(Singleton("value", v)) == v
    ensures RebuildValue(Singleton("values", v)) == v
  {
  }

  // ---------------------------------------------------------------------------
  // Checkbox toggle

  /** `currentValues`: the recorded answer if it is an array, else []. */
  function CurrentValues(responses: map<Key, Json>, id: nat): (r: seq<Json>)
    ensures Id(id) in responses && responses[Id(id)].JArr? ==> r == responses[Id(id)].elems
  {
    if Id(id) in responses && responses[Id(id)].JArr? then responses[Id(id)].elems else []
  }

  /** The new list the checkbox's change handler records. */
  function Toggled(current: seq<Json>, option: string, checked: bool): seq<Json> {
    if checked then current + [JStr(option)] else Without(current, JStr(option))
  }

  /** Unchecking removes every occurrence of the option and keeps every other element, with
      its multiplicity; checking appends the option once. */
  lemma {:induction false} ToggleEffect(current: seq<Json>, option: string)
    ensures JStr(option) !in Toggled(current, option, false)
    ensures forall v :: v != JStr(option) ==>
              multiset(Toggled(current, option, false))[v] == multiset(current)[v]
    ensures multiset(Toggled(current, option, true)) == multiset(current) + multiset{JStr(option)}
  {
    assert multiset(Toggled(current, option, false))[JStr(option)] == 0;
  }

  /** Checking an option that is not selected and then unchecking it restores the list. */
  lemma {:induction false} CheckThenUncheck(current: seq<Json>, option: string)
    requires JStr(option) !in current
    ensures Toggled(Toggled(current, option, true), option, false) == current
  {
    var s := current + [JStr(option)];
    assert s[..|s| - 1] == current;
    WithoutAbsent(current, JStr(option));
  }

  /** After checking any option a required checkbox question is answered. */
  lemma {:induction false} CheckingAnswers(q: FormQuestion, responses: map<Key, Json>, option: string)
    requires q.qtype == CHECKBOX
    ensures !Flagged(q, responses[Id(q.id) := JArr(Toggled(CurrentValues(responses, q.id), option, true))])
  {
  }

  // ---------------------------------------------------------------------------
  // The page

  class ResponsePage {
    /** `searchParams.get('readonly') === 'true'`, fixed when the page is opened. */
    const readonly: bool
    var assignment: Option<Assignment>
    var questions: seq<FormQuestion>
    var responses: map<Key, Json>

    /** Opens the page; `readonlyParam` is the URL's `readonly` query parameter. */
    constructor (readonlyParam: Option<string>)
      ensures readonly <==> readonlyParam == Some("true")
      ensures assignment == None && questions == [] && responses == map[]
    {
      readonly := readonlyParam == Some("true");
      assignment := None;
      questions := [];
      responses := map[];
    }

    /** `fetchSurveyDetails` after its requests have answered: the assignment and questions are
        recorded, and for a completed assignment the answers are rebuilt from the stored ones. */
    method Load(a: Assignment, qs: seq<FormQuestion>, stored: seq<StoredItem>)
      modifies this
      ensures assignment == Some(a) && questions == qs
      ensures responses == if a.isCompleted then Rebuilt(stored) else old(responses)
    {
      assignment := Some(a);
      questions := qs;
      if a.isCompleted {
        var responseMap: map<Key, Json> := map[];
        var i := 0;
        while i < |stored|
          invariant 0 <= i <= |stored|
          invariant responseMap == Rebuilt(stored[..i])
        {
          assert stored[..i + 1][..i] == stored[..i];
          responseMap := responseMap[KeyOf(stored[i]) := RebuildValue(stored[i].answer)];
          i := i + 1;
        }
        assert stored[..|stored|] == stored;
        responses := responseMap;
      }
    }

    /** `handleResponseChange`: nothing happens on a read-only page; otherwise only the answer of
        `questionId` is replaced. Whether the assignment is completed plays no part. */
    method HandleResponseChange(questionId: nat, value: Json)
      modifies this
      ensures assignment == old(assignment) && questions == old(questions)
      ensures readonly ==> responses == old(responses)
      ensures !readonly ==> responses == old(responses)[Id(questionId) := value]
    {
      if readonly {
        return;
      }
      responses := responses[Id(questionId) := value];
    }

    /** The change handler of the checkbox for `option` of question `q`. */
    method ToggleOption(q: FormQuestion, option: string, checked: bool)
      modifies this
      ensures assignment == old(assignment) && questions == old(questions)
      ensures readonly ==> responses == old(responses)
      ensures !readonly ==> responses == old(responses)[Id(q.id) :=
                JArr(Toggled(CurrentValues(old(responses), q.id), option, checked))]
    {
      var newValues := Toggled(CurrentValues(responses, q.id), option, checked);
      HandleResponseChange(q.id, JArr(newValues));
    }

    /** `handleSubmit`: no request on a read-only page, without an assignment, or while any
        question is flagged; otherwise the submit request carrying the payload. */
    method HandleSubmit() returns (request: Option<SubmitRequest>)
      ensures request.None? <==> readonly || assignment.None? || |Unanswered(questions, responses)| > 0
      ensures request.Some? ==> request.value == SubmitRequest(assignment.value.surveyId,
                                    assignment.value.id, Payload(responses))
    {
      if readonly || assignment.None? {
        return None;
      }
      var unanswered := Unanswered(questions, responses);
      if |unanswered| > 0 {
        return None;
      }
      request := Some(SubmitRequest(assignment.value.surveyId, assignment.value.id, Payload(responses)));
    }
  }

  /** A submit request goes out exactly when no question is flagged on an editable page with
      an assignment: every required question then has an answer. */
  lemma {:induction false} SubmittedMeansAnswered(qs: seq<FormQuestion>, responses: map<Key, Json>, q: FormQuestion)
    requires |Unanswered(qs, responses)| == 0
    requires q in qs && q.isRequired
    ensures Id(q.id) in responses
    ensures q.qtype == CHECKBOX ==> responses[Id(q.id)].JArr? && |responses[Id(q.id)].elems| > 0
    ensures q.qtype != CHECKBOX ==> responses[Id(q.id)] != JNull && responses[Id(q.id)] != JStr("")
  {
  }
}
