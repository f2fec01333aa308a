/** The HR survey builder page (src/pages/hr/SurveyBuilder.tsx): the ordered question list that
    is edited step by step, the checks made before saving, and the requests a save issues. */
module SurveyBuilder {
  import opened Basics
  import opened Domain

  /** A question as the builder holds it. `id` is present once the question is persisted;
      `tempId` is the timestamp text given to questions created on the page. */
  datatype Question = Question(
    id: Option<int>,
    text: string,
    qtype: QuestionType,
    options: Option<seq<string>>,
    isRequired: bool,
    order: int,
    factor: Option<int>,
    tempId: Option<string>)

  /** One `updateQuestion(index, field, value)` call: each field name the page passes, with
      the kind of value it passes for it. */
  datatype FieldUpdate =
    | SetText(text: string)
    | SetType(qtype: QuestionType)
    | SetRequired(isRequired: bool)
    | SetFactor(factor: Option<int>)

  // ---------------------------------------------------------------------------
  // Invariants of the question list

  /** Every question's `order` is its position, so the orders are exactly 0..n-1. */
  ghost predicate OrdersArePositions(qs: seq<Question>) {
    forall i :: 0 <= i < |qs| ==> qs[i].order == i
  }

  /** The option list is null exactly when the type has no choices. */
  predicate OptionsFitType(q: Question) {
    q.options.None? <==> !HasChoices(q.qtype)
  }

  ghost predicate WellFormed(qs: seq<Question>) {
    OrdersArePositions(qs) && forall i :: 0 <= i < |qs| ==> OptionsFitType(qs[i])
  }

  /** A question with its position information erased, to compare lists up to renumbering. */
  function Content(q: Question): Question {
    q.(order := 0)
  }

  function Contents(qs: seq<Question>): (r: seq<Question>)
    ensures |r| == |qs|
  {
    seq(|qs|, i requires 0 <= i < |qs| => Content(qs[i]))
  }

  // ---------------------------------------------------------------------------
  // The value each handler computes

  /** The question `addQuestion` appends to a list of `n` questions at clock time `now` (ms). */
  function NewQuestion(n: nat, now: int): Question {
    Question(None, "", TEXT, None, true, n, None, Some(IntToDecimal(now)))
  }

  /** `{...q, [field]: value}` followed by the two option fix-ups for a type change. */
  function Updated(q: Question, u: FieldUpdate): Question {
    match u
    case SetText(t) => q.(text := t)
    case SetRequired(b) => q.(isRequired := b)
    case SetFactor(f) => q.(factor := f)
    case SetType(t) =>
      if !HasChoices(t) then q.(qtype := t, options := None)
      else if q.options.None? then q.(qtype := t, options := Some([""]))
      else q.(qtype := t)
  }

  /** `addOption`: a null option list counts as empty. */
  function WithOptionAdded(q: Question): Question {
    var current := if q.options.Some? then q.options.value else [];
    q.(options := Some(current + [""]))
  }

  /** `updateOption`: nothing happens when the option list is null. */
  function WithOptionSet(q: Question, k: nat, value: string): Question
    requires q.options.Some? ==> k < |q.options.value|
  {
    if q.options.None? then q else q.(options := Some(q.options.value[k := value]))
  }

  /** `removeOption`: nothing happens when the option list is null. */
  function WithOptionRemoved(q: Question, k: nat): Question {
    if q.options.None? then q else q.(options := Some(RemovedAt(q.options.value, k)))
  }

  /** `s.filter((_, i) => i !== k)`. */
  function RemovedAt<T>(s: seq<T>, k: nat): (r: seq<T>)
    ensures k < |s| ==> |r| == |s| - 1
    ensures k < |s| ==> forall i :: 0 <= i < |r| ==> r[i] == if i < k then s[i] else s[i + 1]
    ensures k >= |s| ==> r == s
  {
    if k < |s| then s[..k] + s[k + 1..] else s
  }

  /** Every question's `order` set to its position, as the two `forEach` loops do. */
  function Renumbered(qs: seq<Question>): seq<Question> {
    seq(|qs|, i requires 0 <= i < |qs| => qs[i].(order := i))
  }

  /** The list `removeQuestion(index)` installs. */
  function AfterRemove(qs: seq<Question>, index: nat): seq<Question> {
    Renumbered(RemovedAt(qs, index))
  }

  /** `splice(drag, 1)` followed by `splice(hover, 0, dragged)`. */
  function Spliced<T>(s: seq<T>, drag: nat, hover: nat): seq<T>
    requires drag < |s| && hover < |s|
  {
    var rest := RemovedAt(s, drag);
    rest[..hover] + [s[drag]] + rest[hover..]
  }

  /** The list `moveQuestion(drag, hover)` installs. */
  function AfterMove(qs: seq<Question>, drag: nat, hover: nat): seq<Question>
    requires drag < |qs| && hover < |qs|
  {
    Renumbered(Spliced(qs, drag, hover))
  }

  /** The renumbering loop, written as the page writes it: one question at a time. */
  method RenumberOrders(qs: seq<Question>) returns (r: seq<Question>)
    ensures r == Renumbered(qs)
  {
    r := qs;
    var i := 0;
    while i < |r|
      invariant |r| == |qs| && 0 <= i <= |r|
      invariant forall j :: 0 <= j < i ==> r[j] == qs[j].(order := j)
      invariant forall j :: i <= j < |r| ==> r[j] == qs[j]
    {
      r := r[i := r[i].(order := i)];
      i := i + 1;
    }
  }

  /** The page's `questions` state and its handlers. Each handler replaces the list, as
      `setQuestions` does. */
  class BuilderPage {
    var questions: seq<Question>

    constructor ()
      ensures questions == []
    {
      questions := [];
    }

    method AddQuestion(now: int)
      modifies this
      ensures questions == old(questions) + [NewQuestion(|old(questions)|, now)]
    {
      questions := questions + [NewQuestion(|questions|, now)];
    }

    method UpdateQuestion(index: nat, u: FieldUpdate)
      requires index < |questions|
      modifies this
      ensures questions == old(questions)[index := Updated(old(questions)[index], u)]
    {
      var q := questions[index];
      match u {
        case SetText(t) => q := q.(text := t);
        case SetRequired(b) => q := q.(isRequired := b);
        case SetFactor(f) => q := q.(factor := f);
        case SetType(t) =>
          q := q.(qtype := t);
          if !HasChoices(t) {
            q := q.(options := None);
          }
          if HasChoices(t) && q.options.None? {
            q := q.(options := Some([""]));
          }
      }
      questions := questions[index := q];
    }

    method AddOption(qi: nat)
      requires qi < |questions|
      modifies this
      ensures questions == old(questions)[qi := WithOptionAdded(old(questions)[qi])]
    {
      var current := if questions[qi].options.Some? then questions[qi].options.value else [];
      questions := questions[qi := questions[qi].(options := Some(current + [""]))];
    }

    method UpdateOption(qi: nat, k: nat, value: string)
      requires qi < |questions|
      requires questions[qi].options.Some? ==> k < |questions[qi].options.value|
      modifies this
      ensures questions == old(questions)[qi := WithOptionSet(old(questions)[qi], k, value)]
    {
      if questions[qi].options.Some? {
        var opts := questions[qi].options.value;
        questions := questions[qi := questions[qi].(options := Some(opts[k := value]))];
      }
    }

    method RemoveOption(qi: nat, k: nat)
      requires qi < |questions|
      modifies this
      ensures questions == old(questions)[qi := WithOptionRemoved(old(questions)[qi], k)]
    {
      if questions[qi].options.Some? {
        var opts := RemovedAt(questions[qi].options.value, k);
        questions := questions[qi := questions[qi].(options := Some(opts))];
      }
    }

    method RemoveQuestion(index: nat)
      modifies this
      ensures questions == AfterRemove(old(questions), index)
    {
      var updated := RemovedAt(questions, index);
      updated := RenumberOrders(updated);
      questions := updated;
    }

    method MoveQuestion(drag: nat, hover: nat)
      requires drag < |questions| && hover < |questions|
      modifies this
      ensures questions == AfterMove(old(questions), drag, hover)
    {
      var dragged := questions[drag];
      var updated := RemovedAt(questions, drag);
      updated := updated[..hover] + [dragged] + updated[hover..];
      updated := RenumberOrders(updated);
      questions := updated;
    }
  }

  // ---------------------------------------------------------------------------
  // Properties of the handlers

  /** Adding a question keeps both invariants. */
  lemma {:induction false} AddQuestionKeepsWellFormed(qs: seq<Question>, now: int)
    requires WellFormed(qs)
    ensures WellFormed(qs + [NewQuestion(|qs|, now)])
    ensures Contents(qs + [NewQuestion(|qs|, now)])[..|qs|] == Contents(qs)
  {
  }

  /** Any field update keeps both invariants, and touches only the question at `index`. */
  lemma {:induction false} UpdateKeepsWellFormed(qs: seq<Question>, index: nat, u: FieldUpdate)
    requires WellFormed(qs) && index < |qs|
    ensures WellFormed(qs[index := Updated(qs[index], u)])
    ensures Updated(qs[index], u).order == qs[index].order
  {
  }

  /** Changing the type: leaving the choice types clears the options, entering them from a
      null list starts with one blank option, and moving between choice types keeps them. */
  lemma {:induction false} TypeChangeOptions(q: Question, t: QuestionType)
    ensures !HasChoices(t) ==> Updated(q, SetType(t)).options.None?
    ensures HasChoices(t) && q.options.None? ==> Updated(q, SetType(t)).options == Some([""])
    ensures HasChoices(t) && q.options.Some? ==> Updated(q, SetType(t)).options == q.options
    ensures Updated(q, SetType(t)).qtype == t
  {
  }

  /** RADIO with options ["A", "B"], changed to TEXT and back to RADIO, ends with [""]:
      the options are reset, not restored. */
  lemma {:induction false} RadioTextRadioResetsOptions(q: Question)
    requires q.qtype == RADIO && q.options == Some(["A", "B"])
    ensures Updated(Updated(q, SetType(TEXT)), SetType(RADIO)).options == Some([""])
    ensures Updated(q, SetType(CHECKBOX)).options == Some(["A", "B"])
  {
  }

  /** The option handlers keep both invariants (adding an option only where the type has
      choices, the only place the page offers it) and never touch order. */
  lemma {:induction false} OptionEditsKeepWellFormed(qs: seq<Question>, qi: nat, k: nat, value: string)
    requires WellFormed(qs) && qi < |qs|
    requires qs[qi].options.Some? ==> k < |qs[qi].options.value|
    ensures HasChoices(qs[qi].qtype) ==> WellFormed(qs[qi := WithOptionAdded(qs[qi])])
    ensures WellFormed(qs[qi := WithOptionSet(qs[qi], k, value)])
    ensures WellFormed(qs[qi := WithOptionRemoved(qs[qi], k)])
    ensures qs[qi].options.None? ==> WithOptionSet(qs[qi], k, value) == qs[qi]
    ensures qs[qi].options.None? ==> WithOptionRemoved(qs[qi], k) == qs[qi]
    ensures qs[qi].options.Some? ==>
      WithOptionAdded(qs[qi]).options == Some(qs[qi].options.value + [""])
  {
  }

  /** Renumbering sets every order to its position and changes nothing else. */
  lemma {:induction false} RenumberedFacts(qs: seq<Question>)
    ensures |Renumbered(qs)| == |qs|
    ensures OrdersArePositions(Renumbered(qs))
    ensures Contents(Renumbered(qs)) == Contents(qs)
  {
  }

  /** `removeQuestion` drops exactly the question at `index`, keeps the others in their
      relative order, and renumbers them 0..n-2. */
  lemma {:induction false} RemoveQuestionFacts(qs: seq<Question>, index: nat)
    requires index < |qs|
    ensures |AfterRemove(qs, index)| == |qs| - 1
    ensures OrdersArePositions(AfterRemove(qs, index))
    ensures forall i :: 0 <= i < |qs| - 1 ==>
      Content(AfterRemove(qs, index)[i]) == Content(if i < index then qs[i] else qs[i + 1])
    ensures WellFormed(qs) ==> WellFormed(AfterRemove(qs, index))
  {
    RenumberedFacts(RemovedAt(qs, index));
  }

  /** Where each element of a spliced list comes from. */
  lemma {:induction false} SplicedAt<T>(s: seq<T>, drag: nat, hover: nat, i: nat)
    requires drag < |s| && hover < |s| && i < |s|
    ensures |Spliced(s, drag, hover)| == |s|
    ensures Spliced(s, drag, hover)[i] ==
      if i == hover then s[drag]
      else
        var j := if i < hover then i else i - 1;
        if j < drag then s[j] else s[j + 1]
  {
  }

  lemma {:induction false} SplicePermutes<T>(s: seq<T>, drag: nat, hover: nat)
    requires drag < |s| && hover < |s|
    ensures multiset(Spliced(s, drag, hover)) == multiset(s)
  {
    var rest := RemovedAt(s, drag);
    assert s == s[..drag] + [s[drag]] + s[drag + 1..];
    assert rest == s[..drag] + s[drag + 1..];
    assert multiset(rest) + multiset{s[drag]} == multiset(s);
    assert rest == rest[..hover] + rest[hover..];
  }

  lemma {:induction false} ContentsConcat(a: seq<Question>, b: seq<Question>)
    ensures Contents(a + b) == Contents(a) + Contents(b)
  {
  }

  lemma {:induction false} ContentsSlice(s: seq<Question>, i: nat, j: nat)
    requires i <= j <= |s|
    ensures Contents(s[i..j]) == Contents(s)[i..j]
  {
  }

  /** Erasing orders commutes with the splice. */
  lemma {:induction false} ContentsSpliced(qs: seq<Question>, drag: nat, hover: nat)
    requires drag < |qs| && hover < |qs|
    ensures Contents(Spliced(qs, drag, hover)) == Spliced(Contents(qs), drag, hover)
  {
    var rest := RemovedAt(qs, drag);
    assert rest == qs[..drag] + qs[drag + 1..];
    ContentsConcat(qs[..drag], qs[drag + 1..]);
    ContentsSlice(qs, 0, drag);
    ContentsSlice(qs, drag + 1, |qs|);
    assert qs[..drag] == qs[0..drag] && qs[drag + 1..] == qs[drag + 1..|qs|];
    assert Contents(rest) == RemovedAt(Contents(qs), drag);
    ContentsConcat(rest[..hover] + [qs[drag]], rest[hover..]);
    ContentsConcat(rest[..hover], [qs[drag]]);
    ContentsSlice(rest, 0, hover);
    ContentsSlice(rest, hover, |rest|);
    assert rest[..hover] == rest[0..hover] && rest[hover..] == rest[hover..|rest|];
  }

  /** `moveQuestion` puts the dragged question at `hover`, yields a permutation of the list
      (up to orders), and renumbers it 0..n-1. */
  lemma {:induction false} MoveQuestionFacts(qs: seq<Question>, drag: nat, hover: nat)
    requires drag < |qs| && hover < |qs|
    ensures |AfterMove(qs, drag, hover)| == |qs|
    ensures AfterMove(qs, drag, hover)[hover] == qs[drag].(order := hover)
    ensures OrdersArePositions(AfterMove(qs, drag, hover))
    ensures multiset(Contents(AfterMove(qs, drag, hover))) == multiset(Contents(qs))
    ensures WellFormed(qs) ==> WellFormed(AfterMove(qs, drag, hover))
  {
    var s := Spliced(qs, drag, hover);
    SplicedAt(qs, drag, hover, hover);
    RenumberedFacts(s);
    ContentsSpliced(qs, drag, hover);
    SplicePermutes(Contents(qs), drag, hover);
    if WellFormed(qs) {
      forall i | 0 <= i < |s| ensures OptionsFitType(Renumbered(s)[i]) {
        SplicedAt(qs, drag, hover, i);
      }
    }
  }

  // ---------------------------------------------------------------------------
  // Saving

  /** The four toasts that stop `saveSurvey` before any request. */
  datatype SaveError = TitleOrCategoryMissing | NoQuestions | QuestionTextMissing | OptionTextMissing

  /** `!s.trim()`. */
  predicate IsBlank(s: string) {
    JsTrim(s) == ""
  }

  predicate HasBlankOption(q: Question) {
    q.options.Some? && exists k :: 0 <= k < |q.options.value| && IsBlank(q.options.value[k])
  }

  /** The checks of `saveSurvey`, in the order it makes them. The title is checked as it is,
      the question texts and options after trimming. */
  function ValidateSurvey(title: string, category: string, qs: seq<Question>): Option<SaveError> {
    if title == "" || category == "" then Some(TitleOrCategoryMissing)
    else if |qs| == 0 then Some(NoQuestions)
    else if exists i :: 0 <= i < |qs| && IsBlank(qs[i].text) then Some(QuestionTextMissing)
    else if exists i :: 0 <= i < |qs| && HasBlankOption(qs[i]) then Some(OptionTextMissing)
    else None
  }

  /** The survey form fields the page sends. */
  datatype SurveyForm = SurveyForm(
    id: Option<int>, title: string, description: string, category: string, isActive: bool)

  /** `questionData` as sent for each question. */
  datatype QuestionData = QuestionData(
    survey: int, text: string, qtype: QuestionType, options: Option<seq<string>>,
    isRequired: bool, order: int, factor: Option<int>)

  datatype Request =
    | PutSurvey(surveyId: int, form: SurveyForm)
    | PostSurvey(form: SurveyForm)
    | GetQuestions(ofSurvey: int)
    | DeleteQuestion(questionId: int)
    | PutQuestion(questionId: int, data: QuestionData)
    | PostQuestion(data: QuestionData)

  /** `Sent`: the requests issued, in order; `completed` is whether all of them succeeded (the
      success toast and the return to the list) rather than the last one being rejected (the
      error toast). */
  datatype SaveOutcome = Rejected(error: SaveError) | Sent(requests: seq<Request>, completed: bool)

  /** `q.id` is truthy: present and not 0. */
  predicate HasId(q: Question) {
    q.id.Some? && q.id.value != 0
  }

  /** `questions.filter(q => q.id).map(q => q.id)`. */
  function CurrentIds(qs: seq<Question>): seq<int> {
    if |qs| == 0 then []
    else
      var rest := CurrentIds(qs[..|qs| - 1]);
      var q := qs[|qs| - 1];
      if HasId(q) then rest + [q.id.value] else rest
  }

  /** `existingIds.filter(id => !currentIds.includes(id))`. */
  function StaleIds(existing: seq<int>, current: seq<int>): seq<int> {
    if |existing| == 0 then []
    else
      var rest := StaleIds(existing[..|existing| - 1], current);
      var x := existing[|existing| - 1];
      if x in current then rest else rest + [x]
  }

  function DataOf(q: Question, surveyId: int): QuestionData {
    QuestionData(surveyId, q.text, q.qtype, q.options, q.isRequired, q.order, q.factor)
  }

  function QuestionRequest(q: Question, surveyId: int): Request {
    if HasId(q) then PutQuestion(q.id.value, DataOf(q, surveyId)) else PostQuestion(DataOf(q, surveyId))
  }

  /** `saveSurvey`. `isEditMode` is whether the page URL carries an id; `savedId` is the id in
      the server's reply to the survey request, and `existingIds` the ids in its reply to the
      question listing. Each request is awaited before the next one is made, so the first one
      the server rejects ends the save: `failAt` is the position of that request in the order
      below, None when the server accepts them all. */
  method SaveSurvey(isEditMode: bool, form: SurveyForm, qs: seq<Question>, savedId: int,
                    existingIds: seq<int>, failAt: Option<nat>) returns (outcome: SaveOutcome)
    ensures outcome.Rejected? <==> ValidateSurvey(form.title, form.category, qs).Some?
    ensures outcome.Rejected? ==> Some(outcome.error) == ValidateSurvey(form.title, form.category, qs)
    ensures outcome.Sent? ==>
      var head := if isEditMode && form.id.Some? && form.id.value != 0
                  then PutSurvey(form.id.value, form) else PostSurvey(form);
      var stale := StaleIds(existingIds, CurrentIds(qs));
      var n := if isEditMode then 2 + |stale| else 1;
      var rejected := failAt.Some? && failAt.value < n + |qs|;
      var reqs := outcome.requests;
      && (outcome.completed <==> !rejected)
      && |reqs| == (if rejected then failAt.value + 1 else n + |qs|)
      && reqs[0] == head
      && (isEditMode && 1 < |reqs| ==> reqs[1] == GetQuestions(savedId))
      && (forall k :: 0 <= k < |stale| && isEditMode && 2 + k < |reqs| ==> reqs[2 + k] == DeleteQuestion(stale[k]))
      && (forall i :: 0 <= i < |qs| && n + i < |reqs| ==> reqs[n + i] == QuestionRequest(qs[i], savedId))
  {
    var error := ValidateSurvey(form.title, form.category, qs);
    if error.Some? {
      return Rejected(error.value);
    }
    var planned := PlanRequests(isEditMode, form, qs, savedId, existingIds);
    var issued, completed := StopAtRejection(planned, failAt);
    outcome := Sent(issued, completed);
  }

  /** Every request of a save that the server accepts throughout, in the order they are made. */
  method PlanRequests(isEditMode: bool, form: SurveyForm, qs: seq<Question>, savedId: int,
                      existingIds: seq<int>) returns (requests: seq<Request>)
    ensures
      var stale := StaleIds(existingIds, CurrentIds(qs));
      var n := if isEditMode then 2 + |stale| else 1;
      && |requests| == n + |qs|
      && requests[0] == (if isEditMode && form.id.Some? && form.id.value != 0
                         then PutSurvey(form.id.value, form) else PostSurvey(form))
      && (isEditMode ==> requests[1] == GetQuestions(savedId))
      && (forall k :: 0 <= k < |stale| && isEditMode ==> requests[2 + k] == DeleteQuestion(stale[k]))
      && (forall i :: 0 <= i < |qs| ==> requests[n + i] == QuestionRequest(qs[i], savedId))
  {
    if isEditMode && form.id.Some? && form.id.value != 0 {
      requests := [PutSurvey(form.id.value, form)];
    } else {
      requests := [PostSurvey(form)];
    }
    if isEditMode {
      requests := requests + [GetQuestions(savedId)];
      requests := AppendDeletes(requests, StaleIds(existingIds, CurrentIds(qs)));
    }
    requests := AppendQuestionRequests(requests, qs, savedId);
  }

  /** Awaiting the planned requests one by one: a rejection at `failAt` ends the save there,
      with that request the last one made. */
  method StopAtRejection(planned: seq<Request>, failAt: Option<nat>) returns (issued: seq<Request>, completed: bool)
    ensures completed <==> !(failAt.Some? && failAt.value < |planned|)
    ensures |issued| == if completed then |planned| else failAt.value + 1
    ensures forall i :: 0 <= i < |issued| ==> issued[i] == planned[i]
  {
    if failAt.Some? && failAt.value < |planned| {
      issued, completed := planned[..failAt.value + 1], false;
    } else {
      issued, completed := planned, true;
    }
  }

  /** The loop issuing one delete per stale id, after the requests already made. */
  method AppendDeletes(prefix: seq<Request>, ids: seq<int>) returns (requests: seq<Request>)
    ensures |requests| == |prefix| + |ids| && requests[..|prefix|] == prefix
    ensures forall j :: 0 <= j < |ids| ==> requests[|prefix| + j] == DeleteQuestion(ids[j])
  {
    requests := prefix;
    for k := 0 to |ids|
      invariant |requests| == |prefix| + k && requests[..|prefix|] == prefix
      invariant forall j :: 0 <= j < k ==> requests[|prefix| + j] == DeleteQuestion(ids[j])
    {
      requests := requests + [DeleteQuestion(ids[k])];
    }
  }

  /** The loop issuing a PUT for each question with an id and a POST for each new one, in
      the page's order, after the requests already made. */
  method AppendQuestionRequests(prefix: seq<Request>, qs: seq<Question>, savedId: int) returns (requests: seq<Request>)
    ensures |requests| == |prefix| + |qs| && requests[..|prefix|] == prefix
    ensures forall j :: 0 <= j < |qs| ==> requests[|prefix| + j] == QuestionRequest(qs[j], savedId)
  {
    requests := prefix;
    for i := 0 to |qs|
      invariant |requests| == |prefix| + i && requests[..|prefix|] == prefix
      invariant forall j :: 0 <= j < i ==> requests[|prefix| + j] == QuestionRequest(qs[j], savedId)
    {
      var q := qs[i];
      var data := QuestionData(savedId, q.text, q.qtype, q.options, q.isRequired, q.order, q.factor);
      if q.id.Some? && q.id.value != 0 {
        requests := requests + [PutQuestion(q.id.value, data)];
      } else {
        requests := requests + [PostQuestion(data)];
      }
    }
  }

  /** The stale ids are exactly the server's ids absent from the page's ids (a set difference),
      kept in the server's order. */
  lemma {:induction false} StaleIdsIsDifference(existing: seq<int>, current: seq<int>)
    ensures forall x :: x in StaleIds(existing, current) <==> x in existing && x !in current
    ensures |StaleIds(existing, current)| <= |existing|
  {
    if |existing| > 0 {
      var init := existing[..|existing| - 1];
      StaleIdsIsDifference(init, current);
      assert existing == init + [existing[|existing| - 1]];
    }
  }

  /** The page's ids are the ids of the questions that have one. */
  lemma {:induction false} CurrentIdsAreIds(qs: seq<Question>)
    ensures forall x :: x in CurrentIds(qs) <==> exists i :: 0 <= i < |qs| && HasId(qs[i]) && qs[i].id.value == x
  {
    if |qs| > 0 {
      var init := qs[..|qs| - 1];
      CurrentIdsAreIds(init);
      forall x | x in CurrentIds(qs) ensures exists i :: 0 <= i < |qs| && HasId(qs[i]) && qs[i].id.value == x {
        if x in CurrentIds(init) {
          var i :| 0 <= i < |init| && HasId(init[i]) && init[i].id.value == x;
          assert qs[i] == init[i];
        }
      }
      forall x | exists i :: 0 <= i < |qs| && HasId(qs[i]) && qs[i].id.value == x ensures x in CurrentIds(qs) {
        var i :| 0 <= i < |qs| && HasId(qs[i]) && qs[i].id.value == x;
        if i < |init| {
          assert init[i] == qs[i];
        }
      }
    }
  }

  /** The title is not trimmed but question texts are: a blank title passes the first check
      while the same blank text on a question is refused. */
  lemma {:induction false} TitleIsNotTrimmed(qs: seq<Question>)
    requires |qs| == 1 && !HasBlankOption(qs[0])
    ensures ValidateSurvey(" ", "RENEWAL", [qs[0].(text := "Why?")]) == None
    ensures ValidateSurvey("Exit", "RENEWAL", [qs[0].(text := " ")]) == Some(QuestionTextMissing)
  {
    assert IsBlank([qs[0].(text := " ")][0].text);
    assert !IsBlank("Why?") by {
      assert !IsJsSpace('W');
    }
  }
}
