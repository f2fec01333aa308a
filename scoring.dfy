/** The survey models of the backend (backend/surveys/models.py): factors and their weights,
    the scoring fields of a question, the rows of assignments and responses with their
    uniqueness constraints, and `SurveyResponse.calculate_score`. */
module SurveyModels {
  import opened Basics
  import opened JsonValues
  import opened Domain

  // ---------------------------------------------------------------------------
  // Factors

  datatype FactorType = TURNOVER | NON_TURNOVER

  datatype Factor = Factor(id: int, name: string, ftype: FactorType, weight: real)

  /** The default and the validator bounds of `Factor.weight`. */
  const DefaultWeight: real := 1.0
  const MinWeight: real := 0.1
  const MaxWeight: real := 10.0

  predicate ValidWeight(w: real) {
    MinWeight <= w <= MaxWeight
  }

  /** A factor created with the defaults: type NON_TURNOVER and weight 1.0. */
  function NewFactor(id: int, name: string): (f: Factor)
    ensures f.ftype == NON_TURNOVER && f.weight == 1.0 && ValidWeight(f.weight)
  {
    Factor(id, name, NON_TURNOVER, DefaultWeight)
  }

  // ---------------------------------------------------------------------------
  // Rows

  /** The fields of a question that scoring reads. The scoring guide maps answer texts to
      points; None is a null guide. */
  datatype ScoringQuestion = ScoringQuestion(qtype: QuestionType, hasScoring: bool, scoringPoints: real,
                                             guide: Option<map<string, real>>, factor: Option<Factor>)

  datatype QuestionRow = QuestionRow(id: int, surveyId: int, q: ScoringQuestion)

  /** A survey assignment, with the user and department of its employee joined in. */
  datatype AssignmentRow = AssignmentRow(id: int, surveyId: int, employeeId: int, employeeUser: int,
                                         department: Option<int>, isCompleted: bool,
                                         completedAt: Option<real>, totalScore: Option<real>)

  datatype ResponseRow = ResponseRow(assignmentId: int, questionId: int, answer: Json, score: Option<real>)

  /** `unique_together = ['survey', 'employee']` (and unique primary keys). */
  predicate UniqueAssignments(rows: seq<AssignmentRow>) {
    forall i, j :: 0 <= i < j < |rows| ==>
      rows[i].id != rows[j].id && (rows[i].surveyId, rows[i].employeeId) != (rows[j].surveyId, rows[j].employeeId)
  }

  /** `unique_together = ['assignment', 'question']`. */
  predicate UniqueResponses(rows: seq<ResponseRow>) {
    forall i, j :: 0 <= i < j < |rows| ==>
      (rows[i].assignmentId, rows[i].questionId) != (rows[j].assignmentId, rows[j].questionId)
  }

  // ---------------------------------------------------------------------------
  // Python's reading of a JSON answer

  /** `d.get(key, default)` on a decoded JSON object. */
  function GetOr(fields: seq<(string, Json)>, key: string, default: Json): (r: Json)
    ensures Lookup(fields, key).Some? ==> r == Lookup(fields, key).value
    ensures Lookup(fields, key).None? ==> r == default
  {
    match Lookup(fields, key)
    case Some(v) => v
    case None => default
  }

  /** The outcome of Python's `float(v)`. */
  datatype FloatResult = FValue(r: real) | FValueError | FTypeError

  /** `float(v)` on a decoded JSON value. Strings go through `parseFloat`, which stands for
      Python's float parser (None = ValueError); booleans are 1.0 and 0.0; null, lists and
      dicts raise TypeError. */
  function PyFloat(v: Json, parseFloat: string -> Option<real>): (r: FloatResult)
    ensures v.JInt? ==> r == FValue(v.i as real)
    ensures v.JNull? || v.JArr? || v.JObj? ==> r == FTypeError
  {
    match v
    case JInt(i) => FValue(i as real)
    case JBool(b) => FValue(if b then 1.0 else 0.0)
    case JStr(s) => (match parseFloat(s) case Some(x) => FValue(x) case None => FValueError)
    case _ => FTypeError
  }

  /** The keys of a dict in iteration order: first occurrence order, each key once. */
  function DictKeys(fields: seq<(string, Json)>): (r: seq<string>)
    ensures forall k :: k in r <==> exists i :: 0 <= i < |fields| && fields[i].0 == k
  {
    if |fields| == 0 then []
    else
      var init := DictKeys(fields[..|fields| - 1]);
      var k := fields[|fields| - 1].0;
      if k in init then init else init + [k]
  }

  /** `str(value)` for each `value in selected_values`: the elements of a list, the characters
      of a string, the keys of a dict; anything else is not iterable (None). */
  function IteratedTexts(v: Json): Option<seq<string>> {
    match v
    case JArr(elems) => Some(seq(|elems|, i requires 0 <= i < |elems| => PyStr(elems[i])))
    case JStr(s) => Some(seq(|s|, i requires 0 <= i < |s| => [s[i]]))
    case JObj(fields) => Some(DictKeys(fields))
    case _ => None
  }

  // ---------------------------------------------------------------------------
  // calculate_score

  /** What `calculate_score` does: returns a score or None, or raises. */
  datatype ScoreResult = Returned(score: Option<real>) | Raised

  /** `not scoring_guide` is false: the guide is present and not empty. */
  predicate GuideTruthy(guide: Option<map<string, real>>) {
    guide.Some? && |guide.value| > 0
  }

  /** The CHECKBOX total: the guide points of the selected texts, texts without an entry
      adding nothing. */
  function SumScores(guide: map<string, real>, texts: seq<string>): real {
    if |texts| == 0 then 0.0
    else
      var last := texts[|texts| - 1];
      SumScores(guide, texts[..|texts| - 1]) + (if last in guide then guide[last] else 0.0)
  }

  /** `calculate_score` as a function of the question, the stored answer and the float parser.
      Reading `answer.get` on an answer that is not a JSON object raises AttributeError. */
  function ScoreOf(q: ScoringQuestion, answer: Json, parseFloat: string -> Option<real>): ScoreResult {
    if !q.hasScoring || !GuideTruthy(q.guide) then Returned(None)
    else if q.qtype == RADIO || q.qtype == DROPDOWN then
      if !answer.JObj? then Raised
      else
        var key := PyStr(GetOr(answer.fields, "value", JNull));
        Returned(if key in q.guide.value then Some(q.guide.value[key]) else None)
    else if q.qtype == RATING then
      if !answer.JObj? then Raised
      else
        match PyFloat(GetOr(answer.fields, "value", JNull), parseFloat)
        case FValue(r) => Returned(Some(r))
        case _ => Returned(None)
    else if q.qtype == CHECKBOX then
      if !answer.JObj? then Raised
      else
        match IteratedTexts(GetOr(answer.fields, "values", JArr([])))
        case None => Raised
        case Some(texts) => Returned(Some(SumScores(q.guide.value, texts)))
    else Returned(None)
  }

  /** `calculate_score`, with the CHECKBOX total accumulated in a loop. */
  method CalculateScore(q: ScoringQuestion, answer: Json, parseFloat: string -> Option<real>)
    returns (r: ScoreResult)
    ensures r == ScoreOf(q, answer, parseFloat)
  {
    if !q.hasScoring || !GuideTruthy(q.guide) {
      return Returned(None);
    }
    if q.qtype != CHECKBOX {
      return ScoreOf(q, answer, parseFloat);
    }
    if !answer.JObj? {
      return Raised;
    }
    var selected := IteratedTexts(GetOr(answer.fields, "values", JArr([])));
    if selected.None? {
      return Raised;
    }
    var texts := selected.value;
    var guide := q.guide.value;
    var total := 0.0;
    var i := 0;
    while i < |texts|
      invariant 0 <= i <= |texts|
      invariant total == SumScores(guide, texts[..i])
    {
      assert texts[..i + 1][..i] == texts[..i];
      if texts[i] in guide {
        total := total + guide[texts[i]];
      }
      i := i + 1;
    }
    assert texts[..|texts|] == texts;
    r := Returned(Some(total));
  }

  // ---------------------------------------------------------------------------
  // Properties of calculate_score

  /** Without scoring or with a null or empty guide there is no score, whatever the answer. */
  lemma {:induction false} NoGuideNoScore(q: ScoringQuestion, answer: Json, parseFloat: string -> Option<real>)
    requires !q.hasScoring || q.guide.None? || q.guide.value == map[]
    ensures ScoreOf(q, answer, parseFloat) == Returned(None)
  {
  }

  /** TEXT and TEXTAREA questions never get a score. */
  lemma {:induction false} FreeTextNoScore(q: ScoringQuestion, answer: Json, parseFloat: string -> Option<real>)
    requires q.qtype == TEXT || q.qtype == TEXTAREA
    ensures ScoreOf(q, answer, parseFloat) == Returned(None)
  {
  }

  /** A single-choice answer `{value: s}` scores the guide entry for `s`, or None without one;
      an integer value is looked up by its decimal text. */
  lemma {:induction false} ChoiceScore(q: ScoringQuestion, s: string, n: int, parseFloat: string -> Option<real>)
    requires q.hasScoring && GuideTruthy(q.guide) && (q.qtype == RADIO || q.qtype == DROPDOWN)
    ensures ScoreOf(q, Singleton("value", JStr(s)), parseFloat)
            == Returned(if s in q.guide.value then Some(q.guide.value[s]) else None)
    ensures ScoreOf(q, Singleton("value", JInt(n)), parseFloat)
            == Returned(if IntToDecimal(n) in q.guide.value then Some(q.guide.value[IntToDecimal(n)]) else None)
  {
  }

  /** A rating answer `{value: n}` scores n; one without a value scores None. */
  lemma {:induction false} RatingScore(q: ScoringQuestion, n: int, parseFloat: string -> Option<real>)
    requires q.hasScoring && GuideTruthy(q.guide) && q.qtype == RATING
    ensures ScoreOf(q, Singleton("value", JInt(n)), parseFloat) == Returned(Some(n as real))
    ensures ScoreOf(q, JObj([]), parseFloat) == Returned(None)
  {
  }

  /** For a scored choice, rating or checkbox question an answer that is not a JSON object
      makes `calculate_score` raise. */
  lemma {:induction false} BareAnswerRaises(q: ScoringQuestion, answer: Json, parseFloat: string -> Option<real>)
    requires q.hasScoring && GuideTruthy(q.guide) && q.qtype in {RADIO, DROPDOWN, RATING, CHECKBOX}
    requires !answer.JObj?
    ensures ScoreOf(q, answer, parseFloat) == Raised
  {
  }

  /** The checkbox total is additive over the selection. */
  lemma {:induction false} SumScoresAppend(guide: map<string, real>, a: seq<string>, b: seq<string>)
    ensures SumScores(guide, a + b) == SumScores(guide, a) + SumScores(guide, b)
    decreases |b|
  {
    if |b| > 0 {
      var b' := b[..|b| - 1];
      assert (a + b)[..|a + b| - 1] == a + b';
      assert (a + b)[|a + b| - 1] == b[|b| - 1];
      SumScoresAppend(guide, a, b');
    } else {
      assert a + b == a;
    }
  }

  /** With guide points in [0, m], the checkbox total lies in [0, m * number of selections]. */
  lemma {:induction false} SumScoresBounds(guide: map<string, real>, texts: seq<string>, m: real)
    requires 0.0 <= m
    requires forall k :: k in guide ==> 0.0 <= guide[k] <= m
    ensures 0.0 <= SumScores(guide, texts) <= m * (|texts| as real)
  {
    if |texts| > 0 {
      SumScoresBounds(guide, texts[..|texts| - 1], m);
      assert m * (|texts| as real) == m * ((|texts| - 1) as real) + m;
    }
  }

  /** A JSON list of strings. */
  function StringList(texts: seq<string>): (v: Json)
    ensures IteratedTexts(v) == Some(texts)
  {
    var elems := seq(|texts|, i requires 0 <= i < |texts| => JStr(texts[i]));
    var got := IteratedTexts(JArr(elems)).value;
    assert |got| == |texts|;
    assert forall i :: 0 <= i < |got| ==> got[i] == PyStr(elems[i]) == texts[i];
    assert got == texts;
    JArr(elems)
  }

  /** A checkbox answer `{values: [...]}` of strings scores the sum of their guide points;
      an answer without `values` scores 0. */
  lemma {:induction false} CheckboxScore(q: ScoringQuestion, selected: seq<string>, parseFloat: string -> Option<real>)
    requires q.hasScoring && GuideTruthy(q.guide) && q.qtype == CHECKBOX
    ensures ScoreOf(q, Singleton("values", StringList(selected)), parseFloat)
            == Returned(Some(SumScores(q.guide.value, selected)))
    ensures ScoreOf(q, JObj([]), parseFloat) == Returned(Some(0.0))
  {
    assert |IteratedTexts(JArr([])).value| == 0;
  }
}
