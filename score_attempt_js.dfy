/**
 * The Node server's quiz scorer (server/scoreAttempt.js): each question is
 * matched against `responses[question.id].value` by strict equality, and the
 * attempt gets a correct count, a total and a rounded percentage.
 *
 * The quiz and the responses are JSON request fields; `None` stands for an
 * absent (`undefined`) value. A thrown TypeError is an `Err`.
 */
module ScoreAttemptJs {
  import opened Wrappers
  import opened Strings
  import opened JsonModel
  import Numbers

  datatype QuestionScore = QuestionScore(questionId: Option<Json>, correct: bool, unanswered: bool)

  datatype AttemptScore = AttemptScore(perQuestion: seq<QuestionScore>, correct: nat, total: nat, percentage: int)

  /**
   * `quiz?.questions || []`, as far as `.map` accepts it: a falsy or absent
   * list is empty, an array is its items, and any other truthy value has no
   * `map` method.
   */
  function QuestionsOf(quiz: Option<Json>): (r: Result<seq<Json>>)
    ensures !JsTruthy(GetOpt(quiz, "questions")) ==> r == Ok([])
    ensures AsArr(GetOpt(quiz, "questions")).Some? ==> r == Ok(AsArr(GetOpt(quiz, "questions")).value)
    ensures r.Err? <==> JsTruthy(GetOpt(quiz, "questions")) && AsArr(GetOpt(quiz, "questions")).None?
  {
    var qs := GetOpt(quiz, "questions");
    if !JsTruthy(qs) then Ok([])
    else if qs.value.JArr? then Ok(qs.value.items)
    else Err("TypeError: questions.map is not a function")
  }

  /** The property name a value converts to when used as `obj[v]`: `String(v)`, and `"undefined"` for an absent value. */
  function PropertyKey(v: Option<Json>): (k: string)
    ensures v.Some? && v.value.JStr? ==> k == v.value.s
    ensures v.None? ==> k == "undefined"
  {
    if v.None? then "undefined" else JsString(v.value)
  }

  /**
   * `responses?.[question.id]?.value ?? null`: the responses may be an
   * object keyed by question id or an array indexed by it.
   */
  function ResponseValue(responses: Option<Json>, question: Json): (v: Json)
    ensures v != JNull ==> responses.Some? && (responses.value.JObj? || responses.value.JArr?)
  {
    var key := PropertyKey(Get(question, "id"));
    var entry := MemberOpt(responses, key);
    var value := MemberOpt(entry, "value");
    if value.Some? then value.value else JNull
  }

  /** Keyed responses: the value stored under the question's id. */
  lemma ResponseValueKeyed(fields: seq<(string, Json)>, question: Json, id: string, entry: seq<(string, Json)>, x: Json)
    requires Get(question, "id") == Some(JStr(id))
    requires Lookup(fields, id) == Some(JObj(entry)) && Lookup(entry, "value") == Some(x)
    ensures ResponseValue(Some(JObj(fields)), question) == x
  {
  }

  /**
   * Responses given as an array: a question whose id is the index `k`, as
   * the text `"k"` or the number `k`, reads the value of the `k`-th entry.
   */
  lemma ResponseValueIndexed(items: seq<Json>, question: Json, k: nat, entry: seq<(string, Json)>, x: Json)
    requires Get(question, "id") == Some(JStr(NatToString(k))) || Get(question, "id") == Some(JNum(k as real))
    requires k < |items| && items[k] == JObj(entry) && Lookup(entry, "value") == Some(x)
    ensures ResponseValue(Some(JArr(items)), question) == x
  {
    NumStrOfInt(k);
    assert PropertyKey(Get(question, "id")) == NatToString(k);
  }

  /** The entry for one question; reading `.id` of `null` throws. */
  function ScoreQuestion(question: Json, responses: Option<Json>): (r: Result<QuestionScore>)
    ensures r.Ok? <==> question != JNull
    ensures r.Ok? ==> r.value.questionId == Get(question, "id")
  {
    if question == JNull then Err("TypeError: Cannot read properties of null (reading 'id')")
    else
      var value := ResponseValue(responses, question);
      var correct := JsTruthy(Some(value)) && StrictEq(Some(value), GetOpt(Get(question, "answerKey"), "value"));
      Ok(QuestionScore(Get(question, "id"), correct, value == JNull))
  }

  /** `perQuestion.filter((item) => item.correct).length`. */
  function CountCorrect(ps: seq<QuestionScore>): (n: nat)
    ensures n <= |ps|
    ensures n == |ps| <==> forall k :: 0 <= k < |ps| ==> ps[k].correct
    ensures n == 0 <==> forall k :: 0 <= k < |ps| ==> !ps[k].correct
  {
    if ps == [] then 0
    else
      var init := CountCorrect(ps[..|ps| - 1]);
      assert forall k :: 0 <= k < |ps| - 1 ==> ps[..|ps| - 1][k] == ps[k];
      init + if ps[|ps| - 1].correct then 1 else 0
  }

  /** `total ? Math.round((correctCount / total) * 100) : 0`. */
  function Percentage(correct: nat, total: nat): (p: int)
    ensures correct <= total ==> 0 <= p <= 100
    ensures total == 0 || correct == 0 ==> p == 0
    ensures 0 < total && correct == total ==> p == 100
  {
    if total == 0 then 0
    else
      var x := correct as real / total as real * 100.0;
      ShareOfHundred(correct, total);
      Numbers.Round(x)
  }

  /** A share `correct / total` of 100 lies in 0..100 and is 100 for a full share. */
  lemma ShareOfHundred(correct: nat, total: nat)
    requires 0 < total
    ensures correct <= total ==> 0.0 <= correct as real / total as real * 100.0 <= 100.0
    ensures correct == total ==> correct as real / total as real * 100.0 == 100.0
  {
    if correct <= total {
      assert correct as real / total as real <= 1.0;
    }
    if correct == total {
      assert correct as real / total as real == 1.0;
    }
  }

  /** `scoreAttempt(quiz, responses)`. */
  function ScoreAttempt(quiz: Option<Json>, responses: Option<Json>): (r: Result<AttemptScore>)
    ensures r.Ok? ==> r.value.total == |r.value.perQuestion| && r.value.correct == CountCorrect(r.value.perQuestion)
  {
    var questions :- QuestionsOf(quiz);
    var perQuestion :- MapAll(questions, q => ScoreQuestion(q, responses));
    var correct := CountCorrect(perQuestion);
    Ok(AttemptScore(perQuestion, correct, |questions|, Percentage(correct, |questions|)))
  }

  // ---------------------------------------------------------------------------
  // Properties

  /**
   * One entry per question, in order, carrying the question's id; an entry is
   * correct iff the response value is truthy and strictly equal to the
   * answer key's value, and unanswered iff there is no response value.
   * Scoring fails exactly when the question list is not a list or holds a
   * `null` question.
   */
  lemma ScoreAttemptPerQuestion(quiz: Option<Json>, responses: Option<Json>)
    ensures var r := ScoreAttempt(quiz, responses);
      && (r.Ok? <==> QuestionsOf(quiz).Ok? && forall k :: 0 <= k < |QuestionsOf(quiz).value| ==> QuestionsOf(quiz).value[k] != JNull)
      && (r.Ok? ==> |r.value.perQuestion| == |QuestionsOf(quiz).value|)
      && (r.Ok? ==>
            forall k :: 0 <= k < |r.value.perQuestion| ==>
              var q := QuestionsOf(quiz).value[k];
              var p := r.value.perQuestion[k];
              && p.questionId == Get(q, "id")
              && (p.correct <==> JsTruthy(Some(ResponseValue(responses, q))) && StrictEq(Some(ResponseValue(responses, q)), GetOpt(Get(q, "answerKey"), "value")))
              && (p.unanswered <==> ResponseValue(responses, q) == JNull))
  {
    var qsr := QuestionsOf(quiz);
    var r := ScoreAttempt(quiz, responses);
    if qsr.Ok? {
      var f := q => ScoreQuestion(q, responses);
      var m := MapAll(qsr.value, f);
      assert r.Ok? <==> m.Ok?;
      MapAllPointwise(qsr.value, f);
      if r.Ok? {
        assert r.value.perQuestion == m.value;
        forall k | 0 <= k < |r.value.perQuestion|
          ensures ScoreQuestion(qsr.value[k], responses) == Ok(r.value.perQuestion[k])
        {
        }
      }
    }
  }

  /** A falsy answer (`false`, `0`, `""`, `null`) never scores, and an unanswered question is never correct. */
  lemma FalsyAnswerNeverScores(question: Json, responses: Option<Json>)
    requires question != JNull
    requires !JsTruthy(Some(ResponseValue(responses, question)))
    ensures ScoreQuestion(question, responses).Ok?
    ensures !ScoreQuestion(question, responses).value.correct
  {
  }

  /** A response that is an array or object never equals the key, however alike they look. */
  lemma StructuredAnswerNeverScores(question: Json, responses: Option<Json>)
    requires question != JNull
    requires ResponseValue(responses, question).JArr? || ResponseValue(responses, question).JObj?
    ensures !ScoreQuestion(question, responses).value.correct
  {
  }

  /** The attempt's percentage is within 0..100. */
  lemma ScoreAttemptPercentage(quiz: Option<Json>, responses: Option<Json>)
    ensures var r := ScoreAttempt(quiz, responses);
      r.Ok? ==> 0 <= r.value.percentage <= 100 && r.value.correct <= r.value.total
  {
  }

  /** A missing quiz, or one without a question list, scores as an empty attempt. */
  lemma MissingQuestionsScoreEmpty(quiz: Option<Json>, responses: Option<Json>)
    requires GetOpt(quiz, "questions").None?
    ensures ScoreAttempt(quiz, responses) == Ok(AttemptScore([], 0, 0, 0))
  {
  }
}
