/**
 * The Python quiz service (backend/main.py): the answer-key model, answer
 * checking and attempt scoring, recovery of question records from the
 * language model's text, conversion of records into questions, and the
 * attempt store read back newest first.
 *
 * Request bodies arrive as JSON (`quiz` and `responses` are dictionaries, so
 * they are given as field lists). The model's reply text, the JSON parser,
 * uuid generation and the clock are parameters. Every failure inside a
 * request handler becomes an HTTP error; the model returns `Err`.
 */
module QuizBackend {
  import opened Wrappers
  import opened Strings
  import opened JsonModel
  import Sorting

  // ---------------------------------------------------------------------------
  // Records

  datatype Difficulty = Easy | Medium | Hard

  datatype QuizSpec = QuizSpec(topic: string, numQuestions: int, difficulty: Difficulty, userContext: Option<string>)

  datatype KeyType = ChoiceKey | BooleanKey | TextKey

  /** `Union[str, bool]`. */
  datatype AnswerValue = AStr(s: string) | ABool(b: bool)

  datatype AnswerKey = AnswerKey(keyType: KeyType, value: AnswerValue)

  datatype ChoiceOption = ChoiceOption(id: string, text: string)

  datatype QuestionType = Mcq | TrueFalse | Short

  datatype QuizQuestion = QuizQuestion(
    id: string,
    qtype: QuestionType,
    prompt: string,
    choices: Option<seq<ChoiceOption>>,
    answerKey: AnswerKey,
    explanation: string,
    tags: Option<seq<string>>)

  datatype PerQuestionResult = PerQuestionResult(questionId: string, correct: bool)

  datatype QuizResult = QuizResult(score: nat, maxScore: nat, percent: real, perQuestion: seq<PerQuestionResult>)

  /** A stored attempt; `createdAt` is the creation instant as a number. */
  datatype QuizAttempt = QuizAttempt(
    attemptId: string,
    createdAt: int,
    spec: QuizSpec,
    quiz: Json,
    responses: Json,
    result: QuizResult,
    telemetry: Option<Json>)

  // ---------------------------------------------------------------------------
  // Python's str()

  /** `str(v)`; strings are themselves and `None`/booleans read `None`/`True`/`False`. */
  function PyStr(v: Json): (s: string)
    ensures v.JStr? ==> s == v.s
    ensures v == JNull ==> s == "None"
    ensures v.JBool? ==> s == (if v.b then "True" else "False")
    decreases v, 0
  {
    match v
    case JNull => "None"
    case JBool(b) => if b then "True" else "False"
    case JNum(n) => NumStr(n)
    case JStr(s) => s
    case JArr(items) =>
      "[" + Join(seq(|items|, i requires 0 <= i < |items| => PyRepr(items[i])), ", ") + "]"
    case JObj(fields) =>
      "{" + Join(seq(|fields|, i requires 0 <= i < |fields| => "'" + fields[i].0 + "': " + PyRepr(fields[i].1)), ", ") + "}"
  }

  /** `repr(v)`: like `str`, with strings quoted. */
  function PyRepr(v: Json): (r: string)
    decreases v, 1
    ensures v.JStr? ==> |r| == |v.s| + 2 && r[0] == '\'' && r[1..|r| - 1] == v.s && r[|r| - 1] == '\''
    ensures !v.JStr? ==> r == PyStr(v)
  {
    if v.JStr? then "'" + v.s + "'" else PyStr(v)
  }

  /** `str` of a one-string list quotes the string inside brackets, so it never equals `str` of the string itself. */
  lemma StrOfSingletonList(a: string)
    ensures PyStr(JArr([JStr(a)])) == "['" + a + "']"
    ensures PyStr(JArr([JStr(a)])) != PyStr(JStr(a))
  {
    var items := [JStr(a)];
    var parts := seq(|items|, i requires 0 <= i < |items| => PyRepr(items[i]));
    assert parts == ["'" + a + "'"];
    assert Join(parts, ", ") == "'" + a + "'";
    assert |PyStr(JArr(items))| == |a| + 4;
  }

  // ---------------------------------------------------------------------------
  // Answer checking (lines 302-320)

  /** `question.get("answerKey", {})`. */
  function AnswerKeyOf(question: Json): Json {
    Get(question, "answerKey").GetOr(JObj([]))
  }

  /** `d.get("value")`, with `None` read as JSON null. */
  function ValueOf(d: Json): Json {
    Get(d, "value").GetOr(JNull)
  }

  /** A boolean-key response: strings are read as words, anything else by truthiness. */
  function ResponseAsBool(v: Json): (b: bool)
    ensures v.JStr? ==> (b <==> ToLower(v.s) in ["true", "t", "yes", "1"])
    ensures !v.JStr? ==> b == PyTruthy(v)
  {
    if v.JStr? then ToLower(v.s) in ["true", "t", "yes", "1"] else PyTruthy(v)
  }

  /**
   * `check_answer`: fails (AttributeError) when the question, its answer key
   * or the response is not a dictionary; an unknown key type is wrong.
   */
  function CheckAnswer(question: Json, response: Json): (r: Result<bool>)
    ensures r.Err? <==> !question.JObj? || !AnswerKeyOf(question).JObj? || !response.JObj?
    ensures r.Ok? && Get(AnswerKeyOf(question), "type") == Some(JStr("choice")) ==>
      (r.value <==> Trim(PyStr(ValueOf(response))) == Trim(PyStr(ValueOf(AnswerKeyOf(question)))))
    ensures r.Ok? && Get(AnswerKeyOf(question), "type") == Some(JStr("boolean")) ==>
      (r.value <==> ResponseAsBool(ValueOf(response)) == PyTruthy(ValueOf(AnswerKeyOf(question))))
    ensures r.Ok? && Get(AnswerKeyOf(question), "type") == Some(JStr("text")) ==>
      (r.value <==> ToLower(Trim(PyStr(ValueOf(response)))) == ToLower(Trim(PyStr(ValueOf(AnswerKeyOf(question))))))
    ensures r.Ok? && Get(AnswerKeyOf(question), "type") !in {Some(JStr("choice")), Some(JStr("boolean")), Some(JStr("text"))} ==>
      r == Ok(false)
  {
    if !question.JObj? then Err("AttributeError: question is not a dict")
    else
      var key := AnswerKeyOf(question);
      if !key.JObj? then Err("AttributeError: answerKey is not a dict")
      else if !response.JObj? then Err("AttributeError: response is not a dict")
      else
        var keyType := Get(key, "type");
        var correctValue := ValueOf(key);
        var userValue := ValueOf(response);
        if keyType == Some(JStr("choice")) then
          Ok(Trim(PyStr(userValue)) == Trim(PyStr(correctValue)))
        else if keyType == Some(JStr("boolean")) then
          Ok(ResponseAsBool(userValue) == PyTruthy(correctValue))
        else if keyType == Some(JStr("text")) then
          Ok(ToLower(Trim(PyStr(userValue))) == ToLower(Trim(PyStr(correctValue))))
        else
          Ok(false)
  }

  /** A question whose answer key has type `t` and value `value`. */
  function KeyedQuestion(t: string, value: Json): Json {
    JObj([("answerKey", JObj([("type", JStr(t)), ("value", value)]))])
  }

  /** A response carrying `value`. */
  function Response(value: Json): Json {
    JObj([("value", value)])
  }

  lemma KeyedQuestionParts(t: string, value: Json, answer: Json)
    ensures AnswerKeyOf(KeyedQuestion(t, value)) == JObj([("type", JStr(t)), ("value", value)])
    ensures Get(AnswerKeyOf(KeyedQuestion(t, value)), "type") == Some(JStr(t))
    ensures ValueOf(AnswerKeyOf(KeyedQuestion(t, value))) == value
    ensures ValueOf(Response(answer)) == answer
  {
    var key := JObj([("type", JStr(t)), ("value", value)]);
    assert Lookup(KeyedQuestion(t, value).fields, "answerKey") == Some(key);
    assert Lookup(key.fields, "type") == Some(JStr(t));
    assert Lookup(key.fields, "value") == Some(value);
    assert Lookup(Response(answer).fields, "value") == Some(answer);
  }

  /** Choice answers ignore blanks around the response. */
  lemma ChoiceIgnoresPadding(answer: Json, w1: string, s: string, w2: string)
    requires forall i :: 0 <= i < |w1| ==> IsSpace(w1[i])
    requires forall i :: 0 <= i < |w2| ==> IsSpace(w2[i])
    ensures CheckAnswer(KeyedQuestion("choice", answer), Response(JStr(w1 + s + w2)))
         == CheckAnswer(KeyedQuestion("choice", answer), Response(JStr(s)))
  {
    KeyedQuestionParts("choice", answer, JStr(w1 + s + w2));
    KeyedQuestionParts("choice", answer, JStr(s));
    TrimPadded(w1, s, w2);
  }

  /** Choice answers are case-sensitive: "A" does not answer a key "a". */
  lemma ChoiceIsCaseSensitive()
    ensures CheckAnswer(KeyedQuestion("choice", JStr("a")), Response(JStr("A"))) == Ok(false)
  {
    var q := KeyedQuestion("choice", JStr("a"));
    var response := Response(JStr("A"));
    KeyedQuestionParts("choice", JStr("a"), JStr("A"));
    assert AnswerKeyOf(q).JObj? && q.JObj? && response.JObj?;
    assert Trim("A") != Trim("a") by {
      TrimNoSpace("A");
      TrimNoSpace("a");
    }
  }

  /** Text answers ignore ASCII case: responses equal up to case get the same verdict. */
  lemma TextIgnoresCase(answer: Json, s: string, t: string)
    requires ToLower(s) == ToLower(t)
    ensures CheckAnswer(KeyedQuestion("text", answer), Response(JStr(s)))
         == CheckAnswer(KeyedQuestion("text", answer), Response(JStr(t)))
  {
    KeyedQuestionParts("text", answer, JStr(s));
    KeyedQuestionParts("text", answer, JStr(t));
    TrimLowerCaseInsensitive(s, t);
  }

  /** Boolean keys accept the words true/t/yes/1 in any case for a truthy key. */
  lemma BooleanWords(s: string)
    requires ToLower(s) in ["true", "t", "yes", "1"]
    ensures CheckAnswer(KeyedQuestion("boolean", JBool(true)), Response(JStr(s))) == Ok(true)
    ensures CheckAnswer(KeyedQuestion("boolean", JBool(false)), Response(JStr(s))) == Ok(false)
  {
    KeyedQuestionParts("boolean", JBool(true), JStr(s));
    KeyedQuestionParts("boolean", JBool(false), JStr(s));
  }

  /**
   * A boolean key stored as the string "false" is truthy, so the response
   * "false" is judged wrong against it.
   */
  lemma BooleanKeyStringFalse()
    ensures CheckAnswer(KeyedQuestion("boolean", JStr("false")), Response(JStr("false"))) == Ok(false)
  {
    KeyedQuestionParts("boolean", JStr("false"), JStr("false"));
    assert ToLower("false") == "false";
    assert "false" !in ["true", "t", "yes", "1"];
  }

  // ---------------------------------------------------------------------------
  // Scoring (lines 270-299)

  /** `responses.get(q_id, {})`; a list or dict id is unhashable (TypeError). */
  function ResponseFor(responses: seq<(string, Json)>, qid: Option<Json>): (r: Result<Json>)
    ensures r.Err? <==> qid.Some? && (qid.value.JArr? || qid.value.JObj?)
    ensures qid.Some? && qid.value.JStr? && qid.value.s in Keys(responses) ==> r == Ok(Lookup(responses, qid.value.s).value)
    ensures r.Ok? && !(qid.Some? && qid.value.JStr? && qid.value.s in Keys(responses)) ==> r == Ok(JObj([]))
  {
    match qid
    case Some(JArr(_)) => Err("TypeError: unhashable type: 'list'")
    case Some(JObj(_)) => Err("TypeError: unhashable type: 'dict'")
    case Some(JStr(k)) => Ok(Lookup(responses, k).GetOr(JObj([])))
    case _ => Ok(JObj([]))
  }

  /** One loop iteration of `score_attempt`: the per-question entry, or the error it raises. */
  function Grade(q: Json, responses: seq<(string, Json)>): (r: Result<PerQuestionResult>)
    ensures r.Ok? ==> q.JObj? && Get(q, "id") == Some(JStr(r.value.questionId))
  {
    if !q.JObj? then Err("AttributeError: question is not a dict")
    else
      var qid := Get(q, "id");
      var response :- ResponseFor(responses, qid);
      var correct :- CheckAnswer(q, response);
      if qid.Some? && qid.value.JStr? then Ok(PerQuestionResult(qid.value.s, correct))
      else Err("ValidationError: questionId must be a string")
  }

  /** The number of entries marked correct. */
  function CountCorrect(ps: seq<PerQuestionResult>): (n: nat)
    ensures n <= |ps|
  {
    if ps == [] then 0 else CountCorrect(ps[..|ps| - 1]) + (if ps[|ps| - 1].correct then 1 else 0)
  }

  /** The percentage before display rounding; 0.0 for an empty quiz. */
  function Percent(score: nat, maxScore: nat): real {
    if maxScore > 0 then score as real / maxScore as real * 100.0 else 0.0
  }

  /** `quiz_data.get("questions", [])`. */
  function QuestionsOf(quiz: seq<(string, Json)>): Json {
    Lookup(quiz, "questions").GetOr(JArr([]))
  }

  /** The per-question entries of a question list, or the first error the loop meets. */
  /** Grading one question against the given responses. */
  function GradeFor(responses: seq<(string, Json)>): Json -> Result<PerQuestionResult> {
    q => Grade(q, responses)
  }

  function GradeAll(qs: seq<Json>, responses: seq<(string, Json)>): (r: Result<seq<PerQuestionResult>>)
    ensures r.Ok? ==> |r.value| == |qs|
  {
    MapAll(qs, GradeFor(responses))
  }

  /**
   * The loop of `score_attempt` for a given grading of one question: the
   * entries of the questions in order and the running count of correct
   * ones, or the first error raised.
   */
  method ScoreLoop(qs: seq<Json>, grade: Json -> Result<PerQuestionResult>) returns (r: Result<(nat, seq<PerQuestionResult>)>)
    ensures r.Ok? <==> MapAll(qs, grade).Ok?
    ensures r.Ok? ==> r.value.1 == MapAll(qs, grade).value && r.value.0 == CountCorrect(r.value.1)
  {
    var score: nat := 0;
    var perQuestion: seq<PerQuestionResult> := [];
    var i := 0;
    while i < |qs|
      invariant 0 <= i <= |qs|
      invariant MapAll(qs[..i], grade) == Ok(perQuestion)
      invariant score == CountCorrect(perQuestion)
    {
      var entry := grade(qs[i]);
      if entry.Err? {
        assert qs[..i + 1][..i] == qs[..i];
        MapAllFailsFrom(qs, i + 1, grade);
        return Err(entry.error);
      }
      var next := perQuestion + [entry.value];
      assert next[..|next| - 1] == perQuestion;
      assert CountCorrect(next) == score + (if entry.value.correct then 1 else 0);
      if entry.value.correct {
        score := score + 1;
      }
      MapAllSnoc(qs, i, grade);
      perQuestion := next;
      i := i + 1;
    }
    assert qs[..i] == qs;
    r := Ok((score, perQuestion));
  }

  /** The loop of `score_attempt` over the questions with the attempt's responses. */
  method GradeQuestions(qs: seq<Json>, responses: seq<(string, Json)>) returns (r: Result<(nat, seq<PerQuestionResult>)>)
    ensures r.Ok? <==> GradeAll(qs, responses).Ok?
    ensures r.Ok? ==> r.value.1 == GradeAll(qs, responses).value && r.value.0 == CountCorrect(r.value.1)
  {
    r := ScoreLoop(qs, GradeFor(responses));
  }

  /** The result `score_attempt` returns when it raises nothing, and `None` when it raises. */
  function ScoreResult(quiz: seq<(string, Json)>, responses: seq<(string, Json)>): (r: Option<QuizResult>)
    ensures r.Some? <==> PyIter(QuestionsOf(quiz)).Ok? && GradeAll(PyIter(QuestionsOf(quiz)).value, responses).Ok?
    ensures r.Some? ==> r.value.score <= r.value.maxScore && r.value.maxScore == |r.value.perQuestion|
  {
    var iter := PyIter(QuestionsOf(quiz));
    if iter.Err? then None
    else
      var graded := GradeAll(iter.value, responses);
      if graded.Err? then None
      else
        var score := CountCorrect(graded.value);
        Some(QuizResult(score, |iter.value|, Percent(score, |iter.value|), graded.value))
  }

  /**
   * `score_attempt`: the entries of the quiz's questions, the number of
   * correct ones, the question count as maximum, and the percentage.
   */
  method ScoreAttempt(quiz: seq<(string, Json)>, responses: seq<(string, Json)>) returns (r: Result<QuizResult>)
    ensures r.Ok? <==> ScoreResult(quiz, responses).Some?
    ensures r.Ok? ==> r.value == ScoreResult(quiz, responses).value
    ensures r.Ok? <==> PyIter(QuestionsOf(quiz)).Ok? && GradeAll(PyIter(QuestionsOf(quiz)).value, responses).Ok?
    ensures r.Ok? ==>
      && r.value.perQuestion == GradeAll(PyIter(QuestionsOf(quiz)).value, responses).value
      && r.value.maxScore == |r.value.perQuestion|
      && r.value.score == CountCorrect(r.value.perQuestion)
      && r.value.percent == Percent(r.value.score, r.value.maxScore)
  {
    var iter := PyIter(QuestionsOf(quiz));
    if iter.Err? {
      return Err(iter.error);
    }
    var qs := iter.value;
    var graded := GradeQuestions(qs, responses);
    if graded.Err? {
      return Err(graded.error);
    }
    var (score, perQuestion) := graded.value;
    r := Ok(QuizResult(score, |qs|, Percent(score, |qs|), perQuestion));
  }

  /**
   * Reading the scoring result entry by entry: one entry per question, in
   * quiz order, and a score counting the correct ones, never above the maximum.
   */
  lemma ScoreAttemptPerQuestion(quiz: seq<(string, Json)>, responses: seq<(string, Json)>, result: QuizResult)
    requires PyIter(QuestionsOf(quiz)).Ok?
    requires GradeAll(PyIter(QuestionsOf(quiz)).value, responses) == Ok(result.perQuestion)
    requires result.maxScore == |result.perQuestion| && result.score == CountCorrect(result.perQuestion)
    ensures var qs := PyIter(QuestionsOf(quiz)).value;
      && result.maxScore == |qs|
      && result.score <= result.maxScore
      && forall k :: 0 <= k < |qs| ==> Grade(qs[k], responses) == Ok(result.perQuestion[k])
  {
    MapAllPointwise(PyIter(QuestionsOf(quiz)).value, GradeFor(responses));
  }

  /** The percentage lies in [0, 100] and is 100 exactly when every question of a non-empty quiz is right. */
  lemma PercentBounds(score: nat, maxScore: nat)
    requires score <= maxScore
    ensures 0.0 <= Percent(score, maxScore) <= 100.0
    ensures Percent(score, maxScore) == 100.0 <==> maxScore > 0 && score == maxScore
    ensures maxScore == 0 ==> Percent(score, maxScore) == 0.0
  {
    if maxScore > 0 {
      var f := score as real / maxScore as real;
      assert f * maxScore as real == score as real;
      if score == maxScore {
        assert f == 1.0;
      } else {
        assert f < 1.0;
      }
    }
  }

  /** A response that is not a dictionary makes the whole scoring fail. */
  lemma BareResponseFails(qid: string)
    ensures Grade(JObj([("id", JStr(qid)), ("answerKey", JObj([]))]), [(qid, JStr("a"))]).Err?
  {
    var q := JObj([("id", JStr(qid)), ("answerKey", JObj([]))]);
    assert Get(q, "id") == Some(JStr(qid));
    assert ResponseFor([(qid, JStr("a"))], Some(JStr(qid))) == Ok(JStr("a"));
  }

  /** A question missing from the responses is checked against an empty response. */
  lemma MissingResponseIsEmpty(q: Json, responses: seq<(string, Json)>)
    requires q.JObj? && Get(q, "id").Some? && Get(q, "id").value.JStr?
    requires Get(q, "id").value.s !in Keys(responses)
    requires AnswerKeyOf(q).JObj?
    ensures Grade(q, responses) == Ok(PerQuestionResult(Get(q, "id").value.s, CheckAnswer(q, JObj([])).value))
  {
  }

  // ---------------------------------------------------------------------------
  // Recovering question records from the model's reply (lines 213-237)

  /** The first list-valued field of a dict, if any. */
  function FirstList(fields: seq<(string, Json)>): (r: Option<Json>)
    ensures r.Some? ==> r.value.JArr? && exists i :: 0 <= i < |fields| && fields[i].1 == r.value
    ensures r.Some? ==> exists i :: 0 <= i < |fields| && fields[i].1 == r.value && forall k :: 0 <= k < i ==> !fields[k].1.JArr?
    ensures r.None? ==> forall i :: 0 <= i < |fields| ==> !fields[i].1.JArr?
  {
    if fields == [] then None
    else if fields[0].1.JArr? then Some(fields[0].1)
    else
      var r := FirstList(fields[1..]);
      if r.Some? then
        ghost var i :| 0 <= i < |fields[1..]| && fields[1..][i].1 == r.value && forall k :: 0 <= k < i ==> !fields[1..][k].1.JArr?;
        assert fields[i + 1].1 == r.value;
        r
      else r
  }

  /**
   * `content.split("```")[1]` for text that starts with a fence: what lies
   * between the first fence and the next one (or the end).
   */
  function FenceBody(content: string): (body: string)
    requires IsPrefix("```", content)
    ensures 3 + |body| <= |content| && body == content[3..3 + |body|]
    ensures !OccursAt(content, "```", 3 + |body|) ==> 3 + |body| == |content|
    ensures forall k :: 3 <= k < 3 + |body| ==> !OccursAt(content, "```", k)
  {
    match FindSub(content, "```", 3)
    case Some(k) => content[3..k]
    case None => content[3..]
  }

  /** The fallback text re-parsed after a decode error. */
  function FallbackText(content: string): string {
    var c := Trim(content);
    if IsPrefix("```", c) then
      var body := FenceBody(c);
      if IsPrefix("json", body) then Trim(body[4..]) else body
    else c
  }

  /**
   * The question data: a parsed dict yields its "questions" value, else its
   * first list value, else fails; any other parsed value is used as is; on a
   * decode error the fenced body is parsed instead (and used as is).
   */
  function ExtractQuestionData(content: string, parse: string -> Option<Json>): (r: Result<Json>)
    ensures parse(content).Some? && parse(content).value.JObj? ==>
      var fields := parse(content).value.fields;
      if "questions" in Keys(fields) then r == Ok(Lookup(fields, "questions").value)
      else if FirstList(fields).Some? then r == Ok(FirstList(fields).value)
      else r.Err?
    ensures parse(content).Some? && !parse(content).value.JObj? ==> r == Ok(parse(content).value)
    ensures parse(content).None? ==>
      (r.Ok? <==> parse(FallbackText(content)).Some?) && (r.Ok? ==> r.value == parse(FallbackText(content)).value)
  {
    match parse(content)
    case Some(data) =>
      if data.JObj? then
        match Lookup(data.fields, "questions")
        case Some(v) => Ok(v)
        case None =>
          match FirstList(data.fields)
          case Some(v) => Ok(v)
          case None => Err("ValueError: No array found in response")
      else Ok(data)
    case None =>
      match parse(FallbackText(content))
      case Some(data) => Ok(data)
      case None => Err("JSONDecodeError")
  }

  /** The fence body ends at the first fence after the opening one. */
  lemma FenceBodyAt(content: string, n: nat)
    requires IsPrefix("```", content) && OccursAt(content, "```", 3 + n)
    requires forall k :: 3 <= k < 3 + n ==> !OccursAt(content, "```", k)
    ensures FenceBody(content) == content[3..3 + n]
  {
    var b := FenceBody(content);
    assert |b| == n;
  }

  /** No fence starts inside the "json" tag or the body of a wrapped reply. */
  lemma NoFenceInWrapped(body: string)
    requires forall k :: 0 <= k < |body| ==> !OccursAt(body + "```", "```", k)
    ensures forall k :: 3 <= k < 7 + |body| ==> !OccursAt("```json" + body + "```", "```", k)
  {
    var content := "```json" + body + "```";
    forall k | 3 <= k < 7 + |body|
      ensures !OccursAt(content, "```", k)
    {
      if k < 5 {
        assert content[k..k + 3][2] == content[k + 2] == "json"[k - 1] != '`';
      } else if k < 7 {
        assert content[k..k + 3][0] == content[k] == "json"[k - 3] != '`';
      } else {
        assert content[7..] == body + "```";
        assert content[k..k + 3] == (body + "```")[k - 7..k - 4];
        assert !OccursAt(body + "```", "```", k - 7);
      }
    }
  }

  lemma FenceBodyOfWrapped(body: string)
    requires forall k :: 0 <= k < |body| ==> !OccursAt(body + "```", "```", k)
    ensures IsPrefix("```", "```json" + body + "```")
    ensures FenceBody("```json" + body + "```") == "json" + body
  {
    var content := "```json" + body + "```";
    assert content[..3] == "```";
    assert content[7 + |body|..] == "```";
    NoFenceInWrapped(body);
    FenceBodyAt(content, 4 + |body|);
    assert content[3..7 + |body|] == "json" + body;
  }

  /** A reply wrapped in a ```json fence is recovered from the trimmed text inside the fences. */
  lemma FencedReplyRecovered(body: string, parse: string -> Option<Json>)
    requires forall k :: 0 <= k < |body| ==> !OccursAt(body + "```", "```", k)
    requires parse("```json" + body + "```") == None
    ensures ExtractQuestionData("```json" + body + "```", parse) ==
      (if parse(Trim(body)).Some? then Ok(parse(Trim(body)).value) else Err("JSONDecodeError"))
  {
    var content := "```json" + body + "```";
    assert content[0] == '`' && content[|content| - 1] == '`';
    TrimOfClean(content);
    FenceBodyOfWrapped(body);
    assert IsPrefix("json", "json" + body);
    assert ("json" + body)[4..] == body;
    assert FallbackText(content) == Trim(body);
  }

  // ---------------------------------------------------------------------------
  // Converting records into questions (lines 239-260)

  /** `d[key]`: KeyError for a missing key, TypeError when `d` is not a dict. */
  function Index(d: Json, key: string): (r: Result<Json>)
    ensures r.Ok? <==> d.JObj? && key in Keys(d.fields)
    ensures r.Ok? ==> Get(d, key) == Some(r.value)
  {
    if !d.JObj? then Err("TypeError: not subscriptable by a string")
    else match Lookup(d.fields, key)
      case Some(v) => Ok(v)
      case None => Err("KeyError: " + key)
  }

  /** `ChoiceOption(id=c["id"], text=c["text"])`, both fields strings. */
  function ConvertChoice(c: Json): (r: Result<ChoiceOption>)
    ensures r.Ok? <==> Index(c, "id").Ok? && Index(c, "text").Ok? && Index(c, "id").value.JStr? && Index(c, "text").value.JStr?
    ensures r.Ok? ==> Get(c, "id") == Some(JStr(r.value.id)) && Get(c, "text") == Some(JStr(r.value.text))
  {
    var id :- Index(c, "id");
    var text :- Index(c, "text");
    if id.JStr? && text.JStr? then Ok(ChoiceOption(id.s, text.s)) else Err("ValidationError: choice")
  }

  /** The choices list comprehension: all choices, in order, or the first failure. */
  function ConvertChoices(cs: seq<Json>): (r: Result<seq<ChoiceOption>>)
    ensures r.Ok? ==> |r.value| == |cs|
  {
    MapAll(cs, ConvertChoice)
  }

  /** Every choice converts, keeping its id and text, in source order; otherwise the list fails. */
  lemma ConvertChoicesInOrder(cs: seq<Json>)
    ensures ConvertChoices(cs).Ok? <==> forall i :: 0 <= i < |cs| ==> ConvertChoice(cs[i]).Ok?
    ensures ConvertChoices(cs).Ok? ==> forall i :: 0 <= i < |cs| ==>
      Get(cs[i], "id") == Some(JStr(ConvertChoices(cs).value[i].id)) && Get(cs[i], "text") == Some(JStr(ConvertChoices(cs).value[i].text))
  {
    MapAllPointwise(cs, ConvertChoice);
  }

  /** `Optional[List[str]]`. */
  function TagsOf(v: Json): (r: Result<Option<seq<string>>>)
    ensures v == JNull ==> r == Ok(None)
    ensures v == JArr([]) ==> r == Ok(Some([]))
    ensures r.Ok? && r.value.Some? ==>
      && v.JArr?
      && |r.value.value| == |v.items|
      && forall i :: 0 <= i < |v.items| ==> v.items[i] == JStr(r.value.value[i])
  {
    match v
    case JNull => Ok(None)
    case JArr(items) =>
      if forall i :: 0 <= i < |items| ==> items[i].JStr? then
        Ok(Some(seq(|items|, i requires 0 <= i < |items| && items[i].JStr? => items[i].s)))
      else Err("ValidationError: tags")
    case _ => Err("ValidationError: tags")
  }

  /** `str(uuid.uuid4())[:8]`. */
  function ShortId(uuid: string): (id: string)
    ensures |id| == if |uuid| < 8 then |uuid| else 8
    ensures IsPrefix(id, uuid)
  {
    if |uuid| < 8 then uuid else uuid[..8]
  }

  /** `AnswerKey.value`: a string or a boolean. */
  function AnswerValueOf(v: Json): Result<AnswerValue> {
    match v
    case JStr(s) => Ok(AStr(s))
    case JBool(b) => Ok(ABool(b))
    case _ => Err("ValidationError: answer")
  }

  /**
   * One record as a question: a multiple-choice question with the given id,
   * the record's prompt and explanation, its choices in order, a choice-type
   * key holding the record's answer, and tags defaulting to [].
   */
  function ConvertRecord(q: Json, id: string): (r: Result<QuizQuestion>)
    ensures r.Ok? ==> r.value.id == id && r.value.qtype == Mcq && r.value.answerKey.keyType == ChoiceKey
    ensures r.Ok? ==> Get(q, "prompt") == Some(JStr(r.value.prompt)) && Get(q, "explanation") == Some(JStr(r.value.explanation))
    ensures r.Ok? ==> Get(q, "answer").Some? && AnswerValueOf(Get(q, "answer").value) == Ok(r.value.answerKey.value)
    ensures r.Ok? ==>
      && Get(q, "choices").Some? && PyIter(Get(q, "choices").value).Ok? && r.value.choices.Some?
      && ConvertChoices(PyIter(Get(q, "choices").value).value) == Ok(r.value.choices.value)
    ensures r.Ok? && "tags" !in Keys(q.fields) ==> r.value.tags == Some([])
    ensures !q.JObj? || "prompt" !in Keys(q.fields) || "choices" !in Keys(q.fields) || "answer" !in Keys(q.fields) ==> r.Err?
  {
    var prompt :- Index(q, "prompt");
    var rawChoices :- Index(q, "choices");
    var items :- PyIter(rawChoices);
    var choices :- ConvertChoices(items);
    var answer :- Index(q, "answer");
    var value :- AnswerValueOf(answer);
    var explanation :- Index(q, "explanation");
    var tags :- TagsOf(Get(q, "tags").GetOr(JArr([])));
    if prompt.JStr? && explanation.JStr? then
      Ok(QuizQuestion(id, Mcq, prompt.s, Some(choices), AnswerKey(ChoiceKey, value), explanation.s, tags))
    else Err("ValidationError: prompt and explanation must be strings")
  }

  /** The records iterated by the conversion loop. */
  function RecordsOf(content: string, parse: string -> Option<Json>): (r: Result<seq<Json>>)
    ensures r.Ok? ==> ExtractQuestionData(content, parse).Ok?
  {
    var data :- ExtractQuestionData(content, parse);
    PyIter(data)
  }

  /** Records paired with their positions, as `for q_data in ...` meets them. */
  function Numbered(records: seq<Json>): (r: seq<(nat, Json)>)
    ensures |r| == |records|
    ensures forall i :: 0 <= i < |records| ==> r[i] == (i, records[i])
  {
    seq(|records|, i requires 0 <= i < |records| => (i, records[i]))
  }

  /** Converting the i-th record under the short form of the i-th uuid. */
  function Converter(uuid: nat -> string): ((nat, Json)) -> Result<QuizQuestion> {
    (p: (nat, Json)) => ConvertRecord(p.1, ShortId(uuid(p.0)))
  }

  /** Every record converted, the i-th with the short form of the i-th uuid, or the first failure. */
  function ConvertAll(records: seq<Json>, uuid: nat -> string): (r: Result<seq<QuizQuestion>>)
    ensures r.Ok? ==> |r.value| == |records|
  {
    MapAll(Numbered(records), Converter(uuid))
  }

  /** The conversion loop of `generate_quiz` for a given conversion of one numbered record. */
  method ConvertLoop(records: seq<Json>, convert: ((nat, Json)) -> Result<QuizQuestion>)
    returns (r: Result<seq<QuizQuestion>>)
    ensures r.Ok? <==> MapAll(Numbered(records), convert).Ok?
    ensures r.Ok? ==> r.value == MapAll(Numbered(records), convert).value
  {
    var numbered := Numbered(records);
    var questions: seq<QuizQuestion> := [];
    var i := 0;
    while i < |records|
      invariant 0 <= i <= |records|
      invariant MapAll(numbered[..i], convert) == Ok(questions)
    {
      var question := convert((i, records[i]));
      assert numbered[i] == (i, records[i]);
      if question.Err? {
        assert numbered[..i + 1][..i] == numbered[..i];
        MapAllFailsFrom(numbered, i + 1, convert);
        return Err(question.error);
      }
      MapAllSnoc(numbered, i, convert);
      questions := questions + [question.value];
      i := i + 1;
    }
    assert numbered[..i] == numbered;
    r := Ok(questions);
  }

  /**
   * The parse-and-convert part of `generate_quiz`: the records recovered
   * from the reply, converted in order; any failure fails the generation.
   */
  method GenerateQuestions(content: string, parse: string -> Option<Json>, uuid: nat -> string)
    returns (r: Result<seq<QuizQuestion>>)
    ensures r.Ok? <==> RecordsOf(content, parse).Ok? && ConvertAll(RecordsOf(content, parse).value, uuid).Ok?
    ensures r.Ok? ==> r.value == ConvertAll(RecordsOf(content, parse).value, uuid).value
  {
    var recs := RecordsOf(content, parse);
    if recs.Err? {
      return Err("500: Failed to generate quiz with OpenAI: " + recs.error);
    }
    var converted := ConvertLoop(recs.value, Converter(uuid));
    if converted.Err? {
      return Err("500: Failed to generate quiz with OpenAI: " + converted.error);
    }
    r := converted;
  }

  /**
   * A successful generation holds one question per record, in record order,
   * the i-th being record i converted under the i-th uuid's short form.
   */
  lemma GeneratedInRecordOrder(records: seq<Json>, uuid: nat -> string)
    requires ConvertAll(records, uuid).Ok?
    ensures forall i :: 0 <= i < |records| ==>
      ConvertRecord(records[i], ShortId(uuid(i))) == Ok(ConvertAll(records, uuid).value[i])
  {
    MapAllPointwise(Numbered(records), Converter(uuid));
  }

  /** Generation is all-or-nothing: one record that fails to convert fails the whole list. */
  lemma OneBadRecordFailsAll(records: seq<Json>, uuid: nat -> string, k: nat)
    requires k < |records| && ConvertRecord(records[k], ShortId(uuid(k))).Err?
    ensures ConvertAll(records, uuid).Err?
  {
    var convert := Converter(uuid);
    MapAllPointwise(Numbered(records), convert);
    assert convert(Numbered(records)[k]).Err?;
  }

  // ---------------------------------------------------------------------------
  // The attempt store (lines 126-156)

  function CreatedAt(a: QuizAttempt): real {
    a.createdAt as real
  }

  /** The `quiz_attempts` table: one row per attempt id, in insertion order. */
  class QuizDatabase {
    var rows: seq<QuizAttempt>

    ghost predicate Valid()
      reads this
    {
      forall i, j :: 0 <= i < j < |rows| ==> rows[i].attemptId != rows[j].attemptId
    }

    predicate HasId(id: string)
      reads this
    {
      exists i :: 0 <= i < |rows| && rows[i].attemptId == id
    }

    constructor()
      ensures Valid() && rows == []
    {
      rows := [];
    }

    /** `save_attempt`: inserts the row, or fails on a duplicate primary key and stores nothing. */
    method SaveAttempt(attempt: QuizAttempt) returns (ok: bool)
      requires Valid()
      modifies this
      ensures Valid()
      ensures ok <==> !old(HasId(attempt.attemptId))
      ensures ok ==> rows == old(rows) + [attempt]
      ensures !ok ==> rows == old(rows)
    {
      if exists i :: 0 <= i < |rows| && rows[i].attemptId == attempt.attemptId {
        ok := false;
      } else {
        rows := rows + [attempt];
        ok := true;
      }
    }

    /**
     * `get_attempts`: at most `limit` stored attempts (all of them for a
     * negative limit, as SQLite reads `LIMIT -1`), newest first, and none
     * left out that is newer than one returned.
     */
    method GetAttempts(limit: int) returns (r: seq<QuizAttempt>)
      ensures |r| == if 0 <= limit < |rows| then limit else |rows|
      ensures multiset(r) <= multiset(rows)
      ensures forall i, j :: 0 <= i < j < |r| ==> r[i].createdAt >= r[j].createdAt
      ensures forall a :: a in multiset(rows) - multiset(r) ==> forall i :: 0 <= i < |r| ==> r[i].createdAt >= a.createdAt
    {
      var n := if limit < 0 then |rows| else limit;
      r := Sorting.Take(Sorting.SortDesc(rows, CreatedAt), n);
      Sorting.TopN(rows, CreatedAt, n);
    }
  }

  /**
   * `score_and_save`: score the attempt, build the record and store it.
   * It succeeds exactly when scoring succeeds and the id is new; the stored
   * record carries the request's spec, quiz, responses and telemetry and
   * the score `score_attempt` computes. A scoring error is a 400 with the
   * error's text, and nothing is stored on any failure.
   */
  method ScoreAndSave(db: QuizDatabase, spec: QuizSpec, quiz: seq<(string, Json)>, responses: seq<(string, Json)>,
                      telemetry: Option<Json>, attemptId: string, now: int)
    returns (r: Result<QuizAttempt>)
    requires db.Valid()
    modifies db
    ensures db.Valid()
    ensures r.Ok? <==> ScoreResult(quiz, responses).Some? && !old(db.HasId(attemptId))
    ensures r.Ok? ==>
      && r.value == QuizAttempt(attemptId, now, spec, JObj(quiz), JObj(responses), ScoreResult(quiz, responses).value, telemetry)
      && db.rows == old(db.rows) + [r.value]
    ensures ScoreResult(quiz, responses).None? ==> r.Err? && IsPrefix("400: ", r.error)
    ensures r.Err? ==> db.rows == old(db.rows)
  {
    var result := ScoreAttempt(quiz, responses);
    if result.Err? {
      return Err("400: " + result.error);
    }
    var attempt := QuizAttempt(attemptId, now, spec, JObj(quiz), JObj(responses), result.value, telemetry);
    var ok := db.SaveAttempt(attempt);
    if !ok {
      return Err("400: UNIQUE constraint failed: quiz_attempts.id");
    }
    r := Ok(attempt);
  }
}
