/**
 * The Node server's quiz normaliser (server/quizGenerator.js): whatever the
 * language model returned is turned into a quiz whose questions all have
 * exactly four choices, string ids and an answer key, with fixed fallbacks
 * for every missing field. The model's reply text, the JSON parser and the
 * clock are parameters.
 */
module QuizGenerator {
  import opened Wrappers
  import opened Strings
  import opened JsonModel
  import Sorting

  datatype Choice = Choice(id: string, text: string)

  datatype Question = Question(id: string, prompt: string, choices: seq<Choice>, answerValue: string, explanation: string)

  datatype Quiz = Quiz(id: string, questions: seq<Question>)

  /** `ensureString(value, fallback)`. */
  function EnsureString(v: Option<Json>, fallback: string): (r: string)
    ensures AsStr(v).Some? ==> r == AsStr(v).value
    ensures AsStr(v).None? ==> r == fallback
  {
    AsStr(v).GetOr(fallback)
  }

  /** `choice_{n}`, the positional choice id (1-based). */
  function ChoiceId(n: nat): string {
    "choice_" + NatToString(n)
  }

  /** A raw choice at 0-based `index`: a string is the text, an object supplies its own string id and text. */
  function RawChoice(c: Json, index: nat): (r: Choice)
    ensures c.JStr? ==> r == Choice(ChoiceId(index + 1), c.s)
    ensures !c.JStr? && AsStr(Get(c, "text")).None? ==> r.text == "Option " + NatToString(index + 1)
  {
    if c.JStr? then Choice(ChoiceId(index + 1), c.s)
    else Choice(EnsureString(Get(c, "id"), ChoiceId(index + 1)), EnsureString(Get(c, "text"), "Option " + NatToString(index + 1)))
  }

  /** The `map` step over the raw list (not an array: no choices). */
  function MappedChoices(choices: Option<Json>): (r: seq<Choice>)
    ensures |r| == |AsArr(choices).GetOr([])|
    ensures forall i :: 0 <= i < |r| ==> r[i] == RawChoice(AsArr(choices).GetOr([])[i], i)
  {
    var cs := AsArr(choices).GetOr([]);
    seq(|cs|, i requires 0 <= i < |cs| => RawChoice(cs[i], i))
  }

  /** `.filter((choice) => choice.text)`: the choices with non-empty text, in order. */
  function WithText(cs: seq<Choice>): (r: seq<Choice>)
    ensures |r| <= |cs|
    ensures forall k :: 0 <= k < |r| ==> r[k].text != "" && r[k] in cs
    ensures (forall k :: 0 <= k < |cs| ==> cs[k].text != "") ==> r == cs
  {
    if cs == [] then []
    else
      var init := WithText(cs[..|cs| - 1]);
      var last := cs[|cs| - 1];
      assert forall k :: 0 <= k < |cs| - 1 ==> cs[..|cs| - 1][k] == cs[k];
      if last.text != "" then init + [last] else init
  }

  /** Appending one choice keeps it exactly when its text is non-empty. */
  lemma WithTextSnoc(cs: seq<Choice>, c: Choice)
    ensures WithText(cs + [c]) == WithText(cs) + (if c.text != "" then [c] else [])
  {
    assert (cs + [c])[..|cs|] == cs;
  }

  /** A single choice survives exactly when its text is non-empty. */
  lemma WithTextOne(c: Choice)
    ensures WithText([c]) == if c.text != "" then [c] else []
  {
    WithTextSnoc([], c);
    assert [] + [c] == [c];
  }

  /** The filter distributes over concatenation: kept choices keep their input order. */
  lemma {:induction false} WithTextAppend(a: seq<Choice>, b: seq<Choice>)
    ensures WithText(a + b) == WithText(a) + WithText(b)
    decreases |b|
  {
    if b == [] {
      assert a + b == a;
    } else {
      var front := b[..|b| - 1];
      var c := b[|b| - 1];
      assert b == front + [c];
      assert a + b == (a + front) + [c];
      WithTextAppend(a, front);
      WithTextSnoc(a + front, c);
      WithTextSnoc(front, c);
    }
  }

  /** The padding choice pushed when the list has `n` entries. */
  function PadChoice(n: nat): Choice {
    Choice(ChoiceId(n + 1), "Option " + NatToString(n + 1))
  }

  /** The list after the `while (result.length < 4)` loop. */
  function PadToFour(cs: seq<Choice>): (r: seq<Choice>)
    ensures |r| == if |cs| < 4 then 4 else |cs|
    ensures r[..|cs|] == cs
    ensures forall k :: |cs| <= k < |r| ==> r[k] == PadChoice(k)
    decreases 4 - |cs|
  {
    if |cs| >= 4 then cs
    else
      var r := PadToFour(cs + [PadChoice(|cs|)]);
      assert r[..|cs|] == (r[..|cs| + 1])[..|cs|];
      r
  }

  /** What `normalizeChoices(choices)` returns. */
  function NormalizedChoices(choices: Option<Json>): (r: seq<Choice>)
    ensures |r| == 4
  {
    Sorting.Take(PadToFour(WithText(MappedChoices(choices))), 4)
  }

  /** `normalizeChoices(choices)`, with its padding loop. */
  method NormalizeChoices(choices: Option<Json>) returns (r: seq<Choice>)
    ensures r == NormalizedChoices(choices)
  {
    var result := WithText(MappedChoices(choices));
    ghost var start := result;
    while |result| < 4
      invariant PadToFour(result) == PadToFour(start)
      decreases 4 - |result|
    {
      result := result + [PadChoice(|result|)];
    }
    r := result[..4];
  }

  /**
   * Every normalised list has four choices with non-empty text: the first
   * are the raw choices with text, in order, and the rest are positional
   * padding.
   */
  lemma NormalizedChoicesShape(choices: Option<Json>)
    ensures var kept := WithText(MappedChoices(choices));
      var r := NormalizedChoices(choices);
      && |r| == 4
      && (forall k :: 0 <= k < 4 && k < |kept| ==> r[k] == kept[k])
      && (forall k :: |kept| <= k < 4 ==> r[k] == PadChoice(k))
      && (forall k :: 0 <= k < 4 ==> r[k].text != "")
  {
    var kept := WithText(MappedChoices(choices));
    var padded := PadToFour(kept);
    forall k | 0 <= k < 4 && k < |kept|
      ensures padded[k] == kept[k]
    {
      assert padded[..|kept|][k] == kept[k];
    }
  }

  /**
   * Padding numbers from the list's current length, so an id can repeat: a
   * blank first choice is dropped and the padding reuses the id `choice_2`
   * of the choice that was kept.
   */
  lemma PaddingCanRepeatAnId()
    ensures var r := NormalizedChoices(Some(JArr([JStr(""), JStr("b")])));
      r[0] == Choice("choice_2", "b") && r[1].id == "choice_2"
  {
    var raw := [JStr(""), JStr("b")];
    var mapped := MappedChoices(Some(JArr(raw)));
    assert mapped == [Choice(ChoiceId(1), ""), Choice(ChoiceId(2), "b")];
    assert NatToString(2) == "2";
    assert ChoiceId(2) == "choice_2";
    assert mapped[..1] == [Choice(ChoiceId(1), "")];
    var kept := WithText(mapped);
    assert WithText(mapped[..1]) == [];
    assert kept == [Choice("choice_2", "b")];
    NormalizedChoicesShape(Some(JArr(raw)));
  }

  /** One question at 0-based `index`, with every fallback applied. */
  function NormalizeQuestion(q: Json, index: nat): (r: Question)
    ensures r.choices == NormalizedChoices(Get(q, "choices"))
    ensures r.id == EnsureString(Get(q, "id"), "q_" + NatToString(index + 1))
    ensures r.answerValue == EnsureString(GetOpt(Get(q, "answerKey"), "value"), r.choices[0].id)
    ensures AsStr(Get(q, "prompt")).Some? ==> r.prompt == AsStr(Get(q, "prompt")).value
    ensures AsStr(Get(q, "prompt")).None? ==> r.prompt == "Untitled question"
    ensures AsStr(Get(q, "explanation")).Some? ==> r.explanation == AsStr(Get(q, "explanation")).value
    ensures AsStr(Get(q, "explanation")).None? ==> r.explanation == "Review the core idea for this question."
    ensures AsStr(GetOpt(Get(q, "answerKey"), "value")).None? ==> r.answerValue == r.choices[0].id
    ensures AsStr(Get(q, "id")).None? ==> r.id == "q_" + NatToString(index + 1)
  {
    var choices := NormalizedChoices(Get(q, "choices"));
    Question(
      EnsureString(Get(q, "id"), "q_" + NatToString(index + 1)),
      EnsureString(Get(q, "prompt"), "Untitled question"),
      choices,
      EnsureString(GetOpt(Get(q, "answerKey"), "value"), choices[0].id),
      EnsureString(Get(q, "explanation"), "Review the core idea for this question."))
  }

  /** `typeof v === 'object'` for a truthy value: arrays count as objects. */
  predicate IsObject(v: Option<Json>) {
    JsTruthy(v) && (v.value.JArr? || v.value.JObj?)
  }

  /** `normalizeQuiz(quiz)`; `now` is `Date.now()`. */
  function NormalizeQuiz(quiz: Option<Json>, now: nat): (r: Result<Quiz>)
    ensures !IsObject(quiz) ==> r == Err("Quiz payload is not an object.")
    ensures IsObject(quiz) && AsArr(Get(quiz.value, "questions")).GetOr([]) == [] ==> r == Err("Quiz payload did not include questions.")
    ensures r.Ok? ==> |r.value.questions| == |AsArr(Get(quiz.value, "questions")).value|
    ensures r.Ok? ==> var qs := AsArr(Get(quiz.value, "questions")).value;
      forall i :: 0 <= i < |qs| ==> r.value.questions[i] == NormalizeQuestion(qs[i], i)
    ensures r.Ok? && AsStr(Get(quiz.value, "id")).Some? ==> r.value.id == AsStr(Get(quiz.value, "id")).value
    ensures r.Ok? && AsStr(Get(quiz.value, "id")).None? ==> r.value.id == "quiz_" + NatToString(now)
    ensures IsObject(quiz) && AsArr(Get(quiz.value, "questions")).GetOr([]) != [] ==> r.Ok?
  {
    if !IsObject(quiz) then Err("Quiz payload is not an object.")
    else
      var qs := AsArr(Get(quiz.value, "questions")).GetOr([]);
      if qs == [] then Err("Quiz payload did not include questions.")
      else
        Ok(Quiz(
          EnsureString(Get(quiz.value, "id"), "quiz_" + NatToString(now)),
          seq(|qs|, i requires 0 <= i < |qs| => NormalizeQuestion(qs[i], i))))
  }

  /**
   * A normalised quiz keeps its questions in order, and every one has four
   * choices and an answer value that is a string; the answer is not checked
   * against the choice ids.
   */
  lemma NormalizeQuizShape(quiz: Option<Json>, now: nat)
    requires NormalizeQuiz(quiz, now).Ok?
    ensures var r := NormalizeQuiz(quiz, now).value;
      var qs := AsArr(Get(quiz.value, "questions")).value;
      && |r.questions| == |qs| > 0
      && forall i :: 0 <= i < |qs| ==>
        && r.questions[i] == NormalizeQuestion(qs[i], i)
        && |r.questions[i].choices| == 4
        && (AsStr(GetOpt(Get(qs[i], "answerKey"), "value")).None? ==> r.questions[i].answerValue == r.questions[i].choices[0].id)
  {
  }

  /** An answer key naming no choice is kept as it is. */
  lemma AnswerNotCheckedAgainstChoices()
    ensures var q := JObj([("answerKey", JObj([("value", JStr("zzz"))]))]);
      var r := NormalizeQuestion(q, 0);
      r.answerValue == "zzz" && forall k :: 0 <= k < |r.choices| ==> r.choices[k].id != "zzz"
  {
    var q := JObj([("answerKey", JObj([("value", JStr("zzz"))]))]);
    var r := NormalizeQuestion(q, 0);
    assert Get(q, "choices") == None;
    NormalizedChoicesShape(None);
    assert WithText(MappedChoices(None)) == [];
    forall k | 0 <= k < 4 ensures r.choices[k].id != "zzz" {
      assert r.choices[k] == PadChoice(k);
      assert r.choices[k].id[0] == 'c';
    }
  }

  /** Questions without an id of their own get distinct positional ids. */
  lemma FallbackIdsDistinct(quiz: Option<Json>, now: nat, i: nat, j: nat)
    requires NormalizeQuiz(quiz, now).Ok?
    requires i < j < |NormalizeQuiz(quiz, now).value.questions|
    requires AsStr(Get(AsArr(Get(quiz.value, "questions")).value[i], "id")).None?
    requires AsStr(Get(AsArr(Get(quiz.value, "questions")).value[j], "id")).None?
    ensures NormalizeQuiz(quiz, now).value.questions[i].id != NormalizeQuiz(quiz, now).value.questions[j].id
  {
    var r := NormalizeQuiz(quiz, now).value;
    assert r.questions[i].id == "q_" + NatToString(i + 1);
    assert r.questions[j].id == "q_" + NatToString(j + 1);
    if r.questions[i].id == r.questions[j].id {
      assert NatToString(i + 1) == r.questions[i].id[2..];
      assert NatToString(j + 1) == r.questions[j].id[2..];
      NatToStringInjective(i + 1, j + 1);
    }
  }

  /**
   * `parseQuizJson(content)`: a strict parse, else a parse of the greedy
   * `{...}` span, else an error. A failing second parse throws too.
   */
  function ParseQuizJson(content: string, parse: string -> Option<Json>): (r: Result<Json>)
    ensures parse(content).Some? ==> r == Ok(parse(content).value)
    ensures parse(content).None? && GreedyBraces(content).None? ==> r == Err("Unable to locate JSON in response.")
    ensures r.Ok? ==> parse(content) == Some(r.value) || (GreedyBraces(content).Some? && parse(GreedyBraces(content).value) == Some(r.value))
    ensures parse(content).None? && GreedyBraces(content).Some? ==>
      (r.Ok? <==> parse(GreedyBraces(content).value).Some?) &&
      (r.Ok? ==> r.value == parse(GreedyBraces(content).value).value) &&
      (r.Err? ==> r == Err("SyntaxError: Unexpected token in JSON"))
  {
    match parse(content)
    case Some(v) => Ok(v)
    case None =>
      match GreedyBraces(content)
      case None => Err("Unable to locate JSON in response.")
      case Some(m) =>
        match parse(m)
        case Some(v) => Ok(v)
        case None => Err("SyntaxError: Unexpected token in JSON")
  }

  /** A JSON object wrapped in prose without braces is recovered. */
  lemma ParseQuizJsonRecoversWrapped(pre: string, body: string, post: string, parse: string -> Option<Json>)
    requires forall k :: 0 <= k < |pre| ==> pre[k] != '{'
    requires forall k :: 0 <= k < |post| ==> post[k] != '}'
    requires |body| >= 2 && body[0] == '{' && body[|body| - 1] == '}'
    requires parse(pre + body + post).None? && parse(body).Some?
    ensures ParseQuizJson(pre + body + post, parse) == Ok(parse(body).value)
  {
    GreedyBracesUnique(pre, body, post);
  }
}
