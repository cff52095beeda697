/**
 * The SQLite-backed learner state (server/learnerStateDb.js): the review
 * schedule, the prerequisite gap, the fan-out of a quiz attempt into one
 * event per concept, the per-concept update rule, and the lagging-concepts
 * ranking.
 *
 * The two tables the core writes, `events` and `learner_concept_state`,
 * become the fields of `LearnerStateDb`; rows are kept in insertion order and
 * state rows are keyed by `(user_id, concept_id)`. The results of the
 * read-only SQL queries the core cannot compute itself (the recent answers of
 * `getRecentCorrectRate`, the join of `getLaggingConcepts`) are parameters.
 * Clock readings are an integer `now` in milliseconds.
 */
module LearnerStateDb {
  import opened Wrappers
  import opened JsonModel
  import Numbers
  import Sorting
  import LearnerModel
  import ScoreAttemptJs

  const DayMs: int := 86400000

  // ---------------------------------------------------------------------------
  // computeNextReview

  /** The number of days until the next review: 1, 3 or 7 by mastery, halved (rounded, at least 1) for a fragile concept. */
  function ReviewDays(mastery: real, fragility: real): (days: int)
    ensures days in {1, 2, 3, 4, 7}
    ensures fragility <= 0.6 ==> days == BaseDays(mastery)
    ensures fragility > 0.6 ==> days == if Numbers.Round(BaseDays(mastery) as real / 2.0) < 1 then 1 else Numbers.Round(BaseDays(mastery) as real / 2.0)
  {
    var days := BaseDays(mastery);
    if fragility > 0.6 then
      var half := Numbers.Round(days as real / 2.0);
      if half < 1 then 1 else half
    else days
  }

  /** `days` before the fragility adjustment. */
  function BaseDays(mastery: real): (days: int)
    ensures days == 1 <==> mastery < 0.4
    ensures days == 7 <==> mastery > 0.7
    ensures days == 3 <==> 0.4 <= mastery <= 0.7
  {
    if mastery < 0.4 then 1 else if mastery > 0.7 then 7 else 3
  }

  /** More mastery never brings the next review forward. */
  lemma ReviewDaysMonotone(m1: real, m2: real, fragility: real)
    requires m1 <= m2
    ensures ReviewDays(m1, fragility) <= ReviewDays(m2, fragility)
  {
  }

  /** A fragile concept is never reviewed later than a sturdy one with the same mastery. */
  lemma FragileReviewedSooner(mastery: real, fragile: real, sturdy: real)
    requires fragile > 0.6 >= sturdy
    ensures ReviewDays(mastery, fragile) <= ReviewDays(mastery, sturdy)
  {
  }

  /** `computeNextReview(mastery, fragility)`: `days` calendar days after `now` (time zones and DST are not modelled). */
  function NextReviewAt(now: int, mastery: real, fragility: real): (t: int)
    ensures now + DayMs <= t <= now + 7 * DayMs
    ensures t == now + ReviewDays(mastery, fragility) * DayMs
  {
    now + ReviewDays(mastery, fragility) * DayMs
  }

  // ---------------------------------------------------------------------------
  // getRecentCorrectRate and computePrereqGap

  function CountTrue(s: seq<bool>): (n: nat)
    ensures n <= |s|
  {
    if s == [] then 0 else CountTrue(s[..|s| - 1]) + if s[|s| - 1] then 1 else 0
  }

  /** `getRecentCorrectRate` over the rows its query returned: the share of correct answers, 0 with no rows. */
  function CorrectRate(recent: seq<bool>): (rate: real)
    ensures 0.0 <= rate <= 1.0
    ensures recent == [] ==> rate == 0.0
    ensures rate == 1.0 <==> recent != [] && CountTrue(recent) == |recent|
  {
    if recent == [] then 0.0 else CountTrue(recent) as real / |recent| as real
  }

  /** The concepts `PREREQ_EDGES` lists as prerequisites of `conceptId`, in edge order. */
  function PrereqsOf(edges: seq<LearnerModel.PrereqEdge>, conceptId: string): (r: seq<string>)
    ensures |r| <= |edges|
    ensures forall x :: x in r <==> LearnerModel.PrereqEdge(x, conceptId) in edges
  {
    if edges == [] then []
    else
      var e := edges[|edges| - 1];
      PrereqsOf(edges[..|edges| - 1], conceptId) + if e.to == conceptId then [e.from] else []
  }

  /** How far one prerequisite's mastery is below 0.7, and 0 when it is not. */
  function Shortfall(mastery: real): (g: real)
    ensures g >= 0.0
    ensures g == 0.0 <==> mastery >= 0.7
  {
    if 0.7 - mastery > 0.0 then 0.7 - mastery else 0.0
  }

  /** The stored mastery of a concept, 0.4 when there is no row or no number. */
  function StoredMastery(rows: map<StateKey, ConceptRow>, userId: string, conceptId: string): real {
    var key := StateKey(userId, conceptId);
    if key in rows && rows[key].mastery.Some? then rows[key].mastery.value else LearnerModel.Prior
  }

  function Shortfalls(prereqs: seq<string>, rows: map<StateKey, ConceptRow>, userId: string): (r: seq<real>)
    ensures |r| == |prereqs|
    ensures forall k :: 0 <= k < |r| ==> r[k] == Shortfall(StoredMastery(rows, userId, prereqs[k]))
  {
    seq(|prereqs|, k requires 0 <= k < |prereqs| => Shortfall(StoredMastery(rows, userId, prereqs[k])))
  }

  /** `computePrereqGap`: the mean shortfall of the prerequisites, clamped into [0, 1]; 0 without prerequisites. */
  function PrereqGap(edges: seq<LearnerModel.PrereqEdge>, rows: map<StateKey, ConceptRow>, userId: string, conceptId: string): (gap: real)
    ensures 0.0 <= gap <= 1.0
    ensures PrereqsOf(edges, conceptId) == [] ==> gap == 0.0
  {
    var prereqs := PrereqsOf(edges, conceptId);
    if prereqs == [] then 0.0
    else Numbers.Clamp01(LearnerModel.Average(Shortfalls(prereqs, rows, userId)))
  }

  /** A concept whose prerequisites all sit at mastery 0.7 or above has no prerequisite gap. */
  lemma MasteredPrereqsNoGap(edges: seq<LearnerModel.PrereqEdge>, rows: map<StateKey, ConceptRow>, userId: string, conceptId: string)
    requires forall x :: x in PrereqsOf(edges, conceptId) ==> StoredMastery(rows, userId, x) >= 0.7
    ensures PrereqGap(edges, rows, userId, conceptId) == 0.0
  {
    var prereqs := PrereqsOf(edges, conceptId);
    if prereqs != [] {
      var s := Shortfalls(prereqs, rows, userId);
      assert forall k :: 0 <= k < |s| ==> s[k] == 0.0 by {
        forall k | 0 <= k < |s| ensures s[k] == 0.0 {
          assert prereqs[k] in prereqs;
        }
      }
      LearnerModel.AverageBounds(s, 0.0, 0.0);
    }
  }

  /** A prerequisite the learner has never touched contributes its full 0.3 shortfall: one such prerequisite alone gives a gap of 0.3. */
  lemma UntouchedPrereqGap(rows: map<StateKey, ConceptRow>, userId: string, prereq: string, conceptId: string)
    requires StateKey(userId, prereq) !in rows
    ensures PrereqGap([LearnerModel.PrereqEdge(prereq, conceptId)], rows, userId, conceptId) == 0.3
  {
    var edges := [LearnerModel.PrereqEdge(prereq, conceptId)];
    assert PrereqsOf(edges, conceptId) == [prereq] by {
      assert edges[..0] == [];
    }
    var s := Shortfalls([prereq], rows, userId);
    assert s == [0.3];
    LearnerModel.AverageBounds(s, 0.3, 0.3);
  }

  // ---------------------------------------------------------------------------
  // recordQuizAttemptEvents

  /** The JSON payload stored with each event. */
  datatype Payload = Payload(quizSessionId: Option<Json>, itemId: Option<Json>, courseId: Json,
                             primaryConceptId: Json, secondaryConceptIds: Json, correct: bool,
                             confidence: Option<real>, timeSec: Option<real>, difficulty: real, isTransfer: bool)

  /** A row of `events` (its random UUID is not modelled). */
  datatype Event = Event(kind: string, ts: int, userId: string, courseId: Json, conceptId: Json, correct: int, payload: Payload)

  /** `v || null`. */
  function OrNull(v: Option<Json>): (r: Json)
    ensures JsTruthy(v) ==> r == v.value
    ensures !JsTruthy(v) ==> r == JNull
  {
    if JsTruthy(v) then v.value else JNull
  }

  /** `responses?.[question.id] || {}`. */
  function ResponseFor(responses: Option<Json>, question: Json): (r: Json)
    ensures r == JObj([]) || JsTruthy(Some(r))
  {
    var entry := MemberOpt(responses, ScoreAttemptJs.PropertyKey(Get(question, "id")));
    if JsTruthy(entry) then entry.value else JObj([])
  }

  /** `response.value === question.answerKey?.value`: an absent value on both sides counts as equal. */
  predicate AnsweredCorrectly(responses: Option<Json>, question: Json) {
    StrictEq(Get(ResponseFor(responses, question), "value"), GetOpt(Get(question, "answerKey"), "value"))
  }

  /** `[...(v || [])]`: an array's items, a string's characters, and a TypeError for any other truthy value. */
  function SpreadItems(v: Option<Json>): (r: Result<seq<Json>>)
    ensures !JsTruthy(v) ==> r == Ok([])
    ensures v.Some? && v.value.JArr? ==> r == Ok(v.value.items)
    ensures r.Err? <==> JsTruthy(v) && !v.value.JArr? && !v.value.JStr?
  {
    if !JsTruthy(v) then Ok([])
    else match v.value
      case JArr(items) => Ok(items)
      case JStr(s) => Ok(Chars(s))
      case _ => Err("TypeError: secondaryConceptIds is not iterable")
  }

  /** `[question.primaryConceptId, ...(question.secondaryConceptIds || [])].filter(Boolean)`. */
  function ConceptIds(question: Json): (r: Result<seq<Json>>)
    ensures r.Ok? ==> forall x :: x in r.value ==> JsTruthy(Some(x))
    ensures r.Err? <==> SpreadItems(Get(question, "secondaryConceptIds")).Err?
  {
    var secondary := SpreadItems(Get(question, "secondaryConceptIds"));
    if secondary.Err? then Err(secondary.error)
    else
      var primary := Get(question, "primaryConceptId");
      Ok(KeepTruthy((if primary.Some? then [primary.value] else []) + secondary.value))
  }

  function PayloadFor(quizSessionId: Option<Json>, courseId: Option<Json>, question: Json, responses: Option<Json>): Payload {
    var response := ResponseFor(responses, question);
    var difficulty := AsNum(Get(question, "difficulty"));
    var secondary := Get(question, "secondaryConceptIds");
    Payload(quizSessionId, Get(question, "id"), OrNull(courseId), OrNull(Get(question, "primaryConceptId")),
      if JsTruthy(secondary) then secondary.value else JArr([]),
      AnsweredCorrectly(responses, question), AsNum(Get(response, "confidence")), AsNum(Get(response, "timeSec")),
      if difficulty.Some? then difficulty.value else 0.5, JsTruthy(Get(question, "isTransfer")))
  }

  /** The event of one question for one concept (`JNull` when the question names none). */
  function EventOf(userId: string, courseId: Option<Json>, payload: Payload, conceptId: Json, now: int): Event {
    Event("QUIZ_ATTEMPT", now, userId, OrNull(courseId), conceptId, if payload.correct then 1 else 0, payload)
  }

  /** All events of one question get the current time and the answer's correctness as 1 or 0. */
  predicate Stamped(e: Event, now: int) {
    e.kind == "QUIZ_ATTEMPT" && e.ts == now && (e.correct == 0 || e.correct == 1)
  }

  /** Reading the question throws: it is `null`, or its secondary concept ids are truthy but not iterable. */
  predicate Throws(question: Json) {
    question == JNull || SpreadItems(Get(question, "secondaryConceptIds")).Err?
  }

  /** The events one question of the attempt fans out into; a `null` question throws on `question.id`. */
  function QuestionEvents(userId: string, courseId: Option<Json>, quizSessionId: Option<Json>, question: Json,
                          responses: Option<Json>, now: int): (r: Result<seq<Event>>)
    ensures r.Err? <==> Throws(question)
    ensures r.Ok? ==> |r.value| >= 1 && forall k :: 0 <= k < |r.value| ==> Stamped(r.value[k], now)
  {
    if question == JNull then Err("TypeError: Cannot read properties of null (reading 'id')")
    else
      var ids := ConceptIds(question);
      if ids.Err? then Err(ids.error)
      else
        var payload := PayloadFor(quizSessionId, courseId, question, responses);
        if ids.value == [] then Ok([EventOf(userId, courseId, payload, JNull, now)])
        else Ok(seq(|ids.value|, k requires 0 <= k < |ids.value| => EventOf(userId, courseId, payload, ids.value[k], now)))
  }

  /**
   * One event per truthy concept id of the question, primary first, each
   * carrying the correctness of the answer; exactly one event with a `null`
   * concept when the question names no concept.
   */
  lemma QuestionEventsFanOut(userId: string, courseId: Option<Json>, quizSessionId: Option<Json>, question: Json,
                             responses: Option<Json>, now: int)
    requires question != JNull && ConceptIds(question).Ok?
    ensures var r := QuestionEvents(userId, courseId, quizSessionId, question, responses, now);
      var ids := ConceptIds(question).value;
      && r.Ok?
      && (ids == [] ==> |r.value| == 1 && r.value[0].conceptId == JNull)
      && (ids != [] ==> |r.value| == |ids| && forall k :: 0 <= k < |ids| ==> r.value[k].conceptId == ids[k])
      && forall k :: 0 <= k < |r.value| ==> (r.value[k].correct == 1 <==> AnsweredCorrectly(responses, question))
  {
  }

  /** The events of the whole attempt, question by question; the first question that throws aborts the call. */
  function AttemptEvents(userId: string, courseId: Option<Json>, quizSessionId: Option<Json>, questions: seq<Json>,
                         responses: Option<Json>, now: int): (r: Result<seq<Event>>)
    ensures r.Ok? ==> |r.value| >= |questions|
    ensures r.Ok? ==> forall k :: 0 <= k < |r.value| ==> Stamped(r.value[k], now)
  {
    if questions == [] then Ok([])
    else
      var prev := AttemptEvents(userId, courseId, quizSessionId, questions[..|questions| - 1], responses, now);
      if prev.Err? then prev
      else
        var last := QuestionEvents(userId, courseId, quizSessionId, questions[|questions| - 1], responses, now);
        if last.Err? then last
        else Ok(prev.value + last.value)
  }

  /** Some question of the list throws when read. */
  predicate SomeThrows(questions: seq<Json>) {
    exists k :: 0 <= k < |questions| && Throws(questions[k])
  }

  /** An element of a non-empty list satisfies `p` exactly when one before the last does, or the last one does. */
  lemma ExistsSnoc<T>(s: seq<T>, init: seq<T>, p: T -> bool)
    requires s != [] && init == s[..|s| - 1]
    ensures (exists k :: 0 <= k < |s| && p(s[k])) <==> (exists k :: 0 <= k < |init| && p(init[k])) || p(s[|s| - 1])
  {
    if exists k :: 0 <= k < |init| && p(init[k]) {
      var k :| 0 <= k < |init| && p(init[k]);
      assert s[k] == init[k];
    }
    if (exists k :: 0 <= k < |s| && p(s[k])) && !p(s[|s| - 1]) {
      var k :| 0 <= k < |s| && p(s[k]);
      assert init[k] == s[k];
    }
  }

  /** Some question throws exactly when one before the last does, or the last one does. */
  lemma SomeThrowsSnoc(questions: seq<Json>)
    requires questions != []
    ensures SomeThrows(questions) <==> SomeThrows(questions[..|questions| - 1]) || Throws(questions[|questions| - 1])
  {
    ExistsSnoc(questions, questions[..|questions| - 1], q => Throws(q));
  }

  /** The attempt fails exactly when one of its questions does. */
  lemma {:induction false} AttemptEventsFail(userId: string, courseId: Option<Json>, quizSessionId: Option<Json>,
                                             questions: seq<Json>, responses: Option<Json>, now: int)
    ensures AttemptEvents(userId, courseId, quizSessionId, questions, responses, now).Err? <==> SomeThrows(questions)
  {
    if questions != [] {
      var n := |questions| - 1;
      var prev := AttemptEvents(userId, courseId, quizSessionId, questions[..n], responses, now);
      var last := QuestionEvents(userId, courseId, quizSessionId, questions[n], responses, now);
      assert AttemptEvents(userId, courseId, quizSessionId, questions, responses, now).Err? <==> prev.Err? || last.Err?;
      AttemptEventsFail(userId, courseId, quizSessionId, questions[..n], responses, now);
      SomeThrowsSnoc(questions);
    }
  }

  lemma AttemptEventsSnoc(userId: string, courseId: Option<Json>, quizSessionId: Option<Json>, questions: seq<Json>,
                          responses: Option<Json>, now: int, i: nat)
    requires i < |questions|
    ensures var prev := AttemptEvents(userId, courseId, quizSessionId, questions[..i], responses, now);
      var last := QuestionEvents(userId, courseId, quizSessionId, questions[i], responses, now);
      AttemptEvents(userId, courseId, quizSessionId, questions[..i + 1], responses, now) ==
        if prev.Err? then prev else if last.Err? then last else Ok(prev.value + last.value)
  {
    assert questions[..i + 1][..i] == questions[..i];
  }

  // ---------------------------------------------------------------------------
  // updateConceptStateForAttempt

  datatype StateKey = StateKey(userId: string, conceptId: string)

  /** A row of `learner_concept_state`; a column the row does not hold as a number is `None`. */
  datatype ConceptRow = ConceptRow(mastery: Option<real>, fragility: Option<real>, confidence: Option<real>,
                                   prereqGap: Option<real>, attempts: int, streakSuccess: int, streakFail: int,
                                   lastPracticedAt: Option<int>, nextReviewAt: Option<int>)

  datatype Scores = Scores(mastery: real, fragility: real, confidence: real)

  /** What `updateConceptStateForAttempt` returns: the scores before, and after with the gap and the review time. */
  datatype Change = Change(before: Scores, after: Scores, prereqGap: real, nextReviewAt: int)

  /** The arguments of one update; `weight` defaults to 1 at the call site. */
  datatype Attempt = Attempt(correct: bool, difficulty: Option<real>, confidence: Option<real>, weight: real)

  /** `difficultyFactor = 0.5 + (difficulty || 0.5) / 2`. */
  function DifficultyFactor(difficulty: Option<real>): real {
    var d := if difficulty.Some? && difficulty.value != 0.0 then difficulty.value else 0.5;
    0.5 + d / 2.0
  }

  /** `clamp(mastery + 0.06 * difficultyFactor * (correct ? 1 : -1) * weight)`. */
  function NextMastery(mastery: real, a: Attempt): (m: real)
    ensures 0.0 <= m <= 1.0
  {
    Numbers.Clamp01(mastery + 0.06 * DifficultyFactor(a.difficulty) * (if a.correct then 1.0 else -1.0) * a.weight)
  }

  /** A correct answer of non-negative weight and difficulty never lowers mastery, a wrong one never raises it. */
  lemma NextMasteryDirection(mastery: real, a: Attempt)
    requires 0.0 <= mastery <= 1.0 && a.weight >= 0.0
    requires a.difficulty.Some? ==> a.difficulty.value >= 0.0
    ensures a.correct ==> NextMastery(mastery, a) >= mastery
    ensures !a.correct ==> NextMastery(mastery, a) <= mastery
  {
    var f := DifficultyFactor(a.difficulty);
    assert f >= 0.5;
    Numbers.MulNonneg(0.06 * f, a.weight);
  }

  /** `typeof confidence === 'number' ? clamp(stored * 0.7 + confidence * 0.3) : stored`. */
  function NextConfidence(stored: real, confidence: Option<real>): (c: real)
    ensures confidence.None? ==> c == stored
    ensures confidence.Some? ==> 0.0 <= c <= 1.0
    ensures confidence.Some? && 0.0 <= stored <= 1.0 && 0.0 <= confidence.value <= 1.0 ==>
      Numbers.Min(stored, confidence.value) <= c <= Numbers.Max(stored, confidence.value)
  {
    if confidence.Some? then Numbers.Clamp01(stored * 0.7 + confidence.value * 0.3) else stored
  }

  /** The row after one update and what the call returns. */
  function Updated(existing: Option<ConceptRow>, a: Attempt, recent: seq<bool>, gap: real, now: int): (r: (ConceptRow, Change))
    ensures var old_attempts := if existing.Some? then existing.value.attempts else 0;
      r.0.attempts == old_attempts + 1
    ensures var s := if existing.Some? then existing.value.streakSuccess else 0;
      var f := if existing.Some? then existing.value.streakFail else 0;
      (a.correct ==> r.0.streakSuccess == s + 1 && r.0.streakFail == 0)
      && (!a.correct ==> r.0.streakSuccess == 0 && r.0.streakFail == f + 1)
    ensures r.0.mastery == Some(r.1.after.mastery) && 0.0 <= r.1.after.mastery <= 1.0
    ensures r.1.after.mastery == NextMastery(r.1.before.mastery, a)
    ensures r.1.before.mastery == if existing.Some? && existing.value.mastery.Some? then existing.value.mastery.value else LearnerModel.Prior
    ensures r.1.after.fragility == 1.0 - CorrectRate(recent)
    ensures r.1.after.confidence == NextConfidence(r.1.before.confidence, a.confidence)
    ensures r.1.nextReviewAt == NextReviewAt(now, r.1.after.mastery, r.1.after.fragility)
    ensures r.0.lastPracticedAt == Some(now) && r.0.nextReviewAt == Some(r.1.nextReviewAt) && r.0.prereqGap == Some(gap)
  {
    var mastery := if existing.Some? && existing.value.mastery.Some? then existing.value.mastery.value else LearnerModel.Prior;
    var confidence := if existing.Some? && existing.value.confidence.Some? then existing.value.confidence.value else 0.5;
    var streakSuccess := if existing.Some? then existing.value.streakSuccess else 0;
    var streakFail := if existing.Some? then existing.value.streakFail else 0;
    var attempts := if existing.Some? then existing.value.attempts else 0;
    var nextMastery := NextMastery(mastery, a);
    var fragility := Numbers.Clamp01(1.0 - CorrectRate(recent));
    var nextConfidence := NextConfidence(confidence, a.confidence);
    var nextReview := NextReviewAt(now, nextMastery, fragility);
    var before := Scores(mastery, if existing.Some? && existing.value.fragility.Some? then existing.value.fragility.value else 0.5, confidence);
    (ConceptRow(Some(nextMastery), Some(fragility), Some(nextConfidence), Some(gap), attempts + 1,
                if a.correct then streakSuccess + 1 else 0, if a.correct then 0 else streakFail + 1, Some(now), Some(nextReview)),
     Change(before, Scores(nextMastery, fragility, nextConfidence), gap, nextReview))
  }

  /** A row every update keeps well formed: scores in [0, 1], a positive attempt count, and at most one running streak. */
  predicate RowValid(r: ConceptRow) {
    && r.mastery.Some? && 0.0 <= r.mastery.value <= 1.0
    && r.fragility.Some? && 0.0 <= r.fragility.value <= 1.0
    && r.confidence.Some? && 0.0 <= r.confidence.value <= 1.0
    && r.prereqGap.Some? && 0.0 <= r.prereqGap.value <= 1.0
    && r.attempts >= 1 && r.streakSuccess >= 0 && r.streakFail >= 0
    && (r.streakSuccess == 0 || r.streakFail == 0)
    && r.streakSuccess + r.streakFail <= r.attempts
  }

  /** Updating a well-formed row (or creating one) with a confidence in [0, 1] yields a well-formed row. */
  lemma UpdatedValid(existing: Option<ConceptRow>, a: Attempt, recent: seq<bool>, gap: real, now: int)
    requires existing.Some? ==> RowValid(existing.value)
    requires a.confidence.Some? ==> 0.0 <= a.confidence.value <= 1.0
    requires 0.0 <= gap <= 1.0
    ensures RowValid(Updated(existing, a, recent, gap, now).0)
  {
  }

  // ---------------------------------------------------------------------------
  // getLaggingConcepts

  /** A row of the lagging-concepts query. */
  datatype LagRow = LagRow(conceptId: string, title: string, mastery: real, fragility: real, prereqGap: real,
                           nextReviewAt: Option<int>, confidence: real)

  datatype Lagging = Lagging(conceptId: string, title: string, mastery: real, fragility: real, prereqGap: real,
                             nextReviewAt: Option<int>, priority: real)

  /** The priority of one row, before rounding. */
  function RawPriority(row: LagRow, now: int): real
  {
    var overdue := row.nextReviewAt.Some? && row.nextReviewAt.value < now;
    var falseConfidence := row.confidence > 0.7 && row.mastery < 0.5;
    (1.0 - row.mastery) + row.fragility + row.prereqGap + (if overdue then 0.3 else 0.0) + (if falseConfidence then 0.2 else 0.0)
  }

  function LaggingOf(row: LagRow, now: int): (l: Lagging)
    ensures l.conceptId == row.conceptId && l.mastery == row.mastery
    ensures RawPriority(row, now) - 0.0005 < l.priority <= RawPriority(row, now) + 0.0005
  {
    Lagging(row.conceptId, row.title, row.mastery, row.fragility, row.prereqGap, row.nextReviewAt, Numbers.Round3(RawPriority(row, now)))
  }

  /** An overdue review adds 0.3 to the priority, all else equal. */
  lemma OverdueRaisesPriority(row: LagRow, now: int, due: int)
    requires due < now
    ensures RawPriority(row.(nextReviewAt := Some(due)), now) == RawPriority(row.(nextReviewAt := None), now) + 0.3
  {
  }

  /** A confident answer on a weak concept (confidence above 0.7, mastery below 0.5) adds 0.2, all else equal. */
  lemma FalseConfidenceRaisesPriority(row: LagRow, now: int, confident: real)
    requires row.mastery < 0.5 && confident > 0.7
    ensures RawPriority(row.(confidence := confident), now) == RawPriority(row.(confidence := 0.0), now) + 0.2
  {
  }

  function LagPriority(l: Lagging): real {
    l.priority
  }

  function LaggingAll(rows: seq<LagRow>, now: int): (r: seq<Lagging>)
    ensures |r| == |rows|
    ensures forall k :: 0 <= k < |rows| ==> r[k] == LaggingOf(rows[k], now)
  {
    seq(|rows|, k requires 0 <= k < |rows| => LaggingOf(rows[k], now))
  }

  /** `getLaggingConcepts` after its query: at most ten rows, highest priority first. */
  function LaggingConcepts(rows: seq<LagRow>, now: int): (r: seq<Lagging>)
    ensures |r| == if |rows| < 10 then |rows| else 10
  {
    Sorting.Take(Sorting.SortDesc(LaggingAll(rows, now), LagPriority), 10)
  }

  /** The result is sorted by priority, drawn from the rows, and no row left out has a higher priority than one kept. */
  lemma LaggingConceptsTopTen(rows: seq<LagRow>, now: int)
    ensures var r := LaggingConcepts(rows, now);
      var all := LaggingAll(rows, now);
      && Sorting.SortedDesc(r, LagPriority)
      && multiset(r) <= multiset(all)
      && forall a :: a in multiset(all) - multiset(r) ==> forall i :: 0 <= i < |r| ==> r[i].priority >= a.priority
  {
    Sorting.TopN(LaggingAll(rows, now), LagPriority, 10);
  }

  // ---------------------------------------------------------------------------
  // The two tables

  class LearnerStateDbTables {
    var events: seq<Event>
    var conceptState: map<StateKey, ConceptRow>

    /** Every stored concept row is well formed. */
    predicate Valid()
      reads this
    {
      forall k :: k in conceptState ==> RowValid(conceptState[k])
    }

    constructor ()
      ensures events == [] && conceptState == map[] && Valid()
    {
      events := [];
      conceptState := map[];
    }

    /**
     * `recordQuizAttemptEvents`: builds the events question by question and
     * inserts them in one transaction, so a question that throws leaves the
     * table as it was.
     */
    method RecordQuizAttemptEvents(userId: string, courseId: Option<Json>, quizSessionId: Option<Json>, quiz: Json,
                                   responses: Option<Json>, now: int) returns (r: Result<seq<Event>>)
      modifies this
      ensures AsArr(Get(quiz, "questions")).None? ==> r.Err?
      ensures AsArr(Get(quiz, "questions")).Some? ==>
        r == AttemptEvents(userId, courseId, quizSessionId, AsArr(Get(quiz, "questions")).value, responses, now)
      ensures r.Ok? ==> events == old(events) + r.value
      ensures r.Err? ==> events == old(events)
      ensures conceptState == old(conceptState)
    {
      var qs := AsArr(Get(quiz, "questions"));
      if qs.None? {
        return Err("TypeError: quiz.questions.forEach is not a function");
      }
      r := BuildAttemptEvents(userId, courseId, quizSessionId, qs.value, responses, now);
      if r.Ok? {
        events := events + r.value;
      }
    }

    /**
     * `updateConceptStateForAttempt`: nothing happens without a concept id;
     * otherwise the row of `(userId, conceptId)` is upserted from the stored
     * row, the recent answers and the prerequisites' stored mastery.
     */
    method UpdateConceptStateForAttempt(userId: string, conceptId: Option<string>, a: Attempt, recent: seq<bool>,
                                        edges: seq<LearnerModel.PrereqEdge>, now: int) returns (r: Option<Change>)
      modifies this
      ensures conceptId.None? || conceptId == Some("") ==> r.None? && conceptState == old(conceptState)
      ensures conceptId.Some? && conceptId.value != "" ==>
        var key := StateKey(userId, conceptId.value);
        var gap := PrereqGap(edges, old(conceptState), userId, conceptId.value);
        var u := Updated(if key in old(conceptState) then Some(old(conceptState)[key]) else None, a, recent, gap, now);
        r == Some(u.1) && conceptState == old(conceptState)[key := u.0]
      ensures events == old(events)
      ensures old(Valid()) && (a.confidence.Some? ==> 0.0 <= a.confidence.value <= 1.0) ==> Valid()
    {
      if conceptId.None? || conceptId.value == "" {
        return None;
      }
      var key := StateKey(userId, conceptId.value);
      var existing := if key in conceptState then Some(conceptState[key]) else None;
      var gap := PrereqGap(edges, conceptState, userId, conceptId.value);
      if Valid() && (a.confidence.Some? ==> 0.0 <= a.confidence.value <= 1.0) {
        UpdatedValid(existing, a, recent, gap, now);
      }
      var u := Updated(existing, a, recent, gap, now);
      conceptState := conceptState[key := u.0];
      r := Some(u.1);
    }
  }

  /** The `forEach` over the questions, pushing each question's events; a question that throws ends the call. */
  method BuildAttemptEvents(userId: string, courseId: Option<Json>, quizSessionId: Option<Json>, questions: seq<Json>,
                            responses: Option<Json>, now: int) returns (r: Result<seq<Event>>)
    ensures r == AttemptEvents(userId, courseId, quizSessionId, questions, responses, now)
  {
    var built: seq<Event> := [];
    var i := 0;
    while i < |questions|
      invariant 0 <= i <= |questions|
      invariant AttemptEvents(userId, courseId, quizSessionId, questions[..i], responses, now) == Ok(built)
    {
      var next := QuestionEvents(userId, courseId, quizSessionId, questions[i], responses, now);
      AttemptEventsStep(userId, courseId, quizSessionId, questions, responses, now, i, built);
      if next.Err? {
        return Err(next.error);
      }
      built := built + next.value;
      i := i + 1;
    }
    assert questions[..i] == questions;
    r := Ok(built);
  }

  /** One turn of the `forEach`: the next question's events are appended, or its error ends the whole call. */
  lemma AttemptEventsStep(userId: string, courseId: Option<Json>, quizSessionId: Option<Json>, questions: seq<Json>,
                          responses: Option<Json>, now: int, i: nat, built: seq<Event>)
    requires i < |questions|
    requires AttemptEvents(userId, courseId, quizSessionId, questions[..i], responses, now) == Ok(built)
    ensures var next := QuestionEvents(userId, courseId, quizSessionId, questions[i], responses, now);
      && (next.Err? ==> AttemptEvents(userId, courseId, quizSessionId, questions, responses, now) == Err(next.error))
      && (next.Ok? ==> AttemptEvents(userId, courseId, quizSessionId, questions[..i + 1], responses, now) == Ok(built + next.value))
  {
    AttemptEventsSnoc(userId, courseId, quizSessionId, questions, responses, now, i);
    if QuestionEvents(userId, courseId, quizSessionId, questions[i], responses, now).Err? {
      AttemptEventsStop(userId, courseId, quizSessionId, questions, responses, now, i + 1);
    }
  }

  /** Once a question has thrown, every longer prefix throws the same error. */
  lemma {:induction false} AttemptEventsStop(userId: string, courseId: Option<Json>, quizSessionId: Option<Json>,
                                             questions: seq<Json>, responses: Option<Json>, now: int, i: nat)
    requires 0 < i <= |questions|
    requires AttemptEvents(userId, courseId, quizSessionId, questions[..i], responses, now).Err?
    ensures AttemptEvents(userId, courseId, quizSessionId, questions, responses, now) ==
      AttemptEvents(userId, courseId, quizSessionId, questions[..i], responses, now)
    decreases |questions| - i
  {
    if i == |questions| {
      assert questions[..i] == questions;
    } else {
      AttemptEventsSnoc(userId, courseId, quizSessionId, questions, responses, now, i);
      AttemptEventsStop(userId, courseId, quizSessionId, questions, responses, now, i + 1);
    }
  }
}
