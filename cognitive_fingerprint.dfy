/**
 * The cognitive fingerprint (server/cognitiveFingerprint.js): tag parsing,
 * the error-type scores derived from a learner's interaction events, the
 * modality preferences those events nudge, and the personalization plan
 * built from a fingerprint.
 *
 * An event's `createdAt || timestamp` is the millisecond time it denotes; its
 * payload is the JSON text stored with it, read through a parser given as a
 * parameter (`None` for a parse error). `interactionType || interaction_type`
 * and `questionId || question_id` are each one optional field.
 */
module CognitiveFingerprint {
  import opened Wrappers
  import opened JsonModel
  import opened Strings
  import Numbers
  import Sorting

  const ErrorTypes: seq<string> := [
    "ALGEBRA_SLIP",
    "VARIABLE_INTRODUCTION_STRUGGLE",
    "DEFINITIONS_VS_APPLICATIONS_CONFUSION",
    "INTUITION_FAILURE",
    "UNIT_DIMENSION_MISMATCH",
    "OVERGENERALIZATION",
    "WORKING_MEMORY_OVERLOAD",
    "MISREADING_QUESTION"
  ]

  const AlgebraSlip := "ALGEBRA_SLIP"
  const VariableStruggle := "VARIABLE_INTRODUCTION_STRUGGLE"
  const IntuitionFailure := "INTUITION_FAILURE"

  // ---------------------------------------------------------------------------
  // parseTags

  /** A tag as the comma-separated form yields it: non-empty, comma-free, trimmed. */
  predicate CleanTag(t: string) {
    t != "" && ',' !in t && !IsSpace(t[0]) && !IsSpace(t[|t| - 1])
  }

  /** `s.split(',').map((t) => t.trim()).filter(Boolean)`. */
  function CommaParts(s: string): (r: seq<string>)
    ensures forall k :: 0 <= k < |r| ==> CleanTag(r[k])
  {
    NonEmptyTrimmed(SplitOn(s, ','))
  }

  function NonEmptyTrimmed(parts: seq<string>): (r: seq<string>)
    requires forall k :: 0 <= k < |parts| ==> ',' !in parts[k]
    ensures |r| <= |parts|
    ensures forall k :: 0 <= k < |r| ==> CleanTag(r[k])
  {
    if parts == [] then []
    else
      var t := Trim(parts[0]);
      assert forall k :: 0 <= k < |parts[1..]| ==> parts[1..][k] == parts[k + 1];
      var rest := NonEmptyTrimmed(parts[1..]);
      if t != "" then
        TrimmedTagClean(parts[0]);
        ConsCleanTags(t, rest);
        [t] + rest
      else rest
  }

  /** A non-blank trimmed part without commas is a clean tag. */
  lemma TrimmedTagClean(s: string)
    requires ',' !in s && Trim(s) != ""
    ensures CleanTag(Trim(s))
  {
    TrimKeeps(s, ',');
  }

  lemma ConsCleanTags(t: string, rest: seq<string>)
    requires CleanTag(t) && forall k :: 0 <= k < |rest| ==> CleanTag(rest[k])
    ensures forall k :: 0 <= k < |[t] + rest| ==> CleanTag(([t] + rest)[k])
  {
    forall k | 0 <= k < |[t] + rest| ensures CleanTag(([t] + rest)[k]) {
      if k > 0 {
        assert ([t] + rest)[k] == rest[k - 1];
      }
    }
  }

  /** Trimming removes characters and adds none. */
  lemma TrimKeeps(s: string, c: char)
    requires c !in s
    ensures c !in Trim(s)
  {
    var i, j :| 0 <= i <= j <= |s| && Trim(s) == s[i..j];
  }

  function Strs(ss: seq<string>): (r: seq<Json>)
    ensures |r| == |ss|
    ensures forall k :: 0 <= k < |ss| ==> r[k] == JStr(ss[k])
  {
    seq(|ss|, k requires 0 <= k < |ss| => JStr(ss[k]))
  }

  /**
   * `parseTags(tags)`: an array's truthy entries; a string holding a JSON
   * array, that array's truthy entries, any other JSON value nothing, and
   * text that does not parse its comma-separated, trimmed, non-empty parts;
   * anything else nothing.
   */
  function ParseTags(tags: Option<Json>, parse: string -> Option<Json>): (r: seq<Json>)
    ensures forall x :: x in r ==> JsTruthy(Some(x))
    ensures tags.Some? && tags.value.JArr? ==> r == KeepTruthy(tags.value.items)
    ensures tags.Some? && tags.value.JStr? && parse(tags.value.s).None? ==> r == Strs(CommaParts(tags.value.s))
    ensures tags.Some? && tags.value.JStr? && parse(tags.value.s).Some? ==>
      r == if parse(tags.value.s).value.JArr? then KeepTruthy(parse(tags.value.s).value.items) else []
    ensures tags.None? || !(tags.value.JArr? || tags.value.JStr?) ==> r == []
  {
    if tags.None? then []
    else match tags.value
      case JArr(items) => KeepTruthy(items)
      case JStr(s) =>
        (match parse(s)
         case Some(JArr(items)) => KeepTruthy(items)
         case Some(_) => []
         case None => Strs(CommaParts(s)))
      case _ => []
  }

  // ---------------------------------------------------------------------------
  // Events

  datatype CogEvent = CogEvent(time: int, payload: Option<string>, interaction: Option<string>, questionId: Option<string>)

  /** `JSON.parse(evt.payload || '{}')`, and `{}` when that throws. */
  function PayloadOf(e: CogEvent, parse: string -> Option<Json>): Json {
    if e.payload.None? || e.payload.value == "" then JObj([])
    else match parse(e.payload.value)
      case Some(v) => v
      case None => JObj([])
  }

  function EarliestFirst(e: CogEvent): real {
    -(e.time as real)
  }

  /** `[...events].sort((a, b) => time(a) - time(b))`: stable, earliest first. */
  function Chronological(events: seq<CogEvent>): (r: seq<CogEvent>)
    ensures multiset(r) == multiset(events)
    ensures forall i, j :: 0 <= i < j < |r| ==> r[i].time <= r[j].time
  {
    var r := Sorting.SortDesc(events, EarliestFirst);
    assert forall i, j :: 0 <= i < j < |r| ==> EarliestFirst(r[i]) >= EarliestFirst(r[j]);
    r
  }

  predicate Answered(e: CogEvent) {
    e.interaction == Some("ANSWER_SUBMITTED")
  }

  // ---------------------------------------------------------------------------
  // summarizeErrorTypes

  /** `payload.error_class || payload.errorType`, when it names a known error type. */
  function ExplicitError(p: Json): (r: Option<string>)
    ensures r.Some? ==> r.value in ErrorTypes
  {
    var v := if JsTruthy(Get(p, "error_class")) then Get(p, "error_class") else Get(p, "errorType");
    if v.Some? && v.value.JStr? && v.value.s in ErrorTypes then Some(v.value.s) else None
  }

  /** An answer marked `correct === false` with `(payload.confidence || 0) >= 4`. */
  function ConfidentWrong(e: CogEvent, p: Json): (flagged: bool)
    ensures flagged ==> Answered(e) && Get(p, "correct") == Some(JBool(false))
    ensures !JsTruthy(Get(p, "confidence")) ==> !flagged
  {
    var c := Get(p, "confidence");
    Answered(e) && Get(p, "correct") == Some(JBool(false)) && JsTruthy(c) && JsAtLeast(c, 4.0)
  }

  /**
   * The confidence is compared after JavaScript's number conversion: an
   * integer given as a number, as padded decimal text or in a one-item array
   * counts as that integer, and a missing or falsy confidence counts as 0.
   */
  lemma ConfidenceCoerced(e: CogEvent, fields: seq<(string, Json)>, c: Json, i: int, w1: string, w2: string)
    requires Answered(e) && Lookup(fields, "correct") == Some(JBool(false))
    requires forall k :: 0 <= k < |w1| ==> IsSpace(w1[k])
    requires forall k :: 0 <= k < |w2| ==> IsSpace(w2[k])
    requires c == JNum(i as real) || c == JStr(w1 + IntToString(i) + w2) || c == JArr([JNum(i as real)]) || c == JArr([JStr(IntToString(i))])
    requires Lookup(fields, "confidence") == Some(c)
    ensures ConfidentWrong(e, JObj(fields)) <==> i >= 4
  {
    var p := JObj(fields);
    var oc := Some(c);
    assert Get(p, "confidence") == oc;
    assert Get(p, "correct") == Some(JBool(false));
    assert ConfidentWrong(e, p) == (JsTruthy(oc) && JsAtLeast(oc, 4.0));
    assert JsNumber(oc) == Some(i as real) by {
      IntLikeToNumber(i, w1, w2);
    }
    assert JsAtLeast(oc, 4.0) <==> i >= 4;
    if i >= 4 {
      if c.JNum? {
        assert c.n != 0.0;
      } else if c.JStr? {
        assert |IntToString(i)| >= 1;
      }
      assert JsTruthy(oc);
    }
  }

  /** An answer on a question of the given `question_format`. */
  predicate OfFormat(e: CogEvent, p: Json, format: string) {
    Answered(e) && Get(p, "question_format") == Some(JStr(format))
  }

  predicate MarkedCorrect(p: Json) {
    Get(p, "correct") == Some(JBool(true))
  }

  /** A map from each error type to a running score. */
  ghost predicate ScoresAllTypes(m: map<string, real>) {
    forall k :: k in m <==> k in ErrorTypes
  }

  /** The state the `forEach` of `summarizeErrorTypes` carries from one event to the next. */
  datatype Tally = Tally(scores: map<string, real>, numericCorrect: nat, numericTotal: nat,
                         symbolicCorrect: nat, symbolicTotal: nat, lastCorrect: map<string, Option<Json>>, slips: nat)

  function InitialTally(): (t: Tally)
    ensures ScoresAllTypes(t.scores)
  {
    Tally(map k | k in ErrorTypes :: 0.0, 0, 0, 0, 0, map[], 0)
  }

  function AddOne(m: map<string, real>, k: string): (r: map<string, real>)
    requires k in m
    ensures r.Keys == m.Keys
  {
    m[k := m[k] + 1.0]
  }

  /** The answer on a question that was last answered wrong, now marked correct. */
  predicate IsSlip(e: CogEvent, p: Json, lastCorrect: map<string, Option<Json>>) {
    Answered(e) && e.questionId.Some? && e.questionId.value != "" && e.questionId.value in lastCorrect
    && lastCorrect[e.questionId.value] == Some(JBool(false)) && MarkedCorrect(p)
  }

  /** One turn of the `forEach`. */
  function Step(t: Tally, e: CogEvent, parse: string -> Option<Json>): (r: Tally)
    requires ScoresAllTypes(t.scores)
    ensures ScoresAllTypes(r.scores)
  {
    var p := PayloadOf(e, parse);
    var explicit := ExplicitError(p);
    var s1 := if explicit.Some? then AddOne(t.scores, explicit.value) else t.scores;
    var s2 := if ConfidentWrong(e, p) then AddOne(s1, IntuitionFailure) else s1;
    var numeric := OfFormat(e, p, "numeric");
    var symbolic := OfFormat(e, p, "symbolic");
    var tracked := Answered(e) && e.questionId.Some? && e.questionId.value != "";
    Tally(s2,
      t.numericCorrect + (if numeric && MarkedCorrect(p) then 1 else 0),
      t.numericTotal + (if numeric then 1 else 0),
      t.symbolicCorrect + (if symbolic && MarkedCorrect(p) then 1 else 0),
      t.symbolicTotal + (if symbolic then 1 else 0),
      if tracked then t.lastCorrect[e.questionId.value := Get(p, "correct")] else t.lastCorrect,
      t.slips + (if IsSlip(e, p, t.lastCorrect) then 1 else 0))
  }

  /** The tally after the events, in the order given. */
  function TallyOf(events: seq<CogEvent>, parse: string -> Option<Json>): (t: Tally)
    ensures ScoresAllTypes(t.scores)
  {
    if events == [] then InitialTally()
    else Step(TallyOf(events[..|events| - 1], parse), events[|events| - 1], parse)
  }

  function Rate(correct: nat, total: nat): real {
    if total > 0 then correct as real / total as real else 0.0
  }

  /** The numeric accuracy minus the symbolic accuracy. */
  function Gap(t: Tally): real {
    Rate(t.numericCorrect, t.numericTotal) - Rate(t.symbolicCorrect, t.symbolicTotal)
  }

  /** The rewrites after the loop: the gap, then INTUITION_FAILURE out of 4, then ALGEBRA_SLIP out of 3. */
  function Rewritten(t: Tally): (r: map<string, real>)
    requires ScoresAllTypes(t.scores)
    ensures ScoresAllTypes(r)
    ensures Gap(t) >= 0.3 ==> r[VariableStruggle] == Numbers.Clamp01(Gap(t))
    ensures Gap(t) < 0.3 ==> r[VariableStruggle] == t.scores[VariableStruggle]
    ensures t.scores[IntuitionFailure] > 0.0 ==> r[IntuitionFailure] == Numbers.Clamp01(t.scores[IntuitionFailure] / 4.0)
    ensures t.slips > 0 ==> r[AlgebraSlip] == Numbers.Clamp01(t.slips as real / 3.0)
    ensures forall k :: k in r && k != VariableStruggle && k != IntuitionFailure && k != AlgebraSlip ==> r[k] == t.scores[k]
  {
    var gap := Gap(t);
    var s1 := if gap >= 0.3 then t.scores[VariableStruggle := Numbers.Clamp01(gap)] else t.scores;
    var s2 := if s1[IntuitionFailure] > 0.0 then s1[IntuitionFailure := Numbers.Clamp01(s1[IntuitionFailure] / 4.0)] else s1;
    if t.slips > 0 then s2[AlgebraSlip := Numbers.Clamp01(t.slips as real / 3.0)] else s2
  }

  /** Every score rounded to three decimals. */
  function RoundAll(m: map<string, real>): (r: map<string, real>)
    ensures r.Keys == m.Keys
    ensures forall k :: k in m ==> r[k] == Numbers.Round3(m[k])
  {
    map k | k in m :: Numbers.Round3(m[k])
  }

  function Finish(t: Tally): (r: map<string, real>)
    requires ScoresAllTypes(t.scores)
    ensures ScoresAllTypes(r)
  {
    RoundAll(Rewritten(t))
  }

  /** `summarizeErrorTypes(events)` without the `__examples` lists. */
  function ErrorScores(events: seq<CogEvent>, parse: string -> Option<Json>): (r: map<string, real>)
    ensures ScoresAllTypes(r)
  {
    Finish(TallyOf(Chronological(events), parse))
  }

  /** `summarizeErrorTypes`: the chronological `forEach` over the events, then the rewrites. */
  method SummarizeErrorTypes(events: seq<CogEvent>, parse: string -> Option<Json>) returns (scores: map<string, real>)
    ensures scores == ErrorScores(events, parse)
  {
    var ordered := Chronological(events);
    var t := InitialTally();
    var i := 0;
    while i < |ordered|
      invariant 0 <= i <= |ordered|
      invariant t == TallyOf(ordered[..i], parse)
    {
      TallyOfSnoc(ordered, i, parse);
      t := Step(t, ordered[i], parse);
      i := i + 1;
    }
    assert ordered[..i] == ordered;
    scores := Finish(t);
  }

  lemma TallyOfSnoc(events: seq<CogEvent>, i: nat, parse: string -> Option<Json>)
    requires i < |events|
    ensures TallyOf(events[..i + 1], parse) == Step(TallyOf(events[..i], parse), events[i], parse)
  {
    assert events[..i + 1][..i] == events[..i];
  }

  // The counts the tally keeps, each defined on its own.

  /** How many events name `k` as their error class. */
  function ExplicitCount(events: seq<CogEvent>, parse: string -> Option<Json>, k: string): nat {
    if events == [] then 0
    else
      var last := if ExplicitError(PayloadOf(events[|events| - 1], parse)) == Some(k) then 1 else 0;
      ExplicitCount(events[..|events| - 1], parse, k) + last
  }

  /** How many answers were wrong with a confidence of 4 or more. */
  function ConfidentWrongCount(events: seq<CogEvent>, parse: string -> Option<Json>): nat {
    if events == [] then 0
    else
      var last := if ConfidentWrong(events[|events| - 1], PayloadOf(events[|events| - 1], parse)) then 1 else 0;
      ConfidentWrongCount(events[..|events| - 1], parse) + last
  }

  /** The `correct` field of the last answer on question `q`: `None` if `q` was never answered. */
  function LastAnswer(events: seq<CogEvent>, parse: string -> Option<Json>, q: string): Option<Option<Json>> {
    if events == [] then None
    else
      var e := events[|events| - 1];
      if Answered(e) && e.questionId == Some(q) then Some(Get(PayloadOf(e, parse), "correct"))
      else LastAnswer(events[..|events| - 1], parse, q)
  }

  /** How many answers were marked correct right after the previous answer on the same question was marked wrong. */
  function SlipCount(events: seq<CogEvent>, parse: string -> Option<Json>): nat {
    if events == [] then 0
    else
      var init := events[..|events| - 1];
      var e := events[|events| - 1];
      SlipCount(init, parse)
        + if Answered(e) && e.questionId.Some? && e.questionId.value != ""
             && LastAnswer(init, parse, e.questionId.value) == Some(Some(JBool(false)))
             && MarkedCorrect(PayloadOf(e, parse)) then 1 else 0
  }

  /** The running score of an error type is its explicit count, plus the confident wrong answers for INTUITION_FAILURE. */
  lemma {:induction false} TallyScores(events: seq<CogEvent>, parse: string -> Option<Json>, k: string)
    requires k in ErrorTypes
    ensures TallyOf(events, parse).scores[k] ==
      (ExplicitCount(events, parse, k) + if k == IntuitionFailure then ConfidentWrongCount(events, parse) else 0) as real
  {
    if events != [] {
      TallyScores(events[..|events| - 1], parse, k);
    }
  }

  /** The tally remembers, per question, the correctness of its last answer. */
  lemma {:induction false} TallyLastCorrect(events: seq<CogEvent>, parse: string -> Option<Json>, q: string)
    requires q != ""
    ensures var t := TallyOf(events, parse);
      (q in t.lastCorrect <==> LastAnswer(events, parse, q).Some?)
      && (q in t.lastCorrect ==> LastAnswer(events, parse, q) == Some(t.lastCorrect[q]))
  {
    if events != [] {
      TallyLastCorrect(events[..|events| - 1], parse, q);
    }
  }

  /** The tally's slip counter counts exactly the wrong-then-correct pairs. */
  lemma {:induction false} TallySlips(events: seq<CogEvent>, parse: string -> Option<Json>)
    ensures TallyOf(events, parse).slips == SlipCount(events, parse)
  {
    if events != [] {
      var init := events[..|events| - 1];
      var e := events[|events| - 1];
      TallySlips(init, parse);
      if e.questionId.Some? && e.questionId.value != "" {
        TallyLastCorrect(init, parse, e.questionId.value);
      }
    }
  }

  /** ALGEBRA_SLIP is `min(1, slips / 3)` once any slip happened. */
  lemma AlgebraSlipScore(events: seq<CogEvent>, parse: string -> Option<Json>)
    requires SlipCount(Chronological(events), parse) > 0
    ensures ErrorScores(events, parse)[AlgebraSlip] == CappedShare(SlipCount(Chronological(events), parse) as real, 3.0)
  {
    var t := TallyOf(Chronological(events), parse);
    TallySlips(Chronological(events), parse);
    FinishAlgebraSlip(t);
    assert ErrorScores(events, parse) == Finish(t);
  }

  lemma FinishAlgebraSlip(t: Tally)
    requires ScoresAllTypes(t.scores) && t.slips > 0
    ensures Finish(t)[AlgebraSlip] == CappedShare(t.slips as real, 3.0)
  {
    ClampIsMin(t.slips as real / 3.0);
  }

  /** `Number(Math.min(1, x / d).toFixed(3))`. */
  function CappedShare(x: real, d: real): real
    requires d > 0.0
  {
    Numbers.Round3(Numbers.Min(1.0, x / d))
  }

  lemma ClampIsMin(x: real)
    requires x >= 0.0
    ensures Numbers.Clamp01(x) == Numbers.Min(1.0, x)
  {
  }

  /** INTUITION_FAILURE is `min(1, n / 4)` for `n` confident wrong answers and explicit INTUITION_FAILURE events, once `n > 0`. */
  lemma IntuitionScore(events: seq<CogEvent>, parse: string -> Option<Json>)
    requires var ordered := Chronological(events);
      ExplicitCount(ordered, parse, IntuitionFailure) + ConfidentWrongCount(ordered, parse) > 0
    ensures var ordered := Chronological(events);
      var n := ExplicitCount(ordered, parse, IntuitionFailure) + ConfidentWrongCount(ordered, parse);
      ErrorScores(events, parse)[IntuitionFailure] == CappedShare(n as real, 4.0)
  {
    var ordered := Chronological(events);
    var t := TallyOf(ordered, parse);
    var n := ExplicitCount(ordered, parse, IntuitionFailure) + ConfidentWrongCount(ordered, parse);
    TallyScores(ordered, parse, IntuitionFailure);
    assert t.scores[IntuitionFailure] == n as real;
    FinishIntuition(t);
    assert ErrorScores(events, parse) == Finish(t);
  }

  lemma FinishIntuition(t: Tally)
    requires ScoresAllTypes(t.scores) && t.scores[IntuitionFailure] > 0.0
    ensures Finish(t)[IntuitionFailure] == CappedShare(t.scores[IntuitionFailure], 4.0)
  {
    ClampIsMin(t.scores[IntuitionFailure] / 4.0);
  }

  /** Every other error type scores exactly the number of events naming it. */
  lemma ExplicitScore(events: seq<CogEvent>, parse: string -> Option<Json>, k: string)
    requires k in ErrorTypes && k != AlgebraSlip && k != VariableStruggle && k != IntuitionFailure
    ensures ErrorScores(events, parse)[k] == ExplicitCount(Chronological(events), parse, k) as real
  {
    TallyScores(Chronological(events), parse, k);
    Round3Whole(ExplicitCount(Chronological(events), parse, k));
  }

  lemma Round3Whole(n: nat)
    ensures Numbers.Round3(n as real) == n as real
  {
    assert (n as real * 1000.0 + 0.5).Floor == n * 1000;
  }

  /** Answers of either format recorded by the tally. */
  lemma {:induction false} NoFormatsNoTotals(events: seq<CogEvent>, parse: string -> Option<Json>)
    requires forall k :: 0 <= k < |events| ==> !OfFormat(events[k], PayloadOf(events[k], parse), "numeric")
    ensures TallyOf(events, parse).numericTotal == 0 && TallyOf(events, parse).numericCorrect == 0
  {
    if events != [] {
      NoFormatsNoTotals(events[..|events| - 1], parse);
    }
  }

  /**
   * Without numeric answers the numeric/symbolic gap cannot reach 0.3, so
   * VARIABLE_INTRODUCTION_STRUGGLE is the number of events naming it: one
   * such event scores 1.
   */
  lemma VariableStruggleWithoutNumeric(events: seq<CogEvent>, parse: string -> Option<Json>)
    requires forall e :: e in events ==> !OfFormat(e, PayloadOf(e, parse), "numeric")
    ensures ErrorScores(events, parse)[VariableStruggle] == ExplicitCount(Chronological(events), parse, VariableStruggle) as real
  {
    var ordered := Chronological(events);
    assert forall k :: 0 <= k < |ordered| ==> ordered[k] in multiset(events);
    NoFormatsNoTotals(ordered, parse);
    var t := TallyOf(ordered, parse);
    var n := ExplicitCount(ordered, parse, VariableStruggle);
    TallyScores(ordered, parse, VariableStruggle);
    assert t.scores[VariableStruggle] == n as real;
    FinishNoGap(t);
    Round3Whole(n);
    assert ErrorScores(events, parse) == Finish(t);
  }

  /** With no numeric answer the gap is not positive and VARIABLE_INTRODUCTION_STRUGGLE keeps its count. */
  lemma FinishNoGap(t: Tally)
    requires ScoresAllTypes(t.scores) && t.numericTotal == 0
    ensures Finish(t)[VariableStruggle] == Numbers.Round3(t.scores[VariableStruggle])
  {
    assert 0.0 <= Rate(t.symbolicCorrect, t.symbolicTotal) by {
      if t.symbolicTotal > 0 {
        assert t.symbolicCorrect as real / t.symbolicTotal as real >= 0.0;
      }
    }
  }

  // ---------------------------------------------------------------------------
  // updatePreferences

  type Prefs = map<string, real>

  const Modalities: set<string> := {"diagram", "equations", "examples", "step_by_step"}

  function DefaultPreferences(): (p: Prefs)
    ensures p.Keys == Modalities
  {
    map["diagram" := 0.4, "equations" := 0.4, "examples" := 0.4, "step_by_step" := 0.4]
  }

  /** `{ ...DEFAULT_PREFERENCES, ...(previousPreferences || {}) }`. */
  function StartPreferences(previous: Option<Prefs>): (p: Prefs)
    ensures p.Keys == Modalities + (if previous.Some? then previous.value.Keys else {})
  {
    if previous.Some? then DefaultPreferences() + previous.value else DefaultPreferences()
  }

  /** `clamp01(Math.max(0.1, Math.min(0.9, v + 0.05)))`. */
  function Bump(v: real): (r: real)
    ensures 0.1 <= r <= 0.9
    ensures v <= 0.9 ==> r >= v
    ensures 0.05 <= v <= 0.85 ==> r == v + 0.05
  {
    Numbers.Clamp01(Numbers.Max(0.1, Numbers.Min(0.9, v + 0.05)))
  }

  /**
   * `b` is `a` with some modalities bumped: keys are only ever added, and
   * only modalities; a value that changed is a modality landed in
   * [0.1, 0.9], not below where it was if that was at most 0.9.
   */
  predicate Nudged(a: Prefs, b: Prefs) {
    && a.Keys <= b.Keys <= a.Keys + Modalities
    && forall k :: k in b ==>
         (k in a && b[k] == a[k]) || (k in Modalities && 0.1 <= b[k] <= 0.9 && (k in a && a[k] <= 0.9 ==> b[k] >= a[k]))
  }

  lemma NudgedTrans(a: Prefs, b: Prefs, c: Prefs)
    requires Nudged(a, b) && Nudged(b, c)
    ensures Nudged(a, c)
  {
    forall k | k in c
      ensures (k in a && c[k] == a[k]) || (k in Modalities && 0.1 <= c[k] <= 0.9 && (k in a && a[k] <= 0.9 ==> c[k] >= a[k]))
    {
      if k in b && c[k] == b[k] {
        assert k in b;
      }
    }
  }

  function BumpKey(prefs: Prefs, k: string): (r: Prefs)
    ensures r.Keys == prefs.Keys + {k}
    ensures k in Modalities ==> Nudged(prefs, r)
  {
    prefs[k := Bump(if k in prefs then prefs[k] else 0.0)]
  }

  /** The preference a toggle interaction signals. */
  function ToggleKey(interaction: Option<string>): (k: Option<string>)
    ensures k.Some? ==> k.value in Modalities
  {
    if interaction == Some("DIAGRAM_TOGGLED") then Some("diagram")
    else if interaction == Some("EQUATION_TOGGLED") then Some("equations")
    else if interaction == Some("STEP_REVEAL") then Some("step_by_step")
    else if interaction == Some("REPHRASE_REQUESTED") then Some("examples")
    else None
  }

  /** What `updatePreferences` remembers per question. */
  datatype QuestionState = QuestionState(toggles: set<string>, lastModality: Option<string>, times: seq<real>)

  function MinOf(s: seq<real>): (m: real)
    requires s != []
    ensures forall k :: 0 <= k < |s| ==> m <= s[k]
    ensures m in s
  {
    if |s| == 1 then s[0] else Numbers.Min(s[0], MinOf(s[1..]))
  }

  /** Per-question state only ever names modalities. */
  predicate StatesValid(qs: map<string, QuestionState>) {
    forall q :: q in qs ==> qs[q].toggles <= Modalities && (qs[q].lastModality.Some? ==> qs[q].lastModality.value in Modalities)
  }

  function BumpIf(c: bool, prefs: Prefs, k: string): (r: Prefs)
    requires k in Modalities
    ensures r.Keys == prefs.Keys + (if c then {k} else {})
    ensures Nudged(prefs, r)
  {
    if c then BumpKey(prefs, k) else prefs
  }

  /** A toggle that helped (`delta_success > 0`) bumps its modality; every toggle is remembered for its question. */
  function ToggleStep(prefs: Prefs, st: QuestionState, e: CogEvent, p: Json): (r: (Prefs, QuestionState))
    requires st.toggles <= Modalities && (st.lastModality.Some? ==> st.lastModality.value in Modalities)
    ensures r.1.toggles <= Modalities && (r.1.lastModality.Some? ==> r.1.lastModality.value in Modalities)
    ensures Nudged(prefs, r.0)
  {
    var key := ToggleKey(e.interaction);
    var delta := Get(p, "delta_success");
    var prefs1 := if key.Some? && JsGreater(delta, 0.0) then BumpKey(prefs, key.value) else prefs;
    var st1 := if key.Some? then st.(toggles := st.toggles + {key.value}, lastModality := key) else st;
    (prefs1, st1)
  }

  /**
   * A toggle's `delta_success` is compared after JavaScript's number
   * conversion: `true`, a positive integer as number or decimal text, or a
   * one-item array of one, all bump the toggled modality; `false`, `null`,
   * a missing value and a non-numeric text do not.
   */
  lemma ToggleDeltaCoerced(prefs: Prefs, st: QuestionState, e: CogEvent, fields: seq<(string, Json)>, d: Json, i: int)
    requires st.toggles <= Modalities && (st.lastModality.Some? ==> st.lastModality.value in Modalities)
    requires ToggleKey(e.interaction).Some?
    requires Lookup(fields, "delta_success") == Some(d)
    requires d == JBool(true) || d == JNum(i as real) || d == JStr(IntToString(i)) || d == JArr([JNum(i as real)])
    ensures ToggleStep(prefs, st, e, JObj(fields)).0 == (if d == JBool(true) || i > 0 then BumpKey(prefs, ToggleKey(e.interaction).value) else prefs)
  {
    assert Get(JObj(fields), "delta_success") == Some(d);
    DeltaPositive(d, i);
  }

  lemma DeltaPositive(d: Json, i: int)
    requires d == JBool(true) || d == JNum(i as real) || d == JStr(IntToString(i)) || d == JArr([JNum(i as real)])
    ensures JsGreater(Some(d), 0.0) <==> d == JBool(true) || i > 0
  {
    if d != JBool(true) {
      IntLikeToNumber(i, "", "");
      assert JsNumber(Some(d)) == Some(i as real);
    }
  }

  /** A toggle without a usable `delta_success` leaves the preferences alone. */
  lemma ToggleWithoutDelta(prefs: Prefs, st: QuestionState, e: CogEvent, p: Json)
    requires st.toggles <= Modalities && (st.lastModality.Some? ==> st.lastModality.value in Modalities)
    requires var d := Get(p, "delta_success"); d.None? || d == Some(JNull) || d == Some(JBool(false))
    ensures ToggleStep(prefs, st, e, p).0 == prefs
  {
  }

  /**
   * An answer: when correct, every modality toggled on the question is
   * bumped; when faster than every earlier answer to it, the last toggled
   * modality is bumped; its time is remembered.
   */
  function AnswerStep(prefs: Prefs, st: QuestionState, p: Json): (r: (Prefs, QuestionState))
    requires st.toggles <= Modalities && (st.lastModality.Some? ==> st.lastModality.value in Modalities)
    ensures r.1.toggles <= Modalities && (r.1.lastModality.Some? ==> r.1.lastModality.value in Modalities)
    ensures Nudged(prefs, r.0)
  {
    var correct := MarkedCorrect(p);
    var prefs2 := BumpIf(correct && "diagram" in st.toggles, prefs, "diagram");
    var prefs3 := BumpIf(correct && "equations" in st.toggles, prefs2, "equations");
    var prefs4 := BumpIf(correct && "examples" in st.toggles, prefs3, "examples");
    var prefs5 := BumpIf(correct && "step_by_step" in st.toggles, prefs4, "step_by_step");
    var time := AsNum(Get(p, "time_spent_ms"));
    var faster := time.Some? && st.times != [] && time.value < MinOf(st.times) && st.lastModality.Some?;
    var prefs6 := if faster then BumpKey(prefs5, st.lastModality.value) else prefs5;
    var st2 := if time.Some? then st.(times := st.times + [time.value]) else st;
    NudgedTrans(prefs, prefs2, prefs3);
    NudgedTrans(prefs, prefs3, prefs4);
    NudgedTrans(prefs, prefs4, prefs5);
    NudgedTrans(prefs, prefs5, prefs6);
    (prefs6, st2)
  }

  /** One turn of the `forEach` of `updatePreferences`. */
  function PrefStep(prefs: Prefs, qs: map<string, QuestionState>, e: CogEvent, parse: string -> Option<Json>): (r: (Prefs, map<string, QuestionState>))
    requires StatesValid(qs)
    ensures StatesValid(r.1)
    ensures Nudged(prefs, r.0)
  {
    var p := PayloadOf(e, parse);
    var qid := if e.questionId.Some? && e.questionId.value != "" then e.questionId.value else "global";
    var st := if qid in qs then qs[qid] else QuestionState({}, None, []);
    var toggled := ToggleStep(prefs, st, e, p);
    if Answered(e) then
      var answered := AnswerStep(toggled.0, toggled.1, p);
      NudgedTrans(prefs, toggled.0, answered.0);
      StatesUpdated(qs, qid, answered.1);
      (answered.0, qs[qid := answered.1])
    else
      StatesUpdated(qs, qid, toggled.1);
      (toggled.0, qs[qid := toggled.1])
  }

  lemma StatesUpdated(qs: map<string, QuestionState>, q: string, st: QuestionState)
    requires StatesValid(qs)
    requires st.toggles <= Modalities && (st.lastModality.Some? ==> st.lastModality.value in Modalities)
    ensures StatesValid(qs[q := st])
  {
    var m := qs[q := st];
    forall x | x in m
      ensures m[x].toggles <= Modalities && (m[x].lastModality.Some? ==> m[x].lastModality.value in Modalities)
    {
      if x != q {
        assert m[x] == qs[x];
      }
    }
  }

  /** The preferences and per-question state after the events, in the order given. */
  function PrefsOf(start: Prefs, events: seq<CogEvent>, parse: string -> Option<Json>): (r: (Prefs, map<string, QuestionState>))
    ensures StatesValid(r.1)
  {
    if events == [] then (start, map[])
    else
      var prev := PrefsOf(start, events[..|events| - 1], parse);
      PrefStep(prev.0, prev.1, events[|events| - 1], parse)
  }

  /** `updatePreferences(events, previousPreferences)`. */
  function Preferences(events: seq<CogEvent>, previous: Option<Prefs>, parse: string -> Option<Json>): Prefs {
    PrefsOf(StartPreferences(previous), Chronological(events), parse).0
  }

  /** `updatePreferences`: the chronological `forEach`, bumping preferences as it goes. */
  method UpdatePreferences(events: seq<CogEvent>, previous: Option<Prefs>, parse: string -> Option<Json>) returns (prefs: Prefs)
    ensures prefs == Preferences(events, previous, parse)
  {
    var ordered := Chronological(events);
    prefs := StartPreferences(previous);
    var states: map<string, QuestionState> := map[];
    var i := 0;
    while i < |ordered|
      invariant 0 <= i <= |ordered|
      invariant (prefs, states) == PrefsOf(StartPreferences(previous), ordered[..i], parse)
    {
      PrefsOfSnoc(StartPreferences(previous), ordered, i, parse);
      var next := PrefStep(prefs, states, ordered[i], parse);
      prefs := next.0;
      states := next.1;
      i := i + 1;
    }
    assert ordered[..i] == ordered;
  }

  lemma PrefsOfSnoc(start: Prefs, events: seq<CogEvent>, i: nat, parse: string -> Option<Json>)
    requires i < |events|
    ensures var prev := PrefsOf(start, events[..i], parse);
      PrefsOf(start, events[..i + 1], parse) == PrefStep(prev.0, prev.1, events[i], parse)
  {
    assert events[..i + 1][..i] == events[..i];
  }

  /** Over any run of events, the preferences only move by bumps. */
  lemma {:induction false} PrefsOfNudged(start: Prefs, events: seq<CogEvent>, parse: string -> Option<Json>)
    ensures Nudged(start, PrefsOf(start, events, parse).0)
  {
    if events != [] {
      var prev := PrefsOf(start, events[..|events| - 1], parse);
      PrefsOfNudged(start, events[..|events| - 1], parse);
      NudgedTrans(start, prev.0, PrefStep(prev.0, prev.1, events[|events| - 1], parse).0);
    }
  }

  /**
   * `updatePreferences` keeps the keys it started with (the defaults name
   * every modality), leaves every non-modality key alone, lands every bump
   * in [0.1, 0.9], and never lowers a modality that started at most 0.9.
   */
  lemma PreferencesWithin(events: seq<CogEvent>, previous: Option<Prefs>, parse: string -> Option<Json>)
    ensures var start := StartPreferences(previous);
      var prefs := Preferences(events, previous, parse);
      && prefs.Keys == start.Keys
      && (forall k :: k in prefs && k !in Modalities ==> prefs[k] == start[k])
      && (forall k :: k in prefs ==> prefs[k] == start[k] || 0.1 <= prefs[k] <= 0.9)
      && (forall k :: k in Modalities && start[k] <= 0.9 ==> start[k] <= prefs[k])
  {
    PrefsOfNudged(StartPreferences(previous), Chronological(events), parse);
  }

  /**
   * A single diagram toggle that helped (`delta_success > 0`, after
   * JavaScript's number conversion) raises the default diagram preference
   * from 0.4 to 0.45.
   */
  lemma DiagramToggleRaises(e: CogEvent, parse: string -> Option<Json>)
    requires e.interaction == Some("DIAGRAM_TOGGLED")
    requires JsGreater(Get(PayloadOf(e, parse), "delta_success"), 0.0)
    ensures Preferences([e], None, parse)["diagram"] == 0.45
  {
    assert Chronological([e]) == [e] by {
      var r := Chronological([e]);
      assert multiset(r) == multiset{e};
      assert e in multiset(r);
    }
    assert [e][..0] == [];
    var start := StartPreferences(None);
    var st := QuestionState({}, None, []);
    var toggled := ToggleStep(start, st, e, PayloadOf(e, parse));
    assert toggled.0 == BumpKey(start, "diagram");
    assert Bump(0.4) == 0.45;
    assert PrefsOf(start, [e], parse) == PrefStep(start, map[], e, parse);
    assert !Answered(e);
  }

  // ---------------------------------------------------------------------------
  // getPersonalizationPlan

  /** What a plan reads of a fingerprint: preferences, the error types of the hotspots in order, and the weak concepts' tags. */
  datatype Fingerprint = Fingerprint(preferences: Option<Prefs>, errorHotspots: seq<string>, weakConcepts: seq<string>)

  datatype Plan = Plan(explanationStyle: string, interventions: seq<Intervention>, conceptTags: seq<string>, practiceType: string, count: nat)

  /** `prefs[a] > prefs[b]`, false when either is missing. */
  predicate Above(prefs: Prefs, a: string, b: string) {
    a in prefs && b in prefs && prefs[a] > prefs[b]
  }

  predicate AboveValue(prefs: Prefs, a: string, v: real) {
    a in prefs && prefs[a] > v
  }

  function StyleOf(prefs: Prefs): (style: string)
    ensures style == "diagram_first" <==> Above(prefs, "diagram", "equations") && Above(prefs, "diagram", "step_by_step")
    ensures style == "equations_first" ==> Above(prefs, "equations", "diagram")
    ensures style == "step_by_step" ==> Above(prefs, "step_by_step", "examples")
    ensures style in {"diagram_first", "equations_first", "step_by_step", "example_first"}
  {
    if Above(prefs, "diagram", "equations") && Above(prefs, "diagram", "step_by_step") then "diagram_first"
    else if Above(prefs, "equations", "diagram") then "equations_first"
    else if Above(prefs, "step_by_step", "examples") then "step_by_step"
    else "example_first"
  }

  /** The weak concepts first (at most two), else the context's tags. */
  function PracticeTags(weak: seq<string>, contextTags: Option<seq<string>>): (tags: seq<string>)
    ensures weak != [] ==> tags == weak[..if |weak| < 2 then |weak| else 2]
    ensures weak == [] ==> tags == if contextTags.Some? then contextTags.value else []
  {
    var next := Sorting.Take(weak, 2);
    if |next| > 0 then next else if contextTags.Some? then contextTags.value else []
  }

  /** The four interventions the server can suggest; `Text` is the sentence it sends. */
  datatype Intervention = GradualVariables | DefinitionDrill | QuickDiagram | StepReveal {
    function Text(): string {
      match this
      case GradualVariables => "Introduce variables gradually after numeric walkthrough."
      case DefinitionDrill => "Do definition drill then apply to two examples."
      case QuickDiagram => "Show a quick diagram before text."
      case StepReveal => "Reveal steps one by one."
    }
  }

  /** The interventions for the dominant (first) error hotspot and the strong preferences, in this order. */
  function Interventions(dominant: Option<string>, prefs: Prefs): (r: seq<Intervention>)
    ensures |r| <= 4
    ensures AboveValue(prefs, "diagram", 0.6) <==> QuickDiagram in r
    ensures AboveValue(prefs, "step_by_step", 0.6) <==> StepReveal in r
    ensures dominant == Some(VariableStruggle) <==> r != [] && r[0] == GradualVariables
    ensures dominant == Some("DEFINITIONS_VS_APPLICATIONS_CONFUSION") <==> DefinitionDrill in r
  {
    (if dominant == Some(VariableStruggle) then [GradualVariables] else [])
    + (if dominant == Some("DEFINITIONS_VS_APPLICATIONS_CONFUSION") then [DefinitionDrill] else [])
    + (if AboveValue(prefs, "diagram", 0.6) then [QuickDiagram] else [])
    + (if AboveValue(prefs, "step_by_step", 0.6) then [StepReveal] else [])
  }

  /** The first error hotspot, if any. */
  function Dominant(fingerprint: Option<Fingerprint>): (d: Option<string>)
    ensures d.Some? <==> fingerprint.Some? && fingerprint.value.errorHotspots != []
  {
    if fingerprint.Some? && fingerprint.value.errorHotspots != [] then Some(fingerprint.value.errorHotspots[0]) else None
  }

  /** `fingerprint?.preferences || DEFAULT_PREFERENCES`. */
  function PlanPrefs(fingerprint: Option<Fingerprint>): (prefs: Prefs)
    ensures fingerprint.Some? && fingerprint.value.preferences.Some? ==> prefs == fingerprint.value.preferences.value
    ensures fingerprint.None? || fingerprint.value.preferences.None? ==> prefs == DefaultPreferences()
  {
    if fingerprint.Some? && fingerprint.value.preferences.Some? then fingerprint.value.preferences.value else DefaultPreferences()
  }

  /** `getPersonalizationPlan(fingerprint, context)`; `context.concept_tags || []` is `contextTags`. */
  function PersonalizationPlan(fingerprint: Option<Fingerprint>, contextTags: Option<seq<string>>): (plan: Plan)
    ensures plan.count == 3
    ensures plan.practiceType == "variation_drill" <==> Dominant(fingerprint) == Some("OVERGENERALIZATION")
    ensures plan.conceptTags != [] <==>
      (fingerprint.Some? && fingerprint.value.weakConcepts != []) || (contextTags.Some? && contextTags.value != [])
    ensures plan.explanationStyle == StyleOf(PlanPrefs(fingerprint))
    ensures plan.interventions == Interventions(Dominant(fingerprint), PlanPrefs(fingerprint))
    ensures plan.conceptTags == PracticeTags(if fingerprint.Some? then fingerprint.value.weakConcepts else [], contextTags)
  {
    var prefs := PlanPrefs(fingerprint);
    var weak := if fingerprint.Some? then fingerprint.value.weakConcepts else [];
    var dominant := Dominant(fingerprint);
    Plan(StyleOf(prefs), Interventions(dominant, prefs), PracticeTags(weak, contextTags),
      if dominant == Some("OVERGENERALIZATION") then "variation_drill" else "spaced_review", 3)
  }

  /** A fingerprint without preferences plans from the defaults, where all four are equal: examples first. */
  lemma DefaultsGiveExamplesFirst(errors: seq<string>, weak: seq<string>, contextTags: Option<seq<string>>)
    ensures PersonalizationPlan(Some(Fingerprint(None, errors, weak)), contextTags).explanationStyle == "example_first"
  {
  }
}
