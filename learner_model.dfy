/**
 * The learner model kept by the server (server/learnerModel.js): modality
 * fit, course prerequisites and readiness, the quiz-focus ranking, and the
 * two read-modify-write updates of the persisted state.
 *
 * The persisted JSON file becomes the fields of `LearnerStore`; clock
 * readings become an integer `now` in milliseconds, and ISO timestamps are
 * kept as the millisecond value they denote.
 */
module LearnerModel {
  import opened Wrappers
  import opened Strings
  import Numbers
  import Sorting

  /** The default mastery and stability of a concept the learner has no state for. */
  const Prior: real := 0.4

  const DayMs: int := 86400000

  // ---------------------------------------------------------------------------
  // computeModalityScore

  /** A modality object, such as `{diagram: 0.7, text: 0.3}`; a missing object is the empty map. */
  type Weights = map<string, real>

  /** `weights?.[key] || 0`. */
  function Weight(w: Weights, key: string): real {
    if key in w then w[key] else 0.0
  }

  /** What one key contributes to the fit. */
  function Term(profile: Weights, content: Weights, key: string): real {
    Weight(profile, key) * Weight(content, key)
  }

  /** The sum of `profile[key] * content[key]` over `keys`, in any order. */
  ghost function SumProducts(keys: set<string>, profile: Weights, content: Weights): real
    decreases |keys|
  {
    if keys == {} then 0.0
    else
      var k :| k in keys;
      Term(profile, content, k) + SumProducts(keys - {k}, profile, content)
  }

  /** `computeModalityScore(profileModality, contentModality)`: the products over the union of keys, clamped into [0, 1]. */
  ghost function ModalityScore(profile: Weights, content: Weights): (r: real)
    ensures 0.0 <= r <= 1.0
  {
    Numbers.Clamp01(SumProducts(profile.Keys + content.Keys, profile, content))
  }

  /** Any key of the set may be taken out first: the sum does not depend on the order of the keys. */
  lemma {:induction false} SumProductsRemove(keys: set<string>, profile: Weights, content: Weights, k: string)
    requires k in keys
    ensures SumProducts(keys, profile, content) == Term(profile, content, k) + SumProducts(keys - {k}, profile, content)
    decreases |keys|
  {
    var j :| j in keys && SumProducts(keys, profile, content) ==
      Term(profile, content, j) + SumProducts(keys - {j}, profile, content);
    if j != k {
      SumProductsRemove(keys - {j}, profile, content, k);
      SumProductsRemove(keys - {k}, profile, content, j);
      assert keys - {j} - {k} == keys - {k} - {j};
    }
  }

  lemma {:induction false} SumProductsSymmetric(keys: set<string>, profile: Weights, content: Weights)
    ensures SumProducts(keys, profile, content) == SumProducts(keys, content, profile)
    decreases |keys|
  {
    if keys != {} {
      var k :| k in keys;
      SumProductsRemove(keys, profile, content, k);
      SumProductsRemove(keys, content, profile, k);
      SumProductsSymmetric(keys - {k}, profile, content);
    }
  }

  /** The fit does not depend on which side is the profile. */
  lemma ModalityScoreSymmetric(profile: Weights, content: Weights)
    ensures ModalityScore(profile, content) == ModalityScore(content, profile)
  {
    SumProductsSymmetric(profile.Keys + content.Keys, profile, content);
    assert profile.Keys + content.Keys == content.Keys + profile.Keys;
  }

  lemma {:induction false} SumProductsNoOverlap(keys: set<string>, profile: Weights, content: Weights)
    requires forall k :: k in keys ==> Weight(profile, k) == 0.0 || Weight(content, k) == 0.0
    ensures SumProducts(keys, profile, content) == 0.0
    decreases |keys|
  {
    if keys != {} {
      var k :| k in keys;
      SumProductsRemove(keys, profile, content, k);
      SumProductsNoOverlap(keys - {k}, profile, content);
    }
  }

  /** A key weighted on one side only contributes nothing: with no key weighted on both sides the fit is 0. */
  lemma ModalityNoOverlapIsZero(profile: Weights, content: Weights)
    requires forall k :: k in profile && k in content ==> profile[k] == 0.0 || content[k] == 0.0
    ensures ModalityScore(profile, content) == 0.0
  {
    SumProductsNoOverlap(profile.Keys + content.Keys, profile, content);
  }

  /** `computeModalityScore` as written: the `forEach` over the key set accumulates the products, then clamps. */
  method ComputeModalityScore(profile: Weights, content: Weights) returns (score: real)
    ensures score == ModalityScore(profile, content)
  {
    var all := profile.Keys + content.Keys;
    var keys := all;
    var sum := 0.0;
    while keys != {}
      invariant keys <= all
      invariant sum + SumProducts(keys, profile, content) == SumProducts(all, profile, content)
      decreases |keys|
    {
      var key :| key in keys;
      SumProductsRemove(keys, profile, content, key);
      sum := sum + Term(profile, content, key);
      keys := keys - {key};
    }
    score := Numbers.Clamp01(sum);
  }

  // ---------------------------------------------------------------------------
  // Courses and prerequisites

  datatype Course = Course(id: string, title: string, slug: string, concepts: seq<string>)

  datatype PrereqEdge = PrereqEdge(from: string, to: string)

  /** `getPrereqsForCourse(course, prereqEdges)`: the from-end of every edge inside the course, in edge order. */
  function PrereqsForCourse(concepts: seq<string>, edges: seq<PrereqEdge>): (r: seq<string>)
    ensures |r| <= |edges|
    ensures forall x :: x in r ==> x in concepts
  {
    if edges == [] then []
    else
      var e := edges[|edges| - 1];
      PrereqsForCourse(concepts, edges[..|edges| - 1]) + if Inside(e, concepts) then [e.from] else []
  }

  /** Both ends of the edge are concepts of the course. */
  predicate Inside(e: PrereqEdge, concepts: seq<string>) {
    e.to in concepts && e.from in concepts
  }

  /** A concept is a prerequisite of the course exactly when some edge inside the course starts at it. */
  lemma {:induction false} PrereqsForCourseMembers(concepts: seq<string>, edges: seq<PrereqEdge>, x: string)
    ensures x in PrereqsForCourse(concepts, edges) <==> exists k :: 0 <= k < |edges| && edges[k].from == x && Inside(edges[k], concepts)
  {
    if edges != [] {
      var init := edges[..|edges| - 1];
      PrereqsForCourseMembers(concepts, init, x);
      assert forall k :: 0 <= k < |init| ==> init[k] == edges[k];
    }
  }

  /** `COURSE_CATALOG.find((entry) => entry.id === courseId) || COURSE_CATALOG[0]`; the catalog is a non-empty constant. */
  function SelectCourse(catalog: seq<Course>, courseId: string): (c: Course)
    requires |catalog| > 0
    ensures c in catalog
    ensures (exists k :: 0 <= k < |catalog| && catalog[k].id == courseId) ==> c.id == courseId
    ensures (forall k :: 0 <= k < |catalog| ==> catalog[k].id != courseId) ==> c == catalog[0]
  {
    match FindCourse(catalog, courseId)
    case Some(c) => c
    case None => catalog[0]
  }

  /** `k` is the first position of a course with that id. */
  predicate IsFirstMatch(catalog: seq<Course>, courseId: string, k: int) {
    0 <= k < |catalog| && catalog[k].id == courseId && forall j :: 0 <= j < k ==> catalog[j].id != courseId
  }

  /** `COURSE_CATALOG.find((entry) => entry.id === courseId)`: the first course with that id. */
  function FindCourse(catalog: seq<Course>, courseId: string): (r: Option<Course>)
    ensures r.None? <==> forall k :: 0 <= k < |catalog| ==> catalog[k].id != courseId
    ensures r.Some? ==> r.value.id == courseId && exists k :: IsFirstMatch(catalog, courseId, k) && catalog[k] == r.value
  {
    if catalog == [] then None
    else if catalog[0].id == courseId then Some(catalog[0])
    else
      var r := FindCourse(catalog[1..], courseId);
      assert forall k :: 0 <= k < |catalog| - 1 ==> catalog[1..][k] == catalog[k + 1];
      r
  }

  // ---------------------------------------------------------------------------
  // Readiness

  /** An entry of `learner_concept_state`; absent fields are `None`. */
  datatype ConceptState = ConceptState(name: Option<string>, mastery: Option<real>, stability: Option<real>, lastReviewedAt: Option<int>)

  type ConceptMap = map<string, ConceptState>

  /** `getConceptState(state, id)?.mastery ?? 0.4`. */
  function MasteryOf(cs: ConceptMap, id: string): (m: real)
    ensures id in cs && cs[id].mastery.Some? ==> m == cs[id].mastery.value
    ensures !(id in cs && cs[id].mastery.Some?) ==> m == Prior
  {
    if id in cs && cs[id].mastery.Some? then cs[id].mastery.value else Prior
  }

  function MasteryScores(ids: seq<string>, cs: ConceptMap): (r: seq<real>)
    ensures |r| == |ids|
    ensures forall k :: 0 <= k < |ids| ==> r[k] == MasteryOf(cs, ids[k])
  {
    seq(|ids|, k requires 0 <= k < |ids| => MasteryOf(cs, ids[k]))
  }

  function Sum(s: seq<real>): real {
    if s == [] then 0.0 else Sum(s[..|s| - 1]) + s[|s| - 1]
  }

  /** `sum / (length || 1)`. */
  function Average(s: seq<real>): real {
    Sum(s) / (if |s| == 0 then 1 else |s|) as real
  }

  function CountBelow(s: seq<real>, t: real): (n: nat)
    ensures n <= |s|
  {
    if s == [] then 0 else CountBelow(s[..|s| - 1], t) + if s[|s| - 1] < t then 1 else 0
  }

  function CountAtLeast(s: seq<real>, t: real): (n: nat)
    ensures n <= |s|
  {
    if s == [] then 0 else CountAtLeast(s[..|s| - 1], t) + if s[|s| - 1] >= t then 1 else 0
  }

  /** Appending one score counts it exactly when it is below the threshold. */
  lemma CountBelowSnoc(s: seq<real>, x: real, t: real)
    ensures CountBelow(s + [x], t) == CountBelow(s, t) + if x < t then 1 else 0
  {
    assert (s + [x])[..|s|] == s;
  }

  /** Appending one score counts it exactly when it reaches the threshold. */
  lemma CountAtLeastSnoc(s: seq<real>, x: real, t: real)
    ensures CountAtLeast(s + [x], t) == CountAtLeast(s, t) + if x >= t then 1 else 0
  {
    assert (s + [x])[..|s|] == s;
  }

  /** The count of a concatenation is the sum of the counts: it is the length of a filter. */
  lemma {:induction false} CountBelowAppend(a: seq<real>, b: seq<real>, t: real)
    ensures CountBelow(a + b, t) == CountBelow(a, t) + CountBelow(b, t)
    decreases |b|
  {
    if b == [] {
      assert a + b == a;
    } else {
      var front := b[..|b| - 1];
      var x := b[|b| - 1];
      assert b == front + [x];
      assert a + b == (a + front) + [x];
      CountBelowAppend(a, front, t);
      CountBelowSnoc(a + front, x, t);
      CountBelowSnoc(front, x, t);
    }
  }

  /** The count of a concatenation is the sum of the counts: it is the length of a filter. */
  lemma {:induction false} CountAtLeastAppend(a: seq<real>, b: seq<real>, t: real)
    ensures CountAtLeast(a + b, t) == CountAtLeast(a, t) + CountAtLeast(b, t)
    decreases |b|
  {
    if b == [] {
      assert a + b == a;
    } else {
      var front := b[..|b| - 1];
      var x := b[|b| - 1];
      assert b == front + [x];
      assert a + b == (a + front) + [x];
      CountAtLeastAppend(a, front, t);
      CountAtLeastSnoc(a + front, x, t);
      CountAtLeastSnoc(front, x, t);
    }
  }

  datatype Readiness = Readiness(prereqs: seq<string>, avgMastery: real, weakCount: nat, strongCount: nat,
                                 readinessLabel: string, riskScore: real)

  /** The concepts readiness looks at: the course's prerequisites, or all its concepts when it has none. */
  function ConceptsToCheck(concepts: seq<string>, edges: seq<PrereqEdge>): (r: seq<string>)
    ensures forall x :: x in r ==> x in concepts
    ensures PrereqsForCourse(concepts, edges) == [] ==> r == concepts
  {
    var prereqs := PrereqsForCourse(concepts, edges);
    if |prereqs| > 0 then prereqs else concepts
  }

  /** `computeCourseReadiness(course, state)`. */
  function CourseReadiness(concepts: seq<string>, edges: seq<PrereqEdge>, cs: ConceptMap): (r: Readiness)
    ensures r.prereqs == PrereqsForCourse(concepts, edges)
    ensures r.avgMastery == Average(MasteryScores(ConceptsToCheck(concepts, edges), cs))
    ensures r.weakCount == CountBelow(MasteryScores(ConceptsToCheck(concepts, edges), cs), 0.45)
    ensures r.strongCount == CountAtLeast(MasteryScores(ConceptsToCheck(concepts, edges), cs), 0.7)
    ensures r.readinessLabel == "Ready" <==> r.avgMastery >= 0.7
    ensures r.readinessLabel == "Needs Prep" <==> 0.5 <= r.avgMastery < 0.7
    ensures r.readinessLabel == "High Risk" <==> r.avgMastery < 0.5
    ensures 0.0 <= r.riskScore <= 1.0
    ensures 0.0 <= r.avgMastery <= 1.0 ==> r.riskScore == 1.0 - r.avgMastery
    ensures r.weakCount + r.strongCount <= |ConceptsToCheck(concepts, edges)|
  {
    var scores := MasteryScores(ConceptsToCheck(concepts, edges), cs);
    var avg := Average(scores);
    WeakStrongDisjoint(scores);
    Readiness(PrereqsForCourse(concepts, edges), avg, CountBelow(scores, 0.45), CountAtLeast(scores, 0.7),
      if avg >= 0.7 then "Ready" else if avg >= 0.5 then "Needs Prep" else "High Risk",
      Numbers.Clamp01(1.0 - avg))
  }

  /** No score is both weak (below 0.45) and strong (at least 0.7). */
  lemma {:induction false} WeakStrongDisjoint(s: seq<real>)
    ensures CountBelow(s, 0.45) + CountAtLeast(s, 0.7) <= |s|
  {
    if s != [] {
      WeakStrongDisjoint(s[..|s| - 1]);
    }
  }

  lemma {:induction false} SumBounds(s: seq<real>, lo: real, hi: real)
    requires forall k :: 0 <= k < |s| ==> lo <= s[k] <= hi
    ensures |s| as real * lo <= Sum(s) <= |s| as real * hi
  {
    if s != [] {
      SumBounds(s[..|s| - 1], lo, hi);
    }
  }

  lemma AverageBounds(s: seq<real>, lo: real, hi: real)
    requires s != []
    requires forall k :: 0 <= k < |s| ==> lo <= s[k] <= hi
    ensures lo <= Average(s) <= hi
  {
    SumBounds(s, lo, hi);
    QuotientBounds(Sum(s), |s| as real, lo, hi);
  }

  lemma QuotientBounds(a: real, n: real, lo: real, hi: real)
    requires n > 0.0 && n * lo <= a <= n * hi
    ensures lo <= a / n <= hi
  {
    var q := a / n;
    assert q * n == a;
    assert (q - lo) * n >= 0.0;
    assert (hi - q) * n >= 0.0;
  }

  /** Every known mastery lies in [0, 1]. */
  predicate MasteriesInRange(cs: ConceptMap) {
    forall id :: id in cs && cs[id].mastery.Some? ==> 0.0 <= cs[id].mastery.value <= 1.0
  }

  /** With masteries in [0, 1] the average does too, and risk is exactly `1 - average`. */
  lemma ReadinessInRange(concepts: seq<string>, edges: seq<PrereqEdge>, cs: ConceptMap)
    requires MasteriesInRange(cs)
    ensures var r := CourseReadiness(concepts, edges, cs);
      0.0 <= r.avgMastery <= 1.0 && r.riskScore == 1.0 - r.avgMastery
  {
    var scores := MasteryScores(ConceptsToCheck(concepts, edges), cs);
    if scores != [] {
      AverageBounds(scores, 0.0, 1.0);
    }
  }

  /** A learner with no concept state at all is at the prior on every checked concept: High Risk, all weak. */
  lemma FreshLearnerIsHighRisk(concepts: seq<string>, edges: seq<PrereqEdge>)
    requires concepts != []
    ensures var r := CourseReadiness(concepts, edges, map[]);
      r.avgMastery == Prior && r.readinessLabel == "High Risk"
      && r.weakCount == |ConceptsToCheck(concepts, edges)| && r.strongCount == 0
  {
    var checked := ConceptsToCheck(concepts, edges);
    var scores := MasteryScores(checked, map[]);
    assert checked != [];
    AllEqualAverage(scores, Prior);
    AllCount(scores, Prior);
  }

  lemma AllEqualAverage(s: seq<real>, v: real)
    requires s != [] && forall k :: 0 <= k < |s| ==> s[k] == v
    ensures Average(s) == v
  {
    AverageBounds(s, v, v);
  }

  lemma {:induction false} AllCount(s: seq<real>, v: real)
    requires forall k :: 0 <= k < |s| ==> s[k] == v
    ensures v < 0.45 ==> CountBelow(s, 0.45) == |s|
    ensures v < 0.7 ==> CountAtLeast(s, 0.7) == 0
  {
    if s != [] {
      AllCount(s[..|s| - 1], v);
    }
  }

  /** `computeCourseReasons`: one or two reasons; the average-mastery fallback only when nothing is weak or strong. */
  function CourseReasons(r: Readiness): (reasons: seq<string>)
    ensures 1 <= |reasons| <= 2
    ensures |reasons| == 2 <==> r.weakCount > 0 && r.strongCount > 0
    ensures r.weakCount > 0 ==> reasons[0] == "You are weak in " + NatToString(r.weakCount) + " prerequisites"
    ensures r.weakCount == 0 && r.strongCount > 0 ==> reasons == ["Strong overlap with " + NatToString(r.strongCount) + " concepts you have mastered"]
    ensures r.weakCount == 0 && r.strongCount == 0 ==> reasons == [FallbackReason(r.avgMastery)]
  {
    var weak := if r.weakCount > 0 then ["You are weak in " + NatToString(r.weakCount) + " prerequisites"] else [];
    var strong := if r.strongCount > 0 then ["Strong overlap with " + NatToString(r.strongCount) + " concepts you have mastered"] else [];
    var reasons := weak + strong;
    var all := if reasons == [] then [FallbackReason(r.avgMastery)] else reasons;
    Sorting.Take(all, 2)
  }

  /** `Recent mastery sits at ${(avg * 100).toFixed(0)}%`. */
  function FallbackReason(avg: real): string {
    "Recent mastery sits at " + IntToString(Numbers.Round(avg * 100.0)) + "%"
  }

  // ---------------------------------------------------------------------------
  // getNextQuizFocus

  datatype Priority = Priority(id: string, name: string, mastery: real, stability: real, overdue: bool, priorityScore: real)

  /** `lastReviewed ? (now - lastReviewed) / DAY : 999`; a missing or zero timestamp counts as never reviewed. */
  function DaysSince(lastReviewed: int, now: int): real {
    if lastReviewed != 0 then (now - lastReviewed) as real / DayMs as real else 999.0
  }

  /** `concept?.stability ?? 0.4`. */
  function StabilityOf(cs: ConceptMap, id: string): (st: real)
    ensures id in cs && cs[id].stability.Some? ==> st == cs[id].stability.value
    ensures !(id in cs && cs[id].stability.Some?) ==> st == Prior
  {
    if id in cs && cs[id].stability.Some? then cs[id].stability.value else Prior
  }

  /** The weighting before clamping: 0.6 on the mastery gap, 0.3 on the stability gap, 0.1 when overdue. */
  function FocusWeight(mastery: real, stability: real, overdue: bool): real {
    (1.0 - mastery) * 0.6 + (1.0 - stability) * 0.3 + (if overdue then 0.1 else 0.0)
  }

  /** The stored priority: the weighting clamped into [0, 1] and rounded to three decimals. */
  function FocusScore(mastery: real, stability: real, overdue: bool): (r: real)
    ensures 0.0 <= r <= 1.0
  {
    var clamped := Numbers.Clamp01(FocusWeight(mastery, stability, overdue));
    Numbers.Round3Unit(clamped);
    Numbers.Round3(clamped)
  }

  /** One entry of `priorities`. */
  function PriorityOf(conceptId: string, cs: ConceptMap, now: int): (p: Priority)
    ensures p.id == conceptId
    ensures p.mastery == MasteryOf(cs, conceptId)
    ensures p.stability == StabilityOf(cs, conceptId)
    ensures p.overdue <==> LastReviewed(cs, conceptId) == 0 || now - LastReviewed(cs, conceptId) > 14 * DayMs
    ensures p.priorityScore == FocusScore(p.mastery, p.stability, p.overdue)
    ensures conceptId in cs && cs[conceptId].name.Some? && cs[conceptId].name.value != "" ==> p.name == cs[conceptId].name.value
    ensures !(conceptId in cs && cs[conceptId].name.Some? && cs[conceptId].name.value != "") ==> p.name == conceptId
  {
    var concept := if conceptId in cs then Some(cs[conceptId]) else None;
    var last := LastReviewed(cs, conceptId);
    var overdue := DaysSince(last, now) > 14.0;
    OverdueIff(last, now);
    var name := if concept.Some? && concept.value.name.Some? && concept.value.name.value != "" then concept.value.name.value else conceptId;
    var mastery := MasteryOf(cs, conceptId);
    var stability := StabilityOf(cs, conceptId);
    Priority(conceptId, name, mastery, stability, overdue, FocusScore(mastery, stability, overdue))
  }

  /** An overdue concept weighs exactly 0.1 more before clamping, all else equal. */
  lemma OverdueAddsTenth(mastery: real, stability: real)
    ensures FocusWeight(mastery, stability, true) == FocusWeight(mastery, stability, false) + 0.1
  {
  }

  /** Lower mastery, lower stability or being overdue never lowers the stored priority. */
  lemma FocusScoreMonotone(m1: real, s1: real, o1: bool, m2: real, s2: real, o2: bool)
    requires m1 <= m2 && s1 <= s2 && (o2 ==> o1)
    ensures FocusScore(m1, s1, o1) >= FocusScore(m2, s2, o2)
  {
    var w1 := FocusWeight(m1, s1, o1);
    var w2 := FocusWeight(m2, s2, o2);
    assert w2 <= w1;
    Numbers.ClampMonotone(w2, w1, 0.0, 1.0);
    Numbers.Round3Monotone(Numbers.Clamp01(w2), Numbers.Clamp01(w1));
  }

  /** Among concepts reviewed alike, one with no more mastery and no more stability ranks at least as high. */
  lemma WeakerConceptRanksHigher(a: string, b: string, cs: ConceptMap, now: int)
    requires MasteryOf(cs, a) <= MasteryOf(cs, b) && StabilityOf(cs, a) <= StabilityOf(cs, b)
    requires LastReviewed(cs, a) == LastReviewed(cs, b)
    ensures PriorityOf(a, cs, now).priorityScore >= PriorityOf(b, cs, now).priorityScore
  {
    var pa := PriorityOf(a, cs, now);
    var pb := PriorityOf(b, cs, now);
    FocusScoreMonotone(pa.mastery, pa.stability, pa.overdue, pb.mastery, pb.stability, pb.overdue);
  }

  function LastReviewed(cs: ConceptMap, conceptId: string): int {
    if conceptId in cs && cs[conceptId].lastReviewedAt.Some? then cs[conceptId].lastReviewedAt.value else 0
  }

  lemma OverdueIff(last: int, now: int)
    ensures DaysSince(last, now) > 14.0 <==> last == 0 || now - last > 14 * DayMs
  {
    if last != 0 {
      var d := (now - last) as real;
      assert DaysSince(last, now) * DayMs as real == d;
    }
  }

  /** The `status` attached to a focus item. */
  datatype Status = Status(weak: bool, fragile: bool, overdue: bool)

  function StatusOf(p: Priority): (s: Status)
    ensures s.weak <==> p.mastery < 0.45
    ensures s.fragile <==> p.stability < 0.5 && p.mastery >= 0.45
    ensures s.overdue == p.overdue
    ensures !(s.weak && s.fragile)
  {
    Status(p.mastery < 0.45, p.stability < 0.5 && p.mastery >= 0.45, p.overdue)
  }

  function PriorityScore(p: Priority): real {
    p.priorityScore
  }

  /** The pure part of `getNextQuizFocus`: every concept ranked by priority, and the top three with their status. */
  function QuizFocus(concepts: seq<string>, cs: ConceptMap, now: int): (r: (seq<(Priority, Status)>, seq<Priority>))
    ensures |r.1| == |concepts|
    ensures |r.0| == if |concepts| < 3 then |concepts| else 3
    ensures forall k :: 0 <= k < |r.0| ==> r.0[k] == (r.1[k], StatusOf(r.1[k]))
  {
    var priorities := seq(|concepts|, k requires 0 <= k < |concepts| => PriorityOf(concepts[k], cs, now));
    var sorted := Sorting.SortDesc(priorities, PriorityScore);
    var top := Sorting.Take(sorted, 3);
    (seq(|top|, k requires 0 <= k < |top| => (top[k], StatusOf(top[k]))), sorted)
  }

  /**
   * The focus is the three highest priorities: the ranking is a
   * permutation of the concepts' priorities in descending order, and no
   * concept left out of the focus outranks one in it.
   */
  lemma QuizFocusIsTopThree(concepts: seq<string>, cs: ConceptMap, now: int)
    ensures var r := QuizFocus(concepts, cs, now);
      var priorities := seq(|concepts|, k requires 0 <= k < |concepts| => PriorityOf(concepts[k], cs, now));
      && multiset(r.1) == multiset(priorities)
      && Sorting.SortedDesc(r.1, PriorityScore)
      && forall i, j :: 0 <= i < |r.0| <= j < |r.1| ==> r.0[i].0.priorityScore >= r.1[j].priorityScore
  {
    var r := QuizFocus(concepts, cs, now);
    var priorities := seq(|concepts|, k requires 0 <= k < |concepts| => PriorityOf(concepts[k], cs, now));
    assert r.1 == Sorting.SortDesc(priorities, PriorityScore);
  }

  // ---------------------------------------------------------------------------
  // The persisted state and its two updates

  /** An entry of `learner_content_state`. */
  datatype ContentState = ContentState(views: int, lastViewedAt: Option<int>, lastResult: Option<real>)

  /** The entry `markContentViewed` writes: one more view, viewed now, and the result replaced only by a number. */
  function Viewed(current: Option<ContentState>, lastResult: Option<real>, now: int): (next: ContentState)
    ensures current.None? ==> next.views == 1
    ensures current.Some? ==> next.views == current.value.views + 1
    ensures next.lastViewedAt == Some(now)
    ensures lastResult.Some? ==> next.lastResult == lastResult
    ensures lastResult.None? ==> next.lastResult == (if current.Some? then current.value.lastResult else None)
  {
    var cur := if current.Some? then current.value else ContentState(0, None, None);
    cur.(views := cur.views + 1, lastViewedAt := Some(now), lastResult := if lastResult.Some? then lastResult else cur.lastResult)
  }

  /** The entry a concept gets from a quiz attempt: mastery and stability shifted and clamped, reviewed now. */
  function Shifted(concept: ConceptState, delta: real, now: int): (next: ConceptState)
    ensures next.name == concept.name
    ensures next.mastery.Some? && 0.0 <= next.mastery.value <= 1.0
    ensures next.stability.Some? && 0.0 <= next.stability.value <= 1.0
    ensures next.lastReviewedAt == Some(now)
  {
    var m := if concept.mastery.Some? then concept.mastery.value else Prior;
    var s := if concept.stability.Some? then concept.stability.value else Prior;
    concept.(mastery := Some(Numbers.Clamp01(m + delta)), stability := Some(Numbers.Clamp01(s + delta * 0.6)), lastReviewedAt := Some(now))
  }

  /** `updatedConcepts[conceptId] || { id: conceptId, name: conceptId }`. */
  function ConceptOrNew(cs: ConceptMap, conceptId: string): ConceptState {
    if conceptId in cs then cs[conceptId] else ConceptState(Some(conceptId), None, None, None)
  }

  /** The concept map after the `forEach` has shifted `ids` in order. */
  function ShiftAll(cs: ConceptMap, ids: seq<string>, delta: real, now: int): (r: ConceptMap)
    ensures r.Keys == cs.Keys + (set x | x in ids)
    ensures forall x :: x in r && x !in ids ==> r[x] == cs[x]
  {
    if ids == [] then cs
    else
      var prev := ShiftAll(cs, ids[..|ids| - 1], delta, now);
      var id := ids[|ids| - 1];
      assert forall x :: x in ids ==> x in ids[..|ids| - 1] || x == id;
      prev[id := Shifted(ConceptOrNew(prev, id), delta, now)]
  }

  lemma ShiftAllSnoc(cs: ConceptMap, ids: seq<string>, i: nat, delta: real, now: int)
    requires i < |ids|
    ensures var prev := ShiftAll(cs, ids[..i], delta, now);
      ShiftAll(cs, ids[..i + 1], delta, now) == prev[ids[i] := Shifted(ConceptOrNew(prev, ids[i]), delta, now)]
  {
    assert ids[..i + 1][..i] == ids[..i];
  }

  /** Every concept of the course ends with mastery and stability in [0, 1], reviewed now. */
  lemma {:induction false} ShiftAllInRange(cs: ConceptMap, ids: seq<string>, delta: real, now: int)
    ensures var r := ShiftAll(cs, ids, delta, now);
      forall x :: x in ids ==> (x in r && r[x].mastery.Some? && 0.0 <= r[x].mastery.value <= 1.0
                                && r[x].stability.Some? && 0.0 <= r[x].stability.value <= 1.0 && r[x].lastReviewedAt == Some(now))
  {
    if ids != [] {
      ShiftAllInRange(cs, ids[..|ids| - 1], delta, now);
      assert forall x :: x in ids ==> x in ids[..|ids| - 1] || x == ids[|ids| - 1];
    }
  }

  /** A concept listed once is shifted once, from its stored state (or the prior). */
  lemma {:induction false} ShiftAllOnce(cs: ConceptMap, ids: seq<string>, delta: real, now: int, i: nat)
    requires i < |ids| && forall j :: 0 <= j < |ids| && j != i ==> ids[j] != ids[i]
    ensures ShiftAll(cs, ids, delta, now)[ids[i]] == Shifted(ConceptOrNew(cs, ids[i]), delta, now)
  {
    var init := ids[..|ids| - 1];
    var prev := ShiftAll(cs, init, delta, now);
    if i < |ids| - 1 {
      assert init[i] == ids[i];
      ShiftAllOnce(cs, init, delta, now, i);
    } else {
      assert ids[i] !in init;
      assert ConceptOrNew(prev, ids[i]) == ConceptOrNew(cs, ids[i]);
    }
  }

  /** `masteryDelta = (score - 0.5) * 0.2`. */
  function MasteryDelta(score: real): (d: real)
    ensures 0.0 <= score <= 1.0 ==> -0.1 <= d <= 0.1
    ensures d > 0.0 <==> score > 0.5
  {
    (score - 0.5) * 0.2
  }

  /** The persisted learner state, read and written whole by each update. */
  class LearnerStore {
    var concepts: ConceptMap
    var content: map<string, ContentState>
    var profileUpdatedAt: Option<int>

    /** Every view count is positive and every known mastery lies in [0, 1]. */
    predicate Valid()
      reads this
    {
      (forall k :: k in content ==> content[k].views >= 1) && MasteriesInRange(concepts)
    }

    constructor (concepts: ConceptMap, content: map<string, ContentState>)
      ensures this.concepts == concepts && this.content == content && profileUpdatedAt == None
    {
      this.concepts := concepts;
      this.content := content;
      profileUpdatedAt := None;
    }

    /** `markContentViewed({contentId, lastResult})`: rewrites one content entry and returns it. */
    method MarkContentViewed(contentId: string, lastResult: Option<real>, now: int) returns (next: ContentState)
      modifies this
      ensures next == Viewed(if contentId in old(content) then Some(old(content)[contentId]) else None, lastResult, now)
      ensures content == old(content)[contentId := next]
      ensures concepts == old(concepts) && profileUpdatedAt == old(profileUpdatedAt)
      ensures old(Valid()) ==> Valid()
    {
      var current := if contentId in content then Some(content[contentId]) else None;
      next := Viewed(current, lastResult, now);
      content := content[contentId := next];
    }

    /**
     * `updateConceptsFromAttempt({courseId, score})` once the course has
     * been looked up: no course leaves everything as it was; otherwise each
     * course concept is shifted in turn and the profile is stamped.
     */
    method UpdateConceptsFromAttempt(course: Option<Course>, score: real, now: int)
      modifies this
      ensures course.None? ==> concepts == old(concepts) && profileUpdatedAt == old(profileUpdatedAt)
      ensures course.Some? ==> concepts == ShiftAll(old(concepts), course.value.concepts, MasteryDelta(score), now)
      ensures course.Some? ==> profileUpdatedAt == Some(now)
      ensures content == old(content)
      ensures old(Valid()) ==> Valid()
    {
      if course.None? {
        return;
      }
      var ids := course.value.concepts;
      var delta := MasteryDelta(score);
      if MasteriesInRange(concepts) {
        ShiftAllKeepsRange(concepts, ids, delta, now);
      }
      concepts := ShiftEach(concepts, ids, delta, now);
      profileUpdatedAt := Some(now);
    }
  }

  /** The `forEach` over the course's concepts, writing each shifted entry back into the copy of the map. */
  method ShiftEach(cs: ConceptMap, ids: seq<string>, delta: real, now: int) returns (updated: ConceptMap)
    ensures updated == ShiftAll(cs, ids, delta, now)
  {
    updated := cs;
    var i := 0;
    while i < |ids|
      invariant 0 <= i <= |ids|
      invariant updated == ShiftAll(cs, ids[..i], delta, now)
    {
      ShiftAllSnoc(cs, ids, i, delta, now);
      updated := updated[ids[i] := Shifted(ConceptOrNew(updated, ids[i]), delta, now)];
      i := i + 1;
    }
    assert ids[..i] == ids;
  }

  lemma ShiftAllKeepsRange(cs: ConceptMap, ids: seq<string>, delta: real, now: int)
    requires MasteriesInRange(cs)
    ensures MasteriesInRange(ShiftAll(cs, ids, delta, now))
  {
    ShiftAllInRange(cs, ids, delta, now);
  }
}
