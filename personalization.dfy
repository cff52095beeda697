/**
 * The client's copy of the personalization plan (`buildPersonalizationPlan`):
 * the same shape as the server's plan, but every missing preference reads as
 * 0, the style chain compares differently after its first branch, and the
 * intervention sentences are the client's own.
 */
module Personalization {
  import opened Wrappers
  import Numbers
  import CognitiveFingerprint

  type Prefs = map<string, real>

  /** `prefs[k] || 0`. */
  function Pref(prefs: Prefs, k: string): real {
    if k in prefs then prefs[k] else 0.0
  }

  /** What the plan reads of a fingerprint; a hotspot or weak concept lacking its field reads as `None`. */
  datatype Fingerprint = Fingerprint(preferences: Option<Prefs>, errorTypes: seq<Option<string>>, weakTags: seq<Option<string>>)

  /**
   * The style chain: diagram beats the larger of equations and step-by-step;
   * else equations beat step-by-step; else step-by-step above 0.5; else
   * examples first.
   */
  function StyleFor(prefs: Prefs): (style: string)
    ensures style in {"diagram_first", "equations_first", "step_by_step", "example_first"}
    ensures style == "diagram_first" <==> Pref(prefs, "diagram") > Pref(prefs, "equations") && Pref(prefs, "diagram") > Pref(prefs, "step_by_step")
    ensures style == "example_first" <==>
      Pref(prefs, "diagram") <= Numbers.Max(Pref(prefs, "equations"), Pref(prefs, "step_by_step"))
      && Pref(prefs, "equations") <= Pref(prefs, "step_by_step") && Pref(prefs, "step_by_step") <= 0.5
  {
    var diagram := Pref(prefs, "diagram");
    var equations := Pref(prefs, "equations");
    var steps := Pref(prefs, "step_by_step");
    if diagram > Numbers.Max(equations, steps) then "diagram_first"
    else if equations > steps then "equations_first"
    else if steps > 0.5 then "step_by_step"
    else "example_first"
  }

  /** The four interventions the client can suggest; `Text` is the sentence it shows. */
  datatype Intervention = NumericFirst | DefinitionCheck | QuickDiagram | StepReveal {
    function Text(): string {
      match this
      case NumericFirst => "Start numeric, then introduce variables gradually."
      case DefinitionCheck => "Add a definition check before application practice."
      case QuickDiagram => "Include a quick diagram."
      case StepReveal => "Reveal steps one by one."
    }
  }

  /** The interventions for the dominant error and the preferences above 0.6, in this order. */
  function Interventions(dominant: Option<string>, prefs: Prefs): (r: seq<Intervention>)
    ensures |r| <= 3
    ensures NumericFirst in r <==> dominant == Some("VARIABLE_INTRODUCTION_STRUGGLE")
    ensures DefinitionCheck in r <==> dominant == Some("DEFINITIONS_VS_APPLICATIONS_CONFUSION")
    ensures QuickDiagram in r <==> Pref(prefs, "diagram") > 0.6
    ensures StepReveal in r <==> Pref(prefs, "step_by_step") > 0.6
    ensures r != [] && (r[0] == QuickDiagram || r[0] == StepReveal) ==> dominant != Some("VARIABLE_INTRODUCTION_STRUGGLE")
    ensures StepReveal in r ==> r[|r| - 1] == StepReveal
  {
    (if dominant == Some("VARIABLE_INTRODUCTION_STRUGGLE") then [NumericFirst] else [])
    + (if dominant == Some("DEFINITIONS_VS_APPLICATIONS_CONFUSION") then [DefinitionCheck] else [])
    + (if Pref(prefs, "diagram") > 0.6 then [QuickDiagram] else [])
    + (if Pref(prefs, "step_by_step") > 0.6 then [StepReveal] else [])
  }

  /** `errors[0]?.error_type`. */
  function Dominant(errorTypes: seq<Option<string>>): (d: Option<string>)
    ensures d.Some? ==> errorTypes != [] && errorTypes[0] == d
  {
    if errorTypes == [] then None else errorTypes[0]
  }

  /**
   * The first two weak concepts' tags; when there are none, the context's
   * tags (`context.concept_tags || []`).
   */
  function NextConcepts(weakTags: seq<Option<string>>, contextTags: Option<seq<string>>): (tags: seq<Option<string>>)
    ensures |weakTags| >= 2 ==> tags == weakTags[..2]
    ensures |weakTags| == 1 ==> tags == weakTags
    ensures weakTags == [] ==> |tags| == (if contextTags.Some? then |contextTags.value| else 0)
    ensures weakTags == [] && contextTags.Some? ==> forall k :: 0 <= k < |tags| ==> tags[k] == Some(contextTags.value[k])
  {
    var next := if |weakTags| < 2 then weakTags else weakTags[..2];
    if |next| > 0 then next
    else if contextTags.Some? then seq(|contextTags.value|, k requires 0 <= k < |contextTags.value| => Some(contextTags.value[k]))
    else []
  }

  datatype Plan = Plan(explanationStyle: string, interventions: seq<Intervention>, conceptTags: seq<Option<string>>, practiceType: string, count: nat)

  /** `buildPersonalizationPlan(fingerprint, context)`; `context.concept_tags` is `contextTags`. */
  function BuildPersonalizationPlan(fingerprint: Option<Fingerprint>, contextTags: Option<seq<string>>): (plan: Plan)
    ensures plan.count == 3
    ensures plan.practiceType == "variation_drill" <==>
      fingerprint.Some? && fingerprint.value.errorTypes != [] && fingerprint.value.errorTypes[0] == Some("OVERGENERALIZATION")
    ensures plan.practiceType in {"variation_drill", "spaced_review"}
    ensures plan.conceptTags != [] <==>
      (fingerprint.Some? && fingerprint.value.weakTags != []) || (contextTags.Some? && contextTags.value != [])
    ensures var prefs := if fingerprint.Some? && fingerprint.value.preferences.Some? then fingerprint.value.preferences.value else map[];
      && plan.explanationStyle == StyleFor(prefs)
      && plan.interventions == Interventions(Dominant(if fingerprint.Some? then fingerprint.value.errorTypes else []), prefs)
    ensures plan.conceptTags == NextConcepts(if fingerprint.Some? then fingerprint.value.weakTags else [], contextTags)
  {
    var prefs := if fingerprint.Some? && fingerprint.value.preferences.Some? then fingerprint.value.preferences.value else map[];
    var errors := if fingerprint.Some? then fingerprint.value.errorTypes else [];
    var weak := if fingerprint.Some? then fingerprint.value.weakTags else [];
    var dominant := Dominant(errors);
    Plan(StyleFor(prefs), Interventions(dominant, prefs), NextConcepts(weak, contextTags),
      if dominant == Some("OVERGENERALIZATION") then "variation_drill" else "spaced_review", 3)
  }

  /** Filling every missing modality with an explicit 0 changes neither the style nor the interventions. */
  lemma MissingReadsAsZero(prefs: Prefs, dominant: Option<string>)
    ensures var filled := map k | k in prefs.Keys + CognitiveFingerprint.Modalities :: Pref(prefs, k);
      StyleFor(filled) == StyleFor(prefs) && Interventions(dominant, filled) == Interventions(dominant, prefs)
  {
    var filled := map k | k in prefs.Keys + CognitiveFingerprint.Modalities :: Pref(prefs, k);
    assert forall k :: k in CognitiveFingerprint.Modalities ==> Pref(filled, k) == Pref(prefs, k);
  }

  /** Without a fingerprint the client shows examples first, suggests nothing and drills spaced review. */
  lemma NoFingerprintPlan(contextTags: Option<seq<string>>)
    ensures var plan := BuildPersonalizationPlan(None, contextTags);
      plan.explanationStyle == "example_first" && plan.interventions == [] && plan.practiceType == "spaced_review"
  {
    assert Pref(map[], "step_by_step") == 0.0;
  }

  /**
   * On preferences naming every modality, the client and the server agree on
   * when to put the diagram first, and on the interventions the preferences
   * alone trigger.
   */
  lemma AgreesWithServerOnDiagram(prefs: Prefs)
    requires CognitiveFingerprint.Modalities <= prefs.Keys
    ensures StyleFor(prefs) == "diagram_first" <==> CognitiveFingerprint.StyleOf(prefs) == "diagram_first"
    ensures var client := Interventions(None, prefs);
      var server := CognitiveFingerprint.Interventions(None, prefs);
      (QuickDiagram in client <==> CognitiveFingerprint.QuickDiagram in server)
      && (StepReveal in client <==> CognitiveFingerprint.StepReveal in server)
  {
  }

  /**
   * The two copies part ways after the first branch: with equal diagram and
   * step-by-step preferences above equations, the server picks step-by-step
   * over examples while the client, at or below 0.5, picks examples first.
   */
  lemma DivergesFromServer()
    ensures var prefs := map["diagram" := 0.4, "equations" := 0.3, "examples" := 0.3, "step_by_step" := 0.4];
      StyleFor(prefs) == "example_first" && CognitiveFingerprint.StyleOf(prefs) == "step_by_step"
  {
    var prefs := map["diagram" := 0.4, "equations" := 0.3, "examples" := 0.3, "step_by_step" := 0.4];
    assert Pref(prefs, "diagram") == 0.4 && Pref(prefs, "step_by_step") == 0.4 && Pref(prefs, "equations") == 0.3;
  }
}
