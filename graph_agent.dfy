/**
 * The knowledge-graph rules of server/graphAgent.js: topic-label
 * normalisation and slugging, canonical edge orientation, the review
 * interval step function, strength clamping, the edge upsert over an
 * in-memory edge table, and the per-event statistics update.
 *
 * Timestamps are integers in milliseconds; the clock and the fresh edge id
 * are parameters.
 */
module GraphAgent {
  import opened Wrappers
  import opened Strings
  import Numbers

  // ---------------------------------------------------------------------------
  // Topic labels

  /** `STOP_WORDS`. */
  const StopWords: set<string> := {"of", "the", "and", "in", "for", "to", "with", "on", "at"}

  /** `titleCase(word)`: first character upper-cased, the rest lower-cased. */
  function TitleCase(word: string): (r: string)
    ensures |r| == |word|
    ensures word != [] ==> r[0] == UpperChar(word[0])
    ensures forall k :: 0 < k < |word| ==> r[k] == LowerChar(word[k])
  {
    if word == [] then [] else [UpperChar(word[0])] + ToLower(word[1..])
  }

  predicate IsStopWord(word: string) {
    ToLower(word) in StopWords
  }

  /** `words.filter((word) => !STOP_WORDS.has(word.toLowerCase()))`. */
  function NonStopWords(words: seq<string>): (r: seq<string>)
    ensures |r| <= |words|
    ensures forall k :: 0 <= k < |r| ==> r[k] in words && !IsStopWord(r[k])
    ensures r == [] <==> forall k :: 0 <= k < |words| ==> IsStopWord(words[k])
  {
    if words == [] then []
    else
      var init := NonStopWords(words[..|words| - 1]);
      var last := words[|words| - 1];
      assert forall k :: 0 <= k < |words| - 1 ==> words[..|words| - 1][k] == words[k];
      if IsStopWord(last) then init else init + [last]
  }

  /** The filter keeps exactly the non-stop words of each part, in order. */
  lemma {:induction false} NonStopWordsAppend(a: seq<string>, b: seq<string>)
    ensures NonStopWords(a + b) == NonStopWords(a) + NonStopWords(b)
    decreases |b|
  {
    if b != [] {
      var front, w := b[..|b| - 1], b[|b| - 1];
      assert b == front + [w];
      assert a + b == (a + front) + [w];
      NonStopWordsAppend(a, front);
      NonStopWordsSnoc(front, w);
      NonStopWordsSnoc(a + front, w);
    } else {
      assert a + b == a;
    }
  }

  lemma NonStopWordsSnoc(words: seq<string>, w: string)
    ensures NonStopWords(words + [w]) == NonStopWords(words) + if IsStopWord(w) then [] else [w]
  {
    assert (words + [w])[..|words|] == words;
  }

  /** A single word is kept exactly when it is not a stop word. */
  lemma NonStopWordsOne(w: string)
    ensures NonStopWords([w]) == if IsStopWord(w) then [] else [w]
  {
    assert [w][..0] == [];
  }

  /** The first `n` entries (all of them when there are fewer). */
  function Prefix(words: seq<string>, n: nat): (r: seq<string>)
    ensures |r| == if |words| < n then |words| else n
    ensures r == words[..|r|]
  {
    if |words| <= n then words else words[..n]
  }

  /** The words of the cleaned input, title-cased. */
  function LabelWords(cleaned: string): (r: seq<string>)
    ensures |r| == |SplitOn(cleaned, ' ')|
    ensures forall k :: 0 <= k < |r| ==> r[k] == TitleCase(SplitOn(cleaned, ' ')[k])
  {
    var parts := SplitOn(cleaned, ' ');
    seq(|parts|, k requires 0 <= k < |parts| => TitleCase(parts[k]))
  }

  /** `shortened`: more than three words lose their stop words (unless none would remain) and are cut to three. */
  function Shorten(words: seq<string>): (r: seq<string>)
    ensures |words| <= 3 ==> r == words
    ensures |words| >= 1 ==> 1 <= |r| <= 3
    ensures |words| > 3 && NonStopWords(words) != [] ==> r == Prefix(NonStopWords(words), 3)
    ensures |words| > 3 && NonStopWords(words) == [] ==> r == words[..3]
  {
    if |words| > 3 then
      var filtered := NonStopWords(words);
      Prefix(if filtered != [] then filtered else words, 3)
    else words
  }

  /**
   * `.replace(/[^a-z0-9]+/g, '-')` after lower-casing, one character at a
   * time: a character outside `[a-z0-9]` that another such character follows
   * is dropped, and the last one of its run becomes `-`.
   */
  function DashRuns(s: string): (r: string)
    ensures forall k :: 0 <= k < |r| ==> IsLowerAlnum(r[k]) || r[k] == '-'
    ensures forall k :: 0 <= k < |r| - 1 ==> !(r[k] == '-' && r[k + 1] == '-')
    ensures r == [] <==> s == []
    ensures s != [] && IsLowerAlnum(s[0]) ==> r[0] == s[0]
    ensures s != [] && !IsLowerAlnum(s[0]) ==> r[0] == '-'
    ensures |r| <= |s|
  {
    if s == [] then []
    else if IsLowerAlnum(s[0]) then [s[0]] + DashRuns(s[1..])
    else if |s| >= 2 && !IsLowerAlnum(s[1]) then DashRuns(s[1..])
    else ['-'] + DashRuns(s[1..])
  }

  /** `.replace(/^-|-$/g, '')`: one leading and one trailing `-` removed. */
  function StripDashes(s: string): (r: string)
    ensures |r| <= |s|
    ensures forall k :: 0 <= k < |r| ==> r[k] in s
    ensures s == r || s == "-" + r || s == r + "-" || s == "-" + r + "-"
    ensures s != [] && s[0] == '-' ==> s == "-" + r || s == "-" + r + "-"
    ensures |s| >= 2 && s[|s| - 1] == '-' ==> s == r + "-" || s == "-" + r + "-"
  {
    var t := if s != [] && s[0] == '-' then s[1..] else s;
    if t != [] && t[|t| - 1] == '-' then t[..|t| - 1] else t
  }

  /** The slug of a label. */
  function Slugify(text: string): (slug: string)
    ensures Alnums(slug) == Alnums(ToLower(text))
    ensures forall k :: 0 <= k < |slug| ==> IsLowerAlnum(slug[k]) || slug[k] == '-'
    ensures slug == [] || (slug[0] != '-' && slug[|slug| - 1] != '-')
    ensures forall k :: 0 <= k < |slug| - 1 ==> !(slug[k] == '-' && slug[k + 1] == '-')
  {
    var d := DashRuns(ToLower(text));
    assert DashShaped(d);
    StripDashesShape(d);
    var slug := StripDashes(d);
    assert DashShaped(slug);
    DashRunsKeepsAlnums(ToLower(text));
    StripDashesKeepsAlnums(d);
    slug
  }

  /** The characters of `s` inside `[a-z0-9]`, in order. */
  function Alnums(s: string): (r: string)
    ensures |r| <= |s|
  {
    if s == [] then [] else (if IsLowerAlnum(s[0]) then [s[0]] else []) + Alnums(s[1..])
  }

  lemma {:induction false} AlnumsAppend(a: string, b: string)
    ensures Alnums(a + b) == Alnums(a) + Alnums(b)
  {
    if a != [] {
      assert (a + b)[0] == a[0] && (a + b)[1..] == a[1..] + b;
      AlnumsAppend(a[1..], b);
    } else {
      assert a + b == b;
    }
  }

  lemma {:induction false} AlnumsNone(s: string)
    requires forall k :: 0 <= k < |s| ==> !IsLowerAlnum(s[k])
    ensures Alnums(s) == []
  {
    if s != [] {
      AlnumsNone(s[1..]);
    }
  }

  /** Replacing the runs of other characters by dashes keeps the letters and digits, in order. */
  lemma {:induction false} DashRunsKeepsAlnums(s: string)
    ensures Alnums(DashRuns(s)) == Alnums(s)
  {
    if s != [] {
      DashRunsKeepsAlnums(s[1..]);
      if IsLowerAlnum(s[0]) {
        AlnumsAppend([s[0]], DashRuns(s[1..]));
      } else if |s| < 2 || IsLowerAlnum(s[1]) {
        AlnumsAppend("-", DashRuns(s[1..]));
      }
    }
  }

  /** Removing the edge dashes keeps the letters and digits. */
  lemma StripDashesKeepsAlnums(d: string)
    ensures Alnums(StripDashes(d)) == Alnums(d)
  {
    var r := StripDashes(d);
    assert Alnums("-") == [];
    AlnumsAppend("-", r);
    AlnumsAppend(r, "-");
    AlnumsAppend("-" + r, "-");
  }

  /** Each character outside `[a-z0-9]` replaced by `-`. */
  function Mask(s: string): (r: string)
    ensures |r| == |s|
    ensures forall k :: 0 <= k < |s| ==> r[k] == if IsLowerAlnum(s[k]) then s[k] else '-'
  {
    seq(|s|, k requires 0 <= k < |s| => if IsLowerAlnum(s[k]) then s[k] else '-')
  }

  /** A `-` directly followed by another `-` dropped: each run of dashes becomes one dash. */
  function Squeeze(t: string): string {
    if |t| <= 1 then t
    else if t[0] == '-' && t[1] == '-' then Squeeze(t[1..])
    else [t[0]] + Squeeze(t[1..])
  }

  /**
   * `.replace(/[^a-z0-9]+/g, '-')` read as the regular expression says:
   * every character outside `[a-z0-9]` becomes `-`, and each run of them
   * becomes a single `-`.
   */
  lemma {:induction false} DashRunsMeaning(s: string)
    ensures DashRuns(s) == Squeeze(Mask(s))
  {
    if s != [] {
      var m := Mask(s);
      DashRunsMeaning(s[1..]);
      assert m == [m[0]] + Mask(s[1..]);
      assert m[1..] == Mask(s[1..]);
    }
  }

  /** The slug is the lower-cased label with each run of other characters replaced by one `-`, and one edge `-` dropped at each end. */
  lemma SlugifyMeaning(text: string)
    ensures Slugify(text) == StripDashes(Squeeze(Mask(ToLower(text))))
  {
    DashRunsMeaning(ToLower(text));
  }

  /** Removing the edge dashes of a dash-shaped text leaves one with letters or digits at both ends. */
  lemma StripDashesShape(d: string)
    requires DashShaped(d)
    ensures var r := StripDashes(d);
      DashShaped(r) && (r == [] || (r[0] != '-' && r[|r| - 1] != '-'))
  {
    var t := if d != [] && d[0] == '-' then d[1..] else d;
    DropLeadingDash(d);
    DropTrailingDash(t);
    var r := if t != [] && t[|t| - 1] == '-' then t[..|t| - 1] else t;
    assert r == StripDashes(d);
  }

  /** Lower-case letters, digits and single dashes. */
  predicate DashShaped(s: string) {
    && (forall k :: 0 <= k < |s| ==> IsLowerAlnum(s[k]) || s[k] == '-')
    && (forall k :: 0 <= k < |s| - 1 ==> !(s[k] == '-' && s[k + 1] == '-'))
  }

  lemma DropLeadingDash(d: string)
    requires DashShaped(d)
    ensures var t := if d != [] && d[0] == '-' then d[1..] else d;
      DashShaped(t) && (t == [] || t[0] != '-')
  {
    if d != [] && d[0] == '-' {
      var t := d[1..];
      assert forall k :: 0 <= k < |t| ==> t[k] == d[k + 1];
      if t != [] {
        assert t[0] == d[1];
      }
    }
  }

  lemma DropTrailingDash(t: string)
    requires DashShaped(t) && (t == [] || t[0] != '-')
    ensures var r := if t != [] && t[|t| - 1] == '-' then t[..|t| - 1] else t;
      DashShaped(r) && (r == [] || (r[0] != '-' && r[|r| - 1] != '-'))
  {
    if t != [] && t[|t| - 1] == '-' {
      var r := t[..|t| - 1];
      assert forall k :: 0 <= k < |r| ==> r[k] == t[k];
      if r != [] {
        assert r[|r| - 1] == t[|t| - 2];
      }
    }
  }

  datatype TopicLabel = TopicLabel(labelText: string, slug: string, original: Option<string>)

  /** `String(input || '').trim().replace(/\s+/g, ' ')`. */
  function Cleaned(input: string): (r: string)
    ensures r == [] <==> Trim(input) == []
    ensures r == [] || (r[0] != ' ' && r[|r| - 1] != ' ')
  {
    CollapseSpaces(Trim(input))
  }

  /** `normalizeTopicLabel(input)`. */
  function NormalizeTopicLabel(input: string): (r: TopicLabel)
    ensures Trim(input) == [] <==> r == TopicLabel("Untitled", "untitled", None)
    ensures Trim(input) != [] ==> r.original == Some(Cleaned(input))
  {
    var cleaned := Cleaned(input);
    if cleaned == [] then TopicLabel("Untitled", "untitled", None)
    else
      var text := Join(Shorten(LabelWords(cleaned)), " ");
      TopicLabel(text, Slugify(text), Some(cleaned))
  }

  /**
   * A non-blank input gives a label of one to three title-cased words joined
   * by single spaces, whose slug has only `[a-z0-9-]`, no `-` at either end
   * and no doubled `-`.
   */
  lemma NormalizeTopicLabelShape(input: string)
    requires Trim(input) != []
    ensures var words := Shorten(LabelWords(Cleaned(input)));
      && 1 <= |words| <= 3
      && NormalizeTopicLabel(input).labelText == Join(words, " ")
      && NormalizeTopicLabel(input).slug == Slugify(Join(words, " "))
      && (forall k :: 0 <= k < |words| ==> words[k] in LabelWords(Cleaned(input)))
  {
    var cleaned := Cleaned(input);
    var ws := LabelWords(cleaned);
    var words := Shorten(ws);
    assert cleaned != [] && |ws| >= 1;
    var text := Join(words, " ");
    assert NormalizeTopicLabel(input) == TopicLabel(text, Slugify(text), Some(cleaned));
    if |ws| > 3 {
      var f := NonStopWords(ws);
      if f != [] {
        assert forall k :: 0 <= k < |words| ==> words[k] == f[k];
      } else {
        assert forall k :: 0 <= k < |words| ==> words[k] == ws[k];
      }
    }
  }

  /** A long label keeps no stop word when it has any other word. */
  lemma LongLabelDropsStopWords(input: string)
    requires Trim(input) != []
    requires |LabelWords(Cleaned(input))| > 3
    requires exists k :: 0 <= k < |LabelWords(Cleaned(input))| && !IsStopWord(LabelWords(Cleaned(input))[k])
    ensures var words := Shorten(LabelWords(Cleaned(input)));
      forall k :: 0 <= k < |words| ==> !IsStopWord(words[k])
  {
    var ws := LabelWords(Cleaned(input));
    var f := NonStopWords(ws);
    assert f != [];
    var words := Shorten(ws);
    assert forall k :: 0 <= k < |words| ==> words[k] == f[k];
  }

  /** Blank and whitespace-only inputs are all "Untitled". */
  lemma BlankIsUntitled()
    ensures NormalizeTopicLabel("").slug == "untitled"
    ensures NormalizeTopicLabel(" \t\n").labelText == "Untitled"
  {
    TrimAllSpace(" \t\n");
  }

  // ---------------------------------------------------------------------------
  // Canonical edge orientation

  /** A graph endpoint `{id, type}`. */
  datatype Endpoint = Endpoint(id: string, kind: string)

  /** `compareEdgeEndpoints(from, to)`: by type, then by id. */
  function CompareEndpoints(a: Endpoint, b: Endpoint): (c: int)
    ensures c == 0 <==> a == b
    ensures -1 <= c <= 1
  {
    if a.kind == b.kind then Compare(a.id, b.id) else Compare(a.kind, b.kind)
  }

  /** `getCanonicalEdge(from, to)`: the smaller endpoint first. */
  function CanonicalEdge(from: Endpoint, to: Endpoint): (r: (Endpoint, Endpoint))
    ensures r == (from, to) || r == (to, from)
    ensures CompareEndpoints(r.0, r.1) <= 0
  {
    if CompareEndpoints(from, to) <= 0 then (from, to)
    else
      CompareEndpointsAntisymmetric(from, to);
      (to, from)
  }

  lemma CompareEndpointsAntisymmetric(a: Endpoint, b: Endpoint)
    ensures CompareEndpoints(a, b) == -CompareEndpoints(b, a)
  {
    CompareAntisymmetric(a.id, b.id);
    CompareAntisymmetric(a.kind, b.kind);
  }

  /** The orientation does not depend on the argument order. */
  lemma CanonicalEdgeSymmetric(a: Endpoint, b: Endpoint)
    ensures CanonicalEdge(a, b) == CanonicalEdge(b, a)
  {
    CompareEndpointsAntisymmetric(a, b);
  }

  // ---------------------------------------------------------------------------
  // Review schedule and strength

  const DayMs: int := 24 * 60 * 60 * 1000

  /** The day count of `getReviewSchedule`: a step function of strength, per cadence. */
  function ReviewDays(strength: real, cadence: string): (days: nat)
    ensures cadence == "concept" ==> days in {1, 2, 5, 10}
    ensures cadence != "concept" ==> days in {1, 3, 7, 14}
    ensures strength < 0.35 ==> days == 1
    ensures 0.35 <= strength < 0.55 ==> days == (if cadence == "concept" then 2 else 3)
    ensures 0.55 <= strength < 0.75 ==> days == (if cadence == "concept" then 5 else 7)
    ensures strength >= 0.75 ==> days == (if cadence == "concept" then 10 else 14)
  {
    if strength >= 0.75 then (if cadence == "concept" then 10 else 14)
    else if strength >= 0.55 then (if cadence == "concept" then 5 else 7)
    else if strength >= 0.35 then (if cadence == "concept" then 2 else 3)
    else 1
  }

  /** A stronger item is never reviewed sooner. */
  lemma ReviewDaysMonotone(s: real, t: real, cadence: string)
    requires s <= t
    ensures ReviewDays(s, cadence) <= ReviewDays(t, cadence)
  {
  }

  /** `getReviewSchedule(strength, now, cadence)` as a timestamp. */
  function ReviewSchedule(strength: real, now: int, cadence: string): (due: int)
    ensures due == now + ReviewDays(strength, cadence) * DayMs
    ensures due - now >= DayMs
    ensures (due - now) % DayMs == 0
  {
    now + ReviewDays(strength, cadence) * DayMs
  }

  /** `applyStrengthDelta(strength, delta)`. */
  function ApplyStrengthDelta(strength: real, delta: real): (r: real)
    ensures 0.0 <= r <= 1.0
    ensures 0.0 <= strength + delta <= 1.0 ==> r == strength + delta
  {
    Numbers.Clamp(strength + delta, 0.0, 1.0)
  }

  // ---------------------------------------------------------------------------
  // Edge table

  datatype Edge = Edge(
    id: string, from: Endpoint, to: Endpoint, weight: real,
    reason: Option<string>, createdAt: int, updatedAt: int, archived: bool)

  /** `reason` as JavaScript reads it in `reason || …`: absent and `''` are falsy. */
  predicate ReasonGiven(reason: Option<string>) {
    reason.Some? && reason.value != ""
  }

  /** The stored direction of an edge: `belongs_to` keeps its own, every other reason is canonicalised. */
  function Oriented(from: Endpoint, to: Endpoint, reason: Option<string>): (r: (Endpoint, Endpoint))
    ensures reason == Some("belongs_to") ==> r == (from, to)
    ensures reason != Some("belongs_to") ==> r == CanonicalEdge(from, to)
  {
    if reason == Some("belongs_to") then (from, to) else CanonicalEdge(from, to)
  }

  /** The position of the edge stored as `from → to`, if any. */
  function FindEdge(edges: seq<Edge>, from: Endpoint, to: Endpoint): (r: Option<nat>)
    ensures r.Some? ==> r.value < |edges| && edges[r.value].from == from && edges[r.value].to == to
    ensures r.None? ==> forall k :: 0 <= k < |edges| ==> !(edges[k].from == from && edges[k].to == to)
  {
    if edges == [] then None
    else if edges[0].from == from && edges[0].to == to then Some(0)
    else
      var rest := FindEdge(edges[1..], from, to);
      if rest.Some? then Some(rest.value + 1) else None
  }

  /** The table's `UNIQUE(fromId, fromType, toId, toType)` constraint and its ids as keys. */
  predicate UniqueEdges(edges: seq<Edge>) {
    forall i, j :: 0 <= i < j < |edges| ==>
      !(edges[i].from == edges[j].from && edges[i].to == edges[j].to) && edges[i].id != edges[j].id
  }

  /** Every weight written by the upsert rules lies in [0, 1]. */
  predicate WeightsInRange(edges: seq<Edge>) {
    forall k :: 0 <= k < |edges| ==> 0.0 <= edges[k].weight <= 1.0
  }

  /** The table after `upsertEdge(from, to, reason, bump, now)`, and the id it returns. */
  function Upserted(edges: seq<Edge>, from: Endpoint, to: Endpoint, reason: Option<string>,
                    bump: real, now: int, freshId: string): (r: (seq<Edge>, Option<string>))
  {
    if from == to then (edges, None)
    else
      var (f, t) := Oriented(from, to, reason);
      var found := FindEdge(edges, f, t);
      if found.Some? then
        var prev := edges[found.value];
        var weight := if reason == Some("belongs_to") then 1.0 else Numbers.Clamp(prev.weight + bump, 0.0, 1.0);
        var why := if ReasonGiven(reason) then reason else prev.reason;
        (edges[found.value := prev.(weight := weight, reason := why, updatedAt := now, archived := false)], Some(prev.id))
      else
        var weight := if reason == Some("belongs_to") then 1.0 else Numbers.Clamp(bump, 0.0, 1.0);
        var why := if ReasonGiven(reason) then reason else None;
        (edges + [Edge(freshId, f, t, weight, why, now, now, false)], Some(freshId))
  }

  /** A self-loop leaves the table alone and returns nothing. */
  lemma UpsertSelfLoopNoop(edges: seq<Edge>, e: Endpoint, reason: Option<string>, bump: real, now: int, freshId: string)
    ensures Upserted(edges, e, e, reason, bump, now, freshId) == (edges, None)
  {
  }

  /**
   * Any other call leaves exactly one live edge between the oriented
   * endpoints, with weight 1 for `belongs_to` and otherwise the clamped sum
   * of the previous weight (0 for a new edge) and the bump; it returns that
   * edge's id, and the table keeps its constraint and weight range.
   */
  lemma UpsertResult(edges: seq<Edge>, from: Endpoint, to: Endpoint, reason: Option<string>,
                     bump: real, now: int, freshId: string)
    requires UniqueEdges(edges) && WeightsInRange(edges)
    requires forall k :: 0 <= k < |edges| ==> edges[k].id != freshId
    requires from != to
    ensures var (f, t) := Oriented(from, to, reason);
      var r := Upserted(edges, from, to, reason, bump, now, freshId);
      UpsertOutcome(edges, f, t, reason, bump, now, r.0, r.1)
  {
    var (f, t) := Oriented(from, to, reason);
    var found := FindEdge(edges, f, t);
    var r := Upserted(edges, from, to, reason, bump, now, freshId);
    if found.Some? {
      var i := found.value;
      var prev := edges[i];
      var weight := if reason == Some("belongs_to") then 1.0 else Numbers.Clamp(prev.weight + bump, 0.0, 1.0);
      var why := if ReasonGiven(reason) then reason else prev.reason;
      var e := prev.(weight := weight, reason := why, updatedAt := now, archived := false);
      assert r == (edges[i := e], Some(prev.id));
      UpsertIntoExisting(edges, f, t, reason, bump, now, i, e);
    } else {
      var weight := if reason == Some("belongs_to") then 1.0 else Numbers.Clamp(bump, 0.0, 1.0);
      var why := if ReasonGiven(reason) then reason else None;
      var e := Edge(freshId, f, t, weight, why, now, now, false);
      assert r == (edges + [e], Some(freshId));
      UpsertAppends(edges, f, t, reason, bump, now, e);
    }
  }

  /**
   * The table `es` and returned id after an upsert between the oriented
   * endpoints `f` and `t`: the table keeps its constraint and weight range,
   * and exactly one live edge joins `f` to `t`. Its weight is 1 for
   * `belongs_to`. Otherwise it is the clamped sum of the previous weight
   * (0 for a new edge) and the bump. A given reason is stored. The table
   * grows only when the edge is new, and that edge's id is returned.
   */
  predicate UpsertOutcome(edges: seq<Edge>, f: Endpoint, t: Endpoint, reason: Option<string>, bump: real, now: int,
                          es: seq<Edge>, id: Option<string>)
  {
    var found := FindEdge(edges, f, t);
    && UniqueEdges(es) && WeightsInRange(es)
    && FindEdge(es, f, t).Some?
    && var e := es[FindEdge(es, f, t).value];
    && id == Some(e.id)
    && !e.archived && e.updatedAt == now
    && (reason == Some("belongs_to") ==> e.weight == 1.0)
    && (reason != Some("belongs_to") && found.Some? ==> e.weight == Numbers.Clamp(edges[found.value].weight + bump, 0.0, 1.0))
    && (reason != Some("belongs_to") && found.None? ==> e.weight == Numbers.Clamp(bump, 0.0, 1.0))
    && (ReasonGiven(reason) ==> e.reason == reason)
    && |es| == |edges| + (if found.Some? then 0 else 1)
  }

  /** Rewriting the edge the search found: the upsert of an existing direction. */
  lemma UpsertIntoExisting(edges: seq<Edge>, f: Endpoint, t: Endpoint, reason: Option<string>, bump: real, now: int,
                           i: nat, e: Edge)
    requires UniqueEdges(edges) && WeightsInRange(edges)
    requires FindEdge(edges, f, t) == Some(i)
    requires e == edges[i].(weight := if reason == Some("belongs_to") then 1.0 else Numbers.Clamp(edges[i].weight + bump, 0.0, 1.0),
                            reason := if ReasonGiven(reason) then reason else edges[i].reason,
                            updatedAt := now, archived := false)
    ensures UpsertOutcome(edges, f, t, reason, bump, now, edges[i := e], Some(edges[i].id))
  {
    ReplaceKeepsTable(edges, i, e);
    FindEdgeUnique(edges[i := e], i);
    assert FindEdge(edges[i := e], f, t) == Some(i);
  }

  /** Appending a new edge: the upsert of a direction not yet in the table. */
  lemma UpsertAppends(edges: seq<Edge>, f: Endpoint, t: Endpoint, reason: Option<string>, bump: real, now: int, e: Edge)
    requires UniqueEdges(edges) && WeightsInRange(edges)
    requires forall k :: 0 <= k < |edges| ==> edges[k].id != e.id
    requires FindEdge(edges, f, t).None?
    requires e == Edge(e.id, f, t, if reason == Some("belongs_to") then 1.0 else Numbers.Clamp(bump, 0.0, 1.0),
                       if ReasonGiven(reason) then reason else None, now, now, false)
    ensures UpsertOutcome(edges, f, t, reason, bump, now, edges + [e], Some(e.id))
  {
    ConsKeepsTable(edges, e);
    FindEdgeUnique(edges + [e], |edges|);
    assert FindEdge(edges + [e], f, t) == Some(|edges|);
  }

  /** In a table that keeps its constraint, the search finds the one edge with that direction. */
  lemma FindEdgeUnique(edges: seq<Edge>, i: nat)
    requires UniqueEdges(edges) && i < |edges|
    ensures FindEdge(edges, edges[i].from, edges[i].to) == Some(i)
  {
  }

  /** Rewriting one row without changing its endpoints or id keeps the table valid. */
  lemma ReplaceKeepsTable(edges: seq<Edge>, i: nat, e: Edge)
    requires UniqueEdges(edges) && WeightsInRange(edges) && i < |edges|
    requires e.from == edges[i].from && e.to == edges[i].to && e.id == edges[i].id
    requires 0.0 <= e.weight <= 1.0
    ensures UniqueEdges(edges[i := e]) && WeightsInRange(edges[i := e])
  {
  }

  /** Appending a row whose direction and id are new keeps the table valid. */
  lemma ConsKeepsTable(edges: seq<Edge>, e: Edge)
    requires UniqueEdges(edges) && WeightsInRange(edges)
    requires forall k :: 0 <= k < |edges| ==> edges[k].id != e.id
    requires FindEdge(edges, e.from, e.to).None?
    requires 0.0 <= e.weight <= 1.0
    ensures UniqueEdges(edges + [e]) && WeightsInRange(edges + [e])
  {
  }

  /** Edges between other endpoints are untouched. */
  lemma UpsertKeepsOthers(edges: seq<Edge>, from: Endpoint, to: Endpoint, reason: Option<string>,
                          bump: real, now: int, freshId: string, k: nat)
    requires k < |edges|
    requires (edges[k].from, edges[k].to) != Oriented(from, to, reason)
    ensures var es := Upserted(edges, from, to, reason, bump, now, freshId).0;
      k < |es| && es[k] == edges[k]
  {
  }

  /** Except for `belongs_to`, the direction the caller names does not matter. */
  lemma UpsertSymmetric(edges: seq<Edge>, a: Endpoint, b: Endpoint, reason: Option<string>,
                        bump: real, now: int, freshId: string)
    requires reason != Some("belongs_to")
    ensures Upserted(edges, a, b, reason, bump, now, freshId) == Upserted(edges, b, a, reason, bump, now, freshId)
  {
    CanonicalEdgeSymmetric(a, b);
  }

  /** The edges table, updated in place by `upsertEdge`. */
  class EdgeTable {
    var edges: seq<Edge>

    ghost predicate Valid()
      reads this
    {
      UniqueEdges(edges) && WeightsInRange(edges)
    }

    constructor ()
      ensures Valid() && edges == []
    {
      edges := [];
    }

    /** `upsertEdge(db, from, to, reason, bump, now)`; `freshId` is the new row's `randomUUID()`. */
    method UpsertEdge(from: Endpoint, to: Endpoint, reason: Option<string>, bump: real, now: int, freshId: string)
      returns (id: Option<string>)
      requires Valid()
      requires forall k :: 0 <= k < |edges| ==> edges[k].id != freshId
      modifies this
      ensures Valid()
      ensures (edges, id) == Upserted(old(edges), from, to, reason, bump, now, freshId)
    {
      if from == to {
        return None;
      }
      var (f, t) := Oriented(from, to, reason);
      var found := FindEdge(edges, f, t);
      UpsertResult(edges, from, to, reason, bump, now, freshId);
      if found.Some? {
        var i := found.value;
        var existing := edges[i];
        var weight := if reason == Some("belongs_to") then 1.0 else Numbers.Clamp(existing.weight + bump, 0.0, 1.0);
        var why := if ReasonGiven(reason) then reason else existing.reason;
        edges := edges[i := existing.(weight := weight, reason := why, updatedAt := now, archived := false)];
        id := Some(existing.id);
      } else {
        var weight := if reason == Some("belongs_to") then 1.0 else Numbers.Clamp(bump, 0.0, 1.0);
        var why := if ReasonGiven(reason) then reason else None;
        edges := edges + [Edge(freshId, f, t, weight, why, now, now, false)];
        id := Some(freshId);
      }
    }
  }

  // ---------------------------------------------------------------------------
  // Per-event statistics

  /** A topic's or concept's stats row. */
  datatype Stats = Stats(
    strength: real, lastSeenAt: int, lastReviewedAt: Option<int>, nextReviewAt: int,
    exposures: int, correctCount: int, incorrectCount: int, skipCount: int, minutesSpent: real)

  /**
   * The event payload fields the rules read, each absent or a number;
   * `perQuestion` holds each entry's `unanswered` flag.
   */
  datatype Payload = Payload(
    total: Option<int>, score: Option<int>, correct: Option<int>,
    perQuestion: Option<seq<bool>>, minutes: Option<real>, forceDelta: Option<real>)

  /** `perQuestion.filter((item) => item.unanswered).length`. */
  function CountTrue(flags: seq<bool>): (n: nat)
    ensures n <= |flags|
  {
    if flags == [] then 0 else CountTrue(flags[..|flags| - 1]) + if flags[|flags| - 1] then 1 else 0
  }

  /** `payload.total ?? payload.perQuestion?.length ?? 0`. */
  function QuizTotal(p: Payload): int {
    if p.total.Some? then p.total.value else if p.perQuestion.Some? then |p.perQuestion.value| else 0
  }

  /** `payload.score ?? payload.correct ?? 0`. */
  function QuizCorrect(p: Payload): int {
    if p.score.Some? then p.score.value else if p.correct.Some? then p.correct.value else 0
  }

  function Unanswered(p: Payload): nat {
    if p.perQuestion.Some? then CountTrue(p.perQuestion.value) else 0
  }

  /** `total ? correct / total : 0`. */
  function Accuracy(p: Payload): real {
    if QuizTotal(p) == 0 then 0.0 else QuizCorrect(p) as real / QuizTotal(p) as real
  }

  /** `Number(payload.minutes || 0)`. */
  function Minutes(p: Payload): real {
    if p.minutes.Some? then p.minutes.value else 0.0
  }

  /** The strength delta an event carries before clamping. */
  function EventDelta(kind: string, p: Payload): (d: real)
    ensures p.forceDelta.Some? ==> d == p.forceDelta.value
    ensures p.forceDelta.None? && kind == "VIDEO_WATCHED" ==> d <= 0.05
    ensures p.forceDelta.None? && kind == "CANVAS_USED" ==> d <= 0.08
    ensures p.forceDelta.None? && (kind == "TOPIC_OPENED" || kind == "QUIZ_GENERATED") ==> d == 0.01
    ensures p.forceDelta.None? && kind !in {"QUIZ_SUBMITTED", "VIDEO_WATCHED", "CANVAS_USED", "TOPIC_OPENED", "QUIZ_GENERATED"} ==> d == 0.0
  {
    if p.forceDelta.Some? then p.forceDelta.value
    else if kind == "QUIZ_SUBMITTED" then
      var total := QuizTotal(p);
      var skipPenalty := if total == 0 then 0.0 else Unanswered(p) as real / total as real * 0.05;
      (Accuracy(p) - 0.5) * 0.25 - skipPenalty
    else if kind == "VIDEO_WATCHED" then Numbers.Min(0.05, Minutes(p) / 600.0)
    else if kind == "CANVAS_USED" then Numbers.Min(0.08, Minutes(p) / 300.0)
    else if kind == "TOPIC_OPENED" || kind == "QUIZ_GENERATED" then 0.01
    else 0.0
  }

  /** `applyEventToStats(stats, event, now, cadence)`. */
  function ApplyEventToStats(stats: Option<Stats>, kind: string, p: Payload, now: int, cadence: string): (r: Stats)
    ensures 0.0 <= r.strength <= 1.0
    ensures r.lastSeenAt == now
    ensures r.nextReviewAt == ReviewSchedule(r.strength, now, cadence)
  {
    var prior := if stats.Some? then stats.value.strength else 0.25;
    var exposures := if stats.Some? then stats.value.exposures else 0;
    var correctCount := if stats.Some? then stats.value.correctCount else 0;
    var incorrectCount := if stats.Some? then stats.value.incorrectCount else 0;
    var skipCount := if stats.Some? then stats.value.skipCount else 0;
    var minutes := if stats.Some? then stats.value.minutesSpent else 0.0;
    var reviewed := if stats.Some? then stats.value.lastReviewedAt else None;
    var strength := ApplyStrengthDelta(prior, EventDelta(kind, p));
    var base := Stats(strength, now, reviewed, ReviewSchedule(strength, now, cadence),
                      exposures + 1, correctCount, incorrectCount, skipCount, minutes);
    if kind == "QUIZ_SUBMITTED" then
      var total := QuizTotal(p);
      var correct := QuizCorrect(p);
      var unanswered := Unanswered(p);
      base.(correctCount := correctCount + correct,
            incorrectCount := incorrectCount + (if total - correct - unanswered > 0 then total - correct - unanswered else 0),
            skipCount := skipCount + unanswered,
            lastReviewedAt := if Accuracy(p) >= 0.8 then Some(now) else reviewed)
    else if kind == "VIDEO_WATCHED" || kind == "CANVAS_USED" then
      base.(minutesSpent := minutes + Minutes(p))
    else base
  }

  /**
   * Every event adds one exposure; a quiz submission adds its score to the
   * correct count, `max(total - correct - unanswered, 0)` to the incorrect
   * count and its unanswered entries to the skip count, and marks the item
   * reviewed at 80% accuracy; other events leave those counters alone.
   */
  lemma ApplyEventCounters(stats: Stats, kind: string, p: Payload, now: int, cadence: string)
    ensures var r := ApplyEventToStats(Some(stats), kind, p, now, cadence);
      && r.exposures == stats.exposures + 1
      && (kind == "QUIZ_SUBMITTED" ==>
            && r.correctCount == stats.correctCount + QuizCorrect(p)
            && (QuizTotal(p) - QuizCorrect(p) - Unanswered(p) > 0 ==>
                  r.incorrectCount == stats.incorrectCount + QuizTotal(p) - QuizCorrect(p) - Unanswered(p))
            && (QuizTotal(p) - QuizCorrect(p) - Unanswered(p) <= 0 ==> r.incorrectCount == stats.incorrectCount)
            && r.skipCount == stats.skipCount + Unanswered(p)
            && (Accuracy(p) >= 0.8 ==> r.lastReviewedAt == Some(now))
            && (Accuracy(p) < 0.8 ==> r.lastReviewedAt == stats.lastReviewedAt))
      && (kind != "QUIZ_SUBMITTED" ==>
            && r.correctCount == stats.correctCount && r.incorrectCount == stats.incorrectCount
            && r.skipCount == stats.skipCount && r.lastReviewedAt == stats.lastReviewedAt)
  {
  }

  /** `forceDelta` replaces whatever delta the event kind would give. */
  lemma ForceDeltaOverrides(stats: Option<Stats>, kind: string, p: Payload, now: int, cadence: string)
    requires p.forceDelta.Some?
    ensures var prior := if stats.Some? then stats.value.strength else 0.25;
      ApplyEventToStats(stats, kind, p, now, cadence).strength == ApplyStrengthDelta(prior, p.forceDelta.value)
  {
  }

  /** A first event on an unseen item starts from strength 0.25 with one exposure. */
  lemma FirstEventStartsFresh(kind: string, p: Payload, now: int, cadence: string)
    ensures var r := ApplyEventToStats(None, kind, p, now, cadence);
      r.exposures == 1 && r.strength == ApplyStrengthDelta(0.25, EventDelta(kind, p))
  {
  }
}
