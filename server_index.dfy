/**
 * The Node server's request-level logic (server/index.js): recovering JSON
 * from a model reply, the per-requester sliding-window rate limit on canvas
 * analysis, the canvas result cache with its time-to-live, the report card
 * computed from stored attempts, and the choice of quiz to score.
 *
 * The clock (`Date.now()`), the JSON parser and the SHA-256 cache key are
 * parameters; stored rows are given newest first, as the SQL query orders them.
 */
module ServerIndex {
  import opened Wrappers
  import opened Strings
  import opened JsonModel
  import Numbers
  import Sorting

  const RateWindowMs: int := 60 * 1000
  const RateLimit: nat := 8
  const CacheTtlMs: int := 120 * 1000

  // ---------------------------------------------------------------------------
  // normalizeJson

  /** `s.replace(/```json|```/g, '')`: every marker removed, scanning left to right. */
  function StripMarkers(s: string): (r: string)
    ensures |r| <= |s|
    ensures (forall k :: 0 <= k < |s| ==> s[k] != '`') ==> r == s
    decreases |s|
  {
    if s == [] then []
    else if s[0] != '`' then [s[0]] + StripMarkers(s[1..])
    else if IsPrefix("```json", s) then StripMarkers(s[7..])
    else if IsPrefix("```", s) then StripMarkers(s[3..])
    else [s[0]] + StripMarkers(s[1..])
  }

  /** A body without backticks followed by a closing fence loses just the fence. */
  lemma {:induction false} StripClosingFence(body: string)
    requires forall k :: 0 <= k < |body| ==> body[k] != '`'
    ensures StripMarkers(body + "```") == body
  {
    if body == [] {
      assert body + "```" == "```";
      assert "```"[3..] == [];
    } else {
      var s := body + "```";
      assert s[0] == body[0] && s[0] != '`';
      assert s[1..] == body[1..] + "```";
      StripClosingFence(body[1..]);
      assert body == [body[0]] + body[1..];
    }
  }

  /** `normalizeJson(content)`; `None` is an absent reply. */
  function NormalizeJson(content: Option<string>, parse: string -> Option<Json>): (r: Result<Json>)
    ensures content.None? ==> r == Err("Empty model response.")
    ensures content.Some? && Trim(StripMarkers(content.value)) == "" ==> r == Err("Empty model response.")
    ensures r.Ok? ==> content.Some?
    ensures content.Some? && Trim(StripMarkers(content.value)) != "" && parse(Trim(StripMarkers(content.value))).Some? ==>
              r == Ok(parse(Trim(StripMarkers(content.value))).value)
    ensures content.Some? && Trim(StripMarkers(content.value)) != "" && parse(Trim(StripMarkers(content.value))).None? ==>
              var cleaned := Trim(StripMarkers(content.value));
              && (GreedyBraces(cleaned).None? ==> r == Err("Unable to parse JSON from model."))
              && (GreedyBraces(cleaned).Some? && parse(GreedyBraces(cleaned).value).Some? ==> r == Ok(parse(GreedyBraces(cleaned).value).value))
              && (GreedyBraces(cleaned).Some? && parse(GreedyBraces(cleaned).value).None? ==> r.Err?)
    ensures r.Ok? ==>
              var cleaned := Trim(StripMarkers(content.value));
              || parse(cleaned) == Some(r.value)
              || (parse(cleaned).None? && GreedyBraces(cleaned).Some? && parse(GreedyBraces(cleaned).value) == Some(r.value))
  {
    if content.None? then Err("Empty model response.")
    else
      var cleaned := Trim(StripMarkers(content.value));
      if cleaned == "" then Err("Empty model response.")
      else
        match parse(cleaned)
        case Some(v) => Ok(v)
        case None =>
          match GreedyBraces(cleaned)
          case None => Err("Unable to parse JSON from model.")
          case Some(m) =>
            match parse(m)
            case Some(v) => Ok(v)
            case None => Err("SyntaxError: Unexpected token in JSON")
  }

  /** A fenced reply parses as its trimmed body. */
  lemma NormalizeJsonFenced(body: string, parse: string -> Option<Json>)
    requires forall k :: 0 <= k < |body| ==> body[k] != '`'
    requires Trim(body) != "" && parse(Trim(body)).Some?
    ensures NormalizeJson(Some("```json" + body + "```"), parse) == Ok(parse(Trim(body)).value)
  {
    var s := "```json" + body + "```";
    assert IsPrefix("```json", s);
    assert s[7..] == body + "```";
    StripClosingFence(body);
  }

  // ---------------------------------------------------------------------------
  // enforceCanvasRate

  /** `stamps.filter((ts) => ts > bound)`. */
  function StampsAfter(stamps: seq<int>, bound: int): (r: seq<int>)
    ensures |r| <= |stamps|
    ensures forall x :: multiset(r)[x] == if x > bound then multiset(stamps)[x] else 0
  {
    if stamps == [] then []
    else
      var init := StampsAfter(stamps[..|stamps| - 1], bound);
      var last := stamps[|stamps| - 1];
      assert stamps == stamps[..|stamps| - 1] + [last];
      if last > bound then init + [last] else init
  }

  /** The timestamps in an accept log recorded for `key` after `bound`. */
  ghost function AcceptedAfter(log: seq<(string, int)>, key: string, bound: int): (m: multiset<int>)
    ensures forall x :: x in m ==> x > bound
  {
    if log == [] then multiset{}
    else
      var last := log[|log| - 1];
      AcceptedAfter(log[..|log| - 1], key, bound) + if last.0 == key && last.1 > bound then multiset{last.1} else multiset{}
  }

  /** A later bound sees fewer accepted calls. */
  lemma {:induction false} AcceptedAfterMonotone(log: seq<(string, int)>, key: string, b1: int, b2: int)
    requires b1 <= b2
    ensures AcceptedAfter(log, key, b2) <= AcceptedAfter(log, key, b1)
  {
    if log != [] {
      AcceptedAfterMonotone(log[..|log| - 1], key, b1, b2);
    }
  }

  /** Keeping the recent stamps keeps every recent accepted call they covered. */
  lemma StampsAfterCovers(m: multiset<int>, stamps: seq<int>, bound: int)
    requires m <= multiset(stamps)
    requires forall x :: x in m ==> x > bound
    ensures m <= multiset(StampsAfter(stamps, bound))
  {
    forall x ensures m[x] <= multiset(StampsAfter(stamps, bound))[x] {
      if m[x] > 0 {
        assert x in m;
      }
    }
  }

  function StampsFor(stamps: map<string, seq<int>>, key: string): seq<int> {
    if key in stamps then stamps[key] else []
  }

  /**
   * The rate limiter's invariant: no requester has more than eight stored
   * timestamps, and every accepted call inside the window ending at `clock`
   * still has its timestamp stored.
   */
  ghost predicate LimiterInv(stamps: map<string, seq<int>>, log: seq<(string, int)>, clock: int) {
    SizesBounded(stamps) && Covered(stamps, log, clock)
  }

  /** No requester has more than eight stored timestamps. */
  predicate SizesBounded(stamps: map<string, seq<int>>) {
    forall k :: k in stamps ==> |stamps[k]| <= RateLimit
  }

  /** Every accepted call inside the window ending at `clock` still has its timestamp stored. */
  ghost predicate Covered(stamps: map<string, seq<int>>, log: seq<(string, int)>, clock: int) {
    forall k :: AcceptedAfter(log, k, clock - RateWindowMs) <= multiset(StampsFor(stamps, k))
  }

  /** A later clock keeps the invariant (a rejected call changes nothing else). */
  lemma LimiterInvLaterClock(stamps: map<string, seq<int>>, log: seq<(string, int)>, clock: int, later: int)
    requires LimiterInv(stamps, log, clock) && clock <= later
    ensures LimiterInv(stamps, log, later)
  {
    forall k
      ensures AcceptedAfter(log, k, later - RateWindowMs) <= multiset(StampsFor(stamps, k))
    {
      AcceptedAfterMonotone(log, k, clock - RateWindowMs, later - RateWindowMs);
    }
  }

  /** An accepted call keeps the invariant. */
  lemma LimiterInvAccept(stamps: map<string, seq<int>>, log: seq<(string, int)>, clock: int, key: string, now: int)
    requires LimiterInv(stamps, log, clock)
    requires |StampsAfter(StampsFor(stamps, key), now - RateWindowMs)| < RateLimit
    ensures var recent := StampsAfter(StampsFor(stamps, key), now - RateWindowMs);
      LimiterInv(stamps[key := recent + [now]], log + [(key, now)], if now > clock then now else clock)
  {
    var recent := StampsAfter(StampsFor(stamps, key), now - RateWindowMs);
    var later := if now > clock then now else clock;
    LimiterInvLaterClock(stamps, log, clock, later);
    AcceptKeepsCoverage(stamps, log, later, key, now);
    AcceptKeepsSizes(stamps, key, recent + [now]);
  }

  /** Storing at most eight stamps for one key keeps every key within eight. */
  lemma AcceptKeepsSizes(stamps: map<string, seq<int>>, key: string, stored: seq<int>)
    requires SizesBounded(stamps) && |stored| <= RateLimit
    ensures SizesBounded(stamps[key := stored])
  {
    var updated := stamps[key := stored];
    forall k | k in updated
      ensures |updated[k]| <= RateLimit
    {
      if k != key {
        assert updated[k] == stamps[k];
      }
    }
  }

  /** After an accepted call, every accepted call in the window still has its timestamp stored. */
  lemma AcceptKeepsCoverage(stamps: map<string, seq<int>>, log: seq<(string, int)>, later: int, key: string, now: int)
    requires Covered(stamps, log, later)
    requires now <= later
    ensures Covered(stamps[key := StampsAfter(StampsFor(stamps, key), now - RateWindowMs) + [now]], log + [(key, now)], later)
  {
    var stamps' := stamps[key := StampsAfter(StampsFor(stamps, key), now - RateWindowMs) + [now]];
    forall k
      ensures AcceptedAfter(log + [(key, now)], k, later - RateWindowMs) <= multiset(StampsFor(stamps', k))
    {
      AcceptCoversKey(stamps, log, later, key, now, k);
    }
  }

  /** The step of `AcceptKeepsCoverage` for one requester `k`. */
  lemma AcceptCoversKey(stamps: map<string, seq<int>>, log: seq<(string, int)>, later: int, key: string, now: int, k: string)
    requires AcceptedAfter(log, k, later - RateWindowMs) <= multiset(StampsFor(stamps, k))
    requires now <= later
    ensures var stamps' := stamps[key := StampsAfter(StampsFor(stamps, key), now - RateWindowMs) + [now]];
      AcceptedAfter(log + [(key, now)], k, later - RateWindowMs) <= multiset(StampsFor(stamps', k))
  {
    var recent := StampsAfter(StampsFor(stamps, key), now - RateWindowMs);
    var stamps' := stamps[key := recent + [now]];
    AcceptedAfterSnoc(log, k, key, now, later - RateWindowMs);
    if k == key {
      StampsAfterCovers(AcceptedAfter(log, k, later - RateWindowMs), StampsFor(stamps, k), now - RateWindowMs);
      assert StampsFor(stamps', k) == recent + [now];
    } else {
      assert StampsFor(stamps', k) == StampsFor(stamps, k);
    }
  }

  /** Logging one more accepted call adds its timestamp for its own key only. */
  lemma AcceptedAfterSnoc(log: seq<(string, int)>, k: string, key: string, now: int, bound: int)
    ensures AcceptedAfter(log + [(key, now)], k, bound)
      == AcceptedAfter(log, k, bound) + if k == key && now > bound then multiset{now} else multiset{}
  {
    assert (log + [(key, now)])[..|log|] == log;
  }

  /** The per-requester timestamps of `enforceCanvasRate`, with a ghost log of accepted calls and the latest time seen. */
  class RateLimiter {
    var stamps: map<string, seq<int>>
    ghost var accepted: seq<(string, int)>
    ghost var clock: int

    ghost predicate Valid()
      reads this
    {
      LimiterInv(stamps, accepted, clock)
    }

    constructor ()
      ensures Valid() && stamps == map[] && accepted == []
    {
      stamps := map[];
      accepted := [];
      clock := 0;
    }

    /** `enforceCanvasRate(key)` at time `now`. */
    method Enforce(key: string, now: int) returns (ok: bool)
      requires Valid()
      modifies this
      ensures Valid()
      ensures var recent := StampsAfter(StampsFor(old(stamps), key), now - RateWindowMs);
        && (ok <==> |recent| < RateLimit)
        && (ok ==> stamps == old(stamps)[key := recent + [now]] && accepted == old(accepted) + [(key, now)])
      ensures !ok ==> stamps == old(stamps) && accepted == old(accepted)
      ensures clock == if now > old(clock) then now else old(clock)
    {
      var recent := StampsAfter(StampsFor(stamps, key), now - RateWindowMs);
      var later := if now > clock then now else clock;
      if |recent| >= RateLimit {
        LimiterInvLaterClock(stamps, accepted, clock, later);
        clock := later;
        return false;
      }
      LimiterInvAccept(stamps, accepted, clock, key, now);
      stamps := stamps[key := recent + [now]];
      accepted := accepted + [(key, now)];
      clock := later;
      return true;
    }

    /** At most eight calls per requester are accepted within the window that ends at the latest time seen. */
    lemma AcceptedInWindowBounded(key: string)
      requires Valid()
      ensures |AcceptedAfter(accepted, key, clock - RateWindowMs)| <= RateLimit
    {
      var m := AcceptedAfter(accepted, key, clock - RateWindowMs);
      var all := multiset(StampsFor(stamps, key));
      assert m <= all;
      assert all == m + (all - m);
      assert |all| == |StampsFor(stamps, key)|;
    }
  }

  // ---------------------------------------------------------------------------
  // The canvas cache

  datatype CacheEntry = CacheEntry(data: Json, timestamp: int)

  /** The canvas analysis cache, keyed by the SHA-256 of the request (`None` when hashing failed). */
  class CanvasCache {
    var entries: map<string, CacheEntry>

    constructor ()
      ensures entries == map[]
    {
      entries := map[];
    }

    /** The cache check before analysis: a fresh entry is served, an expired one deleted. */
    method Lookup(key: Option<string>, now: int) returns (hit: Option<Json>)
      modifies this
      ensures hit.Some? <==> key.Some? && key.value in old(entries) && now - old(entries)[key.value].timestamp < CacheTtlMs
      ensures hit.Some? ==> hit.value == old(entries)[key.value].data && entries == old(entries)
      ensures hit.None? && key.Some? && key.value in old(entries) ==> entries == old(entries) - {key.value}
      ensures hit.None? && (key.None? || key.value !in old(entries)) ==> entries == old(entries)
    {
      if key.Some? && key.value in entries {
        var cached := entries[key.value];
        if now - cached.timestamp < CacheTtlMs {
          return Some(cached.data);
        }
        entries := entries - {key.value};
      }
      return None;
    }

    /** Recording a fresh analysis result. */
    method Store(key: Option<string>, data: Json, now: int)
      modifies this
      ensures key.Some? ==> entries == old(entries)[key.value := CacheEntry(data, now)]
      ensures key.None? ==> entries == old(entries)
    {
      if key.Some? {
        entries := entries[key.value := CacheEntry(data, now)];
      }
    }
  }

  /** A result stored at `stored` is served to a lookup less than the time-to-live later. */
  method StoreThenLookup(cache: CanvasCache, key: string, data: Json, stored: int, now: int) returns (hit: Option<Json>)
    requires now - stored < CacheTtlMs
    modifies cache
    ensures hit == Some(data)
  {
    cache.Store(Some(key), data, stored);
    hit := cache.Lookup(Some(key), now);
  }

  // ---------------------------------------------------------------------------
  // The report card

  /** The fields of a stored attempt that the report card reads. */
  datatype StoredAttempt = StoredAttempt(topic: string, percentage: int, total: int, correct: int)

  datatype ReportCard = ReportCard(totalAttempts: nat, averageScore: int, last5Average: int, mostMissedTopic: Option<string>)

  function SumPercentages(rows: seq<StoredAttempt>): int {
    if rows == [] then 0 else SumPercentages(rows[..|rows| - 1]) + rows[|rows| - 1].percentage
  }

  /** Sums of scores within 0..100 lie within 0..100 times the count. */
  lemma {:induction false} SumPercentagesBounds(rows: seq<StoredAttempt>)
    requires forall k :: 0 <= k < |rows| ==> 0 <= rows[k].percentage <= 100
    ensures 0 <= SumPercentages(rows) <= 100 * |rows|
  {
    if rows != [] {
      SumPercentagesBounds(rows[..|rows| - 1]);
    }
  }

  /** `n ? Math.round(sum / n) : 0` over the scores. */
  function AverageScore(rows: seq<StoredAttempt>): (a: int)
    ensures rows == [] ==> a == 0
    ensures (forall k :: 0 <= k < |rows| ==> 0 <= rows[k].percentage <= 100) ==> 0 <= a <= 100
  {
    if rows == [] then 0
    else
      var x := SumPercentages(rows) as real / |rows| as real;
      MeanBounds(rows);
      Numbers.Round(x)
  }

  /** The mean of scores in 0..100 is in 0..100. */
  lemma MeanBounds(rows: seq<StoredAttempt>)
    requires rows != []
    ensures (forall k :: 0 <= k < |rows| ==> 0 <= rows[k].percentage <= 100) ==>
      0.0 <= SumPercentages(rows) as real / |rows| as real <= 100.0
  {
    if forall k :: 0 <= k < |rows| ==> 0 <= rows[k].percentage <= 100 {
      SumPercentagesBounds(rows);
      var total := SumPercentages(rows);
      assert 0 <= total <= 100 * |rows|;
      ShareWithin(total as real, |rows| as real);
    }
  }

  /** A total of at most 100 per item, shared over the items, is at most 100. */
  lemma ShareWithin(total: real, n: real)
    requires 0.0 < n && 0.0 <= total <= 100.0 * n
    ensures 0.0 <= total / n <= 100.0
  {
    assert total / n * n == total;
  }

  /** The misses of one attempt, `total - correct`. */
  function Misses(a: StoredAttempt): int {
    a.total - a.correct
  }

  /** The summed misses of every attempt on `topic`. */
  function TopicTotal(rows: seq<StoredAttempt>, topic: string): int {
    if rows == [] then 0
    else TopicTotal(rows[..|rows| - 1], topic) + if rows[|rows| - 1].topic == topic then Misses(rows[|rows| - 1]) else 0
  }

  /** The keys of a tally, in insertion order. */
  function TallyKeys(m: seq<(string, int)>): (ks: seq<string>)
    ensures |ks| == |m|
    ensures forall i :: 0 <= i < |m| ==> ks[i] == m[i].0
  {
    if m == [] then [] else [m[0].0] + TallyKeys(m[1..])
  }

  predicate UniqueKeys(m: seq<(string, int)>) {
    forall i, j :: 0 <= i < j < |m| ==> m[i].0 != m[j].0
  }

  /** `acc[topic] || 0`. */
  function Tally(m: seq<(string, int)>, topic: string): (v: int)
    ensures topic !in TallyKeys(m) ==> v == 0
  {
    if m == [] then 0 else if m[0].0 == topic then m[0].1 else Tally(m[1..], topic)
  }

  /** In a tally with unique keys, an entry's value is the tally of its key. */
  lemma {:induction false} TallyOfEntry(m: seq<(string, int)>, i: nat)
    requires UniqueKeys(m) && i < |m|
    ensures Tally(m, m[i].0) == m[i].1
  {
    if i > 0 {
      TallyOfEntry(m[1..], i - 1);
    }
  }

  /** `acc[topic] = (acc[topic] || 0) + n`: an existing key keeps its place, a new one is appended. */
  function AddMisses(m: seq<(string, int)>, topic: string, n: int): (r: seq<(string, int)>)
    requires UniqueKeys(m)
    ensures UniqueKeys(r)
    ensures forall t :: t in TallyKeys(r) <==> t in TallyKeys(m) || t == topic
    ensures forall t :: Tally(r, t) == Tally(m, t) + if t == topic then n else 0
  {
    if m == [] then [(topic, n)]
    else if m[0].0 == topic then
      assert topic !in TallyKeys(m[1..]);
      [(topic, m[0].1 + n)] + m[1..]
    else
      var rest := AddMisses(m[1..], topic, n);
      assert m[0].0 !in TallyKeys(m[1..]);
      [m[0]] + rest
  }

  /** The `topicMisses` reduce over the rows, in row order. */
  function TopicMisses(rows: seq<StoredAttempt>): (m: seq<(string, int)>)
    ensures UniqueKeys(m)
  {
    if rows == [] then [] else AddMisses(TopicMisses(rows[..|rows| - 1]), rows[|rows| - 1].topic, Misses(rows[|rows| - 1]))
  }

  /** The tally holds exactly the attempted topics, each with its summed misses. */
  lemma {:induction false} TopicMissesSums(rows: seq<StoredAttempt>, t: string)
    ensures Tally(TopicMisses(rows), t) == TopicTotal(rows, t)
    ensures t in TallyKeys(TopicMisses(rows)) <==> exists k :: 0 <= k < |rows| && rows[k].topic == t
  {
    if rows != [] {
      var n := |rows| - 1;
      var init := rows[..n];
      var m := TopicMisses(rows);
      TopicMissesSums(init, t);
      assert m == AddMisses(TopicMisses(init), rows[n].topic, Misses(rows[n]));
      assert Tally(m, t) == Tally(TopicMisses(init), t) + if t == rows[n].topic then Misses(rows[n]) else 0;
      if t in TallyKeys(m) {
        if t != rows[n].topic {
          var k :| 0 <= k < |init| && init[k].topic == t;
          assert rows[k] == init[k];
        }
      } else {
        forall k | 0 <= k < |rows|
          ensures rows[k].topic != t
        {
          if k < n {
            assert rows[k] == init[k];
          }
        }
      }
    }
  }

  /** `Object.entries(topicMisses).sort((a, b) => b[1] - a[1])[0]?.[0] || null`. */
  function MostMissedTopic(rows: seq<StoredAttempt>): (r: Option<string>)
    ensures r.Some? ==> r.value != ""
  {
    var ranked := Sorting.SortDesc(TopicMisses(rows), (e: (string, int)) => e.1 as real);
    if ranked == [] || ranked[0].0 == "" then None else Some(ranked[0].0)
  }

  /** The first entry of a tally ranked by value has the greatest value of any key. */
  lemma RankedFirstIsMax(m: seq<(string, int)>)
    requires UniqueKeys(m) && m != []
    ensures var ranked := Sorting.SortDesc(m, (e: (string, int)) => e.1 as real);
      && ranked[0].0 in TallyKeys(m)
      && forall t :: t in TallyKeys(m) ==> Tally(m, t) <= Tally(m, ranked[0].0)
  {
    var key := (e: (string, int)) => e.1 as real;
    var ranked := Sorting.SortDesc(m, key);
    assert ranked[0] in multiset(m);
    var i :| 0 <= i < |m| && m[i] == ranked[0];
    TallyOfEntry(m, i);
    forall t | t in TallyKeys(m)
      ensures Tally(m, t) <= Tally(m, ranked[0].0)
    {
      var j :| 0 <= j < |m| && TallyKeys(m)[j] == t;
      TallyOfEntry(m, j);
      RankedHeadBounds(m, j);
    }
  }

  /** No entry of a tally has a greater value than the first entry ranked by value. */
  lemma RankedHeadBounds(m: seq<(string, int)>, j: nat)
    requires j < |m|
    ensures m[j].1 <= Sorting.SortDesc(m, (e: (string, int)) => e.1 as real)[0].1
  {
    var key := (e: (string, int)) => e.1 as real;
    var ranked := Sorting.SortDesc(m, key);
    assert m[j] in multiset(ranked);
    Sorting.SortedHeadIsMax(ranked, key, m[j]);
  }

  /**
   * The most missed topic is an attempted topic whose summed misses are at
   * least those of every attempted topic; with no attempts there is none.
   */
  lemma MostMissedTopicIsMax(rows: seq<StoredAttempt>)
    ensures var r := MostMissedTopic(rows);
      r.Some? ==> exists k :: 0 <= k < |rows| && rows[k].topic == r.value
    ensures var r := MostMissedTopic(rows);
      r.Some? ==> forall k :: 0 <= k < |rows| ==> TopicTotal(rows, rows[k].topic) <= TopicTotal(rows, r.value)
    ensures rows == [] ==> MostMissedTopic(rows).None?
  {
    var m := TopicMisses(rows);
    var r := MostMissedTopic(rows);
    if r.Some? {
      RankedFirstIsMax(m);
      TopicMissesSums(rows, r.value);
      forall k | 0 <= k < |rows|
        ensures TopicTotal(rows, rows[k].topic) <= TopicTotal(rows, r.value)
      {
        TopicMissesSums(rows, rows[k].topic);
      }
    }
  }

  /** The `/api/report-card` aggregation over the rows, newest first. */
  function BuildReportCard(rows: seq<StoredAttempt>): (r: ReportCard)
    ensures r.totalAttempts == |rows|
    ensures rows == [] ==> r == ReportCard(0, 0, 0, None)
  {
    ReportCard(|rows|, AverageScore(rows), AverageScore(Sorting.Take(rows, 5)), MostMissedTopic(rows))
  }

  /** Both averages stay in 0..100 when every stored percentage does. */
  lemma ReportCardBounds(rows: seq<StoredAttempt>)
    requires forall k :: 0 <= k < |rows| ==> 0 <= rows[k].percentage <= 100
    ensures 0 <= BuildReportCard(rows).averageScore <= 100
    ensures 0 <= BuildReportCard(rows).last5Average <= 100
  {
  }

  // ---------------------------------------------------------------------------
  // Quiz resolution in score-and-save

  /** The generated quizzes kept in memory by id (`quizzes.set(quiz.id, quiz)`). */
  class QuizRegistry {
    var quizzes: map<string, Json>

    constructor ()
      ensures quizzes == map[]
    {
      quizzes := map[];
    }

    method Remember(id: string, quiz: Json)
      modifies this
      ensures quizzes == old(quizzes)[id := quiz]
    {
      quizzes := quizzes[id := quiz];
    }
  }

  /** `quiz || quizzes.get(quizId)`, and the 400 reply when neither gives a quiz. */
  function ResolveQuiz(bodyQuiz: Option<Json>, quizId: Option<Json>, quizzes: map<string, Json>): (r: Result<Json>)
    ensures JsTruthy(bodyQuiz) ==> r == Ok(bodyQuiz.value)
    ensures !JsTruthy(bodyQuiz) && AsStr(quizId).Some? && AsStr(quizId).value in quizzes && JsTruthy(Some(quizzes[AsStr(quizId).value]))
      ==> r == Ok(quizzes[AsStr(quizId).value])
    ensures r.Err? <==> !JsTruthy(bodyQuiz) && (AsStr(quizId).None? || AsStr(quizId).value !in quizzes || !JsTruthy(Some(quizzes[AsStr(quizId).value])))
  {
    if JsTruthy(bodyQuiz) then Ok(bodyQuiz.value)
    else
      var id := AsStr(quizId);
      if id.Some? && id.value in quizzes && JsTruthy(Some(quizzes[id.value])) then Ok(quizzes[id.value])
      else Err("Quiz not found. Regenerate the quiz.")
  }
}
