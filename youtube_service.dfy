/**
 * The video service's pure part: tag/channel similarity between two
 * videos, "up next" recommendations (unviewed first, each group by
 * similarity), ISO 8601 duration formatting, tag extraction and the mock
 * catalogue used when no API key is configured. The YouTube Data API calls
 * themselves are not modelled.
 */
module YoutubeService {
  import opened Wrappers
  import Numbers
  import Strings
  import Sorting

  datatype Video = Video(id: string, title: string, description: string, channel: Option<string>, thumbnail: string,
                         url: string, duration: string, views: int, tags: seq<string>)

  // ---------------------------------------------------------------------------
  // calculateVideoSimilarity

  function TagSet(v: Video): set<string> {
    set t | t in v.tags
  }

  /** A subset is no larger, and only as large when it is the whole set. */
  lemma {:induction false} SubsetCard(a: set<string>, b: set<string>)
    requires a <= b
    ensures |a| <= |b|
    ensures |a| == |b| ==> a == b
    decreases b
  {
    if b != {} {
      var x :| x in b;
      SubsetCard(a - {x}, b - {x});
      assert |b - {x}| == |b| - 1;
      if x in a {
        assert |a - {x}| == |a| - 1;
        if |a| == |b| {
          assert a == (a - {x}) + {x} && b == (b - {x}) + {x};
        }
      } else {
        assert a - {x} == a;
      }
    }
  }

  /** `|a ∩ b| / |a ∪ b|`, 0 when both are empty. */
  function Jaccard(a: set<string>, b: set<string>): (r: real)
    ensures 0.0 <= r <= 1.0
    ensures r == 1.0 <==> a == b && a != {}
    ensures a * b == {} ==> r == 0.0
  {
    if |a + b| > 0 then
      JaccardRatio(a, b);
      |a * b| as real / |a + b| as real
    else 0.0
  }

  /** A count over a larger positive count: in [0, 1], 1 exactly when they agree, 0 for a zero count. */
  lemma RatioWithin(part: nat, whole: nat)
    requires 0 < whole && part <= whole
    ensures 0.0 <= part as real / whole as real <= 1.0
    ensures part as real / whole as real == 1.0 <==> part == whole
    ensures part == 0 ==> part as real / whole as real == 0.0
  {
    assert part as real / whole as real * whole as real == part as real;
  }

  /** The ratio of a non-empty union: in [0, 1], and 1 exactly when the sets are equal. */
  lemma JaccardRatio(a: set<string>, b: set<string>)
    requires |a + b| > 0
    ensures var r := |a * b| as real / |a + b| as real;
      && 0.0 <= r <= 1.0
      && (r == 1.0 <==> a == b)
      && (a * b == {} ==> r == 0.0)
  {
    SubsetCard(a * b, a + b);
    var shared, all := |a * b|, |a + b|;
    RatioWithin(shared, all);
    assert a == b ==> a * b == a + b;
    assert a * b == a + b ==> a == b by {
      if a * b == a + b {
        assert forall x :: x in a ==> x in b;
        assert forall x :: x in b ==> x in a;
      }
    }
  }

  /** `calculateVideoSimilarity(video1, video2)`. */
  function Similarity(v1: Option<Video>, v2: Option<Video>): (r: real)
    ensures 0.0 <= r <= 1.0
    ensures v1.None? || v2.None? ==> r == 0.0
    ensures v1.Some? && v2.Some? && v1.value.channel == v2.value.channel ==> r >= 0.15
    ensures v1.Some? && v2.Some? && TagSet(v1.value) == TagSet(v2.value) && v1.value.tags != [] ==> r == 1.0
    ensures v1.Some? && v2.Some? && v1.value.channel != v2.value.channel && TagSet(v1.value) * TagSet(v2.value) == {} ==> r == 0.0
  {
    if v1.None? || v2.None? then 0.0
    else
      var a := TagSet(v1.value);
      var b := TagSet(v2.value);
      assert v1.value.tags != [] ==> v1.value.tags[0] in a;
      var bonus := if v1.value.channel == v2.value.channel then 0.15 else 0.0;
      Numbers.Min(1.0, Jaccard(a, b) + bonus)
  }

  lemma JaccardSymmetric(a: set<string>, b: set<string>)
    ensures Jaccard(a, b) == Jaccard(b, a)
  {
    assert a * b == b * a && a + b == b + a;
  }

  /** Similarity does not depend on the order of the two videos. */
  lemma SimilaritySymmetric(v1: Option<Video>, v2: Option<Video>)
    ensures Similarity(v1, v2) == Similarity(v2, v1)
  {
    if v1.Some? && v2.Some? {
      JaccardSymmetric(TagSet(v1.value), TagSet(v2.value));
    }
  }

  // ---------------------------------------------------------------------------
  // recommendVideos

  /** The videos other than the current one that were (`viewed`) or were not yet viewed, in their order. */
  function Candidates(available: seq<Video>, currentId: string, viewedIds: seq<string>, viewed: bool): (r: seq<Video>)
    ensures forall v :: v in r <==> v in available && v.id != currentId && (v.id in viewedIds <==> viewed)
    ensures multiset(r) <= multiset(available)
  {
    if available == [] then []
    else
      var v := available[|available| - 1];
      var init := Candidates(available[..|available| - 1], currentId, viewedIds, viewed);
      assert available == available[..|available| - 1] + [v];
      if v.id != currentId && (v.id in viewedIds <==> viewed) then init + [v] else init
  }

  /** The candidates by similarity to the current video, most similar first (a stable sort). */
  function Ranked(current: Video, candidates: seq<Video>): (r: seq<Video>)
    ensures multiset(r) == multiset(candidates) && |r| == |candidates|
    ensures forall v :: v in r <==> v in candidates
    ensures forall i, j :: 0 <= i < j < |r| ==> Similarity(Some(current), Some(r[i])) >= Similarity(Some(current), Some(r[j]))
  {
    var r := Sorting.SortDesc(candidates, (v: Video) => Similarity(Some(current), Some(v)));
    assert forall v :: v in r <==> v in multiset(r);
    assert forall v :: v in candidates <==> v in multiset(candidates);
    r
  }

  /**
   * `recommendVideos(currentVideo, allVideos, viewedVideoIds, topicVideos, count)`:
   * the ranked unviewed candidates, topped up with the ranked viewed ones
   * when there are fewer than `count`; `_score` never leaves the function.
   */
  function RecommendVideos(current: Video, allVideos: seq<Video>, viewedIds: seq<string>, topicVideos: Option<seq<Video>>,
                           count: int): (r: seq<Video>)
    ensures count >= 0 ==> |r| <= count
    ensures forall v :: v in r ==> v.id != current.id
    ensures forall v :: v in r ==> v in (if topicVideos.Some? then topicVideos.value else allVideos)
  {
    var available := if topicVideos.Some? then topicVideos.value else allVideos;
    TopUp(Ranked(current, Candidates(available, current.id, viewedIds, false)),
          Ranked(current, Candidates(available, current.id, viewedIds, true)), count)
  }

  /**
   * The first `count` unviewed videos when there are enough, else all of
   * them followed by viewed ones up to `count`: either way a prefix of the
   * unviewed group followed by the viewed group.
   */
  function TopUp(unviewed: seq<Video>, viewed: seq<Video>, count: int): (r: seq<Video>)
    ensures count >= 0 ==> r == Sorting.Take(unviewed + viewed, count)
    ensures forall v :: v in r ==> v in unviewed || v in viewed
  {
    if |unviewed| >= count then
      assert count >= 0 ==> (unviewed + viewed)[..count] == unviewed[..count];
      Sorting.SliceTo(unviewed, count)
    else Sorting.SliceTo(unviewed + viewed, count)
  }

  /** In any prefix of a group of unviewed videos followed by a group of viewed ones, no unviewed video follows a viewed one. */
  lemma GroupsInOrder(unviewed: seq<Video>, viewed: seq<Video>, viewedIds: seq<string>, n: nat)
    requires forall v :: v in unviewed ==> v.id !in viewedIds
    requires forall v :: v in viewed ==> v.id in viewedIds
    ensures var r := Sorting.Take(unviewed + viewed, n);
      && (forall i, j :: 0 <= i < j < |r| && r[i].id in viewedIds ==> r[j].id in viewedIds)
      && (n <= |unviewed| ==> forall v :: v in r ==> v.id !in viewedIds)
  {
    var all := unviewed + viewed;
    forall k | 0 <= k < |all|
      ensures all[k].id in viewedIds <==> k >= |unviewed|
    {
      if k < |unviewed| {
        assert all[k] == unviewed[k];
      } else {
        assert all[k] == viewed[k - |unviewed|];
      }
    }
  }

  /**
   * Unviewed videos come first; when at least `count` unviewed candidates
   * exist, no viewed video is returned.
   */
  lemma RecommendUnviewedFirst(current: Video, allVideos: seq<Video>, viewedIds: seq<string>, topicVideos: Option<seq<Video>>,
                               count: int)
    requires count >= 0
    ensures var available := if topicVideos.Some? then topicVideos.value else allVideos;
      var unviewed := Candidates(available, current.id, viewedIds, false);
      var r := RecommendVideos(current, allVideos, viewedIds, topicVideos, count);
      && (forall i, j :: 0 <= i < j < |r| && r[i].id in viewedIds ==> r[j].id in viewedIds)
      && (|unviewed| >= count ==> forall v :: v in r ==> v.id !in viewedIds)
  {
    var available := if topicVideos.Some? then topicVideos.value else allVideos;
    var unviewed := Ranked(current, Candidates(available, current.id, viewedIds, false));
    var viewed := Ranked(current, Candidates(available, current.id, viewedIds, true));
    GroupsInOrder(unviewed, viewed, viewedIds, count);
  }

  // ---------------------------------------------------------------------------
  // parseDuration

  /** The longest run of decimal digits at the start of `s`. */
  function LeadingDigits(s: string): (d: string)
    ensures Strings.AllDigits(d) && Strings.IsPrefix(d, s)
    ensures |d| < |s| ==> !Strings.IsDigit(s[|d|])
  {
    if s != [] && Strings.IsDigit(s[0]) then [s[0]] + LeadingDigits(s[1..]) else ""
  }

  /**
   * An optional group `(\d+U)?` at the start of `s`: its number (0 when the
   * group is absent) and the text after it. Only the full run of digits can
   * be followed by the unit letter, so the greedy match is the only one.
   */
  function Group(s: string, unit: char): (r: (nat, string))
    requires !Strings.IsDigit(unit)
    ensures |r.1| <= |s|
  {
    var d := LeadingDigits(s);
    if d != "" && |d| < |s| && s[|d|] == unit then (Strings.ParseDigits(d), s[|d| + 1..]) else (0, s)
  }

  /** `String(n).padStart(2, '0')`. */
  function Pad2(n: nat): (r: string)
    ensures |r| >= 2 && Strings.AllDigits(r)
  {
    var s := Strings.NatToString(n);
    if |s| < 2 then "0" + s else s
  }

  /** The hours, minutes and seconds matched by `/PT(\d+H)?(\d+M)?(\d+S)?/`, each 0 when absent or when nothing matches. */
  function DurationParts(duration: string): (hms: (nat, nat, nat))
    ensures Strings.FindSub(duration, "PT").None? ==> hms == (0, 0, 0)
  {
    match Strings.FindSub(duration, "PT")
    case None => (0, 0, 0)
    case Some(at) =>
      var rest := duration[at + 2..];
      var (hours, afterHours) := Group(rest, 'H');
      var (minutes, afterMinutes) := Group(afterHours, 'M');
      var (seconds, _) := Group(afterMinutes, 'S');
      (hours, minutes, seconds)
  }

  /** Text made only of digits and colons, as a clock reading is. */
  predicate ClockText(s: string) {
    forall i :: 0 <= i < |s| ==> Strings.IsDigit(s[i]) || s[i] == ':'
  }

  /** Two clock texts joined by a colon form a clock text. */
  lemma ClockJoin(a: string, b: string)
    requires Strings.AllDigits(a) || ClockText(a)
    requires Strings.AllDigits(b)
    ensures ClockText(a + ":" + b)
  {
    var r := a + ":" + b;
    forall i | 0 <= i < |r|
      ensures Strings.IsDigit(r[i]) || r[i] == ':'
    {
      if i < |a| {
        assert r[i] == a[i];
      } else if i > |a| {
        assert r[i] == b[i - |a| - 1];
      }
    }
  }

  /** `parseDuration(duration)`: `H:MM:SS` with hours, else `M:SS`. */
  function ParseDuration(duration: string): (clock: string)
    ensures |clock| >= 4 && ClockText(clock)
  {
    var (hours, minutes, seconds) := DurationParts(duration);
    var ss := Pad2(seconds);
    if hours > 0 then
      var hm := Strings.NatToString(hours) + ":" + Pad2(minutes);
      ClockJoin(Strings.NatToString(hours), Pad2(minutes));
      ClockJoin(hm, ss);
      hm + ":" + ss
    else
      ClockJoin(Strings.NatToString(minutes), ss);
      Strings.NatToString(minutes) + ":" + ss
  }

  lemma GroupOf(n: nat, unit: char, rest: string)
    requires !Strings.IsDigit(unit)
    ensures Group(Strings.NatToString(n) + [unit] + rest, unit) == (n, rest)
  {
    var d := Strings.NatToString(n);
    var s := d + [unit] + rest;
    LeadingDigitsOf(d, [unit] + rest);
    assert s == d + ([unit] + rest);
    assert s[|d| + 1..] == rest;
    Strings.ParseNatToString(n);
  }

  lemma {:induction false} LeadingDigitsOf(d: string, rest: string)
    requires Strings.AllDigits(d)
    requires rest == [] || !Strings.IsDigit(rest[0])
    ensures LeadingDigits(d + rest) == d
  {
    if d != [] {
      assert (d + rest)[1..] == d[1..] + rest;
      LeadingDigitsOf(d[1..], rest);
      assert d == [d[0]] + d[1..];
    } else {
      assert d + rest == rest;
    }
  }

  /** Digits followed by another unit letter leave the group absent. */
  lemma GroupOtherUnit(d: string, other: char, rest: string, unit: char)
    requires Strings.AllDigits(d) && !Strings.IsDigit(other) && !Strings.IsDigit(unit) && other != unit
    ensures Group(d + [other] + rest, unit) == (0, d + [other] + rest)
  {
    assert d + [other] + rest == d + ([other] + rest);
    LeadingDigitsOf(d, [other] + rest);
  }

  /** Text starting with `PT` is matched right there. */
  lemma PartsAfterPrefix(rest: string, hours: nat, afterHours: string, minutes: nat, afterMinutes: string, seconds: nat)
    requires Group(rest, 'H') == (hours, afterHours)
    requires Group(afterHours, 'M') == (minutes, afterMinutes)
    requires Group(afterMinutes, 'S').0 == seconds
    ensures DurationParts("PT" + rest) == (hours, minutes, seconds)
  {
    var text := "PT" + rest;
    assert Strings.OccursAt(text, "PT", 0);
    FindSubAtStart(text, "PT");
    assert text[2..] == rest;
  }

  /** A full `PThHmMsS` with hours reads back as `h:mm:ss`. */
  lemma ParseFullDuration(h: nat, m: nat, s: nat)
    requires h > 0
    ensures var text := "PT" + Strings.NatToString(h) + "H" + Strings.NatToString(m) + "M" + Strings.NatToString(s) + "S";
      ParseDuration(text) == Strings.NatToString(h) + ":" + Pad2(m) + ":" + Pad2(s)
  {
    var hs, ms, ss := Strings.NatToString(h), Strings.NatToString(m), Strings.NatToString(s);
    var afterMinutes := ss + ['S'];
    var afterHours := ms + ['M'] + afterMinutes;
    var rest := hs + ['H'] + afterHours;
    assert "PT" + hs + "H" + ms + "M" + ss + "S" == "PT" + rest;
    GroupOf(h, 'H', afterHours);
    GroupOf(m, 'M', afterMinutes);
    assert afterMinutes == ss + ['S'] + "";
    GroupOf(s, 'S', "");
    PartsAfterPrefix(rest, h, afterHours, m, afterMinutes, s);
  }

  /** Without hours, `PTmMsS` reads back as `m:ss`. */
  lemma ParseMinutesDuration(m: nat, s: nat)
    ensures var text := "PT" + Strings.NatToString(m) + "M" + Strings.NatToString(s) + "S";
      ParseDuration(text) == Strings.NatToString(m) + ":" + Pad2(s)
  {
    MinutesParts(m, s);
  }

  lemma MinutesParts(m: nat, s: nat)
    ensures DurationParts("PT" + Strings.NatToString(m) + "M" + Strings.NatToString(s) + "S") == (0, m, s)
  {
    var ms, ss := Strings.NatToString(m), Strings.NatToString(s);
    assert "PT" + ms + "M" + ss + "S" == "PT" + (ms + ['M'] + (ss + ['S']));
    MinutesRestParts(m, s);
  }

  /** The groups after `PT` in `PTmMsS`: no hours, `m` minutes, `s` seconds. */
  lemma MinutesRestParts(m: nat, s: nat)
    ensures var ms, ss := Strings.NatToString(m), Strings.NatToString(s);
      DurationParts("PT" + (ms + ['M'] + (ss + ['S']))) == (0, m, s)
  {
    var ms, ss := Strings.NatToString(m), Strings.NatToString(s);
    var afterMinutes := ss + ['S'];
    var rest := ms + ['M'] + afterMinutes;
    GroupOtherUnit(ms, 'M', afterMinutes, 'H');
    GroupOf(m, 'M', afterMinutes);
    assert afterMinutes == ss + ['S'] + "";
    GroupOf(s, 'S', "");
    PartsAfterPrefix(rest, 0, rest, m, afterMinutes, s);
  }

  lemma FindSubAtStart(s: string, sub: string)
    requires Strings.OccursAt(s, sub, 0)
    ensures Strings.FindSub(s, sub) == Some(0)
  {
  }

  /** A duration without `PT` reads as `0:00`. */
  lemma NoMatchIsZero(duration: string)
    requires Strings.FindSub(duration, "PT").None?
    ensures ParseDuration(duration) == "0:00"
  {
  }

  // ---------------------------------------------------------------------------
  // extractTags and the mock catalogue

  /** `extractTags(tags)`: the first four tags, lower-cased. */
  function ExtractTags(tags: seq<string>): (r: seq<string>)
    ensures |r| == if |tags| < 4 then |tags| else 4
    ensures forall k :: 0 <= k < |r| ==> r[k] == Strings.ToLower(tags[k])
  {
    var first := Sorting.Take(tags, 4);
    seq(|first|, k requires 0 <= k < |first| => Strings.ToLower(first[k]))
  }

  function MockVideo(id: string, title: string, description: string, channel: string, seed: string, duration: string,
                     views: int, tags: seq<string>): Video {
    Video(id, title, description, Some(channel), "https://picsum.photos/seed/" + seed + "/480/360",
      "https://youtube.com/watch?v=" + id, duration, views, tags)
  }

  /** `MOCK_VIDEOS_DB`, topic by topic. */
  function MockTopics(): seq<(string, seq<Video>)> {
    [
      ("calculus", [
        MockVideo("1", "Limits Explained", "Understanding limits.", "Professor Leonard", "calc1", "8:42", 245000, ["limits", "calculus"]),
        MockVideo("2", "Derivatives Basics", "Derivative intuition.", "3Blue1Brown", "calc2", "12:45", 1200000, ["derivatives", "calculus"]),
        MockVideo("3", "Chain Rule", "Master the chain rule.", "Khan Academy", "calc3", "10:32", 890000, ["chain rule", "calculus"]),
        MockVideo("4", "Integrals Overview", "Integration explained.", "Professor Leonard", "calc4", "11:05", 720000, ["integrals", "calculus"]),
        MockVideo("5", "Fundamental Theorem", "Connecting derivatives and integrals.", "Khan Academy", "calc5", "13:40", 550000,
          ["integrals", "derivatives", "calculus"])
      ]),
      ("data-structures", [
        MockVideo("d1", "Arrays Explained", "Memory layout.", "Back to Back SWE", "ds1", "7:30", 380000, ["arrays", "data structures"]),
        MockVideo("d2", "Linked Lists", "Vs arrays.", "CS50", "ds2", "8:45", 920000, ["linked lists", "data structures"]),
        MockVideo("d3", "Trees", "Tree structures.", "Kunal Kushwaha", "ds3", "22:15", 450000, ["trees", "data structures"]),
        MockVideo("d4", "Binary Search Trees", "BST explained.", "Back to Back SWE", "ds4", "16:50", 620000, ["bst", "data structures"])
      ]),
      ("machine-learning", [
        MockVideo("m1", "Linear Regression", "ML basics.", "3Blue1Brown", "ml1", "14:50", 2300000, ["machine learning", "regression"]),
        MockVideo("m2", "Gradient Descent", "Optimization.", "Andrew Ng", "ml2", "11:30", 1800000, ["machine learning", "gradient descent"]),
        MockVideo("m3", "Backpropagation", "Neural networks.", "3Blue1Brown", "ml3", "15:50", 3200000, ["machine learning", "neural networks"]),
        MockVideo("m4", "Attention Mechanism", "Transformers.", "StatQuest", "ml4", "13:20", 980000, ["machine learning", "attention"])
      ])
    ]
  }

  /** The videos listed under `topic`, `[]` for an unknown topic. */
  function TopicList(db: seq<(string, seq<Video>)>, topic: string): (r: seq<Video>)
    ensures (forall k :: 0 <= k < |db| ==> db[k].0 != topic) ==> r == []
  {
    if db == [] then []
    else if db[0].0 == topic then db[0].1
    else TopicList(db[1..], topic)
  }

  /** `getMockVideos(topic, count)`: a prefix of the topic's list. */
  function GetMockVideos(db: seq<(string, seq<Video>)>, topic: string, count: int): (r: seq<Video>)
    ensures |r| <= |TopicList(db, topic)| && r == TopicList(db, topic)[..|r|]
    ensures count >= 0 ==> |r| <= count
  {
    Sorting.SliceTo(TopicList(db, topic), count)
  }

  /** `Object.values(MOCK_VIDEOS_DB).flat()`. */
  function AllVideos(db: seq<(string, seq<Video>)>): seq<Video> {
    if db == [] then [] else db[0].1 + AllVideos(db[1..])
  }

  /** `all.find((v) => v.id === id)`. */
  function FindById(all: seq<Video>, id: string): (r: Option<Video>)
    ensures r.Some? ==> r.value in all && r.value.id == id
    ensures r.None? <==> forall v :: v in all ==> v.id != id
  {
    if all == [] then None
    else if all[0].id == id then Some(all[0])
    else FindById(all[1..], id)
  }

  /** `getMockVideosById(videoIds)` over a catalogue: the known ids' videos, in request order. */
  function VideosById(all: seq<Video>, ids: seq<string>): (r: seq<Video>)
    ensures |r| <= |ids|
    ensures forall v :: v in r ==> v in all && v.id in ids
  {
    if ids == [] then []
    else
      var init := VideosById(all, ids[..|ids| - 1]);
      match FindById(all, ids[|ids| - 1])
      case Some(v) => init + [v]
      case None => init
  }

  /** When every requested id is known, the result answers the request id for id, in order. */
  lemma {:induction false} VideosByKnownIds(all: seq<Video>, ids: seq<string>)
    requires forall k :: 0 <= k < |ids| ==> FindById(all, ids[k]).Some?
    ensures var r := VideosById(all, ids);
      |r| == |ids| && forall k :: 0 <= k < |ids| ==> r[k].id == ids[k]
  {
    if ids != [] {
      var n := |ids| - 1;
      var init := ids[..n];
      forall k | 0 <= k < |init| ensures FindById(all, init[k]).Some? {
        assert init[k] == ids[k];
      }
      VideosByKnownIds(all, init);
      var ri := VideosById(all, init);
      var r := VideosById(all, ids);
      assert FindById(all, ids[n]).Some?;
      var v := FindById(all, ids[n]).value;
      assert r == ri + [v];
      forall k | 0 <= k < |ids| ensures r[k].id == ids[k] {
        if k < n {
          assert r[k] == ri[k] && init[k] == ids[k];
        }
      }
    }
  }

  /** Unknown ids are dropped: asking for them in addition changes nothing. */
  lemma VideosByIdDropsUnknown(all: seq<Video>, ids: seq<string>, unknown: string)
    requires forall v :: v in all ==> v.id != unknown
    ensures VideosById(all, ids + [unknown]) == VideosById(all, ids)
  {
    assert (ids + [unknown])[..|ids|] == ids;
  }

  function GetMockVideosById(ids: seq<string>): (r: seq<Video>)
    ensures |r| <= |ids|
    ensures forall v :: v in r ==> v in AllVideos(MockTopics()) && v.id in ids
  {
    VideosById(AllVideos(MockTopics()), ids)
  }
}
