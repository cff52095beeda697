/**
 * Recommendations among a course's own videos: a score from shared tags,
 * the topic tag and the length of the "why" blurb; every video shown gets a
 * thumbnail, a placeholder seeded by its id (or topic and position) when it
 * has none.
 */
module RecommendVideos {
  import opened Wrappers
  import Numbers
  import Strings
  import Sorting
  import Uri

  /** A course video: the fields these functions read; every other field travels along unchanged. */
  datatype CourseVideo = CourseVideo(id: Option<string>, thumbnail: Option<string>, tags: Option<seq<string>>, why: Option<string>)

  const FallbackThumbnail := "https://picsum.photos/seed/big-brain-video/640/360"

  predicate Truthy(s: Option<string>) {
    s.Some? && s.value != ""
  }

  /** `video.id || \`${topicSlug}-${index}\``: the seed of a placeholder. */
  function ThumbnailSeed(video: CourseVideo, topicSlug: string, index: nat): (seed: string)
    ensures Truthy(video.id) ==> seed == video.id.value
    ensures !Truthy(video.id) ==> |seed| > |topicSlug| && seed[..|topicSlug|] == topicSlug && seed[|topicSlug|] == '-'
    ensures !Truthy(video.id) ==> seed[|topicSlug| + 1..] == Strings.NatToString(index)
  {
    if Truthy(video.id) then video.id.value
    else
      var seed := topicSlug + "-" + Strings.NatToString(index);
      assert seed[|topicSlug| + 1..] == Strings.NatToString(index);
      seed
  }

  /** The picsum placeholder of a seed, 640 by 360. */
  function Placeholder(seed: string): (url: string)
    ensures Strings.IsPrefix("https://picsum.photos/seed/", url)
    ensures |url| >= 35 && url[|url| - 8..] == "/640/360"
  {
    var url := "https://picsum.photos/seed/" + Uri.EncodeUriComponent(seed) + "/640/360";
    assert url[..27] == "https://picsum.photos/seed/";
    assert url[|url| - 8..] == "/640/360";
    url
  }

  /** `ensureThumbnail(video, topicSlug, index)`. */
  function EnsureThumbnail(video: CourseVideo, topicSlug: string, index: nat): (url: string)
    ensures url != ""
    ensures Truthy(video.thumbnail) ==> url == video.thumbnail.value
    ensures !Truthy(video.thumbnail) ==> url == Placeholder(ThumbnailSeed(video, topicSlug, index))
    ensures !Truthy(video.thumbnail) ==> Strings.IsPrefix("https://picsum.photos/seed/", url) && url[|url| - 8..] == "/640/360"
  {
    if Truthy(video.thumbnail) then video.thumbnail.value
    else Placeholder(ThumbnailSeed(video, topicSlug, index))
  }

  /** `ensureThumbnail(...) || FALLBACK_THUMBNAIL`: the placeholder is always non-empty, so the fallback is never taken. */
  function ThumbnailFor(video: CourseVideo, topicSlug: string, index: nat): (url: string)
    ensures url == EnsureThumbnail(video, topicSlug, index)
  {
    var url := EnsureThumbnail(video, topicSlug, index);
    if url != "" then url else FallbackThumbnail
  }

  /** `normalizeVideo(video, topicSlug, index)`: the video with its thumbnail set. */
  function NormalizeVideo(video: CourseVideo, topicSlug: string, index: nat): (r: CourseVideo)
    ensures r.id == video.id && r.tags == video.tags && r.why == video.why
    ensures Truthy(r.thumbnail)
    ensures Truthy(video.thumbnail) ==> r == video
  {
    video.(thumbnail := Some(ThumbnailFor(video, topicSlug, index)))
  }

  /** `normalizeCourseVideos(course, topicSlug)`: each video normalized at its own position. */
  function NormalizeCourseVideos(videos: Option<seq<CourseVideo>>, topicSlug: string): (r: seq<CourseVideo>)
    ensures |r| == (if videos.Some? then |videos.value| else 0)
    ensures videos.Some? ==> forall k :: 0 <= k < |r| ==> r[k] == NormalizeVideo(videos.value[k], topicSlug, k)
  {
    var vs := if videos.Some? then videos.value else [];
    seq(|vs|, k requires 0 <= k < |vs| => NormalizeVideo(vs[k], topicSlug, k))
  }

  /** Normalizing keeps each video's identity and order, and every normalized video has a thumbnail. */
  lemma NormalizeKeepsOrder(videos: seq<CourseVideo>, topicSlug: string)
    ensures var r := NormalizeCourseVideos(Some(videos), topicSlug);
      |r| == |videos| && forall k :: 0 <= k < |r| ==> r[k].id == videos[k].id && Truthy(r[k].thumbnail)
  {
  }

  /** `tags.filter((tag) => currentTags.includes(tag)).length`, duplicates counted. */
  function Overlap(tags: seq<string>, currentTags: seq<string>): (n: nat)
    ensures n <= |tags|
    ensures (forall t :: t in tags ==> t !in currentTags) ==> n == 0
  {
    if tags == [] then 0 else (if tags[0] in currentTags then 1 else 0) + Overlap(tags[1..], currentTags)
  }

  /** `scoreVideo(video, currentTags, topicSlug)`. */
  function ScoreVideo(video: CourseVideo, currentTags: seq<string>, topicSlug: string): (score: real)
    ensures var tags := video.tags.GetOr([]);
      2.0 * Overlap(tags, currentTags) as real <= score <= 2.0 * Overlap(tags, currentTags) as real + 2.5
    ensures var tags := video.tags.GetOr([]);
      topicSlug in tags ==> score >= 1.5 + 2.0 * Overlap(tags, currentTags) as real
  {
    var tags := video.tags.GetOr([]);
    var topicBoost := if topicSlug in tags then 1.5 else 0.0;
    var whyBoost := if Truthy(video.why) then Numbers.Min(|video.why.value| as real / 140.0, 1.0) else 0.0;
    2.0 * Overlap(tags, currentTags) as real + topicBoost + whyBoost
  }

  /** A video sharing more tags with the current one scores at most 0.5 below one sharing fewer, whatever their topic tag and blurb. */
  lemma SharedTagOutweighs(a: CourseVideo, b: CourseVideo, currentTags: seq<string>, topicSlug: string)
    requires Overlap(a.tags.GetOr([]), currentTags) > Overlap(b.tags.GetOr([]), currentTags)
    ensures ScoreVideo(a, currentTags, topicSlug) >= ScoreVideo(b, currentTags, topicSlug) - 0.5
  {
  }

  /** `videos.find((video) => video.id === currentVideoId) || videos[0]`. */
  function CurrentOf(videos: seq<CourseVideo>, currentVideoId: Option<string>): (c: CourseVideo)
    requires videos != []
    ensures c in videos
    ensures (exists v :: v in videos && v.id == currentVideoId) ==> c.id == currentVideoId
    ensures c.id != currentVideoId ==> c == videos[0]
    ensures c.id == currentVideoId ==> exists k :: 0 <= k < |videos| && c == videos[k] && IsFirstMatch(videos, k, currentVideoId)
  {
    if videos[0].id == currentVideoId || |videos| == 1 then
      assert IsFirstMatch(videos, 0, currentVideoId) || videos[0].id != currentVideoId;
      videos[0]
    else
      var rest := CurrentOf(videos[1..], currentVideoId);
      if rest.id == currentVideoId then
        FirstMatchShift(videos, currentVideoId, rest);
        rest
      else videos[0]
  }

  /** No video before position `k` has the id. */
  predicate IsFirstMatch(videos: seq<CourseVideo>, k: nat, id: Option<string>)
    requires k < |videos|
  {
    videos[k].id == id && forall l :: 0 <= l < k ==> videos[l].id != id
  }

  lemma FirstMatchShift(videos: seq<CourseVideo>, id: Option<string>, c: CourseVideo)
    requires |videos| >= 2 && videos[0].id != id
    requires exists k :: 0 <= k < |videos| - 1 && c == videos[1..][k] && IsFirstMatch(videos[1..], k, id)
    ensures exists k :: 0 <= k < |videos| && c == videos[k] && IsFirstMatch(videos, k, id)
  {
    var k :| 0 <= k < |videos| - 1 && c == videos[1..][k] && IsFirstMatch(videos[1..], k, id);
    forall l | 0 <= l < k + 1
      ensures videos[l].id != id
    {
      if l > 0 {
        assert videos[l] == videos[1..][l - 1];
      }
    }
    assert IsFirstMatch(videos, k + 1, id);
  }

  /** The videos whose id differs from the current one's, in order. */
  function Others(videos: seq<CourseVideo>, currentId: Option<string>): (r: seq<CourseVideo>)
    ensures forall v :: v in r <==> v in videos && v.id != currentId
    ensures |r| <= |videos|
  {
    if videos == [] then []
    else (if videos[0].id != currentId then [videos[0]] else []) + Others(videos[1..], currentId)
  }

  /** Each remaining video with its thumbnail set by its position among them, and its score. */
  function Scored(others: seq<CourseVideo>, currentTags: seq<string>, topicSlug: string): (r: seq<(CourseVideo, real)>)
    ensures |r| == |others|
    ensures forall k :: 0 <= k < |r| ==> r[k] == (NormalizeVideo(others[k], topicSlug, k), ScoreVideo(others[k], currentTags, topicSlug))
  {
    seq(|others|, k requires 0 <= k < |others| => (NormalizeVideo(others[k], topicSlug, k), ScoreVideo(others[k], currentTags, topicSlug)))
  }

  function ScoreOf(p: (CourseVideo, real)): real {
    p.1
  }

  function Videos(pairs: seq<(CourseVideo, real)>): (r: seq<CourseVideo>)
    ensures |r| == |pairs| && forall k :: 0 <= k < |r| ==> r[k] == pairs[k].0
  {
    if pairs == [] then [] else [pairs[0].0] + Videos(pairs[1..])
  }

  /** `getVideoRecommendations(course, currentVideoId, topicSlug, count)`. */
  function GetVideoRecommendations(videos: Option<seq<CourseVideo>>, currentVideoId: Option<string>, topicSlug: string,
                                   count: int): (r: seq<CourseVideo>)
    ensures videos.None? || videos.value == [] ==> r == []
    ensures count >= 0 ==> |r| <= count
    ensures videos.Some? && videos.value != [] ==>
      |r| == Sorting.SliceLength(|Others(videos.value, CurrentOf(videos.value, currentVideoId).id)|, count)
  {
    var vs := if videos.Some? then videos.value else [];
    if vs == [] then []
    else
      var current := CurrentOf(vs, currentVideoId);
      var ranked := Sorting.SortDesc(Scored(Others(vs, current.id), current.tags.GetOr([]), topicSlug), ScoreOf);
      Videos(ranked[..Sorting.SliceLength(|ranked|, count)])
  }

  /** Every scored pair carries a thumbnailed video other than the current one, and that video's score. */
  lemma ScoredFacts(others: seq<CourseVideo>, currentTags: seq<string>, topicSlug: string, currentId: Option<string>)
    requires forall v :: v in others ==> v.id != currentId
    ensures forall p :: p in Scored(others, currentTags, topicSlug) ==>
      p.0.id != currentId && Truthy(p.0.thumbnail) && p.1 == ScoreVideo(p.0, currentTags, topicSlug)
  {
    var scored := Scored(others, currentTags, topicSlug);
    forall p | p in scored
      ensures p.0.id != currentId && Truthy(p.0.thumbnail) && p.1 == ScoreVideo(p.0, currentTags, topicSlug)
    {
      var k :| 0 <= k < |scored| && scored[k] == p;
      assert others[k] in others;
      ScoreIgnoresThumbnail(others[k], currentTags, topicSlug, k);
    }
  }

  /** A prefix of the ranked pairs keeps their facts and their descending scores. */
  lemma RankedPrefix(scored: seq<(CourseVideo, real)>, n: nat, currentTags: seq<string>, topicSlug: string, currentId: Option<string>)
    requires n <= |scored|
    requires forall p :: p in scored ==>
      p.0.id != currentId && Truthy(p.0.thumbnail) && p.1 == ScoreVideo(p.0, currentTags, topicSlug)
    ensures var r := Videos(Sorting.SortDesc(scored, ScoreOf)[..n]);
      && (forall v :: v in r ==> v.id != currentId && Truthy(v.thumbnail))
      && (forall i, j :: 0 <= i < j < |r| ==> ScoreVideo(r[i], currentTags, topicSlug) >= ScoreVideo(r[j], currentTags, topicSlug))
  {
    var ranked := Sorting.SortDesc(scored, ScoreOf);
    var r := Videos(ranked[..n]);
    forall i | 0 <= i < |r|
      ensures r[i].id != currentId && Truthy(r[i].thumbnail) && ScoreVideo(r[i], currentTags, topicSlug) == ranked[i].1
    {
      assert r[i] == ranked[i].0;
      assert ranked[i] in multiset(scored);
    }
    forall v | v in r
      ensures v.id != currentId && Truthy(v.thumbnail)
    {
      var i :| 0 <= i < |r| && r[i] == v;
    }
    forall i, j | 0 <= i < j < |r|
      ensures ScoreVideo(r[i], currentTags, topicSlug) >= ScoreVideo(r[j], currentTags, topicSlug)
    {
      assert ScoreOf(ranked[i]) >= ScoreOf(ranked[j]);
    }
  }

  /**
   * What is recommended: never the current video (nor another with its id),
   * each with a thumbnail, in descending score order; as many as `slice(0,
   * count)` keeps of the other videos, drawn from them as normalized at
   * their positions, and no video left out scores above one kept.
   */
  lemma RecommendationsRanked(videos: seq<CourseVideo>, currentVideoId: Option<string>, topicSlug: string, count: int)
    requires videos != []
    ensures var current := CurrentOf(videos, currentVideoId);
      var tags := current.tags.GetOr([]);
      var others := Others(videos, current.id);
      var normalized := NormalizeCourseVideos(Some(others), topicSlug);
      var r := GetVideoRecommendations(Some(videos), currentVideoId, topicSlug, count);
      && (forall v :: v in r ==> v.id != current.id && Truthy(v.thumbnail))
      && (forall i, j :: 0 <= i < j < |r| ==>
            ScoreVideo(r[i], tags, topicSlug) >= ScoreVideo(r[j], tags, topicSlug))
      && |r| == Sorting.SliceLength(|others|, count)
      && multiset(r) <= multiset(normalized)
      && (forall v :: v in multiset(normalized) - multiset(r) ==>
            forall i :: 0 <= i < |r| ==> ScoreVideo(r[i], tags, topicSlug) >= ScoreVideo(v, tags, topicSlug))
  {
    var current := CurrentOf(videos, currentVideoId);
    var tags := current.tags.GetOr([]);
    var others := Others(videos, current.id);
    var scored := Scored(others, tags, topicSlug);
    ScoredFacts(others, tags, topicSlug, current.id);
    RankedPrefix(scored, Sorting.SliceLength(|scored|, count), tags, topicSlug, current.id);
    RecommendedTop(others, tags, topicSlug, count);
  }

  /** Every pair is a video with its own score. */
  predicate Keyed(pairs: seq<(CourseVideo, real)>, currentTags: seq<string>, topicSlug: string) {
    forall p :: p in pairs ==> p.1 == ScoreVideo(p.0, currentTags, topicSlug)
  }

  /** Among keyed pairs, a video occurs as often as its pair does. */
  lemma CountVideos(a: seq<(CourseVideo, real)>, currentTags: seq<string>, topicSlug: string, v: CourseVideo)
    requires Keyed(a, currentTags, topicSlug)
    ensures multiset(Videos(a))[v] == multiset(a)[(v, ScoreVideo(v, currentTags, topicSlug))]
  {
    CountFirsts(a, w => ScoreVideo(w, currentTags, topicSlug), v);
  }

  lemma {:induction false} CountFirsts(a: seq<(CourseVideo, real)>, key: CourseVideo -> real, v: CourseVideo)
    requires forall p :: p in a ==> p.1 == key(p.0)
    ensures multiset(Videos(a))[v] == multiset(a)[(v, key(v))]
  {
    if a != [] {
      var rest := a[1..];
      assert forall p :: p in rest ==> p in a;
      CountFirsts(rest, key, v);
      VideosCons(a);
      var pv := (v, key(v));
      assert a[0] == pv <==> a[0].0 == v by {
        assert a[0] in a;
      }
      var c := if a[0].0 == v then 1 else 0;
      assert multiset{a[0].0}[v] == c;
      assert multiset{a[0]}[pv] == c;
    }
  }

  lemma VideosCons(a: seq<(CourseVideo, real)>)
    requires a != []
    ensures multiset(Videos(a)) == multiset{a[0].0} + multiset(Videos(a[1..]))
    ensures multiset(a) == multiset{a[0]} + multiset(a[1..])
  {
    assert a == [a[0]] + a[1..];
  }

  lemma KeyedScored(others: seq<CourseVideo>, currentTags: seq<string>, topicSlug: string)
    ensures Keyed(Scored(others, currentTags, topicSlug), currentTags, topicSlug)
    ensures Videos(Scored(others, currentTags, topicSlug)) == NormalizeCourseVideos(Some(others), topicSlug)
  {
    var scored := Scored(others, currentTags, topicSlug);
    forall p | p in scored
      ensures p.1 == ScoreVideo(p.0, currentTags, topicSlug)
    {
      var k :| 0 <= k < |scored| && scored[k] == p;
      ScoreIgnoresThumbnail(others[k], currentTags, topicSlug, k);
    }
  }

  /** The kept videos are the top `slice(0, count)` of the normalized others by score. */
  lemma RecommendedTop(others: seq<CourseVideo>, currentTags: seq<string>, topicSlug: string, count: int)
    ensures var scored := Scored(others, currentTags, topicSlug);
      var r := Videos(Sorting.SortDesc(scored, ScoreOf)[..Sorting.SliceLength(|scored|, count)]);
      var normalized := NormalizeCourseVideos(Some(others), topicSlug);
      && multiset(r) <= multiset(normalized)
      && (forall v :: v in multiset(normalized) - multiset(r) ==>
            forall i :: 0 <= i < |r| ==> ScoreVideo(r[i], currentTags, topicSlug) >= ScoreVideo(v, currentTags, topicSlug))
  {
    var scored := Scored(others, currentTags, topicSlug);
    var sorted := Sorting.SortDesc(scored, ScoreOf);
    var n := Sorting.SliceLength(|scored|, count);
    var kept := sorted[..n];
    assert kept == Sorting.Take(sorted, n);
    KeyedScored(others, currentTags, topicSlug);
    Sorting.TopN(scored, ScoreOf, n);
    KeptVideos(scored, kept, currentTags, topicSlug);
  }

  /** What holds of the top pairs holds of their videos. */
  lemma KeptVideos(scored: seq<(CourseVideo, real)>, kept: seq<(CourseVideo, real)>, currentTags: seq<string>, topicSlug: string)
    requires Keyed(scored, currentTags, topicSlug)
    requires multiset(kept) <= multiset(scored)
    requires forall a :: a in multiset(scored) - multiset(kept) ==> forall i :: 0 <= i < |kept| ==> ScoreOf(kept[i]) >= ScoreOf(a)
    ensures var r := Videos(kept);
      && multiset(r) <= multiset(Videos(scored))
      && (forall v :: v in multiset(Videos(scored)) - multiset(r) ==>
            forall i :: 0 <= i < |r| ==> ScoreVideo(r[i], currentTags, topicSlug) >= ScoreVideo(v, currentTags, topicSlug))
  {
    KeyedPart(scored, kept, currentTags, topicSlug);
    KeptVideosIncluded(scored, kept, currentTags, topicSlug);
    KeptVideosAbove(scored, kept, currentTags, topicSlug);
  }

  lemma KeptVideosIncluded(scored: seq<(CourseVideo, real)>, kept: seq<(CourseVideo, real)>, currentTags: seq<string>, topicSlug: string)
    requires Keyed(scored, currentTags, topicSlug) && Keyed(kept, currentTags, topicSlug)
    requires multiset(kept) <= multiset(scored)
    ensures multiset(Videos(kept)) <= multiset(Videos(scored))
  {
    forall v
      ensures multiset(Videos(kept))[v] <= multiset(Videos(scored))[v]
    {
      CountVideos(kept, currentTags, topicSlug, v);
      CountVideos(scored, currentTags, topicSlug, v);
    }
  }

  lemma KeptVideosAbove(scored: seq<(CourseVideo, real)>, kept: seq<(CourseVideo, real)>, currentTags: seq<string>, topicSlug: string)
    requires Keyed(scored, currentTags, topicSlug) && Keyed(kept, currentTags, topicSlug)
    requires forall a :: a in multiset(scored) - multiset(kept) ==> forall i :: 0 <= i < |kept| ==> ScoreOf(kept[i]) >= ScoreOf(a)
    ensures var r := Videos(kept);
      forall v :: v in multiset(Videos(scored)) - multiset(r) ==>
        forall i :: 0 <= i < |r| ==> ScoreVideo(r[i], currentTags, topicSlug) >= ScoreVideo(v, currentTags, topicSlug)
  {
    forall v | v in multiset(Videos(scored)) - multiset(Videos(kept))
      ensures forall i :: 0 <= i < |Videos(kept)| ==> ScoreVideo(Videos(kept)[i], currentTags, topicSlug) >= ScoreVideo(v, currentTags, topicSlug)
    {
      LeftOutBelow(scored, kept, currentTags, topicSlug, v);
    }
  }

  lemma KeyedPart(scored: seq<(CourseVideo, real)>, kept: seq<(CourseVideo, real)>, currentTags: seq<string>, topicSlug: string)
    requires Keyed(scored, currentTags, topicSlug)
    requires multiset(kept) <= multiset(scored)
    ensures Keyed(kept, currentTags, topicSlug)
  {
    forall p | p in kept
      ensures p.1 == ScoreVideo(p.0, currentTags, topicSlug)
    {
      assert p in multiset(scored);
    }
  }

  /** A video left out has the score of a pair left out, at most every kept score. */
  lemma LeftOutBelow(scored: seq<(CourseVideo, real)>, kept: seq<(CourseVideo, real)>, currentTags: seq<string>, topicSlug: string, v: CourseVideo)
    requires Keyed(scored, currentTags, topicSlug) && Keyed(kept, currentTags, topicSlug)
    requires forall a :: a in multiset(scored) - multiset(kept) ==> forall i :: 0 <= i < |kept| ==> ScoreOf(kept[i]) >= ScoreOf(a)
    requires v in multiset(Videos(scored)) - multiset(Videos(kept))
    ensures forall i :: 0 <= i < |Videos(kept)| ==> ScoreVideo(Videos(kept)[i], currentTags, topicSlug) >= ScoreVideo(v, currentTags, topicSlug)
  {
    CountVideos(kept, currentTags, topicSlug, v);
    CountVideos(scored, currentTags, topicSlug, v);
    var pv := (v, ScoreVideo(v, currentTags, topicSlug));
    assert pv in multiset(scored) - multiset(kept);
    var r := Videos(kept);
    forall i | 0 <= i < |r|
      ensures ScoreVideo(r[i], currentTags, topicSlug) >= ScoreVideo(v, currentTags, topicSlug)
    {
      assert ScoreOf(kept[i]) >= ScoreOf(pv);
      assert kept[i] in kept;
    }
  }

  /** Setting the thumbnail does not change the score. */
  lemma ScoreIgnoresThumbnail(video: CourseVideo, currentTags: seq<string>, topicSlug: string, index: nat)
    ensures ScoreVideo(NormalizeVideo(video, topicSlug, index), currentTags, topicSlug) == ScoreVideo(video, currentTags, topicSlug)
  {
  }
}
