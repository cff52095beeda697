/**
 * The client's learning state and the `prev => next` updates the provider
 * hands to `setState`: marking and unmarking viewed videos per topic,
 * storing quizzes per source, changing one mastery score, and merging the
 * server's concept masteries into the mastery map.
 */
module LearningContext {
  import opened Wrappers
  import opened JsonModel

  /** A quiz as stored: the quiz's own fields, then its source and creation time. */
  datatype StoredQuiz = StoredQuiz(quiz: Json, sourceType: string, sourceId: string, sourceMetadata: Json, createdAt: int)

  /**
   * The parts of the state these updates touch. `quizzesBySource` keeps the
   * object's key order (insertion order), which `getAllQuizzes` follows.
   */
  datatype LearningState = LearningState(
    masteryMap: map<string, real>,
    viewedVideosByTopic: map<string, seq<string>>,
    quizzesBySource: seq<(string, seq<StoredQuiz>)>)

  // ---------------------------------------------------------------------------
  // Viewed videos

  /** `prev.viewedVideosByTopic?.[topic] || []`. */
  function ViewsOf(s: LearningState, topic: string): seq<string> {
    if topic in s.viewedVideosByTopic then s.viewedVideosByTopic[topic] else []
  }

  /** `markVideoViewed`: the state itself when the id is already there, else the id appended to the topic's list. */
  function MarkVideoViewed(prev: LearningState, topic: string, videoId: string): (next: LearningState)
    ensures videoId in ViewsOf(next, topic)
    ensures videoId in ViewsOf(prev, topic) ==> next == prev
    ensures videoId !in ViewsOf(prev, topic) ==> ViewsOf(next, topic) == ViewsOf(prev, topic) + [videoId]
    ensures forall t :: t != topic ==> ViewsOf(next, t) == ViewsOf(prev, t)
    ensures next.masteryMap == prev.masteryMap && next.quizzesBySource == prev.quizzesBySource
  {
    var views := ViewsOf(prev, topic);
    if videoId in views then prev
    else prev.(viewedVideosByTopic := prev.viewedVideosByTopic[topic := views + [videoId]])
  }

  /** `ids.filter((id) => id !== videoId)`. */
  function Without(ids: seq<string>, videoId: string): (r: seq<string>)
    ensures forall x :: x in r <==> x in ids && x != videoId
    ensures |r| <= |ids|
    ensures videoId !in ids ==> r == ids
  {
    if ids == [] then []
    else (if ids[0] == videoId then [] else [ids[0]]) + Without(ids[1..], videoId)
  }

  /** `unmarkVideoViewed`: every occurrence of the id leaves the topic's list; the topic is always written. */
  function UnmarkVideoViewed(prev: LearningState, topic: string, videoId: string): (next: LearningState)
    ensures topic in next.viewedVideosByTopic
    ensures forall x :: x in ViewsOf(next, topic) <==> x in ViewsOf(prev, topic) && x != videoId
    ensures forall t :: t != topic ==> ViewsOf(next, t) == ViewsOf(prev, t)
    ensures next.masteryMap == prev.masteryMap && next.quizzesBySource == prev.quizzesBySource
  {
    prev.(viewedVideosByTopic := prev.viewedVideosByTopic[topic := Without(ViewsOf(prev, topic), videoId)])
  }

  /** Marking twice is marking once. */
  lemma MarkIdempotent(s: LearningState, topic: string, videoId: string)
    ensures MarkVideoViewed(MarkVideoViewed(s, topic, videoId), topic, videoId) == MarkVideoViewed(s, topic, videoId)
  {
  }

  /** Unmarking undoes a mark of an id the topic did not list. */
  lemma UnmarkUndoesMark(s: LearningState, topic: string, videoId: string)
    requires topic in s.viewedVideosByTopic && videoId !in ViewsOf(s, topic)
    ensures UnmarkVideoViewed(MarkVideoViewed(s, topic, videoId), topic, videoId) == s
  {
    WithoutAppended(ViewsOf(s, topic), videoId);
  }

  lemma {:induction false} WithoutAppended(ids: seq<string>, videoId: string)
    requires videoId !in ids
    ensures Without(ids + [videoId], videoId) == ids
  {
    if ids == [] {
      assert [videoId][1..] == [];
    } else {
      assert (ids + [videoId])[1..] == ids[1..] + [videoId];
      WithoutAppended(ids[1..], videoId);
    }
  }

  // ---------------------------------------------------------------------------
  // Quizzes by source

  /** `${sourceType}-${sourceId}`. */
  function SourceKey(sourceType: string, sourceId: string): (k: string)
    ensures |k| == |sourceType| + 1 + |sourceId|
    ensures k[|sourceType|] == '-'
  {
    sourceType + "-" + sourceId
  }

  function Find(entries: seq<(string, seq<StoredQuiz>)>, key: string): (r: Option<seq<StoredQuiz>>)
    ensures r.Some? <==> exists k :: 0 <= k < |entries| && entries[k].0 == key
  {
    if entries == [] then None
    else if entries[0].0 == key then Some(entries[0].1)
    else Find(entries[1..], key)
  }

  /** `{ ...entries, [key]: value }`: an existing key keeps its place, a new one goes last. */
  function Put(entries: seq<(string, seq<StoredQuiz>)>, key: string, value: seq<StoredQuiz>): (r: seq<(string, seq<StoredQuiz>)>)
    ensures Find(r, key) == Some(value)
    ensures forall k :: k != key ==> Find(r, k) == Find(entries, k)
    ensures Find(entries, key).Some? ==> |r| == |entries|
    ensures Find(entries, key).None? ==> r == entries + [(key, value)]
  {
    if entries == [] then [(key, value)]
    else if entries[0].0 == key then [(key, value)] + entries[1..]
    else [entries[0]] + Put(entries[1..], key, value)
  }

  /** `getQuizzesForSource`: the quizzes stored under the source's key, `[]` for an unknown source. */
  function QuizzesForSource(s: LearningState, sourceType: string, sourceId: string): (r: seq<StoredQuiz>)
    ensures Find(s.quizzesBySource, SourceKey(sourceType, sourceId)).None? ==> r == []
  {
    Find(s.quizzesBySource, SourceKey(sourceType, sourceId)).GetOr([])
  }

  /** `storeQuizWithSource`: the quiz, stamped with its source and `now`, goes first in its source's list. */
  function StoreQuizWithSource(prev: LearningState, sourceType: string, sourceId: string, sourceMetadata: Json,
                               quiz: Json, now: int): (next: LearningState)
    ensures QuizzesForSource(next, sourceType, sourceId) ==
      [StoredQuiz(quiz, sourceType, sourceId, sourceMetadata, now)] + QuizzesForSource(prev, sourceType, sourceId)
    ensures forall k :: k != SourceKey(sourceType, sourceId) ==> Find(next.quizzesBySource, k) == Find(prev.quizzesBySource, k)
    ensures next.masteryMap == prev.masteryMap && next.viewedVideosByTopic == prev.viewedVideosByTopic
  {
    var key := SourceKey(sourceType, sourceId);
    var stored := StoredQuiz(quiz, sourceType, sourceId, sourceMetadata, now);
    prev.(quizzesBySource := Put(prev.quizzesBySource, key, [stored] + QuizzesForSource(prev, sourceType, sourceId)))
  }

  /** `Object.values(quizzesBySource).flat()`: every source's list, in key order. */
  function AllQuizzes(entries: seq<(string, seq<StoredQuiz>)>): (r: seq<StoredQuiz>)
    ensures forall k :: 0 <= k < |entries| ==> forall q :: q in entries[k].1 ==> q in r
  {
    if entries == [] then []
    else
      var rest := AllQuizzes(entries[1..]);
      assert forall k :: 1 <= k < |entries| ==> entries[k] == entries[1..][k - 1];
      entries[0].1 + rest
  }

  /** Total number of stored quizzes. */
  function Count(entries: seq<(string, seq<StoredQuiz>)>): nat {
    if entries == [] then 0 else |entries[0].1| + Count(entries[1..])
  }

  lemma {:induction false} AllQuizzesCount(entries: seq<(string, seq<StoredQuiz>)>)
    ensures |AllQuizzes(entries)| == Count(entries)
  {
    if entries != [] {
      AllQuizzesCount(entries[1..]);
    }
  }

  /** Storing a quiz adds exactly one quiz to `getAllQuizzes`, and that quiz is among them. */
  lemma {:induction false} StoreAddsOne(entries: seq<(string, seq<StoredQuiz>)>, key: string, stored: StoredQuiz)
    ensures var r := Put(entries, key, [stored] + Find(entries, key).GetOr([]));
      Count(r) == Count(entries) + 1 && stored in AllQuizzes(r)
  {
    var r := Put(entries, key, [stored] + Find(entries, key).GetOr([]));
    if entries == [] {
      assert [stored] + [] == [stored];
      assert r == [(key, [stored])];
    } else if entries[0].0 == key {
      assert Find(entries, key) == Some(entries[0].1);
      assert r[1..] == entries[1..];
      assert r[0].1 == [stored] + entries[0].1;
    } else {
      assert r == [entries[0]] + Put(entries[1..], key, [stored] + Find(entries[1..], key).GetOr([]));
      StoreAddsOne(entries[1..], key, stored);
      assert r[1..] == Put(entries[1..], key, [stored] + Find(entries[1..], key).GetOr([]));
    }
  }

  // ---------------------------------------------------------------------------
  // Mastery

  /** `updateMastery`: exactly one key of the mastery map changes. */
  function UpdateMastery(prev: LearningState, nodeTitle: string, nextScore: real): (next: LearningState)
    ensures nodeTitle in next.masteryMap && next.masteryMap[nodeTitle] == nextScore
    ensures next.masteryMap.Keys == prev.masteryMap.Keys + {nodeTitle}
    ensures forall t :: t in prev.masteryMap && t != nodeTitle ==> next.masteryMap[t] == prev.masteryMap[t]
    ensures next.viewedVideosByTopic == prev.viewedVideosByTopic && next.quizzesBySource == prev.quizzesBySource
  {
    prev.(masteryMap := prev.masteryMap[nodeTitle := nextScore])
  }

  /** One of the server's concept records: its name and mastery, either possibly missing. */
  datatype ConceptEntry = ConceptEntry(name: Option<string>, mastery: Option<real>)

  /** A record with a truthy name. */
  predicate Named(c: ConceptEntry) {
    c.name.Some? && c.name.value != ""
  }

  /** `concept.mastery ?? masteryMap[concept.name] ?? 0` for each named record, in order. */
  function MergeMastery(masteryMap: map<string, real>, concepts: seq<ConceptEntry>): (r: map<string, real>)
    ensures masteryMap.Keys <= r.Keys
    ensures forall n :: n in r && n !in masteryMap ==> exists k :: 0 <= k < |concepts| && Named(concepts[k]) && concepts[k].name.value == n
  {
    if concepts == [] then masteryMap
    else
      var prev := MergeMastery(masteryMap, concepts[..|concepts| - 1]);
      var c := concepts[|concepts| - 1];
      if !Named(c) then prev
      else
        var name := c.name.value;
        prev[name := if c.mastery.Some? then c.mastery.value else if name in prev then prev[name] else 0.0]
  }

  /** The last mastery the records give for `name`, if any. */
  function LastMastery(concepts: seq<ConceptEntry>, name: string): Option<real> {
    if concepts == [] then None
    else
      var c := concepts[|concepts| - 1];
      if Named(c) && c.name.value == name && c.mastery.Some? then c.mastery
      else LastMastery(concepts[..|concepts| - 1], name)
  }

  predicate Mentions(concepts: seq<ConceptEntry>, name: string) {
    exists k :: 0 <= k < |concepts| && Named(concepts[k]) && concepts[k].name.value == name
  }

  /**
   * After the merge a name holds the last mastery the records give it; a
   * name they mention without a mastery keeps its old value, or 0; any
   * other name is untouched.
   */
  lemma {:induction false} MergeMasteryValue(masteryMap: map<string, real>, concepts: seq<ConceptEntry>, name: string)
    ensures var r := MergeMastery(masteryMap, concepts);
      && (LastMastery(concepts, name).Some? ==> name in r && r[name] == LastMastery(concepts, name).value)
      && (LastMastery(concepts, name).None? && Mentions(concepts, name) ==>
            name in r && r[name] == (if name in masteryMap then masteryMap[name] else 0.0))
      && (!Mentions(concepts, name) ==> (name in r <==> name in masteryMap) && (name in r ==> r[name] == masteryMap[name]))
  {
    if concepts != [] {
      var init := concepts[..|concepts| - 1];
      MergeMasteryValue(masteryMap, init, name);
      if Mentions(init, name) {
        var k :| 0 <= k < |init| && Named(init[k]) && init[k].name.value == name;
        assert concepts[k] == init[k];
      }
    }
  }

  /** The `forEach` of `refreshLearnerProfile` over the server's concept records. */
  method RefreshMastery(masteryMap: map<string, real>, concepts: seq<ConceptEntry>) returns (merged: map<string, real>)
    ensures merged == MergeMastery(masteryMap, concepts)
  {
    merged := masteryMap;
    var i := 0;
    while i < |concepts|
      invariant 0 <= i <= |concepts|
      invariant merged == MergeMastery(masteryMap, concepts[..i])
    {
      assert concepts[..i + 1][..i] == concepts[..i];
      var c := concepts[i];
      if Named(c) {
        var name := c.name.value;
        if c.mastery.Some? {
          merged := merged[name := c.mastery.value];
        } else if name in merged {
          merged := merged[name := merged[name]];
        } else {
          merged := merged[name := 0.0];
        }
      }
      i := i + 1;
    }
    assert concepts[..i] == concepts;
  }
}
