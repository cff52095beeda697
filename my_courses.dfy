/**
 * The "My courses" shelf: each saved course is identified by a key built
 * from its slug and its normalised custom topic; loading keeps the first
 * course of each key, removing drops every course with the target's key,
 * and a course links to its page with the custom topic as a query value.
 */
module MyCourses {
  import opened Wrappers
  import opened Strings
  import Uri

  /**
   * A stored course entry: the fields these operations read. `None` is an
   * absent field (or, for the slug, `undefined`, which a template literal
   * prints as "undefined").
   */
  datatype Course = Course(key: Option<string>, slug: Option<string>, customTopic: Option<string>)

  /** `${slug}` in a template literal. */
  function SlugText(slug: Option<string>): string {
    if slug.Some? then slug.value else "undefined"
  }

  predicate IsLowerCased(s: string) {
    forall i :: 0 <= i < |s| ==> LowerChar(s[i]) == s[i]
  }

  /** `(customTopic || '').trim().toLowerCase().replace(/\s+/g, ' ')`. */
  function NormalizedTopic(customTopic: Option<string>): string {
    CollapseSpaces(ToLower(Trim(if customTopic.Some? then customTopic.value else "")))
  }

  /** The shape of a normalised topic: no blank at either end, no two blanks in a row, no upper-case letter. */
  predicate TopicShaped(r: string) {
    && (r == [] || (!IsSpace(r[0]) && !IsSpace(r[|r| - 1])))
    && (forall i :: 0 <= i < |r| - 1 ==> !(IsSpace(r[i]) && IsSpace(r[i + 1])))
    && IsLowerCased(r)
  }

  /** Every normalised topic has the shape above. */
  lemma NormalizedTopicShape(customTopic: Option<string>)
    ensures TopicShaped(NormalizedTopic(customTopic))
  {
    var topic := if customTopic.Some? then customTopic.value else "";
    var trimmed := Trim(topic);
    var lowered := ToLower(trimmed);
    assert NormalizedTopic(customTopic) == CollapseSpaces(lowered);
    LowerKeepsEdges(trimmed);
    LowerIsLowerCased(trimmed);
    CollapsedShape(lowered);
  }

  /** A course without a custom topic normalises it to the empty string. */
  lemma NoTopicNormalizesEmpty()
    ensures NormalizedTopic(None) == ""
  {
    var t := Trim("");
    assert |t| == 0;
    assert ToLower(t) == [];
  }

  /** Collapsing the blanks of a lower-case string without blanks at its ends gives the shape above. */
  lemma CollapsedShape(s: string)
    requires s == [] || (!IsSpace(s[0]) && !IsSpace(s[|s| - 1]))
    requires IsLowerCased(s)
    ensures TopicShaped(CollapseSpaces(s))
  {
    CollapseKeepsLowerCase(s);
  }

  lemma LowerKeepsEdges(s: string)
    requires s == [] || (!IsSpace(s[0]) && !IsSpace(s[|s| - 1]))
    ensures var l := ToLower(s); l == [] || (!IsSpace(l[0]) && !IsSpace(l[|l| - 1]))
  {
  }

  lemma LowerIsLowerCased(s: string)
    ensures IsLowerCased(ToLower(s))
  {
  }

  /** Collapsing whitespace introduces no upper-case letter. */
  lemma {:induction false} CollapseKeepsLowerCase(s: string)
    requires IsLowerCased(s)
    ensures IsLowerCased(CollapseSpaces(s))
    decreases |s|
  {
    if s == [] {
    } else if IsSpace(s[0]) {
      var rest := TrimStart(s[1..]);
      LowerCasedSuffix(s, |s| - |rest|);
      assert s[|s| - |rest|..] == rest;
      CollapseKeepsLowerCase(rest);
      assert CollapseSpaces(s) == [' '] + CollapseSpaces(rest);
      LowerCasedConcat([' '], CollapseSpaces(rest));
    } else {
      LowerCasedSuffix(s, 1);
      CollapseKeepsLowerCase(s[1..]);
      assert CollapseSpaces(s) == [s[0]] + CollapseSpaces(s[1..]);
      LowerCasedConcat([s[0]], CollapseSpaces(s[1..]));
    }
  }

  lemma LowerCasedSuffix(s: string, k: nat)
    requires k <= |s| && IsLowerCased(s)
    ensures IsLowerCased(s[k..])
  {
    forall i | 0 <= i < |s| - k ensures LowerChar(s[k..][i]) == s[k..][i] {
      assert s[k..][i] == s[k + i];
    }
  }

  lemma LowerCasedConcat(a: string, b: string)
    requires IsLowerCased(a) && IsLowerCased(b)
    ensures IsLowerCased(a + b)
  {
    forall i | 0 <= i < |a + b| ensures LowerChar((a + b)[i]) == (a + b)[i] {
      if i < |a| {
        assert (a + b)[i] == a[i];
      } else {
        assert (a + b)[i] == b[i - |a|];
      }
    }
  }

  /** `normalizeCourseKey(slug, customTopic)`: `${slug}::${normalizedTopic}`. */
  function CourseKey(slug: Option<string>, customTopic: Option<string>): (k: string)
    ensures k != ""
  {
    SlugText(slug) + "::" + NormalizedTopic(customTopic)
  }

  /**
   * Topics that differ only in ASCII case and in blanks around them name the
   * same course.
   */
  lemma SameKeyUpToCaseAndPadding(slug: Option<string>, topic: string, other: string, before: string, after: string)
    requires ToLower(topic) == ToLower(other)
    requires forall i :: 0 <= i < |before| ==> IsSpace(before[i])
    requires forall i :: 0 <= i < |after| ==> IsSpace(after[i])
    ensures CourseKey(slug, Some(before + topic + after)) == CourseKey(slug, Some(other))
  {
    TrimPadded(before, topic, after);
    TrimLowerCaseInsensitive(topic, other);
  }

  /** A missing topic and an empty or blank one give the same key. */
  lemma BlankTopicIsNoTopic(slug: Option<string>, blank: string)
    requires forall i :: 0 <= i < |blank| ==> IsSpace(blank[i])
    ensures CourseKey(slug, Some(blank)) == CourseKey(slug, None) == SlugText(slug) + "::"
  {
    TrimAllSpace(blank);
  }

  /** `course?.key || normalizeCourseKey(course?.slug, course?.customTopic)`; `None` is an entry that is not an object. */
  function KeyOf(entry: Option<Course>): (k: string)
    ensures k != ""
    ensures entry.Some? && entry.value.key.Some? && entry.value.key.value != "" ==> k == entry.value.key.value
  {
    if entry.Some? && entry.value.key.Some? && entry.value.key.value != "" then entry.value.key.value
    else if entry.Some? then CourseKey(entry.value.slug, entry.value.customTopic)
    else CourseKey(None, None)
  }

  /** `{ ...course, key }`. */
  function Stamp(entry: Option<Course>): (c: Course)
    ensures c.key == Some(KeyOf(entry))
    ensures entry.Some? ==> c.slug == entry.value.slug && c.customTopic == entry.value.customTopic
  {
    if entry.Some? then entry.value.(key := Some(KeyOf(entry))) else Course(Some(KeyOf(entry)), None, None)
  }

  // ---------------------------------------------------------------------------
  // Keeping the first entry of each key, for any key function

  /** The keys of a list of entries, as a `seen` set collects them. */
  function KeysBy<T>(entries: seq<T>, key: T -> string): set<string> {
    if entries == [] then {} else KeysBy(entries[..|entries| - 1], key) + {key(entries[|entries| - 1])}
  }

  /** `KeysBy` holds exactly the keys of the entries. */
  lemma {:induction false} KeysByExactly<T>(entries: seq<T>, key: T -> string)
    ensures forall k :: k in KeysBy(entries, key) <==> exists i :: 0 <= i < |entries| && key(entries[i]) == k
  {
    if entries != [] {
      var n := |entries| - 1;
      var init := entries[..n];
      KeysByExactly(init, key);
      forall k | k in KeysBy(entries, key)
        ensures exists i :: 0 <= i < |entries| && key(entries[i]) == k
      {
        if k in KeysBy(init, key) {
          var i :| 0 <= i < |init| && key(init[i]) == k;
          assert entries[i] == init[i];
        } else {
          assert key(entries[n]) == k;
        }
      }
      forall k | exists i :: 0 <= i < |entries| && key(entries[i]) == k
        ensures k in KeysBy(entries, key)
      {
        var i :| 0 <= i < |entries| && key(entries[i]) == k;
        if i < n {
          assert init[i] == entries[i];
        }
      }
    }
  }

  /** The first entry of each key, in order. */
  function FirstBy<T>(entries: seq<T>, key: T -> string): (r: seq<T>)
    ensures |r| <= |entries|
  {
    if entries == [] then []
    else
      var init := entries[..|entries| - 1];
      var last := entries[|entries| - 1];
      if key(last) in KeysBy(init, key) then FirstBy(init, key) else FirstBy(init, key) + [last]
  }

  /** The kept entries carry exactly the keys of all entries. */
  lemma {:induction false} FirstByKeys<T>(entries: seq<T>, key: T -> string)
    ensures forall e :: e in FirstBy(entries, key) ==> key(e) in KeysBy(entries, key)
    ensures forall k :: k in KeysBy(entries, key) ==> exists e :: e in FirstBy(entries, key) && key(e) == k
  {
    if entries != [] {
      var init := entries[..|entries| - 1];
      var last := entries[|entries| - 1];
      var r := FirstBy(entries, key);
      var ri := FirstBy(init, key);
      FirstByKeys(init, key);
      assert r == if key(last) in KeysBy(init, key) then ri else ri + [last];
      forall k | k in KeysBy(entries, key)
        ensures exists e :: e in r && key(e) == k
      {
        if k in KeysBy(init, key) {
          var e :| e in ri && key(e) == k;
          assert e in r;
        } else {
          assert last in r;
        }
      }
    }
  }

  /** No two entries of `s` share a key. */
  predicate DistinctBy<T>(s: seq<T>, key: T -> string) {
    forall i, j :: 0 <= i < j < |s| ==> key(s[i]) != key(s[j])
  }

  /** No two kept entries share a key. */
  lemma {:induction false} FirstByDistinct<T>(entries: seq<T>, key: T -> string)
    ensures DistinctBy(FirstBy(entries, key), key)
  {
    if entries != [] {
      var init := entries[..|entries| - 1];
      var last := entries[|entries| - 1];
      var ri := FirstBy(init, key);
      var r := FirstBy(entries, key);
      FirstByDistinct(init, key);
      if key(last) !in KeysBy(init, key) {
        FirstByKeys(init, key);
        assert r == ri + [last];
        forall i, j | 0 <= i < j < |r|
          ensures key(r[i]) != key(r[j])
        {
          assert r[i] == ri[i];
          if j < |ri| {
            assert r[j] == ri[j];
          } else {
            assert ri[i] in ri && r[j] == last;
          }
        }
      } else {
        assert r == ri;
      }
    }
  }

  /** An entry that is first with its key in a list's prefix, or whose key the prefix lacks, is first in the list. */
  lemma FirstInPrefix<T>(entries: seq<T>, init: seq<T>, key: T -> string, i: nat)
    requires i < |entries| && init == entries[..|entries| - 1]
    requires i == |entries| - 1 ==> key(entries[i]) !in KeysBy(init, key)
    requires i < |entries| - 1 ==> forall j :: 0 <= j < i ==> key(init[j]) != key(init[i])
    ensures forall j :: 0 <= j < i ==> key(entries[j]) != key(entries[i])
  {
    KeysByExactly(init, key);
    forall j | 0 <= j < i ensures key(entries[j]) != key(entries[i]) {
      if i < |entries| - 1 {
        assert entries[j] == init[j] && entries[i] == init[i];
      } else {
        assert entries[j] == init[j];
      }
    }
  }

  /** Each kept entry is the first entry with its key. */
  lemma {:induction false} FirstByKeepsFirst<T>(entries: seq<T>, key: T -> string, e: T)
    requires e in FirstBy(entries, key)
    ensures exists i :: 0 <= i < |entries| && e == entries[i] &&
                        forall j :: 0 <= j < i ==> key(entries[j]) != key(entries[i])
  {
    var init := entries[..|entries| - 1];
    var last := entries[|entries| - 1];
    var ri := FirstBy(init, key);
    assert FirstBy(entries, key) == if key(last) in KeysBy(init, key) then ri else ri + [last];
    if e in ri {
      FirstByKeepsFirst(init, key, e);
      var i :| 0 <= i < |init| && e == init[i] && forall j :: 0 <= j < i ==> key(init[j]) != key(init[i]);
      FirstInPrefix(entries, init, key, i);
      assert e == entries[i];
    } else {
      FirstInPrefix(entries, init, key, |entries| - 1);
    }
  }

  /** Entries whose keys are already distinct are all kept. */
  lemma {:induction false} FirstByAllDistinct<T>(entries: seq<T>, key: T -> string)
    requires DistinctBy(entries, key)
    ensures FirstBy(entries, key) == entries
  {
    if entries != [] {
      var n := |entries| - 1;
      var init := entries[..n];
      assert DistinctBy(init, key) by {
        forall i, j | 0 <= i < j < |init| ensures key(init[i]) != key(init[j]) {
          assert init[i] == entries[i] && init[j] == entries[j];
        }
      }
      FirstByAllDistinct(init, key);
      KeysByExactly(init, key);
      assert key(entries[n]) !in KeysBy(init, key);
      assert entries == init + [entries[n]];
    }
  }

  // ---------------------------------------------------------------------------
  // The dedupe loop on load

  /** The keys of the stored entries. */
  function KeysOf(entries: seq<Option<Course>>): set<string> {
    KeysBy(entries, KeyOf)
  }

  /** Each entry stamped with its key. */
  function Stamped(entries: seq<Option<Course>>): (r: seq<Course>)
    ensures |r| == |entries| && forall i :: 0 <= i < |r| ==> r[i] == Stamp(entries[i])
  {
    seq(|entries|, i requires 0 <= i < |entries| => Stamp(entries[i]))
  }

  /** The entries kept on load: the first of each key, stamped with it, in order. */
  function FirstOfEachKey(entries: seq<Option<Course>>): (r: seq<Course>)
    ensures |r| <= |entries|
  {
    Stamped(FirstBy(entries, KeyOf))
  }

  /** The dedupe loop on load: `seen` holds the keys kept so far. */
  method Dedupe(list: seq<Option<Course>>) returns (deduped: seq<Course>)
    ensures deduped == FirstOfEachKey(list)
  {
    deduped := [];
    var seen: set<string> := {};
    for i := 0 to |list|
      invariant deduped == FirstOfEachKey(list[..i])
      invariant seen == KeysOf(list[..i])
    {
      var pre, next := list[..i], list[..i + 1];
      assert next[..|next| - 1] == pre && next[|next| - 1] == list[i];
      var key := KeyOf(list[i]);
      assert KeysOf(next) == KeysOf(pre) + {key};
      if key in seen {
        assert FirstBy(next, KeyOf) == FirstBy(pre, KeyOf);
        continue;
      }
      seen := seen + {key};
      assert FirstBy(next, KeyOf) == FirstBy(pre, KeyOf) + [list[i]];
      StampedSnoc(FirstBy(pre, KeyOf), list[i]);
      deduped := deduped + [Stamp(list[i])];
    }
    assert list[..|list|] == list;
  }

  lemma StampedSnoc(entries: seq<Option<Course>>, e: Option<Course>)
    ensures Stamped(entries + [e]) == Stamped(entries) + [Stamp(e)]
  {
    var a, b := Stamped(entries + [e]), Stamped(entries) + [Stamp(e)];
    assert |a| == |b|;
    forall i | 0 <= i < |a| ensures a[i] == b[i] {
      if i < |entries| {
        assert (entries + [e])[i] == entries[i];
      }
    }
  }

  /** The kept courses carry exactly the keys of the stored entries. */
  lemma FirstOfEachKeyCoversKeys(entries: seq<Option<Course>>)
    ensures var r := FirstOfEachKey(entries);
      && (forall c :: c in r ==> c.key.Some? && c.key.value in KeysOf(entries))
      && (forall k :: k in KeysOf(entries) ==> exists c :: c in r && c.key == Some(k))
  {
    var f := FirstBy(entries, KeyOf);
    var r := FirstOfEachKey(entries);
    FirstByKeys(entries, KeyOf);
    forall c | c in r
      ensures c.key.Some? && c.key.value in KeysOf(entries)
    {
      var i :| 0 <= i < |r| && r[i] == c;
      assert f[i] in f;
    }
    forall k | k in KeysOf(entries)
      ensures exists c :: c in r && c.key == Some(k)
    {
      var e :| e in f && KeyOf(e) == k;
      var i :| 0 <= i < |f| && f[i] == e;
      assert r[i] == Stamp(e);
    }
  }

  /** No two kept courses share a key. */
  lemma FirstOfEachKeyDistinct(entries: seq<Option<Course>>)
    ensures var r := FirstOfEachKey(entries);
      forall i, j :: 0 <= i < j < |r| ==> r[i].key != r[j].key
  {
    var f := FirstBy(entries, KeyOf);
    var r := FirstOfEachKey(entries);
    FirstByDistinct(entries, KeyOf);
    forall i, j | 0 <= i < j < |r|
      ensures r[i].key != r[j].key
    {
      assert r[i].key == Some(KeyOf(f[i])) && r[j].key == Some(KeyOf(f[j]));
    }
  }

  /** Each kept course is the stamped entry of the first stored entry with its key. */
  lemma FirstOfEachKeyKeepsFirst(entries: seq<Option<Course>>, c: Course)
    requires c in FirstOfEachKey(entries)
    ensures exists i :: 0 <= i < |entries| && c == Stamp(entries[i]) &&
                        forall j :: 0 <= j < i ==> KeyOf(entries[j]) != KeyOf(entries[i])
  {
    var f := FirstBy(entries, KeyOf);
    var r := FirstOfEachKey(entries);
    var k :| 0 <= k < |r| && r[k] == c;
    assert f[k] in f;
    FirstByKeepsFirst(entries, KeyOf, f[k]);
  }

  /** Loading a shelf that is already deduplicated keeps it as it is. */
  lemma DedupeIdempotent(courses: seq<Course>)
    requires forall c :: c in courses ==> c.key.Some? && c.key.value != ""
    requires forall i, j :: 0 <= i < j < |courses| ==> courses[i].key != courses[j].key
    ensures FirstOfEachKey(Entries(courses)) == courses
  {
    var entries := Entries(courses);
    forall i, j | 0 <= i < j < |entries|
      ensures KeyOf(entries[i]) != KeyOf(entries[j])
    {
      assert courses[i] in courses && courses[j] in courses;
    }
    assert DistinctBy(entries, KeyOf);
    FirstByAllDistinct(entries, KeyOf);
    forall i | 0 <= i < |courses|
      ensures Stamp(entries[i]) == courses[i]
    {
      assert courses[i] in courses;
    }
  }

  /** Courses as stored entries. */
  function Entries(courses: seq<Course>): (r: seq<Option<Course>>)
    ensures |r| == |courses| && forall i :: 0 <= i < |r| ==> r[i] == Some(courses[i])
  {
    seq(|courses|, i requires 0 <= i < |courses| => Some(courses[i]))
  }

  /** `target.key || normalizeCourseKey(target.slug, target.customTopic)`, then keep the others. */
  function RemoveCourse(courses: seq<Course>, target: Course): (r: seq<Course>)
    ensures forall c :: c in r <==> c in courses && c.key != Some(KeyOf(Some(target)))
    ensures |r| <= |courses|
  {
    Without(courses, KeyOf(Some(target)))
  }

  /** `courses.filter((course) => course.key !== targetKey)`. */
  function Without(courses: seq<Course>, targetKey: string): (r: seq<Course>)
    ensures forall c :: c in r <==> c in courses && c.key != Some(targetKey)
    ensures |r| <= |courses|
  {
    if courses == [] then []
    else (if courses[0].key != Some(targetKey) then [courses[0]] else []) + Without(courses[1..], targetKey)
  }

  /** Removing keeps the other courses in their order: removing a course appended after them drops just it. */
  lemma {:induction false} WithoutAppended(courses: seq<Course>, extra: Course, targetKey: string)
    requires extra.key == Some(targetKey)
    ensures Without(courses + [extra], targetKey) == Without(courses, targetKey)
  {
    if courses == [] {
      assert courses + [extra] == [extra];
    } else {
      assert (courses + [extra])[1..] == courses[1..] + [extra];
      WithoutAppended(courses[1..], extra, targetKey);
    }
  }

  /** On a shelf with one course per key, removing one that is on it shortens the shelf by exactly one. */
  lemma {:induction false} RemoveOne(courses: seq<Course>, targetKey: string)
    requires forall i, j :: 0 <= i < j < |courses| ==> courses[i].key != courses[j].key
    requires exists i :: 0 <= i < |courses| && courses[i].key == Some(targetKey)
    ensures |Without(courses, targetKey)| == |courses| - 1
  {
    if courses[0].key == Some(targetKey) {
      WithoutAbsent(courses[1..], targetKey);
    } else {
      var i :| 0 <= i < |courses| && courses[i].key == Some(targetKey);
      assert courses[1..][i - 1] == courses[i];
      RemoveOne(courses[1..], targetKey);
    }
  }

  /** Removing a key nobody has changes nothing. */
  lemma {:induction false} WithoutAbsent(courses: seq<Course>, targetKey: string)
    requires forall i :: 0 <= i < |courses| ==> courses[i].key != Some(targetKey)
    ensures Without(courses, targetKey) == courses
  {
    if courses != [] {
      WithoutAbsent(courses[1..], targetKey);
      assert [courses[0]] + courses[1..] == courses;
    }
  }

  /** `getCourseLink(course)`. */
  function CourseLink(course: Course): (link: string)
    ensures course.customTopic.None? || course.customTopic.value == "" ==> link == "/course/" + SlugText(course.slug)
    ensures course.customTopic.Some? && course.customTopic.value != "" ==>
      link == "/course/" + SlugText(course.slug) + "?customTopic=" + Uri.EncodeUriComponent(course.customTopic.value)
  {
    if course.customTopic.Some? && course.customTopic.value != "" then
      "/course/" + SlugText(course.slug) + "?customTopic=" + Uri.EncodeUriComponent(course.customTopic.value)
    else "/course/" + SlugText(course.slug)
  }

  /**
   * With a custom topic, everything after the link's last `=` is the encoded
   * topic, which holds no `&`, `#` or `?`: the topic reaches the course page
   * as one query value whatever characters it has.
   */
  lemma CourseLinkQuery(course: Course)
    requires course.customTopic.Some? && course.customTopic.value != ""
    ensures var link := CourseLink(course);
      var tail := Uri.EncodeUriComponent(course.customTopic.value);
      && link[..|link| - |tail|] == "/course/" + SlugText(course.slug) + "?customTopic="
      && link[|link| - |tail|..] == tail
      && '&' !in tail && '#' !in tail && '?' !in tail && '=' !in tail
  {
    Uri.EncodedHasNoDelimiters(course.customTopic.value);
  }

  // ---------------------------------------------------------------------------
  // `titleize(value)`

  /** `word ? word[0].toUpperCase() + word.slice(1) : ''`. */
  function Capitalize(word: string): (r: string)
    ensures |r| == |word|
  {
    if word == "" then "" else [UpperChar(word[0])] + word[1..]
  }

  function CapitalizeAll(words: seq<string>): (r: seq<string>)
    ensures |r| == |words| && forall i :: 0 <= i < |r| ==> r[i] == Capitalize(words[i])
  {
    seq(|words|, i requires 0 <= i < |words| => Capitalize(words[i]))
  }

  /** `titleize(value)`: '' for a missing or empty value, else split on ' ', capitalize each word, join with ' '. */
  function Titleize(value: Option<string>): (r: string)
    ensures value.None? ==> r == ""
    ensures value.Some? ==> r == TitleCase(value.value, true)
  {
    if value.None? || value.value == "" then ""
    else
      JoinSplit(value.value, ' ');
      TitleCaseJoin(SplitOn(value.value, ' '));
      Join(CapitalizeAll(SplitOn(value.value, ' ')), " ")
  }

  /** The reference reading: the character after a space, and the first one, is upper-cased; nothing else changes. */
  function TitleCase(s: string, atWordStart: bool): (r: string)
    ensures |r| == |s|
    ensures forall i :: 0 <= i < |s| ==>
      r[i] == (if (i == 0 && atWordStart) || (i > 0 && s[i - 1] == ' ') then UpperChar(s[i]) else s[i])
  {
    if s == [] then []
    else [if atWordStart then UpperChar(s[0]) else s[0]] + TitleCase(s[1..], s[0] == ' ')
  }

  /** A word as it comes out of `TitleCase`. */
  function WordCase(w: string, atWordStart: bool): string {
    if w == [] then [] else [if atWordStart then UpperChar(w[0]) else w[0]] + w[1..]
  }

  lemma {:induction false} TitleCaseWord(w: string, atWordStart: bool)
    requires ' ' !in w
    ensures TitleCase(w, atWordStart) == WordCase(w, atWordStart)
  {
    if w != [] {
      TitleCaseWord(w[1..], false);
    }
  }

  lemma {:induction false} TitleCaseSpace(w: string, atWordStart: bool, rest: string)
    requires ' ' !in w
    ensures TitleCase(w + " " + rest, atWordStart) == WordCase(w, atWordStart) + " " + TitleCase(rest, true)
  {
    if w == [] {
      assert w + " " + rest == [' '] + rest;
    } else {
      assert (w + " " + rest)[1..] == w[1..] + " " + rest;
      TitleCaseSpace(w[1..], false, rest);
    }
  }

  lemma {:induction false} TitleCaseJoin(words: seq<string>)
    requires |words| >= 1
    requires forall i :: 0 <= i < |words| ==> ' ' !in words[i]
    ensures Join(CapitalizeAll(words), " ") == TitleCase(Join(words, " "), true)
  {
    if |words| == 1 {
      TitleCaseWord(words[0], true);
    } else {
      TitleCaseJoin(words[1..]);
      assert CapitalizeAll(words)[1..] == CapitalizeAll(words[1..]);
      TitleCaseSpace(words[0], true, Join(words[1..], " "));
    }
  }
}
