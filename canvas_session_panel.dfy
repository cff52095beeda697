/**
 * The canvas session panel: which rubric points a teach-back still misses,
 * the rolling log of the conversation, when a teach-back reply may be sent,
 * and the length check that runs before any request is made.
 */
module CanvasSessionPanel {
  import opened Wrappers
  import opened Strings
  import opened JsonModel

  const MaxChars := 3000
  const MaxMissingPoints := 3
  const LogWindow := 8
  const MaxRounds := 4
  const DefaultNote := "Needs improvement."

  // ---------------------------------------------------------------------------
  // Missing rubric points

  /** `key.replace(/_/g, ' ')`. */
  function RubricLabel(key: string): (text: string)
    ensures |text| == |key|
    ensures forall i :: 0 <= i < |key| ==> text[i] == (if key[i] == '_' then ' ' else key[i])
  {
    if key == "" then "" else [if key[0] == '_' then ' ' else key[0]] + RubricLabel(key[1..])
  }

  /**
   * `(value?.score ?? 0) < 2`: a missing or null score is 0, and any other
   * score is compared after JavaScript's number conversion.
   */
  predicate ScoreBelowTwo(value: Json) {
    var score := GetOpt(Some(value), "score");
    JsLess(if score.None? || score.value.JNull? then Some(JNum(0.0)) else score, 2.0)
  }

  /**
   * An integer score, whether a number, padded decimal text or a one-item
   * array, is low exactly when it is below 2; a missing, null or boolean
   * score is always low, and an object score never is.
   */
  lemma ScoreBelowTwoCoerced(fields: seq<(string, Json)>, score: Json, i: int, w1: string, w2: string)
    requires forall k :: 0 <= k < |w1| ==> IsSpace(w1[k])
    requires forall k :: 0 <= k < |w2| ==> IsSpace(w2[k])
    requires Lookup(fields, "score") == Some(score)
    ensures score == JNum(i as real) || score == JStr(w1 + IntToString(i) + w2) || score == JArr([JNum(i as real)])
      ==> (ScoreBelowTwo(JObj(fields)) <==> i < 2)
    ensures score == JNull || score.JBool? || score == JArr([]) || score == JArr([JNull]) ==> ScoreBelowTwo(JObj(fields))
    ensures score.JObj? ==> !ScoreBelowTwo(JObj(fields))
  {
    assert GetOpt(Some(JObj(fields)), "score") == Some(score);
    if score == JNum(i as real) || score == JStr(w1 + IntToString(i) + w2) || score == JArr([JNum(i as real)]) {
      IntLikeToNumber(i, w1, w2);
      assert JsNumber(Some(score)) == Some(i as real);
    } else if score == JArr([]) || score == JArr([JNull]) {
      EmptyArrayToNumber();
      assert JsNumber(Some(score)) == Some(0.0);
    } else if score.JObj? {
      ObjectToNumber(score.fields);
    }
  }

  /** An entry without a score is low. */
  lemma NoScoreIsLow(value: Json)
    requires GetOpt(Some(value), "score").None?
    ensures ScoreBelowTwo(value)
  {
  }

  /** `${label}: ${value?.note || 'Needs improvement.'}`. */
  function MissingPoint(key: string, value: Json): (point: string)
    ensures |point| >= |key| + 2
    ensures point[..|key|] == RubricLabel(key)
    ensures point[|key|..|key| + 2] == ": "
    ensures !JsTruthy(GetOpt(Some(value), "note")) ==> point[|key| + 2..] == "Needs improvement."
    ensures GetOpt(Some(value), "note").Some? && GetOpt(Some(value), "note").value.JStr? && GetOpt(Some(value), "note").value.s != ""
      ==> point[|key| + 2..] == GetOpt(Some(value), "note").value.s
  {
    var note := GetOpt(Some(value), "note");
    RubricLabel(key) + ": " + (if JsTruthy(note) then JsString(note.value) else DefaultNote)
  }

  /** The rubric entries still below 2, in the rubric's order. */
  function LowEntries(entries: seq<(string, Json)>): (r: seq<(string, Json)>)
    ensures |r| <= |entries|
    ensures forall e :: e in r <==> e in entries && ScoreBelowTwo(e.1)
  {
    if entries == [] then []
    else (if ScoreBelowTwo(entries[0].1) then [entries[0]] else []) + LowEntries(entries[1..])
  }

  function Points(entries: seq<(string, Json)>): (r: seq<string>)
    ensures |r| == |entries| && forall i :: 0 <= i < |r| ==> r[i] == MissingPoint(entries[i].0, entries[i].1)
  {
    seq(|entries|, i requires 0 <= i < |entries| => MissingPoint(entries[i].0, entries[i].1))
  }

  /** `getMissingPoints(rubric)`: `None` is a missing rubric; an object's entries are given in order. */
  function MissingPoints(rubric: Option<seq<(string, Json)>>): (r: seq<string>)
    ensures rubric.None? ==> r == []
    ensures |r| <= MaxMissingPoints
  {
    if rubric.None? then []
    else
      var points := Points(LowEntries(rubric.value));
      if |points| <= MaxMissingPoints then points else points[..MaxMissingPoints]
  }

  /**
   * Every point shown is the label and note of a rubric entry scored below 2,
   * the first three such entries in rubric order; with at most three of them
   * every one is shown.
   */
  lemma MissingPointsAreLowEntries(entries: seq<(string, Json)>)
    ensures var r := MissingPoints(Some(entries));
      var low := LowEntries(entries);
      && |r| == (if |low| < MaxMissingPoints then |low| else MaxMissingPoints)
      && (forall i :: 0 <= i < |r| ==> low[i] in entries && ScoreBelowTwo(low[i].1) && r[i] == MissingPoint(low[i].0, low[i].1))
  {
    var low := LowEntries(entries);
    var points := Points(low);
    var r := MissingPoints(Some(entries));
    assert r == (if |points| <= MaxMissingPoints then points else points[..MaxMissingPoints]);
    forall i | 0 <= i < |r|
      ensures low[i] in entries && ScoreBelowTwo(low[i].1) && r[i] == MissingPoint(low[i].0, low[i].1)
    {
      assert low[i] in low;
    }
  }

  /** A rubric entry scored 2 or more never produces a point. */
  lemma {:induction false} PassedEntriesSilent(entries: seq<(string, Json)>, key: string, value: Json)
    requires (key, value) in entries && !ScoreBelowTwo(value)
    ensures (key, value) !in LowEntries(entries)
  {
  }

  /** A rubric point never shows an underscore from its key. */
  lemma LabelHasNoUnderscore(key: string)
    ensures '_' !in RubricLabel(key)
  {
    var text := RubricLabel(key);
    forall i | 0 <= i < |text| ensures text[i] != '_' {
    }
  }

  // ---------------------------------------------------------------------------
  // The log window

  /** A log entry: `id` is `${Date.now()}-${prev.length}`, with the clock reading as a parameter. */
  datatype LogEntry = LogEntry(clock: int, position: nat, title: string, detail: string)

  /** The last `LogWindow` entries of a list. */
  function Window<T>(entries: seq<T>): (r: seq<T>)
    ensures |r| <= LogWindow
    ensures |r| == (if |entries| < LogWindow then |entries| else LogWindow)
    ensures r == entries[|entries| - |r|..]
  {
    if |entries| <= LogWindow then entries else entries[|entries| - LogWindow..]
  }

  /** `appendLog(entry)`: `[...prev, { id, ...entry }].slice(-8)`. */
  function AppendLog(prev: seq<LogEntry>, clock: int, title: string, detail: string): (r: seq<LogEntry>)
    ensures r != [] && r[|r| - 1] == LogEntry(clock, |prev|, title, detail)
    ensures r == Window(prev + [LogEntry(clock, |prev|, title, detail)])
  {
    Window(prev + [LogEntry(clock, |prev|, title, detail)])
  }

  /**
   * Once the log is full, every new entry's id suffix is 8: two entries
   * logged in the same millisecond (the user's message and the reply are
   * logged back to back) get the same id.
   */
  lemma FullLogRepeatsIds(prev: seq<LogEntry>, clock: int, first: (string, string), second: (string, string))
    requires |prev| == LogWindow
    ensures var once := AppendLog(prev, clock, first.0, first.1);
      var twice := AppendLog(once, clock, second.0, second.1);
      twice[|twice| - 2] == LogEntry(clock, LogWindow, first.0, first.1)
      && twice[|twice| - 1] == LogEntry(clock, LogWindow, second.0, second.1)
  {
    var once := AppendLog(prev, clock, first.0, first.1);
    var twice := AppendLog(once, clock, second.0, second.1);
    assert |once| == LogWindow;
    assert twice == (once + [LogEntry(clock, LogWindow, second.0, second.1)])[1..];
    assert twice[|twice| - 2] == once[|once| - 1];
  }

  /** Windowing a list and then a longer one built on it is windowing the longer one once. */
  lemma WindowOfWindow<T>(entries: seq<T>, more: seq<T>)
    ensures Window(Window(entries) + more) == Window(entries + more)
  {
    var w := Window(entries);
    var a := Window(w + more);
    var b := Window(entries + more);
    assert |a| == |b|;
    forall i | 0 <= i < |a| ensures a[i] == b[i] {
      var k := |more| - |a| + i;
      if k >= 0 {
        assert a[i] == (w + more)[|w| + k] == more[k];
        assert b[i] == (entries + more)[|entries| + k] == more[k];
      } else {
        assert a[i] == w[|w| + k] == entries[|entries| + k];
        assert b[i] == (entries + more)[|entries| + k];
      }
    }
  }

  /** A whole session's log: each new entry is appended to the window so far. */
  function LogOf(entries: seq<(string, string)>, clocks: seq<int>): (log: seq<LogEntry>)
    requires |clocks| == |entries|
  {
    if entries == [] then []
    else
      var n := |entries| - 1;
      AppendLog(LogOf(entries[..n], clocks[..n]), clocks[n], entries[n].0, entries[n].1)
  }

  /** What a log entry shows: its time, title and detail. */
  function Shown(log: seq<LogEntry>): (r: seq<(int, string, string)>)
    ensures |r| == |log|
  {
    seq(|log|, i requires 0 <= i < |log| => (log[i].clock, log[i].title, log[i].detail))
  }

  /** The entries logged, each with the clock reading taken when it was logged. */
  function Logged(entries: seq<(string, string)>, clocks: seq<int>): (r: seq<(int, string, string)>)
    requires |clocks| == |entries|
    ensures |r| == |entries|
  {
    seq(|entries|, i requires 0 <= i < |entries| => (clocks[i], entries[i].0, entries[i].1))
  }

  /** Showing commutes with appending one entry and with windowing. */
  lemma ShownAppendWindow(prev: seq<LogEntry>, e: LogEntry)
    ensures Shown(Window(prev + [e])) == Window(Shown(prev) + [(e.clock, e.title, e.detail)])
  {
    var s := prev + [e];
    var w := Window(s);
    var t := Shown(prev) + [(e.clock, e.title, e.detail)];
    assert |Window(t)| == |w|;
    forall i | 0 <= i < |w| ensures Shown(w)[i] == Window(t)[i] {
      var k := |s| - |w| + i;
      assert w[i] == s[k];
      assert Window(t)[i] == t[k];
      if k < |prev| {
        assert s[k] == prev[k];
      }
    }
  }

  /** Logging one more entry extends what was logged by it. */
  lemma LoggedSnoc(entries: seq<(string, string)>, clocks: seq<int>)
    requires |clocks| == |entries| && entries != []
    ensures var n := |entries| - 1;
      Logged(entries, clocks) == Logged(entries[..n], clocks[..n]) + [(clocks[n], entries[n].0, entries[n].1)]
  {
    var n := |entries| - 1;
    var a := Logged(entries, clocks);
    var b := Logged(entries[..n], clocks[..n]) + [(clocks[n], entries[n].0, entries[n].1)];
    forall i | 0 <= i < |a| ensures a[i] == b[i] {
      if i < n {
        assert entries[..n][i] == entries[i] && clocks[..n][i] == clocks[i];
      }
    }
  }

  /** However many entries were logged, the panel shows the last eight, with the latest last. */
  lemma {:induction false} LogKeepsLastEight(entries: seq<(string, string)>, clocks: seq<int>)
    requires |clocks| == |entries|
    ensures Shown(LogOf(entries, clocks)) == Window(Logged(entries, clocks))
  {
    if entries != [] {
      var n := |entries| - 1;
      var prev := LogOf(entries[..n], clocks[..n]);
      var e := LogEntry(clocks[n], |prev|, entries[n].0, entries[n].1);
      assert LogOf(entries, clocks) == Window(prev + [e]);
      LogKeepsLastEight(entries[..n], clocks[..n]);
      ShownAppendWindow(prev, e);
      WindowOfWindow(Logged(entries[..n], clocks[..n]), [(clocks[n], entries[n].0, entries[n].1)]);
      LoggedSnoc(entries, clocks);
    }
  }

  // ---------------------------------------------------------------------------
  // Reply gating and the length check

  /**
   * `canTeachBackReply`: a session, a status other than PASS, fewer than four
   * rounds. It enables only the "I'm stuck" button; the Reply button is
   * gated by the input alone.
   */
  function CanTeachBackReply(sessionId: Option<Json>, status: Option<Json>, rounds: int): (allowed: bool)
    ensures allowed <==> sessionId.Some? && JsTruthy(sessionId) && status != Some(JStr("PASS")) && rounds < MaxRounds
  {
    JsTruthy(sessionId) && !StrictEq(status, Some(JStr("PASS"))) && rounds < MaxRounds
  }

  /**
   * In a teach-back opened by a start (round 1), the "I'm stuck" button stays
   * enabled for at most three further rounds, and never once it passed.
   */
  lemma AtMostThreeReplies(sessionId: Option<Json>, status: Option<Json>, replies: nat)
    ensures CanTeachBackReply(sessionId, status, 1 + replies) ==> replies < 3
    ensures status == Some(JStr("PASS")) ==> !CanTeachBackReply(sessionId, status, 1 + replies)
  {
  }

  /** What a send handler does: nothing, an error shown in the panel, or a request with this text. */
  datatype Outcome = Ignored | Rejected(error: string) | Request(text: string)

  /** `handleTutorSend(message)`: a blank message is ignored; the untrimmed length is checked; the trimmed text is sent. */
  function TutorSend(message: string): (o: Outcome)
    ensures o.Request? ==> |o.text| <= MaxChars && o.text == Trim(message) && o.text != ""
    ensures o == Rejected("Please keep the message under 3000 characters.") <==> Trim(message) != "" && |message| > MaxChars
    ensures o == Ignored <==> Trim(message) == ""
    ensures Trim(message) != "" && |message| <= MaxChars ==> o == Request(Trim(message))
  {
    if Trim(message) == "" then Ignored
    else if |message| > MaxChars then Rejected("Please keep the message under 3000 characters.")
    else Request(Trim(message))
  }

  /** `handleTeachBackStart()`: like the tutor, on the input box. */
  function TeachBackStart(input: string): (o: Outcome)
    ensures o.Request? ==> |o.text| <= MaxChars && o.text == Trim(input) && o.text != ""
    ensures o == Rejected("Please keep the explanation under 3000 characters.") <==> Trim(input) != "" && |input| > MaxChars
    ensures o == Ignored <==> Trim(input) == ""
    ensures Trim(input) != "" && |input| <= MaxChars ==> o == Request(Trim(input))
  {
    if Trim(input) == "" then Ignored
    else if |input| > MaxChars then Rejected("Please keep the explanation under 3000 characters.")
    else Request(Trim(input))
  }

  /**
   * `handleTeachBackReply(overrideMessage)`: the override or the input,
   * trimmed; ignored when blank or without a session; here the TRIMMED
   * length is checked.
   */
  function TeachBackReply(overrideMessage: Option<string>, input: string, sessionId: Option<Json>): (o: Outcome)
    ensures o.Request? ==> |o.text| <= MaxChars && o.text != "" && JsTruthy(sessionId)
    ensures o.Request? ==> o.text == Trim(if overrideMessage.Some? then overrideMessage.value else input)
  {
    var message := Trim(if overrideMessage.Some? then overrideMessage.value else input);
    if message == "" || !JsTruthy(sessionId) then Ignored
    else if |message| > MaxChars then Rejected("Please keep the reply under 3000 characters.")
    else Request(message)
  }

  /**
   * What `handleTeachBackReply` receives as `overrideMessage`: nothing, a
   * text, or the click event a button passes to its `onClick` handler.
   */
  datatype ReplyArgument = NoOverride | Text(text: string) | ClickEvent

  /** A handler either runs to an outcome or throws before any request is made. */
  datatype ReplyResult = Done(outcome: Outcome) | Throws(error: string)

  /**
   * `handleTeachBackReply(overrideMessage)` on any argument: an event object
   * is not nullish, so `(overrideMessage ?? input).trim()` calls `trim` on
   * it and throws.
   */
  function TeachBackReplyAsWritten(arg: ReplyArgument, input: string, sessionId: Option<Json>): (r: ReplyResult)
    ensures r.Throws? <==> arg.ClickEvent?
    ensures r.Done? && r.outcome.Request? ==> JsTruthy(sessionId) && |r.outcome.text| <= MaxChars
  {
    match arg
    case ClickEvent => Throws("TypeError: (overrideMessage ?? input).trim is not a function")
    case Text(t) => Done(TeachBackReply(Some(t), input, sessionId))
    case NoOverride => Done(TeachBackReply(None, input, sessionId))
  }

  /**
   * The primary button of the teach-back mode as written: disabled while
   * thinking or with a blank input; with a session it passes its click
   * event to `handleTeachBackReply`, otherwise it starts a teach-back.
   */
  function ReplyButtonAsWritten(input: string, sessionId: Option<Json>, thinking: bool): (r: ReplyResult)
    ensures !JsTruthy(sessionId) ==> r == Done(if thinking || Trim(input) == "" then Ignored else TeachBackStart(input))
  {
    if thinking || Trim(input) == "" then Done(Ignored)
    else if JsTruthy(sessionId) then TeachBackReplyAsWritten(ClickEvent, input, sessionId)
    else Done(TeachBackStart(input))
  }

  /** The same button with `onClick={() => handleTeachBackReply()}`, so the input box is what is sent. */
  function ReplyButton(input: string, sessionId: Option<Json>, thinking: bool): (r: ReplyResult)
    ensures r.Done?
    ensures !JsTruthy(sessionId) ==> r == ReplyButtonAsWritten(input, sessionId, thinking)
  {
    if thinking || Trim(input) == "" then Done(Ignored)
    else if JsTruthy(sessionId) then TeachBackReplyAsWritten(NoOverride, input, sessionId)
    else Done(TeachBackStart(input))
  }

  /**
   * As written, a typed reply is never sent: with a session, every click
   * the enabled button allows throws, and no input makes it send a request.
   */
  lemma ReplyButtonNeverSends(input: string, sessionId: Option<Json>, thinking: bool)
    requires JsTruthy(sessionId)
    ensures !thinking && Trim(input) != "" ==> ReplyButtonAsWritten(input, sessionId, thinking).Throws?
    ensures ReplyButtonAsWritten(input, sessionId, thinking) != Done(Request(Trim(input)))
  {
  }

  /**
   * With the handler called without arguments, a click with a session sends
   * the trimmed input when it is within 3000 characters and shows the
   * length error otherwise.
   */
  lemma ReplyButtonSendsInput(input: string, sessionId: Option<Json>)
    requires JsTruthy(sessionId) && Trim(input) != ""
    ensures |Trim(input)| <= MaxChars ==> ReplyButton(input, sessionId, false) == Done(Request(Trim(input)))
    ensures |Trim(input)| > MaxChars ==> ReplyButton(input, sessionId, false) == Done(Rejected("Please keep the reply under 3000 characters."))
  {
  }

  /** `handleTeachBackStuck()`: the fixed reply, sent whenever there is a session. */
  lemma StuckReplySent(input: string, sessionId: Option<Json>)
    requires JsTruthy(sessionId)
    ensures TeachBackReply(Some("I'm stuck."), input, sessionId) == Request("I'm stuck.")
  {
    TrimNoSpaceEdges("I'm stuck.");
  }

  lemma TrimNoSpaceEdges(s: string)
    requires s != [] && !IsSpace(s[0]) && !IsSpace(s[|s| - 1])
    ensures Trim(s) == s
  {
    TrimStartOfClean(s);
    TrimEndOfClean(s);
  }

  /**
   * Padding around a message does not count against the reply limit, but it
   * does against the tutor's: a 3000-character text with one blank after it
   * is rejected by the tutor and sent as a reply.
   */
  lemma PaddingCountsOnlyForTutor(text: string, sessionId: Option<Json>)
    requires |text| == MaxChars && !IsSpace(text[0]) && !IsSpace(text[|text| - 1])
    requires JsTruthy(sessionId)
    ensures TutorSend(text + " ").Rejected?
    ensures TeachBackReply(Some(text + " "), "", sessionId) == Request(text)
  {
    TrimNoSpaceEdges(text);
    TrimPadded("", text, " ");
    assert "" + text + " " == text + " ";
  }
}
