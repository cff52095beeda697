# Big-Brain core, modelled in Dafny

Big-Brain is a learning app. Students watch course videos, take generated quizzes and work through a knowledge graph of concepts. A tutor agent draws on a shared canvas and runs spoken teach-back rounds. Under the React pages, the LLM calls and the SQLite tables sits sequential logic with a definite meaning. This project models that logic and proves what it promises.

Each core source file becomes one Dafny module. Shared modules hold the common pieces:

- `Wrappers`: `Option`, `Result`.
- `JsonModel`: an abstract JSON value, with JavaScript and Python truthiness.
- `Strings`: trim, case mapping, split, join, decimal rendering and code-point comparison.
- `Numbers`: clamping and rounding.
- `Sorting`: a stable descending sort, `slice`-style prefixes and stable partition.
- `Uri`: `encodeURIComponent` over code points.

The modules, by area:

- **Quiz pipeline.**
  - `QuizBackend` (backend/main.py): answer checking per key type, attempt scoring, the parser for the model's output with fenced-block recovery, question conversion, and the attempt store as a class.
  - `ScoreAttemptJs` (server/scoreAttempt.js) and `QuizGenerator` (server/quizGenerator.js): scoring and quiz normalisation on the Node side.
  - `ServerIndex` (server/index.js): JSON recovery, the sliding-window canvas rate limiter and the TTL cache (both classes over maps), the report card, and quiz resolution.
- **Canvas.**
  - `CanvasProtocol`: envelope validation, the normalisers, and `applyCanvasCommand` over four id-keyed collections.
  - `CanvasCommands`: the op check.
  - `CanvasPage`: point downsampling and issue ordering.
  - `CanvasSessionPanel`: rubric filtering, the eight-entry log window and the reply gate.
- **Knowledge graph.**
  - `GraphAgent`: topic-label normalisation, canonical edges, the review schedule, strength clamping, the edge table as a class, and stats updates.
  - `DeriveGraph`: prerequisite closure, lock states, filter sets and unlocks.
  - `RecommendNext`: choosing the next node.
  - `LearningGraph`: the weakest root-to-leaf chain and graph building.
- **Learner state.**
  - `LearnerModel` and `LearnerStateDb`: readiness, priorities, review days, and event fan-out into in-memory tables.
  - `CognitiveFingerprint` and `Personalization`: error-type counting, preference updates and plan selection.
  - `TeachBackStore`: the session map.
  - `LearningContext`: the `prev → next` reducers.
- **Helpers.**
  - `YoutubeService`: similarity, recommendation, ISO 8601 durations (section 4.4.3.2 of ISO 8601:2004) and the mock catalogue.
  - `RecommendVideos`: video scoring.
  - `MyCourses`: course keys and dedupe.
  - `BigbrainAgent`: the 44-byte PCM WAVE header, transcript summaries and the teach-back round decision.

Some things are outside the code's reach and enter the model as parameters:

- the clock (`Date.now()`);
- fresh identifiers;
- `JSON.parse` / `json.loads`, as an oracle from text to an optional JSON value;
- results of SQL queries.

Scores are exact `real`s.

## Model

| member | source | states |
|---|---|---|
| CanvasCommands.IsCanvasCommand | src/shared/canvasCommands.js:1-17 | a payload is accepted exactly when it is an object whose `op` is a string naming HIGHLIGHT, ZOOM_TO, ADD_TEXT or CLEAR_HIGHLIGHTS |
| CanvasCommands.OnlyOpMatters | src/shared/canvasCommands.js:14-18 | two objects with the same `op` field are judged alike: no other field affects the verdict |
| CanvasCommands.NonObjectRejected | src/shared/canvasCommands.js:15 | an absent value, `null`, a string, a number or a boolean is rejected |
| ScoreAttemptJs.QuestionsOf | server/scoreAttempt.js:2-3 | a falsy or absent `questions` is the empty list, an array is its items, and any other truthy value makes `.map` fail |
| ScoreAttemptJs.PropertyKey | server/scoreAttempt.js:4 | a string id is its own property name and an absent id looks up the property `"undefined"` |
| ScoreAttemptJs.ResponseValue | server/scoreAttempt.js:4 | a value other than `null` can only come from responses given as an object or an array |
| ScoreAttemptJs.ResponseValueKeyed | server/scoreAttempt.js:4 | with keyed responses the value stored under the question's id is read |
| ScoreAttemptJs.ResponseValueIndexed | server/scoreAttempt.js:4 | with responses given as an array, a question whose id is the index k (as text or as a number) reads the k-th entry's value |
| ScoreAttemptJs.ScoreQuestion | server/scoreAttempt.js:3-11 | scoring a question fails exactly when the question is `null`, and the entry carries the question's id |
| ScoreAttemptJs.CountCorrect | server/scoreAttempt.js:13 | the count is at most the entry count, equals it exactly when every entry is correct, and is 0 exactly when none is |
| ScoreAttemptJs.ScoreAttempt | server/scoreAttempt.js:1-23 | `total` is the number of entries and `correct` the number of correct entries |
| ScoreAttemptJs.ScoreAttemptPerQuestion | server/scoreAttempt.js:2-11 | one entry per question, in order, with its id; correct iff the response value is truthy and strictly equal to the answer key's value; unanswered iff there is no response value; failure exactly for a non-list or a `null` question |
| ScoreAttemptJs.FalsyAnswerNeverScores | server/scoreAttempt.js:5-8 | a falsy response value (`false`, `0`, `""`, `null`) is never correct |
| ScoreAttemptJs.StructuredAnswerNeverScores | server/scoreAttempt.js:5 | an array or object response is never strictly equal to the key, so it never scores |
| ScoreAttemptJs.Percentage | server/scoreAttempt.js:15 | the rounded percentage lies in 0..100, is 0 with no questions or no correct answers, and 100 when every answer is correct |
| ScoreAttemptJs.ScoreAttemptPercentage | server/scoreAttempt.js:13-15 | the attempt's percentage lies in 0..100 |
| ScoreAttemptJs.MissingQuestionsScoreEmpty | server/scoreAttempt.js:2 | a quiz without a question list scores as an empty attempt with total 0 |
| QuizGenerator.EnsureString | server/quizGenerator.js:3 | a string value is kept and anything else gives the fallback |
| QuizGenerator.RawChoice | server/quizGenerator.js:8-16 | a string choice at index i becomes `{choice_{i+1}, text}`, and an object without string text gets `Option {i+1}` |
| QuizGenerator.MappedChoices | server/quizGenerator.js:6-16 | a non-array gives no choices; otherwise one mapped choice per raw choice, position by position |
| QuizGenerator.WithText | server/quizGenerator.js:17 | the kept choices all have non-empty text, come from the input, and are all of them when none is blank |
| QuizGenerator.WithTextSnoc | server/quizGenerator.js:17 | one more choice is kept at the end exactly when its text is non-empty |
| QuizGenerator.WithTextOne | server/quizGenerator.js:17 | a single choice is kept exactly when its text is non-empty |
| QuizGenerator.WithTextAppend | server/quizGenerator.js:17 | the filter of a concatenation is the concatenation of the filters, so kept choices keep their order |
| QuizGenerator.PadToFour | server/quizGenerator.js:19-21 | the list keeps its prefix, grows to at least four, and every added entry is the positional padding for its index |
| QuizGenerator.NormalizedChoices | server/quizGenerator.js:5-24 | the normalised list always has exactly four choices |
| QuizGenerator.NormalizeChoices | server/quizGenerator.js:5-24 | the padding loop computes the normalised list |
| QuizGenerator.NormalizedChoicesShape | server/quizGenerator.js:17-23 | the four choices all have non-empty text: first the raw choices with text, in order, then positional padding |
| QuizGenerator.PaddingCanRepeatAnId | server/quizGenerator.js:17-20 | padding numbers from the current length, so `["", "b"]` gives two choices with id `choice_2` |
| QuizGenerator.NormalizeQuestion | server/quizGenerator.js:36-46 | the question's choices are normalised; each string field is kept when it is a string and otherwise falls back: the id to `q_{i+1}`, the prompt to "Untitled question", the explanation to "Review the core idea for this question." and the answer value to the first choice's id |
| QuizGenerator.NormalizeQuiz | server/quizGenerator.js:26-53 | a non-object is rejected, an empty or missing question list is rejected, any other object succeeds with question i normalised at position i, and the quiz id is the payload's string id or `quiz_{now}` |
| QuizGenerator.NormalizeQuizShape | server/quizGenerator.js:36-47 | every normalised question keeps its position, has four choices and a string answer value |
| QuizGenerator.AnswerNotCheckedAgainstChoices | server/quizGenerator.js:38-44 | an answer value naming no choice is kept unchanged |
| QuizGenerator.FallbackIdsDistinct | server/quizGenerator.js:41 | two questions that both lack a string id get different positional ids |
| QuizGenerator.ParseQuizJson | server/quizGenerator.js:55-65 | a strict parse wins; otherwise, with no `{...}` span the call fails; any result is the strict parse or the parse of the greedy span; when the strict parse fails and a span exists, the call succeeds exactly when the span parses, with that value, and otherwise fails with a syntax error |
| QuizGenerator.ParseQuizJsonRecoversWrapped | server/quizGenerator.js:59-63 | an object wrapped in prose that holds no braces is recovered |
| CanvasProtocol.Upsert | src/shared/canvasProtocol.js:99-120 | `map.set` keeps ids unique, holds the new item, drops only the item with the same id and leaves the id set grown by that id |
| CanvasProtocol.Remove | src/shared/canvasProtocol.js:126-129 | `map.delete` keeps exactly the items with another id, changes nothing when the id is absent, and keeps ids unique |
| CanvasProtocol.FromItems | src/shared/canvasProtocol.js:88-91 | building a map from a list gives unique ids, items from the list only, and the same id set |
| CanvasProtocol.StyleOf | src/shared/canvasProtocol.js:28-41 | an object style is kept and anything else becomes `{}` |
| CanvasProtocol.TextOr | src/shared/canvasProtocol.js:27-64 | a string is kept and anything else becomes `''` |
| CanvasProtocol.NormalizeShape | src/shared/canvasProtocol.js:14-30 | a shape is produced iff the op is an object with a truthy id and kind and four finite numbers; it carries the stringified id, the kind, the numbers and the defaulted text and style |
| CanvasProtocol.NormalizeText | src/shared/canvasProtocol.js:32-43 | a text is produced iff the op has a truthy id, finite coordinates and string content, which it carries |
| CanvasProtocol.NormalizeConnection | src/shared/canvasProtocol.js:45-55 | a connection is produced iff both endpoints are truthy; its id is the given id, or `${fromId}-${toId}` when none is given |
| CanvasProtocol.NormalizeHighlight | src/shared/canvasProtocol.js:57-66 | a highlight is produced iff the op has a truthy id and level, which it carries |
| CanvasProtocol.ValidateCanvasCommand | src/shared/canvasProtocol.js:68-79 | a non-object and a wrong type give their errors; validation succeeds iff the type is CANVAS_CMD, cmdId is truthy, ops is an array and every op is an object naming an allowed op; a success yields the ops |
| CanvasProtocol.EmptyOpsValid | src/shared/canvasProtocol.js:72-78 | an envelope whose op list is empty is valid |
| CanvasProtocol.ApplyOp | src/shared/canvasProtocol.js:95-142 | one op keeps the ids of all four collections unique |
| CanvasProtocol.ApplyOps | src/shared/canvasProtocol.js:94-143 | the ops applied left to right keep ids unique |
| CanvasProtocol.StartBoard | src/shared/canvasProtocol.js:87-92 | the collections built from the incoming state have unique ids |
| CanvasProtocol.ApplyCanvasCommand | src/shared/canvasProtocol.js:81-154 | an invalid command returns the state unchanged with a FAILED ack and the error; a valid one applies its ops left to right to the rebuilt collections and acks APPLIED with the cmdId |
| CanvasProtocol.ApplyAll | src/shared/canvasProtocol.js:94-143 | the loop over the ops computes the ops applied left to right |
| CanvasProtocol.DeleteRemovesEverywhere | src/shared/canvasProtocol.js:124-131 | DELETE removes the id from all four collections and keeps every other item |
| CanvasProtocol.ClearEmpties | src/shared/canvasProtocol.js:133-139 | CLEAR empties all four collections |
| CanvasProtocol.AddShapeUpserts | src/shared/canvasProtocol.js:96-101 | an ADD_SHAPE that normalises replaces the shape with its id, or adds it, and leaves the other collections unchanged |
| CanvasProtocol.RejectedOpSkipped | src/shared/canvasProtocol.js:97-122 | an add op whose normaliser returns null changes nothing |
| CanvasProtocol.EndingInClearLeavesNothing | src/shared/canvasProtocol.js:94-139 | a command whose last op is CLEAR leaves all four collections empty |
| ServerIndex.StripMarkers | server/index.js:46 | removing the fence markers never lengthens the text, and text without a backtick is unchanged |
| ServerIndex.StripClosingFence | server/index.js:46 | a body without backticks followed by a closing fence loses exactly the fence |
| ServerIndex.NormalizeJson | server/index.js:45-57 | an absent reply, or one that is blank once the markers are removed and it is trimmed, is "Empty model response."; a cleaned text that parses gives that parse; otherwise no `{...}` span is "Unable to parse JSON from model.", a span that parses gives its parse, and one that does not is an error |
| ServerIndex.NormalizeJsonFenced | server/index.js:45-49 | a reply fenced as ```` ```json … ``` ```` parses as its trimmed body |
| ServerIndex.StampsAfter | server/index.js:62 | the filter keeps exactly the timestamps newer than the bound, with their multiplicities |
| ServerIndex.AcceptedAfter | server/index.js:59-66 | every accepted call counted for a window is newer than the window's start |
| ServerIndex.AcceptedAfterMonotone | server/index.js:61-62 | a later window start counts no more accepted calls |
| ServerIndex.StampsAfterCovers | server/index.js:62 | filtering keeps every recent accepted call's timestamp |
| ServerIndex.LimiterInvLaterClock | server/index.js:63 | a rejected call, which records nothing, keeps the limiter's invariant as the clock advances |
| ServerIndex.LimiterInvAccept | server/index.js:62-65 | an accepted call, which stores the recent stamps plus `now`, keeps the invariant: at most eight stored stamps per key, and every accepted call in the window still stored |
| ServerIndex.AcceptKeepsSizes | server/index.js:63-64 | storing at most eight stamps for one key keeps every key at eight stamps or fewer |
| ServerIndex.AcceptCoversKey | server/index.js:62-64 | after an accepted call, each requester's accepted calls in the window are still among its stored stamps |
| ServerIndex.AcceptKeepsCoverage | server/index.js:62-64 | after an accepted call every accepted call in the window still has its timestamp stored |
| ServerIndex.AcceptedAfterSnoc | server/index.js:64 | logging an accepted call adds its timestamp under its own key only |
| ServerIndex.RateLimiter.Enforce | server/index.js:59-66 | a call is accepted iff fewer than eight stamps newer than the 60 s window remain; an accept stores those stamps plus `now`; a reject changes no stamp |
| ServerIndex.RateLimiter.AcceptedInWindowBounded | server/index.js:59-66 | at most eight calls per key are accepted within any 60 s window ending at the latest time seen |
| ServerIndex.CanvasCache.Lookup | server/index.js:253-259 | an entry is served iff its key is present and younger than 120 s; an expired entry is deleted and nothing else changes |
| ServerIndex.CanvasCache.Store | server/index.js:307 | a keyed result is stored with its timestamp; without a key nothing is stored |
| ServerIndex.StoreThenLookup | server/index.js:253-307 | a result stored less than 120 s before a lookup is served by it |
| ServerIndex.SumPercentagesBounds | server/index.js:186-188 | a sum of percentages in 0..100 lies between 0 and 100 times the count |
| ServerIndex.AverageScore | server/index.js:187-193 | the average is 0 with no attempts, and a rounded average of percentages in 0..100 is in 0..100 |
| ServerIndex.TallyKeys | server/index.js:201 | a tally's keys are its entries' keys, in insertion order |
| ServerIndex.Tally | server/index.js:197 | an absent topic reads as 0 |
| ServerIndex.TallyOfEntry | server/index.js:197 | in a tally with unique keys an entry's value is the tally of its key |
| ServerIndex.AddMisses | server/index.js:197 | adding misses keeps keys unique, adds the topic to the keys and raises only that topic's tally, by the misses |
| ServerIndex.TopicMisses | server/index.js:195-199 | the tally built over the rows has unique keys |
| ServerIndex.TopicMissesSums | server/index.js:195-199 | the tally holds exactly the attempted topics, each with the sum of `total - correct` over its attempts |
| ServerIndex.MostMissedTopic | server/index.js:201 | an empty topic name is replaced by null |
| ServerIndex.RankedHeadBounds | server/index.js:201 | no tally entry has a greater value than the first entry of the tally sorted by value |
| ServerIndex.RankedFirstIsMax | server/index.js:201 | the first entry of the tally sorted by value has the largest value |
| ServerIndex.MostMissedTopicIsMax | server/index.js:195-201 | the most missed topic is an attempted topic whose summed misses are at least every attempted topic's; with no attempts it is null |
| ServerIndex.BuildReportCard | server/index.js:185-201 | `totalAttempts` is the row count, and no rows give zeros and no topic |
| ServerIndex.ReportCardBounds | server/index.js:186-193 | both averages stay in 0..100 when every stored percentage does |
| ServerIndex.QuizRegistry.Remember | server/index.js:112 | the generated quiz is stored under its id, replacing any earlier one |
| ServerIndex.ResolveQuiz | server/index.js:125-130 | a truthy body quiz wins, else a truthy stored quiz under a string quizId; the 400 error happens exactly when neither exists |
| QuizBackend.PyStr | backend/main.py:310-318 | `str()` of a string is the string, of `None` is "None", of a boolean "True"/"False" |
| QuizBackend.PyRepr | backend/main.py:310-318 | inside `str()` of a list or dict a string is shown quoted, and any other value as its `str()` |
| QuizBackend.StrOfSingletonList | backend/main.py:310 | `str()` of a one-string list is the quoted string in brackets, so it differs from `str()` of the string itself |
| QuizBackend.ResponseAsBool | backend/main.py:313-315 | a string response is true iff its lower-case form is one of "true", "t", "yes", "1"; any other value counts by truthiness |
| QuizBackend.CheckAnswer | backend/main.py:302-320 | fails when the question, its answer key or the response is not a dict; choice keys compare trimmed `str()` forms case-sensitively, boolean keys compare truthiness, text keys compare trimmed lower-case forms; any other key type is wrong |
| QuizBackend.ChoiceIgnoresPadding | backend/main.py:309-310 | whitespace around a choice response does not change the verdict |
| QuizBackend.ChoiceIsCaseSensitive | backend/main.py:309-310 | the response "A" is wrong for the choice key "a" |
| QuizBackend.TextIgnoresCase | backend/main.py:316-318 | text responses equal up to ASCII case get the same verdict |
| QuizBackend.BooleanWords | backend/main.py:311-315 | the words true/t/yes/1 in any case answer a true key and not a false key |
| QuizBackend.BooleanKeyStringFalse | backend/main.py:311-315 | a boolean key stored as the string "false" is truthy, so the response "false" is judged wrong |
| QuizBackend.ResponseFor | backend/main.py:284 | a list or dict id is unhashable and fails; a present string id gives its response; anything else gives `{}` |
| QuizBackend.Grade | backend/main.py:283-289 | an entry comes only from a dict question and carries its id |
| QuizBackend.CountCorrect | backend/main.py:286-287 | the count of correct entries is at most the entry count |
| QuizBackend.GradeAll | backend/main.py:282-289 | a successful pass has one entry per question |
| QuizBackend.ScoreLoop | backend/main.py:279-289 | for any grading of one question, the loop succeeds exactly when every question grades, yields the entries in order, and counts the correct ones |
| QuizBackend.GradeQuestions | backend/main.py:279-289 | the loop succeeds exactly when every question grades, yields the entries in order, and its running score is the number of correct entries |
| QuizBackend.ScoreResult | backend/main.py:270-299 | scoring yields a result exactly when the questions iterate and every question grades; the score never exceeds the maximum, which is the number of entries |
| QuizBackend.ScoreAttempt | backend/main.py:270-299 | the method succeeds exactly when the scoring result exists and returns it: the entries in order, the question count as maximum, the correct count as score and the percentage |
| QuizBackend.ScoreAttemptPerQuestion | backend/main.py:282-291 | one entry per question, in quiz order, and a score never above the maximum |
| QuizBackend.PercentBounds | backend/main.py:292 | the percentage lies in [0, 100], is 100 exactly when every question of a non-empty quiz is right, and 0.0 for an empty quiz |
| QuizBackend.BareResponseFails | backend/main.py:307 | a response that is not a dict makes scoring fail |
| QuizBackend.MissingResponseIsEmpty | backend/main.py:284 | a question missing from the responses is checked against an empty response |
| QuizBackend.FirstList | backend/main.py:222-227 | the value found is the first list-valued field, and none is found exactly when no field is a list |
| QuizBackend.FenceBody | backend/main.py:233-234 | the text after a leading fence up to the next fence, or to the end, and holding no fence |
| QuizBackend.ExtractQuestionData | backend/main.py:213-237 | a parsed dict yields its "questions" value, else its first list value, else fails; another parsed value is used as is; on a decode error the fenced fallback text is parsed |
| QuizBackend.FenceBodyAt | backend/main.py:234 | the text after an opening fence ends at the next fence |
| QuizBackend.NoFenceInWrapped | backend/main.py:234 | no fence starts inside the json tag or a fence-free body of a wrapped reply |
| QuizBackend.FenceBodyOfWrapped | backend/main.py:233-234 | the text between the fences of a wrapped reply is the json tag followed by the body |
| QuizBackend.FencedReplyRecovered | backend/main.py:230-237 | a reply wrapped in a ```` ```json ```` fence is recovered from the trimmed text between the fences |
| QuizBackend.Index | backend/main.py:246-249 | `d[key]` succeeds exactly for a dict holding the key, and gives its value |
| QuizBackend.ConvertChoice | backend/main.py:247 | a choice converts exactly when its id and text are strings, and keeps them |
| QuizBackend.ConvertChoices | backend/main.py:247 | a converted list has one choice per input choice |
| QuizBackend.ConvertChoicesInOrder | backend/main.py:247 | the list converts iff every choice does, and then the i-th choice is the i-th input converted |
| QuizBackend.TagsOf | backend/main.py:250 | `null` gives no tags, and a list of strings gives those strings in order |
| QuizBackend.ShortId | backend/main.py:242 | the id is the first eight characters of the uuid text |
| QuizBackend.ConvertRecord | backend/main.py:242-251 | a converted record is an mcq question with the given id, the record's prompt and explanation, its choices in order, a choice-type key holding the record's answer, and tags defaulting to []; a missing required field fails |
| QuizBackend.RecordsOf | backend/main.py:213-241 | records exist only when the question data was extracted |
| QuizBackend.ConvertAll | backend/main.py:240-252 | a successful conversion has one question per record |
| QuizBackend.ConvertLoop | backend/main.py:240-254 | for any conversion of one numbered record, the loop succeeds exactly when every record converts and returns the results in order |
| QuizBackend.GenerateQuestions | backend/main.py:213-254 | generation succeeds exactly when the records are recovered and all convert, and returns them converted in order |
| QuizBackend.GeneratedInRecordOrder | backend/main.py:241-252 | the i-th question is the i-th record converted under the i-th uuid's short form |
| QuizBackend.OneBadRecordFailsAll | backend/main.py:241-260 | one record that fails to convert fails the whole generation |
| QuizBackend.QuizDatabase.SaveAttempt | backend/main.py:136-144 | the attempt is appended exactly when its id is new; a duplicate id stores nothing |
| QuizBackend.QuizDatabase.GetAttempts | backend/main.py:146-156 | at most `limit` stored attempts (all for a negative limit), ordered newest first, with no omitted attempt newer than a returned one |
| QuizBackend.ScoreAndSave | backend/main.py:359-382 | succeeds exactly when scoring succeeds and the id is new; a success returns the attempt with the given id, time, spec, quiz, responses, score and telemetry and appends it to the store; a scoring failure is a 400 error; any failure stores nothing |
| GraphAgent.TitleCase | server/graphAgent.js:7 | the word keeps its length, with its first character upper-cased and the rest lower-cased |
| GraphAgent.NonStopWords | server/graphAgent.js:3-21 | the kept words are input words that are not stop words, and none is kept exactly when every word is a stop word |
| GraphAgent.NonStopWordsAppend | server/graphAgent.js:21 | filtering a concatenation is the concatenation of the filtered parts: every non-stop word is kept, in its original order |
| GraphAgent.NonStopWordsSnoc | server/graphAgent.js:21 | one more word at the end is kept exactly when it is not a stop word |
| GraphAgent.NonStopWordsOne | server/graphAgent.js:21 | a single word is kept exactly when it is not a stop word |
| GraphAgent.Prefix | server/graphAgent.js:22 | `slice(0, n)` is the first n words, or all of them when there are fewer |
| GraphAgent.LabelWords | server/graphAgent.js:17 | one title-cased word per space-separated piece of the cleaned input |
| GraphAgent.Shorten | server/graphAgent.js:18-23 | up to three words are kept as they are; longer lists keep their first three non-stop words, or their first three words when all are stop words |
| GraphAgent.DashRuns | server/graphAgent.js:28 | the result holds only `[a-z0-9-]`, has no doubled `-`, is empty only for empty input, starts with the input's letter or digit or with `-`, and is no longer |
| GraphAgent.DashRunsMeaning | server/graphAgent.js:28 | the replacement equals the independent reading of the regular expression: every character outside `[a-z0-9]` masked to `-`, then each run of `-` squeezed to one |
| GraphAgent.DashRunsKeepsAlnums | server/graphAgent.js:28 | the letters and digits of the input survive, all of them and in order |
| GraphAgent.StripDashes | server/graphAgent.js:29 | the input is the result with at most one `-` added at each end; a leading `-` is always removed, and a trailing `-` too when it is not that same single character |
| GraphAgent.StripDashesKeepsAlnums | server/graphAgent.js:29 | removing the edge dashes keeps every letter and digit |
| GraphAgent.Slugify | server/graphAgent.js:26-29 | the slug has exactly the letters and digits of the lower-cased label, in order, holds only `[a-z0-9-]`, with no `-` at either end and no doubled `-` |
| GraphAgent.SlugifyMeaning | server/graphAgent.js:26-29 | the slug is the lower-cased label masked and squeezed as the regular expression says, with its edge dashes removed |
| GraphAgent.Cleaned | server/graphAgent.js:10-12 | the cleaned text is empty exactly for a blank input and has no space at either end |
| GraphAgent.NormalizeTopicLabel | server/graphAgent.js:9-32 | a blank input is exactly the "Untitled"/"untitled" label without an original; any other input keeps its cleaned text as the original |
| GraphAgent.NormalizeTopicLabelShape | server/graphAgent.js:17-31 | a non-blank input gives one to three of its title-cased words joined by single spaces, with the slug of that label |
| GraphAgent.LongLabelDropsStopWords | server/graphAgent.js:20-23 | a label of more than three words keeps no stop word when it has any other word |
| GraphAgent.BlankIsUntitled | server/graphAgent.js:13-15 | the empty and the whitespace-only input are both "Untitled" |
| GraphAgent.CompareEndpoints | server/graphAgent.js:47-50 | the comparison is 0 exactly for equal endpoints and lies in -1..1 |
| GraphAgent.CanonicalEdge | server/graphAgent.js:52-55 | the pair is the input pair or its reverse, smaller endpoint first |
| GraphAgent.CompareEndpointsAntisymmetric | server/graphAgent.js:47-50 | swapping the endpoints negates the comparison |
| GraphAgent.CanonicalEdgeSymmetric | server/graphAgent.js:52-55 | the canonical edge does not depend on the argument order |
| GraphAgent.ReviewDays | server/graphAgent.js:36-41 | every band of the table: below 0.35 one day, below 0.55 two (concept) or three (topic), below 0.75 five or seven, otherwise ten or fourteen |
| GraphAgent.ReviewDaysMonotone | server/graphAgent.js:38-41 | a stronger item is never reviewed sooner |
| GraphAgent.ReviewSchedule | server/graphAgent.js:42 | the due time is `now` plus the band's number of days in milliseconds |
| GraphAgent.ApplyStrengthDelta | server/graphAgent.js:5-45 | the result lies in [0, 1] and is the plain sum when that sum does |
| GraphAgent.Oriented | server/graphAgent.js:245-248 | a `belongs_to` edge keeps its direction and every other edge is canonicalised |
| GraphAgent.FindEdge | server/graphAgent.js:249-251 | the lookup finds an edge stored in that direction, and finds none only when none exists |
| GraphAgent.UpsertSelfLoopNoop | server/graphAgent.js:244 | a self-loop leaves the table alone and returns nothing |
| GraphAgent.UpsertResult | server/graphAgent.js:243-279 | exactly one live edge joins the oriented endpoints afterwards: weight 1 for `belongs_to`, otherwise the previous weight (or 0) plus the bump clamped to [0, 1]; a given reason is stored; the table grows only for a new edge; uniqueness and the weight range are kept; that edge's id is returned |
| GraphAgent.FindEdgeUnique | server/graphAgent.js:249-251 | in a table that keeps its uniqueness constraint the lookup finds the one stored edge in that direction |
| GraphAgent.ReplaceKeepsTable | server/graphAgent.js:256-258 | an update in place that keeps endpoints and id keeps the constraint and the weight range |
| GraphAgent.ConsKeepsTable | server/graphAgent.js:262-277 | inserting a row with a new direction and a new id keeps the constraint and the weight range |
| GraphAgent.UpsertKeepsOthers | server/graphAgent.js:249-277 | edges between other endpoints are untouched |
| GraphAgent.UpsertSymmetric | server/graphAgent.js:245-248 | apart from `belongs_to`, the order in which the caller names the endpoints does not matter |
| GraphAgent.EdgeTable.UpsertEdge | server/graphAgent.js:243-279 | the table and the returned id are those of the upsert rules, and the table keeps its constraint |
| GraphAgent.CountTrue | server/graphAgent.js:206 | the unanswered count is at most the entry count |
| GraphAgent.EventDelta | server/graphAgent.js:200-235 | `forceDelta` wins; a video gives at most 0.05, a canvas session at most 0.08, an opened topic or generated quiz 0.01, and any other event 0 |
| GraphAgent.ApplyEventToStats | server/graphAgent.js:186-241 | the strength stays in [0, 1], the item was last seen now, and the next review follows the new strength |
| GraphAgent.ApplyEventCounters | server/graphAgent.js:192-215 | every event adds one exposure; a quiz adds its score to the correct count, `max(total - correct - unanswered, 0)` to the incorrect count and its unanswered entries to the skips, and marks the item reviewed at 80% accuracy; other events leave these counters alone |
| GraphAgent.ForceDeltaOverrides | server/graphAgent.js:233-237 | a numeric `forceDelta` replaces the event kind's delta |
| GraphAgent.FirstEventStartsFresh | server/graphAgent.js:187-197 | the first event on an unseen item starts from strength 0.25 with one exposure |
| DeriveGraph.IdSet | src/utils/deriveGraph.js:36 | every node's id is in the set |
| DeriveGraph.BuildNodeMap | src/utils/deriveGraph.js:1 | the map's keys are the node ids; each entry is a node with that id, and the last node with an id is the one kept |
| DeriveGraph.BuildNodeMapStep | src/utils/deriveGraph.js:1 | adding the last node to the map of the others keeps those three properties |
| DeriveGraph.CollectPrereqs | src/utils/deriveGraph.js:3-10 | the visited set only grows; the start id ends up in it iff it was visited or exists; every added id exists, lies in the closed bound, and has its existing prerequisites in the result |
| DeriveGraph.ReachHasStart | src/utils/deriveGraph.js:5-7 | an existing start is in its own chain |
| DeriveGraph.ReachClosed | src/utils/deriveGraph.js:8 | every existing prerequisite of a chain member is in the chain |
| DeriveGraph.PathStaysIn | src/utils/deriveGraph.js:3-10 | a walk along prerequisite links that starts in a closed set never leaves it |
| DeriveGraph.ReachLeast | src/utils/deriveGraph.js:3-10 | the chain lies inside every closed set holding the existing start, so the chain is the least such set |
| DeriveGraph.CollectPrereqsFresh | src/utils/deriveGraph.js:3-10 | from an empty visited set the result is exactly the existing ids reachable from the start along prerequisite links, the start included iff it exists |
| DeriveGraph.CollectPrereqChain | src/utils/deriveGraph.js:56-59 | the chain is exactly the existing ids reachable from the start along prerequisite links, the start included iff it exists |
| DeriveGraph.ReachStep | src/utils/deriveGraph.js:8 | an existing prerequisite of a member of a chain is in that chain |
| DeriveGraph.EdgeFor | src/utils/deriveGraph.js:15-19 | the edge runs from the prerequisite to the node, and crosses iff the prerequisite exists with a truthy island different from the node's |
| DeriveGraph.EdgesOf | src/utils/deriveGraph.js:15-19 | one edge per prerequisite of the node, in order |
| DeriveGraph.FlatEdges | src/utils/deriveGraph.js:14-20 | one edge per (node, prerequisite) entry |
| DeriveGraph.DeriveEdges | src/utils/deriveGraph.js:12-21 | the edge count is the total number of prerequisite entries |
| DeriveGraph.FlatEdgesExactly | src/utils/deriveGraph.js:14-20 | every (node, prerequisite) entry has its edge from the prerequisite to the node, and every edge comes from such an entry |
| DeriveGraph.LockedMap | src/utils/deriveGraph.js:25-30 | the lock map has an entry for every node id |
| DeriveGraph.DeriveNodeStates | src/utils/deriveGraph.js:23-33 | the loop builds the node map and, per id, the lock state of the last node with that id: locked itself or with a locked direct prerequisite |
| DeriveGraph.LockingNotTransitive | src/utils/deriveGraph.js:28-29 | locking looks one step back only: with `a` locked its dependent `b` is locked but `b`'s dependent `c` is not |
| DeriveGraph.CollectUnlocks | src/utils/deriveGraph.js:53-54 | the ids returned are exactly those of the nodes listing the id as a direct prerequisite |
| DeriveGraph.CollectUnlocksAppend | src/utils/deriveGraph.js:53-54 | filtering commutes with concatenation, so the input order is kept |
| DeriveGraph.TargetIds | src/utils/deriveGraph.js:38 | the target ids are exactly those of the nodes with the status |
| DeriveGraph.AddDependents | src/utils/deriveGraph.js:45-47 | the loop adds exactly the direct dependents of the id |
| DeriveGraph.ReachAllStep | src/utils/deriveGraph.js:41-43 | adding one matching id adds exactly its chain to the union of chains |
| DeriveGraph.DeriveFilterSet | src/utils/deriveGraph.js:35-51 | a falsy status or "all" gives every id; otherwise the result is exactly the matching ids, every existing id reachable from one of them along prerequisite links, and their direct dependents |
| RecommendNext.UnmetPrereqCount | src/utils/recommendNext.js:3-4 | the count is at most the prerequisite count, and 0 exactly when every prerequisite exists and is mastered |
| RecommendNext.BeatsUnlockedTransitive | src/utils/recommendNext.js:13-14 | the first reducer's preference is transitive |
| RecommendNext.BeatsUnlockedTotal | src/utils/recommendNext.js:13-14 | the first reducer's preference is negatively transitive, so its ties form classes |
| RecommendNext.BestUnlocked | src/utils/recommendNext.js:11-15 | the reduce keeps a node no other node beats, the earliest such, and nothing for no nodes |
| RecommendNext.BestLocked | src/utils/recommendNext.js:18-24 | the reduce keeps a node no other node beats, ahead of every earlier node, and nothing for no nodes |
| RecommendNext.Unlocked | src/utils/recommendNext.js:8 | the available nodes are exactly the input nodes whose lock entry is false |
| RecommendNext.UnlockedNone | src/utils/recommendNext.js:8 | with no unlocked node none is available |
| RecommendNext.Choose | src/utils/recommendNext.js:8-24 | a node is chosen exactly when there are nodes, and it is one of them |
| RecommendNext.Recommend | src/utils/recommendNext.js:6-25 | a node is recommended exactly when there are nodes, and it is one of them |
| RecommendNext.ChooseUnlocked | src/utils/recommendNext.js:10-16 | with some node available, the choice is the first reducer's pick among the available nodes |
| RecommendNext.ChooseAllLocked | src/utils/recommendNext.js:18-24 | with every node locked, the choice is the second reducer's pick among all nodes |
| RecommendNext.RecommendUnlocked | src/utils/recommendNext.js:10-16 | when some node is unlocked the choice is unlocked, has the least mastery among unlocked nodes, and among equal mastery a title that sorts no later |
| RecommendNext.RecommendAllLocked | src/utils/recommendNext.js:18-24 | when every node is locked no node beats the choice on (unmet prerequisites, mastery), and it beats every earlier node |
| RecommendNext.MissingPrereqsUnmet | src/utils/recommendNext.js:4 | prerequisites missing from the node list all count as unmet |
| LearningGraph.Clamp01Js | src/components/ObsidianLearningGraph.jsx:20 | the result lies in [0, 1]: an absent value reads 0, a value inside is kept, and values outside go to the nearer bound |
| LearningGraph.RawMastery | src/components/ObsidianLearningGraph.jsx:44-69 | the mastery read by title wins, and the id is read only when the title gives nothing |
| LearningGraph.NodeById | src/components/ObsidianLearningGraph.jsx:32 | every node's id is a key, and each key maps to a node with that id |
| LearningGraph.LinksOf | src/components/ObsidianLearningGraph.jsx:36-86 | one link per prerequisite of the node, from the prerequisite to the node, in order |
| LearningGraph.Links | src/components/ObsidianLearningGraph.jsx:34-37 | the links are exactly one per (node, prerequisite) entry, from the prerequisite to the node |
| LearningGraph.Children | src/components/ObsidianLearningGraph.jsx:47 | the children of an id are exactly the targets of the links leaving it |
| LearningGraph.RootsRanked | src/components/ObsidianLearningGraph.jsx:32-37 | when no cycle is reachable from a root (given as a rank over the roots and everything below them), every link leads to a known node, and from a ranked source to a ranked target of lower rank |
| LearningGraph.UnreachableCycleRanked | src/components/ObsidianLearningGraph.jsx:33-54 | a root beside a cycle it cannot reach (root a; b and c each other's prerequisite) meets the requirement, so such data is in the model's scope |
| LearningGraph.SomeDownPath | src/components/ObsidianLearningGraph.jsx:41-52 | every known node starts at least one chain down to a node without dependents |
| LearningGraph.Dfs | src/components/ObsidianLearningGraph.jsx:41-52 | the recorded chain never gets weaker, is unchanged or a chain through the node, and has at least the deficit of every chain starting there |
| LearningGraph.LeafRecorded | src/components/ObsidianLearningGraph.jsx:44-50 | a node without dependents is a chain by itself, with its own deficit added |
| LearningGraph.CoveredFromChildren | src/components/ObsidianLearningGraph.jsx:47-51 | covering the node when it is a leaf, and every chain below each child, covers every chain from the node |
| LearningGraph.ChildRecorded | src/components/ObsidianLearningGraph.jsx:46-51 | a chain recorded below a child is a chain through its parent |
| LearningGraph.RootIds | src/components/ObsidianLearningGraph.jsx:33 | the roots are exactly the nodes without prerequisites |
| LearningGraph.ComputeWeakestChain | src/components/ObsidianLearningGraph.jsx:30-65 | whenever no cycle is reachable from a root: the chain is empty exactly when there is no root; otherwise it runs from a root down to a node without dependents, and no such chain has a larger deficit; `nodeSet` holds its ids and `edgeSet` its consecutive pairs |
| LearningGraph.SearchRoots | src/components/ObsidianLearningGraph.jsx:39-55 | with no root nothing is recorded; otherwise the record is a chain from a root, and no chain from any root has a larger deficit |
| LearningGraph.EdgeSet | src/components/ObsidianLearningGraph.jsx:58-62 | the edge set holds exactly the keys of the consecutive pairs of the path |
| LearningGraph.RecordStep | src/components/ObsidianLearningGraph.jsx:54 | after one more root the record is a chain from one of the roots seen so far |
| LearningGraph.WeakestOfAll | src/components/ObsidianLearningGraph.jsx:54 | the final record is a root chain whose deficit no root chain exceeds |
| LearningGraph.RootStartsChain | src/components/ObsidianLearningGraph.jsx:33-54 | some chain starts at every root |
| LearningGraph.Format | src/components/ObsidianLearningGraph.jsx:68-80 | the formatted node keeps the node and its title as label; its mastery is absent exactly when none is stored, and otherwise the stored value clamped into [0, 1] |
| LearningGraph.BuildGraph | src/components/ObsidianLearningGraph.jsx:67-90 | one formatted node per node, in order, and the prerequisite links |
| LearningGraph.FilterLinks | src/components/ObsidianLearningGraph.jsx:164-165 | a link is kept exactly when both its ends are listed ids |
| LearningGraph.RenderedLinks | src/components/ObsidianLearningGraph.jsx:162-170 | every rendered link joins two listed nodes, and no prerequisite link between listed nodes is lost |
| LearningGraph.Score | src/components/ObsidianLearningGraph.jsx:44 | a node's score is clamped into [0, 1], and a node with no mastery under its title or id scores 0 |
| LearningGraph.DeficitBounds | src/components/ObsidianLearningGraph.jsx:31 | a chain's summed deficit `1 - mastery` lies between 0 and the chain's length |
| LearnerModel.ModalityScore | server/learnerModel.js:220-232 | the fit lies in [0, 1] |
| LearnerModel.SumProductsRemove | server/learnerModel.js:221-230 | the sum over the key set does not depend on the order in which keys are visited |
| LearnerModel.SumProductsSymmetric | server/learnerModel.js:226-230 | the sum of products is the same with the two weight maps swapped |
| LearnerModel.ModalityScoreSymmetric | server/learnerModel.js:220-232 | profile and content may be swapped without changing the fit |
| LearnerModel.SumProductsNoOverlap | server/learnerModel.js:226-230 | when no key has a weight on both sides, the sum is 0 |
| LearnerModel.ModalityNoOverlapIsZero | server/learnerModel.js:220-232 | a profile and a content without a commonly weighted key fit with score 0 |
| LearnerModel.ComputeModalityScore | server/learnerModel.js:220-232 | the loop over the union of keys computes exactly the order-independent fit |
| LearnerModel.PrereqsForCourse | server/learnerModel.js:234-240 | the result is no longer than the edge list and holds only concepts of the course |
| LearnerModel.PrereqsForCourseMembers | server/learnerModel.js:234-240 | a concept is listed exactly when some edge with both ends in the course starts at it |
| LearnerModel.SelectCourse | server/learnerModel.js:363 | the course with the requested id when the catalog has one, and otherwise the first course |
| LearnerModel.FindCourse | server/learnerModel.js:422 | absent exactly when no course has the id; otherwise the first course with that id |
| LearnerModel.MasteryOf | server/learnerModel.js:245 | the stored mastery when there is one, and otherwise the prior 0.4 |
| LearnerModel.MasteryScores | server/learnerModel.js:245 | one mastery per checked concept, in order |
| LearnerModel.CountBelow | server/learnerModel.js:247 | the count is at most the number of scores |
| LearnerModel.CountBelowSnoc | server/learnerModel.js:247 | one more score adds 1 to the count exactly when it is below the threshold |
| LearnerModel.CountBelowAppend | server/learnerModel.js:247 | the count over a concatenation is the sum of the counts, as for the length of a filter |
| LearnerModel.CountAtLeast | server/learnerModel.js:248 | the count is at most the number of scores |
| LearnerModel.CountAtLeastSnoc | server/learnerModel.js:248 | one more score adds 1 to the count exactly when it reaches the threshold |
| LearnerModel.CountAtLeastAppend | server/learnerModel.js:248 | the count over a concatenation is the sum of the counts, as for the length of a filter |
| LearnerModel.ConceptsToCheck | server/learnerModel.js:243-244 | only course concepts are checked, and all of them when the course has no prerequisites |
| LearnerModel.CourseReadiness | server/learnerModel.js:242-259 | the average is the mean of the masteries (prior 0.4) of the prerequisites, or of all course concepts when there are none; weak counts those below 0.45 and strong those at 0.7 or above; each label holds exactly in its band of the average (Ready at 0.7 or above, Needs Prep from 0.5, High Risk below); risk lies in [0, 1] and is 1 minus an in-range average; weak and strong together never exceed the checked concepts |
| LearnerModel.WeakStrongDisjoint | server/learnerModel.js:247-248 | no score is both weak and strong |
| LearnerModel.SumBounds | server/learnerModel.js:246 | a sum of values between two bounds lies between the bounds times the count |
| LearnerModel.AverageBounds | server/learnerModel.js:246 | the average of values between two bounds lies between them |
| LearnerModel.QuotientBounds | server/learnerModel.js:246 | dividing the sum by a positive count keeps the bounds |
| LearnerModel.ReadinessInRange | server/learnerModel.js:242-259 | with stored masteries in [0, 1], the average is in [0, 1] and risk is exactly 1 minus the average |
| LearnerModel.FreshLearnerIsHighRisk | server/learnerModel.js:242-259 | a learner with no concept state averages the prior 0.4: High Risk, every checked concept weak, none strong |
| LearnerModel.AllEqualAverage | server/learnerModel.js:246 | the average of equal values is that value |
| LearnerModel.AllCount | server/learnerModel.js:247-248 | equal values below 0.45 are all weak, and equal values below 0.7 are never strong |
| LearnerModel.CourseReasons | server/learnerModel.js:261-273 | one or two reasons; two exactly when something is weak and something strong; the weak reason first; the fallback only when nothing is weak or strong |
| LearnerModel.StabilityOf | server/learnerModel.js:368 | the stored stability when there is one, and otherwise the prior 0.4 |
| LearnerModel.FocusScore | server/learnerModel.js:372 | the stored priority lies in [0, 1] |
| LearnerModel.PriorityOf | server/learnerModel.js:365-381 | the entry keeps the id, the mastery and the stability (each with prior 0.4), the stored name or else the id, is overdue exactly when never reviewed or reviewed more than 14 days ago, and its priority is the clamped weighting rounded to three decimals |
| LearnerModel.OverdueAddsTenth | server/learnerModel.js:372 | an overdue concept weighs exactly 0.1 more before clamping |
| LearnerModel.FocusScoreMonotone | server/learnerModel.js:372 | lower mastery, lower stability or being overdue never lowers the stored priority |
| LearnerModel.WeakerConceptRanksHigher | server/learnerModel.js:365-381 | of two concepts reviewed at the same time, one with no more mastery and no more stability has at least the priority of the other |
| LearnerModel.OverdueIff | server/learnerModel.js:369-371 | more than 14 days since the last review exactly when it is missing or older than 14 days in milliseconds |
| LearnerModel.StatusOf | server/learnerModel.js:386-390 | weak below 0.45; fragile when stability is below 0.5 and mastery is not weak; overdue copied; never both weak and fragile |
| LearnerModel.QuizFocus | server/learnerModel.js:365-391 | one priority per course concept, and a focus of the first min(3, n) of them with their status |
| LearnerModel.QuizFocusIsTopThree | server/learnerModel.js:383-384 | the ranking is a permutation of the priorities in descending order, and no concept outside the focus has a higher priority than one in it |
| LearnerModel.Viewed | server/learnerModel.js:400-408 | one more view than before (1 for a new entry), viewed now, and the last result replaced only when a number is given |
| LearnerModel.Shifted | server/learnerModel.js:427-435 | the concept keeps its name, its mastery and stability land in [0, 1], and it is reviewed now |
| LearnerModel.ShiftAll | server/learnerModel.js:425-436 | the map gains the course concepts as keys, and concepts outside the course are unchanged |
| LearnerModel.ShiftAllSnoc | server/learnerModel.js:426-436 | one more step of the loop shifts the next concept from the state the earlier steps left |
| LearnerModel.ShiftAllInRange | server/learnerModel.js:426-436 | every concept of the course ends in [0, 1] for mastery and stability, reviewed now |
| LearnerModel.ShiftAllOnce | server/learnerModel.js:426-436 | a concept listed once is shifted once from its stored state, or from a fresh entry with the prior |
| LearnerModel.MasteryDelta | server/learnerModel.js:424 | the delta lies in [-0.1, 0.1] for a score in [0, 1], and is positive exactly when the score is above 0.5 |
| LearnerModel.LearnerStore.MarkContentViewed | server/learnerModel.js:400-418 | only the viewed entry changes, to the next entry, which is returned; views stay positive and masteries in range |
| LearnerModel.LearnerStore.UpdateConceptsFromAttempt | server/learnerModel.js:420-447 | an unknown course changes nothing; otherwise each course concept is shifted in turn and the profile is stamped now; content entries are untouched |
| LearnerModel.ShiftEach | server/learnerModel.js:425-436 | the loop writes exactly the shifted map |
| LearnerModel.ShiftAllKeepsRange | server/learnerModel.js:426-436 | an attempt keeps every stored mastery in [0, 1] |
| LearnerStateDb.ReviewDays | server/learnerStateDb.js:30-43 | the interval is one of 1, 2, 3, 4 or 7 days; a sturdy concept gets the mastery band's days, and a fragile one half of them rounded, at least 1 |
| LearnerStateDb.BaseDays | server/learnerStateDb.js:32-37 | 1 day exactly below mastery 0.4, 7 exactly above 0.7, and 3 in between |
| LearnerStateDb.ReviewDaysMonotone | server/learnerStateDb.js:30-43 | more mastery never brings the next review forward |
| LearnerStateDb.FragileReviewedSooner | server/learnerStateDb.js:38-40 | a fragile concept is never reviewed later than a sturdy one of the same mastery |
| LearnerStateDb.NextReviewAt | server/learnerStateDb.js:30-43 | the next review falls between 1 and 7 days from now, the chosen number of days ahead |
| LearnerStateDb.CountTrue | server/learnerStateDb.js:13 | at most one correct answer per row |
| LearnerStateDb.CorrectRate | server/learnerStateDb.js:6-15 | the rate lies in [0, 1], is 0 without rows, and is 1 exactly when every row is correct |
| LearnerStateDb.PrereqsOf | server/learnerStateDb.js:18 | a concept is listed exactly when an edge leads from it to the concept |
| LearnerStateDb.Shortfall | server/learnerStateDb.js:25 | the shortfall is never negative and is 0 exactly at mastery 0.7 or above |
| LearnerStateDb.Shortfalls | server/learnerStateDb.js:20-26 | one shortfall per prerequisite, from its stored mastery or the prior 0.4 |
| LearnerStateDb.PrereqGap | server/learnerStateDb.js:17-28 | the gap lies in [0, 1] and is 0 for a concept without prerequisites |
| LearnerStateDb.MasteredPrereqsNoGap | server/learnerStateDb.js:17-28 | prerequisites all at 0.7 or above leave no gap |
| LearnerStateDb.UntouchedPrereqGap | server/learnerStateDb.js:24-27 | a single prerequisite the learner never touched gives a gap of 0.3 |
| LearnerStateDb.OrNull | server/learnerStateDb.js:95-96 | a truthy value is kept, anything else becomes null |
| LearnerStateDb.ResponseFor | server/learnerStateDb.js:90 | the response is the empty object or a truthy value |
| LearnerStateDb.SpreadItems | server/learnerStateDb.js:106 | a falsy value spreads to nothing, an array to its items, and a truthy value that is neither array nor string throws |
| LearnerStateDb.ConceptIds | server/learnerStateDb.js:104-107 | every concept id kept is truthy, and reading them throws exactly when spreading the secondary ids does |
| LearnerStateDb.QuestionEvents | server/learnerStateDb.js:89-132 | a question throws exactly when it is null or its secondary ids cannot be spread; otherwise it yields at least one event, each stamped now with correct as 1 or 0 |
| LearnerStateDb.QuestionEventsFanOut | server/learnerStateDb.js:90-132 | one event per truthy concept id, primary first, or exactly one event with a null concept; each is correct exactly when the response value equals the answer key's |
| LearnerStateDb.AttemptEvents | server/learnerStateDb.js:87-133 | a successful attempt yields at least one event per question, all stamped with the same time |
| LearnerStateDb.AttemptEventsFail | server/learnerStateDb.js:89-133 | the attempt fails exactly when one of its questions throws |
| LearnerStateDb.AttemptEventsSnoc | server/learnerStateDb.js:89-133 | one more question appends its events, or the first error ends the call |
| LearnerStateDb.NextMastery | server/learnerStateDb.js:176-179 | the new mastery lies in [0, 1] |
| LearnerStateDb.NextMasteryDirection | server/learnerStateDb.js:176-179 | a correct answer never lowers mastery and a wrong one never raises it |
| LearnerStateDb.NextConfidence | server/learnerStateDb.js:186-189 | without a numeric confidence the stored one is kept; with one the blend lies in [0, 1] and between the two inputs |
| LearnerStateDb.Updated | server/learnerStateDb.js:163-244 | one more attempt; the success streak grows on a correct answer and resets otherwise, and the fail streak the other way; mastery moves by the update rule from the stored value or the prior 0.4; fragility is 1 minus the recent correct rate; confidence blended; next review from the new scores |
| LearnerStateDb.UpdatedValid | server/learnerStateDb.js:163-244 | an update keeps every score in [0, 1], the attempt count positive and at most one streak running |
| LearnerStateDb.LaggingOf | server/learnerStateDb.js:268-286 | the entry keeps the concept and its mastery, with the priority rounded to three decimals |
| LearnerStateDb.OverdueRaisesPriority | server/learnerStateDb.js:269-276 | an overdue review adds 0.3 to the priority |
| LearnerStateDb.FalseConfidenceRaisesPriority | server/learnerStateDb.js:270-277 | confidence above 0.7 on mastery below 0.5 adds 0.2 to the priority |
| LearnerStateDb.LaggingAll | server/learnerStateDb.js:267-287 | one entry per row, in order |
| LearnerStateDb.LaggingConcepts | server/learnerStateDb.js:267-289 | ten entries, or every row when there are fewer |
| LearnerStateDb.LaggingConceptsTopTen | server/learnerStateDb.js:267-289 | the result is sorted by priority, drawn from the rows, and no row left out has a higher priority than one kept |
| LearnerStateDb.LearnerStateDbTables.RecordQuizAttemptEvents | server/learnerStateDb.js:83-152 | a quiz without a question array fails; otherwise the events are those of the attempt, appended in one transaction, and the table is unchanged when a question throws |
| LearnerStateDb.LearnerStateDbTables.UpdateConceptStateForAttempt | server/learnerStateDb.js:154-245 | no concept id changes nothing; otherwise only that learner's row of the concept is upserted with the update, and well-formed rows stay well formed |
| LearnerStateDb.BuildAttemptEvents | server/learnerStateDb.js:89-133 | the loop builds exactly the attempt's events or its first error |
| LearnerStateDb.AttemptEventsStep | server/learnerStateDb.js:89-133 | one turn of the loop appends the next question's events, or its error ends the call |
| LearnerStateDb.AttemptEventsStop | server/learnerStateDb.js:89-133 | once a question has thrown, the whole attempt fails with that error |
| CognitiveFingerprint.CommaParts | server/cognitiveFingerprint.js:31 | every part is non-empty, trimmed and free of commas |
| CognitiveFingerprint.NonEmptyTrimmed | server/cognitiveFingerprint.js:31 | no more parts than the split gave, each non-empty, trimmed and comma-free |
| CognitiveFingerprint.TrimKeeps | server/cognitiveFingerprint.js:31 | trimming adds no character |
| CognitiveFingerprint.Strs | server/cognitiveFingerprint.js:31 | one string value per part, in order |
| CognitiveFingerprint.ParseTags | server/cognitiveFingerprint.js:24-35 | every tag is truthy; an array gives its truthy entries; a string holding a JSON array gives that array's truthy entries and any other JSON value nothing; text that does not parse gives its comma-separated trimmed non-empty parts; anything else gives nothing |
| CognitiveFingerprint.Chronological | server/cognitiveFingerprint.js:88-90 | the events, earliest first, and no event gained or lost |
| CognitiveFingerprint.ExplicitError | server/cognitiveFingerprint.js:111-112 | an explicit error counts only when it names a known error type |
| CognitiveFingerprint.ConfidentWrong | server/cognitiveFingerprint.js:130 | a confident wrong answer is a submitted answer marked `correct: false`, and a falsy or missing confidence is never confident |
| CognitiveFingerprint.ConfidenceCoerced | server/cognitiveFingerprint.js:130 | for a wrong answer whose confidence is an integer given as a number, as padded decimal text or in a one-item array, the answer is confident exactly when the integer is at least 4 |
| CognitiveFingerprint.InitialTally | server/cognitiveFingerprint.js:84 | the tally starts with a score for every error type |
| CognitiveFingerprint.AddOne | server/cognitiveFingerprint.js:113-131 | adding one keeps the error types scored |
| CognitiveFingerprint.Step | server/cognitiveFingerprint.js:99-144 | one event keeps a score for every error type |
| CognitiveFingerprint.TallyOf | server/cognitiveFingerprint.js:99-144 | the tally scores every error type |
| CognitiveFingerprint.Rewritten | server/cognitiveFingerprint.js:146-160 | a numeric/symbolic gap of 0.3 or more replaces VARIABLE_INTRODUCTION_STRUGGLE by the clamped gap; a positive INTUITION_FAILURE becomes a quarter of itself clamped; slips replace ALGEBRA_SLIP by a third of their count clamped; every other score is kept |
| CognitiveFingerprint.RoundAll | server/cognitiveFingerprint.js:163-166 | every score rounded to three decimals, and no key added or lost |
| CognitiveFingerprint.Finish | server/cognitiveFingerprint.js:146-166 | the finished scores name every error type |
| CognitiveFingerprint.ErrorScores | server/cognitiveFingerprint.js:83-169 | the summary scores every error type |
| CognitiveFingerprint.SummarizeErrorTypes | server/cognitiveFingerprint.js:83-169 | the loop over the events in time order followed by the rewrites computes exactly the summary |
| CognitiveFingerprint.TallyOfSnoc | server/cognitiveFingerprint.js:99-144 | one more event is one more step of the tally |
| CognitiveFingerprint.TallyScores | server/cognitiveFingerprint.js:111-133 | a running score is the number of events naming that error type, plus the confident wrong answers for INTUITION_FAILURE |
| CognitiveFingerprint.TallyLastCorrect | server/cognitiveFingerprint.js:136-143 | the tally holds, per question, the correctness of its last answer, and nothing for an unanswered question |
| CognitiveFingerprint.TallySlips | server/cognitiveFingerprint.js:136-143 | the slip counter counts exactly the answers marked correct right after a wrong answer on the same question |
| CognitiveFingerprint.AlgebraSlipScore | server/cognitiveFingerprint.js:136-160 | once a slip happened, ALGEBRA_SLIP is min(1, slips / 3) to three decimals |
| CognitiveFingerprint.FinishAlgebraSlip | server/cognitiveFingerprint.js:158-166 | the finishing rewrites turn a positive slip count into min(1, slips / 3) |
| CognitiveFingerprint.ClampIsMin | server/cognitiveFingerprint.js:22 | clamping a non-negative value is taking its minimum with 1 |
| CognitiveFingerprint.IntuitionScore | server/cognitiveFingerprint.js:111-156 | once positive, INTUITION_FAILURE is min(1, n / 4) for the confident wrong answers plus the events naming it |
| CognitiveFingerprint.FinishIntuition | server/cognitiveFingerprint.js:154-166 | the finishing rewrites turn a positive INTUITION_FAILURE count into min(1, n / 4) |
| CognitiveFingerprint.ExplicitScore | server/cognitiveFingerprint.js:111-166 | every other error type scores exactly the number of events naming it |
| CognitiveFingerprint.Round3Whole | server/cognitiveFingerprint.js:165 | rounding a whole count to three decimals keeps it |
| CognitiveFingerprint.NoFormatsNoTotals | server/cognitiveFingerprint.js:118-127 | without numeric answers the numeric counters stay at 0 |
| CognitiveFingerprint.VariableStruggleWithoutNumeric | server/cognitiveFingerprint.js:111-152 | without numeric answers the gap cannot reach 0.3, so VARIABLE_INTRODUCTION_STRUGGLE is the number of events naming it (one such event scores 1) |
| CognitiveFingerprint.FinishNoGap | server/cognitiveFingerprint.js:146-152 | without numeric answers VARIABLE_INTRODUCTION_STRUGGLE keeps its count |
| CognitiveFingerprint.DefaultPreferences | server/cognitiveFingerprint.js:15-20 | the defaults name exactly the four modalities |
| CognitiveFingerprint.StartPreferences | server/cognitiveFingerprint.js:172 | the starting keys are the four modalities plus the previous keys |
| CognitiveFingerprint.Bump | server/cognitiveFingerprint.js:213 | a bumped value lies in [0.1, 0.9], is not below a value of at most 0.9, and is 0.05 higher inside [0.05, 0.85] |
| CognitiveFingerprint.NudgedTrans | server/cognitiveFingerprint.js:179-242 | two runs of bumps in a row are a run of bumps |
| CognitiveFingerprint.BumpKey | server/cognitiveFingerprint.js:213-236 | bumping a modality only moves that modality by a bump |
| CognitiveFingerprint.ToggleKey | server/cognitiveFingerprint.js:196-210 | a toggle signals a modality |
| CognitiveFingerprint.MinOf | server/cognitiveFingerprint.js:233 | the minimum is one of the times and below all of them |
| CognitiveFingerprint.BumpIf | server/cognitiveFingerprint.js:220-231 | a conditional bump moves only a modality, only by a bump |
| CognitiveFingerprint.ToggleStep | server/cognitiveFingerprint.js:196-215 | a toggle remembers only modalities for its question and only bumps preferences |
| CognitiveFingerprint.ToggleDeltaCoerced | server/cognitiveFingerprint.js:212-214 | a toggle bumps its modality exactly when `delta_success` is true or an integer above 0, given as a number, as decimal text or in a one-item array |
| CognitiveFingerprint.DeltaPositive | server/cognitiveFingerprint.js:212 | `delta_success > 0` holds for `true` and for an integer-like value exactly when the integer is positive |
| CognitiveFingerprint.ToggleWithoutDelta | server/cognitiveFingerprint.js:212 | a toggle with a missing, `null` or `false` `delta_success` leaves the preferences unchanged |
| CognitiveFingerprint.AnswerStep | server/cognitiveFingerprint.js:217-239 | an answer remembers only modalities and only bumps preferences |
| CognitiveFingerprint.PrefStep | server/cognitiveFingerprint.js:179-242 | one event keeps per-question state within the modalities and only bumps preferences |
| CognitiveFingerprint.PrefsOf | server/cognitiveFingerprint.js:179-242 | the per-question state names only modalities |
| CognitiveFingerprint.UpdatePreferences | server/cognitiveFingerprint.js:171-245 | the loop over the events in time order computes exactly the preferences |
| CognitiveFingerprint.PrefsOfSnoc | server/cognitiveFingerprint.js:179-242 | one more event is one more step |
| CognitiveFingerprint.PrefsOfNudged | server/cognitiveFingerprint.js:179-242 | over any run of events the preferences only move by bumps |
| CognitiveFingerprint.PreferencesWithin | server/cognitiveFingerprint.js:171-245 | the keys are the starting keys; non-modality keys keep their values; every changed value lies in [0.1, 0.9]; no modality that started at most 0.9 goes down |
| CognitiveFingerprint.DiagramToggleRaises | server/cognitiveFingerprint.js:196-215 | one diagram toggle whose `delta_success` compares above 0 raises the default diagram preference from 0.4 to 0.45 |
| CognitiveFingerprint.StyleOf | server/cognitiveFingerprint.js:492-499 | diagram_first exactly when diagram beats both equations and step_by_step; equations_first only when equations beats diagram; step_by_step only when it beats examples; one of four styles |
| CognitiveFingerprint.PracticeTags | server/cognitiveFingerprint.js:511-514 | the first two weak concepts when there are any, else the context's tags |
| CognitiveFingerprint.Interventions | server/cognitiveFingerprint.js:501-509 | at most four; the diagram and step-reveal ones exactly when those preferences exceed 0.6; the gradual-variables one first exactly when VARIABLE_INTRODUCTION_STRUGGLE dominates; the definition drill exactly when that confusion dominates |
| CognitiveFingerprint.Dominant | server/cognitiveFingerprint.js:491 | a dominant error exactly when the fingerprint has a hotspot |
| CognitiveFingerprint.PlanPrefs | server/cognitiveFingerprint.js:487 | the fingerprint's own preferences when it has them, and the defaults otherwise |
| CognitiveFingerprint.PersonalizationPlan | server/cognitiveFingerprint.js:486-520 | three practice items; a variation drill exactly when OVERGENERALIZATION dominates; practice tags exactly when there are weak concepts or context tags; the style is the style chain on the fingerprint's preferences (the defaults without them), the interventions are those of the dominant hotspot and those preferences, and the tags are the first two weak concepts or else the context's |
| CognitiveFingerprint.DefaultsGiveExamplesFirst | server/cognitiveFingerprint.js:487-499 | a fingerprint without preferences plans from the equal defaults: example_first |
| Personalization.StyleFor | src/utils/personalization.js:6-13 | one of four styles; diagram_first exactly when diagram beats both equations and step_by_step; example_first exactly when diagram does not beat their maximum, equations does not beat step_by_step, and step_by_step is at most 0.5 |
| Personalization.Interventions | src/utils/personalization.js:15-24 | at most three; each intervention appears exactly when its dominant error or its preference above 0.6 holds; the preference ones come after the error one; step reveal comes last |
| Personalization.Dominant | src/utils/personalization.js:16 | the dominant error is the first hotspot's type |
| Personalization.NextConcepts | src/utils/personalization.js:26-30 | the first two weak concepts, or the single one; with none, the context's tags in order |
| Personalization.BuildPersonalizationPlan | src/utils/personalization.js:1-36 | three practice items; a variation drill exactly when OVERGENERALIZATION is the first hotspot, spaced review otherwise; practice tags exactly when there are weak concepts or context tags; the style is the client's style chain on the preferences (empty without them), the interventions those of the first hotspot and the preferences, and the tags the next concepts |
| Personalization.MissingReadsAsZero | src/utils/personalization.js:7-24 | a missing modality acts exactly like an explicit 0 for the style and the interventions |
| Personalization.NoFingerprintPlan | src/utils/personalization.js:1-36 | without a fingerprint: examples first, no interventions, spaced review |
| Personalization.AgreesWithServerOnDiagram | src/utils/personalization.js:7-24 | on preferences naming every modality, this copy and the server agree on diagram_first and on the preference-triggered interventions |
| Personalization.DivergesFromServer | src/utils/personalization.js:9-13 | with diagram and step_by_step tied at 0.4 above equations, this copy picks examples first where the server picks step_by_step |
| TeachBackStore.NewSession | server/teachbackStore.js:6-20 | a new session keeps its ids, has no attempts, status NEEDS_CLARIFICATION, an empty transcript and nothing summarised, and a truthy user id that is the given one or anonymous |
| TeachBackStore.Merge | server/teachbackStore.js:30 | every field given in the update wins, and every field not given keeps the session's value |
| TeachBackStore.MergeNothing | server/teachbackStore.js:30 | merging no fields changes nothing |
| TeachBackStore.MergeIdempotent | server/teachbackStore.js:30 | merging the same fields twice is merging them once |
| TeachBackStore.MergeTwice | server/teachbackStore.js:30 | two merges in a row are one merge where the later fields win |
| TeachBackStore.SessionStore.Create | server/teachbackStore.js:6-23 | the new session is stored under its id and returned; nothing else changes |
| TeachBackStore.SessionStore.Get | server/teachbackStore.js:25 | a session exactly for a stored id, and it is the stored one |
| TeachBackStore.SessionStore.Update | server/teachbackStore.js:27-33 | an unknown id gives null and changes nothing; otherwise only that entry becomes the merged session, which is returned; no id is added or removed |
| TeachBackStore.CreateThenUpdate | server/teachbackStore.js:6-33 | a created session starts with no attempts and needs clarification, and the session an update returns is the one the next read sees |
| LearningContext.MarkVideoViewed | src/state/LearningContext.jsx:98-110 | the video is listed afterwards; an already listed video leaves the state as it was; otherwise it is appended to its topic; other topics and the rest of the state are unchanged |
| LearningContext.Without | src/state/LearningContext.jsx:119 | exactly the ids other than the video, no more of them, and the same list when the video is absent |
| LearningContext.UnmarkVideoViewed | src/state/LearningContext.jsx:112-123 | the topic is written and lists exactly its former ids other than the video; other topics and the rest of the state are unchanged |
| LearningContext.MarkIdempotent | src/state/LearningContext.jsx:98-110 | marking a video twice is marking it once |
| LearningContext.UnmarkUndoesMark | src/state/LearningContext.jsx:98-123 | unmarking undoes the mark of a video the topic did not list |
| LearningContext.WithoutAppended | src/state/LearningContext.jsx:106-119 | filtering out an appended new id gives back the list |
| LearningContext.SourceKey | src/state/LearningContext.jsx:131-151 | the key is the source type, a dash and the source id |
| LearningContext.Find | src/state/LearningContext.jsx:139-152 | a value exactly when some entry has the key |
| LearningContext.Put | src/state/LearningContext.jsx:142-145 | the key reads back the new value, other keys read as before, an existing key keeps its place and a new one goes last |
| LearningContext.QuizzesForSource | src/state/LearningContext.jsx:150-153 | an unknown source has no quizzes |
| LearningContext.StoreQuizWithSource | src/state/LearningContext.jsx:129-148 | the stamped quiz goes first in its source's list; every other source and the rest of the state are unchanged |
| LearningContext.AllQuizzes | src/state/LearningContext.jsx:155-157 | every quiz of every source is among all quizzes |
| LearningContext.AllQuizzesCount | src/state/LearningContext.jsx:155-157 | the flattened list has one quiz per stored quiz |
| LearningContext.StoreAddsOne | src/state/LearningContext.jsx:129-157 | storing a quiz adds exactly one quiz to all quizzes, and that quiz is among them |
| LearningContext.UpdateMastery | src/state/LearningContext.jsx:87-92 | the title reads the new score, the keys gain only the title, every other title and the rest of the state are unchanged |
| LearningContext.MergeMastery | src/state/LearningContext.jsx:49-53 | every old name stays, and every new name is the name of some record |
| LearningContext.MergeMasteryValue | src/state/LearningContext.jsx:49-53 | a name holds the last mastery the records give it; a name mentioned without a mastery keeps its old value or 0; any other name is untouched |
| LearningContext.RefreshMastery | src/state/LearningContext.jsx:49-53 | the loop over the records computes exactly the merged map |
| YoutubeService.SubsetCard | src/services/youtubeService.js:109-111 | a subset is no larger, and equally large only when it is the whole set |
| YoutubeService.Jaccard | src/services/youtubeService.js:107-111 | the overlap lies in [0, 1], is 1 exactly for equal non-empty tag sets, and is 0 for disjoint ones |
| YoutubeService.Similarity | src/services/youtubeService.js:105-114 | the similarity lies in [0, 1]; a missing video gives 0; the same channel gives at least 0.15; the same non-empty tags give 1; another channel with no shared tag gives 0 |
| YoutubeService.JaccardSymmetric | src/services/youtubeService.js:107-111 | the tag overlap does not depend on the order of the sets |
| YoutubeService.SimilaritySymmetric | src/services/youtubeService.js:105-114 | similarity does not depend on the order of the two videos |
| YoutubeService.Candidates | src/services/youtubeService.js:120-145 | exactly the available videos other than the current one in the requested viewed group, drawn from the available ones |
| YoutubeService.Ranked | src/services/youtubeService.js:126-152 | the candidates, none gained or lost, most similar to the current video first |
| YoutubeService.RecommendVideos | src/services/youtubeService.js:116-160 | at most count videos, none of them the current one, all from the topic's list when one is given and from all videos otherwise |
| YoutubeService.TopUp | src/services/youtubeService.js:133-159 | either branch returns the first count of the unviewed group followed by the viewed group |
| YoutubeService.GroupsInOrder | src/services/youtubeService.js:155-157 | in any prefix of unviewed then viewed videos no unviewed video follows a viewed one, and a prefix within the unviewed group has no viewed video |
| YoutubeService.RecommendUnviewedFirst | src/services/youtubeService.js:116-160 | unviewed videos come first, and with count unviewed candidates no viewed video is returned |
| YoutubeService.LeadingDigits | src/services/youtubeService.js:163 | the longest run of digits at the start of the text |
| YoutubeService.Group | src/services/youtubeService.js:163 | an optional number-and-unit group consumes a part of the text |
| YoutubeService.DurationParts | src/services/youtubeService.js:163-166 | a duration without PT matches nothing and reads as zero hours, minutes and seconds |
| YoutubeService.Pad2 | src/services/youtubeService.js:168-170 | a padded number has at least two characters, all digits |
| YoutubeService.GroupOf | src/services/youtubeService.js:163-166 | a number followed by its unit letter reads back as that number |
| YoutubeService.LeadingDigitsOf | src/services/youtubeService.js:163 | digits followed by a non-digit are read in full |
| YoutubeService.GroupOtherUnit | src/services/youtubeService.js:163 | digits followed by another unit letter leave the group absent |
| YoutubeService.PartsAfterPrefix | src/services/youtubeService.js:163-166 | text starting with PT is matched right there, hours, then minutes, then seconds |
| YoutubeService.ParseFullDuration | src/services/youtubeService.js:162-171 | a duration with hours reads back as h:mm:ss |
| YoutubeService.ParseMinutesDuration | src/services/youtubeService.js:162-171 | a duration without hours reads back as m:ss |
| YoutubeService.MinutesParts | src/services/youtubeService.js:163-166 | PTmMsS matches no hours, m minutes and s seconds |
| YoutubeService.MinutesRestParts | src/services/youtubeService.js:163-166 | after PT, the minutes-and-seconds text gives no hours, m minutes and s seconds |
| YoutubeService.NoMatchIsZero | src/services/youtubeService.js:162-171 | a duration without PT reads 0:00 |
| YoutubeService.ParseDuration | src/services/youtubeService.js:162-171 | every duration reads as a clock of at least four characters, digits and colons only |
| YoutubeService.ClockJoin | src/services/youtubeService.js:168-170 | clock texts joined by a colon stay a clock text |
| YoutubeService.ExtractTags | src/services/youtubeService.js:173-175 | the first four tags, lower-cased, in order |
| YoutubeService.TopicList | src/services/youtubeService.js:178 | an unknown topic lists no videos |
| YoutubeService.GetMockVideos | src/services/youtubeService.js:177-180 | a prefix of the topic's list, no longer than count |
| YoutubeService.FindById | src/services/youtubeService.js:184 | a video with the id from the catalogue, or nothing exactly when none has it |
| YoutubeService.VideosById | src/services/youtubeService.js:182-185 | no more videos than ids, each from the catalogue with a requested id |
| YoutubeService.VideosByKnownIds | src/services/youtubeService.js:182-185 | when every id is known, one video per id, in request order |
| YoutubeService.VideosByIdDropsUnknown | src/services/youtubeService.js:184 | an unknown id adds nothing |
| YoutubeService.GetMockVideosById | src/services/youtubeService.js:182-185 | no more videos than ids, each from the mock catalogue with a requested id |
| RecommendVideos.ThumbnailSeed | src/utils/recommendVideos.js:5 | the seed is the id when it is truthy, and otherwise the topic slug, a dash and the decimal position |
| RecommendVideos.Placeholder | src/utils/recommendVideos.js:6 | the placeholder is a picsum seed address ending in `/640/360` |
| RecommendVideos.EnsureThumbnail | src/utils/recommendVideos.js:3-7 | a truthy thumbnail is kept; otherwise the address is the picsum placeholder of the id (when truthy) or of `topicSlug-index`, at 640 by 360; never empty |
| RecommendVideos.ThumbnailFor | src/utils/recommendVideos.js:29-42 | the placeholder is never empty, so the fallback thumbnail is never used |
| RecommendVideos.NormalizeVideo | src/utils/recommendVideos.js:39-44 | the video keeps its id, tags and blurb, gains a truthy thumbnail, and is unchanged when it had one |
| RecommendVideos.NormalizeCourseVideos | src/utils/recommendVideos.js:46-49 | one normalized video per video, each at its own position, and none without videos |
| RecommendVideos.NormalizeKeepsOrder | src/utils/recommendVideos.js:46-49 | the videos keep their ids and order, and all have a thumbnail |
| RecommendVideos.Overlap | src/utils/recommendVideos.js:11 | no more shared tags than tags, and none when no tag is shared |
| RecommendVideos.ScoreVideo | src/utils/recommendVideos.js:9-16 | the score is twice the shared tags plus at most 2.5, and a video tagged with the topic gets at least 1.5 more |
| RecommendVideos.SharedTagOutweighs | src/utils/recommendVideos.js:9-16 | sharing more tags puts a video at most 0.5 below one sharing fewer |
| RecommendVideos.CurrentOf | src/utils/recommendVideos.js:22 | the current video is the first video with the requested id when there is one, and the first video otherwise |
| RecommendVideos.Others | src/utils/recommendVideos.js:26 | exactly the videos whose id differs from the current one's |
| RecommendVideos.Scored | src/utils/recommendVideos.js:27-31 | one pair per remaining video: the video thumbnailed by its position, and its score |
| RecommendVideos.Videos | src/utils/recommendVideos.js:34 | the videos of the pairs, score dropped, in order |
| RecommendVideos.GetVideoRecommendations | src/utils/recommendVideos.js:18-37 | nothing without videos, at most count videos, and exactly as many as `slice(0, count)` keeps of the videos other than the current one |
| RecommendVideos.ScoredFacts | src/utils/recommendVideos.js:25-31 | every scored pair holds a thumbnailed video other than the current one, with its own score |
| RecommendVideos.RankedPrefix | src/utils/recommendVideos.js:32-34 | a prefix of the ranked pairs keeps those facts, in descending score order |
| RecommendVideos.RecommendationsRanked | src/utils/recommendVideos.js:18-37 | no recommendation has the current video's id, each has a thumbnail, scores descend, the count is what `slice(0, count)` keeps, the recommendations are drawn (as a multiset) from the other videos as normalized at their positions, and no video left out scores above one kept |
| RecommendVideos.RecommendedTop | src/utils/recommendVideos.js:25-35 | sorting by score and slicing keeps a sub-multiset of the normalized other videos with no left-out video scoring above a kept one |
| RecommendVideos.KeptVideos | src/utils/recommendVideos.js:32-35 | the top-N facts of the scored pairs carry over to their videos once the score is dropped |
| RecommendVideos.CountVideos | src/utils/recommendVideos.js:35 | dropping the score keeps every video's multiplicity, since each pair carries its own video's score |
| RecommendVideos.LeftOutBelow | src/utils/recommendVideos.js:32-34 | a video left out scores at most every kept video |
| RecommendVideos.ScoreIgnoresThumbnail | src/utils/recommendVideos.js:29-30 | setting the thumbnail does not change the score |
| MyCourses.NormalizedTopicShape | src/pages/MyCourses.jsx:9-12 | every normalized topic has no blank at either end, no two blanks in a row and no ASCII upper-case letter |
| MyCourses.NoTopicNormalizesEmpty | src/pages/MyCourses.jsx:9 | a missing topic normalizes to the empty string |
| MyCourses.CollapsedShape | src/pages/MyCourses.jsx:12 | collapsing the blanks of a lower-case string whose ends are not blank leaves no two blanks in a row and keeps the ends and the case |
| MyCourses.LowerKeepsEdges | src/pages/MyCourses.jsx:10-11 | lower-casing keeps the trimmed ends non-blank |
| MyCourses.LowerIsLowerCased | src/pages/MyCourses.jsx:11 | lower-casing leaves no ASCII upper-case letter |
| MyCourses.CollapseKeepsLowerCase | src/pages/MyCourses.jsx:12 | collapsing blanks introduces no upper-case letter |
| MyCourses.CourseKey | src/pages/MyCourses.jsx:8-14 | the key is never empty, so the `!key` guard never drops a course |
| MyCourses.SameKeyUpToCaseAndPadding | src/pages/MyCourses.jsx:8-14 | topics that differ only in ASCII case and surrounding blanks give the same key |
| MyCourses.BlankTopicIsNoTopic | src/pages/MyCourses.jsx:8-14 | a missing topic and a blank one give the same key |
| MyCourses.KeyOf | src/pages/MyCourses.jsx:35-49 | the key is never empty, and a stored non-empty key is used as it is |
| MyCourses.Stamp | src/pages/MyCourses.jsx:38 | the kept course carries its key and keeps its slug and topic |
| MyCourses.KeysByExactly | src/pages/MyCourses.jsx:34-39 | the set of seen keys holds exactly the keys of the entries so far |
| MyCourses.FirstByKeys | src/pages/MyCourses.jsx:32-39 | for any key function, the kept entries carry exactly the keys of all entries |
| MyCourses.FirstByDistinct | src/pages/MyCourses.jsx:32-39 | for any key function, no two kept entries share a key |
| MyCourses.FirstByKeepsFirst | src/pages/MyCourses.jsx:32-39 | for any key function, each kept entry is the first entry with its key |
| MyCourses.FirstByAllDistinct | src/pages/MyCourses.jsx:32-39 | for any key function, entries whose keys are already distinct are all kept |
| MyCourses.FirstBy | src/pages/MyCourses.jsx:32-39 | keeping the first entry of each key never adds entries |
| MyCourses.FirstOfEachKey | src/pages/MyCourses.jsx:32-39 | deduplication on load keeps no more courses than there are stored entries |
| MyCourses.Dedupe | src/pages/MyCourses.jsx:32-39 | the loop with its set of seen keys keeps exactly the first entry of each key, stamped, in order |
| MyCourses.FirstOfEachKeyCoversKeys | src/pages/MyCourses.jsx:32-39 | the kept courses carry exactly the keys of the stored entries |
| MyCourses.FirstOfEachKeyDistinct | src/pages/MyCourses.jsx:32-39 | no two kept courses share a key |
| MyCourses.FirstOfEachKeyKeepsFirst | src/pages/MyCourses.jsx:32-39 | each kept course is the stamped first entry with its key |
| MyCourses.DedupeIdempotent | src/pages/MyCourses.jsx:27-44 | loading a shelf that is already deduplicated keeps it as it is |
| MyCourses.Entries | src/pages/MyCourses.jsx:30-31 | each course stored as an entry, in order |
| MyCourses.RemoveCourse | src/pages/MyCourses.jsx:46-51 | exactly the courses whose key differs from the target's remain |
| MyCourses.Without | src/pages/MyCourses.jsx:50 | exactly the courses with another key remain, and no more than before |
| MyCourses.WithoutAppended | src/pages/MyCourses.jsx:50 | removing keeps the other courses in order: a course with the key appended after them drops just it |
| MyCourses.RemoveOne | src/pages/MyCourses.jsx:46-51 | on a shelf with one course per key, removing one on it shortens the shelf by exactly one |
| MyCourses.WithoutAbsent | src/pages/MyCourses.jsx:50 | removing a key no course has changes nothing |
| MyCourses.CourseLink | src/pages/MyCourses.jsx:59-64 | without a topic the link is the course path; with one it adds the encoded topic as the only query value |
| MyCourses.CourseLinkQuery | src/pages/MyCourses.jsx:59-62 | after the last = comes the encoded topic, which holds no &, # or ?: the topic reaches the course page as one query value |
| MyCourses.Capitalize | src/pages/MyCourses.jsx:20 | a capitalized word keeps its length |
| MyCourses.CapitalizeAll | src/pages/MyCourses.jsx:20 | one capitalized word per word |
| MyCourses.TitleCase | src/pages/MyCourses.jsx:16-22 | the reference reading keeps the length and upper-cases exactly the first character and every character after a space |
| MyCourses.TitleCaseWord | src/pages/MyCourses.jsx:20 | a word without a space comes out as its capitalized form |
| MyCourses.TitleCaseSpace | src/pages/MyCourses.jsx:19-21 | a space ends a word and starts the next |
| MyCourses.TitleCaseJoin | src/pages/MyCourses.jsx:19-21 | splitting, capitalizing and joining words is the reference title case |
| MyCourses.Titleize | src/pages/MyCourses.jsx:16-22 | a missing value titleizes to the empty string; otherwise titleize upper-cases the first character and every character after a space, and leaves the others as they are |
| CanvasPage.Stride | src/pages/Canvas.jsx:254 | the stride is `max(2, round(length / 240))`: at least 2, and exactly the rounded length over 240 whenever that is larger |
| CanvasPage.PairAt | src/pages/Canvas.jsx:257-258 | a position contributes nothing, or both values of the pair there when both are finite |
| CanvasPage.Sampled | src/pages/Canvas.jsx:255-260 | the loop sends only finite values, two for each visited position whose pair is finite and nothing else, at most one pair per visited position |
| CanvasPage.SampledSound | src/pages/Canvas.jsx:255-260 | every pair sent is an input pair at a multiple of the stride |
| CanvasPage.SampledComplete | src/pages/Canvas.jsx:255-260 | no finite pair at a visited position is lost: the pair of step m is sent as pair number `PairsBefore(m)`, right after the finite pairs of the earlier steps |
| CanvasPage.PairsBeforeOrder | src/pages/Canvas.jsx:255-260 | pairs are sent in the order of the loop: a finite pair of an earlier step comes before the pair of any later step |
| CanvasPage.SampledCons | src/pages/Canvas.jsx:256-260 | one more turn of the loop keeps those facts |
| CanvasPage.EndPairUnchecked | src/pages/Canvas.jsx:261-265 | as written, an end pair with a finite new x and a y that is not finite is sent, so the payload ends with a value that is not a finite number |
| CanvasPage.AppendsEnd | src/pages/Canvas.jsx:262-265 | as written, a finite end x that differs from the last sampled x appends the end pair |
| CanvasPage.WithEndAsWritten | src/pages/Canvas.jsx:261-265 | as written, the end step leaves the result alone or appends the end pair, and appends only when the end x is finite |
| CanvasPage.WithEnd | src/pages/Canvas.jsx:261-265 | the corrected end step leaves the result alone or appends the end pair, and appends only when both end values are finite |
| CanvasPage.CompressedPairs | src/pages/Canvas.jsx:252-267 | downsampling sends whole pairs of finite values, each an input pair at a multiple of the stride or the end pair, and a finite end pair's x is the last x sent |
| CanvasPage.CompressedComplete | src/pages/Canvas.jsx:252-267 | every finite pair at a multiple of the stride is in the downsampled list, at its place in loop order, before the end pair |
| CanvasPage.Compressed | src/pages/Canvas.jsx:252-267 | the corrected `compressPoints`: a value that is not a list is sent as an empty list, and lists of at most 60 values are sent as they are |
| CanvasPage.CompressedAsWritten | src/pages/Canvas.jsx:252-267 | as written, a value that is not a list is sent as an empty list, and lists of at most 60 values are sent as they are |
| CanvasPage.CompressPoints | src/pages/Canvas.jsx:252-267 | the sampling loop computes exactly the corrected downsampling |
| CanvasPage.SampleLoop | src/pages/Canvas.jsx:255-260 | the loop's result is exactly the strided sample `Sampled`, whose completeness and order `SampledComplete` and `PairsBeforeOrder` state |
| CanvasPage.CompressStrokes | src/pages/Canvas.jsx:269-273 | one stroke per stroke, each keeping its other fields, with its points put through the corrected downsampling (see Findings for Canvas.jsx:261-265) |
| CanvasPage.OrderedIssues | src/pages/Canvas.jsx:56-75 | the same issues with the same multiplicities, none without issues, and exactly the analysis's list when there are no confusion regions or an empty list of them |
| CanvasPage.OverlappingFirst | src/pages/Canvas.jsx:60-74 | with confusion regions, the issues overlapping one come first and the others after, each group in the analysis's order |
| CanvasPage.TouchingIsNotOverlapping | src/pages/Canvas.jsx:71 | boxes that only touch along an edge do not overlap |
| CanvasSessionPanel.RubricLabel | src/components/CanvasSessionPanel.jsx:13 | the label keeps the key's length and shows each underscore as a space and every other character as it is |
| CanvasSessionPanel.MissingPoint | src/components/CanvasSessionPanel.jsx:19 | a point is the key's label (underscores as spaces), a colon and a space, then the entry's non-empty string note, or "Needs improvement." when the note is falsy |
| CanvasSessionPanel.ScoreBelowTwoCoerced | src/components/CanvasSessionPanel.jsx:18 | an integer score given as a number, padded decimal text or a one-item array is low exactly when it is below 2; a `null`, boolean, `[]` or `[null]` score is low; an object score never is |
| CanvasSessionPanel.NoScoreIsLow | src/components/CanvasSessionPanel.jsx:18 | an entry without a score counts as scored 0, so it is low |
| CanvasSessionPanel.LowEntries | src/components/CanvasSessionPanel.jsx:18 | exactly the rubric entries whose score, after number conversion with a missing score read as 0, is below 2; none added |
| CanvasSessionPanel.Points | src/components/CanvasSessionPanel.jsx:19 | one point per low entry, in order |
| CanvasSessionPanel.MissingPoints | src/components/CanvasSessionPanel.jsx:15-21 | no points without a rubric, and at most three |
| CanvasSessionPanel.MissingPointsAreLowEntries | src/components/CanvasSessionPanel.jsx:15-21 | the points are the label and note of the first three entries scored below 2, in rubric order, all of them when there are at most three |
| CanvasSessionPanel.PassedEntriesSilent | src/components/CanvasSessionPanel.jsx:18 | an entry scored 2 or more never produces a point |
| CanvasSessionPanel.LabelHasNoUnderscore | src/components/CanvasSessionPanel.jsx:13 | a label never shows an underscore |
| CanvasSessionPanel.Window | src/components/CanvasSessionPanel.jsx:39 | the last eight entries of the list, or all of them when fewer |
| CanvasSessionPanel.AppendLog | src/components/CanvasSessionPanel.jsx:38-40 | the new entry, with the time and the previous length as its id, is last, and only the last eight are kept |
| CanvasSessionPanel.FullLogRepeatsIds | src/components/CanvasSessionPanel.jsx:39 | once the log is full, two entries logged in the same millisecond get the same id |
| CanvasSessionPanel.WindowOfWindow | src/components/CanvasSessionPanel.jsx:39 | windowing twice is windowing once |
| CanvasSessionPanel.LogKeepsLastEight | src/components/CanvasSessionPanel.jsx:38-40 | however many entries were logged, the times, titles and details the log shows are exactly those of the last eight entries logged, in order |
| CanvasSessionPanel.CanTeachBackReply | src/components/CanvasSessionPanel.jsx:188 | the "I'm stuck" button is enabled exactly when a session exists, the status is not PASS and fewer than four rounds were used (the Reply button is not gated by it) |
| CanvasSessionPanel.AtMostThreeReplies | src/components/CanvasSessionPanel.jsx:188 | in a teach-back started in round 1 the "I'm stuck" button stays enabled for at most three further rounds, and never once the status is PASS |
| CanvasSessionPanel.TutorSend | src/components/CanvasSessionPanel.jsx:53-58 | a blank message is ignored (and only a blank one); a non-blank one longer than 3000 characters is rejected with the message error (and only such a one); any other message is sent as its trimmed text |
| CanvasSessionPanel.TeachBackStart | src/components/CanvasSessionPanel.jsx:89-94 | the same three outcomes on the input box, with the explanation's error message; a non-blank input within 3000 characters starts with its trimmed text |
| CanvasSessionPanel.TeachBackReply | src/components/CanvasSessionPanel.jsx:135-141 | the handler as the stuck button and the corrected reply button use it: a sent reply is the trimmed override or input, non-empty, within 3000 characters, and only with a session |
| CanvasSessionPanel.TeachBackReplyAsWritten | src/components/CanvasSessionPanel.jsx:135-137 | the handler on any argument throws exactly when it is given a click event, and any request it makes has a session and at most 3000 characters |
| CanvasSessionPanel.ReplyButtonAsWritten | src/components/CanvasSessionPanel.jsx:255-257 | without a session the primary button starts a teach-back on non-blank input when not thinking |
| CanvasSessionPanel.ReplyButtonNeverSends | src/components/CanvasSessionPanel.jsx:256 | as written, with a session an enabled Reply click passes the click event to the handler, which throws, so the typed reply is never sent |
| CanvasSessionPanel.ReplyButton | src/components/CanvasSessionPanel.jsx:255-257 | the corrected button never throws and behaves as written when there is no session |
| CanvasSessionPanel.ReplyButtonSendsInput | src/components/CanvasSessionPanel.jsx:256 | corrected, a Reply click with a session sends the trimmed input, or shows the length error when it is over 3000 characters |
| CanvasSessionPanel.StuckReplySent | src/components/CanvasSessionPanel.jsx:179-182 | with a session the fixed stuck reply is sent |
| CanvasSessionPanel.TrimNoSpaceEdges | src/components/CanvasSessionPanel.jsx:54 | text without blanks at its ends is its own trim |
| CanvasSessionPanel.PaddingCountsOnlyForTutor | src/components/CanvasSessionPanel.jsx:55 | a 3000-character text with one trailing blank is rejected by the tutor and sent as a reply |
| BigbrainAgent.U16 | server/agent/bigbrainAgent.js:61-66 | a 16-bit field is two bytes |
| BigbrainAgent.U32 | server/agent/bigbrainAgent.js:57-68 | a 32-bit field is four bytes |
| BigbrainAgent.U16RoundTrip | server/agent/bigbrainAgent.js:61-66 | a 16-bit little-endian field reads back as the value written |
| BigbrainAgent.U32RoundTrip | server/agent/bigbrainAgent.js:57-68 | a 32-bit little-endian field reads back as the value written |
| BigbrainAgent.Ascii | server/agent/bigbrainAgent.js:56-67 | an ASCII tag is written one byte per character, with that character's code |
| BigbrainAgent.RiffHead | server/agent/bigbrainAgent.js:56-58 | the RIFF head is RIFF, the size of everything after its first 8 bytes, then WAVE |
| BigbrainAgent.FmtChunk | server/agent/bigbrainAgent.js:59-66 | the format chunk is fmt , size 16, PCM 1, the channels, the rate, the byte rate, the block alignment and 16 bits per sample |
| BigbrainAgent.DataHead | server/agent/bigbrainAgent.js:67-68 | the data head is data and the sample byte count |
| BigbrainAgent.Shift | server/agent/bigbrainAgent.js:54-69 | a slice of a part placed inside the file is the same slice of the file, shifted |
| BigbrainAgent.WavHeader | server/agent/bigbrainAgent.js:54-68 | the header is 44 bytes: the RIFF head, the format chunk and the data head, in that order |
| BigbrainAgent.WavFile | server/agent/bigbrainAgent.js:50-71 | the file is the 44-byte header followed by exactly the samples |
| BigbrainAgent.ChunksAt | server/agent/bigbrainAgent.js:56-68 | the three chunk heads sit at bytes 0, 12 and 36 of the file |
| BigbrainAgent.WavTagsAndSizes | server/agent/bigbrainAgent.js:56-69 | the tags RIFF, WAVE, fmt  and data sit at 0, 8, 12 and 36; the RIFF size is the file length minus 8; the data size is the sample byte count; the samples follow byte 44 |
| BigbrainAgent.WavFormat | server/agent/bigbrainAgent.js:52-66 | the format reads back as size 16, PCM, the given channels and rate, 16 bits, a block alignment of two bytes per channel and a byte rate of the rate times the block alignment |
| BigbrainAgent.RateTimesAlign | server/agent/bigbrainAgent.js:52-53 | the byte rate is the rate times the block alignment |
| BigbrainAgent.U32At | server/agent/bigbrainAgent.js:57-68 | a 32-bit field inside the file reads back as its value |
| BigbrainAgent.U16At | server/agent/bigbrainAgent.js:61-62 | a 16-bit field inside the file reads back as its value |
| BigbrainAgent.WriteAt | server/agent/bigbrainAgent.js:56-69 | a write puts the bytes at the offset and changes nothing else |
| BigbrainAgent.HeaderFields | server/agent/bigbrainAgent.js:56-68 | each field the writer sets lies at its offset in the header |
| BigbrainAgent.Extend | server/agent/bigbrainAgent.js:56-68 | writing the next field of the header lengthens the correct prefix |
| BigbrainAgent.WriteField | server/agent/bigbrainAgent.js:56-68 | one field write lengthens the correct prefix of the header over that field |
| BigbrainAgent.WriteRiffHead | server/agent/bigbrainAgent.js:56-58 | the first 12 bytes are the header's |
| BigbrainAgent.WriteFmtChunk | server/agent/bigbrainAgent.js:59-66 | the first 36 bytes are the header's |
| BigbrainAgent.WriteDataHead | server/agent/bigbrainAgent.js:67-68 | all 44 header bytes are in place |
| BigbrainAgent.BuildWavBuffer | server/agent/bigbrainAgent.js:50-71 | a new buffer holding exactly the WAV file of the samples |
| BigbrainAgent.Texts | server/agent/bigbrainAgent.js:140 | the texts of the lines, in order |
| BigbrainAgent.SummarizeTranscript | server/agent/bigbrainAgent.js:138-141 | no lines summarise to the empty string; a summary ends with the latest line's text, and with at most six lines starts with the first line's text |
| BigbrainAgent.SummaryIsLastSix | server/agent/bigbrainAgent.js:138-141 | for texts without spaces, splitting the summary on spaces gives back the last six texts in order |
| BigbrainAgent.HighlightFor | server/agent/bigbrainAgent.js:244-256 | a highlight exactly when the evaluation or the fallback gives a truthy target; the target is the evaluation's when truthy, else the fallback; the level is info exactly when the evaluation passed; the note is the reason or the empty string |
| BigbrainAgent.Agent.SetTeachbackMode | server/agent/bigbrainAgent.js:316-320 | teach-back is on exactly when the message enables it, the round count goes back to 0, and the transcript is kept |
| BigbrainAgent.Agent.OnTranscript | server/agent/bigbrainAgent.js:228-301 | an empty transcription changes nothing; in teach-back a round is counted: a pass ends teach-back and resets the count, a failure in rounds 1 and 2 asks the follow-up question, and a later failure pauses; otherwise the tutor's non-empty reply joins the transcript after the learner's line |
| BigbrainAgent.FailingTeachback | server/agent/bigbrainAgent.js:241-291 | a teach-back that keeps failing asks two follow-up questions and then pauses, staying on |
| Sorting.SortDesc | server/learnerModel.js:383 | the descending sort is ordered by the key and is a permutation of its input |
| Sorting.SortedHeadIsMax | server/index.js:201 | the head of a list sorted by decreasing key has the greatest key in it |
| Sorting.TopN | server/learnerStateDb.js:288-289 | keeping the first n of the descending sort keeps the n largest keys: elements of the input, in descending order, and no dropped element above a kept one |
| Sorting.StablePartition | src/pages/Canvas.jsx:74 | for a key of 1 or 0 the stable sort puts the 1s first and the 0s after, each group in input order |
| Sorting.InsertBelow | src/pages/Canvas.jsx:74 | an element placed into a sorted list goes after every element of greater key and before the rest, which keep their order |
| Strings.CompareAntisymmetric | server/graphAgent.js:48-49 | the string comparison standing for localeCompare flips sign when its arguments are swapped |
| Strings.CompareTransitive | server/graphAgent.js:48-49 | the comparison is transitive |
| Uri.EncodeUriComponent | src/pages/MyCourses.jsx:61 | the encoded component is no shorter and holds only characters encodeURIComponent may emit |
| Uri.EncodeConcat | src/pages/MyCourses.jsx:61 | encoding works character by character and distributes over concatenation |
| Uri.EncodeUnreserved | src/pages/MyCourses.jsx:61 | a component of unreserved characters is left as it is |
| Uri.EncodedHasNoDelimiters | src/pages/MyCourses.jsx:61 | an encoded component holds none of the characters that delimit a URL's parts |
| JsonModel.JsNumber | server/cognitiveFingerprint.js:130 | `Number(v)` as a relational comparison with a number applies it: a number is itself, a string converts as its text, `undefined` is NaN |
| JsonModel.StringToNumber | server/cognitiveFingerprint.js:130 | a string that is blank after trimming converts to 0 |
| JsonModel.SignedDecimal | server/cognitiveFingerprint.js:130 | a trimmed empty text is 0, and an unsigned text is read as an unsigned decimal literal |
| JsonModel.UnsignedDecimal | server/cognitiveFingerprint.js:130 | a decimal literal is never negative, and a string of digits is its value |
| JsonModel.IntStringToNumber | server/cognitiveFingerprint.js:130 | the decimal text of an integer, with blanks around it, converts to that integer |
| JsonModel.IntLikeToNumber | server/cognitiveFingerprint.js:130 | an integer as a number, as padded decimal text or inside a one-item array converts to that integer |
| JsonModel.EmptyArrayToNumber | server/cognitiveFingerprint.js:130 | `[]` and `[null]` convert through the empty text to 0 |
| JsonModel.SingletonArrayToNumber | server/cognitiveFingerprint.js:130 | a one-item array converts as the text of its item does |
| JsonModel.BoolArrayToNumber | server/cognitiveFingerprint.js:130 | `[true]` converts through the text `true` to NaN |
| JsonModel.ObjectToNumber | server/cognitiveFingerprint.js:130 | an object converts through `[object Object]` to NaN |
| JsonModel.WordIsNaN | server/cognitiveFingerprint.js:130 | a text starting with a letter or bracket converts to NaN |
| JsonModel.JsString | server/cognitiveFingerprint.js:130 | `String(v)`, through which arrays convert to numbers, of a string is the string, of a boolean `true`/`false`, of `null` the text `null` |
| JsonModel.ArrayIndex | server/scoreAttempt.js:4 | a property name is an array index exactly when it is the canonical decimal text of a natural, and then it is that natural |
| JsonModel.Member | server/scoreAttempt.js:4 | `v[key]` is an object's field, an array's item at a canonical index or its length, a string's character or its length, and undefined on `null`, booleans and numbers |
| JsonModel.MemberOpt | server/scoreAttempt.js:4 | `v?.[key]` is undefined for an undefined value and member access otherwise |
| JsonModel.MemberOfObject | server/scoreAttempt.js:4 | on an object, member access is the field lookup |
| JsonModel.StrictEqSymmetric | server/scoreAttempt.js:5 | strict equality does not depend on the order of its operands |
| JsonModel.PyIter | backend/main.py:282 | Python iteration succeeds exactly for a list, a string or a dict, and yields a list's items |
| Numbers.Round3 | server/cognitiveFingerprint.js:165 | a score rounded to three decimals is within half a thousandth of the score |
| Numbers.Round3Unit | server/learnerModel.js:379 | rounding a score of the unit interval to three decimals keeps it in the unit interval |
| Numbers.Round | server/scoreAttempt.js:15 | `Math.round` is within one half of its argument, halves rounded up |
| Numbers.RoundMonotone | server/scoreAttempt.js:15 | `Math.round` never reverses the order of two values |
| Numbers.Round3Monotone | server/learnerModel.js:379 | rounding to three decimals never reverses the order of two values |

## Left out

- LLM, OpenAI/Gemini, LiveKit, text-to-speech and YouTube Data API calls (`searchYoutubeVideos`, `getVideosByIds`): foreign network I/O. Model output enters as text, and parsing it as an oracle.
- `JSON.parse` / `json.loads` themselves: an oracle parameter from text to an optional JSON value. The grammar of JSON is not modelled.
- `Date.now()`, ISO timestamps, `uuid` / `randomUUID` and `Math.random`: clock and randomness. These are parameters, including the teach-back session id and the 8-character question ids.
- SQLite tables and the JSON-file persistence (`readState` / `writeState`): modelled as in-memory sequences and maps, with query results passed in as parameters.
- `localStorage` persistence of the learning context: storage I/O.
- QuizBackend.ScoreAttempt: the percent is exact `score / maxScore * 100`. Rounding to 2 decimals is left out because it is floating-point display rounding.
- Numbers.Round3: `Number(x.toFixed(3))` is modelled as exact rounding of a real to three decimals with halves rounded up. Binary floating point, where `toFixed` can round a stored half down, is not modelled. `(avg * 100).toFixed(0)` in the readiness reason (server/learnerModel.js:270) is modelled as Numbers.Round, since the value is never negative. Other display rounding (`toFixed(0)` in the React views, `toFixed(2)`), the exponential strength decay in server/graphAgent.js and `decayStrength` are floating point and left out.
- DeriveGraph.CollectPrereqs: with a non-empty visited set the contract bounds what is added by any prerequisite-closed set holding the start id. The exact set is stated for the fresh call (`CollectPrereqsFresh`), where it is the reachable set `Reach`.
- BigbrainAgent.BuildWavBuffer: the source's `RangeError` for a field that does not fit its width is the `FieldsFit` precondition.
- BigbrainAgent.BuildWavBuffer: samples are given as bytes. The platform's `Int16Array` byte order is not modelled.
- Float-to-PCM conversion (`toInt16`, `generateTone`), audio streaming, room events and the agent's `CANVAS_STATE` / `SESSION_CONTEXT` handling: event-driven audio I/O.
- BigbrainAgent.HighlightFor: the fallback target is a parameter. Its derivation from the latest `CANVAS_STATE` (the first line's id, else the first text's id, server/agent/bigbrainAgent.js:244-246) is not modelled.
- `Object.entries` of values that are not objects: only objects and arrays are modelled.
- `Number(v)` on strings in exponent form (`"1e3"`), on `"Infinity"` and on `0x`/`0o`/`0b` literals: the model reads these as `NaN`. Whitespace-padded signed decimals, booleans, `null`, and arrays through their joined text are modelled.
- String lengths count code points, not UTF-16 code units.
- Case mapping (`toLowerCase`, `.lower()`, `toUpperCase`) is ASCII only.
- CanvasPage.CompressPoints: a truthy input that is not an array is returned unchanged by the source. The model takes an array of points.
- `localeCompare` is modelled as code-point comparison.
- `encodeURIComponent` on lone surrogates (a `URIError`): strings are sequences of code points.
- `parseInt` beyond exact integer precision: integers are unbounded.
- Python `str()` of floats, lists and dicts: rendered in a JSON-like form, not Python's `repr`.
- Day arithmetic with `setDate` adds whole 24-hour days. Daylight-saving shifts are not modelled.
- YoutubeService.Similarity: a video's tags are a sequence. The source's `video.tags || []` reads an absent list as empty, which is what the empty sequence stands for, so nothing is lost; the same holds for RecommendVideos.ScoreVideo, which reads an absent list as empty explicitly.
- LearningContext.UpdateMastery: the new score is a number. The source stores whatever value `nextScore` is.
- LearningContext.RefreshMastery: only the mastery-map merge is modelled. Other profile fields (`learnerProfile`, `prereqEdges`) are copied by the source and not modelled.
- `completeDiagnostic`, `setCurrentNode` and `resetLearning` in src/state/LearningContext.jsx: single-field assignments or persistence.
- LearningContext.StoreQuizWithSource: `quizData` is kept whole beside the source fields. The spread at src/state/LearningContext.jsx:133, where a `quizData` key named `sourceType`, `sourceId`, `sourceMetadata` or `createdAt` is overwritten, is not modelled.
- `getCourseRecommendations` and `getContentRecommendations` (server/learnerModel.js:286-359): outside the modelled core.
- `insertQuizItems` (server/learnerStateDb.js:45-81): a database insert outside the modelled core.
- LearnerStateDb: `PREREQ_EDGES` is a parameter, because server/learnerStateDb.js:2 imports a name that server/learnerModel.js never exports.
- `computeConcepts`, `decayStrength`, `recordEvent`, `getFingerprintSummary`, `getConceptBreakdown` and `deleteFingerprint` in server/cognitiveFingerprint.js: database reads and writes.
- `saveConceptMastery` (server/teachbackStore.js:35-44): a database write.
- `NaN` and non-numeric mastery values in the learning graph: masteries are reals.
- LearningGraph.ComputeWeakestChain: requires that no cycle is reachable from a root, given as a rank over the roots and every node below them. On such a cycle each `dfs` call copies the path and recurses again (ObsidianLearningGraph.jsx lines 46 and 51), so the call stack overflows and a `RangeError` is thrown out of `computeWeakestChain`; the model has no such error outcome. A cycle no root reaches is allowed, as in the source.
- Express/FastAPI routing, CORS, uploads and document extraction: transport plumbing.
- Strings.IsSpace: only the ASCII whitespace characters are trimmed and collapsed. JavaScript `trim()` and `\s` also match U+00A0, U+1680, U+2000 to U+200A, U+2028, U+2029, U+202F, U+205F, U+3000 and U+FEFF. Python `strip()` also strips U+001C to U+001F and U+0085. Every trimming and collapsing member inherits this, for example MyCourses.NormalizedTopic and GraphAgent.Cleaned.
- BigbrainAgent.Agent.OnTranscript: one transcript is handled atomically. In the source, a `TEACHBACK_MODE` message can arrive during the awaits between `teachbackRounds += 1` and the pass or fail decision.
- TeachBackStore.Merge: an update carries the session's own fields. The source spreads every key of `updates`, including keys the session does not have.
- ServerIndex.MostMissedTopic: among tied topics the model keeps the first in insertion order. JavaScript `Object.entries` lists integer-like keys first, in numeric order, so a topic named like `"7"` wins a tie against an earlier topic.
- LearnerStateDb: statements are modelled by their results. A value better-sqlite3 refuses to bind (a boolean `correct`, an object, `undefined`) makes the source throw in server/learnerStateDb.js, which is not modelled.
- GraphAgent: the event payload fields it reads (`total`, `score`, `correct`, `minutes`, `forceDelta`) are absent or numbers. `NaN` and strings, which JavaScript coerces in `??`, arithmetic and `Number()`, are not modelled.
- CanvasPage.OrderedIssues: region coordinates are absent or numbers (absent reads 0). Strings and other values, which JavaScript coerces in the overlap comparison in src/pages/Canvas.jsx:59-75, are not modelled.
- MyCourses.Dedupe: starts from the stored list as a sequence of entries. Reading `localStorage`, a `JSON.parse` failure and a `customTopic` that is not a string (where `.trim` throws; the source shows no courses in both cases), and stored JSON that is not an array (read as empty) are not modelled.
- BigbrainAgent.Agent.OnTranscript: the evaluation is an object. Model output that parses to `null` or to another non-object, where the source throws on `evaluation.highlightTargetId`, is not modelled.
- CognitiveFingerprint.ErrorScores: the `__examples` lists that `summarizeErrorTypes` attaches (server/cognitiveFingerprint.js:167) are left out. Only `getFingerprintSummary` reads them, and it is left out above.
- CanvasSessionPanel.MissingPoint: the contract states the text for a string note or a falsy one; a truthy note that is not a string is rendered through `String()` by the body but not stated.

## Findings

| source | as written | input that shows it | evidently intended | confidence | as-written member | corrected member |
|---|---|---|---|---|---|---|
| src/pages/Canvas.jsx:261-265 | `compressPoints` appends the final pair after checking only that its x is finite and differs from the last kept x | more than 60 numbers whose final x is finite and differs from the last x kept by the stride loop, with a last y that is `NaN` or infinite: the payload ends in a non-finite number | check both coordinates of the final pair, as the stride loop at line 257 does | not executed | CanvasPage.EndPairUnchecked | CanvasPage.CompressedPairs |
| src/components/CanvasSessionPanel.jsx:256 | the Reply button passes its click handler directly, so `handleTeachBackReply` receives the click event as `overrideMessage`; the event is not nullish, so `(overrideMessage ?? input).trim()` at line 136 throws | any non-blank input typed while a teach-back session is open, then a click on Reply | `onClick={() => handleTeachBackReply()}`, so that the typed input is trimmed and sent | not executed | CanvasSessionPanel.ReplyButtonNeverSends | CanvasSessionPanel.ReplyButtonSendsInput |
