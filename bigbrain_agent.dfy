/**
 * The voice agent's own logic: the 44-byte PCM WAVE header it writes in
 * front of recorded samples before sending them for transcription (the
 * WAVE form of the RIFF file format, as defined in Microsoft and IBM's
 * "Multimedia Programming Interface and Data Specifications 1.0"), the
 * transcript summary, and the teach-back rounds driven by transcripts,
 * evaluations and mode messages. The room, speech synthesis, transcription
 * and the evaluating model are parameters or left out.
 */
module BigbrainAgent {
  import opened Wrappers
  import opened Strings
  import opened JsonModel

  newtype byte = x: int | 0 <= x < 256

  const HeaderSize := 44
  const Max32 := 0x1_0000_0000
  const Max16 := 0x1_0000

  // ---------------------------------------------------------------------------
  // Little-endian fields

  /** `writeUInt16LE(v)`: the low byte first. */
  function U16(v: nat): (b: seq<byte>)
    requires v < Max16
    ensures |b| == 2
  {
    [(v % 256) as byte, (v / 256) as byte]
  }

  /** `writeUInt32LE(v)`: the lowest byte first. */
  function U32(v: nat): (b: seq<byte>)
    requires v < Max32
    ensures |b| == 4
  {
    [(v % 256) as byte, (v / 256 % 256) as byte, (v / 65536 % 256) as byte, (v / 16777216) as byte]
  }

  /** The unsigned 16-bit little-endian value at `off`. */
  function ReadU16(b: seq<byte>, off: nat): nat
    requires off + 2 <= |b|
  {
    b[off] as nat + 256 * b[off + 1] as nat
  }

  /** The unsigned 32-bit little-endian value at `off`. */
  function ReadU32(b: seq<byte>, off: nat): nat
    requires off + 4 <= |b|
  {
    b[off] as nat + 256 * b[off + 1] as nat + 65536 * b[off + 2] as nat + 16777216 * b[off + 3] as nat
  }

  lemma U16RoundTrip(v: nat)
    requires v < Max16
    ensures ReadU16(U16(v), 0) == v
  {
  }

  lemma U32RoundTrip(v: nat)
    requires v < Max32
    ensures ReadU32(U32(v), 0) == v
  {
    var q1 := v / 256;
    var q2 := q1 / 256;
    var q3 := q2 / 256;
    assert v == v % 256 + 256 * q1;
    assert q1 == q1 % 256 + 256 * q2;
    assert q2 == q2 % 256 + 256 * q3;
    assert q1 % 256 == v / 256 % 256;
    assert q2 == v / 65536 && q3 == v / 16777216;
  }

  /** `buffer.write(tag)` for an ASCII tag. */
  function Ascii(s: string): (b: seq<byte>)
    requires forall i :: 0 <= i < |s| ==> s[i] as int < 128
    ensures |b| == |s| && forall i :: 0 <= i < |s| ==> b[i] as int == s[i] as int
  {
    if s == [] then [] else [s[0] as int as byte] + Ascii(s[1..])
  }

  // ---------------------------------------------------------------------------
  // The header

  /** Bytes per second of 16-bit samples: two bytes per sample per channel. */
  function ByteRate(sampleRate: nat, channels: nat): nat {
    sampleRate * channels * 2
  }

  /** Bytes per sample frame: two per channel. */
  function BlockAlign(channels: nat): nat {
    channels * 2
  }

  /** What the header's fields need to fit: Node's writers reject a value outside the field's range. */
  predicate FieldsFit(dataLength: nat, sampleRate: nat, channels: nat) {
    36 + dataLength < Max32 && sampleRate < Max32 && ByteRate(sampleRate, channels) < Max32 && BlockAlign(channels) < Max16
  }

  /** The RIFF chunk's head: its tag, its size (everything after these 8 bytes), the WAVE form tag. */
  function RiffHead(dataLength: nat): (b: seq<byte>)
    requires 36 + dataLength < Max32
    ensures |b| == 12
    ensures b[0..4] == Ascii("RIFF") && b[4..8] == U32(36 + dataLength) && b[8..12] == Ascii("WAVE")
  {
    var riff, size, wave := Ascii("RIFF"), U32(36 + dataLength), Ascii("WAVE");
    var b := riff + size + wave;
    assert |riff| == 4 && |size| == 4 && |wave| == 4;
    assert b[0..4] == riff;
    assert b[4..8] == size;
    assert b[8..12] == wave;
    b
  }

  /** The 24-byte `fmt ` chunk of 16-bit PCM. */
  function FmtChunk(sampleRate: nat, channels: nat): (b: seq<byte>)
    requires sampleRate < Max32 && ByteRate(sampleRate, channels) < Max32 && BlockAlign(channels) < Max16
    ensures |b| == 24
    ensures b[0..4] == Ascii("fmt ") && b[4..8] == U32(16) && b[8..10] == U16(1) && b[10..12] == U16(channels)
    ensures b[12..16] == U32(sampleRate) && b[16..20] == U32(ByteRate(sampleRate, channels))
    ensures b[20..22] == U16(BlockAlign(channels)) && b[22..24] == U16(16)
  {
    var head := Ascii("fmt ") + U32(16) + U16(1) + U16(channels);
    var rest := U32(sampleRate) + U32(ByteRate(sampleRate, channels)) + U16(BlockAlign(channels)) + U16(16);
    assert head[4..8] == U32(16) && head[8..10] == U16(1) && head[10..12] == U16(channels);
    assert rest[0..4] == U32(sampleRate) && rest[4..8] == U32(ByteRate(sampleRate, channels));
    assert rest[8..10] == U16(BlockAlign(channels)) && rest[10..12] == U16(16);
    var b := head + rest;
    assert b[..12] == head && b[12..] == rest;
    Shift(b, rest, 12, 0, 4);
    Shift(b, rest, 12, 4, 8);
    Shift(b, rest, 12, 8, 10);
    Shift(b, rest, 12, 10, 12);
    b
  }

  /** The `data` chunk's head: its tag and the sample byte count. */
  function DataHead(dataLength: nat): (b: seq<byte>)
    requires dataLength < Max32
    ensures |b| == 8 && b[0..4] == Ascii("data") && b[4..8] == U32(dataLength)
  {
    Ascii("data") + U32(dataLength)
  }

  /** A slice of a part placed at `off` is the same slice of the whole, shifted. */
  lemma Shift(whole: seq<byte>, part: seq<byte>, off: nat, i: nat, j: nat)
    requires off + |part| <= |whole| && whole[off..off + |part|] == part && i <= j <= |part|
    ensures whole[off + i..off + j] == part[i..j]
  {
    forall k | 0 <= k < j - i
      ensures whole[off + i..off + j][k] == part[i..j][k]
    {
      assert whole[off + i..off + j][k] == whole[off..off + |part|][i + k];
    }
  }

  /** The 44 header bytes for `dataLength` bytes of 16-bit PCM. */
  function WavHeader(dataLength: nat, sampleRate: nat, channels: nat): (h: seq<byte>)
    requires FieldsFit(dataLength, sampleRate, channels)
    ensures |h| == HeaderSize
    ensures h[..12] == RiffHead(dataLength) && h[12..36] == FmtChunk(sampleRate, channels) && h[36..] == DataHead(dataLength)
  {
    var h := RiffHead(dataLength) + FmtChunk(sampleRate, channels) + DataHead(dataLength);
    assert h[12..36] == FmtChunk(sampleRate, channels);
    h
  }

  /** The bytes of a file: the header followed by the samples. */
  function WavFile(data: seq<byte>, sampleRate: nat, channels: nat): (f: seq<byte>)
    requires FieldsFit(|data|, sampleRate, channels)
    ensures |f| == HeaderSize + |data| && f[HeaderSize..] == data
  {
    var f := WavHeader(|data|, sampleRate, channels) + data;
    assert f[HeaderSize..] == data;
    f
  }

  /** The three chunk heads sit at 0, 12 and 36 of the file. */
  lemma ChunksAt(data: seq<byte>, sampleRate: nat, channels: nat)
    requires FieldsFit(|data|, sampleRate, channels)
    ensures var f := WavFile(data, sampleRate, channels);
      && f[0..12] == RiffHead(|data|)
      && f[12..36] == FmtChunk(sampleRate, channels)
      && f[36..44] == DataHead(|data|)
  {
    var h := WavHeader(|data|, sampleRate, channels);
    var f := WavFile(data, sampleRate, channels);
    assert f[0..HeaderSize] == h;
    Shift(f, h, 0, 0, 12);
    Shift(f, h, 0, 12, 36);
    Shift(f, h, 0, 36, 44);
  }

  /**
   * The tags and sizes read back: "RIFF" at 0 followed by the file length
   * minus 8, "WAVE" at 8, "fmt " at 12, "data" at 36 followed by the sample
   * byte count, and the samples from byte 44.
   */
  lemma WavTagsAndSizes(data: seq<byte>, sampleRate: nat, channels: nat)
    requires FieldsFit(|data|, sampleRate, channels)
    ensures var f := WavFile(data, sampleRate, channels);
      && f[0..4] == Ascii("RIFF") && f[8..12] == Ascii("WAVE") && f[12..16] == Ascii("fmt ") && f[36..40] == Ascii("data")
      && ReadU32(f, 4) == |f| - 8
      && ReadU32(f, 40) == |data|
      && f[HeaderSize..] == data
  {
    var f := WavFile(data, sampleRate, channels);
    ChunksAt(data, sampleRate, channels);
    var riff := RiffHead(|data|);
    var fmt := FmtChunk(sampleRate, channels);
    var dh := DataHead(|data|);
    Shift(f, riff, 0, 0, 4);
    Shift(f, riff, 0, 4, 8);
    Shift(f, riff, 0, 8, 12);
    Shift(f, fmt, 12, 0, 4);
    Shift(f, dh, 36, 0, 4);
    Shift(f, dh, 36, 4, 8);
    U32At(f, 4, 36 + |data|);
    U32At(f, 40, |data|);
  }

  /**
   * The format chunk read back: 16 bytes long, PCM (1), the given channels
   * and rate, 16 bits per sample, and the block alignment and byte rate
   * these imply.
   */
  lemma WavFormat(data: seq<byte>, sampleRate: nat, channels: nat)
    requires FieldsFit(|data|, sampleRate, channels)
    ensures var f := WavFile(data, sampleRate, channels);
      && ReadU32(f, 16) == 16 && ReadU16(f, 20) == 1
      && ReadU16(f, 22) == channels && ReadU32(f, 24) == sampleRate
      && ReadU16(f, 32) == BlockAlign(channels) && ReadU32(f, 28) == sampleRate * ReadU16(f, 32)
      && ReadU16(f, 34) == 16
  {
    var f := WavFile(data, sampleRate, channels);
    ChunksAt(data, sampleRate, channels);
    var fmt := FmtChunk(sampleRate, channels);
    Shift(f, fmt, 12, 4, 8);
    Shift(f, fmt, 12, 8, 10);
    Shift(f, fmt, 12, 10, 12);
    Shift(f, fmt, 12, 12, 16);
    Shift(f, fmt, 12, 16, 20);
    Shift(f, fmt, 12, 20, 22);
    Shift(f, fmt, 12, 22, 24);
    U32At(f, 16, 16);
    U16At(f, 20, 1);
    U16At(f, 22, channels);
    U32At(f, 24, sampleRate);
    var byteRate, blockAlign := ByteRate(sampleRate, channels), BlockAlign(channels);
    U32At(f, 28, byteRate);
    U16At(f, 32, blockAlign);
    U16At(f, 34, 16);
    RateTimesAlign(sampleRate, channels);
  }

  lemma RateTimesAlign(sampleRate: nat, channels: nat)
    ensures ByteRate(sampleRate, channels) == sampleRate * BlockAlign(channels)
  {
  }

  lemma U32At(f: seq<byte>, off: nat, v: nat)
    requires v < Max32 && off + 4 <= |f| && f[off..off + 4] == U32(v)
    ensures ReadU32(f, off) == v
  {
    U32RoundTrip(v);
    assert f[off] == U32(v)[0] && f[off + 1] == U32(v)[1] && f[off + 2] == U32(v)[2] && f[off + 3] == U32(v)[3];
  }

  lemma U16At(f: seq<byte>, off: nat, v: nat)
    requires v < Max16 && off + 2 <= |f| && f[off..off + 2] == U16(v)
    ensures ReadU16(f, off) == v
  {
    U16RoundTrip(v);
    assert f[off] == U16(v)[0] && f[off + 1] == U16(v)[1];
  }

  /** Writes `bytes` into `buffer` from `off` on; nothing else changes. */
  method WriteAt(buffer: array<byte>, off: nat, bytes: seq<byte>)
    requires off + |bytes| <= buffer.Length
    modifies buffer
    ensures buffer[..] == old(buffer[..off]) + bytes + old(buffer[off + |bytes|..])
  {
    for k := 0 to |bytes|
      invariant buffer[..] == old(buffer[..off]) + bytes[..k] + old(buffer[off + k..])
    {
      buffer[off + k] := bytes[k];
      assert bytes[..k + 1] == bytes[..k] + [bytes[k]];
    }
  }

  /** Where each field the writer sets lies in the header. */
  lemma HeaderFields(dataLength: nat, sampleRate: nat, channels: nat)
    requires FieldsFit(dataLength, sampleRate, channels)
    ensures var h := WavHeader(dataLength, sampleRate, channels);
      && h[0..4] == Ascii("RIFF") && h[4..8] == U32(36 + dataLength) && h[8..12] == Ascii("WAVE")
      && h[12..16] == Ascii("fmt ") && h[16..20] == U32(16) && h[20..22] == U16(1) && h[22..24] == U16(channels)
      && h[24..28] == U32(sampleRate) && h[28..32] == U32(ByteRate(sampleRate, channels))
      && h[32..34] == U16(BlockAlign(channels)) && h[34..36] == U16(16)
      && h[36..40] == Ascii("data") && h[40..44] == U32(dataLength)
  {
    var h := WavHeader(dataLength, sampleRate, channels);
    var riff, fmt, dh := RiffHead(dataLength), FmtChunk(sampleRate, channels), DataHead(dataLength);
    assert h[0..12] == riff && h[36..44] == dh;
    Shift(h, riff, 0, 0, 4);
    Shift(h, riff, 0, 4, 8);
    Shift(h, riff, 0, 8, 12);
    Shift(h, fmt, 12, 0, 4);
    Shift(h, fmt, 12, 4, 8);
    Shift(h, fmt, 12, 8, 10);
    Shift(h, fmt, 12, 10, 12);
    Shift(h, fmt, 12, 12, 16);
    Shift(h, fmt, 12, 16, 20);
    Shift(h, fmt, 12, 20, 22);
    Shift(h, fmt, 12, 22, 24);
    Shift(h, dh, 36, 0, 4);
    Shift(h, dh, 36, 4, 8);
  }

  /** A write that continues a correct prefix of `h` with the bytes `h` has next lengthens that prefix. */
  lemma Extend(after: seq<byte>, before: seq<byte>, h: seq<byte>, off: nat, bytes: seq<byte>)
    requires off + |bytes| <= |before| && off + |bytes| <= |h|
    requires after == before[..off] + bytes + before[off + |bytes|..]
    requires before[..off] == h[..off] && h[off..off + |bytes|] == bytes
    ensures after[..off + |bytes|] == h[..off + |bytes|]
  {
    assert after[..off + |bytes|] == before[..off] + bytes;
    assert h[..off + |bytes|] == h[..off] + h[off..off + |bytes|];
  }

  /** One field write of the header: the correct prefix of `h` grows over the field. */
  method WriteField(buffer: array<byte>, off: nat, bytes: seq<byte>, ghost h: seq<byte>)
    requires off + |bytes| <= buffer.Length && off + |bytes| <= |h|
    requires buffer[..off] == h[..off] && h[off..off + |bytes|] == bytes
    modifies buffer
    ensures buffer[..off + |bytes|] == h[..off + |bytes|]
  {
    ghost var before := buffer[..];
    WriteAt(buffer, off, bytes);
    Extend(buffer[..], before, h, off, bytes);
  }

  /** The RIFF chunk's head: bytes 0 to 12 of the header. */
  method WriteRiffHead(buffer: array<byte>, dataLength: nat, sampleRate: nat, channels: nat, ghost h: seq<byte>)
    requires FieldsFit(dataLength, sampleRate, channels) && h == WavHeader(dataLength, sampleRate, channels)
    requires HeaderSize <= buffer.Length
    modifies buffer
    ensures buffer[..12] == h[..12]
  {
    HeaderFields(dataLength, sampleRate, channels);
    WriteField(buffer, 0, Ascii("RIFF"), h);
    WriteField(buffer, 4, U32(36 + dataLength), h);
    WriteField(buffer, 8, Ascii("WAVE"), h);
  }

  /** The `fmt ` chunk: bytes 12 to 36 of the header. */
  method WriteFmtChunk(buffer: array<byte>, dataLength: nat, sampleRate: nat, channels: nat, ghost h: seq<byte>)
    requires FieldsFit(dataLength, sampleRate, channels) && h == WavHeader(dataLength, sampleRate, channels)
    requires HeaderSize <= buffer.Length && buffer[..12] == h[..12]
    modifies buffer
    ensures buffer[..36] == h[..36]
  {
    var byteRate := ByteRate(sampleRate, channels);
    var blockAlign := BlockAlign(channels);
    HeaderFields(dataLength, sampleRate, channels);
    WriteField(buffer, 12, Ascii("fmt "), h);
    WriteField(buffer, 16, U32(16), h);
    WriteField(buffer, 20, U16(1), h);
    WriteField(buffer, 22, U16(channels), h);
    WriteField(buffer, 24, U32(sampleRate), h);
    WriteField(buffer, 28, U32(byteRate), h);
    WriteField(buffer, 32, U16(blockAlign), h);
    WriteField(buffer, 34, U16(16), h);
  }

  /** The `data` chunk's head: bytes 36 to 44 of the header. */
  method WriteDataHead(buffer: array<byte>, dataLength: nat, sampleRate: nat, channels: nat, ghost h: seq<byte>)
    requires FieldsFit(dataLength, sampleRate, channels) && h == WavHeader(dataLength, sampleRate, channels)
    requires HeaderSize <= buffer.Length && buffer[..36] == h[..36]
    modifies buffer
    ensures buffer[..HeaderSize] == h
  {
    HeaderFields(dataLength, sampleRate, channels);
    WriteField(buffer, 36, Ascii("data"), h);
    WriteField(buffer, 40, U32(dataLength), h);
  }

  /** `buildWavBuffer(samples, sampleRate, channels)`, with the samples given as their bytes. */
  method BuildWavBuffer(data: seq<byte>, sampleRate: nat, channels: nat) returns (buffer: array<byte>)
    requires FieldsFit(|data|, sampleRate, channels)
    ensures fresh(buffer)
    ensures buffer[..] == WavFile(data, sampleRate, channels)
  {
    buffer := new byte[HeaderSize + |data|](_ => 0);
    ghost var h := WavHeader(|data|, sampleRate, channels);
    WriteRiffHead(buffer, |data|, sampleRate, channels, h);
    WriteFmtChunk(buffer, |data|, sampleRate, channels, h);
    WriteDataHead(buffer, |data|, sampleRate, channels, h);
    ghost var before := buffer[..];
    WriteAt(buffer, HeaderSize, data);
    assert buffer[..] == before[..HeaderSize] + data + before[HeaderSize + |data|..];
  }

  // ---------------------------------------------------------------------------
  // The transcript

  datatype Line = Line(speaker: string, text: string)

  function Texts(lines: seq<Line>): (r: seq<string>)
    ensures |r| == |lines| && forall i :: 0 <= i < |r| ==> r[i] == lines[i].text
  {
    seq(|lines|, i requires 0 <= i < |lines| => lines[i].text)
  }

  /** `summarizeTranscript(lines)`: '' for none, else the last six texts joined by a space. */
  function SummarizeTranscript(lines: seq<Line>): (s: string)
    ensures lines == [] ==> s == ""
    ensures lines != [] ==> |s| >= |lines[|lines| - 1].text| && s[|s| - |lines[|lines| - 1].text|..] == lines[|lines| - 1].text
    ensures |lines| <= 6 && lines != [] ==> |s| >= |lines[0].text| && s[..|lines[0].text|] == lines[0].text
  {
    if lines == [] then ""
    else
      var recent := Texts(lines[if |lines| > 6 then |lines| - 6 else 0..]);
      JoinEnds(recent, " ");
      Join(recent, " ")
  }

  /**
   * When the texts hold no space, splitting the summary on spaces gives the
   * last six texts back: the summary holds exactly those, in order.
   */
  lemma SummaryIsLastSix(lines: seq<Line>)
    requires lines != []
    requires forall i :: 0 <= i < |lines| ==> ' ' !in lines[i].text
    ensures var k := if |lines| > 6 then 6 else |lines|;
      SplitOn(SummarizeTranscript(lines), ' ') == Texts(lines[|lines| - k..])
  {
    var k := if |lines| > 6 then 6 else |lines|;
    var texts := Texts(lines[|lines| - k..]);
    assert SummarizeTranscript(lines) == Join(texts, " ");
    assert forall i :: 0 <= i < |texts| ==> texts[i] == lines[|lines| - k + i].text;
    SplitJoin(texts, ' ');
  }

  // ---------------------------------------------------------------------------
  // Teach-back rounds

  /** The evaluating model's answer, as parsed (each field may be absent). */
  datatype Evaluation = Evaluation(result: Option<Json>, reason: Option<Json>, question: Option<Json>, highlightTargetId: Option<Json>)

  /** `evaluation.x || fallback`. */
  function Or(v: Option<Json>, fallback: Json): Json {
    if JsTruthy(v) then v.value else fallback
  }

  const FollowUpDefault := "Can you clarify that?"
  const PausePrompt := "Let us pause. Review the concept and try again."
  const PassPhrase := "You understand this. Marking it as mastered."

  /** The `TEACHBACK_RESULT` message sent for one round. */
  datatype RoundResult =
    | Pass(summary: Json)
    | FollowUp(reason: Json, question: Json, round: int)
    | Pause(reason: Json, round: int)

  /** A `CANVAS_CMD` highlight: the target, and whether the round passed. */
  datatype Highlight = Highlight(targetId: Json, passed: bool, note: Json)

  /** What handling one transcript produced. */
  datatype Reaction =
    | Skipped
    | Round(highlight: Option<Highlight>, result: RoundResult)
    | TutorReply(text: string)
    | Silent

  predicate Passed(e: Evaluation) {
    e.result == Some(JStr("PASS"))
  }

  /**
   * The HIGHLIGHT command: the evaluation's target, else the fallback (the
   * first line's id, else the first text's id), else none; its note is the
   * evaluation's reason or the empty string.
   */
  function HighlightFor(e: Evaluation, fallbackTarget: Option<Json>): (h: Option<Highlight>)
    ensures h.Some? <==> JsTruthy(e.highlightTargetId) || JsTruthy(fallbackTarget)
    ensures h.Some? ==> h.value.passed == Passed(e)
    ensures JsTruthy(e.highlightTargetId) ==> h.Some? && h.value.targetId == e.highlightTargetId.value
    ensures !JsTruthy(e.highlightTargetId) && JsTruthy(fallbackTarget) ==> h.Some? && h.value.targetId == fallbackTarget.value
    ensures h.Some? ==> h.value.note == (if JsTruthy(e.reason) then e.reason.value else JStr(""))
  {
    var target := Or(e.highlightTargetId, if fallbackTarget.Some? then fallbackTarget.value else JNull);
    if JsTruthy(Some(target)) then Some(Highlight(target, Passed(e), Or(e.reason, JStr("")))) else None
  }

  /** The agent's module-level state. */
  class Agent {
    var teachbackEnabled: bool
    var teachbackRounds: int
    var transcript: seq<Line>

    /** Rounds are only counted while teach-back is on. */
    predicate Valid()
      reads this
    {
      teachbackRounds >= 0 && (!teachbackEnabled ==> teachbackRounds == 0)
    }

    constructor()
      ensures Valid() && !teachbackEnabled && teachbackRounds == 0 && transcript == []
    {
      teachbackEnabled := false;
      teachbackRounds := 0;
      transcript := [];
    }

    /** A `TEACHBACK_MODE` message: `Boolean(message.enabled)`, rounds back to 0. */
    method SetTeachbackMode(enabled: Option<Json>)
      modifies this
      ensures Valid()
      ensures teachbackEnabled == JsTruthy(enabled) && teachbackRounds == 0 && transcript == old(transcript)
    {
      teachbackEnabled := JsTruthy(enabled);
      teachbackRounds := 0;
    }

    /**
     * One transcribed chunk. An empty transcription is skipped. In teach-back
     * mode the round is counted and judged by `evaluation`: a pass ends
     * teach-back and resets the count, a failure in rounds 1 and 2 asks the
     * evaluation's question, and any later failure gives the pause prompt.
     * Otherwise the tutor's `responseText` is added to the transcript when
     * there is one.
     */
    method OnTranscript(speaker: string, text: string, evaluation: Evaluation, fallbackTarget: Option<Json>, responseText: string)
      returns (reaction: Reaction)
      requires Valid()
      modifies this
      ensures Valid()
      ensures text == "" ==>
        && reaction == Skipped && teachbackEnabled == old(teachbackEnabled)
        && teachbackRounds == old(teachbackRounds) && transcript == old(transcript)
      ensures text != "" && old(teachbackEnabled) ==>
        var rounds := old(teachbackRounds) + 1;
        var heard := old(transcript) + [Line(speaker, text)];
        && transcript == heard
        && reaction.Round? && reaction.highlight == HighlightFor(evaluation, fallbackTarget)
        && (Passed(evaluation) ==>
              (reaction.result == Pass(Or(evaluation.reason, JStr(SummarizeTranscript(heard))))
               && !teachbackEnabled && teachbackRounds == 0))
        && (!Passed(evaluation) && rounds < 3 ==>
              (reaction.result == FollowUp(Or(evaluation.reason, JStr("")), Or(evaluation.question, JStr(FollowUpDefault)), rounds)
               && teachbackEnabled && teachbackRounds == rounds))
        && (!Passed(evaluation) && rounds >= 3 ==>
              (reaction.result == Pause(Or(evaluation.reason, JStr("")), rounds)
               && teachbackEnabled && teachbackRounds == rounds))
      ensures text != "" && !old(teachbackEnabled) ==>
        && teachbackEnabled == old(teachbackEnabled) && teachbackRounds == old(teachbackRounds)
        && (responseText == "" ==> (reaction == Silent && transcript == old(transcript) + [Line(speaker, text)]))
        && (responseText != "" ==>
              (reaction == TutorReply(responseText)
               && transcript == old(transcript) + [Line(speaker, text), Line("agent", responseText)]))
    {
      if text == "" {
        return Skipped;
      }
      transcript := transcript + [Line(speaker, text)];
      if teachbackEnabled {
        teachbackRounds := teachbackRounds + 1;
        var highlight := HighlightFor(evaluation, fallbackTarget);
        if Passed(evaluation) {
          reaction := Round(highlight, Pass(Or(evaluation.reason, JStr(SummarizeTranscript(transcript)))));
          teachbackEnabled := false;
          teachbackRounds := 0;
        } else if teachbackRounds < 3 {
          var interruption := Or(evaluation.question, JStr(FollowUpDefault));
          reaction := Round(highlight, FollowUp(Or(evaluation.reason, JStr("")), interruption, teachbackRounds));
        } else {
          reaction := Round(highlight, Pause(Or(evaluation.reason, JStr("")), teachbackRounds));
        }
      } else {
        if responseText != "" {
          transcript := transcript + [Line("agent", responseText)];
          reaction := TutorReply(responseText);
        } else {
          reaction := Silent;
        }
      }
    }
  }

  /**
   * A teach-back that keeps failing asks two follow-up questions and then
   * pauses: its first three rounds are a follow-up, a follow-up and a pause.
   */
  method FailingTeachback(agent: Agent, failed: Evaluation, fallbackTarget: Option<Json>)
    returns (first: Reaction, second: Reaction, third: Reaction)
    requires agent.Valid() && !Passed(failed)
    modifies agent
    ensures first.Round? && first.result.FollowUp? && first.result.round == 1
    ensures second.Round? && second.result.FollowUp? && second.result.round == 2
    ensures third.Round? && third.result.Pause? && third.result.round == 3
    ensures agent.Valid() && agent.teachbackEnabled
  {
    agent.SetTeachbackMode(Some(JBool(true)));
    first := agent.OnTranscript("learner", "first try", failed, fallbackTarget, "");
    second := agent.OnTranscript("learner", "second try", failed, fallbackTarget, "");
    third := agent.OnTranscript("learner", "third try", failed, fallbackTarget, "");
  }
}
