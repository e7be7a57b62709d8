/** Speech segments: engine output is checked and rounded to milliseconds by the adapter, and its
    time ranges are checked again by the observer bridge. Engine floats are exact reals. */
module Transcript {
  import opened Wrappers

  datatype Float = Finite(value: real) | NotFinite

  datatype EngineSegment = EngineSegment(
    start: Float, end: Float, text: string, confidence: Float, speaker: Option<string>, speakerConfidence: Option<Float>)

  datatype Speaker = Speaker1 | Speaker2 | Unknown

  datatype Validated = Validated(index: nat, startMs: int, endMs: int, text: string, confidence: real, speaker: Speaker)

  datatype Rejection =
    | LanguageInvalid | SegmentCountExceeded | InvalidConfidence | NonFiniteSegment | InvalidTimeRange
    | OverlappingSegments | SegmentExceedsAudio | TextEmpty | TextTooLong | InvalidSpeakerConfidence
    | ReferenceStoreUnavailable | ReferenceInvalid

  const MAX_SEGMENTS := 10_000
  const MAX_TEXT := 4_000

  /** Python's round: halves go to the even neighbour. */
  function Round(x: real): int {
    var below := x.Floor;
    var rest := x - below as real;
    if rest < 0.5 || (rest == 0.5 && below % 2 == 0) then below else below + 1
  }

  lemma RoundIsNearest(x: real)
    ensures Round(x) as real - 0.5 <= x <= Round(x) as real + 0.5
    ensures x == Round(x) as real + 0.5 || x == Round(x) as real - 0.5 ==> Round(x) % 2 == 0
  {
  }

  function Millis(seconds: Float): int { if seconds.Finite? then Round(seconds.value * 1000.0) else 0 }

  predicate Fraction(f: Float) { f.Finite? && 0.0 <= f.value <= 1.0 }

  function SafeSpeaker(name: Option<string>, confidence: Option<Float>): Speaker {
    if confidence.Some? && confidence.value.Finite? && confidence.value.value >= 0.5 then
      if name == Some("Speaker 1") then Speaker1 else if name == Some("Speaker 2") then Speaker2 else Unknown
    else Unknown
  }

  /** The checks on one segment, in order. */
  function Problem(seg: EngineSegment, previousEnd: int, duration: int): Option<Rejection> {
    if !seg.confidence.Finite? then Some(InvalidConfidence)
    else if !seg.start.Finite? || !seg.end.Finite? then Some(NonFiniteSegment)
    else if Millis(seg.start) < 0 || Millis(seg.end) <= Millis(seg.start) then Some(InvalidTimeRange)
    else if Millis(seg.start) < previousEnd then Some(OverlappingSegments)
    else if Millis(seg.end) > duration then Some(SegmentExceedsAudio)
    else if !Fraction(seg.confidence) then Some(InvalidConfidence)
    else if seg.text == "" then Some(TextEmpty)
    else if |seg.text| > MAX_TEXT then Some(TextTooLong)
    else if seg.speakerConfidence.Some? && !Fraction(seg.speakerConfidence.value) then Some(InvalidSpeakerConfidence)
    else None
  }

  function PreviousEnd(segs: seq<EngineSegment>, i: nat): int
    requires i <= |segs|
  {
    if i == 0 then 0 else Millis(segs[i-1].end)
  }

  function Checked(seg: EngineSegment, index: nat): Validated
    requires seg.confidence.Finite?
  {
    Validated(index, Millis(seg.start), Millis(seg.end), seg.text, seg.confidence.value, SafeSpeaker(seg.speaker, seg.speakerConfidence))
  }

  /** Segment `i` passes against its predecessor. */
  predicate Passes(segs: seq<EngineSegment>, i: nat, duration: int)
    requires i < |segs|
  {
    Problem(segs[i], PreviousEnd(segs, i), duration).None?
  }

  predicate FirstProblem(segs: seq<EngineSegment>, i: nat, duration: int, e: Rejection) {
    && i < |segs| && Problem(segs[i], PreviousEnd(segs, i), duration) == Some(e)
    && forall j :: 0 <= j < i ==> Passes(segs, j, duration)
  }

  // ---- what the checks say --------------------------------------------------------------------

  /** `ms` is the nearest number of milliseconds, of two the even one. */
  predicate InMillis(seconds: Float, ms: int) {
    && seconds.Finite? && ms as real - 0.5 <= seconds.value * 1000.0 <= ms as real + 0.5
    && (seconds.value * 1000.0 == ms as real - 0.5 || seconds.value * 1000.0 == ms as real + 0.5 ==> ms % 2 == 0)
  }

  predicate Between01(f: Float) { f.Finite? && 0.0 <= f.value <= 1.0 }

  /** What an accepted segment becomes: a non-empty range inside the audio and after `previousEnd`, with
      its text, its confidence, and a known speaker only when the engine names one with confidence. */
  predicate Accepted(seg: EngineSegment, v: Validated, previousEnd: int, duration: int) {
    && InMillis(seg.start, v.startMs) && InMillis(seg.end, v.endMs)
    && 0 <= v.startMs < v.endMs <= duration && previousEnd <= v.startMs
    && Between01(seg.confidence) && v.confidence == seg.confidence.value && v.text == seg.text && 1 <= |v.text| <= 4_000
    && (seg.speakerConfidence.Some? ==> Between01(seg.speakerConfidence.value))
    && (v.speaker == Speaker1 <==> seg.speaker == Some("Speaker 1") && seg.speakerConfidence.Some? && seg.speakerConfidence.value.value >= 0.5)
    && (v.speaker == Speaker2 <==> seg.speaker == Some("Speaker 2") && seg.speakerConfidence.Some? && seg.speakerConfidence.value.value >= 0.5)
  }

  lemma OneRounding(seconds: Float, ms: int)
    ensures seconds.Finite? ==> InMillis(seconds, Millis(seconds))
    ensures InMillis(seconds, ms) ==> ms == Millis(seconds)
  {
    if seconds.Finite? { RoundIsNearest(seconds.value * 1000.0); }
  }

  /** A segment passes exactly when something can be accepted for it, and then that is what it is checked to. */
  lemma PassesIffAccepted(seg: EngineSegment, index: nat, previousEnd: int, duration: int)
    ensures Problem(seg, previousEnd, duration).None? <==> exists v :: Accepted(seg, v, previousEnd, duration)
    ensures Problem(seg, previousEnd, duration).None? ==> Accepted(seg, Checked(seg, index), previousEnd, duration)
  {
    OneRounding(seg.start, Millis(seg.start));
    OneRounding(seg.end, Millis(seg.end));
    forall v | Accepted(seg, v, previousEnd, duration) ensures Problem(seg, previousEnd, duration).None? {
      OneRounding(seg.start, v.startMs);
      OneRounding(seg.end, v.endMs);
    }
    if Problem(seg, previousEnd, duration).None? { assert Accepted(seg, Checked(seg, index), previousEnd, duration); }
  }

  /** A rejection is true of its segment. */
  lemma RejectionIsTrue(seg: EngineSegment, previousEnd: int, duration: int, start: int, end: int)
    requires InMillis(seg.start, start) && InMillis(seg.end, end) && seg.confidence.Finite?
    ensures match Problem(seg, previousEnd, duration)
      case None => true
      case Some(InvalidTimeRange) => start < 0 || end <= start
      case Some(OverlappingSegments) => 0 <= start < previousEnd
      case Some(SegmentExceedsAudio) => 0 <= start < end && duration < end
      case Some(InvalidConfidence) => !Between01(seg.confidence)
      case Some(TextEmpty) => seg.text == ""
      case Some(TextTooLong) => |seg.text| > 4_000
      case Some(InvalidSpeakerConfidence) => seg.speakerConfidence.Some? && !Between01(seg.speakerConfidence.value)
      case Some(_) => false
  {
    OneRounding(seg.start, start);
    OneRounding(seg.end, end);
  }

  ghost predicate AllChecked(segs: seq<EngineSegment>, vs: seq<Validated>) {
    |vs| == |segs| && forall i :: 0 <= i < |vs| ==> segs[i].confidence.Finite? && vs[i] == Checked(segs[i], i + 1)
  }

  /** Each segment became the validated one at its place, accepted against the one before. */
  ghost predicate AllAccepted(segs: seq<EngineSegment>, vs: seq<Validated>, duration: int) {
    && |vs| == |segs|
    && forall i :: 0 <= i < |vs| ==> vs[i].index == i + 1 && Accepted(segs[i], vs[i], if i == 0 then 0 else vs[i-1].endMs, duration)
  }

  /** Accepted exactly when every segment passes against its predecessor; otherwise the first
      failing segment decides the rejection. `languageOK` is the language pattern's verdict. */
  method ValidateOutput(languageOK: bool, segs: seq<EngineSegment>, duration: int) returns (r: Result<seq<Validated>, Rejection>)
    ensures r.Ok? <==> languageOK && |segs| <= MAX_SEGMENTS && forall i :: 0 <= i < |segs| ==> Passes(segs, i, duration)
    ensures r.Ok? ==> AllChecked(segs, r.value) && Disjoint(r.value, duration)
    ensures r.Ok? ==> AllAccepted(segs, r.value, duration)
    ensures r.Err? ==>
      if !languageOK then r.error == LanguageInvalid
      else if |segs| > MAX_SEGMENTS then r.error == SegmentCountExceeded
      else exists i: nat :: FirstProblem(segs, i, duration, r.error)
  {
    if !languageOK {
      return Err(LanguageInvalid);
    }
    if |segs| > MAX_SEGMENTS {
      return Err(SegmentCountExceeded);
    }
    var validated: seq<Validated> := [];
    var previousEnd := 0;
    for i := 0 to |segs|
      invariant AllChecked(segs[..i], validated) && previousEnd == PreviousEnd(segs, i)
      invariant forall j :: 0 <= j < i ==> Passes(segs, j, duration)
    {
      var problem := Problem(segs[i], previousEnd, duration);
      if problem.Some? {
        assert FirstProblem(segs, i, duration, problem.value) && !Passes(segs, i, duration);
        return Err(problem.value);
      }
      assert Passes(segs, i, duration);
      validated := validated + [Checked(segs[i], i + 1)];
      previousEnd := Millis(segs[i].end);
    }
    assert segs[..|segs|] == segs;
    PassingIsDisjoint(segs, validated, duration);
    PassingIsAccepted(segs, validated, duration);
    return Ok(validated);
  }

  lemma {:induction false} EndsGrow(segs: seq<EngineSegment>, duration: int, i: nat, j: nat)
    requires i < j < |segs| && forall k :: 0 <= k < |segs| ==> Passes(segs, k, duration)
    ensures Millis(segs[i].end) <= Millis(segs[j].start)
    decreases j
  {
    assert Passes(segs, j, duration);
    if i < j - 1 {
      EndsGrow(segs, duration, i, j - 1);
      assert Passes(segs, j - 1, duration);
    }
  }

  lemma PassingIsDisjoint(segs: seq<EngineSegment>, vs: seq<Validated>, duration: int)
    requires AllChecked(segs, vs) && forall k :: 0 <= k < |segs| ==> Passes(segs, k, duration)
    ensures Disjoint(vs, duration)
  {
    forall i | 0 <= i < |vs| ensures 0 <= vs[i].startMs < vs[i].endMs <= duration { assert Passes(segs, i, duration); }
    forall i, j | 0 <= i < j < |vs| ensures vs[i].endMs <= vs[j].startMs { EndsGrow(segs, duration, i, j); }
  }

  lemma PassingIsAccepted(segs: seq<EngineSegment>, vs: seq<Validated>, duration: int)
    requires AllChecked(segs, vs) && forall k :: 0 <= k < |segs| ==> Passes(segs, k, duration)
    ensures AllAccepted(segs, vs, duration)
  {
    forall i | 0 <= i < |vs| ensures vs[i].index == i + 1 && Accepted(segs[i], vs[i], if i == 0 then 0 else vs[i-1].endMs, duration) {
      assert Passes(segs, i, duration);
      PassesIffAccepted(segs[i], i + 1, PreviousEnd(segs, i), duration);
    }
  }

  // ---- what a validated transcript is ---------------------------------------------------------

  /** Non-empty ranges inside the audio, sorted and pairwise disjoint. */
  predicate Disjoint(vs: seq<Validated>, duration: int) {
    && (forall i :: 0 <= i < |vs| ==> 0 <= vs[i].startMs < vs[i].endMs <= duration)
    && (forall i, j :: 0 <= i < j < |vs| ==> vs[i].endMs <= vs[j].startMs)
  }

  function SpeechTime(vs: seq<Validated>): int {
    if vs == [] then 0 else SpeechTime(vs[..|vs|-1]) + vs[|vs|-1].endMs - vs[|vs|-1].startMs
  }

  /** Neither the speech time nor the number of segments exceeds the audio's milliseconds. */
  lemma {:induction false} SpeechFitsAudio(vs: seq<Validated>, duration: int)
    requires Disjoint(vs, duration) && duration >= 0
    ensures |vs| <= SpeechTime(vs) <= (if vs == [] then 0 else vs[|vs|-1].endMs) <= duration
    decreases |vs|
  {
    if vs != [] {
      var n := |vs| - 1;
      SpeechFitsAudio(vs[..n], duration);
      if n > 0 { assert vs[..n][n-1] == vs[n-1] && vs[n-1].endMs <= vs[n].startMs; }
    }
  }

  // ---- transcribe and publish -----------------------------------------------------------------

  datatype Segment = Segment(id: string, startMs: int, endMs: int, speaker: Speaker, confidence: real, textRef: string, evidenceRef: string)

  function Digit(n: nat): char { '0' + (n % 10) as char }

  /** "segment_" and the index with six digits. */
  function SegmentId(n: nat): string {
    "segment_" + [Digit(n / 100_000), Digit(n / 10_000), Digit(n / 1_000), Digit(n / 100), Digit(n / 10), Digit(n)]
  }

  predicate IdChar(c: char) { 'A' <= c <= 'Z' || 'a' <= c <= 'z' || '0' <= c <= '9' || c == '_' || c == '-' }

  /** The bridge's identifier pattern. */
  predicate Identifier(s: string) {
    1 <= |s| <= 256 && s[0] != '_' && s[0] != '-' && forall i :: 0 <= i < |s| ==> IdChar(s[i])
  }

  lemma SegmentIdIsIdentifier(n: nat)
    ensures Identifier(SegmentId(n))
  {
  }

  /** The loop of transcribe. `textRef` and `evidenceRef` are what the two stores return for a
      segment, None when they raise; `refOK` is the reference pattern. */
  method BuildSegments(validated: seq<Validated>, textRef: Validated -> Option<string>, evidenceRef: Validated -> Option<string>,
                       refOK: string -> bool) returns (r: Result<seq<Segment>, Rejection>)
    ensures r.Ok? ==> |r.value| == |validated|
    ensures r.Ok? ==> forall i :: 0 <= i < |validated| ==>
      && r.value[i].id == SegmentId(validated[i].index)
      && r.value[i].startMs == validated[i].startMs && r.value[i].endMs == validated[i].endMs
      && r.value[i].speaker == validated[i].speaker && r.value[i].confidence == validated[i].confidence
      && textRef(validated[i]) == Some(r.value[i].textRef) && evidenceRef(validated[i]) == Some(r.value[i].evidenceRef)
    ensures r.Ok? <==> forall i :: 0 <= i < |validated| ==>
      && textRef(validated[i]).Some? && refOK(textRef(validated[i]).value)
      && evidenceRef(validated[i]).Some? && refOK(evidenceRef(validated[i]).value)
  {
    var segments: seq<Segment> := [];
    for i := 0 to |validated|
      invariant |segments| == i
      invariant forall j :: 0 <= j < i ==>
        && segments[j].id == SegmentId(validated[j].index)
        && segments[j].startMs == validated[j].startMs && segments[j].endMs == validated[j].endMs
        && segments[j].speaker == validated[j].speaker && segments[j].confidence == validated[j].confidence
        && textRef(validated[j]) == Some(segments[j].textRef) && evidenceRef(validated[j]) == Some(segments[j].evidenceRef)
      invariant forall j :: 0 <= j < i ==> refOK(segments[j].textRef) && refOK(segments[j].evidenceRef)
    {
      var v := validated[i];
      var text := textRef(v);
      if text.None? {
        return Err(ReferenceStoreUnavailable);
      }
      if !refOK(text.value) {
        return Err(ReferenceInvalid);
      }
      var evidence := evidenceRef(v);
      if evidence.None? {
        return Err(ReferenceStoreUnavailable);
      }
      if !refOK(evidence.value) {
        return Err(ReferenceInvalid);
      }
      segments := segments + [Segment(SegmentId(v.index), v.startMs, v.endMs, v.speaker, v.confidence, text.value, evidence.value)];
    }
    return Ok(segments);
  }

  datatype BridgeError = InvalidTranscriptRange | SegmentRefInvalid

  predicate RangeOK(segs: seq<Segment>, i: nat)
    requires i < |segs|
  {
    && Identifier(segs[i].id) && segs[i].endMs > segs[i].startMs
    && segs[i].startMs >= (if i == 0 then 0 else segs[i-1].endMs)
  }

  /** The bridge's own loop over the segments; `inSite` is its site-bound reference check. */
  method CheckRanges(segs: seq<Segment>, inSite: string -> bool) returns (r: Result<(), BridgeError>)
    ensures r.Ok? <==> forall i :: 0 <= i < |segs| ==> RangeOK(segs, i) && inSite(segs[i].textRef) && inSite(segs[i].evidenceRef)
    ensures r == Err(InvalidTranscriptRange) ==> exists i :: 0 <= i < |segs| && !RangeOK(segs, i)
    ensures r == Err(SegmentRefInvalid) ==> exists i :: 0 <= i < |segs| && !(inSite(segs[i].textRef) && inSite(segs[i].evidenceRef))
  {
    var previousEnd := 0;
    for i := 0 to |segs|
      invariant previousEnd == if i == 0 then 0 else segs[i-1].endMs
      invariant forall j :: 0 <= j < i ==> RangeOK(segs, j) && inSite(segs[j].textRef) && inSite(segs[j].evidenceRef)
    {
      var s := segs[i];
      if !Identifier(s.id) || s.startMs < previousEnd || s.endMs <= s.startMs {
        assert !RangeOK(segs, i);
        return Err(InvalidTranscriptRange);
      }
      if !inSite(s.textRef) || !inSite(s.evidenceRef) {
        return Err(SegmentRefInvalid);
      }
      assert RangeOK(segs, i);
      previousEnd := s.endMs;
    }
    return Ok(());
  }

  /** Segments built from validated ones pass every range check of the bridge. */
  lemma BuiltSegmentsAreInRange(vs: seq<Validated>, segs: seq<Segment>, duration: int)
    requires Disjoint(vs, duration) && |segs| == |vs|
    requires forall i :: 0 <= i < |vs| ==>
      segs[i].id == SegmentId(vs[i].index) && segs[i].startMs == vs[i].startMs && segs[i].endMs == vs[i].endMs
    ensures forall i :: 0 <= i < |segs| ==> RangeOK(segs, i)
  {
    forall i | 0 <= i < |segs| ensures RangeOK(segs, i) {
      SegmentIdIsIdentifier(vs[i].index);
      if i > 0 { assert vs[i-1].endMs <= vs[i].startMs; }
    }
  }

  /** Adapter and bridge in sequence: whatever the engine and the stores return, the bridge never
      refuses a time range that the adapter let through. */
  method TranscribeThenPublish(languageOK: bool, raw: seq<EngineSegment>, duration: int, textRef: Validated -> Option<string>,
                               evidenceRef: Validated -> Option<string>, refOK: string -> bool, inSite: string -> bool)
    returns (adapter: Result<seq<Segment>, Rejection>, bridge: Option<BridgeError>)
    ensures bridge != Some(InvalidTranscriptRange)
    ensures adapter.Ok? ==> |adapter.value| == |raw| <= MAX_SEGMENTS
    ensures adapter.Ok? && duration >= 0 ==> |raw| <= duration
  {
    bridge := None;
    var validated := ValidateOutput(languageOK, raw, duration);
    if validated.Err? {
      return Err(validated.error), None;
    }
    adapter := BuildSegments(validated.value, textRef, evidenceRef, refOK);
    if duration >= 0 { SpeechFitsAudio(validated.value, duration); }
    if adapter.Ok? {
      BuiltSegmentsAreInRange(validated.value, adapter.value, duration);
      var checked := CheckRanges(adapter.value, inSite);
      if checked.Err? {
        bridge := Some(checked.error);
      }
    }
  }
}
