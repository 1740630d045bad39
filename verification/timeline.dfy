/**
 * The event timeline (timeline.py): one event per analysed frame, carrying
 * the frame's model answers, the score read from the frame (if any) and the
 * clip whose window contains the frame's time, ordered by time.
 */
module Timeline {
  import opened Optional
  import Sorting
  import Lists
  import VideoProcessing
  import Inference
  import Ocr

  /** The `models` block of an event. */
  datatype Models = Models(
    shot: Inference.Prediction, umpire: Inference.Prediction, runout: Inference.Prediction,
    yoloDetections: seq<Inference.Detection>)

  datatype Event = Event(
    timeSec: real,
    framePath: string,
    models: Models,
    scoreOcrText: Option<string>,
    scoreParsed: Option<Ocr.ScoreRecord>,
    clipContext: Option<Inference.ClipResult>)

  /** The OCR entries by frame file name; `None` stands for a missing argument. */
  type ScoreTable = Option<map<string, Ocr.FrameAnalysis>>

  // ---------------------------------------------------------------------------
  // Clip windows

  /** A clip with both ends of its window known; the others are never attached. */
  predicate HasWindow(c: Inference.ClipResult) {
    c.startTime.Some? && c.endTime.Some?
  }

  /** The order of `clip_ranges.sort(key=start)`. */
  predicate StartLe(a: Inference.ClipResult, b: Inference.ClipResult) {
    a.startTime.GetOr(0.0) <= b.startTime.GetOr(0.0)
  }

  lemma StartLeIsTotalPreorder()
    ensures Sorting.TotalPreorder(StartLe)
  {
  }

  /** The half-open test `st <= t < et`. */
  predicate Contains(c: Inference.ClipResult, t: real)
    requires HasWindow(c)
  {
    c.startTime.value <= t < c.endTime.value
  }

  /** `clip_ranges`: the clips with a window, stably sorted by start time. */
  function ClipRanges(clips: seq<Inference.ClipResult>): (ranges: seq<Inference.ClipResult>)
    ensures forall k :: 0 <= k < |ranges| ==> HasWindow(ranges[k])
    ensures Sorting.Sorted(StartLe, ranges)
    ensures multiset(ranges) == multiset(Lists.Filter(clips, HasWindow))
    ensures forall c :: Sorting.Peers(StartLe, ranges, c) == Sorting.Peers(StartLe, Lists.Filter(clips, HasWindow), c)
  {
    StartLeIsTotalPreorder();
    var windowed := Lists.Filter(clips, HasWindow);
    var ranges := Sorting.Sort(StartLe, windowed);
    forall k | 0 <= k < |ranges|
      ensures HasWindow(ranges[k])
    {
      assert ranges[k] in multiset(windowed);
    }
    ranges
  }

  /** The inner loop: the first range, in order, whose window contains `t`. */
  function ClipAt(ranges: seq<Inference.ClipResult>, t: real): (r: Option<Inference.ClipResult>)
    requires forall k :: 0 <= k < |ranges| ==> HasWindow(ranges[k])
    ensures r.None? <==> forall k :: 0 <= k < |ranges| ==> !Contains(ranges[k], t)
    ensures r.Some? ==> exists k :: 0 <= k < |ranges| && ranges[k] == r.value && FirstContaining(ranges, t, k)
  {
    if |ranges| == 0 then None
    else if Contains(ranges[0], t) then
      assert FirstContaining(ranges, t, 0);
      Some(ranges[0])
    else
      var r := ClipAt(ranges[1..], t);
      assert forall k :: 1 <= k < |ranges| ==> ranges[k] == ranges[1..][k - 1];
      assert r.Some? ==> exists k :: 0 <= k < |ranges| && ranges[k] == r.value && FirstContaining(ranges, t, k) by {
        if r.Some? {
          var k :| 0 <= k < |ranges[1..]| && ranges[1..][k] == r.value && FirstContaining(ranges[1..], t, k);
          assert FirstContaining(ranges, t, k + 1);
        }
      }
      r
  }

  /** `ranges[k]` contains `t` and no range before it does. */
  ghost predicate FirstContaining(ranges: seq<Inference.ClipResult>, t: real, k: int)
    requires forall k :: 0 <= k < |ranges| ==> HasWindow(ranges[k])
  {
    && 0 <= k < |ranges| && Contains(ranges[k], t)
    && forall j :: 0 <= j < k ==> !Contains(ranges[j], t)
  }

  // ---------------------------------------------------------------------------
  // Scores

  /** `score_by_frame.get(name) if score_by_frame else None`. */
  function ScoreEntryOf(scores: ScoreTable, name: string): (e: Option<Ocr.FrameAnalysis>)
    ensures e.Some? <==> scores.Some? && name in scores.value
    ensures e.Some? ==> e.value == scores.value[name]
  {
    if scores.None? || |scores.value| == 0 then None
    else if name in scores.value then Some(scores.value[name])
    else None
  }

  /** `(entry or {}).get("ocr_text")`: a failed analysis stored `None`. */
  function OcrTextOf(e: Option<Ocr.FrameAnalysis>): Option<string> {
    if e.Some? && e.value.Analyzed? then Some(e.value.ocrText) else None
  }

  /** `(entry or {}).get("parsed")`. */
  function ParsedOf(e: Option<Ocr.FrameAnalysis>): Option<Ocr.ScoreRecord> {
    if e.Some? && e.value.Analyzed? then Some(e.value.parsed) else None
  }

  // ---------------------------------------------------------------------------
  // Events

  /** The event of one frame result. */
  function EventOf(ranges: seq<Inference.ClipResult>, scores: ScoreTable, fr: Inference.FrameResult): (e: Event)
    requires forall k :: 0 <= k < |ranges| ==> HasWindow(ranges[k])
    ensures e.timeSec == fr.timeSec && e.framePath == fr.framePath
    ensures e.models == Models(fr.shot, fr.umpire, fr.runout, fr.yoloDetections)
    ensures e.clipContext == ClipAt(ranges, fr.timeSec)
    ensures var name := VideoProcessing.BaseName(fr.framePath);
            && (scores.None? || name !in scores.value ==> e.scoreOcrText.None? && e.scoreParsed.None?)
            && (scores.Some? && name in scores.value && scores.value[name].Analyzed? ==>
                  e.scoreOcrText == Some(scores.value[name].ocrText) && e.scoreParsed == Some(scores.value[name].parsed))
            && (scores.Some? && name in scores.value && scores.value[name].AnalysisFailed? ==>
                  e.scoreOcrText.None? && e.scoreParsed.None?)
  {
    var entry := ScoreEntryOf(scores, VideoProcessing.BaseName(fr.framePath));
    Event(fr.timeSec, fr.framePath, Models(fr.shot, fr.umpire, fr.runout, fr.yoloDetections),
          OcrTextOf(entry), ParsedOf(entry), ClipAt(ranges, fr.timeSec))
  }

  function EventStep(ranges: seq<Inference.ClipResult>, scores: ScoreTable): Inference.FrameResult -> Event
    requires forall k :: 0 <= k < |ranges| ==> HasWindow(ranges[k])
  {
    fr => EventOf(ranges, scores, fr)
  }

  /** The order of `events.sort(key=time_sec)`. */
  predicate TimeLe(a: Event, b: Event) {
    a.timeSec <= b.timeSec
  }

  lemma TimeLeIsTotalPreorder()
    ensures Sorting.TotalPreorder(TimeLe)
  {
  }

  function TimeOf(e: Event): real {
    e.timeSec
  }

  function FrameTime(fr: Inference.FrameResult): real {
    fr.timeSec
  }

  /**
   * `build_timeline`: the frames' events in time order, with events at
   * equal times in the order of their frames.
   */
  function BuildTimeline(frames: seq<Inference.FrameResult>, clips: seq<Inference.ClipResult>, scores: ScoreTable)
    : (events: seq<Event>)
    ensures |events| == |frames|
    ensures Sorting.Sorted(TimeLe, events)
    ensures multiset(events) == multiset(Lists.Keys(frames, EventStep(ClipRanges(clips), scores)))
    ensures forall e :: Sorting.Peers(TimeLe, events, e) ==
                        Sorting.Peers(TimeLe, Lists.Keys(frames, EventStep(ClipRanges(clips), scores)), e)
  {
    var ranges := ClipRanges(clips);
    TimeLeIsTotalPreorder();
    Sorting.Sort(TimeLe, Lists.Keys(frames, EventStep(ranges, scores)))
  }

  /** Every event is the event of one of the frames. */
  lemma EventsFromFrames(frames: seq<Inference.FrameResult>, clips: seq<Inference.ClipResult>, scores: ScoreTable, j: int)
    requires 0 <= j < |BuildTimeline(frames, clips, scores)|
    ensures exists i :: 0 <= i < |frames| &&
              BuildTimeline(frames, clips, scores)[j] == EventOf(ClipRanges(clips), scores, frames[i])
  {
    var events := BuildTimeline(frames, clips, scores);
    var mapped := Lists.Keys(frames, EventStep(ClipRanges(clips), scores));
    assert events[j] in multiset(mapped);
    var i :| 0 <= i < |mapped| && mapped[i] == events[j];
  }

  /** The timeline's times are the frames' times, rearranged. */
  lemma TimelineTimes(frames: seq<Inference.FrameResult>, clips: seq<Inference.ClipResult>, scores: ScoreTable)
    ensures multiset(Lists.Keys(BuildTimeline(frames, clips, scores), TimeOf)) == multiset(Lists.Keys(frames, FrameTime))
  {
    var mapped := Lists.Keys(frames, EventStep(ClipRanges(clips), scores));
    Lists.MultisetKeys(BuildTimeline(frames, clips, scores), mapped, TimeOf);
    assert Lists.Keys(mapped, TimeOf) == Lists.Keys(frames, FrameTime);
  }

  /** An attached clip had a window, is one of the input clips, and contains the event's time. */
  lemma AttachedClip(frames: seq<Inference.FrameResult>, clips: seq<Inference.ClipResult>, scores: ScoreTable, j: int)
    requires 0 <= j < |BuildTimeline(frames, clips, scores)|
    requires BuildTimeline(frames, clips, scores)[j].clipContext.Some?
    ensures var e := BuildTimeline(frames, clips, scores)[j];
            && HasWindow(e.clipContext.value) && e.clipContext.value in clips
            && Contains(e.clipContext.value, e.timeSec)
  {
    var e := BuildTimeline(frames, clips, scores)[j];
    var ranges := ClipRanges(clips);
    EventsFromFrames(frames, clips, scores, j);
    var k :| 0 <= k < |ranges| && ranges[k] == e.clipContext.value && FirstContaining(ranges, e.timeSec, k);
    assert ranges[k] in multiset(Lists.Filter(clips, HasWindow));
  }

  /** A single clip `[2, 8)` is attached exactly to the times from 2 up to, not including, 8. */
  lemma SingleClip(c: Inference.ClipResult, t: real)
    requires c.startTime == Some(2.0) && c.endTime == Some(8.0)
    ensures ClipAt(ClipRanges([c]), t) == if 2.0 <= t < 8.0 then Some(c) else None
  {
    var ranges := ClipRanges([c]);
    assert Lists.Filter([c], HasWindow) == [c];
    assert multiset(ranges) == multiset{c};
    assert |ranges| == |multiset(ranges)|;
    assert ranges[0] in multiset(ranges);
    assert ranges == [c];
  }
}
