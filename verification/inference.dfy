/**
 * Per-frame and per-clip records produced around the vision models
 * (inference.py). The models themselves are observations handed in: what
 * the detector saw on a frame, what each classifier would answer if run,
 * what the clip classifier answered.
 */
module Inference {
  import opened Optional
  import opened Text
  import Config
  import Sorting
  import VideoProcessing
  import Lists

  /** A `{"label", "confidence"}` classifier answer (`category` holds the label). */
  datatype Prediction = Prediction(category: string, confidence: real)

  /** One detector box. */
  datatype Detection = Detection(bbox: seq<real>, conf: real, classId: int, className: string)

  /** One analysed frame. */
  datatype FrameResult = FrameResult(
    frameIndex: int,
    framePath: string,
    timeSec: real,
    yoloDetections: seq<Detection>,
    shot: Prediction,
    umpire: Prediction,
    runout: Prediction)

  /** One classified clip; index and times are `None` when the file name holds no integer. */
  datatype ClipResult = ClipResult(
    clipName: string,
    clipPath: string,
    clipIndex: Option<int>,
    startTime: Option<real>,
    endTime: Option<real>,
    videoClass: Prediction)

  /** What the models report for one frame file; `Unreadable` is a frame the image reader could not load. */
  datatype FrameView =
    | Unreadable
    | Readable(detections: seq<Detection>, shotAnswer: Prediction, umpireAnswer: Prediction, runoutAnswer: Prediction)

  /** The answer recorded for a classifier that was not run. */
  const NO_DETECTION: Prediction := Prediction("no_detection", 0.0)

  const SHOT_CLASSES: set<string> := {"batsman", "batter", "player", "person"}
  const UMPIRE_CLASSES: set<string> := {"umpire", "official"}
  const RUNOUT_CLASSES: set<string> := {"stump", "stumps", "wicket", "wickets"}

  /** The lower-cased class names among the detections. */
  function DetectedNames(ds: seq<Detection>): (names: set<string>)
    ensures forall n :: n in names <==> exists i :: 0 <= i < |ds| && Lower(ds[i].className) == n
  {
    set i | 0 <= i < |ds| :: Lower(ds[i].className)
  }

  predicate ShotTrigger(names: set<string>) {
    names * SHOT_CLASSES != {}
  }

  predicate UmpireTrigger(names: set<string>) {
    names * UMPIRE_CLASSES != {}
  }

  predicate RunoutTrigger(names: set<string>) {
    names * RUNOUT_CLASSES != {}
  }

  /** A class set meets the detected names exactly when some detection's lower-cased name is in it. */
  lemma Fires(dets: seq<Detection>, classes: set<string>)
    ensures DetectedNames(dets) * classes != {} <==>
            exists i :: 0 <= i < |dets| && Lower(dets[i].className) in classes
  {
    var names := DetectedNames(dets);
    if names * classes != {} {
      var n :| n in names * classes;
      var i :| 0 <= i < |dets| && Lower(dets[i].className) == n;
    }
    if exists i :: 0 <= i < |dets| && Lower(dets[i].className) in classes {
      var i :| 0 <= i < |dets| && Lower(dets[i].className) in classes;
      assert Lower(dets[i].className) in names * classes;
    }
  }

  /** A classifier's answer is kept only when its trigger fired. */
  function Gate(trigger: bool, answer: Prediction): (p: Prediction)
    ensures !trigger ==> p == NO_DETECTION
    ensures trigger ==> p == answer
  {
    if trigger then answer else NO_DETECTION
  }

  /** `frame_index * (1.0 / FRAME_RATE)`. */
  function TimeOfIndex(frameIndex: int): (t: real)
    ensures t == frameIndex as real / Config.FRAME_RATE as real
  {
    frameIndex as real * (1.0 / Config.FRAME_RATE as real)
  }

  /** The record for one readable frame. */
  function FrameResultOf(path: string, dets: seq<Detection>, shotAnswer: Prediction,
                         umpireAnswer: Prediction, runoutAnswer: Prediction): (r: FrameResult)
    ensures r.frameIndex == VideoProcessing.FrameIndexFromName(path)
    ensures r.timeSec == r.frameIndex as real
    ensures r.framePath == path && r.yoloDetections == dets
    ensures r.shot == (if exists i :: 0 <= i < |dets| && Lower(dets[i].className) in SHOT_CLASSES
                       then shotAnswer else NO_DETECTION)
    ensures r.umpire == (if exists i :: 0 <= i < |dets| && Lower(dets[i].className) in UMPIRE_CLASSES
                         then umpireAnswer else NO_DETECTION)
    ensures r.runout == (if exists i :: 0 <= i < |dets| && Lower(dets[i].className) in RUNOUT_CLASSES
                         then runoutAnswer else NO_DETECTION)
  {
    var index := VideoProcessing.FrameIndexFromName(path);
    var names := DetectedNames(dets);
    Fires(dets, SHOT_CLASSES);
    Fires(dets, UMPIRE_CLASSES);
    Fires(dets, RUNOUT_CLASSES);
    FrameResult(index, path, TimeOfIndex(index), dets,
                Gate(ShotTrigger(names), shotAnswer),
                Gate(UmpireTrigger(names), umpireAnswer),
                Gate(RunoutTrigger(names), runoutAnswer))
  }

  /** The record a readable frame file yields. */
  function ResultOfView(dir: string, name: string, v: FrameView): (r: FrameResult)
    requires v.Readable?
    ensures r.framePath == dir + "/" + name
  {
    FrameResultOf(dir + "/" + name, v.detections, v.shotAnswer, v.umpireAnswer, v.runoutAnswer)
  }

  /** One step of the frame loop: a record, or nothing for an unreadable frame. */
  function FrameStep(dir: string, view: string -> FrameView): string -> Option<FrameResult> {
    name => if view(name).Readable? then Some(ResultOfView(dir, name, view(name))) else None
  }

  function IsReadable(view: string -> FrameView): string -> bool {
    name => view(name).Readable?
  }

  function PathOf(r: FrameResult): string {
    r.framePath
  }

  function PathIn(dir: string): string -> string {
    name => dir + "/" + name
  }

  /**
   * `run_on_frames`: the subsampled frame files of `dir` in sorted order,
   * each turned into a record, skipping frames the reader cannot load.
   */
  function RunOnFrames(dir: string, listing: seq<string>, view: string -> FrameView): seq<FrameResult> {
    FramesOf(dir, VideoProcessing.SampledFrames(listing, Config.FRAME_SUBSAMPLE), view)
  }

  /** `r` is the record of some readable file among `names`. */
  ghost predicate YieldedBy(dir: string, names: seq<string>, view: string -> FrameView, r: FrameResult) {
    exists i :: 0 <= i < |names| && view(names[i]).Readable? && r == ResultOfView(dir, names[i], view(names[i]))
  }

  /**
   * The loop of `run_on_frames` over the chosen frame files: the records'
   * paths are the readable files in order, and each record is the one its
   * file yields.
   */
  function FramesOf(dir: string, names: seq<string>, view: string -> FrameView): (rs: seq<FrameResult>)
    ensures Lists.Keys(rs, PathOf) == Lists.Keys(Lists.Filter(names, IsReadable(view)), PathIn(dir))
    ensures forall j :: 0 <= j < |rs| ==> YieldedBy(dir, names, view, rs[j])
  {
    var rs := Lists.FilterMap(names, FrameStep(dir, view));
    Lists.FilterMapKeys(names, FrameStep(dir, view), IsReadable(view), PathOf, PathIn(dir));
    forall j | 0 <= j < |rs|
      ensures YieldedBy(dir, names, view, rs[j])
    {
      var i :| 0 <= i < |names| && FrameStep(dir, view)(names[i]) == Some(rs[j]);
      assert view(names[i]).Readable?;
      assert rs[j] == ResultOfView(dir, names[i], view(names[i]));
    }
    rs
  }

  // ---------------------------------------------------------------------------
  // Clips

  /** The glob `clip_*.mp4` on one directory entry. */
  predicate IsClipFile(name: string) {
    |name| >= 9 && StartsWith(name, "clip_") && EndsWith(name, ".mp4")
  }

  /** `int(name.replace("clip_", "").replace(".mp4", ""))`, `None` where `int` raises. */
  function ClipIndexOfName(name: string): Option<int> {
    PyInt(RemoveAll(RemoveAll(name, "clip_"), ".mp4"))
  }

  /**
   * A clip named the way the splitter names it, `clip_` and a zero-padded
   * number `n` and `.mp4`, is a clip file whose index is `n`.
   */
  lemma ClipIndexOfClipName(zeros: nat, n: nat)
    ensures IsClipFile("clip_" + (Repeat('0', zeros) + NatToString(n)) + ".mp4")
    ensures ClipIndexOfName("clip_" + (Repeat('0', zeros) + NatToString(n)) + ".mp4") == Some(n)
  {
    VideoProcessing.LeadingZerosValue(zeros, NatToString(n));
    NatToStringValue(n);
    ClipIndexOfDigits(Repeat('0', zeros) + NatToString(n));
  }

  /** `clip_<d>.mp4` for a digit string `d` is a clip file with the value of `d` as its index. */
  lemma ClipIndexOfDigits(d: string)
    requires |d| > 0 && AllDigits(d)
    ensures IsClipFile("clip_" + d + ".mp4")
    ensures ClipIndexOfName("clip_" + d + ".mp4") == Some(DigitsValue(d))
  {
    var name := "clip_" + d + ".mp4";
    assert name[..5] == "clip_" && name[|name| - 4..] == ".mp4";
    ClipAffixesRemoved(d);
    PyIntOfDigits(d);
  }

  /** Removing `clip_` and then `.mp4` from `clip_<d>.mp4` leaves the digits. */
  lemma ClipAffixesRemoved(d: string)
    requires AllDigits(d)
    ensures RemoveAll(RemoveAll("clip_" + d + ".mp4", "clip_"), ".mp4") == d
  {
    var name := "clip_" + d + ".mp4";
    var rest := d + ".mp4";
    assert 'c' !in rest by {
      forall k | 0 <= k < |rest|
        ensures rest[k] != 'c'
      {
        if k < |d| {
          assert rest[k] == d[k];
        }
      }
    }
    assert '.' !in d by {
      forall k | 0 <= k < |d|
        ensures d[k] != '.'
      {
        assert IsDigit(d[k]);
      }
    }
    assert StartsWith(name, "clip_") && name[5..] == rest;
    RemoveAllAbsent(rest, "clip_");
    RemoveAllTrailing(d, ".mp4");
  }

  /** The window `[index * CLIP_LENGTH, index * CLIP_LENGTH + CLIP_LENGTH)` of a clip index. */
  function ClipWindow(index: Option<int>): (w: (Option<real>, Option<real>))
    ensures index.None? <==> w.0.None?
    ensures index.None? <==> w.1.None?
    ensures index.Some? ==> (w.0.value == (index.value * Config.CLIP_LENGTH) as real
                             && w.1.value == w.0.value + Config.CLIP_LENGTH as real)
  {
    var start := if index.Some? then Some((index.value * Config.CLIP_LENGTH) as real) else None;
    var end := if start.Some? then Some(start.value + Config.CLIP_LENGTH as real) else None;
    (start, end)
  }

  /** Windows of distinct clip indices are non-empty, disjoint and back to back. */
  lemma ClipWindowsDisjoint(i: int, j: int)
    requires i != j
    ensures ClipWindow(Some(i)).0.value < ClipWindow(Some(i)).1.value
    ensures ClipWindow(Some(i)).1.value <= ClipWindow(Some(j)).0.value
         || ClipWindow(Some(j)).1.value <= ClipWindow(Some(i)).0.value
    ensures ClipWindow(Some(i + 1)).0.value == ClipWindow(Some(i)).1.value
  {
    if i < j {
      assert i * Config.CLIP_LENGTH + Config.CLIP_LENGTH <= j * Config.CLIP_LENGTH;
    } else {
      assert j * Config.CLIP_LENGTH + Config.CLIP_LENGTH <= i * Config.CLIP_LENGTH;
    }
  }

  /** The clip files of a listing, sorted by name. */
  function AllClips(listing: seq<string>): (r: seq<string>)
    ensures Sorting.Sorted(VideoProcessing.LexLe, r)
    ensures forall x :: x in r <==> x in listing && IsClipFile(x)
  {
    VideoProcessing.LexLeIsTotalPreorder();
    var files := ClipFiles(listing);
    var sorted := Sorting.Sort(VideoProcessing.LexLe, files);
    assert forall x :: x in sorted <==> x in multiset(files);
    sorted
  }

  function ClipFiles(listing: seq<string>): (r: seq<string>)
    ensures forall i :: 0 <= i < |r| ==> IsClipFile(r[i])
    ensures forall x :: x in r <==> x in listing && IsClipFile(x)
  {
    if |listing| == 0 then []
    else (if IsClipFile(listing[0]) then [listing[0]] else []) + ClipFiles(listing[1..])
  }

  /** The record of a classified clip file. */
  function ClipRecord(dir: string, name: string, answer: Prediction): (r: ClipResult)
    ensures r.clipName == name && r.clipPath == dir + "/" + name && r.videoClass == answer
    ensures r.clipIndex == ClipIndexOfName(name)
    ensures (r.startTime, r.endTime) == ClipWindow(r.clipIndex)
  {
    var index := ClipIndexOfName(name);
    var window := ClipWindow(index);
    ClipResult(name, dir + "/" + name, index, window.0, window.1, answer)
  }

  /** One step of the clip loop: a record, or nothing for a clip that could not be classified. */
  function ClipStep(dir: string, classify: string -> Option<Prediction>): string -> Option<ClipResult> {
    name => match classify(name)
            case None => None
            case Some(answer) => Some(ClipRecord(dir, name, answer))
  }

  function IsClassified(classify: string -> Option<Prediction>): string -> bool {
    name => classify(name).Some?
  }

  function NameOf(r: ClipResult): string {
    r.clipName
  }

  function Same(name: string): string {
    name
  }

  /**
   * `run_on_clips`: the clip files of `dir` in sorted order, each with its
   * name-derived index and window; `classify` returns `None` for a clip that
   * cannot be read or classified, which is skipped.
   */
  function RunOnClips(dir: string, listing: seq<string>, classify: string -> Option<Prediction>): (rs: seq<ClipResult>)
    ensures Lists.Keys(rs, NameOf) == Lists.Filter(AllClips(listing), IsClassified(classify))
    ensures Sorting.Sorted(VideoProcessing.LexLe, Lists.Keys(rs, NameOf))
    ensures forall j :: 0 <= j < |rs| ==>
              && IsClipFile(rs[j].clipName) && rs[j].clipName in listing
              && classify(rs[j].clipName) == Some(rs[j].videoClass)
              && rs[j] == ClipRecord(dir, rs[j].clipName, rs[j].videoClass)
    ensures forall i :: 0 <= i < |listing| && IsClipFile(listing[i]) && classify(listing[i]).Some? ==>
              listing[i] in Lists.Keys(rs, NameOf)
  {
    var names := AllClips(listing);
    var rs := Lists.FilterMap(names, ClipStep(dir, classify));
    Lists.FilterMapKeys(names, ClipStep(dir, classify), IsClassified(classify), NameOf, Same);
    assert Lists.Keys(Lists.Filter(names, IsClassified(classify)), Same) == Lists.Filter(names, IsClassified(classify));
    Lists.FilterSorted(VideoProcessing.LexLe, names, IsClassified(classify));
    forall j | 0 <= j < |rs|
      ensures IsClipFile(rs[j].clipName) && rs[j].clipName in listing
    {
      assert rs[j].clipName == Lists.Keys(rs, NameOf)[j];
    }
    rs
  }
}
