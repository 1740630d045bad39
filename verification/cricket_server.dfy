/**
 * The match-analysis tools (cricket_server.py): the event in force at a
 * moment of the video, read from the saved timeline, and the tail of the
 * error log. File contents and JSON decoding are inputs.
 */
module CricketServer {
  import opened Optional
  import opened Text

  // ---------------------------------------------------------------------------
  // Logs

  const LOG_TAIL := 2000

  /** `get_logs`: the whole log when short, else its last 2000 characters; `None` is a missing file. */
  function GetLogs(content: Option<string>): (r: string)
    ensures content.None? ==> r == "No logs found."
    ensures content.Some? ==> EndsWith(content.value, r)
    ensures content.Some? ==> |r| == if |content.value| > LOG_TAIL then LOG_TAIL else |content.value|
  {
    if content.None? then "No logs found."
    else
      var text := content.value;
      if |text| > LOG_TAIL then text[|text| - LOG_TAIL..] else text
  }

  /** Reading the logs twice changes nothing: the tail of a tail is itself. */
  lemma GetLogsStable(content: string)
    ensures GetLogs(Some(GetLogs(Some(content)))) == GetLogs(Some(content))
  {
  }

  // ---------------------------------------------------------------------------
  // The event at a moment

  /**
   * One decoded element of the timeline list: its `time_sec` when present,
   * and the names of its other keys (an element with neither is the empty,
   * falsy object).
   */
  datatype EventObject = EventObject(timeSec: Option<real>, otherKeys: seq<string>)

  /** `event.get("time_sec", 0)`. */
  function TimeOf(e: EventObject): real {
    e.timeSec.GetOr(0.0)
  }

  /** The truth value of the object: an empty object is falsy. */
  predicate Truthy(e: EventObject) {
    e.timeSec.Some? || |e.otherKeys| > 0
  }

  /** How many events the scan walks past: the leading run whose times are at most `seconds`. */
  function CutOff(data: seq<EventObject>, seconds: real): (p: nat)
    ensures p <= |data|
    ensures forall j :: 0 <= j < p ==> TimeOf(data[j]) <= seconds
    ensures p < |data| ==> TimeOf(data[p]) > seconds
  {
    if |data| == 0 || TimeOf(data[0]) > seconds then 0
    else
      var rest := CutOff(data[1..], seconds);
      assert forall j :: 1 <= j < |data| ==> data[j] == data[1..][j - 1];
      1 + rest
  }

  /**
   * The scan's result: the last event of the leading run with times at most
   * `seconds`, or nothing when the first event is already later.
   */
  function ClosestEvent(data: seq<EventObject>, seconds: real): (r: Option<EventObject>)
    ensures r.None? <==> |data| == 0 || TimeOf(data[0]) > seconds
    ensures r.Some? ==> exists k :: 0 <= k < |data| && data[k] == r.value && StopsAt(data, seconds, k)
  {
    var p := CutOff(data, seconds);
    if p == 0 then None
    else
      assert StopsAt(data, seconds, p - 1);
      Some(data[p - 1])
  }

  /** The scan keeps `data[k]`: every event up to it is at most `seconds`, and the next is later. */
  ghost predicate StopsAt(data: seq<EventObject>, seconds: real, k: int) {
    && 0 <= k < |data|
    && (forall j :: 0 <= j <= k ==> TimeOf(data[j]) <= seconds)
    && (k + 1 < |data| ==> TimeOf(data[k + 1]) > seconds)
  }

  /** The loop of `get_match_context_at_time`, event by event. */
  method ScanEvents(data: seq<EventObject>, seconds: real) returns (closest: Option<EventObject>)
    ensures closest == ClosestEvent(data, seconds)
  {
    closest := None;
    var i := 0;
    while i < |data|
      invariant 0 <= i <= CutOff(data, seconds)
      invariant i == 0 ==> closest.None?
      invariant i > 0 ==> closest == Some(data[i - 1])
    {
      if TimeOf(data[i]) <= seconds {
        closest := Some(data[i]);
      } else {
        break;
      }
      i := i + 1;
    }
  }

  /** Times ascending along the list. */
  predicate SortedByTime(data: seq<EventObject>) {
    forall i, j :: 0 <= i < j < |data| ==> TimeOf(data[i]) <= TimeOf(data[j])
  }

  /**
   * On a time-ordered timeline the scan finds the latest event at or before
   * `seconds`, the last one among equal times, and finds nothing exactly
   * when every event is later.
   */
  lemma SortedClosest(data: seq<EventObject>, seconds: real)
    requires SortedByTime(data)
    ensures ClosestEvent(data, seconds).None? <==> forall j :: 0 <= j < |data| ==> TimeOf(data[j]) > seconds
    ensures ClosestEvent(data, seconds).Some? ==>
              exists k :: 0 <= k < |data| && data[k] == ClosestEvent(data, seconds).value
                          && TimeOf(data[k]) <= seconds
                          && forall j :: k < j < |data| ==> TimeOf(data[j]) > seconds
  {
    var r := ClosestEvent(data, seconds);
    if r.Some? {
      var k :| 0 <= k < |data| && data[k] == r.value && StopsAt(data, seconds, k);
      assert forall j :: k < j < |data| ==> TimeOf(data[k + 1]) <= TimeOf(data[j]);
    }
  }

  /** On an unordered timeline the scan can stop early: a later match after a larger time is never reached. */
  lemma UnsortedStopsEarly(a: EventObject, b: EventObject, c: EventObject)
    requires TimeOf(a) == 1.0 && TimeOf(b) == 9.0 && TimeOf(c) == 2.0
    ensures ClosestEvent([a, b, c], 5.0) == Some(a)
  {
    assert StopsAt([a, b, c], 5.0, 0);
  }

  /** What the timeline file gave: missing, unreadable as JSON, or a decoded list. */
  datatype TimelineFile = Missing | Unparsable | Decoded(data: seq<EventObject>)

  /**
   * `get_match_context_at_time`: `dumps` is `json.dumps(·, indent=2)` and
   * `showSeconds` is Python's rendering of the float.
   */
  function MatchContext(file: TimelineFile, seconds: real, dumps: EventObject -> string,
                        showSeconds: real -> string): (r: string)
    ensures file.Missing? ==> r == "Error: No match data found."
    ensures file.Unparsable? ==> r == "Error: Could not parse match data."
    ensures file.Decoded? ==>
              var e := ClosestEvent(file.data, seconds);
              && (e.Some? && Truthy(e.value) ==> r == dumps(e.value))
              && (e.None? || !Truthy(e.value) ==> r == "No event found before time " + showSeconds(seconds) + ".")
  {
    match file
    case Missing => "Error: No match data found."
    case Unparsable => "Error: Could not parse match data."
    case Decoded(data) =>
      var e := ClosestEvent(data, seconds);
      if e.Some? && Truthy(e.value) then dumps(e.value)
      else "No event found before time " + showSeconds(seconds) + "."
  }

  /** An event without `time_sec` counts as time 0: it is in force from the start of the video. */
  lemma MissingTimeIsZero(e: EventObject, seconds: real, dumps: EventObject -> string, showSeconds: real -> string)
    requires e.timeSec.None? && |e.otherKeys| > 0 && seconds >= 0.0
    ensures MatchContext(Decoded([e]), seconds, dumps, showSeconds) == dumps(e)
  {
    assert StopsAt([e], seconds, 0);
  }
}
