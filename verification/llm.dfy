/**
 * The language-model side of the pipeline (llm.py): the score line shown to
 * the model, the commentary prompt compiled from the timeline with its
 * per-event word budget, the summarizer's pre-checks and the error tags of
 * the commentary call. The model's replies are inputs.
 */
module Llm {
  import opened Optional
  import opened Text
  import Lists
  import Inference
  import Ocr
  import Timeline

  // ---------------------------------------------------------------------------
  // `_format_parsed_score`

  /**
   * `fmt(team, score)`: `None` for a missing or empty name, the bare name
   * when nothing is known, otherwise `name: runs/wickets in overs overs`
   * with the parts that are known.
   */
  function FormatTeam(team: Option<string>, score: Ocr.TeamScore): (r: Option<string>)
    ensures team.GetOr("") == "" <==> r.None?
    ensures r.Some? ==> |r.value| > 0
  {
    if team.GetOr("") == "" then None
    else
      var name := team.value;
      if score.runs.None? && score.wickets.None? && score.overs.None? then Some(name)
      else
        var tally := if score.runs.Some? then
                       IntToString(score.runs.value) + (if score.wickets.Some? then "/" + IntToString(score.wickets.value) else "")
                     else "";
        var overs := if score.overs.GetOr("") != "" then " in " + score.overs.value + " overs" else "";
        Some(name + ": " + tally + overs)
  }

  /** `_format_parsed_score`; `None` stands for a falsy `parsed`. */
  function FormatParsedScore(parsed: Option<Ocr.ScoreRecord>): (r: string)
    ensures parsed.None? ==> r == "Unknown score"
    ensures parsed.Some? ==>
              var p1 := FormatTeam(parsed.value.team1Name, parsed.value.team1Score);
              var p2 := FormatTeam(parsed.value.team2Name, parsed.value.team2Score);
              && (p1.None? && p2.None? ==> r == "Unknown score")
              && (p1.Some? && p2.Some? ==> r == p1.value + " | " + p2.value)
              && (p1.Some? && p2.None? ==> r == p1.value)
              && (p1.None? && p2.Some? ==> r == p2.value)
  {
    if parsed.None? then "Unknown score"
    else
      var p1 := FormatTeam(parsed.value.team1Name, parsed.value.team1Score);
      var p2 := FormatTeam(parsed.value.team2Name, parsed.value.team2Score);
      var parts := (if p1.Some? then [p1.value] else []) + (if p2.Some? then [p2.value] else []);
      if |parts| == 0 then "Unknown score"
      else
        assert |parts| == 2 ==> Join(parts, " | ") == parts[0] + " | " + Join(parts[1..], " | ") && parts[1..] == [p2.value];
        Join(parts, " | ")
  }

  /** A named team with nothing known is shown by its name alone. */
  lemma BareTeamName(name: string)
    requires name != ""
    ensures FormatTeam(Some(name), Ocr.NO_SCORE) == Some(name)
  {
  }

  /** Wickets are shown only after runs: without runs the line has the name and at most the overs. */
  lemma NoWicketsWithoutRuns(name: string, score: Ocr.TeamScore)
    requires name != "" && score.runs.None? && (score.wickets.Some? || score.overs.Some?)
    ensures FormatTeam(Some(name), score) ==
              Some(name + ": " + (if score.overs.GetOr("") != "" then " in " + score.overs.value + " overs" else ""))
  {
    assert name + ": " + "" == name + ": ";
  }

  /** A full batting score with both codes: `name: runs/wickets in overs overs | bowling code`. */
  lemma FormatFullRecord(r: Ocr.ScoreRecord, runs: int, wickets: int, overs: string)
    requires r.team1Name.GetOr("") != "" && r.team2Name.GetOr("") != ""
    requires r.team1Score == Ocr.TeamScore(Some(runs), Some(wickets), Some(overs)) && overs != ""
    requires r.team2Score == Ocr.NO_SCORE
    ensures FormatParsedScore(Some(r)) ==
              r.team1Name.value + ": " + IntToString(runs) + "/" + IntToString(wickets)
              + " in " + overs + " overs" + " | " + r.team2Name.value
  {
  }

  /**
   * The line for an overlay read by the parser: the batting side's score and
   * overs, then the bowling side's bare code.
   */
  lemma FormatRenderedScore(g: Ocr.Groups)
    requires Ocr.WellShaped(g)
    ensures FormatParsedScore(Some(Ocr.ParseScoreText(Some(Ocr.Render(g))))) ==
              g.team + ": " + IntToString(DigitsValue(g.runs)) + "/" + IntToString(DigitsValue(g.wickets))
              + " in " + g.overs + " overs" + " | " + g.bowl
  {
    var r := Ocr.ParseScoreText(Some(Ocr.Render(g)));
    assert && r.team1Name == Some(g.team) && r.team2Name == Some(g.bowl)
           && r.team1Score == Ocr.TeamScore(Some(DigitsValue(g.runs)), Some(DigitsValue(g.wickets)), Some(g.overs))
           && r.team2Score == Ocr.NO_SCORE by {
      Ocr.ParseRoundTrip(g);
    }
    Ocr.OversNoSpace(g.overs);
    RenderedRecord(r, g);
  }

  lemma RenderedRecord(r: Ocr.ScoreRecord, g: Ocr.Groups)
    requires Ocr.WellShaped(g) && g.overs != ""
    requires r.team1Name == Some(g.team) && r.team2Name == Some(g.bowl)
    requires r.team1Score == Ocr.TeamScore(Some(DigitsValue(g.runs)), Some(DigitsValue(g.wickets)), Some(g.overs))
    requires r.team2Score == Ocr.NO_SCORE
    ensures FormatParsedScore(Some(r)) ==
              g.team + ": " + IntToString(DigitsValue(g.runs)) + "/" + IntToString(DigitsValue(g.wickets))
              + " in " + g.overs + " overs" + " | " + g.bowl
  {
    FormatFullRecord(r, DigitsValue(g.runs), DigitsValue(g.wickets), g.overs);
  }

  /** A record in which no score was found is shown as unknown. */
  lemma UnparsedScoreUnknown(text: Option<string>)
    requires Ocr.ParseScoreText(text).team1Name.None?
    ensures FormatParsedScore(Some(Ocr.ParseScoreText(text))) == "Unknown score"
  {
  }

  // ---------------------------------------------------------------------------
  // Pacing

  /** Python's `int(x)` on a float: truncation toward zero. */
  function Trunc(x: real): (n: int)
    ensures x >= 0.0 ==> n as real <= x < n as real + 1.0
    ensures x < 0.0 ==> n as real - 1.0 < x <= n as real
  {
    if x >= 0.0 then x.Floor else -((-x).Floor)
  }

  /** Time to the next event, or 5 seconds after the last one. */
  function Duration(events: seq<Timeline.Event>, i: nat): (d: real)
    requires i < |events|
    ensures i + 1 < |events| ==> d == events[i + 1].timeSec - events[i].timeSec
    ensures i + 1 == |events| ==> d == 5.0
  {
    if i < |events| - 1 then events[i + 1].timeSec - events[i].timeSec else 5.0
  }

  /** `max_words`: two and a half words a second, truncated, and never below 5. */
  function WordBudget(duration: real): (w: int)
    ensures w >= 5
    ensures duration * 2.5 >= 5.0 ==> w as real <= duration * 2.5 < w as real + 1.0
    ensures duration * 2.5 < 5.0 ==> w == 5
  {
    var w := Trunc(duration * 2.5);
    if w < 5 then 5 else w
  }

  /** The last event, and any event four seconds or more before the next, gets a budget of at least 10 words. */
  lemma LongGapBudget(duration: real)
    requires duration >= 4.0
    ensures WordBudget(duration) >= 10
  {
  }

  /** Budgets grow with the gap. */
  lemma BudgetMonotone(d1: real, d2: real)
    requires d1 <= d2
    ensures WordBudget(d1) <= WordBudget(d2)
  {
    var x1 := d1 * 2.5;
    var x2 := d2 * 2.5;
    assert x1 <= x2;
    if x1 >= 0.0 {
      assert x1.Floor <= x2.Floor;
    }
  }

  // ---------------------------------------------------------------------------
  // The prompt

  /** The detector filter: confidence strictly above 0.8. */
  predicate Confident(d: Inference.Detection) {
    d.conf > 0.8
  }

  /** `class_name (conf)` for one kept detection. */
  function VisualItem(d: Inference.Detection, fmt2: real -> string): string {
    d.className + " (" + fmt2(d.conf) + ")"
  }

  /** The detections listed for an event, comma-separated, or "None" when none is kept. */
  function VisualsText(detections: seq<Inference.Detection>, fmt2: real -> string): (r: string)
    ensures r == "None" <==> forall i :: 0 <= i < |detections| ==> detections[i].conf <= 0.8
  {
    var kept := Lists.Filter(detections, Confident);
    if |kept| == 0 then "None"
    else
      var items := Lists.Keys(kept, d => VisualItem(d, fmt2));
      assert Join(items, ", ") != "None" by {
        JoinHasPart(items, ", ", 0);
        assert items[0][|kept[0].className|] == ' ';
        ContainsChar(Join(items, ", "), items[0], |kept[0].className|);
      }
      Join(items, ", ")
  }

  /** Every detection above 0.8 is listed. */
  lemma VisualsListed(detections: seq<Inference.Detection>, fmt2: real -> string, i: int)
    requires 0 <= i < |detections| && detections[i].conf > 0.8
    ensures Contains(VisualsText(detections, fmt2), VisualItem(detections[i], fmt2))
  {
    var kept := Lists.Filter(detections, Confident);
    assert detections[i] in kept;
    var k :| 0 <= k < |kept| && kept[k] == detections[i];
    JoinHasPart(Lists.Keys(kept, d => VisualItem(d, fmt2)), ", ", k);
  }

  /**
   * Only the detections above 0.8 are listed, each once and in their input
   * order: the items are those of the confident detections' indices.
   */
  lemma VisualsExactly(detections: seq<Inference.Detection>, fmt2: real -> string)
    ensures var idx := Lists.Positions(detections, Confident, 0);
            |idx| > 0 ==>
              VisualsText(detections, fmt2)
              == Join(seq(|idx|, k requires 0 <= k < |idx| => VisualItem(detections[idx[k]], fmt2)), ", ")
  {
    var idx := Lists.Positions(detections, Confident, 0);
    assert detections[0..] == detections;
    Lists.FilterAtPositions(detections, Confident, 0);
    var kept := Lists.Filter(detections, Confident);
    if |idx| > 0 {
      assert Lists.Keys(kept, d => VisualItem(d, fmt2))
             == seq(|idx|, k requires 0 <= k < |idx| => VisualItem(detections[idx[k]], fmt2));
    }
  }

  /** With no detection above 0.8 the visuals read "None". */
  lemma NoConfidentVisuals(detections: seq<Inference.Detection>, fmt2: real -> string)
    requires forall i :: 0 <= i < |detections| ==> detections[i].conf <= 0.8
    ensures VisualsText(detections, fmt2) == "None"
  {
  }

  /** The score shown for an event: "None" without a parsed score. */
  function SnapshotOf(e: Timeline.Event): (r: string)
    ensures e.scoreParsed.None? ==> r == "None"
    ensures e.scoreParsed.Some? ==> r == FormatParsedScore(e.scoreParsed)
  {
    if e.scoreParsed.None? then "None" else FormatParsedScore(e.scoreParsed)
  }

  /** The clip label and confidence shown for an event: "Unknown" and 0.0 without a clip. */
  function FlavourOf(e: Timeline.Event): (p: Inference.Prediction)
    ensures e.clipContext.None? ==> p == Inference.Prediction("Unknown", 0.0)
    ensures e.clipContext.Some? ==> p == e.clipContext.value.videoClass
  {
    if e.clipContext.None? then Inference.Prediction("Unknown", 0.0) else e.clipContext.value.videoClass
  }

  /** The first line of event `i`'s block, numbered from 1. */
  function EventHeading(i: nat): string {
    "\nEVENT " + NatToString(i + 1) + ":"
  }

  function TimeLine(events: seq<Timeline.Event>, i: nat, fmt1: real -> string): string
    requires i < |events|
  {
    " - Time (s): " + fmt1(events[i].timeSec) + " (Next event in " + fmt1(Duration(events, i))
    + "s -> Aim for approx " + IntToString(WordBudget(Duration(events, i))) + " words)"
  }

  function ScoreLine(e: Timeline.Event): string {
    " - Scoreboard snapshot: " + SnapshotOf(e)
  }

  function FlavourLine(e: Timeline.Event, fmt2: real -> string): string {
    " - Video model label (flavour only): " + FlavourOf(e).category + " (confidence=" + fmt2(FlavourOf(e).confidence) + ")"
  }

  function VisualsLine(e: Timeline.Event, fmt2: real -> string): string {
    " - High-Confidence Visuals (>0.8): " + VisualsText(e.models.yoloDetections, fmt2)
  }

  /** The five lines describing event `i`. */
  function EventBlock(events: seq<Timeline.Event>, i: nat, fmt1: real -> string, fmt2: real -> string): seq<string>
    requires i < |events|
  {
    [EventHeading(i), TimeLine(events, i, fmt1), ScoreLine(events[i]), FlavourLine(events[i], fmt2),
     VisualsLine(events[i], fmt2)]
  }

  /** The blocks of all events, in timeline order. */
  function EventBlocks(events: seq<Timeline.Event>, fmt1: real -> string, fmt2: real -> string): (blocks: seq<seq<string>>)
    ensures |blocks| == |events|
    ensures forall i :: 0 <= i < |events| ==> |blocks[i]| == 5
  {
    seq(|events|, i requires 0 <= i < |events| => EventBlock(events, i, fmt1, fmt2))
  }

  /**
   * `build_commentary_prompt_from_timeline`: the instructions, one block of
   * five lines per event in timeline order, and the closing TASK paragraph, joined by
   * newlines. The two fixed instruction paragraphs are `header` and `task`;
   * `fmt1` and `fmt2` are the `:.1f` and `:.2f` renderings of a float.
   */
  function PromptLines(events: seq<Timeline.Event>, header: string, task: string,
                       fmt1: real -> string, fmt2: real -> string): (lines: seq<string>)
    ensures |lines| == 2 + 5 * |events|
    ensures lines[0] == header && lines[|lines| - 1] == task
  {
    var blocks := EventBlocks(events, fmt1, fmt2);
    Lists.FlattenLength(blocks, 5);
    [header] + Lists.Flatten(blocks) + [task]
  }

  function BuildPrompt(events: seq<Timeline.Event>, header: string, task: string,
                       fmt1: real -> string, fmt2: real -> string): string
  {
    Join(PromptLines(events, header, task, fmt1, fmt2), "\n")
  }

  /** Line `k` of event `i`'s block is line `1 + 5 i + k` of the prompt: blocks follow the timeline's order. */
  lemma PromptLineAt(events: seq<Timeline.Event>, header: string, task: string, fmt1: real -> string,
                     fmt2: real -> string, i: nat, k: nat)
    requires i < |events| && k < 5
    ensures PromptLines(events, header, task, fmt1, fmt2)[1 + 5 * i + k] == EventBlock(events, i, fmt1, fmt2)[k]
  {
    var blocks := EventBlocks(events, fmt1, fmt2);
    var flat := Lists.Flatten(blocks);
    Lists.FlattenAt(blocks, 5, i, k);
    assert PromptLines(events, header, task, fmt1, fmt2) == [header] + flat + [task];
    Lists.Framed(header, flat, task, 5 * i + k);
    assert blocks[i] == EventBlock(events, i, fmt1, fmt2);
  }

  /** Each event's heading, score line and visuals line occur in the prompt. */
  lemma PromptHasEvents(events: seq<Timeline.Event>, header: string, task: string, fmt1: real -> string,
                        fmt2: real -> string, i: nat)
    requires i < |events|
    ensures Contains(BuildPrompt(events, header, task, fmt1, fmt2), EventHeading(i))
    ensures Contains(BuildPrompt(events, header, task, fmt1, fmt2), ScoreLine(events[i]))
    ensures Contains(BuildPrompt(events, header, task, fmt1, fmt2), VisualsLine(events[i], fmt2))
  {
    PromptHasLine(events, header, task, fmt1, fmt2, i, 0);
    PromptHasLine(events, header, task, fmt1, fmt2, i, 2);
    PromptHasLine(events, header, task, fmt1, fmt2, i, 4);
  }

  /** Every line of every event block occurs in the prompt. */
  lemma PromptHasLine(events: seq<Timeline.Event>, header: string, task: string, fmt1: real -> string,
                      fmt2: real -> string, i: nat, k: nat)
    requires i < |events| && k < 5
    ensures Contains(BuildPrompt(events, header, task, fmt1, fmt2), EventBlock(events, i, fmt1, fmt2)[k])
  {
    PromptLineAt(events, header, task, fmt1, fmt2, i, k);
    JoinHasPart(PromptLines(events, header, task, fmt1, fmt2), "\n", 1 + 5 * i + k);
  }

  /** An event without a score or a clip shows "None" and an unknown label at confidence 0. */
  lemma BareEventLines(e: Timeline.Event, fmt2: real -> string)
    requires e.scoreParsed.None? && e.clipContext.None?
    ensures ScoreLine(e) == " - Scoreboard snapshot: None"
    ensures FlavourLine(e, fmt2) == " - Video model label (flavour only): Unknown (confidence=" + fmt2(0.0) + ")"
  {
  }

  // ---------------------------------------------------------------------------
  // The model calls

  /** What one chat-completion request came to: the first choice's content, or an exception's text. */
  datatype LlmReply = Answered(content: string) | Raised(message: string)

  /** The tag the pipeline tests for. */
  const ERROR_TAG := "[LLM ERROR]"

  const NO_KEY_ERROR := ERROR_TAG + " No Jina API key found. Skipping commentary generation."
  const CLIENT_ERROR := ERROR_TAG + " Failed to create Jina client."
  const TIMEOUT_ERROR := ERROR_TAG + " Jina DeepSearch timed out while generating commentary."
                         + " Try again or shorten the input."
  const CALL_ERROR := ERROR_TAG + " Jina call failed. See console for details."
  const WARNING_TAG := "[LLM WARNING]"
  const EMPTY_WARNING := WARNING_TAG + " Jina call succeeded" + " but no text" + " was returned."

  /** An exception message that `call_llm` reads as a timeout. */
  predicate IsTimeout(message: string) {
    Contains(message, "524") || Contains(message, "A timeout occurred") || Contains(Lower(message), "timed out")
  }

  /**
   * `call_llm`: `clientCreated` is false when building the client raised;
   * a missing or empty key, or an empty answer, are the falsy cases.
   */
  function CallLlm(apiKey: Option<string>, clientCreated: bool, reply: LlmReply): (r: string)
    ensures apiKey.GetOr("") == "" ==> r == NO_KEY_ERROR
    ensures apiKey.GetOr("") != "" && !clientCreated ==> r == CLIENT_ERROR
    ensures apiKey.GetOr("") != "" && clientCreated ==>
              && (reply.Answered? && reply.content != "" ==> r == reply.content)
              && (reply.Answered? && reply.content == "" ==> r == EMPTY_WARNING)
              && (reply.Raised? ==> r == if IsTimeout(reply.message) then TIMEOUT_ERROR else CALL_ERROR)
  {
    if apiKey.GetOr("") == "" then NO_KEY_ERROR
    else if !clientCreated then CLIENT_ERROR
    else match reply
      case Answered(content) => if content != "" then content else EMPTY_WARNING
      case Raised(message) => if IsTimeout(message) then TIMEOUT_ERROR else CALL_ERROR
  }

  /** Every failure of `call_llm` carries the error tag; the empty-answer warning does not. */
  lemma CallLlmTags(apiKey: Option<string>, clientCreated: bool, reply: LlmReply)
    ensures !(apiKey.GetOr("") != "" && clientCreated && reply.Answered?) ==>
              StartsWith(CallLlm(apiKey, clientCreated, reply), ERROR_TAG)
    ensures !Contains(EMPTY_WARNING, ERROR_TAG)
  {
    PrefixOfAppend(ERROR_TAG, " No Jina API key found. Skipping commentary generation.");
    PrefixOfAppend(ERROR_TAG, " Failed to create Jina client.");
    PrefixOfAppend(ERROR_TAG, " Jina DeepSearch timed out while generating commentary."
                              + " Try again or shorten the input.");
    PrefixOfAppend(ERROR_TAG, " Jina call failed. See console for details.");
    WarningUntagged();
  }

  /** The warning has a bracket only at its start, where it reads "[LLM W", so the error tag is not in it. */
  lemma WarningUntagged()
    ensures !Contains(EMPTY_WARNING, ERROR_TAG)
  {
    var rest := " Jina call succeeded" + " but no text" + " was returned.";
    assert EMPTY_WARNING == WARNING_TAG + rest;
    assert '[' !in " Jina call succeeded" && '[' !in " but no text" && '[' !in " was returned.";
    assert '[' !in rest;
    forall i | 0 <= i <= |EMPTY_WARNING|
      ensures !OccursAt(EMPTY_WARNING, ERROR_TAG, i)
    {
      if i + |ERROR_TAG| <= |EMPTY_WARNING| {
        var window := EMPTY_WARNING[i..i + |ERROR_TAG|];
        assert window[0] == EMPTY_WARNING[i] && window[5] == EMPTY_WARNING[i + 5];
        if i < |WARNING_TAG| {
          assert EMPTY_WARNING[i] == WARNING_TAG[i] && EMPTY_WARNING[5] == WARNING_TAG[5];
        } else {
          assert EMPTY_WARNING[i] == rest[i - |WARNING_TAG|];
        }
      }
    }
  }

  /** The request `summarize_text` sends: the length, the target, and at most the first 60000 characters. */
  function SummaryPrompt(text: string, maxChars: nat): (p: string)
    ensures EndsWith(p, Take(text, 60000))
  {
    var p := "The following cricket commentary is too long (" + NatToString(|text|) + " chars). "
             + "Compress it to under " + NatToString(maxChars) + " characters while preserving the flow and key events. "
             + "Keep the tone exciting and professional. Do not remove the end."
             + "\n\nTEXT:\n";
    assert (p + Take(text, 60000))[|p|..] == Take(text, 60000);
    p + Take(text, 60000)
  }

  /**
   * `summarize_text`: `reply` is the model's answer to `SummaryPrompt(text,
   * maxChars)`. A text within the limit comes back untouched; without a key
   * it is chopped to the limit; an empty answer or an exception hands the
   * text back.
   */
  function SummarizeText(text: string, maxChars: nat, apiKey: Option<string>, reply: string -> LlmReply): (r: string)
    ensures |text| <= maxChars ==> r == text
    ensures |text| > maxChars && apiKey.GetOr("") == "" ==> |r| == maxChars && StartsWith(text, r)
    ensures |text| > maxChars && apiKey.GetOr("") != "" ==>
              var answer := reply(SummaryPrompt(text, maxChars));
              && (answer.Answered? && answer.content != "" ==> r == answer.content)
              && (answer.Raised? || answer.content == "" ==> r == text)
  {
    if |text| <= maxChars then text
    else if apiKey.GetOr("") == "" then Take(text, maxChars)
    else
      match reply(SummaryPrompt(text, maxChars))
      case Answered(content) => if content != "" then content else text
      case Raised(_) => text
  }

  /** Whatever happens, the summarizer returns either its input, a prefix of it, or the model's non-empty answer. */
  lemma SummarizeOutcomes(text: string, maxChars: nat, apiKey: Option<string>, reply: string -> LlmReply)
    ensures var r := SummarizeText(text, maxChars, apiKey, reply);
            || StartsWith(text, r)
            || (r != "" && reply(SummaryPrompt(text, maxChars)) == Answered(r))
  {
    assert StartsWith(text, text);
  }
}
