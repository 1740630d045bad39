/**
 * The orchestration of one video (commentator.py): the score lookup handed
 * to the timeline, the one-time model load, the gate on the commentary
 * call's error tag, the length governor that summarizes and then truncates
 * the narration, and the two-attempt audio merge. Every external step (the
 * language model, speech synthesis, ffmpeg) is an input.
 */
module Commentator {
  import opened Optional
  import opened Text
  import Inference
  import Ocr
  import Timeline
  import Llm

  // ---------------------------------------------------------------------------
  // Model loading

  /** The part of the commentator's state that `load_models_lazy` touches. */
  datatype ModelsState = ModelsState(loaded: bool, loads: nat)

  const FRESH := ModelsState(false, 0)

  /** `load_models_lazy`: load every model once, then do nothing. */
  function LoadModelsLazy(s: ModelsState): (t: ModelsState)
    ensures t.loaded
    ensures s.loaded ==> t == s
    ensures !s.loaded ==> t.loads == s.loads + 1
  {
    if s.loaded then s else ModelsState(true, s.loads + 1)
  }

  function LoadTimes(s: ModelsState, n: nat): ModelsState {
    if n == 0 then s else LoadModelsLazy(LoadTimes(s, n - 1))
  }

  /** However many videos a commentator processes, its models are loaded exactly once. */
  lemma {:induction false} LoadedOnce(n: nat)
    requires n > 0
    ensures LoadTimes(FRESH, n) == ModelsState(true, 1)
  {
    if n > 1 {
      LoadedOnce(n - 1);
    }
  }

  // ---------------------------------------------------------------------------
  // Score lookup

  /**
   * `{e["frame"]: e for e in score_results if e.get("frame")}`: the entries
   * by frame name, skipping nameless ones; a later entry for the same name
   * replaces an earlier one.
   */
  function ScoreByFrame(entries: seq<Ocr.ScoreEntry>): (m: map<string, Ocr.FrameAnalysis>)
    ensures forall name :: name in m <==> name != "" && exists i :: 0 <= i < |entries| && entries[i].frame == name
  {
    if |entries| == 0 then map[]
    else
      var init := ScoreByFrame(entries[..|entries| - 1]);
      var last := entries[|entries| - 1];
      assert forall i :: 0 <= i < |entries| - 1 ==> entries[..|entries| - 1][i] == entries[i];
      if last.frame == "" then init else init[last.frame := last.analysis]
  }

  /** The value kept for a name is that of the last entry with the name. */
  lemma {:induction false} ScoreByFrameLast(entries: seq<Ocr.ScoreEntry>, i: int)
    requires 0 <= i < |entries| && entries[i].frame != ""
    requires forall j :: i < j < |entries| ==> entries[j].frame != entries[i].frame
    ensures ScoreByFrame(entries)[entries[i].frame] == entries[i].analysis
  {
    var n := |entries|;
    if i < n - 1 {
      var init := entries[..n - 1];
      assert init[i] == entries[i];
      assert forall j :: i < j < |init| ==> init[j] == entries[j];
      ScoreByFrameLast(init, i);
    }
  }

  /** `score_by_frame`: empty when the video has no scorecard. */
  function ScoreTableOf(hasScorecard: bool, entries: seq<Ocr.ScoreEntry>): (t: Timeline.ScoreTable)
    ensures !hasScorecard ==> t == Some(map[])
    ensures hasScorecard ==> t == Some(ScoreByFrame(entries))
  {
    if hasScorecard then Some(ScoreByFrame(entries)) else Some(map[])
  }

  /** Without a scorecard no event carries a score. */
  lemma NoScorecardNoScores(entries: seq<Ocr.ScoreEntry>, ranges: seq<Inference.ClipResult>,
                            fr: Inference.FrameResult)
    requires forall k :: 0 <= k < |ranges| ==> Timeline.HasWindow(ranges[k])
    ensures var e := Timeline.EventOf(ranges, ScoreTableOf(false, entries), fr);
            e.scoreOcrText.None? && e.scoreParsed.None?
  {
  }

  // ---------------------------------------------------------------------------
  // The length governor

  /** Above this length the narration is summarized. */
  const SUMMARY_THRESHOLD := 9500
  /** The length each summary is asked to fit. */
  const SUMMARY_TARGET := 9000
  /** Above this length the narration is cut. */
  const HARD_LIMIT := 9800
  /** At most this many summaries are asked for. */
  const MAX_ITERATIONS := 3

  /** A summary the loop keeps: non-empty, strictly shorter, and not an error report. */
  predicate Accepted(current: string, summary: string) {
    summary != "" && |summary| < |current| && !Contains(summary, Llm.ERROR_TAG)
  }

  /**
   * The summarizing loop from iteration `iter`: `summarize(i, text)` is the
   * answer of `summarize_text(text, max_chars=9000)` on attempt `i`. The
   * result is the text after the loop and the number of summaries asked for.
   */
  function Summarized(current: string, iter: nat, summarize: (nat, string) -> string): (r: (string, nat))
    requires iter <= MAX_ITERATIONS
    ensures r.1 <= MAX_ITERATIONS - iter
    ensures |r.0| <= |current|
    ensures r.1 == 0 <==> |current| <= SUMMARY_THRESHOLD || iter == MAX_ITERATIONS
    ensures r.1 == 0 ==> r.0 == current
    ensures r.0 == current || (Accepted(current, r.0) && |r.0| < |current|)
    ensures |r.0| > SUMMARY_THRESHOLD ==>
              iter + r.1 == MAX_ITERATIONS || (r.1 > 0 && !Accepted(r.0, summarize(iter + r.1 - 1, r.0)))
    decreases MAX_ITERATIONS - iter
  {
    if |current| <= SUMMARY_THRESHOLD || iter == MAX_ITERATIONS then (current, 0)
    else
      var summary := summarize(iter, current);
      if !Accepted(current, summary) then (current, 1)
      else
        var rest := Summarized(summary, iter + 1, summarize);
        (rest.0, rest.1 + 1)
  }

  /**
   * The hard cut: the first 9500 characters, then up to and including the
   * last '.' when one occurs after the first character.
   */
  function HardTruncate(text: string): (r: string)
    ensures StartsWith(text, r) && |r| <= SUMMARY_THRESHOLD
    ensures var cut := Take(text, SUMMARY_THRESHOLD);
            && (RFind(cut, '.') > 0 ==> |r| == RFind(cut, '.') + 1 && r[|r| - 1] == '.')
            && (RFind(cut, '.') <= 0 ==> r == cut)
  {
    var cut := Take(text, SUMMARY_THRESHOLD);
    var dot := RFind(cut, '.');
    if dot > 0 then
      assert StartsWith(text, cut[..dot + 1]) by {
        assert text[..dot + 1] == cut[..dot + 1];
      }
      cut[..dot + 1]
    else cut
  }

  /** After a cut at a full stop, nothing kept from the first 9500 characters is dropped except text after the last '.'. */
  lemma TruncateAtLastStop(text: string)
    requires |HardTruncate(text)| < |Take(text, SUMMARY_THRESHOLD)|
    ensures var r := HardTruncate(text);
            && r[|r| - 1] == '.'
            && forall j :: |r| <= j < |Take(text, SUMMARY_THRESHOLD)| ==> text[j] != '.'
  {
  }

  /** The narration that goes to speech synthesis. */
  function Governed(commentary: string, summarize: (nat, string) -> string): (r: string)
    ensures |r| <= HARD_LIMIT
    ensures |commentary| <= SUMMARY_THRESHOLD ==> r == commentary
    ensures var post := Summarized(commentary, 0, summarize).0;
            && (|post| <= HARD_LIMIT ==> r == post)
            && (|post| > HARD_LIMIT ==> StartsWith(post, r) && |r| <= SUMMARY_THRESHOLD)
  {
    var post := Summarized(commentary, 0, summarize).0;
    if |post| > HARD_LIMIT then HardTruncate(post) else post
  }

  /**
   * The governor's loop as the source runs it, recording each text it asks
   * to be summarized: the first is the commentary, and each later one is the
   * accepted, strictly shorter summary of the one before.
   */
  method SummarizeLoop(commentary: string, summarize: (nat, string) -> string)
    returns (current: string, requests: seq<string>)
    ensures current == Summarized(commentary, 0, summarize).0
    ensures |requests| == Summarized(commentary, 0, summarize).1
    ensures |requests| > 0 ==> requests[0] == commentary
    ensures forall k :: 0 <= k < |requests| ==> |requests[k]| > SUMMARY_THRESHOLD
    ensures forall k :: 0 < k < |requests| ==>
              requests[k] == summarize(k - 1, requests[k - 1]) && |requests[k]| < |requests[k - 1]|
  {
    current := commentary;
    var iteration := 0;
    requests := [];
    while |current| > SUMMARY_THRESHOLD && iteration < MAX_ITERATIONS
      invariant 0 <= iteration <= MAX_ITERATIONS && |requests| == iteration
      invariant Summarized(commentary, 0, summarize) ==
                (Summarized(current, iteration, summarize).0, Summarized(current, iteration, summarize).1 + iteration)
      invariant iteration == 0 ==> current == commentary
      invariant iteration > 0 ==> current == summarize(iteration - 1, requests[iteration - 1])
      invariant iteration > 0 ==> |current| < |requests[iteration - 1]|
      invariant SentInTurn(commentary, requests, summarize)
    {
      SentInTurnExtend(commentary, requests, current, summarize);
      requests := requests + [current];
      var summary := summarize(iteration, current);
      if !Accepted(current, summary) {
        break;
      }
      current := summary;
      iteration := iteration + 1;
    }
  }

  /**
   * `requests` are the texts the loop sent, in order: the commentary first,
   * each later one the shorter summary of the one before, all of them over
   * the threshold.
   */
  ghost predicate SentInTurn(commentary: string, requests: seq<string>, summarize: (nat, string) -> string) {
    && (|requests| > 0 ==> requests[0] == commentary)
    && (forall k :: 0 <= k < |requests| ==> |requests[k]| > SUMMARY_THRESHOLD)
    && (forall k :: 0 < k < |requests| ==>
          requests[k] == summarize(k - 1, requests[k - 1]) && |requests[k]| < |requests[k - 1]|)
  }

  /** Sending the next text keeps the requests in turn. */
  lemma SentInTurnExtend(commentary: string, requests: seq<string>, next: string, summarize: (nat, string) -> string)
    requires SentInTurn(commentary, requests, summarize) && |next| > SUMMARY_THRESHOLD
    requires |requests| == 0 ==> next == commentary
    requires |requests| > 0 ==>
               next == summarize(|requests| - 1, requests[|requests| - 1]) && |next| < |requests[|requests| - 1]|
    ensures SentInTurn(commentary, requests + [next], summarize)
  {
    var all := requests + [next];
    forall k | 0 < k < |all|
      ensures all[k] == summarize(k - 1, all[k - 1]) && |all[k]| < |all[k - 1]|
    {
      assert all[k - 1] == requests[k - 1];
    }
  }

  /** The whole governor: the loop, then the cut. */
  method GovernLength(commentary: string, summarize: (nat, string) -> string)
    returns (final: string, requests: seq<string>)
    ensures final == Governed(commentary, summarize)
    ensures |requests| <= MAX_ITERATIONS
    ensures |commentary| <= SUMMARY_THRESHOLD ==> |requests| == 0
  {
    var current;
    current, requests := SummarizeLoop(commentary, summarize);
    if |current| > HARD_LIMIT {
      current := HardTruncate(current);
    }
    final := current;
  }

  /**
   * The summarizer `process_video` calls: `summarize_text(text,
   * max_chars=9000)`, where `replies(i)` is the model's answer on attempt `i`.
   */
  function LlmSummarizer(apiKey: Option<string>, replies: nat -> (string -> Llm.LlmReply)): (nat, string) -> string {
    (i: nat, t: string) => Llm.SummarizeText(t, SUMMARY_TARGET, apiKey, replies(i))
  }

  /**
   * The governor over the language model's summarizer: every text after the
   * first is what `summarize_text` made of the one before with a target of
   * 9000 characters.
   */
  method GovernWithLlm(commentary: string, apiKey: Option<string>, replies: nat -> (string -> Llm.LlmReply))
    returns (final: string, requests: seq<string>)
    ensures final == Governed(commentary, LlmSummarizer(apiKey, replies))
    ensures |requests| <= MAX_ITERATIONS
    ensures |requests| > 0 ==> requests[0] == commentary
    ensures forall k :: 0 < k < |requests| ==>
              requests[k] == Llm.SummarizeText(requests[k - 1], SUMMARY_TARGET, apiKey, replies(k - 1))
  {
    var current;
    current, requests := SummarizeLoop(commentary, LlmSummarizer(apiKey, replies));
    if |current| > HARD_LIMIT {
      current := HardTruncate(current);
    }
    final := current;
  }

  /**
   * Without an API key, a long commentary free of the error tag is chopped by
   * the summarizer to its first 9000 characters, which the governor keeps.
   */
  lemma KeylessGovernorKeepsTarget(commentary: string, replies: nat -> (string -> Llm.LlmReply))
    requires |commentary| > SUMMARY_THRESHOLD && !Contains(commentary, Llm.ERROR_TAG)
    ensures Governed(commentary, LlmSummarizer(None, replies)) == Take(commentary, SUMMARY_TARGET)
    ensures Summarized(commentary, 0, LlmSummarizer(None, replies)).1 == 1
  {
    var summarize := LlmSummarizer(None, replies);
    var summary := summarize(0, commentary);
    assert summary == Take(commentary, SUMMARY_TARGET);
    if Contains(summary, Llm.ERROR_TAG) {
      ContainsPrefix(commentary, summary, Llm.ERROR_TAG);
    }
    assert Accepted(commentary, summary);
    assert Summarized(summary, 1, summarize) == (summary, 0);
  }

  /** Text the governor has brought to 9500 characters or fewer goes through again untouched and without a summary. */
  lemma GovernedShortIsFixed(commentary: string, summarize: (nat, string) -> string, again: (nat, string) -> string)
    requires |Governed(commentary, summarize)| <= SUMMARY_THRESHOLD
    ensures Governed(Governed(commentary, summarize), again) == Governed(commentary, summarize)
    ensures Summarized(Governed(commentary, summarize), 0, again).1 == 0
  {
  }

  /**
   * The governor is not idempotent above 9500 characters: when the first
   * summary is refused, a text of 9501 to 9800 characters is kept as it is,
   * and running the governor on that output asks for a summary again.
   */
  lemma GovernedNotIdempotent(commentary: string, summarize: (nat, string) -> string)
    requires SUMMARY_THRESHOLD < |commentary| <= HARD_LIMIT
    requires !Accepted(commentary, summarize(0, commentary))
    ensures Governed(commentary, summarize) == commentary
    ensures Summarized(Governed(commentary, summarize), 0, summarize).1 == 1
  {
  }

  // ---------------------------------------------------------------------------
  // Merging and the pipeline's tail

  /** `merge_audio_video`: the mixing command, and the plain replacement only when mixing fails. */
  function Merge(mixSucceeds: bool, fallbackSucceeds: bool): (r: (bool, nat))
    ensures r.0 <==> mixSucceeds || fallbackSucceeds
    ensures r.1 == if mixSucceeds then 1 else 2
  {
    if mixSucceeds then (true, 1) else if fallbackSucceeds then (true, 2) else (false, 2)
  }

  /**
   * The part of `process_video` after the commentary call: the error-tag
   * gate, the governor, speech synthesis (`synthesize` says whether it
   * succeeded on the final text) and the merge; `output` is the final
   * video's path.
   */
  function Narrate(commentary: string, summarize: (nat, string) -> string, synthesize: string -> bool,
                   mixSucceeds: bool, fallbackSucceeds: bool, output: string): (r: Option<string>)
    ensures Contains(commentary, Llm.ERROR_TAG) ==> r.None?
    ensures r.Some? <==>
              && !Contains(commentary, Llm.ERROR_TAG)
              && synthesize(Governed(commentary, summarize))
              && (mixSucceeds || fallbackSucceeds)
    ensures r.Some? ==> r.value == output
  {
    if Contains(commentary, Llm.ERROR_TAG) then None
    else
      var text := Governed(commentary, summarize);
      if !synthesize(text) then None
      else if Merge(mixSucceeds, fallbackSucceeds).0 then Some(output)
      else None
  }

  /** Every failure of the commentary call stops the pipeline; the empty-answer warning does not. */
  lemma CallFailureStops(apiKey: Option<string>, clientCreated: bool, reply: Llm.LlmReply,
                         summarize: (nat, string) -> string, synthesize: string -> bool,
                         mixSucceeds: bool, fallbackSucceeds: bool, output: string)
    ensures !(apiKey.GetOr("") != "" && clientCreated && reply.Answered?) ==>
              Narrate(Llm.CallLlm(apiKey, clientCreated, reply), summarize, synthesize,
                      mixSucceeds, fallbackSucceeds, output).None?
    ensures !Contains(Llm.EMPTY_WARNING, Llm.ERROR_TAG)
  {
    Llm.CallLlmTags(apiKey, clientCreated, reply);
    var r := Llm.CallLlm(apiKey, clientCreated, reply);
    if !(apiKey.GetOr("") != "" && clientCreated && reply.Answered?) {
      assert OccursAt(r, Llm.ERROR_TAG, 0);
    }
  }

  /**
   * `process_video` from the step results: the frames and clips the models
   * saw, the OCR entries, and the external calls. `stageFails` says that one
   * of the stages that read and write files (the splitter, the OCR batch,
   * writing the timeline) raised: the method catches every exception,
   * reports it and returns `None`. The summaries come from `summarize_text`
   * with a target of 9000 characters.
   */
  function ProcessVideo(stageFails: bool, hasScorecard: bool, entries: seq<Ocr.ScoreEntry>,
                        frames: seq<Inference.FrameResult>, clips: seq<Inference.ClipResult>,
                        header: string, task: string, fmt1: real -> string, fmt2: real -> string,
                        callLlm: string -> string, apiKey: Option<string>,
                        summaryReplies: nat -> (string -> Llm.LlmReply),
                        synthesize: string -> bool, mixSucceeds: bool, fallbackSucceeds: bool,
                        output: string): (r: Option<string>)
    ensures stageFails ==> r.None?
    ensures var timeline := Timeline.BuildTimeline(frames, clips, ScoreTableOf(hasScorecard, entries));
            var commentary := callLlm(Llm.BuildPrompt(timeline, header, task, fmt1, fmt2));
            && (r.Some? <==> !stageFails && !Contains(commentary, Llm.ERROR_TAG)
                             && synthesize(Governed(commentary, LlmSummarizer(apiKey, summaryReplies)))
                             && (mixSucceeds || fallbackSucceeds))
            && (r.Some? ==> r.value == output)
  {
    if stageFails then None
    else
      var timeline := Timeline.BuildTimeline(frames, clips, ScoreTableOf(hasScorecard, entries));
      var commentary := callLlm(Llm.BuildPrompt(timeline, header, task, fmt1, fmt2));
      Narrate(commentary, LlmSummarizer(apiKey, summaryReplies), synthesize, mixSucceeds, fallbackSucceeds, output)
  }
}
