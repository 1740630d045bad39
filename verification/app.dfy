/**
 * The web front end's processing record (app.py): progress updates, the
 * transitions of a pipeline run, the reset on upload, and the chat answer
 * with error reports replaced by an apology. The pipeline and the model are
 * inputs.
 */
module App {
  import opened Optional
  import opened Text
  import Llm
  import CricketServer

  datatype Status = Idle | Processing | Completed | Error

  /**
   * `processing_state`. `hasScorecard` is the key `/process` adds; `None`
   * is its absence.
   */
  datatype State = State(
    status: Status,
    message: string,
    step: int,
    totalSteps: int,
    resultPath: Option<string>,
    logs: seq<string>,
    hasScorecard: Option<bool>)

  const TOTAL_STEPS := 7

  /** The record when the server starts. */
  const INITIAL := State(Idle, "Ready to start", 0, TOTAL_STEPS, None, [], None)

  /** The step counter is within its bounds. */
  predicate StepInRange(s: State) {
    0 <= s.step <= s.totalSteps
  }

  /** `update_progress`: show and log the message, and advance the step unless it is at the last one. */
  function UpdateProgress(s: State, msg: string): (t: State)
    ensures t.message == msg && t.logs == s.logs + [msg]
    ensures t.step == if s.step < s.totalSteps then s.step + 1 else s.step
    ensures t.status == s.status && t.totalSteps == s.totalSteps && t.resultPath == s.resultPath
    ensures t.hasScorecard == s.hasScorecard
    ensures StepInRange(s) ==> StepInRange(t)
  {
    var logged := s.(message := msg, logs := s.logs + [msg]);
    if s.step < s.totalSteps then logged.(step := s.step + 1) else logged
  }

  /** The record after a sequence of progress messages. */
  function Progress(s: State, msgs: seq<string>): State {
    if |msgs| == 0 then s else UpdateProgress(Progress(s, msgs[..|msgs| - 1]), msgs[|msgs| - 1])
  }

  /** From step 0, `n` messages reach step `min(n, total)`, and every message is logged in order. */
  lemma {:induction false} ProgressSteps(s: State, msgs: seq<string>)
    requires s.step == 0 && s.totalSteps >= 0
    ensures Progress(s, msgs).step == if |msgs| < s.totalSteps then |msgs| else s.totalSteps
    ensures Progress(s, msgs).logs == s.logs + msgs
    ensures Progress(s, msgs).totalSteps == s.totalSteps && Progress(s, msgs).resultPath == s.resultPath
    ensures Progress(s, msgs).status == s.status
  {
    if |msgs| > 0 {
      ProgressSteps(s, msgs[..|msgs| - 1]);
      assert msgs[..|msgs| - 1] + [msgs[|msgs| - 1]] == msgs;
    }
  }

  /**
   * How `process_video` ended: its notifications and returned path, or an
   * exception that escaped it. The method catches every exception its stages
   * raise and returns `None` instead, so `Raised` stands only for one raised
   * outside that handler, by the progress callback for instance.
   */
  datatype Run =
    | Returned(notes: seq<string>, path: Option<string>)
    | Raised(notes: seq<string>, error: string)

  /** `processing_state.get("has_scorecard", True)`. */
  function HasScorecard(s: State): bool {
    s.hasScorecard.GetOr(true)
  }

  /** The record when a run starts. */
  function Started(s: State): (t: State)
    ensures t.status == Processing && t.step == 0 && t.logs == []
  {
    s.(status := Processing, step := 0, logs := [])
  }

  /**
   * `run_pipeline_task`: start, take the run's notifications as progress,
   * then record the outcome. An empty path is falsy. A run ends either
   * completed with its path and a full step count, or in error keeping the
   * old path. Every run that returns no path is reported as a failure of
   * the speech stage, including one whose stage raised and was caught inside
   * `process_video`; only an exception that escapes it is reported with
   * its message.
   */
  function RunPipelineTask(s: State, run: Run): (t: State)
    ensures t.logs == run.notes && t.totalSteps == s.totalSteps
    ensures t.status == Completed || t.status == Error
    ensures t.status == Completed <==> run.Returned? && run.path.GetOr("") != ""
    ensures t.status == Completed ==>
              t.resultPath == run.path && t.step == t.totalSteps && t.message == "Processing Complete!"
    ensures t.status == Error ==> t.resultPath == s.resultPath
    ensures run.Returned? && t.status == Error ==> t.message == "Pipeline failed at TTS stage."
    ensures run.Raised? ==> t.message == "Error: " + run.error
    ensures s.totalSteps >= 0 ==> StepInRange(t)
  {
    var started := Started(s);
    var progressed := Progress(started, run.notes);
    ProgressKeeps(started, run.notes);
    match run
    case Returned(_, path) =>
      if path.GetOr("") != "" then
        progressed.(status := Completed, resultPath := path, message := "Processing Complete!",
                    step := progressed.totalSteps)
      else progressed.(status := Error, message := "Pipeline failed at TTS stage.")
    case Raised(_, error) => progressed.(status := Error, message := "Error: " + error)
  }

  /** Progress messages log themselves and leave the status, the total and the path alone. */
  lemma {:induction false} ProgressKeeps(s: State, msgs: seq<string>)
    ensures Progress(s, msgs).logs == s.logs + msgs
    ensures Progress(s, msgs).totalSteps == s.totalSteps && Progress(s, msgs).resultPath == s.resultPath
    ensures Progress(s, msgs).status == s.status
    ensures StepInRange(s) ==> StepInRange(Progress(s, msgs))
  {
    if |msgs| > 0 {
      ProgressKeeps(s, msgs[..|msgs| - 1]);
      assert msgs[..|msgs| - 1] + [msgs[|msgs| - 1]] == msgs;
    }
  }

  /** A failed run leaves the step at the number of notifications, capped at the total. */
  lemma FailedRunSteps(s: State, run: Run)
    requires s.totalSteps >= 0
    requires RunPipelineTask(s, run).status == Error
    ensures RunPipelineTask(s, run).step == if |run.notes| < s.totalSteps then |run.notes| else s.totalSteps
  {
    ProgressSteps(Started(s), run.notes);
  }

  /** `/process`: remember the scorecard choice for the next run. */
  function RequestProcessing(s: State, hasScorecard: bool): (t: State)
    ensures HasScorecard(t) == hasScorecard
    ensures t == s.(hasScorecard := Some(hasScorecard))
  {
    s.(hasScorecard := Some(hasScorecard))
  }

  /** `/upload`: the record is replaced wholesale, which also drops the scorecard choice. */
  function Upload(s: State): (t: State)
    ensures t.status == Idle && t.step == 0 && t.totalSteps == TOTAL_STEPS && t.resultPath.None? && t.logs == []
    ensures t.message == "File uploaded"
  {
    State(Idle, "File uploaded", 0, TOTAL_STEPS, None, [], None)
  }

  /** A scorecard choice made before an upload is forgotten: the next run reads a scorecard. */
  lemma UploadForgetsChoice(s: State, hasScorecard: bool)
    ensures HasScorecard(Upload(RequestProcessing(s, hasScorecard)))
    ensures HasScorecard(RequestProcessing(Upload(s), hasScorecard)) == hasScorecard
  {
  }

  // ---------------------------------------------------------------------------
  // Chat

  const APOLOGY := "I'm having trouble" + " connecting to the" + " analysis server." + " Please try again."

  /** The answer shown to the user: an error report becomes the apology. */
  function MaskAnswer(answer: string): (r: string)
    ensures Contains(answer, Llm.ERROR_TAG) ==> r == APOLOGY
    ensures !Contains(answer, Llm.ERROR_TAG) ==> r == answer
  {
    if Contains(answer, Llm.ERROR_TAG) then APOLOGY else answer
  }

  /** The apology has no bracket, so it is never itself an error report. */
  lemma ApologyUntagged()
    ensures !Contains(APOLOGY, Llm.ERROR_TAG)
  {
    assert '[' !in "I'm having trouble" && '[' !in " connecting to the";
    assert '[' !in " analysis server." && '[' !in " Please try again.";
    assert '[' !in APOLOGY;
    forall i | 0 <= i <= |APOLOGY|
      ensures !OccursAt(APOLOGY, Llm.ERROR_TAG, i)
    {
      if i + |Llm.ERROR_TAG| <= |APOLOGY| {
        assert APOLOGY[i..i + |Llm.ERROR_TAG|][0] == APOLOGY[i];
      }
    }
  }

  /** No chat answer shown to the user carries the error tag. */
  lemma MaskedAnswersUntagged(answer: string)
    ensures !Contains(MaskAnswer(answer), Llm.ERROR_TAG)
  {
    ApologyUntagged();
  }

  /**
   * `/chat`: the context at the timestamp, the analyst prompt, the model's
   * answer, masked. `showTimestamp` renders the float in the prompt.
   */
  function Chat(question: string, timestamp: real, file: CricketServer.TimelineFile,
                dumps: CricketServer.EventObject -> string, showSeconds: real -> string,
                showTimestamp: real -> string, callLlm: string -> string): (r: string)
    ensures !Contains(r, Llm.ERROR_TAG)
    ensures r == APOLOGY || r == callLlm(ChatPrompt(question, showTimestamp(timestamp),
                                                     CricketServer.MatchContext(file, timestamp, dumps, showSeconds)))
  {
    MaskedAnswersUntagged(callLlm(ChatPrompt(question, showTimestamp(timestamp),
                                             CricketServer.MatchContext(file, timestamp, dumps, showSeconds))));
    MaskAnswer(callLlm(ChatPrompt(question, showTimestamp(timestamp),
                                  CricketServer.MatchContext(file, timestamp, dumps, showSeconds))))
  }

  /** The analyst prompt around the context and the question. */
  function ChatPrompt(question: string, timestamp: string, context: string): string {
    "You are an expert Cricket Analyst explaining the match to a viewer.\n"
    + "CONTEXT (Events happening around " + timestamp + "s):\n" + context + "\n\n"
    + "USER QUESTION: " + question + "\n\n"
    + "TASK: Answer the user's question based strictly on the provided context. "
    + "Keep it short (max 2 sentences) and helpful. If the context doesn't have the answer, say you are analyzing live data."
  }
}
