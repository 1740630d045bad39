# Cricket commentary pipeline — a Dafny model

This project models the core of a pipeline that turns a cricket video into
spoken live commentary. The pipeline samples frames and six-second clips
from the video. It reads the broadcast score overlay with an OCR service
and parses it with a fixed pattern. Vision models label each frame and clip.
The pipeline then builds a time-ordered event timeline and compiles it into
a prompt with a word budget for each event. A language model writes the
commentary, and a length governor summarizes or cuts it before speech
synthesis and the final audio merge. A small web front end keeps a progress
record and answers chat questions from the saved timeline.

Every external party is an input to the model:
- the OCR service, the vision models and the language model;
- speech synthesis, ffmpeg and the file system;
- the environment variables.

Pure functions state what the code computes, and the lemmas prove the
properties the code promises. One Dafny module models each source file:

| module | models |
|---|---|
| `Config` | `config.py`: sampling constants, retry settings, the OCR key list |
| `VideoProcessing` | `video_processing.py`: frame listing and subsampling, frame index from a file name |
| `Inference` | `inference.py`: per-frame records with gated classifiers, per-clip records with windows |
| `Ocr` | `ocr.py`: text normalisation, the overlay pattern, `parse_score_text`, the retrying service call, the crop rule, the batch |
| `Timeline` | `timeline.py`: `build_timeline` |
| `Llm` | `llm.py`: the score line, the commentary prompt and its pacing, `call_llm`'s error tags, `summarize_text` |
| `Commentator` | `commentator.py`: the lazy model load, the score lookup, the error-tag gate, the length governor, the merge, `process_video` |
| `CricketServer` | `cricket_server.py`: `get_match_context_at_time`, `get_logs` |
| `App` | `app.py`: the progress record, `run_pipeline_task`, upload and process, the chat answer |
| `VerifyTts` | `verify_tts_impl.py`: `mask_key` |

`Optional`, `Text`, `Lists` and `Sorting` are shared helpers:
- an option type;
- Python's string operations (`strip`, `rfind`, `replace`, `join`, `str(n)`, `int(s)`);
- generic filter and map over sequences;
- a stable insertion sort over a total preorder.

Sorting is stated as three things: the output is sorted, it is a permutation
of the input, and it is stable. Stability is stated through `Sorting.Peers`:
the elements equivalent to any given element keep their relative order.
Python's `sorted` and `list.sort` are stable, and the model keeps that.

Some behaviour of the code that a reader might not expect, kept as it is:
- The word budget cuts toward zero: `int(duration * 2.5)` gives 9 words for a 3.9-second gap (`Llm.WordBudget`).
- `check_system.py:28` tests the parser on the overlay `IND 240/3 (45.2) vs AUS` and expects team 1 to be `IND`. That line has no `Toss`, so the parser reads no score from it (`Ocr.ShortLineUnparsed`). The full broadcast line is parsed (`Ocr.FullLineParsed`).
- Running the length governor twice can give a different result than running it once. A 9501–9800 character commentary whose summary is refused is passed through unchanged. Governing that output again asks for another summary (`Commentator.GovernedNotIdempotent`).
- `FRAME_SUBSAMPLE` is 4, although its comment at `config.py:54` speaks of every 3 seconds.
- Frame indices are the number in the name minus one; the docstring at `video_processing.py:42-43` says the splitter numbers from 1. The OpenCV splitter (`ffmpeg.py:88`) names its first frame `frame_000000.jpg`, which gets index -1 (`VideoProcessing.ZeroFrameIndex`). A non-negative index is therefore not guaranteed.
- A run that returns no path is always reported as "Pipeline failed at TTS stage.", whichever stage failed.

## Model

| member | source | states |
|---|---|---|
| Config.OcrKeys | config.py:67-82 | The key list is never empty. The primary key comes first when it is usable (non-empty and longer than 10 characters). A usable secondary key occurs twice, at the end. The fallback key is used alone when neither is usable. Otherwise every key is usable and there are 1, 2 or 3 of them. |
| Config.UnsetKeysUsePlaceholder | config.py:68-74 | With neither variable set, the 21-character placeholder passes the length filter and is the only key. |
| VerifyTts.MaskKey | verify_tts_impl.py:6-8 | A missing or empty key shows "None", and a key of at most 8 characters shows four stars. A longer key keeps its length, its first four and its last four characters, and has stars in between. |
| VerifyTts.MaskHidesMiddle | verify_tts_impl.py:8 | Two long keys with equal length and equal ends mask identically: nothing of the middle leaks. |
| VideoProcessing.BaseName | timeline.py:26-27 | `Path.name` has no '/' and is never ".". |
| VideoProcessing.BaseNameOfJoin | inference.py:117 | The name of a frame path built as directory + "/" + entry is the entry itself, so the timeline finds the OCR entry filed under that name. |
| VideoProcessing.SearchFrameFrom | video_processing.py:45 | The search returns the frame number at the first position where `frame_<digits>.jpg` occurs, and nothing when the pattern occurs nowhere. |
| VideoProcessing.FrameNumberOfToken | video_processing.py:45 | The pattern reads the digits of `frame_<d>.jpg` as the value of `d`. |
| VideoProcessing.FrameIndexOfDigits | video_processing.py:40-48 | For `frame_<d>.jpg` the index is the value of `d` minus one. |
| VideoProcessing.FrameIndexOfFrameName | video_processing.py:40-48 | Round trip: a frame named with number N, zero-padded to any width, gets index N - 1. |
| VideoProcessing.ZeroFrameIndex | video_processing.py:42-48 | A name numbered 0 (any padding) gets index -1: the minus-one assumes numbering from 1. |
| VideoProcessing.FrameFiles | video_processing.py:34 | Exactly the listing's entries that match `frame_*.jpg`. |
| VideoProcessing.LexLeIsTotalPreorder | video_processing.py:34 | Code-point string order, as Python compares file names, is total and transitive. |
| VideoProcessing.AllFrames | video_processing.py:34 | The frame files in name order: sorted, and a permutation of the matching entries. |
| VideoProcessing.EveryNth | video_processing.py:37 | `s[::step]`: element j is `s[j*step]`, and there are ceil(\|s\|/step) of them. |
| VideoProcessing.SampledFrames | video_processing.py:29-37 | A step of at most 1 gives all sorted frames. A larger step gives every step-th sorted frame, starting with the first and covering the whole list. |
| Inference.DetectedNames | inference.py:46-63 | The set holds exactly the lower-cased class names of the detections. |
| Inference.Fires | inference.py:63-68 | A trigger fires exactly when some detection's lower-cased class name is in the trigger's class list. |
| Inference.Gate | inference.py:80-113 | A classifier's answer is recorded only when its trigger fired, and "no_detection" at confidence 0 otherwise. |
| Inference.TimeOfIndex | inference.py:41 | The time of a frame is its index divided by the frame rate. |
| Inference.FrameResultOf | inference.py:39-123 | The record carries the index parsed from the path and a time equal to that index (one frame a second). Each classifier's answer is kept exactly when some detection names one of its classes, and is "no_detection" otherwise. |
| Inference.ResultOfView | inference.py:115-123 | A readable frame's record carries its full path. |
| Inference.FramesOf | inference.py:33-125 | The records' paths are exactly the readable sampled files, in order, and each record is the one its own file yields. Unreadable frames are skipped. |
| Inference.ClipIndexOfClipName | inference.py:136-141 | Round trip: a clip named `clip_` + zero-padded n + `.mp4` is a clip file with index n. |
| Inference.ClipIndexOfDigits | inference.py:136-141 | `clip_<d>.mp4` gets the value of its digits as its index. |
| Inference.ClipWindow | inference.py:143-144 | A clip without an index has neither start nor end. Otherwise the window starts at index × 6 seconds and lasts 6 seconds. |
| Inference.ClipWindowsDisjoint | inference.py:143-144 | Windows of distinct indices are non-empty and disjoint, and consecutive indices are back to back. |
| Inference.ClipFiles | inference.py:130 | Exactly the listing's entries that match `clip_*.mp4`. |
| Inference.AllClips | inference.py:130 | The clip files sorted by name. |
| Inference.ClipRecord | inference.py:167-174 | A clip's record carries its name, path, name-derived index and window, and the model's answer. |
| Inference.RunOnClips | inference.py:128-176 | The records' names are the sorted clip files whose classification succeeded, in order. Every classifiable clip file appears, and each record is its file's record. |
| Timeline.ClipRanges | timeline.py:8-15 | Only clips with both window ends are kept. They are sorted by start, as a stable permutation of the windowed clips. |
| Timeline.ClipAt | timeline.py:19-24 | The first range, in start order, whose half-open window contains the time, and none exactly when no window contains it. |
| Timeline.ScoreEntryOf | timeline.py:28 | The entry filed under the name, or none when the table is missing or lacks the name. |
| Timeline.EventOf | timeline.py:18-42 | An event keeps the frame's time, path and model answers, and the clip containing its time. It carries the OCR text and parsed score of a successful analysis filed under the frame's name, and neither otherwise. |
| Timeline.BuildTimeline | timeline.py:3-45 | One event per frame. The events are sorted by time, as a stable permutation of the frames' events. |
| Timeline.EventsFromFrames | timeline.py:17-44 | Every timeline event is the event of one of the input frames. |
| Timeline.TimelineTimes | timeline.py:17-44 | The timeline's times are the frames' times, rearranged. |
| Timeline.AttachedClip | timeline.py:8-24 | An attached clip is one of the input clips, has a window, and contains the event's time. |
| Timeline.SingleClip | timeline.py:21-24 | A single clip [2, 8) is attached exactly to times t with 2 ≤ t < 8. |
| Ocr.Collapse | ocr.py:152 | Every run of whitespace becomes one space. The result is single-spaced and keeps the non-whitespace characters in order. |
| Ocr.Normalize | ocr.py:152 | The normalised text is single-spaced with no space at either end, and keeps the input's non-whitespace characters in order. |
| Ocr.StripKeeps | ocr.py:152 | Stripping keeps the non-whitespace text and the single spacing. |
| Ocr.CollapseSingleSpaced | ocr.py:152 | Collapsing single-spaced text changes nothing. |
| Ocr.NormalizeNormal | ocr.py:152 | Normal text is its own normal form. |
| Ocr.NormalizeIdempotent | ocr.py:152 | Normalising twice is normalising once. |
| Ocr.MatchAt | ocr.py:134-144 | Every match has well-shaped groups: 2–3 letter codes, digit runs, overs in `\d+(\.\d+)?` form, letter names. |
| Ocr.MatchNeedsToss | ocr.py:139 | Every match contains `Toss` in some letter case. |
| Ocr.Search | ocr.py:164 | The search returns the match at the first position where there is one, and none exactly when no position matches. |
| Ocr.NoTossNoMatch | ocr.py:139 | Text with no 't' in either case has no match anywhere. |
| Ocr.MatchRender | ocr.py:134-144 | The pattern reads back every well-shaped overlay in exactly the groups it was rendered from. |
| Ocr.ParseScoreText | ocr.py:147-194 | The raw text is the normal form of the input, and the bowling side's score is always empty. A score is read exactly when the pattern matches: two 2–3 letter codes, non-negative runs and wickets, and overs text. Otherwise every score field is empty. |
| Ocr.ParseRoundTrip | ocr.py:134-194 | Round trip: a rendered well-shaped overlay is parsed into its own groups' team codes, runs, wickets, overs and extra info. |
| Ocr.RenderMatches | ocr.py:134-152 | A rendered overlay is already normalised, and the search finds its groups. |
| Ocr.ParseOfMatch | ocr.py:164-194 | Normalised text that matches is parsed into the record of its groups. |
| Ocr.NoTossUnparsed | ocr.py:164-167 | Text without a 't' in either case yields only its raw text. |
| Ocr.ShortLineUnparsed | ocr.py:134-167 | `IND 240/3 (45.2) vs AUS` yields no score. |
| Ocr.FullLineParsed | ocr.py:134-194 | `IND 240/3 45.2/50 Toss AUS Kohli 85(92) Rahul 40(51) AUS` yields IND 240/3 in 45.2 overs, AUS bowling, max 50 overs, toss AUS, and both batters' runs and balls. |
| Ocr.BackoffDoubles | ocr.py:83-102 | Each pause is twice the one before it. |
| Ocr.CallVisionOcr | ocr.py:76-129 | No key fails at once without a request. Otherwise the call makes 1 to 5 requests and retries only after transient failures (an exception or a status other than 200 and 403). It stops early only at a non-transient reply, and its result is what the last reply means. Between requests it sleeps 1, 2, 4, ... seconds. |
| Ocr.AttemptFrom | ocr.py:85-127 | The loop from a given attempt: the same bounds and back-off, counted from that attempt. |
| Ocr.Retry | ocr.py:99-113 | A retry sleeps the attempt's back-off before the later attempts' pauses. |
| Ocr.AllTransient | ocr.py:85-113 | When every request fails transiently, the call makes five requests, sleeps 1, 2, 4 and 8 seconds, and fails. |
| Ocr.RateLimitStops | ocr.py:105-106 | A 403 ends the call after one request, naming only the key's first four characters. |
| Ocr.DoCropRule | ocr.py:256-265 | A frame is cropped exactly when its name has no frame number or the number is at least 40. |
| Ocr.DoCropOfFrameName | ocr.py:258-265 | The crop rule uses the number in the name, not the frame index: `frame_<d>.jpg` is cropped exactly when its index is at least 39. |
| Ocr.AnalyzeScoreFrame | ocr.py:199-229 | An image error or a failed call gives that error. A recognised text is kept, stripped, with its parsed record. |
| Ocr.AnalysisOf | ocr.py:204-229 | The same, for a given service result. |
| Ocr.RecognizedIsStripped | ocr.py:223 | The service's text is already stripped, so the second strip changes nothing. |
| Ocr.ProcessScoreFrames | ocr.py:234-273 | No usable first key gives no entries. Otherwise there is one entry per sampled frame, in order, each the analysis of that frame with the first key and the crop rule's choice. |
| Ocr.AnalyzeFrames | ocr.py:253-270 | One entry per frame, in order, each carrying its frame's name and analysis. |
| Ocr.EntryOf | ocr.py:267-270 | An entry holds the frame's name and its analysis. |
| Ocr.ConfiguredKeysRun | ocr.py:245-249 | With the configured key list the batch always runs: the list is non-empty and its first key is not empty. |
| Llm.FormatTeam | llm.py:13-30 | A team gives nothing exactly when its name is missing or empty; a named team always gives non-empty text. |
| Llm.FormatParsedScore | llm.py:5-39 | A missing record, or one with no named team, reads "Unknown score". Otherwise the result is the named teams' parts, joined by " \| " in team order. |
| Llm.BareTeamName | llm.py:19-20 | A named team with nothing known is its bare name. |
| Llm.NoWicketsWithoutRuns | llm.py:21-29 | Wickets are shown only after runs: without runs the part is the name and at most the overs. |
| Llm.FormatFullRecord | llm.py:21-39 | A full batting score reads `name: runs/wickets in overs overs \| bowling code`. |
| Llm.FormatRenderedScore | llm.py:5-39 | Round trip from the overlay to the prompt: a rendered overlay, parsed and formatted, shows its own runs, wickets, overs and team codes. |
| Llm.UnparsedScoreUnknown | llm.py:5-39 | A record in which no score was found reads "Unknown score". |
| Llm.Trunc | llm.py:82 | Python's `int()` on a float truncates toward zero. |
| Llm.Duration | llm.py:74-78 | The gap to the next event, or 5 seconds for the last one. |
| Llm.WordBudget | llm.py:82-83 | The budget is at least 5, and is the truncation of 2.5 words a second whenever that is 5 or more. |
| Llm.LongGapBudget | llm.py:78-83 | A gap of 4 seconds or more, and so the last event, gets at least 10 words. |
| Llm.BudgetMonotone | llm.py:82-83 | A longer gap never gets a smaller budget. |
| Llm.VisualsText | llm.py:94-99 | The visuals read "None" exactly when no detection is above 0.8. |
| Llm.VisualsExactly | llm.py:94-99 | The listed items are those of the detections above 0.8, each once, in input order, joined by ", ". |
| Llm.VisualsListed | llm.py:94-99 | Every detection above 0.8 appears in the visuals text. |
| Llm.NoConfidentVisuals | llm.py:94-96 | With no detection above 0.8 the visuals read "None". |
| Llm.SnapshotOf | llm.py:85-86 | An event without a parsed score shows "None", and otherwise its formatted score. |
| Llm.FlavourOf | llm.py:88-91 | An event without a clip shows "Unknown" at confidence 0, and otherwise its clip's label. |
| Llm.EventBlocks | llm.py:69-105 | One five-line block per event. |
| Llm.PromptLines | llm.py:47-121 | The instructions, five lines per event, then the closing TASK paragraph: 2 + 5n lines. |
| Llm.PromptLineAt | llm.py:69-105 | Line k of event i's block is line 1 + 5i + k: the blocks follow the timeline's order. |
| Llm.PromptHasLine | llm.py:101-121 | Every line of every event block occurs in the prompt. |
| Llm.PromptHasEvents | llm.py:101-105 | Each event's heading, score line and visuals line occur in the prompt. |
| Llm.BareEventLines | llm.py:85-104 | An event with no score and no clip reads "None" and "Unknown (confidence=0.00)". |
| Llm.CallLlm | llm.py:124-189 | The reply for each case: no key, client failure, answer, empty answer, timeout (524, "A timeout occurred", or "timed out" in any case) and other exceptions. |
| Llm.CallLlmTags | llm.py:124-189 | Every failure starts with the error tag, and the empty-answer warning does not contain it. |
| Llm.WarningUntagged | llm.py:182 | The empty-answer warning does not contain the error tag. |
| Llm.SummaryPrompt | llm.py:200-205 | The request ends with at most the first 60000 characters of the text. |
| Llm.SummarizeText | llm.py:191-227 | Text within the limit comes back untouched. Without a key the text is chopped to the limit. A non-empty answer is returned; an empty answer or an exception returns the text. |
| Llm.SummarizeOutcomes | llm.py:191-227 | The result is always a prefix of the text (the text itself included) or the model's non-empty answer. |
| Commentator.LoadModelsLazy | commentator.py:48-59 | After the call the models are loaded. An already loaded state is untouched, and otherwise one load happens. |
| Commentator.LoadedOnce | commentator.py:48-59 | However many videos are processed, the models are loaded exactly once. |
| Commentator.ScoreByFrame | commentator.py:133 | The table's names are exactly the non-empty frame names among the entries. |
| Commentator.ScoreByFrameLast | commentator.py:133 | The value kept for a name is that of the last entry with that name. |
| Commentator.ScoreTableOf | commentator.py:129-135 | Without a scorecard the table is empty, and otherwise it is the entries by frame name. |
| Commentator.NoScorecardNoScores | commentator.py:129-135 | Without a scorecard no event carries a score. |
| Commentator.Summarized | commentator.py:171-187 | At most 3 summaries are asked for. The text never grows. Text of at most 9500 characters is untouched. Each kept text is the original or an accepted, strictly shorter summary. A result over 9500 means the attempts ran out or the last summary was refused. |
| Commentator.SummarizeLoop | commentator.py:171-187 | The loop computes the recursive definition. The texts it sends are the commentary first, then each accepted summary, each over 9500 characters and strictly shorter than the one before. |
| Commentator.SentInTurnExtend | commentator.py:177-187 | Sending the next text keeps the requests in order. |
| Commentator.HardTruncate | commentator.py:190-196 | The cut is a prefix of at most 9500 characters. It ends at the last '.' of the first 9500 when that '.' is after the first character, and is the whole 9500 otherwise. |
| Commentator.TruncateAtLastStop | commentator.py:192-196 | After a cut at a full stop, nothing dropped from the first 9500 characters is a '.'. |
| Commentator.Governed | commentator.py:171-198 | The narration is at most 9800 characters. Text of at most 9500 characters is untouched. Otherwise the result is the summarised text if that fits 9800, and a prefix of it of at most 9500 if not. |
| Commentator.GovernLength | commentator.py:171-198 | The method computes the governor, asks for at most 3 summaries, and asks for none on short text. |
| Commentator.GovernWithLlm | commentator.py:177-187 | With `summarize_text` as the summarizer, the first text sent is the commentary and each later one is what `summarize_text` made of the one before with `max_chars=9000`. |
| Commentator.KeylessGovernorKeepsTarget | commentator.py:177-187 | Without an API key, a commentary over 9500 characters and free of the error tag becomes its first 9000 characters after one summary. |
| Commentator.GovernedShortIsFixed | commentator.py:177-190 | An output of at most 9500 characters is a fixed point that asks for no summary. |
| Commentator.GovernedNotIdempotent | commentator.py:177-190 | A 9501–9800 character text whose summary is refused passes unchanged, and governing it again asks for a summary. |
| Commentator.Merge | commentator.py:102-114 | The merge succeeds exactly when mixing or the fallback succeeds, and the fallback runs only when mixing fails. |
| Commentator.Narrate | commentator.py:167-223 | A path comes back exactly when the commentary has no error tag, speech synthesis accepts the governed text, and one of the merges succeeds. |
| Commentator.CallFailureStops | commentator.py:167-169 | Every failure of the commentary call stops the pipeline, but the empty-answer warning does not. |
| Commentator.ProcessVideo | commentator.py:116-229 | A stage that raises gives no path. Otherwise the run has the same condition, for the commentary the model writes from the built timeline's prompt and for summaries made by `summarize_text` with a target of 9000. |
| CricketServer.GetLogs | cricket_server.py:30-36 | A missing file gives "No logs found.". Otherwise the result is a suffix of the log, of length min(\|log\|, 2000). |
| CricketServer.GetLogsStable | cricket_server.py:35 | The tail of a tail is itself. |
| CricketServer.CutOff | cricket_server.py:55-63 | The scan walks past exactly the leading run of events with time at most the target. |
| CricketServer.ClosestEvent | cricket_server.py:55-63 | The result is nothing exactly when the list is empty or its first event is later. Otherwise it is the event where the scan stops. |
| CricketServer.ScanEvents | cricket_server.py:55-63 | The loop computes the scan's result. |
| CricketServer.SortedClosest | cricket_server.py:53-63 | On a time-ordered list the result is the latest event at or before the target (the last of equal times), and nothing exactly when all events are later. |
| CricketServer.UnsortedStopsEarly | cricket_server.py:56-63 | On an unordered list the scan can stop before a later qualifying event. |
| CricketServer.MatchContext | cricket_server.py:39-68 | Each outcome: missing file, unparsable file, the closest truthy event's JSON, or "No event found before time …". |
| CricketServer.MissingTimeIsZero | cricket_server.py:57-59 | An event without `time_sec` counts as time 0. |
| App.UpdateProgress | app.py:46-52 | The message is shown and logged. The step advances unless it is at the total, and stays in range. |
| App.ProgressSteps | app.py:46-52 | From step 0, n messages reach step min(n, total), and every message is logged in order. |
| App.ProgressKeeps | app.py:46-52 | Progress messages keep the status, total and path, and keep the step in range. |
| App.Started | app.py:55-58 | A started run is processing, at step 0, with an empty log. |
| App.RunPipelineTask | app.py:54-77 | A run ends completed (with a truthy path, full steps, and its path recorded) or in error (keeping the old path), with every notification logged. |
| App.FailedRunSteps | app.py:56-73 | A failed run's step is the number of notifications, capped at the total. |
| App.RequestProcessing | app.py:108-109 | `/process` records the scorecard choice. |
| App.Upload | app.py:86-94 | An upload resets the record to idle, step 0, no path and an empty log. |
| App.UploadForgetsChoice | app.py:86-109 | A choice made before an upload is forgotten (the default, a scorecard, applies), and a choice after it is kept. |
| App.MaskAnswer | app.py:147-149 | An answer containing the error tag becomes the apology, and other answers pass unchanged. |
| App.ApologyUntagged | app.py:149 | The apology does not contain the error tag. |
| App.MaskedAnswersUntagged | app.py:147-151 | No answer shown to the user contains the error tag. |
| App.Chat | app.py:130-151 | The answer never contains the error tag. It is either the apology or the model's answer to the analyst prompt built from the context at the timestamp. |

## Left out

- Image handling is not modelled: reading, cropping (`crop_scorecard`), grayscale, contrast, resizing and base64 encoding. An image failure is an `Option<string>` error input to `Ocr.AnalyzeScoreFrame`.
- The vision models are not modelled: YOLO, the three frame classifiers and R(2+1)D, and softmax. Their answers are observations handed in (`Inference.FrameView`, a classify function). `load_video_as_tensor` is folded into that classify function, where `None` stands for a load or model error.
- The ffmpeg and OpenCV splitting is not modelled (`run_ffmpeg_split`, `ffmpeg.py`). The frame and clip directories are listings handed in.
- Model loading itself is not modelled (`models.py`): only the once-only flag and load count of `load_models_lazy`.
- Speech synthesis (`tts.py`) and the ffmpeg merge commands are inputs: a success flag and two success flags.
- HTTP, JSON and CSV writing, the raw and final commentary files, and `time.sleep` are not modelled. The OCR call records the back-off pauses it would sleep as a list. The fixed 1.5-second pause between frames is left out.
- Glob matching is exact and case-sensitive on the entry names. Directory listings are sequences of names.
- `Ocr.ProcessScoreFrames`: nothing is written, and the CSV flattening (a projection of the same entries) is left out.
- Float formatting (`:.1f`, `:.2f`, `str(float)`, `json.dumps`) is a function parameter. The two fixed instruction paragraphs of the commentary prompt are parameters too. Floats are exact reals: rounding in `duration * 2.5`, `frame_index * (1.0 / FRAME_RATE)` and the back-off doubling is not modelled, and neither are NaN or infinities.
- Python's `int()` and `str()` on integers are exact. `int(g)` of a digit group cannot overflow in Python, and the model does not need a bound either.
- Character classes are ASCII only: `\d`, `[A-Za-z]` with IGNORECASE, and `str.lower()`. Whitespace is the full `str.isspace` set. Unicode digits and case folding beyond ASCII are left out.
- `Ocr.MatchAt`: the unused `phase` group is consumed but not returned. The `parsed` entry of the score record is `None` on every path, so it is not a field.
- `Ocr.CallVisionOcr`: the final "Max retries exceeded" return is unreachable, because the fifth attempt always returns. The model has no such case.
- `Llm.CallLlm`: building the client is a flag. The request, the model name and the system prompt are not modelled, only the reply.
- `Llm.SummarizeText`: the limit is a `nat`, because the governor always passes 9000.
- `Llm.FormatTeam`: the `-w` separator branch is unreachable in the source, because its guard repeats the one before it. It is not modelled.
- `Commentator.ProcessVideo`: the notifications and the file writes are not modelled. An exception in one of the I/O stages (the splitter, the OCR batch, writing the timeline) is the input `stageFails`. `process_video` catches it and returns no path, so `App.RunPipelineTask` reports it as "Pipeline failed at TTS stage.". `App.Run.Raised` stands only for an exception that escapes `process_video`.
- `Commentator.ProcessVideo` takes the frame and clip records as inputs instead of computing them from listings. `Inference.FramesOf`, `Inference.RunOnClips` and `Ocr.ProcessScoreFrames` model those stages separately.
- The timeline read by `CricketServer.MatchContext` is a decoded list of events, with `time_sec` and the other keys. A JSON value that is not a list, and a `time_sec` that is present but null or not a number, are left out.
- FastAPI routing, CORS, static files, file uploads, `/status`, `/result` and background tasks are not modelled. Concurrency between runs is left out: the record is a value passed from call to call.
- The remaining scripts (`main.py`, `check_system.py`, `health_check.py`, the `test_*.py` probes, `yolo.py` and the other probes) are not part of this model.
