# Long-COVID video intake: a verified model of the session state machine

The intake application is a small web service. A patient answers three
interview questions by recording a video for each. The server:

- stores each video under the patient's session;
- extracts the audio with ffmpeg;
- has the audio transcribed;
- hands the three transcriptions to a language model, which matches the
  patient's symptoms against a fixed taxonomy of symptom categories.

This project models the deterministic core of that service and proves the
rules it follows. The core covers three things:

- the per-session record of the three questions and the request handlers
  that update it (`app.py`);
- everything around the language-model call in the symptom analyzer, namely
  the api-key guard, the category list, removal of a markdown code fence,
  conversion of the legacy `symptom_clusters` reply and the degraded record
  for an unparsable reply (`services/symptom_analyzer.py`);
- the audio extractor's output-path rule and the order of its error guards
  (`services/audio_extractor.py`).

Layout:

| file | module | contents |
|---|---|---|
| `results.dfy` | `Results` | `Option`, `Result`, and `Outcome`, which is the text of an exception or a value from an outside call |
| `text.dfy` | `Text` | Python's `startswith`, `strip` (full `isspace` set), `split`/`join` on one character with round trips, and `str()` of an integer |
| `posix_path.dfy` | `PosixPath` | `posixpath.join` for two parts and `posixpath.splitext` |
| `json.dfy` | `JsonValues` | The values `json.loads` yields, and the Python type names that appear in error messages |
| `config.dfy` | `Config` | The configured questions and symptom categories, and the accepted ids `[1, 2, 3]` |
| `audio_extractor.dfy` | `AudioExtractor` | `extract_audio` as a function of which files exist and what ffmpeg reports |
| `symptom_analyzer.dfy` | `SymptomAnalyzer` | `analyze_symptoms` as a specification function, plus the imperative methods (category loop, fence loop, legacy conversion loop) proved equal to it |
| `intake.dfy` | `Intake` | Every handler as a function from the session before the request to the session after it and the reply; invariants and the properties the handlers promise |
| `intake_store.dfy` | `IntakeStore` | The `patient_sessions` store as a class with a `sessions` map updated in place; each handler as a method proved to perform exactly the `Intake` transition and to keep every stored session well formed |

The outside world is passed in as parameters:

- the client's session cookie is an `Option<SessionId>`;
- new ids and clock readings are arguments;
- audio extraction and transcription are oracles from a path to an `Outcome`;
- the language model is an oracle from the prompt's variable parts to an `Outcome`;
- `json.loads` is an oracle from text to an optional `Json`;
- ffmpeg is an oracle from its argument vector to its exit status and stderr;
- file existence is a boolean, or a predicate on paths.

Some of the code's behaviour is easy to miss, and the model keeps it:

- A failed transcription, in `transcribe_video` and in `transcribe_all`,
  deletes the video file but does not clear `video_path` in the record
  (app.py:228-238). A retry without a new upload therefore passes the
  no-video guard and fails in the extractor with "Video file not found"
  (`RetryAfterFailureHitsMissingFile`).
- `audio_path` is never set to anything but `None`. It holds `None` throughout,
  as part of the record invariant.
- `analyze_symptoms` in the analyzer raises in these cases:
  - a missing api key;
  - a failed model request;
  - a reply that loads as something other than an object;
  - a reply whose `matched_categories` or `symptom_clusters` has no length,
    or whose clusters are not objects.

  The handler then answers with the exception's text, and `analysis` and
  `status` stay as they were (app.py:336-360). Only a reply that fails to
  decode yields the degraded record (services/symptom_analyzer.py:139-171),
  and only then is that record stored and the session completed.
- Besides the refusals for a missing session, an unknown question and a
  missing recording or transcription, the upload handler has two of its own:
  "No video file provided" and "No file selected". Extraction and
  transcription failures both surface as the exception's text.

## Model

| member | source | states |
|---|---|---|
| Config.QuestionIdsMatchConfig | config.py:18-37 | The configured questions carry the ids 1, 2, 3 in that order, which are the ids the handlers hard-code |
| Intake.ConfiguredQuestionsOk | config.py:18-37 | The application's question configuration has one question per accepted id, in id order |
| Intake.NewSession | app.py:56-75 | A new session is in progress and unanalysed. It has exactly one blank record per configured id, and each record carries that question's id, title and text |
| Intake.ConfiguredRecords | app.py:61-73 | The dictionary comprehension over the configured questions yields exactly the records of questions 1, 2 and 3 |
| Intake.NewSessionWellformed | app.py:56-75 | A new session satisfies the session invariant: records only for the accepted ids, under their own ids; no audio path; a timestamp for every transcription and video; analysis present iff completed |
| Intake.RefusalMessagesDistinct | app.py:141-324 | Two refusals without outside text have the same message exactly when they are the same refusal, including which question is not yet transcribed |
| IntakeStore.SessionStore.constructor | app.py:22 | The store starts empty, with the application's configuration, and valid |
| IntakeStore.SessionStore.SessionData | app.py:39-44 | A session is found exactly when the cookie holds a non-empty id that is stored; the session found is the one stored under that id, carries that id and is well formed |
| IntakeStore.SessionStore.Store | app.py:22 | Writing a well-formed session back under its id replaces only that entry, and the store stays valid |
| IntakeStore.SessionStore.CreateSession | app.py:47-76 | Stores the new session under the fresh id, replaces nothing else, and lets the cookie find it afterwards |
| Intake.Upload | app.py:143-163 | The guards apply in order: "No video file provided", then "Invalid question_id" (absent, zero or outside 1-3), then "No file selected". A refused upload changes nothing. Success holds exactly when all three pass, and sets only that question's video path (session folder / `q{q}_video.webm`) and recording time |
| Intake.UploadedFileNames | app.py:156-158 | An accepted video is saved as `q{q}_video.webm` in the session's folder, and its audio will be `q{q}_video_audio.wav` in the same folder |
| Intake.UploadWellformed | app.py:162-163 | An upload keeps the session invariant |
| Intake.UploadAdvances | app.py:162-163 | An upload keeps every transcription unchanged, never unsets a recording or transcription time, and keeps the session's identity and completion |
| IntakeStore.SessionStore.UploadVideo | app.py:137-169 | With no session: "No active session" and the store is unchanged. Otherwise the reply and the new store are exactly those of `Upload` on that session, and the store stays valid |
| Intake.AttemptOn | app.py:183-200 | A record has no usable video exactly when its path is absent or empty. With a video, the attempt succeeds exactly when extraction followed by transcription (`Pipeline`) does; a successful attempt carries that text and the transcribed record, and a failed one carries the exception's text |
| Intake.TranscribeOne | app.py:179-238 | An unknown id gives "Invalid question_id" and a record without a video gives "No video recorded for this question", both without an outside call and changing nothing. A pipeline failure reports the exception's text and leaves the session unchanged, video path included. A success replaces only that record with the transcribed one |
| Intake.TranscribeOneWellformed | app.py:199-218 | Transcribing one question keeps the session invariant |
| Intake.TranscribeOneAdvances | app.py:199-218 | Transcribing never loses a transcription, a recording or transcription time, or a completion, and keeps the session's identity |
| Intake.SecondTranscribeRefused | app.py:183-184 | After a successful transcription, a second one without a new upload is refused with "No video recorded for this question" and changes nothing, whatever the outside calls would do |
| Intake.RetryAfterFailureHitsMissingFile | app.py:228-238 | After a pipeline failure the session is unchanged, video path included. The next attempt, with the file deleted, fails with "Video file not found: " and that path |
| IntakeStore.SessionStore.TranscribeVideo | app.py:173-238 | With no session: "No active session" and the store is unchanged. Otherwise the reply and the new store are exactly those of `TranscribeOne`, and the store stays valid |
| Intake.AttemptErrors | app.py:253-290 | An attempt adds at most one error line, and one exactly when it does not transcribe; a pipeline failure's line is "Question q: " followed by the exception's text |
| Intake.BatchStep | app.py:252-290 | A turn of the batch loop keeps the set of questions and changes nothing about the session but its records |
| Intake.BatchStepMeaning | app.py:252-290 | One turn of the batch loop changes only question `q`'s record (as the attempt leaves it), adds `q`'s result exactly on success, and appends the attempt's error line |
| Intake.BatchOverStep | app.py:251 | The batch over one more id is one more loop turn on the batch so far |
| Intake.BatchOver | app.py:251-299 | The loop over the ids keeps the set of questions and changes nothing about the session but its records |
| Intake.BatchOverRecords | app.py:251-299 | Over distinct ids, each visited question ends as one attempt on its original record leaves it, and the other questions are untouched |
| Intake.BatchOverResults | app.py:272 | Over distinct ids, the results hold exactly the successful attempts' transcriptions |
| Intake.BatchOverErrors | app.py:290 | Over distinct ids, the error lines are those of the failed attempts, in visiting order |
| Intake.BatchErrorsEmpty | app.py:302 | The error lines are empty exactly when every attempt transcribes |
| Intake.DistinctPrefix | app.py:251 | Dropping the last of distinct ids leaves distinct ids without it |
| Intake.TranscribeAllRecords | app.py:251-299 | `transcribe_all` leaves each of questions 1-3 exactly as `transcribe_video` would have left it on the original session; other records are untouched |
| Intake.TranscribeAllResults | app.py:268-303 | The reported transcriptions are exactly the successful `transcribe_video` results |
| Intake.TranscribeAllErrors | app.py:251-305 | Neither error kind stops the loop. The report succeeds exactly when `transcribe_video` would succeed for each of 1-3, and its errors are the failed questions' lines in order |
| Intake.NoVideoErrors | app.py:253-255 | With no video anywhere, the error lines are "No video for question 1", "… 2" and "… 3" |
| Intake.NothingRecordedBatch | app.py:251-305 | With no video anywhere, the batch changes nothing and reports failure, no transcriptions and the three no-video lines |
| Intake.TranscribeAllWellformed | app.py:251-299 | The batch keeps the session invariant |
| Intake.TranscribeAllAdvances | app.py:251-299 | The batch never loses a transcription, a recording or transcription time, or a completion, and keeps the session's identity |
| Intake.TranscribeOneAttempt | app.py:182-200 | `transcribe_video` on a known id is the attempt on its record: the same record, success exactly on a transcribed attempt, and the same text |
| IntakeStore.TranscribeEach | app.py:248-305 | The loop, with its `results` and `errors` accumulators, computes exactly the batch of `Intake.TranscribeAll` |
| Intake.TranscribeAll | app.py:242-305 | `transcribe_all` on an active session always answers with a report, whatever fails inside it, and changes nothing about the session but its records |
| IntakeStore.SessionStore.TranscribeAll | app.py:242-305 | With no session: "No active session" and the store is unchanged. Otherwise the reply and the new store are exactly those of the batch, and the store stays valid |
| Intake.GatePasses | app.py:320-326 | The readiness gate passes exactly when every required question has a transcription, even an empty one |
| Intake.Gate | app.py:320-326 | The readiness loop either names a required question without a transcription, or collects an entry for exactly the required questions |
| Intake.GateContents | app.py:320-326 | A passing gate hands over one entry per required question, holding its transcription with the placeholder for an empty one |
| Intake.GateMissing | app.py:321-324 | A failing gate names the first required question without a transcription; all earlier ones have one |
| Intake.GateStep | app.py:321-326 | One more required question either extends the collected transcriptions or is the one reported, and the gate stops there |
| Intake.GateFailureKept | app.py:324 | Once the gate fails on a prefix, it fails the same way on the whole list |
| Intake.AnalyzeStep | app.py:316-360 | A failing gate gives "Question q not yet transcribed" and changes nothing. Otherwise the analyzer runs on the gathered transcriptions: if it raises, its text is answered and nothing changes; if it returns, its result is stored and the session completed. A stored result is always a JSON object. A completed session may be analysed again |
| Intake.AnalyzeNeedsTranscriptions | app.py:316-326 | A successful analysis implies question 1 was transcribed, and all three were outside test mode |
| Intake.TestModeGate | app.py:316-326 | In test mode only question 1 is required, and an empty transcription passes as the placeholder |
| Intake.TestModePrompt | services/symptom_analyzer.py:42-71 | In test mode the model is shown question 1's transcription (the placeholder for a silent one) and "[No response recorded]" for questions 2 and 3 |
| Intake.FullModePrompt | services/symptom_analyzer.py:42-71 | Outside test mode, with all three questions transcribed, the model is shown each question's transcription in order, with "[No speech detected in recording]" for a silent one |
| Intake.MissingKeyLeavesSession | app.py:336-360 | With an absent or empty api key, a session that passes the gate is answered "Claude API key not configured" and stays as it was |
| Intake.AnalyzeWellformed | app.py:345-346 | The analysis step keeps the session invariant: analysis present iff completed |
| Intake.AnalyzeAdvances | app.py:345-346 | The analysis step never loses a transcription, a recording or transcription time, or a completion, and keeps the session's identity |
| IntakeStore.AnalyzeSession | app.py:316-360 | The readiness loop, with its early return and the analyzer call after it, computes exactly `Intake.AnalyzeStep` |
| IntakeStore.SessionStore.Analyze | app.py:309-360 | With no session: "No active session" and the store is unchanged. Otherwise the reply and the new store are exactly those of `AnalyzeStep`, with the configured categories, and the store stays valid |
| Intake.QuestionViewsMeaning | app.py:119-126 | The view entries follow the configured questions one for one, in order |
| Intake.StateOf | app.py:119-133 | The state view has the session's id, status and analysis and one entry per configured question in order, with recorded/transcribed as above |
| Intake.SummaryOf | app.py:370-388 | The summary has the session's id, creation time, status and analysis, and the configured questions in order with titles, texts and transcriptions |
| IntakeStore.SessionStore.GetSessionState | app.py:112-133 | Changes nothing. Answers "No active session" without a session, and otherwise the state view |
| IntakeStore.SessionStore.GetSummary | app.py:364-388 | Changes nothing. Answers "No active session" without a session, and otherwise the summary |
| SymptomAnalyzer.CategoriesText | services/symptom_analyzer.py:30-37 | The `+=` loop builds exactly the category text `CategoriesSpec`: nothing without categories, else the header and each category's block in order (`CategoryBlocks`) |
| SymptomAnalyzer.CategoryBlocksAppend | services/symptom_analyzer.py:34-36 | The blocks of two category lists are the blocks of the first followed by those of the second |
| SymptomAnalyzer.CategoryPresented | services/symptom_analyzer.py:33-36 | Each category's block "- **name** (ID: id)\n  description\n\n" appears after the header, the blocks before it and before the blocks after it |
| SymptomAnalyzer.FirstFence | services/symptom_analyzer.py:128-132 | The first line at or after a position that starts with "```", or the end |
| SymptomAnalyzer.FirstFenceAt | services/symptom_analyzer.py:128-132 | A line starting a fence, with none before it back to the start position, is the first fence |
| SymptomAnalyzer.FenceBody | services/symptom_analyzer.py:125-134 | No lines without a fence line. Otherwise the lines directly after the first fence line, none of them a fence line, stopping only at the next fence line or the end |
| SymptomAnalyzer.ReplyBody | services/symptom_analyzer.py:123 | A reply not starting with "```" is parsed unchanged |
| SymptomAnalyzer.CollectBlock | services/symptom_analyzer.py:125-134 | The `in_json` loop collects exactly the lines strictly after the first fence line, up to the next fence line or the end |
| SymptomAnalyzer.StripCodeFence | services/symptom_analyzer.py:123-135 | The fence removal yields exactly the text the reply's parse is applied to |
| SymptomAnalyzer.FenceBodyOf | services/symptom_analyzer.py:124-135 | Lines opening with a fence, with the next fence line at position n+1 or none, have lines 1 to n as their code block |
| SymptomAnalyzer.ReplyBodyOfLines | services/symptom_analyzer.py:124-135 | A reply made of newline-free lines, the first opening a fence, parses as the join of its code block |
| SymptomAnalyzer.FencedReply | services/symptom_analyzer.py:123-135 | An opening fence line, fence-free body lines, then nothing or a closing fence line (and anything after) parse as exactly the body lines joined by newlines |
| SymptomAnalyzer.ClusterEntriesMeaning | services/symptom_analyzer.py:150-157 | The conversion `ClusterEntries` succeeds iff every cluster is an object, then yields one entry per cluster in order; otherwise it fails on the first non-object cluster |
| SymptomAnalyzer.ClusterEntriesStep | services/symptom_analyzer.py:150-157 | One more cluster extends the entries or is the first failure |
| SymptomAnalyzer.ClusterFailureKept | services/symptom_analyzer.py:150-157 | Once a prefix of the clusters fails, the whole list fails the same way |
| SymptomAnalyzer.ConvertClusters | services/symptom_analyzer.py:149-157 | The append loop computes exactly the converted entries, or the first cluster's failure |
| SymptomAnalyzer.ConvertLegacy | services/symptom_analyzer.py:150 | Iterating a list gives its clusters; iterating a string or object gives strings, for which `.get` fails unless there are none |
| SymptomAnalyzer.LegacyEntryFields | services/symptom_analyzer.py:151-157 | Each entry `LegacyEntry` makes has exactly five keys: id "unknown", confidence "medium", the cluster's `category` (default "Other"), and its `symptoms` and `severity_indicators` (default empty) |
| SymptomAnalyzer.PostProcess | services/symptom_analyzer.py:139-157 | A non-object raises the `keys` error. A present `matched_categories` returns the reply unconverted. A reply with neither key returns unchanged. Every result is an object |
| SymptomAnalyzer.LegacyReplyConverted | services/symptom_analyzer.py:147-157 | A legacy reply whose clusters are objects gains `matched_categories` with one converted entry per cluster in order, and keeps every other key |
| SymptomAnalyzer.Fallback | services/symptom_analyzer.py:159-171 | The degraded record carries the error marker, a `raw_response` that is the first min(500, length) characters of the text, and empty `matched_categories` and `priority_concerns` |
| SymptomAnalyzer.AnalyzeSpec | services/symptom_analyzer.py:23-173 | An absent or empty key is refused before the model is asked; every returned analysis is an object |
| SymptomAnalyzer.AnalyzeSymptoms | services/symptom_analyzer.py:10-173 | The analyzer step by step computes exactly `AnalyzeSpec`: key guard, category text, model call, strip, fence removal, parse or fallback, checks and legacy conversion |
| AudioExtractor.OutputPath | services/audio_extractor.py:25-26 | The output path ends in "_audio.wav", and what precedes it plus the video's extension is the video path |
| AudioExtractor.FfmpegCommand | services/audio_extractor.py:38-47 | The command runs the given ffmpeg on the video and writes the output path last |
| AudioExtractor.ExtractAudio | services/audio_extractor.py:21-64 | A missing video is reported before ffmpeg runs. A missing ffmpeg and a non-zero exit (with its stderr) are reported whether or not an output exists. An exit with 0 and no output file is "output file not created". Success holds iff the video exists, ffmpeg exits 0 and the output exists, and it returns the output path |
| AudioExtractor.VideoFileName | app.py:156 | The upload file name is a plain name starting with `q`, with no directory part, ending in ".webm" |
| AudioExtractor.SplitExtOfFileName | services/audio_extractor.py:25 | A file name not starting with a dot loses exactly its extension to `splitext`, whatever directory is in front |
| AudioExtractor.UploadedVideoAudioPath | services/audio_extractor.py:25-26 | For a video saved as `q{id}_video.webm` in any folder, the audio is `q{id}_video_audio.wav` in the same folder |
| PosixPath.RFind | services/audio_extractor.py:25 | The index of the last occurrence, or -1 exactly when there is none |
| PosixPath.Join | app.py:155-157 | An absolute second part replaces the first; otherwise it follows the first part with exactly one slash between them, none added when the first part is empty or already ends with one |
| PosixPath.JoinPrefix | app.py:155-157 | A slash is added exactly when the first part is non-empty and does not end with one, so the prefix is empty or ends with a slash |
| PosixPath.SplitExt | services/audio_extractor.py:25 | The two parts concatenate to the path. The extension is empty or a dot followed by neither dot nor slash. A non-empty extension has a non-dot before it in the last component; otherwise every dot of the component has only dots before it |
| PosixPath.RFindAppend | services/audio_extractor.py:25 | The last occurrence in a concatenation lies in the second part when it has one, else in the first |
| PosixPath.HasNonDotIff | services/audio_extractor.py:25 | The leading-dot scan finds a non-dot exactly when the range holds one |
| Text.Strip | services/symptom_analyzer.py:119 | The stripped text is a slice of the original with no leading or trailing whitespace |
| Text.StripIdempotent | services/symptom_analyzer.py:119 | Stripping twice is stripping once |
| Text.Split | services/symptom_analyzer.py:124 | Splitting yields at least one piece, none holding the separator |
| Text.JoinSplit | services/symptom_analyzer.py:124-135 | Joining the pieces of a split gives back the text |
| Text.SplitJoin | services/symptom_analyzer.py:124-135 | Splitting the join of separator-free pieces gives back the pieces |
| Text.NatToString | app.py:254 | The numeral of a non-negative integer is a non-empty string of decimal digits without a leading zero |
| Text.NatToStringValue | app.py:254 | Reading the numeral back as decimal digits gives the number |
| Text.IntToStringValue | app.py:324 | Reading `str(i)` back gives `i`: digits for a non-negative number, a minus sign and the digits of the magnitude for a negative one |
| Text.IntToStringInjective | app.py:324 | Different integers have different numerals |
| JsonValues.TypeName | services/symptom_analyzer.py:140 | The Python type name is "dict", "list" or "str" exactly for objects, arrays and strings |

## Left out

- Flask routing, HTTP status codes, `jsonify` and the signed cookie. A handler's reply is the error kind with its message, or the value returned. The cookie is the session id the client sent.
- `uuid.uuid4()` and `datetime.now()`. Ids and timestamps are arguments; `transcribe_all` takes a clock reading per question.
- The Whisper model preload at start-up (app.py:16-19) and the `health_check` and `index` routes: no session state is involved.
- File-system work is not modelled:
  - `os.makedirs` of the session folder;
  - `video_file.save`, including a save that fails;
  - `os.remove` of videos;
  - `cleanup_session_files` after an analysis.

  The removals are guarded and change no session field. Their exceptions are caught: the success branches (app.py:212-214, 282-283) and `cleanup_session_files` (app.py:35-36) print a warning, and the failure branches (app.py:236-237, 298-299) swallow them silently. `os.makedirs` (app.py:54) and `video_file.save` (app.py:159) are not guarded. The model assumes they succeed: a failing makedirs raises out of `create_session` after the cookie is set (app.py:50) and before a session is stored, and a failing save raises out of the upload with the record unchanged. Neither failure is modelled. Whether a file exists is a parameter of the extractor.
- `start_session`'s reply (app.py:103-108): `success` (always true), `create_session`'s id, the configured questions and the request's test flag. It adds nothing to the session.
- The fixed wording of the analysis prompt. The prompt is modelled by its variable parts: the category text and the three responses, with "[No response recorded]" for an absent one.
- The Anthropic calls, the ffmpeg subprocess and `json.loads` are foreign code, so each is an oracle. The model calls each of them once per use, so an oracle's answer is a function of its input.
- `imageio_ffmpeg.get_ffmpeg_exe()`. The executable path is a parameter, so a failure of that call is not modelled.
- services/transcription.py is not part of this model. Transcription is an oracle from the audio path to the text or the exception's text.
- config.py is configuration data. The questions and categories are constants in `Config`, and the upload folder is a constructor argument.
- static/app.js (browser UI) and test_analyzer.py (a manual script against the live API) are not part of this model.
- Concurrency: each handler is one atomic step on the store; the source has no locking to model.
- Sessions are stored by value in a map. The Python code mutates the stored dictionary it looked up; through the store, the only handle to it, the two are indistinguishable.
- JSON key order. Objects are maps, and the replies are serialised with sorted keys. Floats are kept as their literal text.
- `print` diagnostics are not modelled. Besides the console, two of them can raise, and the model keeps both as errors: `list(analysis.keys())` (services/symptom_analyzer.py:140), which fails on a reply that loads as anything but an object (`NotAnObject`); and `len()` (services/symptom_analyzer.py:142-144), which raises `TypeError` on an unsized `matched_categories` or `symptom_clusters` (`NoLength`).
