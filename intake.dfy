/** The per-session intake state machine of the web application (app.py):
    one session holds a record per interview question, and each request
    handler is a guarded update of that session. This module states every
    handler as a function from the session before the request to the session
    after it and the reply, and proves the rules the handlers follow. The
    in-place store of sessions that the handlers mutate is `IntakeStore`.

    Outside calls are parameters: the clock is a timestamp argument, audio
    extraction and speech-to-text are oracles from a path to an `Outcome`, and
    the analyzer is reached through its model in `SymptomAnalyzer`. */
module Intake {
  import opened Results
  import opened Text
  import opened JsonValues
  import opened Config
  import PosixPath
  import AudioExtractor
  import SymptomAnalyzer

  type SessionId = string
  /** An ISO-8601 timestamp as `datetime.now().isoformat()` writes it; only its presence matters here. */
  type Timestamp = string

  datatype Status = InProgress | Completed

  /** The status as the views report it. */
  function StatusName(st: Status): string
  {
    match st
    case InProgress => "in_progress"
    case Completed => "completed"
  }

  /** What a session keeps about one question. `videoPath` and `audioPath`
      point at temporary files; the transcription and timestamps persist. */
  datatype QuestionRecord = QuestionRecord(
    questionId: int,
    title: string,
    text: string,
    videoPath: Option<string>,
    audioPath: Option<string>,
    transcription: Option<string>,
    recordedAt: Option<Timestamp>,
    transcribedAt: Option<Timestamp>)

  datatype Session = Session(
    id: SessionId,
    createdAt: Timestamp,
    status: Status,
    testMode: bool,
    questions: map<int, QuestionRecord>,
    analysis: Option<Json>)

  /** The errors the handlers answer with; each one is returned as a JSON `error` field. */
  datatype AppError =
    | NoActiveSession
    | NoVideoFileProvided
    | InvalidQuestionId
    | NoFileSelected
    | NoVideoRecorded
    | PipelineFailed(detail: string)
    | NotYetTranscribed(questionId: int)
    | AnalysisFailed(detail: string)

  function ErrorMessage(e: AppError): (m: string)
  {
    match e
    case NoActiveSession => "No active session"
    case NoVideoFileProvided => "No video file provided"
    case InvalidQuestionId => "Invalid question_id"
    case NoFileSelected => "No file selected"
    case NoVideoRecorded => "No video recorded for this question"
    case PipelineFailed(d) => d
    case NotYetTranscribed(q) => "Question " + IntToString(q) + " not yet transcribed"
    case AnalysisFailed(d) => d
  }

  /** The refusals that carry no outside text are told apart by their
      messages, down to the question that is not yet transcribed. */
  lemma RefusalMessagesDistinct(e1: AppError, e2: AppError)
    requires !e1.PipelineFailed? && !e1.AnalysisFailed? && !e2.PipelineFailed? && !e2.AnalysisFailed?
    ensures ErrorMessage(e1) == ErrorMessage(e2) <==> e1 == e2
  {
    if e1.NotYetTranscribed? && e2.NotYetTranscribed? {
      var m1, m2 := ErrorMessage(e1), ErrorMessage(e2);
      if m1 == m2 {
        assert IntToString(e1.questionId) == m1[9..|m1| - 20] == m2[9..|m2| - 20] == IntToString(e2.questionId);
        IntToStringInjective(e1.questionId, e2.questionId);
      }
    } else if e1.NotYetTranscribed? || e2.NotYetTranscribed? {
      assert ErrorMessage(e1)[0] != ErrorMessage(e2)[0];
    }
  }

  /** The session after a request, and the reply to it. */
  datatype Step<+T> = Step(session: Session, reply: Result<T, AppError>)

  /** Every question a handler may index is in the session. */
  predicate QuestionsPresent(s: Session) {
    forall q :: q in QuestionIds ==> q in s.questions
  }

  /** The invariant every stored session keeps: one record per configured
      question, filed under its own id; a transcription always has its
      timestamp and a video path its recording time; no audio path is ever
      recorded; and an analysis is present exactly when the session is completed. */
  ghost predicate Wellformed(s: Session) {
    && (forall q :: q in s.questions <==> q in QuestionIds)
    && (forall q :: q in s.questions ==> RecordWellformed(q, s.questions[q]))
    && (s.analysis.Some? <==> s.status == Completed)
  }

  predicate RecordWellformed(q: int, r: QuestionRecord) {
    && r.questionId == q
    && r.audioPath.None?
    && (r.transcription.Some? ==> r.transcribedAt.Some?)
    && (r.videoPath.Some? ==> r.recordedAt.Some?)
  }

  /** A question configuration of the shape the handlers rely on: one
      question per accepted id, in the order of the ids. */
  predicate ConfigOk(config: seq<QuestionConfig>) {
    |config| == |QuestionIds| && forall i :: 0 <= i < |config| ==> config[i].id == QuestionIds[i]
  }

  /** The application's configured questions have that shape. */
  lemma ConfiguredQuestionsOk()
    ensures ConfigOk(Questions)
  {
    QuestionIdsMatchConfig();
  }

  // ---------------------------------------------------------------------------
  // Creating a session

  /** A record with nothing recorded yet. */
  predicate Blank(r: QuestionRecord) {
    r.videoPath.None? && r.audioPath.None? && r.transcription.None? && r.recordedAt.None? && r.transcribedAt.None?
  }

  function BlankRecord(c: QuestionConfig): QuestionRecord
  {
    QuestionRecord(c.id, c.title, c.text, None, None, None, None, None)
  }

  /** The dictionary comprehension over the configured questions: one blank
      record per question, keyed by its id (a later question with the same id
      would replace an earlier one). */
  function Records(qs: seq<QuestionConfig>): map<int, QuestionRecord>
  {
    if |qs| == 0 then map[]
    else Records(qs[..|qs| - 1])[qs[|qs| - 1].id := BlankRecord(qs[|qs| - 1])]
  }

  /** The session `create_session` stores: in progress, not analysed, and one
      blank record per configured question carrying that question's id, title and text. */
  function NewSession(id: SessionId, createdAt: Timestamp, testMode: bool, config: seq<QuestionConfig>): (s: Session)
    requires ConfigOk(config)
    ensures s.id == id && s.createdAt == createdAt && s.testMode == testMode
    ensures s.status == InProgress && s.analysis.None?
    ensures forall q :: q in s.questions <==> q in QuestionIds
    ensures forall q :: q in s.questions ==>
      && Blank(s.questions[q])
      && s.questions[q].questionId == q
      && s.questions[q].title == config[q - 1].title
      && s.questions[q].text == config[q - 1].text
  {
    ConfiguredRecords(config);
    Session(id, createdAt, InProgress, testMode, Records(config), None)
  }

  /** The records of the configured questions, written out. */
  lemma ConfiguredRecords(config: seq<QuestionConfig>)
    requires ConfigOk(config)
    ensures Records(config)
         == map[1 := BlankRecord(config[0]), 2 := BlankRecord(config[1]), 3 := BlankRecord(config[2])]
  {
    assert config[..1][..0] == [];
    assert Records(config[..1]) == map[1 := BlankRecord(config[0])];
    assert config[..2][..1] == config[..1];
    assert Records(config[..2]) == map[1 := BlankRecord(config[0]), 2 := BlankRecord(config[1])];
    assert config[..3][..2] == config[..2];
    assert config[..3] == config;
  }

  lemma NewSessionWellformed(id: SessionId, createdAt: Timestamp, testMode: bool, config: seq<QuestionConfig>)
    requires ConfigOk(config)
    ensures Wellformed(NewSession(id, createdAt, testMode, config))
  {
  }

  /** Replaces the record of question `q`. */
  function WithRecord(s: Session, q: int, r: QuestionRecord): Session
  {
    s.(questions := s.questions[q := r])
  }

  // ---------------------------------------------------------------------------
  // Uploading a video

  /** What the upload request carries: whether a `video` file part is present,
      the form's `question_id` read as an integer (absent when missing or not
      a number), and the uploaded file's name. */
  datatype UploadRequest = UploadRequest(hasVideo: bool, questionId: Option<int>, filename: string)

  /** `not question_id or question_id not in [1, 2, 3]` is false. */
  predicate AcceptedQuestion(questionId: Option<int>) {
    questionId.Some? && questionId.value != 0 && questionId.value in QuestionIds
  }

  /** Where the video of question `q` of a session is saved. */
  function VideoPath(uploadFolder: string, id: SessionId, q: nat): string
  {
    PosixPath.Join(PosixPath.Join(uploadFolder, id), AudioExtractor.VideoFileName(q))
  }

  /** `upload_video` for an active session. Its guards are checked in order
      (file part, question id, file name) and a refused upload changes
      nothing; an accepted one records the saved path and the time for that
      question and touches nothing else. */
  function Upload(s: Session, req: UploadRequest, uploadFolder: string, now: Timestamp): (st: Step<int>)
    requires QuestionsPresent(s)
    ensures !req.hasVideo ==> st == Step(s, Failure(NoVideoFileProvided))
    ensures req.hasVideo && !AcceptedQuestion(req.questionId) ==> st == Step(s, Failure(InvalidQuestionId))
    ensures req.hasVideo && AcceptedQuestion(req.questionId) && req.filename == "" ==> st == Step(s, Failure(NoFileSelected))
    ensures st.reply.Success? <==> req.hasVideo && AcceptedQuestion(req.questionId) && req.filename != ""
    ensures st.session.questions.Keys == s.questions.Keys
    ensures st.reply.Success? ==>
      var q := req.questionId.value;
      var r := st.session.questions[q];
      && st.reply.value == q
      && (forall p :: p in s.questions && p != q ==> st.session.questions[p] == s.questions[p])
      && r.videoPath == Some(VideoPath(uploadFolder, s.id, q))
      && r.recordedAt == Some(now)
      && r.(videoPath := s.questions[q].videoPath, recordedAt := s.questions[q].recordedAt) == s.questions[q]
      && st.session.(questions := s.questions) == s
  {
    if !req.hasVideo then Step(s, Failure(NoVideoFileProvided))
    else if !AcceptedQuestion(req.questionId) then Step(s, Failure(InvalidQuestionId))
    else if req.filename == "" then Step(s, Failure(NoFileSelected))
    else
      var q := req.questionId.value;
      var r := s.questions[q].(videoPath := Some(VideoPath(uploadFolder, s.id, q)), recordedAt := Some(now));
      Step(WithRecord(s, q, r), Success(q))
  }

  /** An accepted video of question `q` lands in the session's folder as
      `q{q}_video.webm`, and the audio later extracted from it as `q{q}_video_audio.wav`. */
  lemma UploadedFileNames(uploadFolder: string, id: SessionId, q: nat)
    ensures VideoPath(uploadFolder, id, q)
         == PosixPath.Join(PosixPath.Join(uploadFolder, id), "q" + NatToString(q) + "_video.webm")
    ensures AudioExtractor.OutputPath(VideoPath(uploadFolder, id, q))
         == PosixPath.Join(PosixPath.Join(uploadFolder, id), "q" + NatToString(q) + "_video_audio.wav")
  {
    AudioExtractor.UploadedVideoAudioPath(PosixPath.Join(uploadFolder, id), q);
  }

  lemma UploadWellformed(s: Session, req: UploadRequest, uploadFolder: string, now: Timestamp)
    requires Wellformed(s)
    ensures Wellformed(Upload(s, req, uploadFolder, now).session)
  {
    var st := Upload(s, req, uploadFolder, now);
    if st.reply.Success? {
      var q := req.questionId.value;
      assert RecordWellformed(q, st.session.questions[q]);
      assert forall p :: p in st.session.questions ==> RecordWellformed(p, st.session.questions[p]);
    }
  }

  // ---------------------------------------------------------------------------
  // Transcribing one question

  /** Python's truth value of `video_path`: present and not empty. */
  predicate HasVideo(r: QuestionRecord) {
    r.videoPath.Some? && r.videoPath.value != ""
  }

  /** Audio extraction followed by transcription of the extracted audio; the
      first exception raised is the failure. */
  function Pipeline(videoPath: string, extract: string -> Outcome<string>, transcribe: string -> Outcome<string>): (o: Outcome<string>)
    ensures extract(videoPath).Fail? ==> o == Fail(extract(videoPath).message)
    ensures extract(videoPath).Ok? ==> o == transcribe(extract(videoPath).value)
  {
    match extract(videoPath)
    case Fail(m) => Fail(m)
    case Ok(audioPath) => transcribe(audioPath)
  }

  /** What trying to transcribe one record gives, as both transcription
      handlers compute it: no usable video, the exception of the pipeline,
      or the new record with its transcription. */
  datatype Attempt = NoVideo | PipelineError(message: string) | Transcribed(record: QuestionRecord, text: string)

  /** A successful transcription stores the text and its time and forgets
      both file paths; the recording time, id, title and text stay. */
  function TranscribedRecord(r: QuestionRecord, t: string, now: Timestamp): (updated: QuestionRecord)
    ensures updated.transcription == Some(t) && updated.transcribedAt == Some(now)
    ensures updated.videoPath.None? && updated.audioPath.None? && !HasVideo(updated)
    ensures updated.questionId == r.questionId && updated.title == r.title && updated.text == r.text && updated.recordedAt == r.recordedAt
  {
    r.(transcription := Some(t), transcribedAt := Some(now), videoPath := None, audioPath := None)
  }

  function AttemptOn(r: QuestionRecord, extract: string -> Outcome<string>, transcribe: string -> Outcome<string>,
                     now: Timestamp): (a: Attempt)
    ensures a.NoVideo? <==> !HasVideo(r)
    ensures a.Transcribed? ==> a.record == TranscribedRecord(r, a.text, now)
    ensures HasVideo(r) ==> (a.Transcribed? <==> Pipeline(r.videoPath.value, extract, transcribe).Ok?)
    ensures a.Transcribed? ==> HasVideo(r) && Pipeline(r.videoPath.value, extract, transcribe) == Ok(a.text)
    ensures a.PipelineError? ==> HasVideo(r) && Pipeline(r.videoPath.value, extract, transcribe) == Fail(a.message)
  {
    if !HasVideo(r) then NoVideo
    else match Pipeline(r.videoPath.value, extract, transcribe)
      case Fail(m) => PipelineError(m)
      case Ok(t) => Transcribed(TranscribedRecord(r, t, now), t)
  }

  /** `transcribe_video(q)` for an active session: an unknown id and a record
      without a video are refused before any outside call; a failure of the
      pipeline is reported with the exception's text and leaves the record as
      it was, video path included; a success stores the transcription and
      clears the paths, and nothing else changes. */
  function TranscribeOne(s: Session, q: int, extract: string -> Outcome<string>, transcribe: string -> Outcome<string>,
                         now: Timestamp): (st: Step<string>)
    requires QuestionsPresent(s)
    ensures q !in QuestionIds ==> st == Step(s, Failure(InvalidQuestionId))
    ensures q in QuestionIds && !HasVideo(s.questions[q]) ==> st == Step(s, Failure(NoVideoRecorded))
    ensures q in QuestionIds && HasVideo(s.questions[q]) ==>
      match Pipeline(s.questions[q].videoPath.value, extract, transcribe)
      case Fail(m) => st == Step(s, Failure(PipelineFailed(m)))
      case Ok(t) => st.reply == Success(t) && st.session == WithRecord(s, q, TranscribedRecord(s.questions[q], t, now))
  {
    if q !in QuestionIds then Step(s, Failure(InvalidQuestionId))
    else match AttemptOn(s.questions[q], extract, transcribe, now)
      case NoVideo => Step(s, Failure(NoVideoRecorded))
      case PipelineError(m) => Step(s, Failure(PipelineFailed(m)))
      case Transcribed(r, t) => Step(WithRecord(s, q, r), Success(t))
  }

  lemma TranscribeOneWellformed(s: Session, q: int, extract: string -> Outcome<string>, transcribe: string -> Outcome<string>,
                                now: Timestamp)
    requires Wellformed(s)
    ensures Wellformed(TranscribeOne(s, q, extract, transcribe, now).session)
  {
  }

  /** After a successful transcription the video path is gone, so asking
      again without a new upload is refused and changes nothing. */
  lemma SecondTranscribeRefused(s: Session, q: int, extract: string -> Outcome<string>, transcribe: string -> Outcome<string>,
                                now: Timestamp, extractAgain: string -> Outcome<string>, transcribeAgain: string -> Outcome<string>,
                                later: Timestamp)
    requires QuestionsPresent(s)
    requires TranscribeOne(s, q, extract, transcribe, now).reply.Success?
    ensures var after := TranscribeOne(s, q, extract, transcribe, now).session;
      QuestionsPresent(after) && TranscribeOne(after, q, extractAgain, transcribeAgain, later) == Step(after, Failure(NoVideoRecorded))
  {
  }

  /** Audio extraction as the handlers call it: `extract_audio` on a file
      system described by which paths exist, with its exception turned into text. */
  function RealExtract(fileExists: string -> bool, ffmpegExe: string, ffmpeg: seq<string> -> AudioExtractor.FfmpegRun,
                       outputExists: string -> bool): string -> Outcome<string>
  {
    p =>
      match AudioExtractor.ExtractAudio(p, fileExists(p), ffmpegExe, ffmpeg, outputExists(AudioExtractor.OutputPath(p)))
      case Success(a) => Ok(a)
      case Failure(e) => Fail(AudioExtractor.ErrorMessage(e))
  }

  /** A failed transcription deletes the video file but keeps its path in the
      record, so every later attempt without a new upload passes the
      no-video guard and fails in the extractor on the missing file. */
  lemma RetryAfterFailureHitsMissingFile(s: Session, q: int, extract: string -> Outcome<string>,
                                         transcribe: string -> Outcome<string>, now: Timestamp,
                                         fileExists: string -> bool, ffmpegExe: string,
                                         ffmpeg: seq<string> -> AudioExtractor.FfmpegRun, outputExists: string -> bool,
                                         transcribeAgain: string -> Outcome<string>, later: Timestamp)
    requires QuestionsPresent(s)
    requires TranscribeOne(s, q, extract, transcribe, now).reply.Failure?
    requires TranscribeOne(s, q, extract, transcribe, now).reply.error.PipelineFailed?
    requires !fileExists(s.questions[q].videoPath.value)
    ensures var after := TranscribeOne(s, q, extract, transcribe, now).session;
      && after == s
      && TranscribeOne(after, q, RealExtract(fileExists, ffmpegExe, ffmpeg, outputExists), transcribeAgain, later)
         == Step(s, Failure(PipelineFailed("Video file not found: " + s.questions[q].videoPath.value)))
  {
    var p := s.questions[q].videoPath.value;
    var again := AudioExtractor.ExtractAudio(p, fileExists(p), ffmpegExe, ffmpeg, outputExists(AudioExtractor.OutputPath(p)));
    assert again == Failure(AudioExtractor.VideoNotFound(p));
  }

  // ---------------------------------------------------------------------------
  // Transcribing every question

  /** What `transcribe_all` answers: overall success, the transcriptions made
      by this request, and the error messages (absent when there are none). */
  datatype BatchReport = BatchReport(success: bool, transcriptions: map<int, string>, errors: Option<seq<string>>)

  /** The loop's state: the session so far and the `results` and `errors` collected so far. */
  datatype BatchState = BatchState(session: Session, results: map<int, string>, errors: seq<string>)

  /** The error line an attempt adds to the batch report, if any. */
  function AttemptErrors(q: int, a: Attempt): (e: seq<string>)
    ensures |e| == 0 <==> a.Transcribed?
    ensures |e| <= 1
    ensures a.PipelineError? ==> e == ["Question " + IntToString(q) + ": " + a.message]
  {
    match a
    case NoVideo => ["No video for question " + IntToString(q)]
    case PipelineError(m) => ["Question " + IntToString(q) + ": " + m]
    case Transcribed(_, _) => []
  }

  /** One turn of the batch loop, for question `q`. */
  function BatchStep(b: BatchState, q: int, extract: string -> Outcome<string>, transcribe: string -> Outcome<string>,
                     now: Timestamp): (next: BatchState)
    requires q in b.session.questions
    ensures next.session.questions.Keys == b.session.questions.Keys
    ensures next.session.(questions := b.session.questions) == b.session
  {
    var a := AttemptOn(b.session.questions[q], extract, transcribe, now);
    match a
    case Transcribed(r, t) => BatchState(WithRecord(b.session, q, r), b.results[q := t], b.errors)
    case _ => b.(errors := b.errors + AttemptErrors(q, a))
  }

  /** One turn of the batch loop changes only question `q`: its record as the
      attempt leaves it, its result when the attempt succeeds, and the error
      line of the attempt. */
  lemma BatchStepMeaning(b: BatchState, q: int, extract: string -> Outcome<string>, transcribe: string -> Outcome<string>,
                         now: Timestamp)
    requires q in b.session.questions
    ensures var next := BatchStep(b, q, extract, transcribe, now);
      var a := AttemptOn(b.session.questions[q], extract, transcribe, now);
      && (forall p :: p in b.session.questions && p != q ==> next.session.questions[p] == b.session.questions[p])
      && next.session.questions[q] == (if a.Transcribed? then a.record else b.session.questions[q])
      && (forall p :: p in next.results <==> p in b.results || (p == q && a.Transcribed?))
      && (forall p :: p in b.results && p != q ==> next.results[p] == b.results[p])
      && (a.Transcribed? ==> next.results[q] == a.text)
      && next.errors == b.errors + AttemptErrors(q, a)
  {
  }

  /** The batch over one more question id is one more turn of the loop. */
  lemma BatchOverStep(s: Session, qs: seq<int>, i: int, extract: string -> Outcome<string>,
                      transcribe: string -> Outcome<string>, now: int -> Timestamp)
    requires forall q :: q in qs ==> q in s.questions
    requires 0 <= i < |qs|
    ensures forall q :: q in qs[..i] ==> q in s.questions
    ensures forall q :: q in qs[..i + 1] ==> q in s.questions
    ensures qs[i] in BatchOver(s, qs[..i], extract, transcribe, now).session.questions
    ensures BatchOver(s, qs[..i + 1], extract, transcribe, now)
         == BatchStep(BatchOver(s, qs[..i], extract, transcribe, now), qs[i], extract, transcribe, now(qs[i]))
  {
    assert forall q :: q in qs[..i] ==> q in qs;
    assert forall q :: q in qs[..i + 1] ==> q in qs;
    var p := qs[..i + 1];
    assert p[..|p| - 1] == qs[..i];
    assert p[|p| - 1] == qs[i];
  }

  /** The batch loop over the question ids `qs`, in order; question `q` is
      stamped with `now(q)`. */
  function BatchOver(s: Session, qs: seq<int>, extract: string -> Outcome<string>, transcribe: string -> Outcome<string>,
                     now: int -> Timestamp): (b: BatchState)
    requires forall q :: q in qs ==> q in s.questions
    ensures b.session.questions.Keys == s.questions.Keys
    ensures b.session.(questions := s.questions) == s
    decreases |qs|
  {
    if |qs| == 0 then BatchState(s, map[], [])
    else
      var prefix := qs[..|qs| - 1];
      var q := qs[|qs| - 1];
      assert forall p :: p in prefix ==> p in qs;
      BatchStep(BatchOver(s, prefix, extract, transcribe, now), q, extract, transcribe, now(q))
  }

  function ReportOf(b: BatchState): (rep: BatchReport)
    ensures rep.success <==> |b.errors| == 0
    ensures rep.errors.None? <==> rep.success
    ensures rep.errors.Some? ==> rep.errors.value == b.errors
    ensures rep.transcriptions == b.results
  {
    BatchReport(|b.errors| == 0, b.results, if |b.errors| == 0 then None else Some(b.errors))
  }

  /** `transcribe_all` for an active session. */
  function TranscribeAll(s: Session, extract: string -> Outcome<string>, transcribe: string -> Outcome<string>,
                         now: int -> Timestamp): (st: Step<BatchReport>)
    requires QuestionsPresent(s)
    ensures st.reply.Success?
    ensures st.session.(questions := s.questions) == s
  {
    var b := BatchOver(s, QuestionIds, extract, transcribe, now);
    Step(b.session, Success(ReportOf(b)))
  }

  /** The outcome of the batch as if every question were attempted on the
      session as it was before the request: the record a question ends with. */
  function AttemptedRecord(s: Session, q: int, extract: string -> Outcome<string>, transcribe: string -> Outcome<string>,
                           now: int -> Timestamp): QuestionRecord
    requires q in s.questions
  {
    match AttemptOn(s.questions[q], extract, transcribe, now(q))
    case Transcribed(r, _) => r
    case _ => s.questions[q]
  }

  /** The error lines for `qs`, each question attempted on the session as it was before the request. */
  function BatchErrors(s: Session, qs: seq<int>, extract: string -> Outcome<string>, transcribe: string -> Outcome<string>,
                       now: int -> Timestamp): seq<string>
    requires forall q :: q in qs ==> q in s.questions
    decreases |qs|
  {
    if |qs| == 0 then []
    else
      var q := qs[|qs| - 1];
      assert forall p :: p in qs[..|qs| - 1] ==> p in qs;
      BatchErrors(s, qs[..|qs| - 1], extract, transcribe, now) + AttemptErrors(q, AttemptOn(s.questions[q], extract, transcribe, now(q)))
  }

  /** No question id is visited twice. */
  predicate Distinct(qs: seq<int>) {
    forall i, j :: 0 <= i < j < |qs| ==> qs[i] != qs[j]
  }

  /** Dropping the last of distinct ids leaves distinct ids without it. */
  lemma DistinctPrefix(qs: seq<int>)
    requires |qs| > 0 && Distinct(qs)
    ensures Distinct(qs[..|qs| - 1]) && qs[|qs| - 1] !in qs[..|qs| - 1]
    ensures forall p :: p in qs <==> p in qs[..|qs| - 1] || p == qs[|qs| - 1]
  {
    var prefix := qs[..|qs| - 1];
    assert forall i :: 0 <= i < |prefix| ==> prefix[i] == qs[i];
    assert qs == prefix + [qs[|qs| - 1]];
  }

  /** In the batch over distinct ids each visited question ends as a single
      attempt on its original record would leave it, and unvisited ones are untouched. */
  lemma {:induction false} BatchOverRecords(s: Session, qs: seq<int>, extract: string -> Outcome<string>,
                                            transcribe: string -> Outcome<string>, now: int -> Timestamp)
    requires forall q :: q in qs ==> q in s.questions
    requires Distinct(qs)
    ensures var b := BatchOver(s, qs, extract, transcribe, now);
      && (forall q :: q in s.questions && q in qs ==> b.session.questions[q] == AttemptedRecord(s, q, extract, transcribe, now))
      && (forall q :: q in s.questions && q !in qs ==> b.session.questions[q] == s.questions[q])
    decreases |qs|
  {
    if |qs| > 0 {
      var prefix := qs[..|qs| - 1];
      var q := qs[|qs| - 1];
      DistinctPrefix(qs);
      BatchOverRecords(s, prefix, extract, transcribe, now);
      BatchStepMeaning(BatchOver(s, prefix, extract, transcribe, now), q, extract, transcribe, now(q));
    }
  }

  /** The results of the batch over distinct ids are exactly the successful attempts. */
  lemma {:induction false} BatchOverResults(s: Session, qs: seq<int>, extract: string -> Outcome<string>,
                                            transcribe: string -> Outcome<string>, now: int -> Timestamp)
    requires forall q :: q in qs ==> q in s.questions
    requires Distinct(qs)
    ensures var b := BatchOver(s, qs, extract, transcribe, now);
      && (forall q :: q in b.results <==> q in qs && AttemptOn(s.questions[q], extract, transcribe, now(q)).Transcribed?)
      && (forall q :: q in b.results ==> b.results[q] == AttemptOn(s.questions[q], extract, transcribe, now(q)).text)
    decreases |qs|
  {
    if |qs| > 0 {
      var prefix := qs[..|qs| - 1];
      var q := qs[|qs| - 1];
      DistinctPrefix(qs);
      BatchOverRecords(s, prefix, extract, transcribe, now);
      BatchOverResults(s, prefix, extract, transcribe, now);
      BatchStepMeaning(BatchOver(s, prefix, extract, transcribe, now), q, extract, transcribe, now(q));
    }
  }

  /** The errors of the batch over distinct ids are those of the failed attempts, in visiting order. */
  lemma {:induction false} BatchOverErrors(s: Session, qs: seq<int>, extract: string -> Outcome<string>,
                                           transcribe: string -> Outcome<string>, now: int -> Timestamp)
    requires forall q :: q in qs ==> q in s.questions
    requires Distinct(qs)
    ensures BatchOver(s, qs, extract, transcribe, now).errors == BatchErrors(s, qs, extract, transcribe, now)
    decreases |qs|
  {
    if |qs| > 0 {
      var prefix := qs[..|qs| - 1];
      var q := qs[|qs| - 1];
      DistinctPrefix(qs);
      BatchOverRecords(s, prefix, extract, transcribe, now);
      BatchOverErrors(s, prefix, extract, transcribe, now);
      BatchStepMeaning(BatchOver(s, prefix, extract, transcribe, now), q, extract, transcribe, now(q));
    }
  }

  /** The errors are empty exactly when every attempt succeeds. */
  lemma {:induction false} BatchErrorsEmpty(s: Session, qs: seq<int>, extract: string -> Outcome<string>,
                                            transcribe: string -> Outcome<string>, now: int -> Timestamp)
    requires forall q :: q in qs ==> q in s.questions
    ensures |BatchErrors(s, qs, extract, transcribe, now)| == 0
        <==> forall i :: 0 <= i < |qs| ==> AttemptOn(s.questions[qs[i]], extract, transcribe, now(qs[i])).Transcribed?
    decreases |qs|
  {
    if |qs| > 0 {
      var prefix := qs[..|qs| - 1];
      var q := qs[|qs| - 1];
      assert forall p :: p in prefix ==> p in qs;
      BatchErrorsEmpty(s, prefix, extract, transcribe, now);
      var a := AttemptOn(s.questions[q], extract, transcribe, now(q));
      assert BatchErrors(s, qs, extract, transcribe, now)
          == BatchErrors(s, prefix, extract, transcribe, now) + AttemptErrors(q, a);
      if |BatchErrors(s, qs, extract, transcribe, now)| == 0 {
        forall i | 0 <= i < |qs|
          ensures AttemptOn(s.questions[qs[i]], extract, transcribe, now(qs[i])).Transcribed?
        {
          if i < |prefix| {
            assert qs[i] == prefix[i];
          }
        }
      } else if a.Transcribed? {
        var i :| 0 <= i < |prefix| && !AttemptOn(s.questions[prefix[i]], extract, transcribe, now(prefix[i])).Transcribed?;
        assert qs[i] == prefix[i];
      }
    }
  }

  lemma QuestionIdsDistinct()
    ensures Distinct(QuestionIds)
  {
  }

  /** `transcribe_all` visits questions 1, 2 and 3, and each ends as
      `transcribe_video` would have left it on the session before the
      request; other keys of the record map are untouched. */
  lemma TranscribeAllRecords(s: Session, extract: string -> Outcome<string>, transcribe: string -> Outcome<string>,
                             now: int -> Timestamp)
    requires QuestionsPresent(s)
    ensures var st := TranscribeAll(s, extract, transcribe, now);
      && st.session.questions.Keys == s.questions.Keys
      && (forall q :: q in QuestionIds ==>
            st.session.questions[q] == TranscribeOne(s, q, extract, transcribe, now(q)).session.questions[q])
      && (forall q :: q in s.questions && q !in QuestionIds ==> st.session.questions[q] == s.questions[q])
  {
    QuestionIdsDistinct();
    BatchOverRecords(s, QuestionIds, extract, transcribe, now);
    forall q | q in QuestionIds {
      TranscribeOneAttempt(s, q, extract, transcribe, now(q));
    }
  }

  /** The transcriptions reported are exactly those `transcribe_video` would have produced. */
  lemma TranscribeAllResults(s: Session, extract: string -> Outcome<string>, transcribe: string -> Outcome<string>,
                             now: int -> Timestamp)
    requires QuestionsPresent(s)
    ensures var rep := TranscribeAll(s, extract, transcribe, now).reply.value;
      && (forall q :: q in rep.transcriptions <==> q in QuestionIds && TranscribeOne(s, q, extract, transcribe, now(q)).reply.Success?)
      && (forall q :: q in rep.transcriptions ==> Success(rep.transcriptions[q]) == TranscribeOne(s, q, extract, transcribe, now(q)).reply)
  {
    QuestionIdsDistinct();
    BatchOverResults(s, QuestionIds, extract, transcribe, now);
    forall q | q in QuestionIds {
      TranscribeOneAttempt(s, q, extract, transcribe, now(q));
    }
  }

  /** A missing video or a failing pipeline adds its error line and the loop
      goes on; the report succeeds exactly when every question was transcribed. */
  lemma TranscribeAllErrors(s: Session, extract: string -> Outcome<string>, transcribe: string -> Outcome<string>,
                            now: int -> Timestamp)
    requires QuestionsPresent(s)
    ensures var rep := TranscribeAll(s, extract, transcribe, now).reply.value;
      && (rep.success <==> forall q :: q in QuestionIds ==> TranscribeOne(s, q, extract, transcribe, now(q)).reply.Success?)
      && (rep.errors.Some? ==> rep.errors.value == BatchErrors(s, QuestionIds, extract, transcribe, now))
  {
    QuestionIdsDistinct();
    BatchOverErrors(s, QuestionIds, extract, transcribe, now);
    BatchErrorsEmpty(s, QuestionIds, extract, transcribe, now);
    forall q | q in QuestionIds {
      TranscribeOneAttempt(s, q, extract, transcribe, now(q));
    }
  }

  /** With no video recorded anywhere each question contributes its no-video line, in order. */
  lemma NoVideoErrors(s: Session, extract: string -> Outcome<string>, transcribe: string -> Outcome<string>,
                      now: int -> Timestamp)
    requires QuestionsPresent(s)
    requires forall q :: q in QuestionIds ==> !HasVideo(s.questions[q])
    ensures BatchErrors(s, QuestionIds, extract, transcribe, now)
         == ["No video for question 1", "No video for question 2", "No video for question 3"]
  {
    forall q | q in QuestionIds
      ensures AttemptErrors(q, AttemptOn(s.questions[q], extract, transcribe, now(q))) == ["No video for question " + IntToString(q)]
    {
    }
    assert IntToString(1) == "1" && IntToString(2) == "2" && IntToString(3) == "3";
    assert QuestionIds[..1][..0] == [] && QuestionIds[..2][..1] == QuestionIds[..1] && QuestionIds[..3][..2] == QuestionIds[..2];
    assert QuestionIds[..3] == QuestionIds;
    assert QuestionIds[..1][0] == 1 && QuestionIds[..2][1] == 2;
    assert BatchErrors(s, QuestionIds[..0], extract, transcribe, now) == [];
    assert BatchErrors(s, QuestionIds[..1], extract, transcribe, now)
        == BatchErrors(s, QuestionIds[..0], extract, transcribe, now) + AttemptErrors(1, AttemptOn(s.questions[1], extract, transcribe, now(1)));
    assert "No video for question " + IntToString(1) == "No video for question 1";
    assert BatchErrors(s, QuestionIds[..1], extract, transcribe, now) == ["No video for question 1"];
    assert BatchErrors(s, QuestionIds[..2], extract, transcribe, now)
        == BatchErrors(s, QuestionIds[..1], extract, transcribe, now) + AttemptErrors(2, AttemptOn(s.questions[2], extract, transcribe, now(2)));
    assert "No video for question " + IntToString(2) == "No video for question 2";
    assert BatchErrors(s, QuestionIds[..2], extract, transcribe, now) == ["No video for question 1", "No video for question 2"];
    assert BatchErrors(s, QuestionIds, extract, transcribe, now)
        == BatchErrors(s, QuestionIds[..2], extract, transcribe, now) + AttemptErrors(3, AttemptOn(s.questions[3], extract, transcribe, now(3)));
    assert "No video for question " + IntToString(3) == "No video for question 3";
  }

  /** A batch over questions none of which has a video changes nothing and collects only error lines. */
  lemma {:induction false} BatchOverNothingRecorded(s: Session, qs: seq<int>, extract: string -> Outcome<string>,
                                                    transcribe: string -> Outcome<string>, now: int -> Timestamp)
    requires forall q :: q in qs ==> q in s.questions && !HasVideo(s.questions[q])
    ensures BatchOver(s, qs, extract, transcribe, now) == BatchState(s, map[], BatchErrors(s, qs, extract, transcribe, now))
    decreases |qs|
  {
    if |qs| > 0 {
      var prefix := qs[..|qs| - 1];
      assert forall p :: p in prefix ==> p in qs;
      BatchOverNothingRecorded(s, prefix, extract, transcribe, now);
    }
  }

  /** With no video recorded anywhere the batch changes nothing and reports one error per question. */
  lemma NothingRecordedBatch(s: Session, extract: string -> Outcome<string>, transcribe: string -> Outcome<string>,
                             now: int -> Timestamp)
    requires QuestionsPresent(s)
    requires forall q :: q in QuestionIds ==> !HasVideo(s.questions[q])
    ensures TranscribeAll(s, extract, transcribe, now)
         == Step(s, Success(BatchReport(false, map[], Some(["No video for question 1", "No video for question 2", "No video for question 3"]))))
  {
    BatchOverNothingRecorded(s, QuestionIds, extract, transcribe, now);
    NoVideoErrors(s, extract, transcribe, now);
  }

  lemma TranscribeAllWellformed(s: Session, extract: string -> Outcome<string>, transcribe: string -> Outcome<string>,
                                now: int -> Timestamp)
    requires Wellformed(s)
    ensures Wellformed(TranscribeAll(s, extract, transcribe, now).session)
  {
    TranscribeAllRecords(s, extract, transcribe, now);
  }

  /** `transcribe_video` on a known question is the attempt on its record. */
  lemma TranscribeOneAttempt(s: Session, q: int, extract: string -> Outcome<string>, transcribe: string -> Outcome<string>,
                             now: Timestamp)
    requires QuestionsPresent(s) && q in QuestionIds
    ensures var st := TranscribeOne(s, q, extract, transcribe, now);
      var a := AttemptOn(s.questions[q], extract, transcribe, now);
      && st.session.questions[q] == (if a.Transcribed? then a.record else s.questions[q])
      && (st.reply.Success? <==> a.Transcribed?)
      && (a.Transcribed? ==> st.reply.value == a.text)
  {
  }

  // ---------------------------------------------------------------------------
  // The analysis

  /** What the analyzer is shown for a silent recording. */
  const NoSpeech: string := "[No speech detected in recording]"

  /** The questions that must be transcribed: only the first in test mode, all three otherwise. */
  function Required(testMode: bool): (qs: seq<int>)
    ensures testMode ==> qs == [1]
    ensures !testMode ==> qs == QuestionIds
  {
    if testMode then [1] else [1, 2, 3]
  }

  /** The transcription handed to the analyzer: an empty one becomes the placeholder. */
  function ForAnalyzer(t: string): (u: string)
    ensures t == "" ==> u == NoSpeech
    ensures t != "" ==> u == t
  {
    if t == "" then NoSpeech else t
  }

  /** The readiness loop over the required questions: the transcriptions
      collected so far, or the first question found untranscribed. */
  function Gate(s: Session, req: seq<int>): (r: Result<map<int, string>, int>)
    requires forall q :: q in req ==> q in s.questions
    ensures r.Failure? ==> r.error in req
    ensures r.Failure? ==> r.error in s.questions && s.questions[r.error].transcription.None?
    ensures r.Success? ==> forall q :: q in r.value <==> q in req
    decreases |req|
  {
    if |req| == 0 then Success(map[])
    else
      var q := req[|req| - 1];
      assert forall p :: p in req[..|req| - 1] ==> p in req;
      match Gate(s, req[..|req| - 1])
      case Failure(missing) => Failure(missing)
      case Success(ts) =>
        var t := s.questions[q].transcription;
        if t.None? then Failure(q) else Success(ts[q := ForAnalyzer(t.value)])
  }

  /** The gate passes exactly when every required question has a transcription. */
  lemma {:induction false} GatePasses(s: Session, req: seq<int>)
    requires forall q :: q in req ==> q in s.questions
    ensures Gate(s, req).Success? <==> forall i :: 0 <= i < |req| ==> s.questions[req[i]].transcription.Some?
    decreases |req|
  {
    if |req| > 0 {
      var prefix := req[..|req| - 1];
      assert forall p :: p in prefix ==> p in req;
      GatePasses(s, prefix);
      if Gate(s, prefix).Success? {
        forall i | 0 <= i < |prefix| ensures s.questions[req[i]].transcription.Some? {
          assert prefix[i] == req[i];
        }
      } else {
        var i :| 0 <= i < |prefix| && s.questions[prefix[i]].transcription.None?;
        assert prefix[i] == req[i];
      }
    }
  }

  /** A passing gate hands over one entry per required question, its
      transcription with an empty one replaced by the placeholder. */
  lemma {:induction false} GateContents(s: Session, req: seq<int>)
    requires forall q :: q in req ==> q in s.questions
    ensures Gate(s, req).Success? ==>
      var ts := Gate(s, req).value;
      && (forall q :: q in ts <==> q in req)
      && forall q :: q in ts ==>
           s.questions[q].transcription.Some? && ts[q] == ForAnalyzer(s.questions[q].transcription.value)
    decreases |req|
  {
    if |req| > 0 {
      var prefix := req[..|req| - 1];
      assert forall p :: p in prefix ==> p in req;
      GateContents(s, prefix);
      assert forall p :: p in req <==> p in prefix || p == req[|req| - 1];
    }
  }

  /** A failing gate names the first required question without a transcription. */
  lemma {:induction false} GateMissing(s: Session, req: seq<int>)
    requires forall q :: q in req ==> q in s.questions
    ensures Gate(s, req).Failure? ==>
      exists k :: 0 <= k < |req| && req[k] == Gate(s, req).error
        && s.questions[req[k]].transcription.None?
        && forall j :: 0 <= j < k ==> s.questions[req[j]].transcription.Some?
    decreases |req|
  {
    if |req| > 0 {
      var prefix := req[..|req| - 1];
      assert forall p :: p in prefix ==> p in req;
      GateMissing(s, prefix);
      GatePasses(s, prefix);
      if Gate(s, prefix).Failure? {
        var k :| 0 <= k < |prefix| && prefix[k] == Gate(s, prefix).error
          && s.questions[prefix[k]].transcription.None?
          && forall j :: 0 <= j < k ==> s.questions[prefix[j]].transcription.Some?;
        assert forall j :: 0 <= j <= k ==> prefix[j] == req[j];
      } else if Gate(s, req).Failure? {
        var k := |req| - 1;
        assert forall j :: 0 <= j < k ==> prefix[j] == req[j];
      }
    }
  }

  /** One more required question either extends the collected transcriptions or is the first one missing. */
  lemma GateStep(s: Session, req: seq<int>, i: int)
    requires forall q :: q in req ==> q in s.questions
    requires 0 <= i < |req|
    ensures forall q :: q in req[..i] ==> q in s.questions
    ensures forall q :: q in req[..i + 1] ==> q in s.questions
    ensures req[i] in s.questions
    ensures Gate(s, req[..i]).Failure? ==> Gate(s, req[..i + 1]) == Gate(s, req[..i])
    ensures Gate(s, req[..i]).Success? && s.questions[req[i]].transcription.None? ==>
      Gate(s, req[..i + 1]) == Failure(req[i])
    ensures Gate(s, req[..i]).Success? && s.questions[req[i]].transcription.Some? ==>
      Gate(s, req[..i + 1]) ==
        Success(Gate(s, req[..i]).value[req[i] := ForAnalyzer(s.questions[req[i]].transcription.value)])
  {
    assert forall q :: q in req[..i] ==> q in req;
    assert forall q :: q in req[..i + 1] ==> q in req;
    var p := req[..i + 1];
    assert p[..|p| - 1] == req[..i];
    assert p[|p| - 1] == req[i];
  }

  /** Once the gate fails on a prefix, it fails the same way on the whole list. */
  lemma {:induction false} GateFailureKept(s: Session, req: seq<int>, i: int)
    requires forall q :: q in req ==> q in s.questions
    requires 0 <= i <= |req|
    requires forall q :: q in req[..i] ==> q in s.questions
    requires Gate(s, req[..i]).Failure?
    ensures Gate(s, req) == Gate(s, req[..i])
    decreases |req| - i
  {
    if i == |req| {
      assert req[..i] == req;
    } else {
      var prefix := req[..|req| - 1];
      assert forall p :: p in prefix ==> p in req;
      assert prefix[..i] == req[..i];
      GateFailureKept(s, prefix, i);
    }
  }

  /** `analyze_symptoms` for an active session: the request's or the
      session's test flag picks the required questions; the first of them
      without a transcription is reported and nothing changes; otherwise the
      analyzer runs on the gathered transcriptions with the configured
      categories, and its result is stored and the session completed, or its
      exception is reported and nothing changes. */
  function AnalyzeStep(s: Session, requestTest: bool, apiKey: Option<string>, categories: seq<Category>,
                       llm: SymptomAnalyzer.Prompt -> Outcome<string>, parse: string -> Option<Json>): (st: Step<Json>)
    requires QuestionsPresent(s)
    ensures forall q :: q in Required(requestTest || s.testMode) ==> q in s.questions
    ensures Gate(s, Required(requestTest || s.testMode)).Failure? ==>
      st == Step(s, Failure(NotYetTranscribed(Gate(s, Required(requestTest || s.testMode)).error)))
    ensures Gate(s, Required(requestTest || s.testMode)).Success? ==>
      var outcome := SymptomAnalyzer.AnalyzeSpec(Gate(s, Required(requestTest || s.testMode)).value, apiKey, categories, llm, parse);
      if outcome.Failure? then st == Step(s, Failure(AnalysisFailed(SymptomAnalyzer.ErrorMessage(outcome.error))))
      else st == Step(s.(analysis := Some(outcome.value), status := Completed), Success(outcome.value))
    ensures st.reply.Success? ==> st.reply.value.JObj?
  {
    var req := Required(requestTest || s.testMode);
    match Gate(s, req)
    case Failure(q) => Step(s, Failure(NotYetTranscribed(q)))
    case Success(ts) =>
      match SymptomAnalyzer.AnalyzeSpec(ts, apiKey, categories, llm, parse)
      case Failure(e) => Step(s, Failure(AnalysisFailed(SymptomAnalyzer.ErrorMessage(e))))
      case Success(j) => Step(s.(analysis := Some(j), status := Completed), Success(j))
  }

  /** A session is only ever completed with every required question
      transcribed: in test mode the first, otherwise all three. */
  lemma AnalyzeNeedsTranscriptions(s: Session, requestTest: bool, apiKey: Option<string>, categories: seq<Category>,
                                   llm: SymptomAnalyzer.Prompt -> Outcome<string>, parse: string -> Option<Json>)
    requires QuestionsPresent(s)
    requires AnalyzeStep(s, requestTest, apiKey, categories, llm, parse).reply.Success?
    ensures s.questions[1].transcription.Some?
    ensures !(requestTest || s.testMode) ==> forall q :: q in QuestionIds ==> s.questions[q].transcription.Some?
  {
    var req := Required(requestTest || s.testMode);
    GatePasses(s, req);
    assert req[0] == 1;
  }

  /** In test mode only the first question is required, and an empty
      transcription still counts as given: the analyzer is shown the placeholder. */
  lemma TestModeGate(s: Session, t: string)
    requires QuestionsPresent(s) && s.questions[1].transcription == Some(t)
    ensures Gate(s, Required(true)) == Success(map[1 := ForAnalyzer(t)])
    ensures t == "" ==> Gate(s, Required(true)) == Success(map[1 := NoSpeech])
  {
    assert [1][..0] == [];
  }

  /** In test mode the model is shown question 1's transcription (the
      placeholder for a silent one) and no response for questions 2 and 3. */
  lemma TestModePrompt(s: Session, t: string, categoriesText: string)
    requires QuestionsPresent(s) && s.questions[1].transcription == Some(t)
    ensures Gate(s, Required(true)).Success?
    ensures SymptomAnalyzer.BuildPrompt(categoriesText, Gate(s, Required(true)).value).responses
         == [ForAnalyzer(t), SymptomAnalyzer.NoResponse, SymptomAnalyzer.NoResponse]
  {
    TestModeGate(s, t);
  }

  /** Outside test mode the model is shown every question's transcription,
      in order, with the placeholder for a silent one. */
  lemma FullModePrompt(s: Session, t1: string, t2: string, t3: string, categoriesText: string)
    requires QuestionsPresent(s)
    requires s.questions[1].transcription == Some(t1)
    requires s.questions[2].transcription == Some(t2)
    requires s.questions[3].transcription == Some(t3)
    ensures Gate(s, Required(false)).Success?
    ensures SymptomAnalyzer.BuildPrompt(categoriesText, Gate(s, Required(false)).value).responses
         == [ForAnalyzer(t1), ForAnalyzer(t2), ForAnalyzer(t3)]
  {
    var req := Required(false);
    GatePasses(s, req);
    GateContents(s, req);
  }

  /** With an absent or empty api key, a session that passes the gate gets
      the analyzer's refusal and stays as it was. */
  lemma MissingKeyLeavesSession(s: Session, requestTest: bool, apiKey: Option<string>, categories: seq<Category>,
                                llm: SymptomAnalyzer.Prompt -> Outcome<string>, parse: string -> Option<Json>)
    requires QuestionsPresent(s)
    requires apiKey.None? || apiKey.value == ""
    requires Gate(s, Required(requestTest || s.testMode)).Success?
    ensures AnalyzeStep(s, requestTest, apiKey, categories, llm, parse) == Step(s, Failure(AnalysisFailed("Claude API key not configured")))
  {
  }

  lemma AnalyzeWellformed(s: Session, requestTest: bool, apiKey: Option<string>, categories: seq<Category>,
                          llm: SymptomAnalyzer.Prompt -> Outcome<string>, parse: string -> Option<Json>)
    requires Wellformed(s)
    ensures Wellformed(AnalyzeStep(s, requestTest, apiKey, categories, llm, parse).session)
  {
  }

  // ---------------------------------------------------------------------------
  // How a session only moves forward

  /** `after` keeps the identity of `s` and its set of questions, every
      question keeps what it had (see `RecordAdvances`), and `after` is
      completed if `s` was. */
  predicate Advances(s: Session, after: Session) {
    && after.id == s.id && after.createdAt == s.createdAt && after.testMode == s.testMode
    && after.questions.Keys == s.questions.Keys
    && (forall q :: q in s.questions ==> RecordAdvances(s.questions[q], after.questions[q]))
    && (s.status == Completed ==> after.status == Completed)
  }

  /** A transcription, a recording time and a transcription time, once set,
      stay set: a question reads as recorded after its file is gone. */
  predicate RecordAdvances(r: QuestionRecord, after: QuestionRecord) {
    && (r.transcription.Some? ==> after.transcription.Some?)
    && (r.recordedAt.Some? ==> after.recordedAt.Some?)
    && (r.transcribedAt.Some? ==> after.transcribedAt.Some?)
  }

  /** An upload moves a session forward and never changes a transcription. */
  lemma UploadAdvances(s: Session, req: UploadRequest, uploadFolder: string, now: Timestamp)
    requires QuestionsPresent(s)
    ensures Advances(s, Upload(s, req, uploadFolder, now).session)
    ensures forall p :: p in s.questions ==>
      Upload(s, req, uploadFolder, now).session.questions[p].transcription == s.questions[p].transcription
  {
  }

  /** Transcribing one question never loses a transcription, forgets a
      completion or changes a session's identity. */
  lemma TranscribeOneAdvances(s: Session, q: int, extract: string -> Outcome<string>, transcribe: string -> Outcome<string>,
                              now: Timestamp)
    requires QuestionsPresent(s)
    ensures Advances(s, TranscribeOne(s, q, extract, transcribe, now).session)
  {
  }

  lemma TranscribeAllAdvances(s: Session, extract: string -> Outcome<string>, transcribe: string -> Outcome<string>,
                              now: int -> Timestamp)
    requires QuestionsPresent(s)
    ensures Advances(s, TranscribeAll(s, extract, transcribe, now).session)
  {
    TranscribeAllRecords(s, extract, transcribe, now);
    forall q | q in QuestionIds
      ensures Advances(s, TranscribeOne(s, q, extract, transcribe, now(q)).session)
    {
      TranscribeOneAdvances(s, q, extract, transcribe, now(q));
    }
  }

  lemma AnalyzeAdvances(s: Session, requestTest: bool, apiKey: Option<string>, categories: seq<Category>,
                        llm: SymptomAnalyzer.Prompt -> Outcome<string>, parse: string -> Option<Json>)
    requires QuestionsPresent(s)
    ensures Advances(s, AnalyzeStep(s, requestTest, apiKey, categories, llm, parse).session)
  {
  }

  // ---------------------------------------------------------------------------
  // The views

  /** One question as the state view reports it. */
  datatype QuestionState = QuestionState(questionId: int, recorded: bool, transcribed: bool)

  datatype SessionState = SessionState(sessionId: SessionId, status: string, questions: seq<QuestionState>, analysis: Option<Json>)

  /** One question as the summary reports it. */
  datatype QuestionSummary = QuestionSummary(questionId: int, title: string, text: string, transcription: Option<string>)

  datatype SessionSummary = SessionSummary(sessionId: SessionId, createdAt: Timestamp, status: string,
                                           questions: seq<QuestionSummary>, analysis: Option<Json>)

  /** Every configured question's id is in a session whose handlers' questions are present. */
  lemma ConfiguredQuestionsPresent(s: Session, config: seq<QuestionConfig>)
    requires QuestionsPresent(s) && ConfigOk(config)
    ensures forall i :: 0 <= i < |config| ==> config[i].id in s.questions
  {
  }

  /** A question has been recorded once it has a recording time (whether or
      not its file still exists), and transcribed once it has a
      transcription, even an empty one. */
  function QuestionStateOf(id: int, r: QuestionRecord): (v: QuestionState)
    ensures v.questionId == id
    ensures v.recorded <==> r.recordedAt.Some?
    ensures v.transcribed <==> r.transcription.Some?
  {
    QuestionState(id, r.recordedAt.Some?, r.transcription.Some?)
  }

  function SummaryOfQuestion(c: QuestionConfig, r: QuestionRecord): (v: QuestionSummary)
    ensures v.questionId == c.id && v.title == c.title && v.text == c.text && v.transcription == r.transcription
  {
    QuestionSummary(c.id, c.title, c.text, r.transcription)
  }

  /** The per-question entries of the state view for the configured questions `cs`, in order. */
  function QuestionStates(s: Session, cs: seq<QuestionConfig>): seq<QuestionState>
    requires forall i :: 0 <= i < |cs| ==> cs[i].id in s.questions
  {
    if |cs| == 0 then []
    else QuestionStates(s, cs[..|cs| - 1]) + [QuestionStateOf(cs[|cs| - 1].id, s.questions[cs[|cs| - 1].id])]
  }

  /** The per-question entries of the summary for the configured questions `cs`, in order. */
  function QuestionSummaries(s: Session, cs: seq<QuestionConfig>): seq<QuestionSummary>
    requires forall i :: 0 <= i < |cs| ==> cs[i].id in s.questions
  {
    if |cs| == 0 then []
    else QuestionSummaries(s, cs[..|cs| - 1]) + [SummaryOfQuestion(cs[|cs| - 1], s.questions[cs[|cs| - 1].id])]
  }

  /** The entries follow the configured questions one for one. */
  lemma {:induction false} QuestionViewsMeaning(s: Session, cs: seq<QuestionConfig>)
    requires forall i :: 0 <= i < |cs| ==> cs[i].id in s.questions
    ensures |QuestionStates(s, cs)| == |cs| && |QuestionSummaries(s, cs)| == |cs|
    ensures forall i :: 0 <= i < |cs| ==> QuestionStates(s, cs)[i] == QuestionStateOf(cs[i].id, s.questions[cs[i].id])
    ensures forall i :: 0 <= i < |cs| ==> QuestionSummaries(s, cs)[i] == SummaryOfQuestion(cs[i], s.questions[cs[i].id])
    decreases |cs|
  {
    if |cs| > 0 {
      var prefix := cs[..|cs| - 1];
      assert forall i :: 0 <= i < |prefix| ==> prefix[i] == cs[i];
      QuestionViewsMeaning(s, prefix);
    }
  }

  /** `get_session_state` for an active session: one entry per configured
      question in configuration order, stating whether it was recorded and transcribed. */
  function StateOf(s: Session, config: seq<QuestionConfig>): (v: SessionState)
    requires QuestionsPresent(s) && ConfigOk(config)
    ensures v.sessionId == s.id && v.status == StatusName(s.status) && v.analysis == s.analysis
    ensures |v.questions| == |config|
    ensures forall i :: 0 <= i < |config| ==>
      var e := v.questions[i];
      var r := s.questions[config[i].id];
      e.questionId == config[i].id && (e.recorded <==> r.recordedAt.Some?) && (e.transcribed <==> r.transcription.Some?)
  {
    ConfiguredQuestionsPresent(s, config);
    QuestionViewsMeaning(s, config);
    SessionState(s.id, StatusName(s.status), QuestionStates(s, config), s.analysis)
  }

  /** `get_summary` for an active session: the configured questions in order
      with their titles, texts and transcriptions, then the analysis. */
  function SummaryOf(s: Session, config: seq<QuestionConfig>): (v: SessionSummary)
    requires QuestionsPresent(s) && ConfigOk(config)
    ensures v.sessionId == s.id && v.createdAt == s.createdAt && v.status == StatusName(s.status) && v.analysis == s.analysis
    ensures |v.questions| == |config|
    ensures forall i :: 0 <= i < |config| ==>
      var e := v.questions[i];
      && e.questionId == config[i].id && e.title == config[i].title && e.text == config[i].text
      && e.transcription == s.questions[config[i].id].transcription
  {
    ConfiguredQuestionsPresent(s, config);
    QuestionViewsMeaning(s, config);
    SessionSummary(s.id, s.createdAt, StatusName(s.status), QuestionSummaries(s, config), s.analysis)
  }
}
