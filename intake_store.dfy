/** The application's in-memory session store (`patient_sessions` in app.py)
    and the request handlers that look a session up by the id in the
    client's cookie and update it in place. Each handler is proved to
    change exactly what the corresponding transition of `Intake` says, and
    to keep every stored session well formed. The cookie is a parameter:
    the id the client sent, if any. */
module IntakeStore {
  import opened Results
  import opened Text
  import opened JsonValues
  import opened Config
  import opened Intake
  import PosixPath
  import AudioExtractor
  import SymptomAnalyzer

  class SessionStore {
    /** Every session created so far, by id. */
    var sessions: map<SessionId, Session>
    /** The folder under which each session gets a folder for its uploads. */
    const uploadFolder: string
    /** The configured interview questions. */
    const questions: seq<QuestionConfig>
    /** The configured symptom categories offered to the analyzer. */
    const categories: seq<Category>

    /** Every stored session is filed under its own id and is well formed. */
    ghost predicate Valid()
      reads this
    {
      && ConfigOk(questions)
      && forall id :: id in sessions ==> sessions[id].id == id && Wellformed(sessions[id])
    }

    /** The store at start-up: no sessions, and the application's configuration. */
    constructor (uploadFolder: string)
      ensures Valid() && sessions == map[] && this.uploadFolder == uploadFolder
      ensures questions == Questions && categories == SymptomCategories
    {
      this.uploadFolder := uploadFolder;
      questions := Questions;
      categories := SymptomCategories;
      sessions := map[];
      ConfiguredQuestionsOk();
    }

    /** `get_session_data`: the session named by a non-empty cookie id, when
        one is stored under it. A session found is the one with that id and
        is well formed. */
    function SessionData(cookie: Option<SessionId>): (r: Option<Session>)
      reads this
      ensures r.Some? <==> cookie.Some? && cookie.value != "" && cookie.value in sessions
      ensures r.Some? ==> r.value == sessions[cookie.value]
      ensures r.Some? && Valid() ==> r.value.id == cookie.value && Wellformed(r.value) && QuestionsPresent(r.value)
    {
      if cookie.Some? && cookie.value != "" && cookie.value in sessions then Some(sessions[cookie.value]) else None
    }

    /** Writes a well-formed session back under its id. */
    method Store(s: Session)
      requires Valid() && Wellformed(s)
      modifies this
      ensures Valid() && sessions == old(sessions)[s.id := s]
    {
      sessions := sessions[s.id := s];
    }

    /** `create_session`: stores a new session under a fresh id (the id the
        cookie is then set to); a session already stored under that id would be replaced. */
    method CreateSession(newId: SessionId, now: Timestamp, testMode: bool) returns (s: Session)
      requires Valid()
      modifies this
      ensures Valid()
      ensures s == NewSession(newId, now, testMode, questions)
      ensures sessions == old(sessions)[newId := s]
      ensures newId != "" ==> SessionData(Some(newId)) == Some(s)
    {
      s := NewSession(newId, now, testMode, questions);
      NewSessionWellformed(newId, now, testMode, questions);
      sessions := sessions[newId := s];
    }

    /** `upload_video`. */
    method UploadVideo(cookie: Option<SessionId>, req: UploadRequest, now: Timestamp) returns (reply: Result<int, AppError>)
      requires Valid()
      modifies this
      ensures Valid()
      ensures old(SessionData(cookie)).None? ==> reply == Failure(NoActiveSession) && sessions == old(sessions)
      ensures old(SessionData(cookie)).Some? ==>
        var s := old(SessionData(cookie)).value;
        var st := Upload(s, req, uploadFolder, now);
        reply == st.reply && sessions == old(sessions)[s.id := st.session]
    {
      var data := SessionData(cookie);
      if data.None? {
        return Failure(NoActiveSession);
      }
      var s := data.value;
      if !req.hasVideo {
        return Failure(NoVideoFileProvided);
      }
      if req.questionId.None? || req.questionId.value == 0 || req.questionId.value !in QuestionIds {
        return Failure(InvalidQuestionId);
      }
      var q := req.questionId.value;
      if req.filename == "" {
        return Failure(NoFileSelected);
      }
      var sessionFolder := PosixPath.Join(uploadFolder, s.id);
      var videoPath := PosixPath.Join(sessionFolder, AudioExtractor.VideoFileName(q));
      var record := s.questions[q];
      record := record.(videoPath := Some(videoPath));
      record := record.(recordedAt := Some(now));
      UploadWellformed(s, req, uploadFolder, now);
      sessions := sessions[s.id := WithRecord(s, q, record)];
      reply := Success(q);
    }

    /** `transcribe_video(q)`: extraction, then transcription of the extracted audio. */
    method TranscribeVideo(cookie: Option<SessionId>, q: int, extract: string -> Outcome<string>,
                           transcribe: string -> Outcome<string>, now: Timestamp) returns (reply: Result<string, AppError>)
      requires Valid()
      modifies this
      ensures Valid()
      ensures old(SessionData(cookie)).None? ==> reply == Failure(NoActiveSession) && sessions == old(sessions)
      ensures old(SessionData(cookie)).Some? ==>
        var s := old(SessionData(cookie)).value;
        var st := TranscribeOne(s, q, extract, transcribe, now);
        reply == st.reply && sessions == old(sessions)[s.id := st.session]
    {
      var data := SessionData(cookie);
      if data.None? {
        return Failure(NoActiveSession);
      }
      var s := data.value;
      if q !in QuestionIds {
        return Failure(InvalidQuestionId);
      }
      var record := s.questions[q];
      if !HasVideo(record) {
        return Failure(NoVideoRecorded);
      }
      var audio := extract(record.videoPath.value);
      if audio.Fail? {
        return Failure(PipelineFailed(audio.message));
      }
      var transcription := transcribe(audio.value);
      if transcription.Fail? {
        return Failure(PipelineFailed(transcription.message));
      }
      record := record.(transcription := Some(transcription.value), transcribedAt := Some(now));
      record := record.(videoPath := None, audioPath := None);
      TranscribeOneWellformed(s, q, extract, transcribe, now);
      sessions := sessions[s.id := WithRecord(s, q, record)];
      reply := Success(transcription.value);
    }

    /** `transcribe_all`, on the session the cookie names. */
    method TranscribeAll(cookie: Option<SessionId>, extract: string -> Outcome<string>,
                         transcribe: string -> Outcome<string>, now: int -> Timestamp) returns (reply: Result<BatchReport, AppError>)
      requires Valid()
      modifies this
      ensures Valid()
      ensures old(SessionData(cookie)).None? ==> reply == Failure(NoActiveSession) && sessions == old(sessions)
      ensures old(SessionData(cookie)).Some? ==>
        var s := old(SessionData(cookie)).value;
        var st := Intake.TranscribeAll(s, extract, transcribe, now);
        reply == st.reply && sessions == old(sessions)[s.id := st.session]
    {
      var data := SessionData(cookie);
      if data.None? {
        return Failure(NoActiveSession);
      }
      var s := data.value;
      var st := TranscribeEach(s, extract, transcribe, now);
      TranscribeAllWellformed(s, extract, transcribe, now);
      TranscribeAllRecords(s, extract, transcribe, now);
      Store(st.session);
      reply := st.reply;
    }

    /** `analyze_symptoms`, on the session the cookie names: a successful
        analysis is stored and completes the session. */
    method Analyze(cookie: Option<SessionId>, requestTest: bool, apiKey: Option<string>,
                   llm: SymptomAnalyzer.Prompt -> Outcome<string>, parse: string -> Option<Json>) returns (reply: Result<Json, AppError>)
      requires Valid()
      modifies this
      ensures Valid()
      ensures old(SessionData(cookie)).None? ==> reply == Failure(NoActiveSession) && sessions == old(sessions)
      ensures old(SessionData(cookie)).Some? ==>
        var s := old(SessionData(cookie)).value;
        var st := AnalyzeStep(s, requestTest, apiKey, categories, llm, parse);
        reply == st.reply && sessions == old(sessions)[s.id := st.session]
    {
      var data := SessionData(cookie);
      if data.None? {
        return Failure(NoActiveSession);
      }
      var s := data.value;
      var st := AnalyzeSession(s, requestTest, apiKey, categories, llm, parse);
      if st.reply.Success? {
        AnalyzeWellformed(s, requestTest, apiKey, categories, llm, parse);
        Store(st.session);
      }
      reply := st.reply;
    }

    /** `get_session_state`: changes nothing. */
    method GetSessionState(cookie: Option<SessionId>) returns (reply: Result<SessionState, AppError>)
      requires Valid()
      ensures SessionData(cookie).None? ==> reply == Failure(NoActiveSession)
      ensures SessionData(cookie).Some? ==> reply == Success(StateOf(SessionData(cookie).value, questions))
    {
      var data := SessionData(cookie);
      if data.None? {
        return Failure(NoActiveSession);
      }
      var s := data.value;
      ConfiguredQuestionsPresent(s, questions);
      var states: seq<QuestionState> := [];
      for i := 0 to |questions|
        invariant states == QuestionStates(s, questions[..i])
      {
        var c := questions[i];
        var record := s.questions[c.id];
        assert questions[..i + 1][..i] == questions[..i];
        states := states + [QuestionState(c.id, record.recordedAt.Some?, record.transcription.Some?)];
      }
      assert questions[..|questions|] == questions;
      reply := Success(SessionState(s.id, StatusName(s.status), states, s.analysis));
    }

    /** `get_summary`: changes nothing. */
    method GetSummary(cookie: Option<SessionId>) returns (reply: Result<SessionSummary, AppError>)
      requires Valid()
      ensures SessionData(cookie).None? ==> reply == Failure(NoActiveSession)
      ensures SessionData(cookie).Some? ==> reply == Success(SummaryOf(SessionData(cookie).value, questions))
    {
      var data := SessionData(cookie);
      if data.None? {
        return Failure(NoActiveSession);
      }
      var s := data.value;
      ConfiguredQuestionsPresent(s, questions);
      var entries: seq<QuestionSummary> := [];
      for i := 0 to |questions|
        invariant entries == QuestionSummaries(s, questions[..i])
      {
        var c := questions[i];
        assert questions[..i + 1][..i] == questions[..i];
        entries := entries + [QuestionSummary(c.id, c.title, c.text, s.questions[c.id].transcription)];
      }
      assert questions[..|questions|] == questions;
      reply := Success(SessionSummary(s.id, s.createdAt, StatusName(s.status), entries, s.analysis));
    }
  }

  /** The loop of `transcribe_all` over questions 1, 2 and 3: a question
      without a video or with a failing pipeline adds an error line and the
      loop goes on; a transcribed one is stored in the session and the results. */
  method TranscribeEach(s: Session, extract: string -> Outcome<string>, transcribe: string -> Outcome<string>,
                        now: int -> Timestamp) returns (st: Step<BatchReport>)
    requires QuestionsPresent(s)
    ensures st == Intake.TranscribeAll(s, extract, transcribe, now)
  {
    var current := s;
    var results: map<int, string> := map[];
    var errors: seq<string> := [];
    for i := 0 to |QuestionIds|
      invariant BatchOver(s, QuestionIds[..i], extract, transcribe, now) == BatchState(current, results, errors)
    {
      var q := QuestionIds[i];
      BatchOverStep(s, QuestionIds, i, extract, transcribe, now);
      var record := current.questions[q];
      if !HasVideo(record) {
        errors := errors + ["No video for question " + IntToString(q)];
      } else {
        var audio := extract(record.videoPath.value);
        if audio.Fail? {
          errors := errors + ["Question " + IntToString(q) + ": " + audio.message];
        } else {
          var transcription := transcribe(audio.value);
          if transcription.Fail? {
            errors := errors + ["Question " + IntToString(q) + ": " + transcription.message];
          } else {
            record := record.(transcription := Some(transcription.value), transcribedAt := Some(now(q)));
            results := results[q := transcription.value];
            record := record.(videoPath := None, audioPath := None);
            current := WithRecord(current, q, record);
          }
        }
      }
    }
    assert QuestionIds[..|QuestionIds|] == QuestionIds;
    st := Step(current, Success(BatchReport(|errors| == 0, results, if |errors| > 0 then Some(errors) else None)));
  }

  /** The readiness loop of `analyze_symptoms` over the required questions,
      returning at the first one without a transcription, then the analyzer. */
  method AnalyzeSession(s: Session, requestTest: bool, apiKey: Option<string>, categories: seq<Category>,
                        llm: SymptomAnalyzer.Prompt -> Outcome<string>, parse: string -> Option<Json>) returns (st: Step<Json>)
    requires QuestionsPresent(s)
    ensures st == AnalyzeStep(s, requestTest, apiKey, categories, llm, parse)
  {
    var testMode := requestTest || s.testMode;
    var required := if testMode then [1] else [1, 2, 3];
    var transcriptions: map<int, string> := map[];
    for i := 0 to |required|
      invariant forall q :: q in required[..i] ==> q in s.questions
      invariant Gate(s, required[..i]) == Success(transcriptions)
    {
      GateStep(s, required, i);
      var t := s.questions[required[i]].transcription;
      if t.None? {
        GateFailureKept(s, required, i + 1);
        assert required[..|required|] == required;
        return Step(s, Failure(NotYetTranscribed(required[i])));
      }
      transcriptions := transcriptions[required[i] := if t.value != "" then t.value else NoSpeech];
    }
    assert required[..|required|] == required;
    var analysis := SymptomAnalyzer.AnalyzeSymptoms(transcriptions, apiKey, categories, llm, parse);
    if analysis.Failure? {
      return Step(s, Failure(AnalysisFailed(SymptomAnalyzer.ErrorMessage(analysis.error))));
    }
    var updated := s.(analysis := Some(analysis.value));
    updated := updated.(status := Completed);
    st := Step(updated, Success(analysis.value));
  }
}
