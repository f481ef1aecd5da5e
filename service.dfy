/** The analysis job lifecycle on the server (backend/app/analysis/service.py):
    a record is created `pending`; the background task marks it `processing`,
    commits, calls the model and ends it `completed` with the results or
    `failed` with the error text. */
module Service {
  import opened Wrappers
  import opened Schemas
  import opened Models
  import AiEngine

  /** None of the fields that only a finished run sets. */
  predicate NoResult(a: Analysis) {
    a.errorMessage.None? && a.matchScore.None? && a.matchedSkills.None?
    && a.missingSkills.None? && a.suggestions.None? && a.completedAt.None?
  }

  /** `create_analysis_record`: `id` and `now` stand for the uuid4 default and
      the database clock. */
  function CreateAnalysisRecord(id: string, userId: string, resumeText: string, jobDescription: string,
                                now: Instant): (a: Analysis)
    ensures a.status == Pending && NoResult(a)
    ensures a.id == id && a.userId == userId && a.resumeText == resumeText
      && a.jobDescription == jobDescription && a.createdAt == now
  {
    Analysis(id, userId, resumeText, jobDescription, Pending, None, None, None, None, None, now, None)
  }

  /** The allowed status changes: pending to processing, processing to completed or failed. */
  predicate Transition(from: string, to: string) {
    (from == Pending && to == Processing) || (from == Processing && (to == Completed || to == Failed))
  }

  predicate Terminal(status: string) {
    status == Completed || status == Failed
  }

  /** `analysis.status = "processing"`: the status and nothing else. */
  function MarkProcessing(a: Analysis): (r: Analysis)
    ensures r.status == Processing && r.(status := a.status) == a
  {
    a.(status := Processing)
  }

  /** The fields a run writes once the model call returned or raised. */
  function Finish(a: Analysis, ai: Result<AiResult, string>, now: Instant): (r: Analysis)
    ensures ai.Success? ==>
      r.status == Completed && r.matchScore == Some(ai.value.matchScore)
      && r.matchedSkills == Some(ai.value.matchedSkills) && r.missingSkills == Some(ai.value.missingSkills)
      && r.suggestions == Some(ai.value.suggestions) && r.completedAt == Some(now)
      && r.(status := a.status, matchScore := a.matchScore, matchedSkills := a.matchedSkills,
            missingSkills := a.missingSkills, suggestions := a.suggestions, completedAt := a.completedAt) == a
    ensures ai.Failure? ==>
      r.status == Failed && r.errorMessage == Some(ai.error)
      && r.(status := a.status, errorMessage := a.errorMessage) == a
  {
    match ai
    case Success(res) =>
      a.(matchScore := Some(res.matchScore), matchedSkills := Some(res.matchedSkills),
         missingSkills := Some(res.missingSkills), suggestions := Some(res.suggestions),
         status := Completed, completedAt := Some(now))
    case Failure(msg) =>
      a.(status := Failed, errorMessage := Some(msg))
  }

  /** A run over a fresh record passes through `processing` and ends in
      exactly one terminal status: `completed` with every result field and
      the completion time set when the model call succeeded, `failed` with
      the error text and no result when it raised. Nothing else changes. */
  lemma RunLifecycle(a: Analysis, ai: Result<AiResult, string>, now: Instant)
    requires a.status == Pending && NoResult(a)
    ensures var p := MarkProcessing(a); var f := Finish(p, ai, now);
      Transition(a.status, p.status) && Transition(p.status, f.status) && Terminal(f.status)
      && (f.status == Completed <==> ai.Success?)
      && (f.status == Failed <==> ai.Failure?)
      && (ai.Success? ==>
            f.matchScore == Some(ai.value.matchScore) && f.matchedSkills == Some(ai.value.matchedSkills)
            && f.missingSkills == Some(ai.value.missingSkills) && f.suggestions == Some(ai.value.suggestions)
            && f.completedAt == Some(now) && f.errorMessage.None?)
      && (ai.Failure? ==>
            f.errorMessage == Some(ai.error) && f.matchScore.None? && f.matchedSkills.None?
            && f.missingSkills.None? && f.suggestions.None? && f.completedAt.None?)
      && f.id == a.id && f.userId == a.userId && f.resumeText == a.resumeText
      && f.jobDescription == a.jobDescription && f.createdAt == a.createdAt
  {
  }

  /** A record as `create_analysis_record` stores it reaches its terminal
      status through the allowed changes only, and from there none leads on. */
  lemma CreatedRecordRunsThroughTransitions(id: string, userId: string, resumeText: string,
                                            jobDescription: string, created: Instant,
                                            ai: Result<AiResult, string>, now: Instant)
    ensures var a := CreateAnalysisRecord(id, userId, resumeText, jobDescription, created);
      var p := MarkProcessing(a); var f := Finish(p, ai, now);
      Transition(a.status, p.status) && Transition(p.status, f.status) && Terminal(f.status)
      && (f.status == Completed <==> ai.Success?)
      && forall next :: !Transition(f.status, next)
  {
    RunLifecycle(CreateAnalysisRecord(id, userId, resumeText, jobDescription, created), ai, now);
  }

  /** `run_analysis` does not check the current status: run again on a finished
      record, its first write is not an allowed change, and the record ends
      terminal once more. */
  lemma RerunLeavesTransitions(a: Analysis, ai: Result<AiResult, string>, now: Instant)
    requires Terminal(a.status)
    ensures MarkProcessing(a).status == Processing && !Transition(a.status, MarkProcessing(a).status)
    ensures Terminal(Finish(MarkProcessing(a), ai, now).status)
  {
  }

  /** `run_analysis`: an unknown id changes nothing; otherwise the record is
      marked `processing` and committed before the model is called with the
      record's own resume text and job description, then the outcome is
      written and committed. */
  method RunAnalysis<J>(db: Database, analysisId: string, ollama: (string, nat) -> AiEngine.Attempt,
                        loads: string -> Option<J>, validate: J -> Result<AiResult, string>, now: Instant)
    requires db.Valid()
    modifies db
    ensures db.Valid()
    ensures Find(old(db.rows), analysisId).None? ==> db.rows == old(db.rows) && db.commits == old(db.commits)
    ensures Find(old(db.rows), analysisId).Some? ==>
      var i := Find(old(db.rows), analysisId).value;
      var a := old(db.rows)[i];
      var ai := AiEngine.RetryFrom(AiEngine.BuildPrompt(a.resumeText, a.jobDescription), ollama, AiEngine.ParseWith(loads), validate, 0, "").result;
      && db.rows == old(db.rows)[i := Finish(MarkProcessing(a), ai, now)]
      && db.commits == old(db.commits) + [old(db.rows)[i := MarkProcessing(a)], db.rows]
  {
    var found := Find(db.rows, analysisId);
    if found.None? {
      return;
    }
    var i := found.value;
    var analysis := db.rows[i];

    analysis := MarkProcessing(analysis);
    db.rows := db.rows[i := analysis];
    db.Commit();

    var aiResult, _ := AiEngine.AnalyzeResume(analysis.resumeText, analysis.jobDescription, ollama, loads, validate);
    analysis := Finish(analysis, aiResult, now);
    db.rows := db.rows[i := analysis];
    db.Commit();
  }
}
