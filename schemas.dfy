/** The records exchanged between the back end and the browser: the stored
    analysis row's status vocabulary, the response bodies of the three
    analysis endpoints, the validated model output and the HTTP error. */
module Schemas {
  import opened Wrappers

  // Status strings written by the back end (models.py: pending | processing | completed | failed).
  const Pending := "pending"
  const Processing := "processing"
  const Completed := "completed"
  const Failed := "failed"

  /** A timestamp; only its order matters to the model. */
  type Instant = nat

  /** `AnalysisCreateResponse`. */
  datatype CreateResponse = CreateResponse(id: string, status: string)

  /** `AnalysisResponse`: the body of `GET /analysis/{id}`. */
  datatype AnalysisResponse = AnalysisResponse(
    id: string,
    status: string,
    jobDescription: string,
    matchScore: Option<real>,
    matchedSkills: Option<seq<string>>,
    missingSkills: Option<seq<string>>,
    suggestions: Option<seq<string>>,
    errorMessage: Option<string>,
    createdAt: Instant,
    completedAt: Option<Instant>)

  /** `AnalysisListItem`: one row of `GET /analysis/`. */
  datatype ListItem = ListItem(
    id: string,
    status: string,
    matchScore: Option<real>,
    jobDescriptionPreview: string,
    createdAt: Instant)

  /** `AIAnalysisResult`: the model output after schema validation. */
  datatype AiResult = AiResult(
    matchScore: real,
    matchedSkills: seq<string>,
    missingSkills: seq<string>,
    suggestions: seq<string>)

  /** `HTTPException(status_code, detail)`. */
  datatype HttpError = HttpError(code: int, detail: string)

  /** What an HTTP call made by the browser yields: the response body, or a
      thrown error carrying the server's `detail` when there was one. */
  datatype Reply<T> = Responded(data: T) | Threw(detail: Option<string>)
}
