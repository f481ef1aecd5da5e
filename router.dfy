/** The three analysis endpoints (backend/app/analysis/router.py): creating
    a job behind a fixed sequence of checks, reading one job of the current
    user, and listing the current user's jobs newest first with a shortened
    job description. */
module Router {
  import opened Wrappers
  import opened Text
  import opened Schemas
  import opened Models
  import PdfParser
  import Service

  const MaxUploadBytes := 10 * 1024 * 1024
  const OnlyPdfMessage := "Only PDF files are accepted"
  const TooLargeMessage := "File too large. Maximum size is 10MB."
  const EmptyJobMessage := "Job description cannot be empty"
  const NotFoundMessage := "Analysis not found"
  const PreviewLength := 120
  const Ellipsis := "..."

  /** The uploaded file: the client's file name, if any, and its bytes. */
  datatype Upload = Upload(filename: Option<string>, content: seq<PdfParser.Byte>)

  /** `resume.filename and resume.filename.lower().endswith(".pdf")`. */
  predicate PdfName(filename: Option<string>) {
    filename.Some? && filename.value != "" && EndsWith(AsciiLower(filename.value), ".pdf")
  }

  /** The validation steps of `create_analysis`, in the order it runs them: the stored
      resume text and the stripped job description, or the HTTP error. */
  function Admit(resume: Upload, jobDescription: string, fitz: seq<PdfParser.Byte> -> PdfParser.Opened)
    : (r: Result<(string, string), HttpError>)
    ensures r.Success? <==>
      PdfName(resume.filename) && |resume.content| <= MaxUploadBytes
      && PdfParser.ExtractText(fitz(resume.content)).Success? && PyStrip(jobDescription) != ""
    ensures r.Success? ==> r.value == (PdfParser.ExtractText(fitz(resume.content)).value, PyStrip(jobDescription))
    ensures r.Failure? ==> (r.error.code == 400 || r.error.code == 422)
    ensures r.Failure? && r.error.code == 422 <==>
      PdfName(resume.filename) && |resume.content| <= MaxUploadBytes
      && PdfParser.ExtractText(fitz(resume.content)).Failure?
  {
    if !PdfName(resume.filename) then Failure(HttpError(400, OnlyPdfMessage))
    else if |resume.content| > MaxUploadBytes then Failure(HttpError(400, TooLargeMessage))
    else match PdfParser.ExtractText(fitz(resume.content))
      case Failure(msg) => Failure(HttpError(422, msg))
      case Success(text) =>
        if PyStrip(jobDescription) == "" then Failure(HttpError(400, EmptyJobMessage))
        else Success((text, PyStrip(jobDescription)))
  }

  /** The file-type check comes first: a bad name is refused whatever else is wrong. */
  lemma NameCheckedFirst(resume: Upload, jobDescription: string, fitz: seq<PdfParser.Byte> -> PdfParser.Opened)
    ensures Admit(resume, jobDescription, fitz) == Failure(HttpError(400, OnlyPdfMessage)) <==> !PdfName(resume.filename)
  {
    var r := Admit(resume, jobDescription, fitz);
    if PdfName(resume.filename) && r.Failure? && r.error.code == 422 {
      assert r.error.detail != OnlyPdfMessage || r.error.code != 400;
    }
  }

  /** Ten mebibytes is the largest accepted size: one byte more is refused. */
  lemma SizeLimitInclusive(resume: Upload, jobDescription: string, fitz: seq<PdfParser.Byte> -> PdfParser.Opened)
    requires PdfName(resume.filename)
    ensures Admit(resume, jobDescription, fitz) == Failure(HttpError(400, TooLargeMessage))
        <==> |resume.content| >= MaxUploadBytes + 1
  {
    var r := Admit(resume, jobDescription, fitz);
    if |resume.content| <= MaxUploadBytes && r.Failure? {
      if r.error.code == 400 {
        assert r.error.detail == EmptyJobMessage;
      }
    }
  }

  /** Extraction runs before the description check: an unreadable PDF with a
      blank description is a 422 carrying the parser's message, not a 400. */
  lemma ExtractionBeforeDescription(resume: Upload, jobDescription: string, fitz: seq<PdfParser.Byte> -> PdfParser.Opened)
    requires PdfName(resume.filename) && |resume.content| <= MaxUploadBytes
    requires PdfParser.ExtractText(fitz(resume.content)).Failure?
    ensures Admit(resume, jobDescription, fitz)
        == Failure(HttpError(422, PdfParser.ExtractText(fitz(resume.content)).error))
  {
  }

  /** An admitted request carries a non-empty, stripped description and the parser's text. */
  lemma AdmittedDescriptionIsStripped(resume: Upload, jobDescription: string, fitz: seq<PdfParser.Byte> -> PdfParser.Opened)
    requires Admit(resume, jobDescription, fitz).Success?
    ensures var (text, jd) := Admit(resume, jobDescription, fitz).value;
      text == PdfParser.ExtractText(fitz(resume.content)).value
      && jd == PyStrip(jobDescription) && jd != []
      && !IsPySpace(jd[0]) && !IsPySpace(jd[|jd| - 1])
  {
    StripShape(jobDescription, IsPySpace);
  }

  /** `create_analysis`: `freshId` and `now` stand for the uuid4 default and the
      database clock. A refused request leaves the table as it was; an
      accepted one appends a pending record, commits it and answers with its
      id and status. Scheduling `run_analysis` is the framework's part. */
  method CreateAnalysis(db: Database, userId: string, resume: Upload, jobDescription: string,
                        fitz: seq<PdfParser.Byte> -> PdfParser.Opened, freshId: string, now: Instant)
    returns (r: Result<CreateResponse, HttpError>)
    requires db.Valid()
    requires forall i :: 0 <= i < |db.rows| ==> db.rows[i].id != freshId
    modifies db
    ensures db.Valid()
    ensures Admit(resume, jobDescription, fitz).Failure? ==>
      r == Failure(Admit(resume, jobDescription, fitz).error)
      && db.rows == old(db.rows) && db.commits == old(db.commits)
    ensures Admit(resume, jobDescription, fitz).Success? ==>
      var (text, jd) := Admit(resume, jobDescription, fitz).value;
      && r == Success(CreateResponse(freshId, Pending))
      && db.rows == old(db.rows) + [Service.CreateAnalysisRecord(freshId, userId, text, jd, now)]
      && db.commits == old(db.commits) + [db.rows]
  {
    if !PdfName(resume.filename) {
      return Failure(HttpError(400, OnlyPdfMessage));
    }

    var pdfBytes := resume.content;
    if |pdfBytes| > MaxUploadBytes {
      return Failure(HttpError(400, TooLargeMessage));
    }

    var extracted := PdfParser.ExtractTextFromPdf(pdfBytes, fitz);
    if extracted.Failure? {
      return Failure(HttpError(422, extracted.error));
    }
    var resumeText := extracted.value;

    if PyStrip(jobDescription) == "" {
      return Failure(HttpError(400, EmptyJobMessage));
    }

    var analysis := Service.CreateAnalysisRecord(freshId, userId, resumeText, PyStrip(jobDescription), now);
    assert Admit(resume, jobDescription, fitz) == Success((resumeText, PyStrip(jobDescription)));
    AppendFreshKeepsUnique(db.rows, analysis);
    db.rows := db.rows + [analysis];
    db.Commit();

    r := Success(CreateResponse(analysis.id, analysis.status));
  }

  /** The response body for a stored row. */
  /** The response model of a record: its own fields; the owner and the
      resume text are not sent. */
  function ToResponse(a: Analysis): (r: AnalysisResponse)
    ensures r.id == a.id && r.status == a.status && r.jobDescription == a.jobDescription
      && r.matchScore == a.matchScore && r.matchedSkills == a.matchedSkills
      && r.missingSkills == a.missingSkills && r.suggestions == a.suggestions
      && r.errorMessage == a.errorMessage && r.createdAt == a.createdAt && r.completedAt == a.completedAt
  {
    AnalysisResponse(a.id, a.status, a.jobDescription, a.matchScore, a.matchedSkills, a.missingSkills,
                     a.suggestions, a.errorMessage, a.createdAt, a.completedAt)
  }

  /** The last row with this id that belongs to this user. */
  function FindOwned(rows: seq<Analysis>, id: string, userId: string): (r: Option<nat>)
    ensures r.Some? ==> r.value < |rows| && rows[r.value].id == id && rows[r.value].userId == userId
    ensures r.None? <==> forall i :: 0 <= i < |rows| ==> !(rows[i].id == id && rows[i].userId == userId)
  {
    if rows == [] then None
    else if rows[|rows| - 1].id == id && rows[|rows| - 1].userId == userId then Some(|rows| - 1)
    else FindOwned(rows[..|rows| - 1], id, userId)
  }

  /** `get_analysis`: the record with that id when it belongs to the caller,
      and 404 otherwise, whether the id is unknown or another user's. */
  function GetAnalysis(db: Database, analysisId: string, userId: string): (r: Result<AnalysisResponse, HttpError>)
    reads db
    ensures r.Failure? <==> forall i :: 0 <= i < |db.rows| ==> !(db.rows[i].id == analysisId && db.rows[i].userId == userId)
    ensures r.Failure? ==> r.error == HttpError(404, NotFoundMessage)
    ensures r.Success? ==>
      r.value.id == analysisId && exists i :: 0 <= i < |db.rows| && db.rows[i].userId == userId && r.value == ToResponse(db.rows[i])
  {
    match FindOwned(db.rows, analysisId, userId)
    case None => Failure(HttpError(404, NotFoundMessage))
    case Some(i) => Success(ToResponse(db.rows[i]))
  }

  /** Another user's record cannot be told apart from a missing one. */
  lemma ForeignRecordLooksMissing(db: Database, analysisId: string, userId: string)
    requires db.Valid()
    requires exists i :: 0 <= i < |db.rows| && db.rows[i].id == analysisId && db.rows[i].userId != userId
    ensures GetAnalysis(db, analysisId, userId) == Failure(HttpError(404, NotFoundMessage))
  {
  }

  /** `job_description[:120] + ("..." if len(job_description) > 120 else "")`. */
  function Preview(jobDescription: string): (p: string)
    ensures |p| <= PreviewLength + |Ellipsis|
    ensures |jobDescription| <= PreviewLength ==> p == jobDescription
    ensures |jobDescription| > PreviewLength ==>
      |p| == PreviewLength + |Ellipsis| && p[..PreviewLength] == jobDescription[..PreviewLength]
      && p[PreviewLength..] == Ellipsis
  {
    Take(jobDescription, PreviewLength) + (if |jobDescription| > PreviewLength then Ellipsis else "")
  }

  /** A listing entry: the record's id, status, score and time, and the
      description cut down to its preview. */
  function ToListItem(a: Analysis): (r: ListItem)
    ensures r.id == a.id && r.status == a.status && r.matchScore == a.matchScore && r.createdAt == a.createdAt
    ensures r.jobDescriptionPreview == Preview(a.jobDescription)
      && |r.jobDescriptionPreview| <= PreviewLength + |Ellipsis|
  {
    ListItem(a.id, a.status, a.matchScore, Preview(a.jobDescription), a.createdAt)
  }

  /** `.where(Analysis.user_id == current_user.id)`. */
  function OwnedBy(rows: seq<Analysis>, userId: string): (r: seq<Analysis>)
    ensures forall i :: 0 <= i < |r| ==> r[i].userId == userId
    ensures forall a :: a in rows && a.userId == userId ==> multiset(r)[a] == multiset(rows)[a]
    ensures forall a :: a in r ==> a in rows
  {
    if rows == [] then []
    else
      var rest := OwnedBy(rows[..|rows| - 1], userId);
      var last := rows[|rows| - 1];
      assert rows == rows[..|rows| - 1] + [last];
      if last.userId == userId then rest + [last] else rest
  }

  predicate NewestFirstOrder(rows: seq<Analysis>) {
    forall i, j :: 0 <= i < j < |rows| ==> rows[i].createdAt >= rows[j].createdAt
  }

  /** Places `a` before the first row that is not newer than it. */
  function Insert(a: Analysis, rows: seq<Analysis>): (r: seq<Analysis>)
    requires NewestFirstOrder(rows)
    ensures NewestFirstOrder(r)
    ensures multiset(r) == multiset(rows) + multiset{a}
  {
    if rows == [] || a.createdAt >= rows[0].createdAt then [a] + rows
    else
      OrderSplits(rows);
      var tail := Insert(a, rows[1..]);
      assert rows == [rows[0]] + rows[1..];
      NoNewerThan(rows[0].createdAt, a, rows[1..], tail);
      OrderJoins(rows[0], tail);
      [rows[0]] + tail
  }

  /** A newest-first sequence is its newest row before a newest-first rest. */
  lemma OrderSplits(rows: seq<Analysis>)
    requires rows != [] && NewestFirstOrder(rows)
    ensures NewestFirstOrder(rows[1..])
    ensures forall k :: 0 <= k < |rows[1..]| ==> rows[1..][k].createdAt <= rows[0].createdAt
  {
  }

  lemma OrderJoins(first: Analysis, rest: seq<Analysis>)
    requires NewestFirstOrder(rest)
    requires forall k :: 0 <= k < |rest| ==> rest[k].createdAt <= first.createdAt
    ensures NewestFirstOrder([first] + rest)
  {
  }

  /** A bound on every row of `rest` and on `a` bounds every row of a
      rearrangement of `rest` with `a` added. */
  lemma NoNewerThan(top: Instant, a: Analysis, rest: seq<Analysis>, tail: seq<Analysis>)
    requires a.createdAt <= top
    requires forall k :: 0 <= k < |rest| ==> rest[k].createdAt <= top
    requires multiset(tail) == multiset(rest) + multiset{a}
    ensures forall k :: 0 <= k < |tail| ==> tail[k].createdAt <= top
  {
    forall k | 0 <= k < |tail| ensures tail[k].createdAt <= top {
      assert tail[k] in multiset(tail);
      if tail[k] != a {
        assert tail[k] in rest;
      }
    }
  }

  /** `.order_by(Analysis.created_at.desc())`: the same rows, newest first. */
  function NewestFirst(rows: seq<Analysis>): (r: seq<Analysis>)
    ensures NewestFirstOrder(r)
    ensures multiset(r) == multiset(rows)
  {
    if rows == [] then []
    else
      assert rows == [rows[0]] + rows[1..];
      Insert(rows[0], NewestFirst(rows[1..]))
  }

  /** `list_analyses`. */
  function ListAnalyses(db: Database, userId: string): (items: seq<ListItem>)
    reads db
    ensures |items| == |OwnedBy(db.rows, userId)|
    ensures forall i, j :: 0 <= i < j < |items| ==> items[i].createdAt >= items[j].createdAt
  {
    var mine := NewestFirst(OwnedBy(db.rows, userId));
    seq(|mine|, i requires 0 <= i < |mine| => ToListItem(mine[i]))
  }

  /** The listing holds exactly the caller's records, each once as often as
      it is stored, newest first, each with its preview. */
  lemma ListingIsOwnNewestFirst(db: Database, userId: string)
    ensures var items, mine := ListAnalyses(db, userId), NewestFirst(OwnedBy(db.rows, userId));
      |items| == |mine| && multiset(mine) == multiset(OwnedBy(db.rows, userId))
      && (forall i :: 0 <= i < |items| ==> mine[i].userId == userId && mine[i] in db.rows && items[i] == ToListItem(mine[i]))
      && (forall i, j :: 0 <= i < j < |items| ==> items[i].createdAt >= items[j].createdAt)
      && (forall a :: a in db.rows && a.userId == userId ==> a in mine)
  {
    var mine := NewestFirst(OwnedBy(db.rows, userId));
    forall i | 0 <= i < |mine| ensures mine[i].userId == userId && mine[i] in db.rows {
      assert mine[i] in multiset(mine);
    }
    forall a | a in db.rows && a.userId == userId ensures a in mine {
      assert a in multiset(db.rows);
      assert multiset(mine)[a] == multiset(db.rows)[a];
    }
  }
}
