/** The upload form (frontend/src/pages/AnalyzePage.jsx): choosing the PDF by
    drop or file input, submitting it with the job description, and polling
    the analysis status until it completes, fails or runs out of attempts. */
module AnalyzePage {
  import opened Wrappers
  import opened Text
  import opened Schemas

  const MaxPollAttempts := 60
  const PollIntervalMs := 2000
  const PdfType := "application/pdf"

  const NotPdfMessage := "Please upload a PDF file"
  const NoFileMessage := "Please upload your resume PDF"
  const NoDescriptionMessage := "Please paste the job description"
  const SubmitFailedMessage := "Failed to submit. Please try again."
  const AnalysisFailedMessage := "Analysis failed. Please try again."
  const TimedOutMessage := "Analysis timed out. Please try again."

  const UploadingLabel := "Uploading..."
  const ProcessingLabel := "Processing..."
  const AnalyzingLabel := "AI is analyzing your resume..."
  const QueuedLabel := "Queued..."

  /** The first file of a drop or of the file input: its name and MIME type. */
  datatype PickedFile = PickedFile(name: string, mimeType: string)

  /** What the page does to the outside world, in order. */
  datatype Effect =
    | Wait(ms: nat)
    | Get(path: string)
    | Upload(fileName: string, jobDescription: string)
    | Navigate(path: string)

  datatype DragEvent = DragEnter | DragOver | DragLeave | OtherDragEvent

  function StatusPath(id: string): string { "/analysis/" + id }
  function ResultPath(id: string): string { "/result/" + id }

  /** The progress text for a status that is neither completed nor failed. */
  function ProgressLabel(status: string): (l: string)
    ensures l == AnalyzingLabel <==> status == Processing
    ensures l == AnalyzingLabel || l == QueuedLabel
  {
    if status == Processing then AnalyzingLabel else QueuedLabel
  }

  /** A reply that ends polling: a completed or failed record. A thrown fetch
      does not. */
  predicate IsTerminal(reply: Reply<AnalysisResponse>) {
    reply.Responded? && (reply.data.status == Completed || reply.data.status == Failed)
  }

  /** How polling ends; `at` is the attempt whose reply ended it. */
  datatype PollEnd = Navigated(at: nat) | BackendFailed(at: nat, message: string) | TimedOut

  function FetchCount(e: PollEnd): nat {
    match e
    case Navigated(at) => at + 1
    case BackendFailed(at, _) => at + 1
    case TimedOut => MaxPollAttempts
  }

  /** Polling from attempt `i` that navigated or failed did so on a reply at or
      after `i` within the 60 attempts: a completed record, or a failed one
      whose message (or the default) it reports. */
  predicate EndsOnReply(server: nat -> Reply<AnalysisResponse>, i: nat, e: PollEnd) {
    && (e.Navigated? ==>
          i <= e.at < MaxPollAttempts && server(e.at).Responded? && server(e.at).data.status == Completed)
    && (e.BackendFailed? ==>
          i <= e.at < MaxPollAttempts && server(e.at).Responded? && server(e.at).data.status == Failed
          && e.message == OrElse(server(e.at).data.errorMessage, AnalysisFailedMessage))
  }

  /** The outcome of polling from attempt `i` on, the server answering the
      k-th status fetch with `server(k)`. */
  function PollFrom(server: nat -> Reply<AnalysisResponse>, i: nat): (e: PollEnd)
    requires i <= MaxPollAttempts
    ensures EndsOnReply(server, i, e)
    decreases MaxPollAttempts - i
  {
    if i == MaxPollAttempts then TimedOut
    else match server(i)
      case Responded(d) =>
        if d.status == Completed then Navigated(i)
        else if d.status == Failed then BackendFailed(i, OrElse(d.errorMessage, AnalysisFailedMessage))
        else PollFrom(server, i + 1)
      case Threw(_) => PollFrom(server, i + 1)
  }

  /** The `status` text after the first `n` attempts, none of them terminal. */
  function LabelAfter(server: nat -> Reply<AnalysisResponse>, n: nat, initial: string): string {
    if n == 0 then initial
    else match server(n - 1)
      case Responded(d) => ProgressLabel(d.status)
      case Threw(_) => LabelAfter(server, n - 1, initial)
  }

  /** `n` attempts: each a 2000 ms wait followed by one status fetch. */
  function PollTrace(id: string, n: nat): (r: seq<Effect>)
    ensures |r| == 2 * n
  {
    if n == 0 then [] else PollTrace(id, n - 1) + [Wait(PollIntervalMs), Get(StatusPath(id))]
  }

  /** Every fetch comes right after its own wait: no fetch before the first
      wait, and no two fetches without a wait between them. */
  lemma {:induction false} PollTraceAlternates(id: string, n: nat)
    ensures forall k :: 0 <= k < n ==>
      PollTrace(id, n)[2 * k] == Wait(PollIntervalMs) && PollTrace(id, n)[2 * k + 1] == Get(StatusPath(id))
  {
    if n > 0 {
      PollTraceAlternates(id, n - 1);
    }
  }

  /** The part of the page's state that submitting and polling change. */
  datatype FormState = FormState(error: string, submitting: bool, status: string, effects: seq<Effect>)

  /** Polling only appends effects, never starts a submission, and when it
      does not navigate it ends the submission with an error message. */
  predicate KeepsHistory(s: FormState, r: FormState, navigated: bool) {
    && |s.effects| <= |r.effects| && r.effects[..|s.effects|] == s.effects
    && (r.submitting ==> s.submitting)
    && (!navigated ==> !r.submitting && r.error != [])
  }

  /** The state after `pollForResult(id)` has run to its end from state `s`. */
  function AfterPoll(s: FormState, id: string, server: nat -> Reply<AnalysisResponse>): (r: FormState)
    ensures KeepsHistory(s, r, PollFrom(server, 0).Navigated?)
  {
    var e := PollFrom(server, 0);
    match e
    case Navigated(at) =>
      s.(status := LabelAfter(server, at, s.status),
         effects := s.effects + PollTrace(id, at + 1) + [Navigate(ResultPath(id))])
    case BackendFailed(at, message) =>
      FormState(message, false, LabelAfter(server, at, s.status), s.effects + PollTrace(id, at + 1))
    case TimedOut =>
      FormState(TimedOutMessage, false, LabelAfter(server, MaxPollAttempts, s.status),
        s.effects + PollTrace(id, MaxPollAttempts))
  }

  /** The number of status fetches among `effects`. */
  function GetCount(effects: seq<Effect>): nat {
    if effects == [] then 0 else GetCount(effects[..|effects| - 1]) + (if effects[|effects| - 1].Get? then 1 else 0)
  }

  lemma {:induction false} GetCountAppend(a: seq<Effect>, b: seq<Effect>)
    ensures GetCount(a + b) == GetCount(a) + GetCount(b)
    decreases |b|
  {
    if b == [] {
      assert a + b == a;
    } else {
      assert (a + b)[..|a + b| - 1] == a + b[..|b| - 1];
      assert (a + b)[|a + b| - 1] == b[|b| - 1];
      GetCountAppend(a, b[..|b| - 1]);
    }
  }

  /** `n` attempts make `n` fetches. */
  lemma {:induction false} PollTraceGets(id: string, n: nat)
    ensures GetCount(PollTrace(id, n)) == n
  {
    if n > 0 {
      PollTraceGets(id, n - 1);
      GetCountAppend(PollTrace(id, n - 1), [Wait(PollIntervalMs), Get(StatusPath(id))]);
      var round := [Wait(PollIntervalMs), Get(StatusPath(id))];
      assert round[..1] == [Wait(PollIntervalMs)] && round[..1][..0] == [];
      assert GetCount(round[..1]) == 0;
      assert PollTrace(id, n) == PollTrace(id, n - 1) + round;
    }
  }

  /** Polling adds exactly as many fetches to the page's effects as its
      outcome names. */
  lemma PollFetchesCounted(s: FormState, id: string, server: nat -> Reply<AnalysisResponse>)
    ensures GetCount(AfterPoll(s, id, server).effects) == GetCount(s.effects) + FetchCount(PollFrom(server, 0))
  {
    var e := PollFrom(server, 0);
    var n := FetchCount(e);
    PollTraceGets(id, n);
    GetCountAppend(s.effects, PollTrace(id, n));
    if e.Navigated? {
      GetCountAppend(s.effects + PollTrace(id, n), [Navigate(ResultPath(id))]);
      assert GetCount([Navigate(ResultPath(id))]) == 0;
    }
  }

  /** One attempt of polling, unfolded. */
  lemma PollStep(server: nat -> Reply<AnalysisResponse>, id: string, i: nat, initial: string)
    requires i < MaxPollAttempts
    ensures server(i).Responded? && server(i).data.status == Completed ==> PollFrom(server, i) == Navigated(i)
    ensures server(i).Responded? && server(i).data.status == Failed ==>
      PollFrom(server, i) == BackendFailed(i, OrElse(server(i).data.errorMessage, AnalysisFailedMessage))
    ensures !IsTerminal(server(i)) ==> PollFrom(server, i) == PollFrom(server, i + 1)
    ensures LabelAfter(server, i + 1, initial)
      == if server(i).Responded? then ProgressLabel(server(i).data.status) else LabelAfter(server, i, initial)
    ensures PollTrace(id, i + 1) == PollTrace(id, i) + [Wait(PollIntervalMs), Get(StatusPath(id))]
  {
  }

  lemma AppendRound(before: seq<Effect>, trace: seq<Effect>, round: seq<Effect>)
    ensures before + trace + round == before + (trace + round)
  {
  }

  /** The state after polling that ended with the record at attempt `at`. */
  lemma AfterPollEndsAt(s: FormState, id: string, server: nat -> Reply<AnalysisResponse>, at: nat)
    requires PollFrom(server, 0) == Navigated(at) || PollFrom(server, 0).BackendFailed?
    requires PollFrom(server, 0).at == at
    ensures var after := AfterPoll(s, id, server);
      after.status == LabelAfter(server, at, s.status)
      && after.effects == s.effects + PollTrace(id, at + 1)
        + (if PollFrom(server, 0).Navigated? then [Navigate(ResultPath(id))] else [])
      && after.error == (if PollFrom(server, 0).Navigated? then s.error else PollFrom(server, 0).message)
      && after.submitting == (PollFrom(server, 0).Navigated? && s.submitting)
  {
  }

  /** Polling makes at least one and at most 60 fetches. */
  lemma {:induction false} PollBounded(server: nat -> Reply<AnalysisResponse>, i: nat)
    requires i <= MaxPollAttempts
    ensures i < FetchCount(PollFrom(server, i)) || FetchCount(PollFrom(server, i)) == MaxPollAttempts
    ensures 1 <= FetchCount(PollFrom(server, i)) <= MaxPollAttempts
    decreases MaxPollAttempts - i
  {
    if i < MaxPollAttempts && !IsTerminal(server(i)) {
      PollBounded(server, i + 1);
    }
  }

  /** The first terminal reply ends polling: navigation for a completed record,
      the backend's message (or the default) for a failed one. */
  lemma {:induction false} FirstTerminalDecides(server: nat -> Reply<AnalysisResponse>, i: nat, w: nat)
    requires i <= w < MaxPollAttempts && IsTerminal(server(w))
    requires forall j :: i <= j < w ==> !IsTerminal(server(j))
    ensures var d := server(w).data;
      PollFrom(server, i) ==
        if d.status == Completed then Navigated(w)
        else BackendFailed(w, OrElse(d.errorMessage, AnalysisFailedMessage))
    decreases w - i
  {
    if i < w {
      assert !IsTerminal(server(i));
      FirstTerminalDecides(server, i + 1, w);
    }
  }

  /** Polling times out exactly when none of the 60 replies is terminal. */
  lemma {:induction false} TimedOutIff(server: nat -> Reply<AnalysisResponse>, i: nat)
    requires i <= MaxPollAttempts
    ensures PollFrom(server, i).TimedOut? <==> forall j :: i <= j < MaxPollAttempts ==> !IsTerminal(server(j))
    decreases MaxPollAttempts - i
  {
    if i < MaxPollAttempts {
      TimedOutIff(server, i + 1);
      if !IsTerminal(server(i)) && PollFrom(server, i).TimedOut? {
        forall j | i <= j < MaxPollAttempts ensures !IsTerminal(server(j)) {
          if j > i {
            assert i + 1 <= j;
          }
        }
      }
    }
  }

  /** Attempts whose fetch threw leave the progress text as it was. */
  lemma {:induction false} ThrownFetchesKeepLabel(server: nat -> Reply<AnalysisResponse>, n: nat, initial: string)
    requires forall j :: 0 <= j < n ==> server(j).Threw?
    ensures LabelAfter(server, n, initial) == initial
  {
    if n > 0 {
      ThrownFetchesKeepLabel(server, n - 1, initial);
    }
  }

  /** A server that only throws: 60 waits and fetches, then the timeout error,
      with the progress text left as it was. */
  lemma AllThrownTimesOut(s: FormState, id: string, server: nat -> Reply<AnalysisResponse>)
    requires forall j :: 0 <= j < MaxPollAttempts ==> server(j).Threw?
    ensures AfterPoll(s, id, server)
      == FormState(TimedOutMessage, false, s.status, s.effects + PollTrace(id, MaxPollAttempts))
  {
    TimedOutIff(server, 0);
    ThrownFetchesKeepLabel(server, MaxPollAttempts, s.status);
  }

  /** `!text.trim()`: the text has nothing but JavaScript white space. */
  predicate IsBlank(text: string) {
    text == [] || (IsJsSpace(text[0]) && IsBlank(text[1..]))
  }

  /** `IsBlank` is exactly "trimming leaves nothing". */
  lemma BlankIffTrimEmpty(text: string)
    ensures IsBlank(text) <==> JsTrim(text) == []
  {
    StripEmptyIff(text, IsJsSpace);
    BlankIffAllSpace(text);
  }

  lemma {:induction false} BlankIffAllSpace(text: string)
    ensures IsBlank(text) <==> forall k :: 0 <= k < |text| ==> IsJsSpace(text[k])
  {
    if text != [] {
      BlankIffAllSpace(text[1..]);
      assert forall k :: 1 <= k < |text| ==> text[k] == text[1..][k - 1];
    }
  }

  /** The upload form's state. */
  class AnalyzeForm {
    var file: Option<PickedFile>
    var dragActive: bool
    var jobDescription: string
    var error: string
    var submitting: bool
    var status: string
    /** Waits, requests and navigations performed so far. */
    var effects: seq<Effect>

    function Form(): FormState
      reads this
    {
      FormState(error, submitting, status, effects)
    }

    constructor ()
      ensures file.None? && !dragActive && jobDescription == [] && error == []
      ensures !submitting && status == [] && effects == []
    {
      file := None;
      dragActive := false;
      jobDescription := [];
      error := [];
      submitting := false;
      status := [];
      effects := [];
    }

    /** `handleDrag`: entering or hovering highlights the drop zone, leaving clears it. */
    method HandleDrag(event: DragEvent)
      modifies this`dragActive
      ensures event == DragEnter || event == DragOver ==> dragActive
      ensures event == DragLeave ==> !dragActive
      ensures event == OtherDragEvent ==> dragActive == old(dragActive)
    {
      if event == DragEnter || event == DragOver {
        dragActive := true;
      } else if event == DragLeave {
        dragActive := false;
      }
    }

    /** `handleDrop`: a PDF replaces the file and clears the error; anything
        else, including a drop without a file, only sets the error. */
    method HandleDrop(dropped: Option<PickedFile>)
      modifies this`dragActive, this`file, this`error
      ensures !dragActive
      ensures dropped.Some? && dropped.value.mimeType == PdfType ==> file == dropped && error == []
      ensures !(dropped.Some? && dropped.value.mimeType == PdfType) ==>
        file == old(file) && error == NotPdfMessage
    {
      dragActive := false;
      if dropped.Some? && dropped.value.mimeType == PdfType {
        file := dropped;
        error := [];
      } else {
        error := NotPdfMessage;
      }
    }

    /** `handleFileChange`: like a drop, except that closing the picker without
        a selection changes nothing. */
    method HandleFileChange(selected: Option<PickedFile>)
      modifies this`file, this`error
      ensures selected.None? ==> file == old(file) && error == old(error)
      ensures selected.Some? && selected.value.mimeType == PdfType ==> file == selected && error == []
      ensures selected.Some? && selected.value.mimeType != PdfType ==>
        file == old(file) && error == NotPdfMessage
    {
      if selected.Some? && selected.value.mimeType == PdfType {
        file := selected;
        error := [];
      } else if selected.Some? {
        error := NotPdfMessage;
      }
    }

    /** The description textarea. */
    method EditJobDescription(text: string)
      modifies this`jobDescription
      ensures jobDescription == text
    {
      jobDescription := text;
    }

    /** `pollForResult`: up to 60 rounds of a 2000 ms wait and a status fetch;
        a completed record navigates to the result page, a failed one shows its
        message, other records update the progress text, thrown fetches are
        ignored, and running out of rounds shows the timeout message. */
    method PollForResult(analysisId: string, server: nat -> Reply<AnalysisResponse>)
      modifies this`error, this`submitting, this`status, this`effects
      ensures FormState(error, submitting, status, effects)
        == AfterPoll(FormState(old(error), old(submitting), old(status), old(effects)), analysisId, server)
    {
      ghost var s0 := FormState(error, submitting, status, effects);
      var i := 0;
      while i < MaxPollAttempts
        invariant 0 <= i <= MaxPollAttempts
        invariant PollFrom(server, 0) == PollFrom(server, i)
        invariant status == LabelAfter(server, i, s0.status)
        invariant effects == s0.effects + PollTrace(analysisId, i)
        invariant error == s0.error && submitting == s0.submitting
      {
        var reply := server(i);
        PollStep(server, analysisId, i, s0.status);
        AppendRound(s0.effects, PollTrace(analysisId, i), [Wait(PollIntervalMs), Get(StatusPath(analysisId))]);
        effects := effects + [Wait(PollIntervalMs), Get(StatusPath(analysisId))];
        if reply.Responded? && reply.data.status == Completed {
          AfterPollEndsAt(s0, analysisId, server, i);
          effects := effects + [Navigate(ResultPath(analysisId))];
          return;
        }
        if reply.Responded? && reply.data.status == Failed {
          AfterPollEndsAt(s0, analysisId, server, i);
          error := OrElse(reply.data.errorMessage, AnalysisFailedMessage);
          submitting := false;
          return;
        }
        if reply.Responded? {
          status := ProgressLabel(reply.data.status);
        }
        i := i + 1;
      }
      assert PollFrom(server, 0) == TimedOut;
      error := TimedOutMessage;
      submitting := false;
    }

    /** `handleSubmit`: the two form checks, then the upload, then polling.
        `post` is how `POST /analysis/` settles and `server` answers the status
        fetches. */
    method HandleSubmit(post: Reply<CreateResponse>, server: nat -> Reply<AnalysisResponse>)
      modifies this`error, this`submitting, this`status, this`effects
      ensures file.None? ==>
        error == NoFileMessage && submitting == old(submitting) && status == old(status) && effects == old(effects)
      ensures file.Some? && IsBlank(jobDescription) ==>
        error == NoDescriptionMessage && submitting == old(submitting) && status == old(status)
        && effects == old(effects)
      ensures file.Some? && !IsBlank(jobDescription) && post.Threw? ==>
        error == OrElse(post.detail, SubmitFailedMessage) && !submitting && status == UploadingLabel
        && effects == old(effects) + [Upload(file.value.name, jobDescription)]
      ensures file.Some? && !IsBlank(jobDescription) && post.Responded? ==>
        var after := AfterPoll(
          FormState([], true, ProcessingLabel, old(effects) + [Upload(file.value.name, jobDescription)]),
          post.data.id, server);
        error == after.error && submitting == after.submitting && status == after.status
        && effects == after.effects
    {
      error := [];
      if file.None? {
        error := NoFileMessage;
        return;
      }
      if IsBlank(jobDescription) {
        error := NoDescriptionMessage;
        return;
      }
      submitting := true;
      status := UploadingLabel;
      effects := effects + [Upload(file.value.name, jobDescription)];
      match post {
        case Responded(created) =>
          status := ProcessingLabel;
          PollForResult(created.id, server);
        case Threw(detail) =>
          error := OrElse(detail, SubmitFailedMessage);
          submitting := false;
      }
    }
  }
}
