/** Building the prompt, reading JSON out of the model's reply, and the
    retry loop around the model call (backend/app/analysis/ai_engine.py).
    The HTTP call to Ollama, `json.loads` and the pydantic schema check are
    parameters: `ollama(prompt, k)` is what the k-th POST of `prompt` yields,
    `loads` parses a JSON text or fails, `validate` builds an `AiResult` from
    parsed JSON or fails with the validation error's text. */
module AiEngine {
  import opened Wrappers
  import opened Text
  import opened Schemas

  const SystemPrompt: string := @"You are an expert resume analyst and career coach. You will be given a candidate's resume text and a job description.

Your task: analyze how well the resume matches the job and return structured JSON feedback.

Return ONLY a valid JSON object with these exact keys (no markdown, no explanation, no extra text):

{
  ""match_score"": <number 0-100>,
  ""matched_skills"": [""skill1"", ""skill2"", ...],
  ""missing_skills"": [""skill1"", ""skill2"", ...],
  ""suggestions"": [""suggestion1"", ""suggestion2"", ...]
}

Detailed rules:
- ""match_score"": A number between 0 and 100 representing overall fit. Consider skills, experience level, domain knowledge, and tools.
- ""matched_skills"": Skills, technologies, or qualifications from the job description that the candidate clearly demonstrates in their resume. Use concise names (e.g., ""Python"", ""Project Management"", ""AWS"").
- ""missing_skills"": Skills, technologies, or qualifications required or preferred in the job description that are NOT evident in the resume.
- ""suggestions"": Exactly 3 to 5 specific, actionable suggestions to improve the resume FOR THIS SPECIFIC JOB. Each suggestion should reference a concrete change (e.g., ""Add a section highlighting your experience with Docker and containerization"").

Edge cases:
- If the resume is very short or vague, still do your best to extract skills and provide suggestions. Note the lack of detail in your suggestions.
- If the job description is vague, focus on the skills that are mentioned and suggest adding commonly expected skills for that role.
- Always return valid JSON, nothing else.

EXAMPLE INPUT:
Resume: ""Software engineer with 5 years experience in Python, Django, PostgreSQL. Built REST APIs serving 10K+ users.""
Job: ""Looking for a backend developer with Python, FastAPI, Docker, and AWS experience.""

EXAMPLE OUTPUT:
{
  ""match_score"": 62,
  ""matched_skills"": [""Python"", ""Backend Development"", ""REST APIs"", ""PostgreSQL""],
  ""missing_skills"": [""FastAPI"", ""Docker"", ""AWS""],
  ""suggestions"": [
    ""Highlight your Django REST framework experience and draw parallels to FastAPI since both are Python web frameworks"",
    ""Add any Docker experience, even from personal projects or development environments"",
    ""Include any cloud platform experience (AWS, GCP, Azure) or mention willingness to learn"",
    ""Quantify your API performance metrics to strengthen the backend developer narrative""
  ]
}

Now analyze the following:
"

  const ResumeHeader := "\n=== RESUME ===\n"
  const JobHeader := "\n\n=== JOB DESCRIPTION ===\n"

  /** `_build_prompt`. */
  function BuildPrompt(resumeText: string, jobDescription: string): (p: string)
    ensures |p| == |SystemPrompt + ResumeHeader| + |resumeText| + |JobHeader| + |jobDescription|
    ensures p[|p| - |jobDescription|..] == jobDescription
  {
    Layout(SystemPrompt + ResumeHeader, resumeText, jobDescription);
    SystemPrompt + ResumeHeader + resumeText + JobHeader + jobDescription
  }

  /** The prompt starts with the fixed instructions and the resume header,
      carries the resume right after them and ends with the job description. */
  lemma PromptLayout(resumeText: string, jobDescription: string)
    ensures var p, n := BuildPrompt(resumeText, jobDescription), |SystemPrompt + ResumeHeader|;
      |p| == n + |resumeText| + |JobHeader| + |jobDescription|
      && p[..n] == SystemPrompt + ResumeHeader
      && p[n..n + |resumeText|] == resumeText
      && p[n + |resumeText|..n + |resumeText| + |JobHeader|] == JobHeader
      && p[|p| - |jobDescription|..] == jobDescription
  {
    Layout(SystemPrompt + ResumeHeader, resumeText, jobDescription);
  }

  /** Two prompts are equal only for equal inputs, once the resume's length is known. */
  lemma PromptDeterminesInputs(r1: string, j1: string, r2: string, j2: string)
    requires |r1| == |r2|
    requires BuildPrompt(r1, j1) == BuildPrompt(r2, j2)
    ensures r1 == r2 && j1 == j2
  {
    HeadedInputsDetermined(SystemPrompt + ResumeHeader, r1, j1, r2, j2);
  }

  lemma HeadedInputsDetermined(head: string, r1: string, j1: string, r2: string, j2: string)
    requires |r1| == |r2|
    requires head + r1 + JobHeader + j1 == head + r2 + JobHeader + j2
    ensures r1 == r2 && j1 == j2
  {
    Layout(head, r1, j1);
    Layout(head, r2, j2);
  }

  /** Where the parts of `head + resume + JobHeader + job` lie, for any head. */
  lemma Layout(head: string, resumeText: string, jobDescription: string)
    ensures var p, n := head + resumeText + JobHeader + jobDescription, |head|;
      |p| == n + |resumeText| + |JobHeader| + |jobDescription|
      && p[..n] == head
      && p[n..n + |resumeText|] == resumeText
      && p[n + |resumeText|..n + |resumeText| + |JobHeader|] == JobHeader
      && p[|p| - |jobDescription|..] == jobDescription
  {
  }

  /** Without that length the prompt is ambiguous: a resume that contains the
      job-description header reads like a shorter resume and a longer job
      description. */
  lemma ResumeCanImitateJobHeader(x: string, y: string, z: string)
    ensures BuildPrompt(x + JobHeader + y, z) == BuildPrompt(x, y + JobHeader + z)
  {
    Regroup(SystemPrompt + ResumeHeader, x, JobHeader, y, z);
  }

  lemma Regroup(head: string, x: string, sep: string, y: string, z: string)
    ensures head + (x + sep + y) + sep + z == head + x + sep + (y + sep + z)
  {
  }

  // ---- `_extract_json`

  /** Skips what Python's `\s` matches in a `str` pattern (the `str.isspace` set). */
  function SkipSpace(s: string, i: nat): (j: nat)
    requires i <= |s|
    ensures i <= j <= |s|
    ensures forall k :: i <= k < j ==> IsPySpace(s[k])
    ensures j == |s| || !IsPySpace(s[j])
    decreases |s| - i
  {
    if i < |s| && IsPySpace(s[i]) then SkipSpace(s, i + 1) else i
  }

  predicate FenceAt(s: string, i: nat) {
    i + 3 <= |s| && s[i..i + 3] == "```"
  }

  /** A `}` at `k` that closes a fenced block: white space, then a fence. */
  predicate ClosesFence(s: string, k: nat)
    requires k < |s|
  {
    s[k] == '}' && FenceAt(s, SkipSpace(s, k + 1))
  }

  /** The lazy `.*?` of the fenced-block pattern: the first closing `}` at or after `e`. */
  function CloseFrom(s: string, e: nat): (r: Option<nat>)
    requires e <= |s|
    ensures r.Some? ==> e <= r.value < |s| && ClosesFence(s, r.value)
    ensures r.Some? ==> forall k :: e <= k < r.value ==> !ClosesFence(s, k)
    ensures r.None? ==> forall k :: e <= k < |s| ==> !ClosesFence(s, k)
    decreases |s| - e
  {
    if e == |s| then None
    else if ClosesFence(s, e) then Some(e)
    else CloseFrom(s, e + 1)
  }

  /** Where the white space after the fence at `p` starts: after "json" when
      it follows the fence. */
  function AfterTag(s: string, p: nat): (q: nat)
    requires p <= |s|
    ensures p + 3 <= q <= p + 7
  {
    if p + 7 <= |s| && s[p + 3..p + 7] == "json" then p + 7 else p + 3
  }

  /** The group of ```` ```(?:json)?\s*(\{.*?\})\s*``` ```` matched at position `p`.
      Since `j`, `{` and `` ` `` are not white space, the pattern needs no
      backtracking beyond the lazy `.*?`: with "json" after the fence the
      match must use it, and without it the `{` must follow the white space. */
  function FencedAt(s: string, p: nat): (r: Option<string>)
    requires p <= |s|
    ensures r.Some? ==> |r.value| >= 2 && r.value[0] == '{' && r.value[|r.value| - 1] == '}'
  {
    if !FenceAt(s, p) then None
    else
      var b := SkipSpace(s, AfterTag(s, p));
      if b < |s| && s[b] == '{' then
        match CloseFrom(s, b + 1)
        case Some(e) => Some(s[b..e + 1])
        case None => None
      else None
  }

  /** Every character of `s[i..j]` is what `\s` matches. */
  predicate SpaceBetween(s: string, i: nat, j: nat) {
    j <= |s| && forall k :: i <= k < j ==> IsPySpace(s[k])
  }

  /** The pattern's head ```` ```(?:json)?\s* ```` matches `s[p..b]`. */
  predicate HeadSpans(s: string, p: nat, b: nat) {
    FenceAt(s, p) && p + 3 <= b
    && (SpaceBetween(s, p + 3, b) || (p + 7 <= b <= |s| && s[p + 3..p + 7] == "json" && SpaceBetween(s, p + 7, b)))
  }

  /** The whole pattern matches at `p` with its group `(\{.*?\})` spanning
      `s[b..e + 1]` (DOTALL, so `.` takes any character). */
  predicate MatchesAt(s: string, p: nat, b: nat, e: nat) {
    HeadSpans(s, p, b) && b < e < |s| && s[b] == '{' && ClosesFence(s, e)
  }

  /** The first character that is not white space at or after `q` is `b`. */
  lemma SkipSpaceReaches(s: string, q: nat, b: nat)
    requires q <= b < |s| && SpaceBetween(s, q, b) && !IsPySpace(s[b])
    ensures SkipSpace(s, q) == b
  {
    var j := SkipSpace(s, q);
  }

  /** A group can only open where `FencedAt` looks for it: the tag and the
      white space leave no choice, since neither `j` nor `{` is white space. */
  lemma HeadDeterminesOpen(s: string, p: nat, b: nat)
    requires p <= |s| && HeadSpans(s, p, b) && b < |s| && s[b] == '{'
    ensures b == SkipSpace(s, AfterTag(s, p))
  {
    assert !IsPySpace('{') && !IsPySpace('j');
    if p + 7 <= |s| && s[p + 3..p + 7] == "json" {
      assert s[p + 3] == 'j';
      SkipSpaceReaches(s, p + 7, b);
    } else {
      SkipSpaceReaches(s, p + 3, b);
    }
  }

  /** `FencedAt` is the match the pattern makes at `p`: none exactly when the
      pattern cannot match there; otherwise the group opens at the only
      place the head allows and closes at the earliest `}` that a fence
      follows, as the lazy `.*?` prefers. */
  lemma FencedAtIsTheMatch(s: string, p: nat)
    requires p <= |s|
    ensures FencedAt(s, p).Some? ==>
      exists b: nat, e: nat :: MatchesAt(s, p, b, e) && FencedAt(s, p).value == s[b..e + 1]
        && forall b': nat, e': nat :: MatchesAt(s, p, b', e') ==> b' == b && e <= e'
    ensures FencedAt(s, p).None? ==> forall b: nat, e: nat :: !MatchesAt(s, p, b, e)
  {
    if FencedAt(s, p).Some? {
      var b := SkipSpace(s, AfterTag(s, p));
      var e := CloseFrom(s, b + 1).value;
      assert MatchesAt(s, p, b, e);
      forall b', e' | MatchesAt(s, p, b', e') ensures b' == b && e <= e' {
        HeadDeterminesOpen(s, p, b');
      }
    } else {
      forall b, e | MatchesAt(s, p, b, e) ensures false {
        HeadDeterminesOpen(s, p, b);
      }
    }
  }

  /** `re.search` of the fenced-block pattern: the leftmost position that matches. */
  function FencedBlock(s: string, from: nat): (r: Option<string>)
    requires from <= |s|
    ensures r.Some? ==> |r.value| >= 2 && r.value[0] == '{' && r.value[|r.value| - 1] == '}'
    decreases |s| - from
  {
    var here := FencedAt(s, from);
    if here.Some? then here
    else if from == |s| then None
    else FencedBlock(s, from + 1)
  }

  /** The search returns the block at the leftmost position from `from` on
      where the pattern matches. */
  lemma {:induction false} FencedBlockIsLeftmost(s: string, from: nat)
    requires from <= |s|
    ensures FencedBlock(s, from).Some? ==>
      exists p :: from <= p <= |s| && FencedBlock(s, from) == FencedAt(s, p)
        && forall k :: from <= k < p ==> FencedAt(s, k).None?
    decreases |s| - from
  {
    if FencedAt(s, from).Some? {
      assert FencedBlock(s, from) == FencedAt(s, from);
    } else if from < |s| {
      FencedBlockIsLeftmost(s, from + 1);
      if FencedBlock(s, from + 1).Some? {
        var p :| from + 1 <= p <= |s| && FencedBlock(s, from + 1) == FencedAt(s, p)
          && forall k :: from + 1 <= k < p ==> FencedAt(s, k).None?;
        NoneBefore(s, from, p);
        assert FencedBlock(s, from) == FencedAt(s, p);
      }
    }
  }

  /** A position without a match extends a match-free range to its left. */
  lemma NoneBefore(s: string, from: nat, p: nat)
    requires from < p <= |s| && FencedAt(s, from).None?
    requires forall k :: from + 1 <= k < p ==> FencedAt(s, k).None?
    ensures forall k :: from <= k < p ==> FencedAt(s, k).None?
  {
  }

  /** The search finds no block exactly when no position from `from` on starts one. */
  lemma {:induction false} FencedBlockNoneIff(s: string, from: nat)
    requires from <= |s|
    ensures FencedBlock(s, from).None? <==> forall p :: from <= p <= |s| ==> FencedAt(s, p).None?
    decreases |s| - from
  {
    if FencedAt(s, from).None? && from < |s| {
      FencedBlockNoneIff(s, from + 1);
      if FencedBlock(s, from).None? {
        forall p | from <= p <= |s| ensures FencedAt(s, p).None? {
          if p > from {
            assert from + 1 <= p <= |s|;
          }
        }
      }
    }
  }

  /** First index of `c` at or after `from`. */
  function IndexOf(s: string, c: char, from: nat): (r: Option<nat>)
    requires from <= |s|
    ensures r.Some? ==> from <= r.value < |s| && s[r.value] == c
    ensures r.Some? ==> forall k :: from <= k < r.value ==> s[k] != c
    ensures r.None? ==> forall k :: from <= k < |s| ==> s[k] != c
    decreases |s| - from
  {
    if from == |s| then None else if s[from] == c then Some(from) else IndexOf(s, c, from + 1)
  }

  /** Last index of `c` below `upto`. */
  function LastIndexOf(s: string, c: char, upto: nat): (r: Option<nat>)
    requires upto <= |s|
    ensures r.Some? ==> r.value < upto && s[r.value] == c
    ensures r.Some? ==> forall k :: r.value < k < upto ==> s[k] != c
    ensures r.None? ==> forall k :: 0 <= k < upto ==> s[k] != c
  {
    if upto == 0 then None else if s[upto - 1] == c then Some(upto - 1) else LastIndexOf(s, c, upto - 1)
  }

  /** `re.search(r"\{.*\}", s, re.DOTALL)`: from the first `{` to the last `}`,
      when that `}` comes after that `{`. */
  function BraceSpan(s: string): (r: Option<string>)
    ensures r.Some? ==> |r.value| >= 2 && r.value[0] == '{' && r.value[|r.value| - 1] == '}'
  {
    match (IndexOf(s, '{', 0), LastIndexOf(s, '}', |s|))
    case (Some(i), Some(j)) => if i < j then Some(s[i..j + 1]) else None
    case _ => None
  }

  /** The brace span is the leftmost, greedy match: it starts at the first
      `{`, ends at the last `}`, and there is none exactly when no `}` follows
      any `{`. */
  lemma BraceSpanIsLeftmostLongest(s: string)
    ensures BraceSpan(s).Some? ==>
      exists i, j :: 0 <= i < j < |s| && BraceSpan(s).value == s[i..j + 1]
        && s[i] == '{' && s[j] == '}'
        && (forall k :: 0 <= k < i ==> s[k] != '{')
        && (forall k :: j < k < |s| ==> s[k] != '}')
    ensures BraceSpan(s).None? <==>
      forall i, j :: 0 <= i < j < |s| && s[i] == '{' ==> s[j] != '}'
  {
    var first, last := IndexOf(s, '{', 0), LastIndexOf(s, '}', |s|);
    if first.Some? && last.Some? && first.value < last.value {
      var i, j := first.value, last.value;
      assert BraceSpan(s).value == s[i..j + 1];
    }
  }

  /** One candidate: it parses, or it is absent or does not parse. */
  function Candidate<J>(c: Option<string>, loads: string -> Option<J>): Option<J> {
    if c.Some? then loads(c.value) else None
  }

  const NoJsonPrefix := "Could not extract valid JSON from model response: "

  /** `_extract_json`: the stripped text, then the fenced block, then the brace
      span; the first that parses wins. */
  function ExtractJson<J>(text: string, loads: string -> Option<J>): (r: Result<J, string>)
    ensures var t := PyStrip(text);
      r.Failure? ==> r.error == NoJsonPrefix + Take(t, 300) && |r.error| <= |NoJsonPrefix| + 300
  {
    var t := PyStrip(text);
    var whole := loads(t);
    var fenced := Candidate(FencedBlock(t, 0), loads);
    var braces := Candidate(BraceSpan(t), loads);
    if whole.Some? then Success(whole.value)
    else if fenced.Some? then Success(fenced.value)
    else if braces.Some? then Success(braces.value)
    else Failure(NoJsonPrefix + Take(t, 300))
  }

  /** The fallback order: a later candidate is used only when every earlier
      one fails to parse, and extraction fails only when all three do. */
  lemma ExtractJsonOrder<J>(text: string, loads: string -> Option<J>)
    ensures var t, r := PyStrip(text), ExtractJson(text, loads);
      var whole, fenced, braces := loads(t), Candidate(FencedBlock(t, 0), loads), Candidate(BraceSpan(t), loads);
      && (whole.Some? ==> r == Success(whole.value))
      && (whole.None? && fenced.Some? ==> r == Success(fenced.value))
      && (whole.None? && fenced.None? && braces.Some? ==> r == Success(braces.value))
      && (r.Failure? <==> whole.None? && fenced.None? && braces.None?)
  {
  }

  // ---- `analyze_resume`

  /** What one POST to Ollama yields: a raised error, or the reply's `response`
      field (absent when the reply has none). */
  datatype Attempt = HttpFailed(message: string) | Replied(response: Option<string>)

  const MaxAttempts := 3
  const RetryFailurePrefix := "Failed to get valid analysis from Ollama after 3 attempts: "

  /** `max(0.0, min(100.0, x))`. */
  function Clamp(x: real): (r: real)
    ensures 0.0 <= r <= 100.0
    ensures 0.0 <= x <= 100.0 ==> r == x
    ensures x < 0.0 ==> r == 0.0
    ensures x > 100.0 ==> r == 100.0
  {
    if x < 0.0 then 0.0 else if x > 100.0 then 100.0 else x
  }

  /** `_extract_json` with `json.loads` fixed: the parsing stage of an attempt. */
  function ParseWith<J>(loads: string -> Option<J>): string -> Result<J, string> {
    text => ExtractJson(text, loads)
  }

  /** The body of one iteration up to the clamp: the validated result, or the
      text of the exception it raised; `parse` is `ParseWith(json.loads)`. */
  function TryOnce<J>(a: Attempt, parse: string -> Result<J, string>, validate: J -> Result<AiResult, string>)
    : (r: Result<AiResult, string>)
    ensures a.HttpFailed? ==> r == Failure(a.message)
    ensures r.Success? ==>
      a.Replied? && parse(a.response.GetOr("")).Success? && r == validate(parse(a.response.GetOr("")).value)
  {
    match a
    case HttpFailed(m) => Failure(m)
    case Replied(raw) =>
      match parse(raw.GetOr(""))
      case Failure(e) => Failure(e)
      case Success(parsed) => validate(parsed)
  }

  /** The result of the loop and the number of POSTs it made. */
  datatype Outcome = Outcome(result: Result<AiResult, string>, posts: nat)

  /** The retry loop from attempt `k` on; `lastError` is the error of attempt `k - 1`. */
  function RetryFrom<J>(prompt: string, ollama: (string, nat) -> Attempt, parse: string -> Result<J, string>,
                        validate: J -> Result<AiResult, string>, k: nat, lastError: string): (o: Outcome)
    requires k <= MaxAttempts
    ensures o.posts <= MaxAttempts && (k < MaxAttempts ==> k < o.posts)
    ensures o.result.Failure? ==>
      o.posts == MaxAttempts && RetryFailurePrefix <= o.result.error
    ensures o.result.Success? ==>
      1 <= o.posts && TryOnce(ollama(prompt, o.posts - 1), parse, validate).Success?
      && o.result.value == TryOnce(ollama(prompt, o.posts - 1), parse, validate).value.(
           matchScore := Clamp(TryOnce(ollama(prompt, o.posts - 1), parse, validate).value.matchScore))
    decreases MaxAttempts - k
  {
    if k == MaxAttempts then Outcome(Failure(RetryFailurePrefix + lastError), MaxAttempts)
    else match TryOnce(ollama(prompt, k), parse, validate)
      case Success(res) => Outcome(Success(res.(matchScore := Clamp(res.matchScore))), k + 1)
      case Failure(e) => RetryFrom(prompt, ollama, parse, validate, k + 1, e)
  }

  /** One attempt of the retry loop, unfolded. */
  lemma RetryStep<J>(prompt: string, ollama: (string, nat) -> Attempt, parse: string -> Result<J, string>,
                     validate: J -> Result<AiResult, string>, k: nat, lastError: string)
    requires k < MaxAttempts
    ensures var t := TryOnce(ollama(prompt, k), parse, validate);
      RetryFrom(prompt, ollama, parse, validate, k, lastError)
        == if t.Success? then Outcome(Success(t.value.(matchScore := Clamp(t.value.matchScore))), k + 1)
           else RetryFrom(prompt, ollama, parse, validate, k + 1, t.error)
  {
  }

  /** The loop makes between one and three POSTs, and any score it returns lies in [0, 100]. */
  lemma {:induction false} RetryBounded<J>(prompt: string, ollama: (string, nat) -> Attempt, parse: string -> Result<J, string>,
                                           validate: J -> Result<AiResult, string>, k: nat, lastError: string)
    requires k <= MaxAttempts
    ensures var o := RetryFrom(prompt, ollama, parse, validate, k, lastError);
      (k < MaxAttempts ==> k < o.posts) && o.posts <= MaxAttempts
      && (o.result.Success? ==> 0.0 <= o.result.value.matchScore <= 100.0)
    decreases MaxAttempts - k
  {
    if k < MaxAttempts && TryOnce(ollama(prompt, k), parse, validate).Failure? {
      RetryBounded(prompt, ollama, parse, validate, k + 1, TryOnce(ollama(prompt, k), parse, validate).error);
    }
  }

  /** The first attempt that parses and validates is returned, clamped, and no
      further POST is made. */
  lemma {:induction false} FirstSuccessWins<J>(prompt: string, ollama: (string, nat) -> Attempt, parse: string -> Result<J, string>,
                                               validate: J -> Result<AiResult, string>, k: nat, lastError: string, w: nat)
    requires k <= w < MaxAttempts
    requires forall j :: k <= j < w ==> TryOnce(ollama(prompt, j), parse, validate).Failure?
    requires TryOnce(ollama(prompt, w), parse, validate).Success?
    ensures var res := TryOnce(ollama(prompt, w), parse, validate).value;
      RetryFrom(prompt, ollama, parse, validate, k, lastError)
        == Outcome(Success(res.(matchScore := Clamp(res.matchScore))), w + 1)
    decreases w - k
  {
    RetryStep(prompt, ollama, parse, validate, k, lastError);
    if k < w {
      FirstSuccessWins(prompt, ollama, parse, validate, k + 1, TryOnce(ollama(prompt, k), parse, validate).error, w);
    }
  }

  /** The loop fails exactly when all three attempts fail, after three POSTs,
      with a message naming the last attempt's error. */
  lemma AllAttemptsFail<J>(prompt: string, ollama: (string, nat) -> Attempt, parse: string -> Result<J, string>,
                           validate: J -> Result<AiResult, string>)
    ensures var o := RetryFrom(prompt, ollama, parse, validate, 0, "");
      o.result.Failure? <==> forall j :: 0 <= j < MaxAttempts ==> TryOnce(ollama(prompt, j), parse, validate).Failure?
    ensures var o := RetryFrom(prompt, ollama, parse, validate, 0, "");
      o.result.Failure? ==> (o.posts == MaxAttempts
        && o.result.error == RetryFailurePrefix + TryOnce(ollama(prompt, 2), parse, validate).error)
  {
  }

  /** `analyze_resume`: builds the prompt and runs the retry loop on it. */
  method AnalyzeResume<J>(resumeText: string, jobDescription: string, ollama: (string, nat) -> Attempt,
                          loads: string -> Option<J>, validate: J -> Result<AiResult, string>)
    returns (r: Result<AiResult, string>, posts: seq<string>)
    ensures Outcome(r, |posts|) == RetryFrom(BuildPrompt(resumeText, jobDescription), ollama, ParseWith(loads), validate, 0, "")
    ensures 1 <= |posts| <= MaxAttempts
    ensures forall i :: 0 <= i < |posts| ==> posts[i] == BuildPrompt(resumeText, jobDescription)
    ensures r.Success? ==> 0.0 <= r.value.matchScore <= 100.0
  {
    var prompt := BuildPrompt(resumeText, jobDescription);
    r, posts := Retry(prompt, ollama, ParseWith(loads), validate);
  }

  /** The `for attempt in range(MAX_RETRIES)` loop of `analyze_resume`: every
      POST carries the same prompt, and the result is the one `RetryFrom`
      specifies. */
  method Retry<J>(prompt: string, ollama: (string, nat) -> Attempt,
                  parse: string -> Result<J, string>, validate: J -> Result<AiResult, string>)
    returns (r: Result<AiResult, string>, posts: seq<string>)
    ensures Outcome(r, |posts|) == RetryFrom(prompt, ollama, parse, validate, 0, "")
    ensures 1 <= |posts| <= MaxAttempts
    ensures forall i :: 0 <= i < |posts| ==> posts[i] == prompt
    ensures r.Success? ==> 0.0 <= r.value.matchScore <= 100.0
  {
    RetryBounded(prompt, ollama, parse, validate, 0, "");
    var lastError := "";
    posts := [];
    var attempt := 0;
    while attempt < MaxAttempts
      invariant 0 <= attempt <= MaxAttempts && |posts| == attempt
      invariant forall i :: 0 <= i < |posts| ==> posts[i] == prompt
      invariant RetryFrom(prompt, ollama, parse, validate, 0, "") == RetryFrom(prompt, ollama, parse, validate, attempt, lastError)
    {
      RetryStep(prompt, ollama, parse, validate, attempt, lastError);
      posts := posts + [prompt];
      var outcome := TryOnce(ollama(prompt, attempt), parse, validate);
      if outcome.Success? {
        var result := outcome.value;
        result := result.(matchScore := Clamp(result.matchScore));
        return Success(result), posts;
      }
      lastError := outcome.error;
      attempt := attempt + 1;
    }
    r := Failure(RetryFailurePrefix + lastError);
  }
}
