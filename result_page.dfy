/** The result page (frontend/src/pages/ResultPage.jsx): the self-rescheduling
    `fetchResult` chain of its mount effect, guarded by the `cancelled` flag
    that the effect's cleanup sets, and the choice of what to render. */
module ResultPage {
  import opened Wrappers
  import opened Text
  import opened Schemas
  import ScoreCard

  const LoadFailedMessage := "Failed to load analysis results."
  const NotFoundMessage := "Analysis not found"
  const UnexpectedErrorMessage := "An unexpected error occurred."
  const NoMatchedSkillsText := "No matched skills found"
  const NoMissingSkillsText := "No missing skills - great match!"

  /** The page's React state: `analysis`, `loading` and `error`. */
  datatype View = View(analysis: Option<AnalysisResponse>, loading: bool, error: string)

  const InitialView := View(None, true, [])

  /** A reply that ends the chain: a completed or failed record, or a thrown fetch. */
  predicate EndsChain(reply: Reply<AnalysisResponse>) {
    reply.Threw? || reply.data.status == Completed || reply.data.status == Failed
  }

  /** The state update of a `fetchResult` that was not cancelled. */
  function Apply(v: View, reply: Reply<AnalysisResponse>): View {
    match reply
    case Threw(_) => v.(error := LoadFailedMessage, loading := false)
    case Responded(d) =>
      if d.status == Completed || d.status == Failed then v.(analysis := Some(d), loading := false)
      else v
  }

  /** How many GETs an uncancelled chain issues when the server answers with
      `replies`: up to and including the first reply that ends it. */
  function ChainLength(replies: seq<Reply<AnalysisResponse>>): nat {
    if replies == [] then 0
    else if EndsChain(replies[0]) then 1
    else 1 + ChainLength(replies[1..])
  }

  /** The state an uncancelled chain leaves after consuming `replies`. */
  function Settle(v: View, replies: seq<Reply<AnalysisResponse>>): (r: View)
    ensures r == v || exists j :: 0 <= j < |replies| && EndsChain(replies[j]) && r == Apply(v, replies[j])
  {
    if replies == [] then v
    else if EndsChain(replies[0]) then Apply(v, replies[0])
    else Settle(v, replies[1..])
  }

  /** The first reply that ends the chain decides the state, and exactly that
      many fetches happen, however many non-terminal replies came before:
      there is no attempt ceiling. */
  lemma {:induction false} FirstEndDecides(v: View, replies: seq<Reply<AnalysisResponse>>, w: nat)
    requires w < |replies| && EndsChain(replies[w])
    requires forall j :: 0 <= j < w ==> !EndsChain(replies[j])
    ensures ChainLength(replies) == w + 1
    ensures Settle(v, replies) == Apply(v, replies[w])
  {
    if w > 0 {
      assert !EndsChain(replies[0]);
      FirstEndDecides(v, replies[1..], w - 1);
    }
  }

  /** While only non-terminal records arrive, the chain keeps fetching and the
      state does not change. */
  lemma {:induction false} NoEndKeepsWaiting(v: View, replies: seq<Reply<AnalysisResponse>>)
    requires forall j :: 0 <= j < |replies| ==> !EndsChain(replies[j])
    ensures ChainLength(replies) == |replies|
    ensures Settle(v, replies) == v
  {
    if replies != [] {
      assert !EndsChain(replies[0]);
      NoEndKeepsWaiting(v, replies[1..]);
    }
  }

  /** An uncancelled chain never stores an error other than the load failure. */
  lemma {:induction false} SettledErrorIsLoadFailure(replies: seq<Reply<AnalysisResponse>>)
    ensures var v := Settle(InitialView, replies);
      v.error == [] || v.error == LoadFailedMessage
    ensures var v := Settle(InitialView, replies);
      !v.loading ==> (v.error != [] <==> v.analysis.None?)
  {
    if replies != [] && !EndsChain(replies[0]) {
      SettledErrorIsLoadFailure(replies[1..]);
    }
  }

  /** How a skills list renders: its badges, or the placeholder text when the
      list is absent or empty. */
  datatype SkillsBlock = Badges(skills: seq<string>) | Placeholder(text: string)

  function SkillsBlockOf(skills: Option<seq<string>>, placeholder: string): (b: SkillsBlock)
    ensures b.Badges? <==> skills.Some? && |skills.value| > 0
    ensures b.Badges? ==> b.skills == skills.value
    ensures b.Placeholder? ==> b.text == placeholder
  {
    if skills.Some? && |skills.value| > 0 then Badges(skills.value) else Placeholder(placeholder)
  }

  /** A nullable score as JavaScript compares and rounds it: null counts as 0. */
  function ScoreValue(score: Option<real>): real {
    if score.Some? then score.value else 0.0
  }

  datatype Screen =
    | Waiting
    | Problem(message: string)
    | FailedAnalysis(message: string)
    | Results(
        color: ScoreCard.Color,
        dial: string,
        matched: SkillsBlock,
        missing: SkillsBlock,
        suggestions: Option<seq<string>>,
        jobDescription: string)

  /** The render branches, in order: loading; error or no record; a failed
      record; the results. */
  function Render(v: View): (s: Screen)
    ensures v.loading <==> s == Waiting
    ensures s.Problem? <==> !v.loading && (v.error != [] || v.analysis.None?)
    ensures s.Problem? ==> s.message == (if v.error != [] then v.error else NotFoundMessage)
    ensures s.FailedAnalysis? <==>
      !v.loading && v.error == [] && v.analysis.Some? && v.analysis.value.status == Failed
    ensures s.FailedAnalysis? ==> s.message == OrElse(v.analysis.value.errorMessage, UnexpectedErrorMessage)
    ensures s.Results? ==>
      var a := v.analysis.value;
      s.color == ScoreCard.GetColor(ScoreValue(a.matchScore))
      && s.matched == SkillsBlockOf(a.matchedSkills, NoMatchedSkillsText)
      && s.missing == SkillsBlockOf(a.missingSkills, NoMissingSkillsText)
      && (s.suggestions.Some? <==> a.suggestions.Some? && |a.suggestions.value| > 0)
      && (s.suggestions.Some? ==> s.suggestions == a.suggestions)
      && s.dial == ScoreCard.DialText(ScoreValue(a.matchScore))
      && s.jobDescription == a.jobDescription
  {
    if v.loading then Waiting
    else if v.error != [] || v.analysis.None? then
      Problem(if v.error != [] then v.error else NotFoundMessage)
    else if v.analysis.value.status == Failed then
      FailedAnalysis(OrElse(v.analysis.value.errorMessage, UnexpectedErrorMessage))
    else
      var a := v.analysis.value;
      var score := ScoreValue(a.matchScore);
      Results(
        ScoreCard.GetColor(score),
        ScoreCard.DialText(score),
        SkillsBlockOf(a.matchedSkills, NoMatchedSkillsText),
        SkillsBlockOf(a.missingSkills, NoMissingSkillsText),
        if a.suggestions.Some? && |a.suggestions.value| > 0 then a.suggestions else None,
        a.jobDescription)
  }

  /** What the page shows once the first reply that ends the chain has arrived:
      the load-failure message for a thrown fetch, the failure screen for a
      failed record, the results for a completed one. */
  lemma ScreenAfterFirstEnd(replies: seq<Reply<AnalysisResponse>>, w: nat)
    requires w < |replies| && EndsChain(replies[w])
    requires forall j :: 0 <= j < w ==> !EndsChain(replies[j])
    ensures var s := Render(Settle(InitialView, replies));
      match replies[w]
      case Threw(_) => s == Problem(LoadFailedMessage)
      case Responded(d) =>
        if d.status == Failed then s == FailedAnalysis(OrElse(d.errorMessage, UnexpectedErrorMessage))
        else s.Results? && s.color == ScoreCard.GetColor(ScoreValue(d.matchScore))
  {
    FirstEndDecides(InitialView, replies, w);
  }

  /** "Analysis not found" is never shown by the mount effect: a missing record
      is a thrown fetch, which stores the load-failure message instead. */
  lemma NotFoundTextUnreachable(replies: seq<Reply<AnalysisResponse>>)
    ensures Render(Settle(InitialView, replies)) != Problem(NotFoundMessage)
  {
    SettledErrorIsLoadFailure(replies);
  }

  /** The mount effect's state together with its closure flag. */
  class ResultPoller {
    var analysis: Option<AnalysisResponse>
    var loading: bool
    var error: string
    /** The `cancelled` variable of the effect's closure. */
    var cancelled: bool
    /** GET requests issued so far. */
    var fetches: nat

    function ViewOf(): View
      reads this
    {
      View(analysis, loading, error)
    }

    constructor ()
      ensures ViewOf() == InitialView && !cancelled && fetches == 0
    {
      analysis := None;
      loading := true;
      error := [];
      cancelled := false;
      fetches := 0;
    }

    /** The effect's cleanup. */
    method Cleanup()
      modifies this`cancelled
      ensures cancelled
    {
      cancelled := true;
    }

    /** One `fetchResult`: its GET settles with `reply`; a cancelled run changes
        nothing, otherwise the state is updated and `again` says whether it
        rescheduled itself. */
    method FetchResult(reply: Reply<AnalysisResponse>) returns (again: bool)
      modifies this`analysis, this`loading, this`error, this`fetches
      ensures fetches == old(fetches) + 1
      ensures cancelled ==> !again && ViewOf() == old(ViewOf())
      ensures !cancelled ==> again == !EndsChain(reply) && ViewOf() == Apply(old(ViewOf()), reply)
    {
      fetches := fetches + 1;
      again := false;
      match reply {
        case Responded(d) =>
          if cancelled {
            return;
          }
          if d.status == Completed || d.status == Failed {
            analysis := Some(d);
            loading := false;
          } else {
            again := true;
          }
        case Threw(_) =>
          if !cancelled {
            error := LoadFailedMessage;
            loading := false;
          }
      }
    }

    /** One run of the effect driven to its end: `let cancelled = false`, then
        `fetchResult` and once more per reschedule, the server answering the
        k-th GET with `replies[k]`, and the cleanup running before the reply
        numbered `cancelAt` is handled. The effect starts from whatever state
        the page holds: on mount that is the initial state, and when the
        route's `id` changes it is what the previous run left. A cancelled
        chain still issues the GET it had already scheduled, but changes no
        state. */
    method Run(replies: seq<Reply<AnalysisResponse>>, cancelAt: Option<nat>)
      modifies this`analysis, this`loading, this`error, this`fetches, this`cancelled
      ensures cancelAt.Some? && cancelAt.value < ChainLength(replies) ==>
        cancelled && fetches == old(fetches) + cancelAt.value + 1 && ViewOf() == old(ViewOf())
      ensures !(cancelAt.Some? && cancelAt.value < ChainLength(replies)) ==>
        !cancelled && fetches == old(fetches) + ChainLength(replies) && ViewOf() == Settle(old(ViewOf()), replies)
    {
      cancelled := false;
      var v0, f0 := ViewOf(), fetches;
      var k := 0;
      var again := true;
      while again && k < |replies|
        invariant 0 <= k <= |replies| && fetches == f0 + k
        invariant cancelled <==> cancelAt.Some? && cancelAt.value < k
        invariant again ==> !cancelled && ViewOf() == v0
        invariant again ==> forall j :: 0 <= j < k ==> !EndsChain(replies[j])
        invariant !again ==> 1 <= k && forall j :: 0 <= j < k - 1 ==> !EndsChain(replies[j])
        invariant !again && cancelled ==> k == cancelAt.value + 1 && ViewOf() == v0
        invariant !again && !cancelled ==>
          EndsChain(replies[k - 1]) && ViewOf() == Apply(v0, replies[k - 1])
      {
        if cancelAt == Some(k) {
          Cleanup();
        }
        again := FetchResult(replies[k]);
        k := k + 1;
      }
      if again {
        NoEndKeepsWaiting(v0, replies);
      } else if !cancelled {
        FirstEndDecides(v0, replies, k - 1);
      } else {
        ChainAtLeast(replies, k);
      }
    }
  }

  /** After a change of route `id` the page keeps its state: once a load has
      failed, the error screen stays whatever the new chain receives, since
      no reply clears `error` or sets `loading` again. */
  lemma {:induction false} ErrorOutlivesIdChange(v: View, replies: seq<Reply<AnalysisResponse>>)
    requires !v.loading && v.error == LoadFailedMessage
    ensures Render(Settle(v, replies)) == Problem(LoadFailedMessage)
  {
    if replies != [] && !EndsChain(replies[0]) {
      ErrorOutlivesIdChange(v, replies[1..]);
    }
  }

  /** After a change of route `id`, the previous record stays on screen while
      the new chain sees only non-terminal replies. */
  lemma PreviousRecordShownWhileWaiting(v: View, replies: seq<Reply<AnalysisResponse>>)
    requires forall j :: 0 <= j < |replies| ==> !EndsChain(replies[j])
    ensures Render(Settle(v, replies)) == Render(v)
  {
    NoEndKeepsWaiting(v, replies);
  }

  /** A chain whose first `k` replies do not end it issues at least `k` fetches. */
  lemma {:induction false} ChainAtLeast(replies: seq<Reply<AnalysisResponse>>, k: nat)
    requires k <= |replies|
    requires forall j :: 0 <= j < k - 1 ==> !EndsChain(replies[j])
    ensures ChainLength(replies) >= k
  {
    if k > 0 && replies != [] {
      if k > 1 {
        assert !EndsChain(replies[0]);
        ChainAtLeast(replies[1..], k - 1);
      }
    }
  }
}
