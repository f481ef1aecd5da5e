/** The history page (frontend/src/pages/HistoryPage.jsx): the status/score
    badge of each row, the one-shot load of `GET /analysis/`, and which
    screen the page shows for its state. */
module HistoryPage {
  import opened Wrappers
  import opened Text
  import opened Schemas
  import ScoreCard

  const LoadFailedMessage := "Failed to load history"
  const MatchSuffix := "% match"

  /** The colour classes of a badge. */
  datatype Tone = RedTone | GrayTone | GreenTone | YellowTone

  datatype Badge = Badge(text: string, tone: Tone)

  /** The colour of a completed score: green from 70, yellow from 40, red below. */
  function ScoreTone(score: real): (t: Tone)
    ensures t == GreenTone <==> score >= 70.0
    ensures t == YellowTone <==> 40.0 <= score < 70.0
    ensures t == RedTone <==> score < 40.0
  {
    if score >= 70.0 then GreenTone else if score >= 40.0 then YellowTone else RedTone
  }

  /** `ScoreBadge`: "Failed" for a failed record whatever its score; a gray
      "Processing..." or "Pending" while there is no completed score; otherwise
      the rounded score in its colour band. */
  function ScoreBadge(score: Option<real>, status: string): (b: Badge)
    ensures status == Failed ==> b == Badge("Failed", RedTone)
    ensures status != Failed && (status != Completed || score.None?) ==>
      b == Badge(if status == Processing then "Processing..." else "Pending", GrayTone)
    ensures status == Completed && score.Some? ==>
      b.tone == ScoreTone(score.value) && EndsWith(b.text, MatchSuffix)
  {
    if status == Failed then Badge("Failed", RedTone)
    else if status != Completed || score.None? then
      Badge(if status == Processing then "Processing..." else "Pending", GrayTone)
    else
      Badge(IntToDecimal(ScoreCard.Round(score.value)) + MatchSuffix, ScoreTone(score.value))
  }

  /** The number in a completed badge reads back as the rounded score. */
  lemma BadgeNamesRoundedScore(score: real)
    ensures var t := ScoreBadge(Some(score), Completed).text;
      var d := t[..|t| - |MatchSuffix|];
      d != [] && (forall k :: 0 <= k < |d| ==> IsDigit(d[k]) || (k == 0 && d[k] == '-'))
      && ParseDecimal(d) == ScoreCard.Round(score)
  {
    var d := IntToDecimal(ScoreCard.Round(score));
    IntToDecimalRoundTrip(ScoreCard.Round(score));
    var t := ScoreBadge(Some(score), Completed).text;
    assert t == d + MatchSuffix;
    assert t[..|t| - |MatchSuffix|] == d;
  }

  /** The badge colours and the score dial's labels use the same thresholds. */
  lemma BadgeBandsMatchScoreCard(score: real)
    ensures ScoreTone(score) == GreenTone <==> ScoreCard.GetColor(score) == ScoreCard.StrongMatch
    ensures ScoreTone(score) == YellowTone <==> ScoreCard.GetColor(score) == ScoreCard.PartialMatch
    ensures ScoreTone(score) == RedTone <==> ScoreCard.GetColor(score) == ScoreCard.WeakMatch
  {
  }

  /** The colour follows the raw score while the text shows the rounded one,
      so 69.5 reads "70% match" in the yellow band. */
  lemma RoundedTextCanCrossBand()
    ensures ScoreBadge(Some(69.5), Completed) == Badge("70% match", YellowTone)
  {
    assert ScoreCard.Round(69.5) == 70;
    assert NatDigits(7) == "7";
    assert NatDigits(70) == "70";
  }

  /** "N analysis total" for one item, "N analyses total" otherwise. */
  function CountLabel(n: nat): (r: string)
    ensures |NatDigits(n)| <= |r| && r[..|NatDigits(n)|] == NatDigits(n)
    ensures r[|NatDigits(n)|..] == (if n == 1 then " analysis total" else " analyses total")
  {
    var digits, suffix := NatDigits(n), if n == 1 then " analysis total" else " analyses total";
    assert (digits + suffix)[|digits|..] == suffix;
    digits + suffix
  }

  /** The singular noun appears exactly for a single analysis. */
  lemma CountLabelSingularIff(n: nat)
    ensures EndsWith(CountLabel(n), " analysis total") <==> n == 1
  {
    var r := CountLabel(n);
    var m := |r| - |" analysis total"|;
    if n != 1 {
      assert r[m..] == " analyses total";
      assert r[m..][7] != " analysis total"[7];
    }
  }

  /** One entry of the list: a link to its result page, the preview and the badge. */
  datatype Row = Row(link: string, preview: string, createdAt: Instant, badge: Badge)

  datatype ListBody = EmptyState | Rows(rows: seq<Row>)

  datatype Screen =
    | Spinner
    | Listing(countLabel: string, banner: Option<string>, body: ListBody)

  function RowOf(a: ListItem): Row {
    Row("/result/" + a.id, a.jobDescriptionPreview, a.createdAt, ScoreBadge(a.matchScore, a.status))
  }

  function RowsOf(items: seq<ListItem>): (r: seq<Row>)
    ensures |r| == |items|
    ensures forall k :: 0 <= k < |items| ==> r[k] == RowOf(items[k])
  {
    if items == [] then [] else [RowOf(items[0])] + RowsOf(items[1..])
  }

  /** What the page renders: a spinner while loading; then the count, the error
      banner when there is an error, and either the empty state or one row per
      item in the order received. */
  function ScreenOf(loading: bool, error: string, analyses: seq<ListItem>): (s: Screen)
    ensures loading <==> s == Spinner
    ensures !loading ==> s.countLabel == CountLabel(|analyses|)
    ensures !loading ==> (s.banner.Some? <==> error != []) && (s.banner.Some? ==> s.banner.value == error)
    ensures !loading ==> (s.body == EmptyState <==> analyses == [])
    ensures !loading && analyses != [] ==>
      |s.body.rows| == |analyses|
      && forall k :: 0 <= k < |analyses| ==>
           (s.body.rows[k].link == "/result/" + analyses[k].id
            && s.body.rows[k].badge == ScoreBadge(analyses[k].matchScore, analyses[k].status))
  {
    if loading then Spinner
    else Listing(
      CountLabel(|analyses|),
      if error != [] then Some(error) else None,
      if analyses == [] then EmptyState else Rows(RowsOf(analyses)))
  }

  /** The page's state. */
  class HistoryView {
    var analyses: seq<ListItem>
    var loading: bool
    var error: string

    constructor ()
      ensures analyses == [] && loading && error == []
    {
      analyses := [];
      loading := true;
      error := [];
    }

    /** The mount effect once `GET /analysis/` settles: the list on success, the
        error message on failure, and the spinner off either way. */
    method Load(reply: Reply<seq<ListItem>>)
      modifies this
      ensures !loading
      ensures reply.Responded? ==> analyses == reply.data && error == old(error)
      ensures reply.Threw? ==> analyses == old(analyses) && error == LoadFailedMessage
    {
      match reply {
        case Responded(items) =>
          analyses := items;
        case Threw(_) =>
          error := LoadFailedMessage;
      }
      loading := false;
    }

    function Render(): Screen
      reads this
    {
      ScreenOf(loading, error, analyses)
    }
  }

  /** A failed first load shows the banner over an empty history. */
  lemma FailedLoadShowsEmptyHistory()
    ensures ScreenOf(false, LoadFailedMessage, [])
      == Listing("0 analyses total", Some(LoadFailedMessage), EmptyState)
  {
    EmptyCountLabel();
  }

  /** The label of an empty history. */
  lemma EmptyCountLabel()
    ensures CountLabel(0) == "0 analyses total"
  {
    assert NatDigits(0) == "0";
  }
}
