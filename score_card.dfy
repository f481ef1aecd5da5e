/** The colour bands of the score dial (frontend/src/components/ScoreCard.jsx). */
module ScoreCard {
  import opened Text

  /** `Math.round`: the nearest integer, halves rounded up. */
  function Round(x: real): (r: int)
    ensures r as real - 0.5 <= x < r as real + 0.5
  {
    (x + 0.5).Floor
  }

  /** The number in the middle of the dial. */
  function DialText(score: real): (t: string)
    ensures |t| >= 2 && t[|t| - 1] == '%'
    ensures forall k :: 0 <= k < |t| - 1 ==> IsDigit(t[k]) || (k == 0 && t[k] == '-')
    ensures ParseDecimal(t[..|t| - 1]) == Round(score)
  {
    IntToDecimalRoundTrip(Round(score));
    var t := IntToDecimal(Round(score)) + "%";
    assert t[..|t| - 1] == IntToDecimal(Round(score));
    t
  }

  datatype Color = Color(stroke: string, text: string, bg: string, name: string)

  const StrongMatch := Color("#22c55e", "text-green-600", "bg-green-50", "Strong Match")
  const PartialMatch := Color("#eab308", "text-yellow-600", "bg-yellow-50", "Partial Match")
  const WeakMatch := Color("#ef4444", "text-red-600", "bg-red-50", "Weak Match")

  /** `getColor`: at least 70 is strong, at least 40 partial, anything lower weak. */
  function GetColor(s: real): (c: Color)
    ensures c == StrongMatch <==> s >= 70.0
    ensures c == PartialMatch <==> 40.0 <= s < 70.0
    ensures c == WeakMatch <==> s < 40.0
  {
    if s >= 70.0 then StrongMatch
    else if s >= 40.0 then PartialMatch
    else WeakMatch
  }

  /** How good a band is: weak 0, partial 1, strong 2. */
  function Strength(c: Color): nat {
    if c == StrongMatch then 2 else if c == PartialMatch then 1 else 0
  }

  /** Raising the score never moves it to a weaker band. */
  lemma GetColorMonotone(s: real, t: real)
    requires s <= t
    ensures Strength(GetColor(s)) <= Strength(GetColor(t))
  {
  }
}
