/** The Gauge game card's review badge. */
module GameCard {
  import opened Wrappers

  datatype ReviewStatus = Positive | Mixed | Negative

  /** `getReviewStatus(score)`: 70 and up is positive, 50 to 69 mixed, below 50 negative. */
  function GetReviewStatus(score: int): (r: ReviewStatus)
    ensures r == Positive <==> score >= 70
    ensures r == Mixed <==> 50 <= score < 70
    ensures r == Negative <==> score < 50
  {
    if score >= 70 then Positive
    else if score >= 50 then Mixed
    else Negative
  }

  /** The badge of a card: none for a score of 0, which is falsy, the status otherwise. */
  function CardStatus(steamScore: int): (r: Option<ReviewStatus>)
    ensures r.None? <==> steamScore == 0
    ensures r.Some? ==> r.value == GetReviewStatus(steamScore)
  {
    if steamScore != 0 then Some(GetReviewStatus(steamScore)) else None
  }

  /** Positive ranks above mixed, mixed above negative. */
  function Rank(s: ReviewStatus): nat {
    match s
    case Negative => 0
    case Mixed => 1
    case Positive => 2
  }

  /** A higher score never gets a lower status. */
  lemma StatusMonotone(a: int, b: int)
    requires a <= b
    ensures Rank(GetReviewStatus(a)) <= Rank(GetReviewStatus(b))
  {
  }
}
