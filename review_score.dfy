/** The command-line tool's review score (review_api.py): the share of positive
    Steam reviews, as a percentage, from the store's review summary. */
module ReviewScore {
  import opened Common

  /** The `query_summary` object of a reply; each field is `None` when absent. */
  datatype Summary = Summary(totalReviews: Option<int>, totalPositive: Option<int>,
                             totalNegative: Option<int>, reviewScoreDesc: Option<string>)

  /** The reply: a failed request (a transport error or an error status), or the decoded
      body, whose summary is `None` when the body has no `query_summary`. */
  datatype Reply = RequestFailed | Body(summary: Option<Summary>)

  datatype Review = Review(source: string, score: real, totalReviews: int,
                           positiveReviews: int, negativeReviews: int, reviewDesc: string)

  /** `positive / (positive + negative) * 100`, or 0 without votes. */
  function Percentage(positive: int, negative: int): (score: real)
    ensures 0 <= positive && 0 <= negative ==> 0.0 <= score <= 100.0
    ensures positive + negative > 0 && negative == 0 ==> score == 100.0
    ensures positive == 0 ==> score == 0.0
    ensures positive + negative > 0 ==> score * (positive + negative) as real == 100.0 * positive as real
  {
    if positive + negative > 0 then positive as real / (positive + negative) as real * 100.0 else 0.0
  }

  /** `get_steam_score(appid)`: `None` for a failed request and for a summary without
      reviews (a missing `total_reviews` counts as 0). */
  function GetSteamScore(reply: Reply): (r: Option<Review>)
    ensures reply.RequestFailed? ==> r.None?
    ensures r.Some? <==> reply.Body? && var s := SummaryOf(reply); s.totalReviews.GetOr(0) != 0
    ensures r.Some? ==> r.value.source == "Steam" && r.value.totalReviews != 0
    ensures r.Some? ==> var s := SummaryOf(reply);
      r.value.positiveReviews == s.totalPositive.GetOr(0)
      && r.value.negativeReviews == s.totalNegative.GetOr(0)
      && r.value.score == Percentage(r.value.positiveReviews, r.value.negativeReviews)
      && r.value.reviewDesc == s.reviewScoreDesc.GetOr("No reviews")
  {
    match reply
    case RequestFailed => None
    case Body(_) =>
      var s := SummaryOf(reply);
      var total := s.totalReviews.GetOr(0);
      if total == 0 then None
      else
        var positive := s.totalPositive.GetOr(0);
        var negative := s.totalNegative.GetOr(0);
        Some(Review("Steam", Percentage(positive, negative), total, positive, negative,
                    s.reviewScoreDesc.GetOr("No reviews")))
  }

  /** `data.get("query_summary", {})`. */
  function SummaryOf(reply: Reply): Summary
    requires reply.Body?
  {
    reply.summary.GetOr(Summary(None, None, None, None))
  }

  /** With non-negative vote counts every score is a percentage. */
  lemma ScoreIsPercentage(reply: Reply)
    requires reply.Body? && SummaryOf(reply).totalPositive.GetOr(0) >= 0 && SummaryOf(reply).totalNegative.GetOr(0) >= 0
    ensures GetSteamScore(reply).Some? ==> 0.0 <= GetSteamScore(reply).value.score <= 100.0
  {
  }

  /** `get_score(appid, game_name)`: the Steam score; the name is unused. */
  function GetScore(reply: Reply, gameName: string): (r: Option<Review>)
    ensures r == GetSteamScore(reply)
  {
    GetSteamScore(reply)
  }
}
