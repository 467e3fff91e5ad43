/** The playtime badge of a game card (web/src/components/GameCard.jsx): four
    half-open hour buckets, each with its own text and colour classes. */
module GameCard {

  datatype Badge = Badge(text: string, color: string)

  const UNDER_FIVE := Badge("< 5 hrs", "bg-green-100 text-green-800")
  const FIVE_TO_TEN := Badge("5-10 hrs", "bg-blue-100 text-blue-800")
  const TEN_TO_TWENTY := Badge("10-20 hrs", "bg-yellow-100 text-yellow-800")
  const TWENTY_PLUS := Badge("20+ hrs", "bg-red-100 text-red-800")

  /** The badges in bucket order. */
  const BADGES: seq<Badge> := [UNDER_FIVE, FIVE_TO_TEN, TEN_TO_TWENTY, TWENTY_PLUS]

  /** `getPlaytimeBadge`. */
  function PlaytimeBadge(hours: real): (b: Badge)
    ensures hours < 5.0 ==> b == UNDER_FIVE
    ensures 5.0 <= hours < 10.0 ==> b == FIVE_TO_TEN
    ensures 10.0 <= hours < 20.0 ==> b == TEN_TO_TWENTY
    ensures 20.0 <= hours ==> b == TWENTY_PLUS
  {
    if hours < 5.0 then UNDER_FIVE
    else if hours < 10.0 then FIVE_TO_TEN
    else if hours < 20.0 then TEN_TO_TWENTY
    else TWENTY_PLUS
  }

  /** The position of a badge in `BADGES`. */
  function Rank(b: Badge): (i: nat)
    requires b in BADGES
    ensures i < |BADGES| && BADGES[i] == b
  {
    if b == UNDER_FIVE then 0
    else if b == FIVE_TO_TEN then 1
    else if b == TEN_TO_TWENTY then 2
    else 3
  }

  /** Every input gets exactly one of the four badges, and more hours never give an
      earlier bucket. */
  lemma BadgeIsMonotone(h1: real, h2: real)
    requires h1 <= h2
    ensures PlaytimeBadge(h1) in BADGES && PlaytimeBadge(h2) in BADGES
    ensures Rank(PlaytimeBadge(h1)) <= Rank(PlaytimeBadge(h2))
  {
  }

  /** The four badges have distinct texts, so a text always comes with the same colours. */
  lemma TextDeterminesColour(h1: real, h2: real)
    ensures PlaytimeBadge(h1).text == PlaytimeBadge(h2).text ==> PlaytimeBadge(h1) == PlaytimeBadge(h2)
  {
  }
}
