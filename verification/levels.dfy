/** The user tiers and their one-step progression BASIC -> SILVER -> GOLD. */
module Levels {
  import opened Wrappers

  datatype Level = Basic | Silver | Gold

  /** Position of a tier in the ordered progression; an independent reference for NextLevel. */
  function Rank(l: Level): nat
  {
    match l
    case Basic => 0
    case Silver => 1
    case Gold => 2
  }

  /** The tier one step above `l`; GOLD is terminal and has none. */
  function NextLevel(l: Level): (r: Option<Level>)
    ensures r.None? <==> l == Gold
    ensures r.Some? ==> Rank(r.value) == Rank(l) + 1
  {
    match l
    case Basic => Some(Silver)
    case Silver => Some(Gold)
    case Gold => None
  }

  /** NextLevel is exactly the "rank plus one" relation: a tier is never skipped. */
  lemma NextLevelIsRankSuccessor(l: Level, m: Level)
    ensures NextLevel(l) == Some(m) <==> Rank(m) == Rank(l) + 1
  {
  }
}
