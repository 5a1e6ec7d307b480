/** The five rarity tiers of the weighted draw table (app.py:25-31, 120-126). */
module Rarity {

  datatype Tier = Common | Uncommon | Rare | Epic | Legendary

  /** The tiers that reset the pity counter: "epic" and "legendary". */
  predicate IsTopTier(t: Tier)
  {
    t.Epic? || t.Legendary?
  }

  /** The range of the two-tier table used for a pity-forced draw. */
  type TopTier = t: Tier | IsTopTier(t) witness Epic

  /** The string under which a tier is stored in a card document. */
  function Name(t: Tier): string
  {
    match t
    case Common => "common"
    case Uncommon => "uncommon"
    case Rare => "rare"
    case Epic => "epic"
    case Legendary => "legendary"
  }

}
