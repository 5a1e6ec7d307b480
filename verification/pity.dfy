/** The per-user pity counter of `give_random_card` (app.py:129-154). */
module Pity {

  import opened Rarity

  /** At this stored counter the draw is forced to the top tiers. */
  const Threshold := 14

  /** The two random outcomes a draw may consult: the five-tier weighted
      choice and the epic/legendary choice of the forced table. Only one of
      them is used, depending on the counter. */
  datatype Roll = Roll(weighted: Tier, guaranteed: TopTier)

  /** The selected tier, the counter to persist, and whether pity forced it. */
  datatype Step = Step(tier: Tier, pity: int, forced: bool)

  /** One draw's tier selection and counter update. */
  function Next(pity: int, roll: Roll): (s: Step)
    ensures s.forced <==> pity >= Threshold
    ensures s.forced ==> s.tier == roll.guaranteed
    ensures !s.forced ==> s.tier == roll.weighted
    ensures IsTopTier(s.tier) ==> s.pity == 0
    ensures !IsTopTier(s.tier) ==> s.pity == pity + 1
    ensures 0 <= pity <= Threshold ==> 0 <= s.pity <= Threshold
  {
    if pity >= Threshold then
      Step(roll.guaranteed, 0, true)
    else if IsTopTier(roll.weighted) then
      Step(roll.weighted, 0, false)
    else
      Step(roll.weighted, pity + 1, false)
  }

  /** The tiers selected by consecutive draws of one user. */
  function Tiers(pity: int, rolls: seq<Roll>): (ts: seq<Tier>)
    ensures |ts| == |rolls|
    decreases |rolls|
  {
    if |rolls| == 0 then []
    else
      var s := Next(pity, rolls[0]);
      [s.tier] + Tiers(s.pity, rolls[1..])
  }

  /** The counter stored after consecutive draws of one user. */
  function After(pity: int, rolls: seq<Roll>): (p: int)
    ensures 0 <= pity <= Threshold ==> 0 <= p <= Threshold
    decreases |rolls|
  {
    if |rolls| == 0 then pity
    else After(Next(pity, rolls[0]).pity, rolls[1..])
  }

  /** The length of the drought at the end of `ts`: draws since the last
      top-tier one, on top of `pity` when there was none. */
  function Drought(pity: int, ts: seq<Tier>): int
  {
    if |ts| == 0 then pity
    else if IsTopTier(ts[|ts| - 1]) then 0
    else Drought(pity, ts[..|ts| - 1]) + 1
  }

  /** Draws compose: the run over `rolls` is the run over a prefix followed
      by the run over the rest from the counter the prefix left. */
  lemma {:induction false} Split(pity: int, rolls: seq<Roll>, i: nat)
    requires i <= |rolls|
    ensures Tiers(pity, rolls) == Tiers(pity, rolls[..i]) + Tiers(After(pity, rolls[..i]), rolls[i..])
    ensures After(pity, rolls) == After(After(pity, rolls[..i]), rolls[i..])
    decreases i
  {
    if i == 0 {
      assert rolls[..0] == [];
      assert rolls[0..] == rolls;
    } else {
      var s := Next(pity, rolls[0]);
      Split(s.pity, rolls[1..], i - 1);
      assert rolls[1..][..i - 1] == rolls[..i][1..];
      assert rolls[1..][i - 1..] == rolls[i..];
    }
  }

  /** The stored counter is exactly the drought length of the drawn tiers. */
  lemma {:induction false} CounterIsDrought(pity: int, rolls: seq<Roll>)
    ensures After(pity, rolls) == Drought(pity, Tiers(pity, rolls))
    decreases |rolls|
  {
    if |rolls| > 0 {
      var n := |rolls| - 1;
      Split(pity, rolls, n);
      var p := After(pity, rolls[..n]);
      var s := Next(p, rolls[n]);
      assert rolls[n..] == [rolls[n]];
      assert rolls[n..][1..] == [];
      assert Tiers(p, rolls[n..]) == [s.tier];
      assert After(p, rolls[n..]) == s.pity;
      var ts := Tiers(pity, rolls);
      assert ts[..n] == Tiers(pity, rolls[..n]);
      assert ts[n] == s.tier;
      CounterIsDrought(pity, rolls[..n]);
    }
  }

  /** From a counter in range, a top tier is drawn within the next
      `Threshold + 1 - pity` draws. */
  lemma {:induction false} TopTierWithin(pity: int, rolls: seq<Roll>)
    requires 0 <= pity <= Threshold
    requires |rolls| >= Threshold + 1 - pity
    ensures exists j :: 0 <= j < Threshold + 1 - pity && IsTopTier(Tiers(pity, rolls)[j])
    decreases Threshold - pity
  {
    var s := Next(pity, rolls[0]);
    var ts := Tiers(pity, rolls);
    assert ts[0] == s.tier;
    if !IsTopTier(s.tier) {
      TopTierWithin(s.pity, rolls[1..]);
      var j :| 0 <= j < Threshold + 1 - s.pity && IsTopTier(Tiers(s.pity, rolls[1..])[j]);
      assert ts[j + 1] == Tiers(s.pity, rolls[1..])[j];
    }
  }

  /** Guaranteed rare: from a counter in range (a new user starts at 0),
      every 15 consecutive draws contain an epic or legendary. */
  lemma WindowHasTopTier(pity: int, rolls: seq<Roll>, i: nat)
    requires 0 <= pity <= Threshold
    requires i + Threshold + 1 <= |rolls|
    ensures exists j :: i <= j < i + Threshold + 1 && IsTopTier(Tiers(pity, rolls)[j])
  {
    Split(pity, rolls, i);
    var p := After(pity, rolls[..i]);
    TopTierWithin(p, rolls[i..]);
    var j :| 0 <= j < Threshold + 1 - p && IsTopTier(Tiers(p, rolls[i..])[j]);
    assert Tiers(pity, rolls)[i + j] == Tiers(p, rolls[i..])[j];
  }

}
