/** American-odds arithmetic: the payout a bet is created with, the return it
    is settled with, and the roi / profit_loss a settled pick and its follow
    rows receive. */
module OddsMath {
  import opened Common
  import opened Schema

  function Abs(x: int): nat
  {
    if x < 0 then -x else x
  }

  /** Profit per unit staked at American odds: +X pays X per 100, -X pays 100
      per X. */
  function PayoutRatio(odds: int): (r: real)
    requires odds != 0
    ensures r > 0.0
    ensures odds > 0 ==> r * 100.0 == odds as real
    ensures odds < 0 ==> r * Abs(odds) as real == 100.0
  {
    if odds > 0 then odds as real / 100.0 else 100.0 / Abs(odds) as real
  }

  /** potential_return of a new bet (bets POST): the profit the stake earns if
      it wins. Callers have already refused odds of 0. */
  function PotentialReturn(stake: real, odds: int): (r: real)
    requires odds != 0
    ensures r == stake * PayoutRatio(odds)
    ensures stake > 0.0 ==> r > 0.0
    ensures stake < 0.0 ==> r < 0.0
  {
    if odds > 0 then stake * (odds as real / 100.0) else stake * (100.0 / Abs(odds) as real)
  }

  /** The usual reading of American odds: at +X a stake of 100 wins X, at
      -X a stake of X wins 100. */
  lemma AmericanOddsMeaning(x: int)
    requires x > 0
    ensures PotentialReturn(100.0, x) == x as real
    ensures PotentialReturn(x as real, -x) == 100.0
  {
    assert PayoutRatio(-x) * x as real == 100.0;
  }

  /** actual_return on settlement: the stake back plus the profit on a win,
      the stake back on a push, nothing on a loss. A result that is not a
      settlement result is refused before this is reached; it would leave 0. */
  function ActualReturn(result: BetResult, stake: real, potentialReturn: real): (r: real)
    ensures result == Won ==> r - stake == potentialReturn
    ensures result == Push ==> r == stake
    ensures result == Lost || result == Pending ==> r == 0.0
  {
    if result == Won then potentialReturn + stake
    else if result == Push then stake
    else 0.0
  }

  /** What the settled bet did to the bettor: the payout on a win, the stake
      lost on a loss, nothing on a push. */
  lemma SettledProfit(result: BetResult, stake: real, odds: int)
    requires odds != 0 && result != Pending
    ensures var r := ActualReturn(result, stake, PotentialReturn(stake, odds));
      r - stake == (match result
                    case Won => stake * PayoutRatio(odds)
                    case Lost => -stake
                    case _ => 0.0)
  {
  }

  /** Units won on a winning bet, (actual_return - stake) / stake, are the
      payout ratio of its odds whatever the stake. */
  lemma UnitsOnWin(stake: real, odds: int)
    requires odds != 0 && stake != 0.0
    ensures (ActualReturn(Won, stake, PotentialReturn(stake, odds)) - stake) / stake == PayoutRatio(odds)
  {
    var p := PayoutRatio(odds);
    assert ActualReturn(Won, stake, PotentialReturn(stake, odds)) - stake == stake * p;
    assert (stake * p) / stake == p;
  }

  /** A pick's roi (picks settle): the payout ratio for 'won' with truthy odds,
      -1 for 'lost', 0 otherwise. The result is free text, checked only for
      presence. */
  function PickRoi(result: string, odds: Option<int>): (roi: real)
    ensures result == "lost" ==> roi == -1.0
    ensures result == "won" && odds.Some? && odds.value != 0 ==> roi > 0.0 && roi == PayoutRatio(odds.value)
    ensures result != "won" && result != "lost" ==> roi == 0.0
    ensures result == "won" && !(odds.Some? && odds.value != 0) ==> roi == 0.0
  {
    if result == "won" && odds.Some? && odds.value != 0 then PayoutRatio(odds.value)
    else if result == "lost" then -1.0
    else 0.0
  }

  /** profit_loss written on every follow row of a settled pick. On 'won' it
      takes the payout ratio without checking the odds: missing odds give NaN
      and zero odds Infinity, which reach the store as NULL. */
  function FollowProfitLoss(result: string, odds: Option<int>): (pl: Nullable<real>)
  {
    if result == "won" then
      (if odds.Some? && odds.value != 0 then Val(PayoutRatio(odds.value)) else Null)
    else if result == "lost" then Val(-1.0)
    else Val(0.0)
  }

  /** A follow row gets the pick's own roi in every case except a win with
      missing or zero odds, where the pick's roi is 0 and profit_loss is NULL. */
  lemma FollowProfitLossMatchesPickRoi(result: string, odds: Option<int>)
    ensures FollowProfitLoss(result, odds).Null? <==> result == "won" && !(odds.Some? && odds.value != 0)
    ensures FollowProfitLoss(result, odds).Val? ==> FollowProfitLoss(result, odds).v == PickRoi(result, odds)
  {
  }
}
