/** The two pieces of logic in the browser component: the payout preview of
    the bet form, and the result badge and settle buttons of a bet card. */
module BetTrackerClient {
  import opened Schema
  import OddsMath

  /** calculatePotentialReturn: 0 while either field is empty or 0, otherwise
      the same payout as the server computes. */
  function CalculatePotentialReturn(stake: real, odds: int): (r: real)
    ensures stake == 0.0 || odds == 0 ==> r == 0.0
    ensures odds > 0 && stake != 0.0 ==> r * 100.0 == stake * odds as real
    ensures odds < 0 && stake != 0.0 ==> r * OddsMath.Abs(odds) as real == stake * 100.0
  {
    if stake == 0.0 || odds == 0 then 0.0
    else if odds > 0 then stake * (odds as real / 100.0)
    else stake * (100.0 / OddsMath.Abs(odds) as real)
  }

  /** For every input the server accepts, the preview is what the server stores. */
  lemma PreviewAgreesWithServer(stake: real, odds: int)
    requires stake != 0.0 && odds != 0
    ensures CalculatePotentialReturn(stake, odds) == OddsMath.PotentialReturn(stake, odds)
  {
  }

  /** What a bet card's badge shows. */
  datatype Label = PendingLabel | Gain(amount: real) | Loss(amount: real) | PushLabel

  function ResultLabel(bet: Bet): (l: Label)
    ensures bet.result == Won <==> l.Gain?
    ensures bet.result == Lost <==> l.Loss?
    ensures l.Gain? ==> l.amount == bet.actualReturn - bet.stake
    ensures l.Loss? ==> l.amount == bet.stake
  {
    match bet.result
    case Pending => PendingLabel
    case Won => Gain(bet.actualReturn - bet.stake)
    case Lost => Loss(bet.stake)
    case Push => PushLabel
  }

  /** The won/lost/push buttons are offered only on pending bets. */
  predicate ShowsSettleButtons(bet: Bet)
  {
    bet.result == Pending
  }

  /** A bet the server settled as won is labelled with its potential return,
      the profit promised when it was placed. */
  lemma WonLabelIsPotentialReturn(bet: Bet)
    requires bet.result == Won
    requires bet.actualReturn == OddsMath.ActualReturn(Won, bet.stake, bet.potentialReturn)
    ensures ResultLabel(bet) == Gain(bet.potentialReturn)
    ensures !ShowsSettleButtons(bet)
  {
  }
}
