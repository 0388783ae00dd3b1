/** The aggregates that settlement recomputes from a user's settled bets
    (the values `updateUserStats` upserts), each as a function of the bet
    sequence, and the streak scan as the loop the handler runs. */
module StatsAggregate {
  import opened Common
  import opened Schema
  import OddsMath

  predicate IsSettled(b: Bet)
  {
    b.result == Won || b.result == Lost || b.result == Push
  }

  /** The user's won, lost and push bets in the experience, in table order. */
  function SettledOf(bets: seq<Bet>, userId: Id, experienceId: string): (r: seq<Bet>)
    ensures forall b :: b in r <==> b in bets && b.userId == userId && b.experienceId == experienceId && IsSettled(b)
    ensures BetsWellFormed(bets) ==> forall i :: 0 <= i < |r| ==> r[i].stake != 0.0
  {
    var r := Filter(bets, (b: Bet) => b.userId == userId && b.experienceId == experienceId && IsSettled(b));
    assert forall i :: 0 <= i < |r| ==> r[i] in r;
    r
  }

  function CountResult(bets: seq<Bet>, r: BetResult): (n: nat)
    ensures n <= |bets|
  {
    if bets == [] then 0
    else (if bets[0].result == r then 1 else 0) + CountResult(bets[1..], r)
  }

  /** A count is 0 exactly when no bet has that result. */
  lemma {:induction false} CountResultZero(bets: seq<Bet>, r: BetResult)
    ensures CountResult(bets, r) == 0 <==> forall i :: 0 <= i < |bets| ==> bets[i].result != r
  {
    if bets != [] {
      CountResultZero(bets[1..], r);
      assert forall i :: 1 <= i < |bets| ==> bets[i] == bets[1..][i - 1];
    }
  }

  function Wins(bets: seq<Bet>): nat { CountResult(bets, Won) }
  function Losses(bets: seq<Bet>): nat { CountResult(bets, Lost) }
  function Pushes(bets: seq<Bet>): nat { CountResult(bets, Push) }

  /** Every settled bet is exactly one of won, lost or push. */
  lemma {:induction false} ResultsPartition(bets: seq<Bet>)
    requires forall i :: 0 <= i < |bets| ==> IsSettled(bets[i])
    ensures Wins(bets) + Losses(bets) + Pushes(bets) == |bets|
  {
    if bets != [] {
      ResultsPartition(bets[1..]);
    }
  }

  /** Wins and losses together never exceed the settled count. */
  lemma {:induction false} WinsPlusLossesBounded(bets: seq<Bet>)
    ensures Wins(bets) + Losses(bets) <= |bets|
  {
    if bets != [] {
      WinsPlusLossesBounded(bets[1..]);
    }
  }

  /** win_rate: percentage of settled bets won, 0 when there are none. */
  function WinRate(bets: seq<Bet>): (rate: real)
    ensures 0.0 <= rate <= 100.0
    ensures |bets| == 0 ==> rate == 0.0
    ensures rate == 100.0 <==> |bets| > 0 && Wins(bets) == |bets|
    ensures rate == 0.0 <==> Wins(bets) == 0
  {
    if |bets| > 0 then (Wins(bets) as real / |bets| as real) * 100.0 else 0.0
  }

  /** A settled bet's contribution to net_profit. */
  function BetProfit(b: Bet): real
  {
    match b.result
    case Won => b.actualReturn - b.stake
    case Lost => -b.stake
    case _ => 0.0
  }

  function NetProfit(bets: seq<Bet>): real
  {
    if bets == [] then 0.0 else BetProfit(bets[0]) + NetProfit(bets[1..])
  }

  function TotalStake(bets: seq<Bet>): real
  {
    if bets == [] then 0.0 else bets[0].stake + TotalStake(bets[1..])
  }

  /** With positive stakes and non-negative returns no bet loses more than its
      stake, so the net profit is at least minus the total staked. */
  lemma {:induction false} NetProfitAtLeastMinusStake(bets: seq<Bet>)
    requires forall i :: 0 <= i < |bets| ==> bets[i].stake > 0.0 && bets[i].actualReturn >= 0.0
    ensures NetProfit(bets) >= -TotalStake(bets)
    ensures |bets| > 0 ==> TotalStake(bets) > 0.0
  {
    if bets != [] {
      NetProfitAtLeastMinusStake(bets[1..]);
    }
  }

  /** roi: net profit as a percentage of the total staked, 0 with no settled
      bets. A zero total stake divides by zero; the NaN or Infinity is stored
      as NULL. */
  function Roi(bets: seq<Bet>): (roi: Nullable<real>)
    ensures |bets| == 0 ==> roi == Val(0.0)
    ensures roi.Null? <==> |bets| > 0 && TotalStake(bets) == 0.0
  {
    if |bets| > 0 then
      (if TotalStake(bets) != 0.0 then Val((NetProfit(bets) / TotalStake(bets)) * 100.0) else Null)
    else Val(0.0)
  }

  /** For bets with positive stakes and non-negative returns (every bet the app
      creates with a positive stake and settles) roi is a number of at least
      -100 whose sign is the sign of net profit. */
  lemma RoiBounds(bets: seq<Bet>)
    requires |bets| > 0
    requires forall i :: 0 <= i < |bets| ==> bets[i].stake > 0.0 && bets[i].actualReturn >= 0.0
    ensures Roi(bets).Val?
    ensures Roi(bets).v >= -100.0
    ensures Roi(bets).v > 0.0 <==> NetProfit(bets) > 0.0
    ensures Roi(bets).v == 0.0 <==> NetProfit(bets) == 0.0
  {
    NetProfitAtLeastMinusStake(bets);
    QuotientFacts(NetProfit(bets), TotalStake(bets));
  }

  /** The quotient of a loss of at most `t` by `t > 0` is at least -1 and has
      the sign of the dividend. */
  lemma QuotientFacts(n: real, t: real)
    requires t > 0.0 && n >= -t
    ensures n / t >= -1.0
    ensures n / t > 0.0 <==> n > 0.0
    ensures n / t == 0.0 <==> n == 0.0
  {
    var q := n / t;
    assert q * t == n;
    assert (q + 1.0) * t == n + t;
    if q > 0.0 { assert q * t > 0.0; }
    if q < 0.0 { assert q * t < 0.0; }
  }

  /** A settled bet's contribution to units_won. */
  function BetUnits(b: Bet): real
    requires b.result == Won ==> b.stake != 0.0
  {
    match b.result
    case Won => (b.actualReturn - b.stake) / b.stake
    case Lost => -1.0
    case _ => 0.0
  }

  function UnitsWon(bets: seq<Bet>): real
    requires forall i :: 0 <= i < |bets| ==> bets[i].stake != 0.0
  {
    if bets == [] then 0.0 else BetUnits(bets[0]) + UnitsWon(bets[1..])
  }

  /** A bet settled through ActualReturn scores its odds' payout ratio in units
      on a win, -1 on a loss and 0 on a push, whatever its stake. */
  lemma SettledBetUnits(b: Bet)
    requires b.stake != 0.0 && b.oddsAmerican != 0 && IsSettled(b)
    requires b.potentialReturn == OddsMath.PotentialReturn(b.stake, b.oddsAmerican)
    requires b.actualReturn == OddsMath.ActualReturn(b.result, b.stake, b.potentialReturn)
    ensures b.result == Won ==> BetUnits(b) == OddsMath.PayoutRatio(b.oddsAmerican)
    ensures b.result == Lost ==> BetUnits(b) == -1.0
    ensures b.result == Push ==> BetUnits(b) == 0.0
  {
    if b.result == Won {
      OddsMath.UnitsOnWin(b.stake, b.oddsAmerican);
    }
  }

  predicate HasLoss(bets: seq<Bet>)
  {
    exists i :: 0 <= i < |bets| && bets[i].result == Lost
  }

  /** current_streak as the handler's scan computes it: the backward scan
      counts wins but overwrites the count with -1 at the first loss it meets
      and stops, so the streak is -1 as soon as any settled bet is lost and is
      the number of wins otherwise; pushes are passed over. */
  function Streak(bets: seq<Bet>): int
  {
    if HasLoss(bets) then -1 else Wins(bets) as int
  }

  /** One step of the backward scan: bet `i` in front of the suffix after it. */
  lemma CountStep(bets: seq<Bet>, i: nat)
    requires i < |bets|
    ensures CountResult(bets[i..], Won) == (if bets[i].result == Won then 1 else 0) + CountResult(bets[i + 1..], Won)
  {
    assert bets[i..][1..] == bets[i + 1..];
  }

  /** The backward scan, `for (i = n - 1; i >= 0; i--)` with its `break`. */
  method ScanStreak(bets: seq<Bet>) returns (streak: int)
    ensures streak == Streak(bets)
    ensures streak == -1 <==> HasLoss(bets)
    ensures streak >= 0 ==> streak == Wins(bets)
  {
    streak := 0;
    var i := |bets| - 1;
    while i >= 0
      invariant -1 <= i < |bets|
      invariant streak == CountResult(bets[i + 1..], Won)
      invariant forall k :: i < k < |bets| ==> bets[k].result != Lost
    {
      CountStep(bets, i);
      if bets[i].result == Won {
        streak := streak + 1;
      } else if bets[i].result == Lost {
        assert HasLoss(bets) by { assert 0 <= i < |bets| && bets[i].result == Lost; }
        streak := -1;
        break;
      }
      i := i - 1;
    }
    if streak >= 0 {
      assert i == -1 && bets[0..] == bets;
    }
  }

  /** The stats row `updateUserStats` upserts for `settled` (the user's
      won/lost/push bets), `pending` open bets and the scanned `streak`. */
  function StatsRow(userId: Id, experienceId: string, settled: seq<Bet>, pending: nat, streak: int, now: int): (row: UserStats)
    requires forall i :: 0 <= i < |settled| ==> settled[i].stake != 0.0
    ensures row.userId == userId && row.experienceId == experienceId && row.updatedAt == now
    ensures row.totalBets == |settled| && row.wins + row.losses <= row.totalBets
    ensures 0.0 <= row.winRate <= 100.0
  {
    WinsPlusLossesBounded(settled);
    UserStats(userId, experienceId, |settled|, Wins(settled), Losses(settled), pending,
              WinRate(settled), Roi(settled), NetProfit(settled), streak, UnitsWon(settled), now)
  }
}
