/** app/api/user-stats: the caller's stats (created on first contact like
    bet creation does) and the cumulative-profit chart of their settled bets. */
module UserStatsRoute {
  import opened Common
  import opened Schema
  import opened UserAccounts
  import opened StatsAggregate

  /** The stats the response carries. */
  datatype StatsSummary = StatsSummary(
    totalBets: nat,
    winRate: real,
    roi: Nullable<real>,
    netProfit: real,
    currentStreak: int,
    unitsWon: real,
    wins: nat,
    losses: nat,
    pending: nat)

  function Summary(s: UserStats): StatsSummary
  {
    StatsSummary(s.totalBets, s.winRate, s.roi, s.netProfit, s.currentStreak, s.unitsWon, s.wins, s.losses, s.pending)
  }

  /** The summary shown when the caller has no stats row: every value 0. */
  const DefaultSummary: StatsSummary := StatsSummary(0, 0.0, Val(0.0), 0.0, 0, 0.0, 0, 0, 0)

  /** One point of the chart; the bet id stands for its created_at. */
  datatype ChartPoint = ChartPoint(betId: Id, profit: real, roi: real)

  /** What a settled bet did to the bettor, actual_return - stake. */
  function Gain(b: Bet): real
  {
    b.actualReturn - b.stake
  }

  function ProfitSum(bets: seq<Bet>): real
  {
    if bets == [] then 0.0 else Gain(bets[0]) + ProfitSum(bets[1..])
  }

  lemma {:induction false} ProfitSumAppend(bets: seq<Bet>, b: Bet)
    ensures ProfitSum(bets + [b]) == ProfitSum(bets) + Gain(b)
  {
    if bets == [] {
      assert [] + [b] == [b];
      assert [b][1..] == [];
    } else {
      assert (bets + [b])[1..] == bets[1..] + [b];
      ProfitSumAppend(bets[1..], b);
    }
  }

  /** `total` spread over `count` bets, as a percentage. */
  function PercentPerBet(total: real, count: nat): (p: real)
    requires count > 0
    ensures p * count as real == total * 100.0
  {
    (total / count as real) * 100.0
  }

  /** Point i of the chart: the profit summed over the first i + 1 bets, and
      that sum divided by i + 1, as a percentage; point 0 has roi 0. */
  function Point(bets: seq<Bet>, i: nat): ChartPoint
    requires i < |bets|
  {
    var cumulative := ProfitSum(bets[..i + 1]);
    ChartPoint(bets[i].id, cumulative, if i == 0 then 0.0 else PercentPerBet(cumulative, i + 1))
  }

  lemma FirstPoint(bets: seq<Bet>)
    requires |bets| > 0
    ensures Point(bets, 0).profit == Gain(bets[0]) && Point(bets, 0).roi == 0.0
  {
    assert bets[..1] == [bets[0]];
    assert [bets[0]][1..] == [];
    assert ProfitSum([bets[0]]) == Gain(bets[0]) + ProfitSum([]);
  }

  lemma NextPoint(bets: seq<Bet>, i: nat)
    requires 0 < i < |bets|
    ensures Point(bets, i).profit == Point(bets, i - 1).profit + Gain(bets[i])
    ensures Point(bets, i).roi == PercentPerBet(Point(bets, i).profit, i + 1)
  {
    assert bets[..i + 1] == bets[..i] + [bets[i]];
    ProfitSumAppend(bets[..i], bets[i]);
  }

  /** The chart: one point per settled bet, the profit running over the bets
      in order, the roi the running profit per bet as a percentage. */
  function Chart(bets: seq<Bet>): (points: seq<ChartPoint>)
    ensures |points| == |bets|
    ensures forall i :: 0 <= i < |bets| ==> points[i].betId == bets[i].id
    ensures |bets| > 0 ==> points[0].profit == Gain(bets[0]) && points[0].roi == 0.0
    ensures forall i :: 0 < i < |bets| ==> points[i].profit == points[i - 1].profit + Gain(bets[i])
    ensures forall i :: 0 < i < |bets| ==> points[i].roi == PercentPerBet(points[i].profit, i + 1)
  {
    var points := seq(|bets|, i requires 0 <= i < |bets| => Point(bets, i));
    assert |bets| > 0 ==> points[0].profit == Gain(bets[0]) && points[0].roi == 0.0 by {
      if |bets| > 0 {
        FirstPoint(bets);
      }
    }
    assert forall i :: 0 < i < |bets| ==>
             points[i].profit == points[i - 1].profit + Gain(bets[i]) &&
             points[i].roi == PercentPerBet(points[i].profit, i + 1)
    by {
      forall i | 0 < i < |bets|
        ensures points[i].profit == points[i - 1].profit + Gain(bets[i])
        ensures points[i].roi == PercentPerBet(points[i].profit, i + 1)
      {
        NextPoint(bets, i);
      }
    }
    points
  }

  /** Under settlement's actual_return rule (0 on a loss, the stake on a push)
      the gains of settled bets sum to their net profit. */
  lemma {:induction false} ProfitSumIsNetProfit(bets: seq<Bet>)
    requires forall i :: 0 <= i < |bets| ==> IsSettled(bets[i])
    requires forall i :: 0 <= i < |bets| ==> bets[i].result == Lost ==> bets[i].actualReturn == 0.0
    requires forall i :: 0 <= i < |bets| ==> bets[i].result == Push ==> bets[i].actualReturn == bets[i].stake
    ensures ProfitSum(bets) == NetProfit(bets)
  {
    if bets != [] {
      ProfitSumIsNetProfit(bets[1..]);
    }
  }

  /** The chart ends at the net_profit settlement stores for the same bets. */
  lemma LastPointIsNetProfit(bets: seq<Bet>)
    requires |bets| > 0
    requires forall i :: 0 <= i < |bets| ==> IsSettled(bets[i])
    requires forall i :: 0 <= i < |bets| ==> bets[i].result == Lost ==> bets[i].actualReturn == 0.0
    requires forall i :: 0 <= i < |bets| ==> bets[i].result == Push ==> bets[i].actualReturn == bets[i].stake
    ensures Chart(bets)[|bets| - 1].profit == NetProfit(bets)
  {
    assert bets[..|bets|] == bets;
    ProfitSumIsNetProfit(bets);
  }

  /** GET: get or create the caller, then read their stats row (or the
      defaults) and chart their settled bets in creation order. */
  method GetUserStats(db: Database, whopUserId: string, experienceId: string)
    returns (r: Result<(StatsSummary, seq<ChartPoint>)>)
    requires db.Valid()
    modifies db`users
    ensures db.Valid()
    ensures r.Err? <==> whopUserId == "" || experienceId == ""
    ensures r.Err? ==> db.users == old(db.users)
    ensures r.Ok? && FindUser(old(db.users), whopUserId, experienceId).Some? ==> db.users == old(db.users)
    ensures r.Ok? && FindUser(old(db.users), whopUserId, experienceId).None? ==>
              db.users == old(db.users) + [NewUser(|old(db.users)|, whopUserId, experienceId)]
    ensures r.Ok? ==> FindUser(db.users, whopUserId, experienceId).Some?
    ensures r.Ok? ==>
              var userId := FindUser(db.users, whopUserId, experienceId).value;
              var row := FindStats(db.userStats, userId, experienceId);
              && r.value.0 == (if row.Some? then Summary(db.userStats[row.value]) else DefaultSummary)
              && r.value.1 == Chart(SettledOf(db.bets, userId, experienceId))
  {
    if whopUserId == "" || experienceId == "" {
      return Err(MissingFields);
    }
    var userId := GetOrCreateUser(db, whopUserId, experienceId);
    FindUserUnique(db.users, whopUserId, experienceId, userId);
    var row := FindStats(db.userStats, userId, experienceId);
    var summary := if row.Some? then Summary(db.userStats[row.value]) else DefaultSummary;
    r := Ok((summary, Chart(SettledOf(db.bets, userId, experienceId))));
  }
}
