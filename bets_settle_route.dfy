/** app/api/bets/settle: settling a wager, then recomputing the bettor's
    stats row and booking the outcome against one of their bankrolls. There
    is no guard against settling a bet twice: a second settlement
    overwrites the first and books again. */
module BetsSettleRoute {
  import opened Common
  import opened Schema
  import OddsMath
  import opened StatsAggregate
  import opened Ledger

  datatype SettleBetRequest = SettleBetRequest(
    betId: Option<Id>,
    result: string,
    whopUserId: string,
    experienceId: string)

  predicate MissingSettleFields(req: SettleBetRequest)
  {
    req.betId.None? || req.result == "" || req.whopUserId == "" || req.experienceId == ""
  }

  /** The text the store keeps for a result. */
  function ResultName(r: BetResult): string
  {
    match r
    case Pending => "pending"
    case Won => "won"
    case Lost => "lost"
    case Push => "push"
  }

  /** The three results a settlement accepts; anything else is refused. */
  function ParseResult(s: string): (r: Option<BetResult>)
    ensures r.Some? <==> s == "won" || s == "lost" || s == "push"
    ensures r.Some? ==> r.value != Pending && ResultName(r.value) == s
  {
    if s == "won" then Some(Won)
    else if s == "lost" then Some(Lost)
    else if s == "push" then Some(Push)
    else None
  }

  /** The bet row after the update: result, actual_return and settled_at are
      written, nothing else. */
  function SettledBet(bet: Bet, result: BetResult, now: int): (b: Bet)
    ensures b.(result := bet.result, actualReturn := bet.actualReturn, settledAt := bet.settledAt) == bet
    ensures b.result == result && b.settledAt == Val(now)
    ensures result == Won ==> b.actualReturn == bet.potentialReturn + bet.stake
    ensures result == Push ==> b.actualReturn == bet.stake
    ensures result == Lost ==> b.actualReturn == 0.0
  {
    bet.(result := result,
         actualReturn := OddsMath.ActualReturn(result, bet.stake, bet.potentialReturn),
         settledAt := Val(now))
  }

  /** The bet lookup: the id must name a bet of this user in this experience. */
  predicate OwnsBet(bets: seq<Bet>, betId: Id, userId: Id, experienceId: string)
  {
    betId < |bets| && bets[betId].userId == userId && bets[betId].experienceId == experienceId
  }

  // ---- updateUserStats ----

  function PendingCount(bets: seq<Bet>, userId: Id, experienceId: string): nat
  {
    |Filter(bets, (b: Bet) => b.userId == userId && b.experienceId == experienceId && b.result == Pending)|
  }

  /** The stats row settlement writes for (user, experience), from the table
      as it stands after the bet update. */
  function StatsFor(bets: seq<Bet>, userId: Id, experienceId: string, now: int): UserStats
    requires BetsWellFormed(bets)
  {
    var settled := SettledOf(bets, userId, experienceId);
    StatsRow(userId, experienceId, settled, PendingCount(bets, userId, experienceId), Streak(settled), now)
  }

  /** Upsert by (user, experience): the row replaces the one with its key, or
      is appended when there is none; rows of other keys stay where they are. */
  function UpsertStats(stats: seq<UserStats>, row: UserStats): (r: seq<UserStats>)
    ensures var k := FindStats(r, row.userId, row.experienceId); k.Some? && r[k.value] == row
    ensures |r| == |stats| + (if FindStats(stats, row.userId, row.experienceId).Some? then 0 else 1)
    ensures forall i :: 0 <= i < |stats| && (stats[i].userId != row.userId || stats[i].experienceId != row.experienceId) ==>
              r[i] == stats[i]
    ensures forall x :: x in r ==> x == row || x in stats
    ensures UniqueStatsKeys(stats) ==> UniqueStatsKeys(r)
  {
    var found := FindStats(stats, row.userId, row.experienceId);
    if found.Some? then
      var r := stats[found.value := row];
      assert forall j :: 0 <= j < found.value ==> r[j] == stats[j];
      assert r[found.value] == row;
      r
    else
      var r := stats + [row];
      assert forall j :: 0 <= j < |stats| ==> r[j] == stats[j];
      assert r[|stats|] == row;
      r
  }

  method UpdateUserStats(db: Database, userId: Id, experienceId: string, now: int)
    requires db.Valid() && userId < |db.users|
    modifies db`userStats
    ensures db.Valid()
    ensures db.userStats == UpsertStats(old(db.userStats), StatsFor(db.bets, userId, experienceId, now))
  {
    var settled := SettledOf(db.bets, userId, experienceId);
    var streak := ScanStreak(settled);
    var pending := PendingCount(db.bets, userId, experienceId);
    db.userStats := UpsertStats(db.userStats, StatsRow(userId, experienceId, settled, pending, streak, now));
  }

  // ---- updateBankrollsWithBetResult ----

  /** The target bankroll after booking: the balance moves by the
      adjustment and both timestamps are set; nothing else changes. */
  function BookedBankroll(br: Bankroll, adjustment: real, now: int): (b: Bankroll)
    ensures b.(currentAmount := br.currentAmount, lastTransactionAt := br.lastTransactionAt, updatedAt := br.updatedAt) == br
    ensures b.currentAmount - br.currentAmount == adjustment
    ensures b.lastTransactionAt == Val(now) && b.updatedAt == Val(now)
  {
    br.(currentAmount := br.currentAmount + adjustment, lastTransactionAt := Val(now), updatedAt := Val(now))
  }

  /** What booking a settlement does to the two ledger tables. */
  ghost predicate Booked(
    oldBankrolls: seq<Bankroll>, oldTxs: seq<Transaction>, bankrolls: seq<Bankroll>, txs: seq<Transaction>,
    userId: Id, bet: Bet, result: BetResult, actualReturn: real, now: int)
  {
    var target := TargetBankroll(oldBankrolls, userId, bet.sport);
    var entry := SettlementEntry(result, bet.stake, actualReturn);
    if target.None? || entry.None? then
      bankrolls == oldBankrolls && txs == oldTxs
    else
      && txs == oldTxs + [Transaction(|oldTxs|, target.value, userId, entry.value.txType, entry.value.amount,
                                      "Bet " + ResultName(result) + ": " + bet.description)]
      && bankrolls == oldBankrolls[target.value := BookedBankroll(oldBankrolls[target.value], entry.value.adjustment, now)]
  }

  method UpdateBankrollsWithBetResult(db: Database, userId: Id, bet: Bet, result: BetResult, actualReturn: real, now: int)
    requires db.Valid()
    modifies db`bankrolls, db`transactions
    ensures db.Valid()
    ensures Booked(old(db.bankrolls), old(db.transactions), db.bankrolls, db.transactions, userId, bet, result, actualReturn, now)
    ensures forall b :: Balanced(old(db.bankrolls), old(db.transactions), b) ==> Balanced(db.bankrolls, db.transactions, b)
  {
    var target := TargetBankroll(db.bankrolls, userId, bet.sport);
    if target.None? {
      return;
    }
    var entry := SettlementEntry(result, bet.stake, actualReturn);
    if entry.None? {
      return;
    }
    var t, e := target.value, entry.value;
    var tx := Transaction(|db.transactions|, t, userId, e.txType, e.amount, "Bet " + ResultName(result) + ": " + bet.description);
    ghost var oldTxs, oldBankrolls := db.transactions, db.bankrolls;
    db.transactions := db.transactions + [tx];
    db.bankrolls := db.bankrolls[t := BookedBankroll(db.bankrolls[t], e.adjustment, now)];
    forall b | Balanced(oldBankrolls, oldTxs, b) ensures Balanced(db.bankrolls, db.transactions, b) {
      ReplayAppend(oldTxs, tx, b);
    }
  }

  // ---- POST ----

  method SettleBet(db: Database, req: SettleBetRequest, now: int) returns (r: Result<Bet>)
    requires db.Valid()
    modifies db`bets, db`userStats, db`bankrolls, db`transactions
    ensures db.Valid()
    ensures MissingSettleFields(req) ==> r == Err(MissingFields)
    ensures !MissingSettleFields(req) && ParseResult(req.result).None? ==> r == Err(InvalidResult)
    ensures !MissingSettleFields(req) && ParseResult(req.result).Some? &&
              FindUser(db.users, req.whopUserId, req.experienceId).None? ==>
              r == Err(UserNotFound)
    ensures r.Ok? <==>
              && !MissingSettleFields(req) && ParseResult(req.result).Some?
              && FindUser(db.users, req.whopUserId, req.experienceId).Some?
              && OwnsBet(old(db.bets), req.betId.value, FindUser(db.users, req.whopUserId, req.experienceId).value, req.experienceId)
    ensures r.Err? ==>
              && db.bets == old(db.bets) && db.userStats == old(db.userStats)
              && db.bankrolls == old(db.bankrolls) && db.transactions == old(db.transactions)
    ensures r.Ok? ==>
              var betId, userId := req.betId.value, FindUser(db.users, req.whopUserId, req.experienceId).value;
              var result := ParseResult(req.result).value;
              && r.value == SettledBet(old(db.bets)[betId], result, now)
              && db.bets == old(db.bets)[betId := r.value]
              && db.userStats == UpsertStats(old(db.userStats), StatsFor(db.bets, userId, req.experienceId, now))
              && Booked(old(db.bankrolls), old(db.transactions), db.bankrolls, db.transactions,
                        userId, old(db.bets)[betId], result, r.value.actualReturn, now)
    ensures forall b :: Balanced(old(db.bankrolls), old(db.transactions), b) ==> Balanced(db.bankrolls, db.transactions, b)
  {
    if MissingSettleFields(req) {
      return Err(MissingFields);
    }
    var result := ParseResult(req.result);
    if result.None? {
      return Err(InvalidResult);
    }
    var user := FindUser(db.users, req.whopUserId, req.experienceId);
    if user.None? {
      return Err(UserNotFound);
    }
    var betId, userId := req.betId.value, user.value;
    if !OwnsBet(db.bets, betId, userId, req.experienceId) {
      return Err(BetNotFound);
    }
    var bet := db.bets[betId];
    var updated := SettledBet(bet, result.value, now);
    db.bets := db.bets[betId := updated];
    UpdateUserStats(db, userId, req.experienceId, now);
    UpdateBankrollsWithBetResult(db, userId, bet, result.value, updated.actualReturn, now);
    r := Ok(updated);
  }
}
