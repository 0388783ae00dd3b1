/** app/api/bets: recording a new wager (POST) and listing the caller's
    wagers (GET). */
module BetsRoute {
  import opened Common
  import opened Schema
  import opened UserAccounts
  import OddsMath

  datatype CreateBetRequest = CreateBetRequest(
    whopUserId: string,
    experienceId: string,
    sport: string,
    betType: string,
    description: string,
    oddsAmerican: int,
    stake: real)

  /** A required field is falsy: an empty string, or odds or stake of 0. */
  predicate MissingBetFields(req: CreateBetRequest)
  {
    || req.whopUserId == "" || req.experienceId == "" || req.sport == ""
    || req.betType == "" || req.description == ""
    || req.oddsAmerican == 0 || req.stake == 0.0
  }

  /** POST: validate, get or create the user, and insert the bet as pending
      with actual_return 0 and the potential return of its odds. */
  method CreateBet(db: Database, req: CreateBetRequest) returns (r: Result<Bet>)
    requires db.Valid()
    modifies db`users, db`bets
    ensures db.Valid()
    ensures r.Err? <==> MissingBetFields(req)
    ensures r.Err? ==> r.failure == MissingFields && db.users == old(db.users) && db.bets == old(db.bets)
    ensures r.Ok? ==> FindUser(old(db.users), req.whopUserId, req.experienceId).Some? ==> db.users == old(db.users)
    ensures r.Ok? ==> FindUser(old(db.users), req.whopUserId, req.experienceId).None? ==>
              db.users == old(db.users) + [NewUser(|old(db.users)|, req.whopUserId, req.experienceId)]
    ensures r.Ok? ==>
              && db.bets == old(db.bets) + [r.value]
              && r.value.id == |old(db.bets)|
              && r.value.userId < |db.users| && IsUser(db.users[r.value.userId], req.whopUserId, req.experienceId)
              && r.value.experienceId == req.experienceId
              && r.value.sport == req.sport && r.value.betType == req.betType && r.value.description == req.description
              && r.value.oddsAmerican == req.oddsAmerican && r.value.stake == req.stake
              && r.value.potentialReturn == OddsMath.PotentialReturn(req.stake, req.oddsAmerican)
              && r.value.actualReturn == 0.0 && r.value.result == Pending && r.value.settledAt == Null
  {
    if MissingBetFields(req) {
      return Err(MissingFields);
    }
    var userId := GetOrCreateUser(db, req.whopUserId, req.experienceId);
    var potentialReturn := OddsMath.PotentialReturn(req.stake, req.oddsAmerican);
    var bet := Bet(|db.bets|, userId, req.experienceId, req.sport, req.betType, req.description,
                   req.oddsAmerican, req.stake, potentialReturn, 0.0, Pending, Null);
    db.bets := db.bets + [bet];
    r := Ok(bet);
  }

  function BetId(b: Bet): int { b.id }

  lemma BetIdsIncrease(bets: seq<Bet>)
    requires BetsWellFormed(bets)
    ensures Increasing(bets, BetId)
  {
  }

  /** GET: the caller's bets in the experience, newest first. */
  function ListBets(users: seq<User>, bets: seq<Bet>, whopUserId: string, experienceId: string): (r: Result<seq<Bet>>)
    requires BetsWellFormed(bets)
    ensures r.Err? <==> whopUserId == "" || experienceId == "" || FindUser(users, whopUserId, experienceId).None?
    ensures r.Ok? ==> forall b :: b in r.value <==>
              b in bets && b.userId == FindUser(users, whopUserId, experienceId).value && b.experienceId == experienceId
    ensures r.Ok? ==> Decreasing(r.value, BetId)
  {
    if whopUserId == "" || experienceId == "" then Err(MissingFields)
    else
      var found := FindUser(users, whopUserId, experienceId);
      if found.None? then Err(UserNotFound)
      else
        var mine := (b: Bet) => b.userId == found.value && b.experienceId == experienceId;
        BetIdsIncrease(bets);
        NewestFirstIsDecreasing(bets, mine, BetId);
        Ok(NewestFirst(bets, mine))
  }
}
