/** app/api/picks/settle: the author of a pick records its result, and the
    result is copied onto every follow row of the pick. */
module PicksSettleRoute {
  import opened Common
  import opened Schema
  import OddsMath

  /** The result is free text, checked only for presence. Absent odds are
      dropped from the update and leave the stored odds as they were. */
  datatype SettlePickRequest = SettlePickRequest(
    pickId: Option<Id>,
    result: string,
    actualOddsAmerican: Option<int>,
    whopUserId: string,
    experienceId: string)

  predicate MissingSettlePickFields(req: SettlePickRequest)
  {
    req.pickId.None? || req.result == "" || req.whopUserId == "" || req.experienceId == ""
  }

  /** A stored odds column after an update that may omit it. */
  function UpdatedOdds(stored: Nullable<int>, odds: Option<int>): (n: Nullable<int>)
    ensures odds.Some? ==> n == Val(odds.value)
    ensures odds.None? ==> n == stored
  {
    if odds.Some? then Val(odds.value) else stored
  }

  /** The pick after settlement: result, actual odds, roi and updated_at are
      written, nothing else. */
  function SettledPick(p: Pick, result: string, odds: Option<int>, now: int): (q: Pick)
    ensures q.(result := p.result, actualOddsAmerican := p.actualOddsAmerican, roi := p.roi, updatedAt := p.updatedAt) == p
    ensures q.result == Val(result) && q.roi == Val(OddsMath.PickRoi(result, odds)) && q.updatedAt == Val(now)
    ensures q.actualOddsAmerican == UpdatedOdds(p.actualOddsAmerican, odds)
  {
    p.(result := Val(result), actualOddsAmerican := UpdatedOdds(p.actualOddsAmerican, odds),
       roi := Val(OddsMath.PickRoi(result, odds)), updatedAt := Val(now))
  }

  /** A follow row after its pick is settled. */
  function SettledFollow(f: PickFollow, result: string, odds: Option<int>): (g: PickFollow)
    ensures g.(result := f.result, actualOddsAmerican := f.actualOddsAmerican, profitLoss := f.profitLoss) == f
    ensures g.result == Val(result) && g.profitLoss == OddsMath.FollowProfitLoss(result, odds)
    ensures g.actualOddsAmerican == UpdatedOdds(f.actualOddsAmerican, odds)
  {
    f.(result := Val(result), actualOddsAmerican := UpdatedOdds(f.actualOddsAmerican, odds),
       profitLoss := OddsMath.FollowProfitLoss(result, odds))
  }

  /** `update(...).eq('pick_id', pickId)` on pick_follows: every row of the
      pick is settled alike, every other row is left as it was. */
  function SettleFollows(follows: seq<PickFollow>, pickId: Id, result: string, odds: Option<int>): (r: seq<PickFollow>)
    ensures |r| == |follows|
    ensures forall i :: 0 <= i < |r| ==> r[i].userId == follows[i].userId && r[i].pickId == follows[i].pickId
    ensures forall i :: 0 <= i < |r| && follows[i].pickId != pickId ==> r[i] == follows[i]
    ensures forall i :: 0 <= i < |r| && follows[i].pickId == pickId ==> r[i] == SettledFollow(follows[i], result, odds)
  {
    seq(|follows|, i requires 0 <= i < |follows| =>
      if follows[i].pickId == pickId then SettledFollow(follows[i], result, odds) else follows[i])
  }

  /** Any two follow rows of a settled pick carry the same result and
      profit_loss, and with odds given the same odds as the pick. */
  lemma FollowsSettledUniformly(follows: seq<PickFollow>, p: Pick, result: string, odds: Option<int>, now: int, i: nat, j: nat)
    requires i < |follows| && j < |follows|
    requires follows[i].pickId == p.id && follows[j].pickId == p.id
    ensures var r, q := SettleFollows(follows, p.id, result, odds), SettledPick(p, result, odds, now);
      && r[i].result == r[j].result == q.result
      && r[i].profitLoss == r[j].profitLoss
      && (odds.Some? ==> r[i].actualOddsAmerican == q.actualOddsAmerican)
      && (r[i].profitLoss.Val? ==> q.roi == r[i].profitLoss)
  {
    OddsMath.FollowProfitLossMatchesPickRoi(result, odds);
  }

  /** POST: only the pick's capper may settle it. The pick is looked up by id
      alone, whatever its experience. */
  method SettlePick(db: Database, req: SettlePickRequest, now: int) returns (r: Result<Pick>)
    requires db.Valid()
    modifies db`picks, db`pickFollows
    ensures db.Valid()
    ensures MissingSettlePickFields(req) ==> r == Err(MissingFields)
    ensures !MissingSettlePickFields(req) && FindUser(db.users, req.whopUserId, req.experienceId).None? ==>
              r == Err(UserNotFound)
    ensures r == Err(PickNotFound) <==>
              && !MissingSettlePickFields(req) && FindUser(db.users, req.whopUserId, req.experienceId).Some?
              && req.pickId.value >= |old(db.picks)|
    ensures r.Ok? <==>
              && !MissingSettlePickFields(req) && FindUser(db.users, req.whopUserId, req.experienceId).Some?
              && req.pickId.value < |old(db.picks)|
              && old(db.picks)[req.pickId.value].capperId == FindUser(db.users, req.whopUserId, req.experienceId).value
    ensures r.Err? ==> db.picks == old(db.picks) && db.pickFollows == old(db.pickFollows)
    ensures r.Ok? ==>
              var id := req.pickId.value;
              && r.value == SettledPick(old(db.picks)[id], req.result, req.actualOddsAmerican, now)
              && db.picks == old(db.picks)[id := r.value]
              && db.pickFollows == SettleFollows(old(db.pickFollows), id, req.result, req.actualOddsAmerican)
  {
    if MissingSettlePickFields(req) {
      return Err(MissingFields);
    }
    var user := FindUser(db.users, req.whopUserId, req.experienceId);
    if user.None? {
      return Err(UserNotFound);
    }
    var id := req.pickId.value;
    if id >= |db.picks| {
      return Err(PickNotFound);
    }
    if db.picks[id].capperId != user.value {
      return Err(NotPickAuthor);
    }
    var settled := SettledPick(db.picks[id], req.result, req.actualOddsAmerican, now);
    db.picks := db.picks[id := settled];
    db.pickFollows := SettleFollows(db.pickFollows, id, req.result, req.actualOddsAmerican);
    r := Ok(settled);
  }
}
