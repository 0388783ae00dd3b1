/** app/api/picks/follow: following a pick (POST) and unfollowing it
    (DELETE), with the pick's follows counter kept alongside. */
module PicksFollowRoute {
  import opened Common
  import opened Schema

  // ---- The follows counter ----

  /** The counter after a follow: one more, a NULL counter counting as 0. */
  function FollowedCount(follows: Nullable<int>): (n: int)
    ensures n == IntOrZero(follows) + 1
    ensures IntOrZero(follows) >= 0 ==> n >= 1
  {
    IntOrZero(follows) + 1
  }

  /** The counter after an unfollow: one less, but never below 0, whether or
      not a follow existed. */
  function UnfollowedCount(follows: Nullable<int>): (n: int)
    ensures n >= 0
    ensures IntOrZero(follows) >= 1 ==> n == IntOrZero(follows) - 1
    ensures IntOrZero(follows) <= 1 ==> n == 0
  {
    if IntOrZero(follows) - 1 > 0 then IntOrZero(follows) - 1 else 0
  }

  /** A follow followed by an unfollow gives back a non-negative counter. */
  lemma FollowThenUnfollowCount(follows: Nullable<int>)
    requires IntOrZero(follows) >= 0
    ensures UnfollowedCount(Val(FollowedCount(follows))) == IntOrZero(follows)
  {
  }

  // ---- POST ----

  datatype FollowRequest = FollowRequest(
    pickId: Option<Id>,
    betAmount: Option<real>,
    actualOddsAmerican: Option<int>,
    whopUserId: string,
    experienceId: string)

  predicate MissingFollowFields(req: FollowRequest)
  {
    req.pickId.None? || req.whopUserId == "" || req.experienceId == ""
  }

  predicate IsFollow(f: PickFollow, userId: Id, pickId: Id)
  {
    f.userId == userId && f.pickId == pickId
  }

  predicate Follows(follows: seq<PickFollow>, userId: Id, pickId: Id)
  {
    exists i :: 0 <= i < |follows| && IsFollow(follows[i], userId, pickId)
  }

  /** The row a follow inserts: the pick's capper, and the follower's stake
      and odds as given (absent ones NULL); no result yet. */
  function NewFollow(userId: Id, pick: Pick, req: FollowRequest): (f: PickFollow)
    ensures IsFollow(f, userId, pick.id) && f.capperId == pick.capperId
    ensures f.betAmount == OrNull(req.betAmount) && f.actualOddsAmerican == OrNull(req.actualOddsAmerican)
    ensures f.result.Null? && f.profitLoss.Null?
  {
    PickFollow(userId, pick.id, pick.capperId, OrNull(req.betAmount), OrNull(req.actualOddsAmerican), Null, Null)
  }

  method FollowPick(db: Database, req: FollowRequest) returns (r: Result<PickFollow>)
    requires db.Valid()
    modifies db`picks, db`pickFollows
    ensures db.Valid()
    ensures MissingFollowFields(req) ==> r == Err(MissingFields)
    ensures !MissingFollowFields(req) && FindUser(db.users, req.whopUserId, req.experienceId).None? ==>
              r == Err(UserNotFound)
    ensures r == Err(AlreadyFollowing) <==>
              && !MissingFollowFields(req) && FindUser(db.users, req.whopUserId, req.experienceId).Some?
              && req.pickId.value < |old(db.picks)|
              && Follows(old(db.pickFollows), FindUser(db.users, req.whopUserId, req.experienceId).value, req.pickId.value)
    ensures r.Ok? <==>
              && !MissingFollowFields(req) && FindUser(db.users, req.whopUserId, req.experienceId).Some?
              && req.pickId.value < |old(db.picks)|
              && !Follows(old(db.pickFollows), FindUser(db.users, req.whopUserId, req.experienceId).value, req.pickId.value)
    ensures r.Err? ==> db.picks == old(db.picks) && db.pickFollows == old(db.pickFollows)
    ensures r.Ok? ==>
              var id, userId := req.pickId.value, FindUser(db.users, req.whopUserId, req.experienceId).value;
              && r.value == NewFollow(userId, old(db.picks)[id], req)
              && db.pickFollows == old(db.pickFollows) + [r.value]
              && db.picks == old(db.picks)[id := old(db.picks)[id].(follows := Val(FollowedCount(old(db.picks)[id].follows)))]
  {
    if MissingFollowFields(req) {
      return Err(MissingFields);
    }
    var user := FindUser(db.users, req.whopUserId, req.experienceId);
    if user.None? {
      return Err(UserNotFound);
    }
    var id := req.pickId.value;
    if id >= |db.picks| {
      return Err(PickNotFound);
    }
    var existing := FirstIndex(db.pickFollows, (f: PickFollow) => IsFollow(f, user.value, id));
    if existing.Some? {
      return Err(AlreadyFollowing);
    }
    var pick := db.picks[id];
    var follow := NewFollow(user.value, pick, req);
    db.pickFollows := db.pickFollows + [follow];
    db.picks := db.picks[id := pick.(follows := Val(FollowedCount(pick.follows)))];
    r := Ok(follow);
  }

  // ---- DELETE ----

  datatype UnfollowRequest = UnfollowRequest(pickId: Option<Id>, whopUserId: string, experienceId: string)

  predicate MissingUnfollowFields(req: UnfollowRequest)
  {
    req.pickId.None? || req.whopUserId == "" || req.experienceId == ""
  }

  /** The follow table after deleting every row of (user, pick). */
  function WithoutFollow(follows: seq<PickFollow>, userId: Id, pickId: Id): (r: seq<PickFollow>)
    ensures !Follows(r, userId, pickId)
    ensures forall f :: f in r <==> f in follows && !IsFollow(f, userId, pickId)
    ensures |r| <= |follows|
  {
    Filter(follows, (f: PickFollow) => !IsFollow(f, userId, pickId))
  }

  lemma WithoutFollowKeepsDistinct(follows: seq<PickFollow>, userId: Id, pickId: Id)
    requires FollowsWellFormed(follows)
    ensures FollowsWellFormed(WithoutFollow(follows, userId, pickId))
  {
    FilterKeepsDistinct(follows, (f: PickFollow) => !IsFollow(f, userId, pickId), FollowKey);
  }

  /** Unfollowing right after a follow gives back the follow table it
      started from. */
  lemma FollowThenUnfollowTable(follows: seq<PickFollow>, f: PickFollow)
    requires !Follows(follows, f.userId, f.pickId)
    ensures WithoutFollow(follows + [f], f.userId, f.pickId) == follows
  {
    var keep := (g: PickFollow) => !IsFollow(g, f.userId, f.pickId);
    FilterAppend(follows, f, keep);
    FilterKeepsAll(follows, keep);
  }

  /** DELETE: the rows go whether or not the pick exists; the counter of an
      existing pick is lowered with the clamp. */
  method UnfollowPick(db: Database, req: UnfollowRequest) returns (r: Result<bool>)
    requires db.Valid()
    modifies db`picks, db`pickFollows
    ensures db.Valid()
    ensures r.Err? <==>
              MissingUnfollowFields(req) || FindUser(db.users, req.whopUserId, req.experienceId).None?
    ensures r.Err? ==> db.picks == old(db.picks) && db.pickFollows == old(db.pickFollows)
    ensures r.Ok? ==>
              var id, userId := req.pickId.value, FindUser(db.users, req.whopUserId, req.experienceId).value;
              && db.pickFollows == WithoutFollow(old(db.pickFollows), userId, id)
              && (id < |old(db.picks)| ==>
                    db.picks == old(db.picks)[id := old(db.picks)[id].(follows := Val(UnfollowedCount(old(db.picks)[id].follows)))])
              && (id >= |old(db.picks)| ==> db.picks == old(db.picks))
  {
    if MissingUnfollowFields(req) {
      return Err(MissingFields);
    }
    var user := FindUser(db.users, req.whopUserId, req.experienceId);
    if user.None? {
      return Err(UserNotFound);
    }
    var id := req.pickId.value;
    WithoutFollowKeepsDistinct(db.pickFollows, user.value, id);
    db.pickFollows := WithoutFollow(db.pickFollows, user.value, id);
    if id < |db.picks| {
      db.picks := db.picks[id := db.picks[id].(follows := Val(UnfollowedCount(db.picks[id].follows)))];
    }
    r := Ok(true);
  }
}
