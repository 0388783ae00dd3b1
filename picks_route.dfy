/** app/api/picks: the pick feed of an experience (GET) and posting a pick
    (POST). */
module PicksRoute {
  import opened Common
  import opened Schema

  // ---- GET ----

  /** What a viewer of access tier `tier` may see: 'public' only public
      picks, 'premium' public and premium ones, any other tier everything. */
  predicate TierAllows(tier: string, pickTier: string)
  {
    if tier == "public" then pickTier == "public"
    else if tier == "premium" then pickTier == "public" || pickTier == "premium"
    else true
  }

  /** Every tier sees at least what the tier below it sees; any tier but
      the two named ones sees all. */
  lemma TiersAreNested(pickTier: string, other: string)
    ensures TierAllows("public", pickTier) ==> TierAllows("premium", pickTier)
    ensures other != "public" && TierAllows("premium", pickTier) ==> TierAllows(other, pickTier)
  {
  }

  /** The feed query: an empty access tier means 'public'; an empty sport and
      an absent capper id apply no filter. */
  datatype ListPicksQuery = ListPicksQuery(
    whopUserId: string,
    experienceId: string,
    capperId: Option<Id>,
    accessTier: string,
    sport: string,
    limit: Option<nat>)

  function EffectiveTier(q: ListPicksQuery): string
  {
    if q.accessTier == "" then "public" else q.accessTier
  }

  function Limit(q: ListPicksQuery): nat
  {
    if q.limit.Some? then q.limit.value else 50
  }

  predicate InFeed(p: Pick, q: ListPicksQuery)
  {
    && p.experienceId == q.experienceId
    && (q.capperId.Some? ==> p.capperId == q.capperId.value)
    && (q.sport != "" ==> p.sport == q.sport)
    && TierAllows(EffectiveTier(q), p.accessTier)
  }

  function PickId(p: Pick): int { p.id }

  /** The feed: the experience's picks that pass the filters, newest posted
      first, at most the limit; fewer than the limit means all of them. */
  function ListPicks(users: seq<User>, picks: seq<Pick>, q: ListPicksQuery): (r: Result<seq<Pick>>)
    requires PicksWellFormed(picks)
    ensures r.Err? <==> q.whopUserId == "" || q.experienceId == "" || FindUser(users, q.whopUserId, q.experienceId).None?
    ensures r.Ok? ==> |r.value| <= Limit(q)
    ensures r.Ok? ==> forall p :: p in r.value ==> p in picks && InFeed(p, q)
    ensures r.Ok? && |r.value| < Limit(q) ==> forall p :: p in picks && InFeed(p, q) ==> p in r.value
    ensures r.Ok? ==> Decreasing(r.value, PickId)
    ensures r.Ok? ==> forall p, p' :: p in picks && InFeed(p, q) && p !in r.value && p' in r.value ==> PickId(p') > PickId(p)
    ensures r.Ok? && q.accessTier == "" ==> forall p :: p in r.value ==> p.accessTier == "public"
  {
    if q.whopUserId == "" || q.experienceId == "" then Err(MissingFields)
    else if FindUser(users, q.whopUserId, q.experienceId).None? then Err(UserNotFound)
    else
      var shown := (p: Pick) => InFeed(p, q);
      assert Increasing(picks, PickId);
      NewestLimit(picks, shown, PickId, Limit(q));
      Ok(Take(NewestFirst(picks, shown), Limit(q)))
  }

  // ---- POST ----

  /** The whop user that picks POST promotes to capper on sight. */
  const TestCapperWhopId: string := "user_ey15Seq4GOxYU"

  /** An empty access tier takes the default; an absent is_premium is false. */
  datatype CreatePickRequest = CreatePickRequest(
    whopUserId: string,
    experienceId: string,
    capperId: Option<Id>,
    sport: string,
    betType: string,
    description: string,
    accessTier: string,
    isPremium: Option<bool>)

  predicate MissingPickFields(req: CreatePickRequest)
  {
    || req.whopUserId == "" || req.experienceId == "" || req.sport == ""
    || req.betType == "" || req.description == ""
  }

  /** The users table after the lookup step: the test user, found and not yet
      a capper, has is_capper set; every other case leaves the table alone. */
  function AfterPromotion(users: seq<User>, req: CreatePickRequest): (r: seq<User>)
    ensures |r| == |users|
    ensures forall i :: 0 <= i < |users| ==> r[i].(isCapper := users[i].isCapper) == users[i]
    ensures forall i :: 0 <= i < |users| && r[i] != users[i] ==>
              && !MissingPickFields(req) && FindUser(users, req.whopUserId, req.experienceId) == Some(i)
              && req.whopUserId == TestCapperWhopId && !users[i].isCapper && r[i].isCapper
    ensures !MissingPickFields(req) && req.whopUserId == TestCapperWhopId &&
            FindUser(users, req.whopUserId, req.experienceId).Some? ==>
              r[FindUser(users, req.whopUserId, req.experienceId).value].isCapper
  {
    if MissingPickFields(req) then users
    else
      var found := FindUser(users, req.whopUserId, req.experienceId);
      if found.Some? && !users[found.value].isCapper && users[found.value].whopUserId == TestCapperWhopId then
        users[found.value := users[found.value].(isCapper := true)]
      else users
  }

  /** `users.eq(id).eq(whop_experience_id).single()` for the target capper. */
  predicate UserInExperience(users: seq<User>, id: Id, experienceId: string)
  {
    id < |users| && users[id].experienceId == experienceId
  }

  /** The row the insert creates. Settlement columns start NULL. */
  function NewPick(id: Id, capperId: Id, req: CreatePickRequest): (p: Pick)
    ensures p.id == id && p.capperId == capperId && p.experienceId == req.experienceId
    ensures p.sport == req.sport && p.betType == req.betType && p.description == req.description
    ensures p.accessTier == (if req.accessTier == "" then "public" else req.accessTier)
    ensures p.isPremium <==> req.isPremium == Some(true)
    ensures p.result.Null? && p.actualOddsAmerican.Null? && p.roi.Null? && p.follows.Null? && p.updatedAt.Null?
  {
    Pick(id, capperId, req.experienceId, req.sport, req.betType, req.description,
         if req.accessTier == "" then "public" else req.accessTier,
         req.isPremium == Some(true),
         Null, Null, Null, Null, Null)
  }

  /** POST: with a capper id the pick is posted for that user, who must be a
      capper of the experience; without one the caller must be a capper. */
  method CreatePick(db: Database, req: CreatePickRequest) returns (r: Result<Pick>)
    requires db.Valid()
    modifies db`users, db`picks
    ensures db.Valid()
    ensures db.users == AfterPromotion(old(db.users), req)
    ensures MissingPickFields(req) ==> r == Err(MissingFields)
    ensures !MissingPickFields(req) && FindUser(old(db.users), req.whopUserId, req.experienceId).None? ==>
              r == Err(UserNotFound)
    ensures r.Ok? <==>
              && !MissingPickFields(req) && FindUser(old(db.users), req.whopUserId, req.experienceId).Some?
              && (req.capperId.Some? ==>
                    UserInExperience(db.users, req.capperId.value, req.experienceId) && db.users[req.capperId.value].isCapper)
              && (req.capperId.None? ==> db.users[FindUser(old(db.users), req.whopUserId, req.experienceId).value].isCapper)
    ensures r.Err? && req.capperId.Some? && !UserInExperience(db.users, req.capperId.value, req.experienceId) ==>
              r.failure in {MissingFields, UserNotFound, TargetCapperNotFound}
    ensures r == Err(TargetNotCapper) ==> req.capperId.Some? && !db.users[req.capperId.value].isCapper
    ensures r == Err(NotCapper) ==> req.capperId.None?
    ensures r.Err? ==> db.picks == old(db.picks)
    ensures r.Ok? ==>
              var target := if req.capperId.Some? then req.capperId.value
                            else FindUser(old(db.users), req.whopUserId, req.experienceId).value;
              r.value == NewPick(|old(db.picks)|, target, req) && db.picks == old(db.picks) + [r.value]
  {
    if MissingPickFields(req) {
      return Err(MissingFields);
    }
    var found := FindUser(db.users, req.whopUserId, req.experienceId);
    if found.None? {
      return Err(UserNotFound);
    }
    var userId := found.value;
    if !db.users[userId].isCapper && db.users[userId].whopUserId == TestCapperWhopId {
      UpdateKeepsUsers(db.users, userId, db.users[userId].(isCapper := true));
      db.users := db.users[userId := db.users[userId].(isCapper := true)];
    }
    var target := userId;
    if req.capperId.Some? {
      if !UserInExperience(db.users, req.capperId.value, req.experienceId) {
        return Err(TargetCapperNotFound);
      }
      if !db.users[req.capperId.value].isCapper {
        return Err(TargetNotCapper);
      }
      target := req.capperId.value;
    } else if !db.users[userId].isCapper {
      return Err(NotCapper);
    }
    var pick := NewPick(|db.picks|, target, req);
    db.picks := db.picks + [pick];
    r := Ok(pick);
  }
}
