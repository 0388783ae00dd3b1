/** app/api/admin/cappers: making a whop user a capper, creating the user
    when needed (POST), and taking the capper flags away again (DELETE).
    Neither handler checks that the caller is an administrator. */
module AdminCappersRoute {
  import opened Common
  import opened Schema

  datatype AddCapperRequest = AddCapperRequest(
    whopUserId: string,
    username: string,
    displayName: string,
    isVerified: Option<bool>,
    experienceId: string)

  predicate MissingCapperFields(req: AddCapperRequest)
  {
    req.whopUserId == "" || req.username == "" || req.experienceId == ""
  }

  /** `display_name || username`. */
  function DisplayNameOf(req: AddCapperRequest): (name: string)
    ensures req.displayName != "" ==> name == req.displayName
    ensures req.displayName == "" ==> name == req.username
  {
    if req.displayName != "" then req.displayName else req.username
  }

  /** `is_verified || false`: only an explicit true verifies. */
  function VerifiedOf(req: AddCapperRequest): (verified: bool)
    ensures verified <==> req.isVerified == Some(true)
  {
    req.isVerified.Some? && req.isVerified.value
  }

  /** The user row inserted for a whop user not yet in the experience. */
  function NewCapper(id: Id, req: AddCapperRequest): (u: User)
    ensures u.id == id && IsUser(u, req.whopUserId, req.experienceId)
    ensures u.username == req.username && u.displayName == DisplayNameOf(req)
    ensures u.isCapper && u.isVerified == VerifiedOf(req)
  {
    User(id, req.whopUserId, req.experienceId, req.username, DisplayNameOf(req), true, VerifiedOf(req))
  }

  /** The stats row initialized with a new capper: no bets, every aggregate
      zero. */
  function InitialStats(userId: Id, experienceId: string, now: int): (s: UserStats)
    ensures s.userId == userId && s.experienceId == experienceId && s.updatedAt == now
    ensures s.totalBets == 0 && s.wins == 0 && s.losses == 0 && s.pending == 0
    ensures s.winRate == 0.0 && s.roi == Val(0.0) && s.netProfit == 0.0 && s.currentStreak == 0 && s.unitsWon == 0.0
  {
    UserStats(userId, experienceId, 0, 0, 0, 0, 0.0, Val(0.0), 0.0, 0, 0.0, now)
  }

  /** The update of an existing user: capper, verified as requested, display
      name reset; the username is left as it was. */
  function Promoted(u: User, req: AddCapperRequest): (v: User)
    ensures v.(isCapper := u.isCapper, isVerified := u.isVerified, displayName := u.displayName) == u
    ensures v.isCapper && v.isVerified == VerifiedOf(req) && v.displayName == DisplayNameOf(req)
  {
    u.(isCapper := true, isVerified := VerifiedOf(req), displayName := DisplayNameOf(req))
  }

  /** Adding the same capper twice leaves the user as the first addition did. */
  lemma PromotedIdempotent(u: User, req: AddCapperRequest)
    ensures Promoted(Promoted(u, req), req) == Promoted(u, req)
    ensures Promoted(NewCapper(u.id, req), req) == NewCapper(u.id, req)
  {
  }

  /** POST: returns the id of the user that is now a capper. */
  method AddCapper(db: Database, req: AddCapperRequest, now: int) returns (r: Result<Id>)
    requires db.Valid()
    modifies db`users, db`userStats
    ensures db.Valid()
    ensures r.Err? <==> MissingCapperFields(req)
    ensures r.Err? ==> r.failure == MissingFields && db.users == old(db.users) && db.userStats == old(db.userStats)
    ensures r.Ok? ==> r.value < |db.users| && IsUser(db.users[r.value], req.whopUserId, req.experienceId)
    ensures r.Ok? && FindUser(old(db.users), req.whopUserId, req.experienceId).Some? ==>
              var k := FindUser(old(db.users), req.whopUserId, req.experienceId).value;
              && r.value == k
              && db.users == old(db.users)[k := Promoted(old(db.users)[k], req)]
              && db.userStats == old(db.userStats)
    ensures r.Ok? && FindUser(old(db.users), req.whopUserId, req.experienceId).None? ==>
              && r.value == |old(db.users)|
              && db.users == old(db.users) + [NewCapper(r.value, req)]
              && db.userStats == old(db.userStats) + [InitialStats(r.value, req.experienceId, now)]
  {
    if MissingCapperFields(req) {
      return Err(MissingFields);
    }
    var existing := FindUser(db.users, req.whopUserId, req.experienceId);
    if existing.None? {
      var userId := |db.users|;
      db.users := db.users + [NewCapper(userId, req)];
      db.userStats := db.userStats + [InitialStats(userId, req.experienceId, now)];
      r := Ok(userId);
    } else {
      var k := existing.value;
      db.users := db.users[k := Promoted(db.users[k], req)];
      r := Ok(k);
    }
  }

  /** The DELETE update `eq(id).eq(whop_experience_id)`: clears both flags
      on the row it matches; another experience's user is not touched. */
  function Demoted(users: seq<User>, capperId: Id, experienceId: string): (r: seq<User>)
    ensures |r| == |users|
    ensures forall i :: 0 <= i < |users| && i != capperId ==> r[i] == users[i]
    ensures forall i :: 0 <= i < |users| && users[i].experienceId != experienceId ==> r[i] == users[i]
    ensures capperId < |users| && users[capperId].experienceId == experienceId ==>
              r[capperId] == users[capperId].(isCapper := false, isVerified := false)
  {
    if capperId < |users| && users[capperId].experienceId == experienceId then
      users[capperId := users[capperId].(isCapper := false, isVerified := false)]
    else users
  }

  /** Removing then adding back the same user as a capper through POST makes
      them a capper again with the requested verification. */
  lemma RemoveThenAdd(users: seq<User>, k: Id, req: AddCapperRequest)
    requires k < |users| && users[k].experienceId == req.experienceId
    ensures var v := Promoted(Demoted(users, k, req.experienceId)[k], req);
      v.isCapper && v.isVerified == VerifiedOf(req) && v.id == users[k].id && v.username == users[k].username
  {
  }

  /** DELETE: succeeds also when no row matches. */
  method RemoveCapper(db: Database, capperId: Option<Id>, experienceId: string) returns (r: Result<bool>)
    requires db.Valid()
    modifies db`users
    ensures db.Valid()
    ensures r.Err? <==> capperId.None? || experienceId == ""
    ensures r.Err? ==> db.users == old(db.users)
    ensures r.Ok? ==> db.users == Demoted(old(db.users), capperId.value, experienceId)
  {
    if capperId.None? || experienceId == "" {
      return Err(MissingFields);
    }
    db.users := Demoted(db.users, capperId.value, experienceId);
    r := Ok(true);
  }
}
