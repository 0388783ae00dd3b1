/** app/api/cappers: the experience's cappers with their stats and recent
    picks (GET), and a user changing their own capper flags (POST). */
module CappersRoute {
  import opened Common
  import opened Schema
  import opened RoiOrder

  // ---- GET ----

  /** One row of the users query with its inner-joined stats row. */
  datatype CapperRow = CapperRow(user: User, stats: UserStats)

  /** A row of the response: the capper, its stats and its recent picks. */
  datatype CapperListing = CapperListing(capper: CapperRow, recentPicks: seq<Pick>)

  /** The users query's filters: a capper of the experience joined with its
      own stats row in the same experience. */
  predicate IsCapperRow(row: CapperRow, experienceId: string)
  {
    && row.user.experienceId == experienceId && row.user.isCapper
    && row.stats.userId == row.user.id && row.stats.experienceId == experienceId
  }

  /** The inner join, in user table order: each capper of the experience that
      has a stats row there, paired with that row. */
  function CapperRows(users: seq<User>, stats: seq<UserStats>, experienceId: string): (rows: seq<CapperRow>)
    ensures forall row :: row in rows ==> row.user in users && row.stats in stats && IsCapperRow(row, experienceId)
  {
    if users == [] then []
    else
      var u := users[0];
      var k := FindStats(stats, u.id, experienceId);
      (if u.experienceId == experienceId && u.isCapper && k.Some? then [CapperRow(u, stats[k.value])] else [])
        + CapperRows(users[1..], stats, experienceId)
  }

  /** With one stats row per (user, experience) the join misses no capper. */
  lemma {:induction false} CapperRowsComplete(users: seq<User>, stats: seq<UserStats>, experienceId: string, row: CapperRow)
    requires UniqueStatsKeys(stats)
    requires row.user in users && row.stats in stats && IsCapperRow(row, experienceId)
    ensures row in CapperRows(users, stats, experienceId)
  {
    if users[0] == row.user {
      var k := FindStats(stats, row.user.id, experienceId);
      var j :| 0 <= j < |stats| && stats[j] == row.stats;
      assert k.Some? && k.value == j;
    } else {
      assert row.user in users[1..];
      CapperRowsComplete(users[1..], stats, experienceId, row);
    }
  }

  function RowRoi(row: CapperRow): Nullable<real> { row.stats.roi }

  function CapperLimit(limit: Option<nat>): nat
  {
    if limit.Some? then limit.value else 20
  }

  function PickId(p: Pick): int { p.id }

  /** The picks query's filters. */
  predicate IsRecentCandidate(p: Pick, capperIds: set<Id>, experienceId: string)
  {
    p.capperId in capperIds && p.experienceId == experienceId
  }

  /** The recent picks of the listed cappers together: the five newest picks
      of any of them in the experience, newest first. */
  function RecentPicks(picks: seq<Pick>, capperIds: set<Id>, experienceId: string): (r: seq<Pick>)
    requires PicksWellFormed(picks)
    ensures |r| <= 5
    ensures forall p :: p in r ==> p in picks && IsRecentCandidate(p, capperIds, experienceId)
    ensures Decreasing(r, PickId)
    ensures forall p, q :: p in picks && IsRecentCandidate(p, capperIds, experienceId) && p !in r && q in r ==>
              PickId(q) > PickId(p)
    ensures |r| < 5 ==> forall p :: p in picks && IsRecentCandidate(p, capperIds, experienceId) ==> p in r
  {
    var recent := (p: Pick) => IsRecentCandidate(p, capperIds, experienceId);
    assert Increasing(picks, PickId);
    NewestLimit(picks, recent, PickId, 5);
    Take(NewestFirst(picks, recent), 5)
  }

  /** The picks of capper `c` in `s`, in the order of `s`: the value the
      `reduce` leaves under key `c`, built one element at a time. */
  function PicksOf(s: seq<Pick>, c: Id): (r: seq<Pick>)
    ensures forall p :: p in r <==> p in s && p.capperId == c
  {
    if s == [] then []
    else
      var last := s[|s| - 1];
      var r := PicksOf(s[..|s| - 1], c) + (if last.capperId == c then [last] else []);
      assert s == s[..|s| - 1] + [last];
      r
  }

  /** Each pick the fold meets lands at the end of its own capper's list. */
  lemma PicksOfAppend(s: seq<Pick>, x: Pick, c: Id)
    ensures PicksOf(s + [x], c) == PicksOf(s, c) + (if x.capperId == c then [x] else [])
  {
    assert (s + [x])[..|s|] == s;
  }

  /** The `reduce` into an object keyed by capper id: a key is created on
      its capper's first pick and each pick is pushed onto its own key. */
  method GroupPicksByCapper(picks: seq<Pick>) returns (m: map<Id, seq<Pick>>)
    ensures forall c :: c in m <==> PicksOf(picks, c) != []
    ensures forall c :: c in m ==> m[c] == PicksOf(picks, c)
  {
    m := map[];
    var i := 0;
    while i < |picks|
      invariant 0 <= i <= |picks|
      invariant forall c :: c in m <==> PicksOf(picks[..i], c) != []
      invariant forall c :: c in m ==> m[c] == PicksOf(picks[..i], c)
    {
      var pick := picks[i];
      assert picks[..i + 1] == picks[..i] + [pick];
      forall c ensures PicksOf(picks[..i + 1], c) == PicksOf(picks[..i], c) + (if pick.capperId == c then [pick] else []) {
        PicksOfAppend(picks[..i], pick, c);
      }
      var group := if pick.capperId in m then m[pick.capperId] else [];
      m := m[pick.capperId := group + [pick]];
      i := i + 1;
    }
    assert picks[..|picks|] == picks;
  }

  /** The users query: the joined rows ordered by roi, highest (NULL) first,
      at most `limit`. */
  function TopCappers(users: seq<User>, stats: seq<UserStats>, experienceId: string, limit: nat): (cappers: seq<CapperRow>)
  {
    Take(SortByRoi(CapperRows(users, stats, experienceId), RowRoi), limit)
  }

  /** The listed rows are joined cappers in roi order, at most `limit`; fewer
      than `limit` means every capper with a stats row in the experience. */
  lemma TopCappersFacts(users: seq<User>, stats: seq<UserStats>, experienceId: string, limit: nat)
    ensures var cappers := TopCappers(users, stats, experienceId, limit);
      && |cappers| <= limit
      && (forall c :: c in cappers ==> c.user in users && c.stats in stats && IsCapperRow(c, experienceId))
      && (forall i, j :: 0 <= i < j < |cappers| ==> RoiAtLeast(cappers[i].stats.roi, cappers[j].stats.roi))
  {
    var rows := CapperRows(users, stats, experienceId);
    var sorted := SortByRoi(rows, RowRoi);
    var cappers := Take(sorted, limit);
    assert forall i :: 0 <= i < |cappers| ==> cappers[i] == sorted[i];
    forall c | c in cappers ensures c in rows {
      assert c in multiset(sorted);
    }
    forall i, j | 0 <= i < j < |cappers| ensures RoiAtLeast(cappers[i].stats.roi, cappers[j].stats.roi) {
      assert RoiAtLeast(RowRoi(sorted[i]), RowRoi(sorted[j]));
    }
  }

  lemma TopCappersComplete(users: seq<User>, stats: seq<UserStats>, experienceId: string, limit: nat, row: CapperRow)
    requires UniqueStatsKeys(stats)
    requires |TopCappers(users, stats, experienceId, limit)| < limit
    requires row.user in users && row.stats in stats && IsCapperRow(row, experienceId)
    ensures row in TopCappers(users, stats, experienceId, limit)
  {
    var sorted := SortByRoi(CapperRows(users, stats, experienceId), RowRoi);
    CapperRowsComplete(users, stats, experienceId, row);
    assert row in multiset(sorted);
  }

  function CapperIds(cappers: seq<CapperRow>): set<Id>
  {
    set c | c in cappers :: c.user.id
  }

  /** The ids the picks query asks for. */
  function ListedIds(listings: seq<CapperListing>): set<Id>
  {
    set l | l in listings :: l.capper.user.id
  }

  lemma ListedIdsOf(cappers: seq<CapperRow>, listings: seq<CapperListing>)
    requires |listings| == |cappers| && forall i :: 0 <= i < |listings| ==> listings[i].capper == cappers[i]
    ensures ListedIds(listings) == CapperIds(cappers)
  {
    forall x | x in CapperIds(cappers) ensures x in ListedIds(listings) {
      var c :| c in cappers && c.user.id == x;
      var i :| 0 <= i < |cappers| && cappers[i] == c;
      assert listings[i] in listings;
    }
  }

  /** GET: the top cappers, each with its own share of the recent picks in
      their newest-first order, [] for a capper with none. */
  method ListCappers(db: Database, experienceId: string, limit: Option<nat>) returns (r: Result<seq<CapperListing>>)
    requires db.Valid()
    ensures r.Err? <==> experienceId == ""
    ensures r.Ok? ==>
              var cappers := TopCappers(db.users, db.userStats, experienceId, CapperLimit(limit));
              |r.value| == |cappers| && forall i :: 0 <= i < |r.value| ==> r.value[i].capper == cappers[i]
    ensures r.Ok? ==>
              var recent := RecentPicks(db.picks, ListedIds(r.value), experienceId);
              forall l :: l in r.value ==> l.recentPicks == PicksOf(recent, l.capper.user.id)
  {
    if experienceId == "" {
      return Err(MissingFields);
    }
    var cappers := TopCappers(db.users, db.userStats, experienceId, CapperLimit(limit));
    var capperIds := CapperIds(cappers);
    assert PicksWellFormed(db.picks);
    var recent := RecentPicks(db.picks, capperIds, experienceId);
    var picksByCapper := GroupPicksByCapper(recent);
    var listings := seq(|cappers|, i requires 0 <= i < |cappers| =>
      CapperListing(cappers[i], if cappers[i].user.id in picksByCapper then picksByCapper[cappers[i].user.id] else []));
    ListedIdsOf(cappers, listings);
    r := Ok(listings);
  }

  // ---- POST ----

  /** The flags an action writes: become_capper sets is_capper,
      verify_capper and unverify_capper set is_verified; any other action
      writes nothing. */
  function ApplyAction(u: User, action: string): (v: User)
    ensures v.(isCapper := u.isCapper, isVerified := u.isVerified) == u
    ensures v.isCapper == (action == "become_capper" || u.isCapper)
    ensures action == "verify_capper" ==> v.isVerified
    ensures action == "unverify_capper" ==> !v.isVerified
    ensures action != "verify_capper" && action != "unverify_capper" ==> v.isVerified == u.isVerified
  {
    if action == "become_capper" then u.(isCapper := true)
    else if action == "verify_capper" then u.(isVerified := true)
    else if action == "unverify_capper" then u.(isVerified := false)
    else u
  }

  /** Repeating an action changes nothing more, and unverifying undoes
      verifying. */
  lemma ActionsIdempotent(u: User, action: string)
    ensures ApplyAction(ApplyAction(u, action), action) == ApplyAction(u, action)
    ensures ApplyAction(ApplyAction(u, "verify_capper"), "unverify_capper") == ApplyAction(u, "unverify_capper")
  {
  }

  method CapperAction(db: Database, whopUserId: string, experienceId: string, action: string) returns (r: Result<User>)
    requires db.Valid()
    modifies db`users
    ensures db.Valid()
    ensures whopUserId == "" || experienceId == "" || action == "" ==> r == Err(MissingFields)
    ensures r.Ok? <==> whopUserId != "" && experienceId != "" && action != "" &&
                       FindUser(old(db.users), whopUserId, experienceId).Some?
    ensures r.Err? ==> db.users == old(db.users)
    ensures r.Ok? ==>
              var k := FindUser(old(db.users), whopUserId, experienceId).value;
              && r.value == ApplyAction(old(db.users)[k], action)
              && db.users == old(db.users)[k := r.value]
  {
    if whopUserId == "" || experienceId == "" || action == "" {
      return Err(MissingFields);
    }
    var found := FindUser(db.users, whopUserId, experienceId);
    if found.None? {
      return Err(UserNotFound);
    }
    var updated := ApplyAction(db.users[found.value], action);
    db.users := db.users[found.value := updated];
    r := Ok(updated);
  }
}
