/** app/api/leaderboard: the experience's stats rows that are recent enough
    and have at least ten settled bets, ranked by roi. */
module LeaderboardRoute {
  import opened Common
  import opened Schema
  import opened RoiOrder

  /** Milliseconds in a day; a month back is calendar arithmetic and comes in
      as `oneMonthAgo`. */
  const DayMs: int := 86_400_000

  /** The earliest updated_at a row may have: a day, a week or a month
      before `now`, or the epoch for all_time. Any other timeframe, the empty
      one included, means a month. */
  function Cutoff(timeframe: string, now: int, oneMonthAgo: int): (cutoff: int)
    ensures timeframe == "daily" ==> cutoff == now - DayMs
    ensures timeframe == "weekly" ==> cutoff == now - 7 * DayMs
    ensures timeframe == "all_time" ==> cutoff == 0
    ensures timeframe != "daily" && timeframe != "weekly" && timeframe != "all_time" ==> cutoff == oneMonthAgo
  {
    if timeframe == "daily" then now - DayMs
    else if timeframe == "weekly" then now - 7 * DayMs
    else if timeframe == "all_time" then 0
    else oneMonthAgo
  }

  /** An absent or unknown timeframe is exactly monthly. */
  lemma UnknownTimeframeIsMonthly(timeframe: string, now: int, oneMonthAgo: int)
    requires timeframe != "daily" && timeframe != "weekly" && timeframe != "all_time"
    ensures Cutoff(timeframe, now, oneMonthAgo) == Cutoff("monthly", now, oneMonthAgo)
    ensures Cutoff("", now, oneMonthAgo) == Cutoff("monthly", now, oneMonthAgo)
  {
  }

  /** The switch on the timeframe, moving a copy of `now` back. */
  method DateFilter(timeframe: string, now: int, oneMonthAgo: int) returns (dateFilter: int)
    ensures dateFilter == Cutoff(if timeframe == "" then "monthly" else timeframe, now, oneMonthAgo)
  {
    var tf := if timeframe == "" then "monthly" else timeframe;
    dateFilter := now;
    if tf == "daily" {
      dateFilter := dateFilter - DayMs;
    } else if tf == "weekly" {
      dateFilter := dateFilter - 7 * DayMs;
    } else if tf == "monthly" {
      dateFilter := oneMonthAgo;
    } else if tf == "all_time" {
      dateFilter := 0;
    } else {
      dateFilter := oneMonthAgo;
    }
  }

  datatype LeaderboardEntry = LeaderboardEntry(
    rank: nat,
    whopUserId: string,
    username: string,
    displayName: string,
    isVerified: bool,
    isCapper: bool,
    totalBets: nat,
    winRate: real,
    roi: Nullable<real>,
    netProfit: real,
    currentStreak: int)

  /** The query's filters; the inner join with users drops a row whose user
      does not exist. */
  predicate OnBoard(users: seq<User>, s: UserStats, experienceId: string, cutoff: int)
  {
    s.userId < |users| && s.experienceId == experienceId && s.updatedAt >= cutoff && s.totalBets >= 10
  }

  /** An entry: the user's public fields and the stats copied unchanged. */
  function EntryOf(users: seq<User>, s: UserStats, rank: nat): LeaderboardEntry
    requires s.userId < |users|
  {
    var u := users[s.userId];
    LeaderboardEntry(rank, u.whopUserId, u.username, u.displayName, u.isVerified, u.isCapper,
                     s.totalBets, s.winRate, s.roi, s.netProfit, s.currentStreak)
  }

  function StatsRoi(s: UserStats): Nullable<real> { s.roi }

  /** The rows the query selects, in table order. */
  function Eligible(users: seq<User>, stats: seq<UserStats>, experienceId: string, cutoff: int): (rows: seq<UserStats>)
    ensures forall s :: s in rows <==> s in stats && OnBoard(users, s, experienceId, cutoff)
  {
    Filter(stats, (s: UserStats) => OnBoard(users, s, experienceId, cutoff))
  }

  /** Rank the sorted rows 1..N. */
  function Ranked(users: seq<User>, sorted: seq<UserStats>): (board: seq<LeaderboardEntry>)
    requires forall i :: 0 <= i < |sorted| ==> sorted[i].userId < |users|
    ensures |board| == |sorted|
    ensures forall i :: 0 <= i < |sorted| ==> board[i] == EntryOf(users, sorted[i], i + 1)
  {
    seq(|sorted|, i requires 0 <= i < |sorted| => EntryOf(users, sorted[i], i + 1))
  }

  /** A sort keeps the rows it is given. */
  lemma SameRows(rows: seq<UserStats>, sorted: seq<UserStats>)
    requires multiset(sorted) == multiset(rows)
    ensures forall i :: 0 <= i < |sorted| ==> sorted[i] in rows
    ensures forall s :: s in rows ==> s in sorted
  {
    forall i | 0 <= i < |sorted| ensures sorted[i] in rows {
      assert sorted[i] in multiset(sorted);
    }
    forall s | s in rows ensures s in sorted {
      assert s in multiset(rows);
    }
  }

  lemma RankedInOrder(users: seq<User>, sorted: seq<UserStats>)
    requires SortedByRoi(sorted, StatsRoi)
    requires forall i :: 0 <= i < |sorted| ==> sorted[i].userId < |users|
    ensures var board := Ranked(users, sorted);
      && (forall i :: 0 <= i < |board| ==> board[i].rank == i + 1)
      && (forall i, j :: 0 <= i < j < |board| ==> RoiAtLeast(board[i].roi, board[j].roi))
  {
    var board := Ranked(users, sorted);
    forall i, j | 0 <= i < j < |board| ensures RoiAtLeast(board[i].roi, board[j].roi) {
      assert board[i].roi == StatsRoi(sorted[i]) && board[j].roi == StatsRoi(sorted[j]);
    }
  }

  /** `e` is the entry, at `rank`, of some row the query selects. */
  ghost predicate EntryOfEligible(users: seq<User>, stats: seq<UserStats>, experienceId: string, cutoff: int,
                                  e: LeaderboardEntry, rank: nat)
  {
    exists s :: s in stats && OnBoard(users, s, experienceId, cutoff) && e == EntryOf(users, s, rank)
  }

  /** Row `s` appears on `board` at the position its rank names. */
  ghost predicate Listed(users: seq<User>, board: seq<LeaderboardEntry>, s: UserStats)
    requires s.userId < |users|
  {
    exists i :: 0 <= i < |board| && board[i] == EntryOf(users, s, i + 1)
  }

  /** Ranking any reordering of the selected rows lists exactly those rows. */
  lemma RankedMatches(users: seq<User>, stats: seq<UserStats>, experienceId: string, cutoff: int, sorted: seq<UserStats>)
    requires multiset(sorted) == multiset(Eligible(users, stats, experienceId, cutoff))
    ensures forall i :: 0 <= i < |sorted| ==> sorted[i].userId < |users|
    ensures |Ranked(users, sorted)| == |Eligible(users, stats, experienceId, cutoff)|
    ensures var board := Ranked(users, sorted);
      forall i :: 0 <= i < |board| ==> EntryOfEligible(users, stats, experienceId, cutoff, board[i], i + 1)
    ensures var board := Ranked(users, sorted);
      forall s :: s in stats && OnBoard(users, s, experienceId, cutoff) ==> Listed(users, board, s)
  {
    var rows := Eligible(users, stats, experienceId, cutoff);
    SameRows(rows, sorted);
    assert |sorted| == |multiset(sorted)| == |multiset(rows)| == |rows|;
    var board := Ranked(users, sorted);
    forall i | 0 <= i < |board| ensures EntryOfEligible(users, stats, experienceId, cutoff, board[i], i + 1) {
      var s := sorted[i];
      assert s in rows;
      assert board[i] == EntryOf(users, s, i + 1);
    }
    forall s | s in stats && OnBoard(users, s, experienceId, cutoff) ensures Listed(users, board, s) {
      assert s in rows;
      var i :| 0 <= i < |sorted| && sorted[i] == s;
      assert board[i] == EntryOf(users, s, i + 1);
    }
  }

  /** The ranking: ranks 1..N in list order, roi non-increasing (NULL first),
      one entry per eligible row, every eligible row listed. */
  function Leaderboard(users: seq<User>, stats: seq<UserStats>, experienceId: string, cutoff: int): (board: seq<LeaderboardEntry>)
    ensures |board| == |Eligible(users, stats, experienceId, cutoff)|
    ensures forall i :: 0 <= i < |board| ==> board[i].rank == i + 1
    ensures forall i, j :: 0 <= i < j < |board| ==> RoiAtLeast(board[i].roi, board[j].roi)
    ensures forall i :: 0 <= i < |board| ==> EntryOfEligible(users, stats, experienceId, cutoff, board[i], i + 1)
    ensures forall s :: s in stats && OnBoard(users, s, experienceId, cutoff) ==> Listed(users, board, s)
  {
    var sorted := SortByRoi(Eligible(users, stats, experienceId, cutoff), StatsRoi);
    RankedMatches(users, stats, experienceId, cutoff, sorted);
    RankedInOrder(users, sorted);
    Ranked(users, sorted)
  }

  /** GET. */
  method GetLeaderboard(db: Database, whopUserId: string, experienceId: string, timeframe: string, now: int, oneMonthAgo: int)
    returns (r: Result<seq<LeaderboardEntry>>)
    ensures r.Err? <==> whopUserId == "" || experienceId == ""
    ensures r.Ok? ==>
              r.value == Leaderboard(db.users, db.userStats, experienceId,
                                     Cutoff(if timeframe == "" then "monthly" else timeframe, now, oneMonthAgo))
  {
    if whopUserId == "" || experienceId == "" {
      return Err(MissingFields);
    }
    var dateFilter := DateFilter(timeframe, now, oneMonthAgo);
    r := Ok(Leaderboard(db.users, db.userStats, experienceId, dateFilter));
  }
}
