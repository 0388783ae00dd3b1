/** The record store as in-memory tables: one row datatype per table and one
    `Database` object whose fields hold the tables. A row's id is its position
    in its table; rows are appended in creation order, so a smaller id means
    an older row (the store stamps created_at and posted_at at insert). */
module Schema {
  import opened Common

  type Id = nat

  datatype User = User(
    id: Id,
    whopUserId: string,
    experienceId: string,
    username: string,
    displayName: string,
    isCapper: bool,
    isVerified: bool)

  datatype BetResult = Pending | Won | Lost | Push

  datatype Bet = Bet(
    id: Id,
    userId: Id,
    experienceId: string,
    sport: string,
    betType: string,
    description: string,
    oddsAmerican: int,
    stake: real,
    potentialReturn: real,
    actualReturn: real,
    result: BetResult,
    settledAt: Nullable<int>)

  datatype Bankroll = Bankroll(
    id: Id,
    userId: Id,
    name: string,
    startingAmount: real,
    currentAmount: real,
    currency: string,
    sport: Nullable<string>,
    maxBetPercentage: real,
    totalDeposited: Nullable<real>,
    totalWithdrawn: Nullable<real>,
    isActive: bool,
    lastTransactionAt: Nullable<int>,
    updatedAt: Nullable<int>)

  /** One ledger entry; `txType` is free text in the store ('deposit',
      'withdrawal', 'bet', 'win', 'loss' are the values the app writes). */
  datatype Transaction = Transaction(
    id: Id,
    bankrollId: Id,
    userId: Id,
    txType: string,
    amount: real,
    description: string)

  /** The cached aggregate for one (user, experience). */
  datatype UserStats = UserStats(
    userId: Id,
    experienceId: string,
    totalBets: nat,
    wins: nat,
    losses: nat,
    pending: nat,
    winRate: real,
    roi: Nullable<real>,
    netProfit: real,
    currentStreak: int,
    unitsWon: real,
    updatedAt: int)

  datatype Pick = Pick(
    id: Id,
    capperId: Id,
    experienceId: string,
    sport: string,
    betType: string,
    description: string,
    accessTier: string,
    isPremium: bool,
    result: Nullable<string>,
    actualOddsAmerican: Nullable<int>,
    roi: Nullable<real>,
    follows: Nullable<int>,
    updatedAt: Nullable<int>)

  datatype PickFollow = PickFollow(
    userId: Id,
    pickId: Id,
    capperId: Id,
    betAmount: Nullable<real>,
    actualOddsAmerican: Nullable<int>,
    result: Nullable<string>,
    profitLoss: Nullable<real>)

  // ---- Table invariants, each over one table's value ----

  /** Ids are positions, and at most one user per (whop user, experience), so
      the store's `.single()` lookup never meets two rows. */
  ghost predicate UsersWellFormed(users: seq<User>)
  {
    && (forall i :: 0 <= i < |users| ==> users[i].id == i)
    && (forall i, j :: 0 <= i < j < |users| ==>
          users[i].whopUserId != users[j].whopUserId || users[i].experienceId != users[j].experienceId)
  }

  /** Ids are positions; bet creation rejects a zero stake or zero odds. */
  ghost predicate BetsWellFormed(bets: seq<Bet>)
  {
    forall i :: 0 <= i < |bets| ==> bets[i].id == i && bets[i].stake != 0.0 && bets[i].oddsAmerican != 0
  }

  ghost predicate BankrollsWellFormed(bankrolls: seq<Bankroll>)
  {
    forall i :: 0 <= i < |bankrolls| ==> bankrolls[i].id == i
  }

  /** Every transaction belongs to an existing bankroll. */
  ghost predicate TransactionsWellFormed(txs: seq<Transaction>, bankrollCount: nat)
  {
    forall i :: 0 <= i < |txs| ==> txs[i].id == i && txs[i].bankrollId < bankrollCount
  }

  /** At most one stats row per (user, experience): the key the upsert goes by. */
  ghost predicate UniqueStatsKeys(stats: seq<UserStats>)
  {
    forall i, j :: 0 <= i < j < |stats| ==>
      stats[i].userId != stats[j].userId || stats[i].experienceId != stats[j].experienceId
  }

  /** One stats row per (user, experience), each for an existing user. */
  ghost predicate StatsWellFormed(stats: seq<UserStats>, userCount: nat)
  {
    && (forall i :: 0 <= i < |stats| ==> stats[i].userId < userCount)
    && UniqueStatsKeys(stats)
  }

  /** Ids are positions and no follow counter is negative. */
  ghost predicate PicksWellFormed(picks: seq<Pick>)
  {
    forall i :: 0 <= i < |picks| ==> picks[i].id == i && IntOrZero(picks[i].follows) >= 0
  }

  /** At most one follow row per (user, pick). */
  ghost predicate FollowsWellFormed(follows: seq<PickFollow>)
  {
    Distinct(follows, FollowKey)
  }

  function FollowKey(f: PickFollow): (Id, Id)
  {
    (f.userId, f.pickId)
  }

  class Database {
    var users: seq<User>
    var bets: seq<Bet>
    var bankrolls: seq<Bankroll>
    var transactions: seq<Transaction>
    var userStats: seq<UserStats>
    var picks: seq<Pick>
    var pickFollows: seq<PickFollow>

    ghost predicate Valid()
      reads this
    {
      && UsersWellFormed(users)
      && BetsWellFormed(bets)
      && BankrollsWellFormed(bankrolls)
      && TransactionsWellFormed(transactions, |bankrolls|)
      && StatsWellFormed(userStats, |users|)
      && PicksWellFormed(picks)
      && FollowsWellFormed(pickFollows)
    }

    constructor ()
      ensures Valid()
      ensures users == [] && bets == [] && bankrolls == [] && transactions == []
      ensures userStats == [] && picks == [] && pickFollows == []
    {
      users, bets, bankrolls, transactions := [], [], [], [];
      userStats, picks, pickFollows := [], [], [];
    }
  }

  // ---- Lookups the handlers make ----

  predicate IsUser(u: User, whopUserId: string, experienceId: string)
  {
    u.whopUserId == whopUserId && u.experienceId == experienceId
  }

  /** `users.eq(whop_user_id).eq(whop_experience_id).single()`. */
  function FindUser(users: seq<User>, whopUserId: string, experienceId: string): (r: Option<Id>)
    ensures r.Some? ==> r.value < |users| && IsUser(users[r.value], whopUserId, experienceId)
    ensures r.None? <==> forall j :: 0 <= j < |users| ==> !IsUser(users[j], whopUserId, experienceId)
  {
    FirstIndex(users, (u: User) => IsUser(u, whopUserId, experienceId))
  }

  /** With unique (whop user, experience) pairs the lookup finds the only match. */
  lemma FindUserUnique(users: seq<User>, whopUserId: string, experienceId: string, k: nat)
    requires UsersWellFormed(users)
    requires k < |users| && IsUser(users[k], whopUserId, experienceId)
    ensures FindUser(users, whopUserId, experienceId) == Some(k)
  {
  }

  /** Rewriting a user's flags keeps the users table well formed. */
  lemma UpdateKeepsUsers(users: seq<User>, k: Id, v: User)
    requires UsersWellFormed(users) && k < |users|
    requires v.id == users[k].id && IsUser(v, users[k].whopUserId, users[k].experienceId)
    ensures UsersWellFormed(users[k := v])
  {
  }

  /** The stats row for (user, experience), if one exists. */
  function FindStats(stats: seq<UserStats>, userId: Id, experienceId: string): (r: Option<nat>)
    ensures r.Some? ==> r.value < |stats| && stats[r.value].userId == userId && stats[r.value].experienceId == experienceId
    ensures r.None? <==> forall j :: 0 <= j < |stats| ==> stats[j].userId != userId || stats[j].experienceId != experienceId
  {
    FirstIndex(stats, (s: UserStats) => s.userId == userId && s.experienceId == experienceId)
  }

  /** The user a new whop user gets on first contact: username `user_` and
      display name `User ` followed by the last six characters of the id.
      Flags not written at insert take the store's default, false. */
  function NewUser(id: Id, whopUserId: string, experienceId: string): (u: User)
    ensures u.id == id && IsUser(u, whopUserId, experienceId)
    ensures u.username == "user_" + LastSix(whopUserId)
    ensures u.displayName == "User " + LastSix(whopUserId)
    ensures !u.isCapper && !u.isVerified
  {
    User(id, whopUserId, experienceId, "user_" + LastSix(whopUserId), "User " + LastSix(whopUserId), false, false)
  }
}
