# Bet Tracker Pro: bets, settlement, ledger and capper picks in Dafny

This project models the server core of Bet Tracker Pro, a Whop app for sports bettors.
- Users record bets and settle them. Settlement recomputes the user's stats row and books the outcome against a bankroll.
- Users keep bankrolls with a transaction log.
- Cappers (tipsters) post picks that other users follow. Settling a pick settles the follow rows.
- The app ranks users on a leaderboard, and lists cappers with their recent picks.
- The model also covers the two pieces of browser logic that mirror server rules: the payout preview and the bet card's result label.

The record store is a `Database` object (module `Schema`) with one `seq` field per table. A row's id is its position in its table. Rows are appended in creation order, so a descending `created_at` or `posted_at` order is "newest first".

Each route handler is a module whose request handlers are methods on the database object. Their `modifies` clauses name the tables they write:
- a rejected request leaves every table as it was;
- an accepted one changes exactly the rows the handler writes.

Read-only queries are functions over the tables. `Database.Valid()` gathers the table invariants, and every handler preserves it:
- ids are positions;
- (whop user, experience) pairs are unique among users;
- stakes and odds are nonzero;
- transactions name existing bankrolls;
- there is one stats row per (user, experience);
- follow counters are non-negative;
- there is one follow row per (user, pick).

Other value conventions:
- Money is `real` and American odds are `int`.
- A request field that may be absent is an `Option`. A falsy string or number is `""` or `0`.
- SQL NULL is `Nullable`. JSON carries NaN and Infinity as `null`, so a division by zero that the code does not guard against is stored as `Null`.
- The clock and the calendar are parameters (`now`, `oneMonthAgo`).

The ledger invariant is `Ledger.Balanced`: a bankroll's `current_amount` equals the signed replay of its transactions. Deposits and wins add, while withdrawals, losses and bets subtract. Creating a bankroll, settling a bet and recording a deposit or withdrawal each keep every balanced bankroll balanced. A manual `win`, `loss` or `bet` transaction is logged without moving `current_amount`, so it breaks the invariant, and a lemma proves that it does.

## Model

| member | source | states |
|---|---|---|
| Schema.FindUser | app/api/bets/route.ts:18-23 | finds a user with the given whop id and experience, and finds none exactly when no such user exists |
| Schema.FindUserUnique | app/api/bets/settle/route.ts:26-31 | with unique (whop user, experience) pairs the `.single()` lookup returns the one matching row |
| Schema.FindStats | app/api/user-stats/route.ts:55-60 | finds a stats row with the (user, experience) key, and finds none exactly when no row has that key |
| Schema.UpdateKeepsUsers | app/api/cappers/route.ts:150-153 | rewriting flags of one user keeps ids and the uniqueness of (whop user, experience) |
| Schema.NewUser | app/api/bets/route.ts:92-103 | a first-contact user is named `user_` and `User ` plus the last six characters of the whop id, with both flags false |
| Common.LastSix | app/api/bets/route.ts:99-100 | `slice(-6)`: the last six characters, or the whole of a shorter string, as a suffix |
| Common.Filter | app/api/bets/route.ts:34-39 | the rows satisfying the query's filters, each one of the table's rows, no more rows than the table |
| Common.NewestFirst | app/api/bets/route.ts:39 | exactly the rows satisfying the filter |
| Common.NewestFirstIsDecreasing | app/api/bankrolls/route.ts:46 | with ids increasing in insertion order the result has strictly decreasing ids (newest first) |
| Common.NewestLimit | app/api/picks/route.ts:58-59 | `order desc` then `limit n`: at most n rows, newest first, every dropped row older than every kept one, all rows when fewer than n come back |
| Common.TakeKeepsHighest | app/api/bankrolls/transactions/route.ts:54-55 | a limit on a list in decreasing key order drops only rows whose key is below every kept key |
| UserAccounts.GetOrCreateUser | app/api/bets/route.ts:84-119 | the returned id names a user with the caller's key; a user is inserted (and only then) when none exists |
| OddsMath.PayoutRatio | app/api/bets/route.ts:121-127 | the payout per unit staked is positive, odds/100 for positive odds and 100/abs(odds) for negative odds |
| OddsMath.PotentialReturn | app/api/bets/route.ts:121-127 | the potential return is stake times the payout ratio, with the sign of the stake |
| OddsMath.AmericanOddsMeaning | app/api/bets/route.ts:121-127 | +x pays x on a stake of 100, and -x pays 100 on a stake of x |
| OddsMath.ActualReturn | app/api/bets/settle/route.ts:57-64 | won returns potential return plus stake, push the stake, lost (and pending) 0 |
| OddsMath.SettledProfit | app/api/bets/settle/route.ts:57-64 | the bettor's gain is stake times the payout ratio on a win, minus the stake on a loss, 0 on a push |
| OddsMath.UnitsOnWin | app/api/bets/settle/route.ts:147-150 | a won bet's units, (actual_return - stake) / stake, are the payout ratio whatever the stake |
| OddsMath.PickRoi | app/api/picks/settle/route.ts:69-78 | a settled pick's roi: the payout ratio for won with nonzero odds, -1 for lost, 0 for any other result text |
| OddsMath.FollowProfitLossMatchesPickRoi | app/api/picks/settle/route.ts:116-120 | a follow's profit_loss is NULL exactly for won without usable odds, and otherwise equals the pick's roi |
| BetTrackerClient.CalculatePotentialReturn | components/BetTrackerPro.tsx:234-242 | the form preview is 0 when stake or odds is 0, stake·odds/100 for positive odds, stake·100/abs(odds) for negative odds |
| BetTrackerClient.PreviewAgreesWithServer | components/BetTrackerPro.tsx:234-242 | for every request the server accepts, the preview equals the stored potential_return |
| BetTrackerClient.ResultLabel | components/BetTrackerPro.tsx:314-316 | the badge shows a gain of actual_return - stake exactly for won, and a loss of the stake exactly for lost |
| BetTrackerClient.WonLabelIsPotentialReturn | components/BetTrackerPro.tsx:314-319 | a bet settled as won is labelled with its potential return and shows no settle buttons |
| BetsRoute.CreateBet | app/api/bets/route.ts:77-158 | rejected exactly when a required field is falsy, with no table changed; otherwise the bet is appended as pending with actual_return 0 and the odds' potential return, for the caller's (possibly new) user |
| BetsRoute.BetIdsIncrease | app/api/bets/route.ts:39 | bet ids increase along the table |
| BetsRoute.ListBets | app/api/bets/route.ts:10-39 | rejected exactly for a missing parameter or an unknown user; otherwise exactly the caller's bets in the experience, newest first |
| StatsAggregate.SettledOf | app/api/bets/settle/route.ts:106-111 | exactly the user's won, lost and push bets in the experience, all with nonzero stake |
| StatsAggregate.CountResult | app/api/bets/settle/route.ts:120-121 | a count of bets with one result is at most the number of bets |
| StatsAggregate.CountResultZero | app/api/bets/settle/route.ts:120-121 | the count is 0 exactly when no bet has that result |
| StatsAggregate.ResultsPartition | app/api/bets/settle/route.ts:119-121 | among settled bets, wins, losses and pushes add up to total_bets |
| StatsAggregate.WinsPlusLossesBounded | app/api/bets/settle/route.ts:119-121 | wins + losses never exceed total_bets |
| StatsAggregate.WinRate | app/api/bets/settle/route.ts:122 | win_rate lies in [0, 100]; it is 0 with no settled bets or no wins, and 100 exactly when every settled bet is won |
| StatsAggregate.NetProfitAtLeastMinusStake | app/api/bets/settle/route.ts:124-133 | with positive stakes and non-negative returns net_profit is at least minus the total staked |
| StatsAggregate.Roi | app/api/bets/settle/route.ts:133 | roi is 0 with no settled bets, and NULL exactly when settled bets stake 0 in total |
| StatsAggregate.RoiBounds | app/api/bets/settle/route.ts:124-133 | for positive stakes roi is a number of at least -100 whose sign is the sign of net_profit |
| StatsAggregate.SettledBetUnits | app/api/bets/settle/route.ts:147-154 | a settled bet scores its payout ratio in units on a win, -1 on a loss, 0 on a push |
| StatsAggregate.ScanStreak | app/api/bets/settle/route.ts:136-144 | the backward scan with `break` yields -1 exactly when some settled bet is lost, else the number of wins |
| StatsAggregate.StatsRow | app/api/bets/settle/route.ts:166-182 | the upserted row carries the key and timestamp, total_bets is the settled count, wins + losses ≤ total_bets, win_rate in [0, 100] |
| BetsSettleRoute.ParseResult | app/api/bets/settle/route.ts:18-23 | accepts exactly won, lost and push, never pending, and round-trips through the stored text |
| BetsSettleRoute.SettledBet | app/api/bets/settle/route.ts:57-76 | the update writes result, actual_return (by the result) and settled_at, and nothing else |
| BetsSettleRoute.UpsertStats | app/api/bets/settle/route.ts:167-182 | after the upsert the key has the new row, the table grows only when the key was new, other keys' rows stay in place, and keys stay unique |
| BetsSettleRoute.UpdateUserStats | app/api/bets/settle/route.ts:103-191 | the stats table becomes the upsert of the row recomputed from the bets table after the update |
| BetsSettleRoute.BookedBankroll | app/api/bets/settle/route.ts:246-255 | the target bankroll moves by the adjustment and gets both timestamps; nothing else changes |
| BetsSettleRoute.UpdateBankrollsWithBetResult | app/api/bets/settle/route.ts:193-264 | with an active bankroll, won or lost appends one transaction and adjusts that bankroll; push or no active bankroll writes nothing; balanced bankrolls stay balanced |
| BetsSettleRoute.SettleBet | app/api/bets/settle/route.ts:4-92 | missing fields, a bad result, an unknown user or a bet not owned in the experience reject with no change; success settles the bet, recomputes stats and books the result; balanced bankrolls stay balanced |
| Ledger.ReplayAppend | app/api/bankrolls/transactions/route.ts:141-158 | appending a transaction moves its own bankroll's replay by its signed amount and no other bankroll's |
| Ledger.ReplayOfUnrelated | app/api/bankrolls/route.ts:139-147 | a log with no entry for a bankroll replays to 0 for it |
| Ledger.ManualBalance | app/api/bankrolls/transactions/route.ts:169-174 | deposit adds the amount, withdrawal subtracts it, any other type leaves the balance |
| Ledger.ManualKeepsBalance | app/api/bankrolls/transactions/route.ts:141-188 | a manual transaction that is not a win, loss or bet keeps the balance equal to the replay |
| Ledger.ManualLoggedOnlyBreaksBalance | app/api/bankrolls/transactions/route.ts:141-188 | a nonzero manual win, loss or bet is logged without moving the balance, so it breaks the replay invariant |
| Ledger.NewTotal | app/api/bankrolls/transactions/route.ts:181-186 | the matching total grows by the amount with NULL read as 0; the other is written back unchanged |
| Ledger.SettlementEntry | app/api/bets/settle/route.ts:212-227 | won books a win of actual_return - stake and lost a loss of the stake, each adjusting by its signed amount; push books nothing |
| Ledger.SettlementKeepsBalance | app/api/bets/settle/route.ts:229-255 | booking a settlement entry and adjusting by it keeps the balance equal to the replay |
| Ledger.TargetBankroll | app/api/bets/settle/route.ts:196-210 | none exactly when the user has no active bankroll; else the first active bankroll of the bet's sport, or the first active one when none matches |
| BankrollsRoute.NewBankroll | app/api/bankrolls/route.ts:113-126 | current_amount = starting_amount, defaults 'Main Bankroll', 'USD' and 5, active, totals NULL |
| BankrollsRoute.CreateBankroll | app/api/bankrolls/route.ts:82-147 | rejected with no change exactly for a missing field or unknown user; success appends the bankroll and one 'Initial deposit' deposit of the starting amount, so the new bankroll is balanced and so are the old balanced ones |
| BankrollsRoute.ListBankrolls | app/api/bankrolls/route.ts:10-46 | exactly the caller's active bankrolls, newest first |
| TransactionsRoute.AfterManual | app/api/bankrolls/transactions/route.ts:169-188 | the bankroll row after a manual transaction: new balance, totals and timestamp, nothing else |
| TransactionsRoute.RecordTransaction | app/api/bankrolls/transactions/route.ts:94-188 | missing field, unknown user or bankroll not owned rejects with no change; success appends exactly one transaction and updates the bankroll; balance kept for types other than win, loss and bet, broken by those three |
| TransactionsRoute.ListTransactions | app/api/bankrolls/transactions/route.ts:10-60 | the caller's transactions (of one bankroll if given), newest first, at most limit (default 50), the newest ones, all of them under the limit |
| PicksRoute.TiersAreNested | app/api/picks/route.ts:72-76 | public sees a subset of premium, which sees a subset of any other tier |
| PicksRoute.ListPicks | app/api/picks/route.ts:10-76 | the experience's picks passing capper, sport and tier filters, newest first, at most limit (default 50), the newest ones, all under the limit; no tier given means public only |
| PicksRoute.AfterPromotion | app/api/picks/route.ts:160-178 | only the test user's row can change, and only its is_capper flag, set to true |
| PicksRoute.NewPick | app/api/picks/route.ts:224-243 | the pick belongs to the target capper, defaults access_tier 'public' and is_premium false, settlement columns NULL |
| PicksRoute.CreatePick | app/api/picks/route.ts:125-269 | missing fields or unknown user reject; with capper_id the target must exist in the experience and be a capper; without it the caller must be one; success appends the pick for the target |
| PicksSettleRoute.UpdatedOdds | app/api/picks/settle/route.ts:85 | given odds are written; absent odds leave the column |
| PicksSettleRoute.SettledPick | app/api/picks/settle/route.ts:81-88 | the update writes result, odds, roi and updated_at only |
| PicksSettleRoute.SettledFollow | app/api/picks/settle/route.ts:111-121 | a follow row gets result, odds and profit_loss only |
| PicksSettleRoute.SettleFollows | app/api/picks/settle/route.ts:111-122 | every follow row of the pick is settled; the other rows are unchanged |
| PicksSettleRoute.FollowsSettledUniformly | app/api/picks/settle/route.ts:111-122 | all follow rows of a pick get the pick's result, one profit_loss, the pick's odds, and the pick's roi where profit_loss is a number |
| PicksSettleRoute.SettlePick | app/api/picks/settle/route.ts:15-122 | only the pick's capper may settle it; an unknown pick or anyone else is rejected with no change |
| PicksFollowRoute.FollowedCount | app/api/picks/follow/route.ts:105-110 | the counter becomes old + 1 with NULL read as 0 |
| PicksFollowRoute.UnfollowedCount | app/api/picks/follow/route.ts:187-191 | the counter becomes max(0, old - 1) and is never negative |
| PicksFollowRoute.FollowThenUnfollowCount | app/api/picks/follow/route.ts:104-191 | follow then unfollow restores a non-negative counter |
| PicksFollowRoute.NewFollow | app/api/picks/follow/route.ts:84-92 | the follow row stores the pick's capper and the follower's bet amount and odds |
| PicksFollowRoute.FollowPick | app/api/picks/follow/route.ts:15-116 | rejected with no change when the pick is missing or the pair already follows; success inserts one row and bumps the counter |
| PicksFollowRoute.WithoutFollow | app/api/picks/follow/route.ts:164-168 | deletes every row of the (user, pick) pair and keeps all others |
| PicksFollowRoute.WithoutFollowKeepsDistinct | app/api/picks/follow/route.ts:164-168 | deleting rows keeps follow pairs unique |
| PicksFollowRoute.FollowThenUnfollowTable | app/api/picks/follow/route.ts:84-168 | follow then unfollow restores the follow table |
| PicksFollowRoute.UnfollowPick | app/api/picks/follow/route.ts:133-198 | deletes the pair's rows; the counter is decremented, clamped at 0, only when the pick exists |
| LeaderboardRoute.Cutoff | app/api/leaderboard/route.ts:19-35 | a day, seven days or a month before now, or the epoch for all_time; any other value means a month |
| LeaderboardRoute.UnknownTimeframeIsMonthly | app/api/leaderboard/route.ts:9-34 | an unknown or empty timeframe gives the monthly cutoff |
| LeaderboardRoute.DateFilter | app/api/leaderboard/route.ts:9-35 | the switch computes the cutoff of the timeframe, monthly when none is given |
| LeaderboardRoute.Eligible | app/api/leaderboard/route.ts:38-46 | exactly the stats rows of the experience updated since the cutoff, with at least ten bets and an existing user |
| LeaderboardRoute.Ranked | app/api/leaderboard/route.ts:58-75 | entry i is row i's user fields and copied stats, ranked i + 1 |
| LeaderboardRoute.RankedInOrder | app/api/leaderboard/route.ts:47-62 | ranks are 1..N in list order and roi is non-increasing |
| LeaderboardRoute.RankedMatches | app/api/leaderboard/route.ts:38-75 | ranking any reordering of the eligible rows gives one entry per eligible row, each an eligible row at its rank, and lists every eligible row |
| LeaderboardRoute.Leaderboard | app/api/leaderboard/route.ts:38-75 | one entry per eligible row, ranks 1..N, roi non-increasing with NULL first, every entry an eligible row at its rank, and every eligible row listed |
| LeaderboardRoute.GetLeaderboard | app/api/leaderboard/route.ts:11-77 | rejected exactly for a missing parameter; otherwise the leaderboard at the timeframe's cutoff |
| RoiOrder.Insert | app/api/leaderboard/route.ts:47 | insertion keeps the elements, plus the inserted one |
| RoiOrder.InsertSorted | app/api/leaderboard/route.ts:47 | inserting into a roi-sorted list keeps it sorted |
| RoiOrder.SortByRoi | app/api/leaderboard/route.ts:47 | `order roi desc`: a permutation, in non-increasing roi with NULL first |
| UserStatsRoute.Chart | app/api/user-stats/route.ts:84-95 | one point per settled bet, the first with the bet's gain and roi 0, each next profit the previous plus the bet's gain, roi the running profit per bet as a percentage |
| UserStatsRoute.PercentPerBet | app/api/user-stats/route.ts:93 | the roi times the point count is the cumulative profit times 100 |
| UserStatsRoute.NextPoint | app/api/user-stats/route.ts:85-93 | each point adds its bet's gain to the previous point's profit |
| UserStatsRoute.FirstPoint | app/api/user-stats/route.ts:85-93 | the first point carries its bet's gain and roi 0 |
| UserStatsRoute.ProfitSumIsNetProfit | app/api/user-stats/route.ts:85-88 | under settlement's actual_return rule the summed gains are net_profit |
| UserStatsRoute.LastPointIsNetProfit | app/api/user-stats/route.ts:85-88 | the last chart point equals the net_profit settlement stores for the same bets |
| UserStatsRoute.GetUserStats | app/api/user-stats/route.ts:10-112 | get or create the caller, return their stats row or the all-zero defaults, and the chart of their settled bets |
| CappersRoute.CapperRows | app/api/cappers/route.ts:18-40 | every joined row pairs a capper of the experience with its own stats row in the experience |
| CappersRoute.CapperRowsComplete | app/api/cappers/route.ts:18-40 | with one stats row per (user, experience) the join misses no capper that has one |
| CappersRoute.TopCappersFacts | app/api/cappers/route.ts:8-42 | at most limit (default 20) joined rows, in non-increasing roi order |
| CappersRoute.TopCappersComplete | app/api/cappers/route.ts:8-42 | fewer than limit rows means every capper with a stats row is listed |
| CappersRoute.RecentPicks | app/api/cappers/route.ts:53-69 | at most five picks of the listed cappers in the experience, newest first, the newest ones, all of them when fewer than five |
| CappersRoute.PicksOf | app/api/cappers/route.ts:76-82 | exactly the picks of one capper, in order |
| CappersRoute.PicksOfAppend | app/api/cappers/route.ts:80 | each pick is pushed onto its own capper's list |
| CappersRoute.GroupPicksByCapper | app/api/cappers/route.ts:76-82 | the reduce leaves a key exactly for each capper with picks, holding exactly that capper's picks in order |
| CappersRoute.ListedIdsOf | app/api/cappers/route.ts:53 | the ids asked for are the listed cappers' ids |
| CappersRoute.ListCappers | app/api/cappers/route.ts:10-90 | rejected exactly without experience_id; otherwise the top cappers, each with its own recent picks ([] when it has none) |
| CappersRoute.ApplyAction | app/api/cappers/route.ts:139-147 | become_capper sets is_capper, verify_capper and unverify_capper set is_verified, and any other action changes nothing |
| CappersRoute.ActionsIdempotent | app/api/cappers/route.ts:139-147 | repeating an action changes nothing more, and unverify after verify is plain unverify |
| CappersRoute.CapperAction | app/api/cappers/route.ts:109-165 | missing fields or unknown user reject with no change; success rewrites only the caller's row |
| AdminCappersRoute.DisplayNameOf | app/api/admin/cappers/route.ts:51-82 | display_name defaults to the username |
| AdminCappersRoute.VerifiedOf | app/api/admin/cappers/route.ts:53-81 | only an explicit true verifies |
| AdminCappersRoute.NewCapper | app/api/admin/cappers/route.ts:44-56 | the inserted user is a capper with the given key and username, display name and verification defaulted |
| AdminCappersRoute.InitialStats | app/api/admin/cappers/route.ts:69-74 | the initialized stats row has every aggregate zero |
| AdminCappersRoute.Promoted | app/api/admin/cappers/route.ts:77-84 | an existing user becomes a capper with defaulted verification and display name; the username stays |
| AdminCappersRoute.PromotedIdempotent | app/api/admin/cappers/route.ts:44-84 | adding the same capper twice changes nothing more |
| AdminCappersRoute.AddCapper | app/api/admin/cappers/route.ts:11-98 | missing fields reject with no change; an existing user is updated in place with no row added; an absent one is inserted with one initialized stats row |
| AdminCappersRoute.Demoted | app/api/admin/cappers/route.ts:128-135 | both flags cleared only on the given id within the given experience; every other row unchanged |
| AdminCappersRoute.RemoveThenAdd | app/api/admin/cappers/route.ts:77-135 | removing and adding a capper back leaves them a capper with the requested verification and the same identity |
| AdminCappersRoute.RemoveCapper | app/api/admin/cappers/route.ts:117-147 | missing fields reject; otherwise the demotion, also when nothing matches |

## Left out

- Storage faults. No insert, update or select fails. The `500` branches are not modelled, and where the code treats a failed `.single()` lookup as "not found" the model does the same. The write-then-write sequences have no partial failure: settlement always books after the stats upsert, and a transaction insert is always followed by its balance update.
- Concurrency. The read-modify-write balance and counter updates are modelled one request at a time.
- Floating point. Money is exact `real`, so `toFixed` rounding and `parseFloat` of malformed text are out of scope (a NaN amount or a NaN limit).
- Negative `limit` values are out of scope too, since limits are `nat`.
- Calendar arithmetic. "One month ago" is the parameter `oneMonthAgo`, and a day is 86 400 000 ms.
- The clock is the parameter `now`. Request authentication, HTTP status codes and response shapes are out of scope; a rejection is `Err` with its reason.
- Columns the core only passes through are not modelled: sportsbook, game_date, notes, league, reasoning, confidence, recommended odds and units, max_bet_amount, price, game_time, expires_at, tags, stop_loss_threshold, target_profit, avatar_url, best_streak, created_at, posted_at. The last two are replaced by row order.
- An absent transaction or pick description is modelled as "".
- Store defaults of columns the inserts omit are taken as NULL, except that the two user flags default to false and a new bankroll's `is_active` defaults to true. Nothing in the modelled routes sets `is_active`, and settlement books only against active bankrolls. The stats row that capper creation inserts has every aggregate 0, roi 0 and updated_at now; the store's column defaults are not part of this model.
- The `user_stats` upsert is keyed by (user, experience), which the code's `updateUserStats` relies on.
- The unordered settled-bet query of `updateUserStats` is taken in table order. That order matters only to the streak scan.
- Ledger.TargetBankroll: the unordered active-bankroll query of the settlement hook is taken in table order. When several active bankrolls match, that order decides which one is booked; the store's actual row order is not modelled.
- The capper list orders users by their joined stats row's roi, as the code intends. How the store treats `order('user_stats.roi')` on a parent table is not modelled.
- The debug and community-settings endpoints, and the rest of the browser component (state, charts, tabs), are not part of this model.
- Three behaviours the code does not have, which the model follows:
  - There is no guard against settling a bet twice. A second settlement overwrites result and actual_return and books again.
  - Settling a pick writes the capper's odds onto every follow row, not each follower's own odds.
  - The leaderboard has no cache; every request queries the store.
- The test account that picks POST promotes to capper is the constant `TestCapperWhopId`.
- Settling a pick looks the pick up by id alone, whatever its experience, as the code does.
