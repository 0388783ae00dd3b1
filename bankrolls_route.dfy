/** app/api/bankrolls: opening a bankroll with its initial deposit (POST) and
    listing the caller's active bankrolls (GET). */
module BankrollsRoute {
  import opened Common
  import opened Schema
  import opened Ledger

  /** A starting amount of 0 stands for an absent or falsy one; an empty name
      or currency, and a max bet percentage of 0, take their defaults. */
  datatype CreateBankrollRequest = CreateBankrollRequest(
    whopUserId: string,
    experienceId: string,
    name: string,
    startingAmount: real,
    currency: string,
    sport: Option<string>,
    maxBetPercentage: real)

  predicate MissingBankrollFields(req: CreateBankrollRequest)
  {
    req.whopUserId == "" || req.experienceId == "" || req.startingAmount == 0.0
  }

  /** The row the insert creates; columns it does not write (the totals, the
      timestamps) are NULL and is_active takes its default, true. */
  function NewBankroll(id: Id, userId: Id, req: CreateBankrollRequest): (br: Bankroll)
    ensures br.id == id && br.userId == userId && br.isActive
    ensures br.currentAmount == br.startingAmount == req.startingAmount
    ensures br.name == (if req.name == "" then "Main Bankroll" else req.name)
    ensures br.currency == (if req.currency == "" then "USD" else req.currency)
    ensures br.maxBetPercentage == (if req.maxBetPercentage == 0.0 then 5.0 else req.maxBetPercentage)
    ensures br.sport == (if req.sport.Some? then Val(req.sport.value) else Null)
    ensures br.totalDeposited == Null && br.totalWithdrawn == Null && br.lastTransactionAt == Null
  {
    Bankroll(id, userId,
             if req.name == "" then "Main Bankroll" else req.name,
             req.startingAmount, req.startingAmount,
             if req.currency == "" then "USD" else req.currency,
             if req.sport.Some? then Val(req.sport.value) else Null,
             if req.maxBetPercentage == 0.0 then 5.0 else req.maxBetPercentage,
             Null, Null, true, Null, Null)
  }

  /** POST: insert the bankroll, then log its starting amount as a deposit. */
  method CreateBankroll(db: Database, req: CreateBankrollRequest) returns (r: Result<Bankroll>)
    requires db.Valid()
    modifies db`bankrolls, db`transactions
    ensures db.Valid()
    ensures MissingBankrollFields(req) ==> r == Err(MissingFields)
    ensures r.Ok? <==> !MissingBankrollFields(req) && FindUser(db.users, req.whopUserId, req.experienceId).Some?
    ensures r.Err? ==> db.bankrolls == old(db.bankrolls) && db.transactions == old(db.transactions)
    ensures r.Ok? ==>
              var id, userId := |old(db.bankrolls)|, FindUser(db.users, req.whopUserId, req.experienceId).value;
              && r.value == NewBankroll(id, userId, req)
              && db.bankrolls == old(db.bankrolls) + [r.value]
              && db.transactions == old(db.transactions) +
                   [Transaction(|old(db.transactions)|, id, userId, "deposit", req.startingAmount, "Initial deposit")]
              && Balanced(db.bankrolls, db.transactions, id)
    ensures forall b :: Balanced(old(db.bankrolls), old(db.transactions), b) ==> Balanced(db.bankrolls, db.transactions, b)
  {
    if MissingBankrollFields(req) {
      return Err(MissingFields);
    }
    var user := FindUser(db.users, req.whopUserId, req.experienceId);
    if user.None? {
      return Err(UserNotFound);
    }
    var id := |db.bankrolls|;
    var bankroll := NewBankroll(id, user.value, req);
    var tx := Transaction(|db.transactions|, id, user.value, "deposit", req.startingAmount, "Initial deposit");
    ghost var oldBankrolls, oldTxs := db.bankrolls, db.transactions;
    ReplayOfUnrelated(oldTxs, id);
    db.bankrolls := db.bankrolls + [bankroll];
    db.transactions := db.transactions + [tx];
    forall b | 0 <= b ensures Replay(db.transactions, b) == Replay(oldTxs, b) + (if b == id then req.startingAmount else 0.0) {
      ReplayAppend(oldTxs, tx, b);
    }
    r := Ok(bankroll);
  }

  function BankrollId(br: Bankroll): int { br.id }

  /** GET: the caller's active bankrolls, newest first. */
  function ListBankrolls(users: seq<User>, bankrolls: seq<Bankroll>, whopUserId: string, experienceId: string): (r: Result<seq<Bankroll>>)
    requires BankrollsWellFormed(bankrolls)
    ensures r.Err? <==> whopUserId == "" || experienceId == "" || FindUser(users, whopUserId, experienceId).None?
    ensures r.Ok? ==> forall br :: br in r.value <==>
              br in bankrolls && ActiveOf(br, FindUser(users, whopUserId, experienceId).value)
    ensures r.Ok? ==> Decreasing(r.value, BankrollId)
  {
    if whopUserId == "" || experienceId == "" then Err(MissingFields)
    else
      var found := FindUser(users, whopUserId, experienceId);
      if found.None? then Err(UserNotFound)
      else
        var mine := (br: Bankroll) => ActiveOf(br, found.value);
        assert Increasing(bankrolls, BankrollId);
        NewestFirstIsDecreasing(bankrolls, mine, BankrollId);
        Ok(NewestFirst(bankrolls, mine))
  }
}
