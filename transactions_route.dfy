/** app/api/bankrolls/transactions: logging a manual transaction against one of
    the caller's bankrolls (POST) and listing the caller's transactions (GET). */
module TransactionsRoute {
  import opened Common
  import opened Schema
  import opened Ledger

  /** An absent bankroll id is None; an amount of 0 stands for an absent or
      falsy one. The type is free text. */
  datatype RecordTransactionRequest = RecordTransactionRequest(
    whopUserId: string,
    experienceId: string,
    bankrollId: Option<Id>,
    txType: string,
    amount: real,
    description: string)

  predicate MissingTransactionFields(req: RecordTransactionRequest)
  {
    || req.whopUserId == "" || req.experienceId == "" || req.bankrollId.None?
    || req.txType == "" || req.amount == 0.0
  }

  /** The ownership check: the bankroll exists and belongs to the caller. Its
      experience and its is_active flag are not looked at. */
  predicate OwnsBankroll(bankrolls: seq<Bankroll>, bankrollId: Id, userId: Id)
  {
    bankrollId < |bankrolls| && bankrolls[bankrollId].userId == userId
  }

  /** The bankroll after a manual transaction: the balance moves only for a
      deposit or a withdrawal, the matching total grows, last_transaction_at
      is set; nothing else changes. */
  function AfterManual(br: Bankroll, txType: string, amount: real, now: int): (b: Bankroll)
    ensures b.(currentAmount := br.currentAmount, lastTransactionAt := br.lastTransactionAt,
               totalDeposited := br.totalDeposited, totalWithdrawn := br.totalWithdrawn) == br
    ensures b.currentAmount == ManualBalance(br.currentAmount, txType, amount)
    ensures b.totalDeposited == NewTotal(br.totalDeposited, txType == "deposit", amount)
    ensures b.totalWithdrawn == NewTotal(br.totalWithdrawn, txType == "withdrawal", amount)
    ensures b.lastTransactionAt == Val(now)
  {
    br.(currentAmount := ManualBalance(br.currentAmount, txType, amount),
        lastTransactionAt := Val(now),
        totalDeposited := NewTotal(br.totalDeposited, txType == "deposit", amount),
        totalWithdrawn := NewTotal(br.totalWithdrawn, txType == "withdrawal", amount))
  }

  /** POST: append exactly one transaction, then update the bankroll. */
  method RecordTransaction(db: Database, req: RecordTransactionRequest, now: int) returns (r: Result<Transaction>)
    requires db.Valid()
    modifies db`bankrolls, db`transactions
    ensures db.Valid()
    ensures MissingTransactionFields(req) ==> r == Err(MissingFields)
    ensures !MissingTransactionFields(req) && FindUser(db.users, req.whopUserId, req.experienceId).None? ==>
              r == Err(UserNotFound)
    ensures r.Ok? <==>
              && !MissingTransactionFields(req) && FindUser(db.users, req.whopUserId, req.experienceId).Some?
              && OwnsBankroll(old(db.bankrolls), req.bankrollId.value, FindUser(db.users, req.whopUserId, req.experienceId).value)
    ensures r.Err? ==> db.bankrolls == old(db.bankrolls) && db.transactions == old(db.transactions)
    ensures r.Ok? ==>
              var b := req.bankrollId.value;
              && r.value == Transaction(|old(db.transactions)|, b, FindUser(db.users, req.whopUserId, req.experienceId).value,
                                        req.txType, req.amount, req.description)
              && db.transactions == old(db.transactions) + [r.value]
              && db.bankrolls == old(db.bankrolls)[b := AfterManual(old(db.bankrolls)[b], req.txType, req.amount, now)]
    ensures !LoggedOnly(req.txType) ==>
              forall b :: Balanced(old(db.bankrolls), old(db.transactions), b) ==> Balanced(db.bankrolls, db.transactions, b)
    ensures r.Ok? && LoggedOnly(req.txType) ==>
              Balanced(old(db.bankrolls), old(db.transactions), req.bankrollId.value) ==>
              !Balanced(db.bankrolls, db.transactions, req.bankrollId.value)
  {
    if MissingTransactionFields(req) {
      return Err(MissingFields);
    }
    var user := FindUser(db.users, req.whopUserId, req.experienceId);
    if user.None? {
      return Err(UserNotFound);
    }
    var b := req.bankrollId.value;
    if !OwnsBankroll(db.bankrolls, b, user.value) {
      return Err(BankrollNotFound);
    }
    var tx := Transaction(|db.transactions|, b, user.value, req.txType, req.amount, req.description);
    ghost var oldBankrolls, oldTxs := db.bankrolls, db.transactions;
    db.transactions := db.transactions + [tx];
    var bankroll := db.bankrolls[b];
    db.bankrolls := db.bankrolls[b := AfterManual(bankroll, req.txType, req.amount, now)];
    forall k | 0 <= k ensures Replay(db.transactions, k) == Replay(oldTxs, k) + (if k == b then SignedAmount(tx.txType, tx.amount) else 0.0) {
      ReplayAppend(oldTxs, tx, k);
    }
    if LoggedOnly(req.txType) {
      if Balanced(oldBankrolls, oldTxs, b) {
        ManualLoggedOnlyBreaksBalance(oldTxs, tx, bankroll.currentAmount);
      }
    } else {
      forall k | Balanced(oldBankrolls, oldTxs, k) && k == b ensures Balanced(db.bankrolls, db.transactions, k) {
        ManualKeepsBalance(oldTxs, tx, bankroll.currentAmount);
      }
    }
    r := Ok(tx);
  }

  function TransactionId(t: Transaction): int { t.id }

  /** The GET query's filter: the caller's rows, of one bankroll when an id is given. */
  predicate Selected(t: Transaction, userId: Id, bankrollId: Option<Id>)
  {
    t.userId == userId && (bankrollId.Some? ==> t.bankrollId == bankrollId.value)
  }

  /** GET: the caller's transactions, of one bankroll when an id is given,
      newest first, at most `limit` (50 when absent). Fewer than `limit`
      rows means every selected row is there. */
  function ListTransactions(users: seq<User>, txs: seq<Transaction>, whopUserId: string, experienceId: string,
                            bankrollId: Option<Id>, limit: Option<nat>): (r: Result<seq<Transaction>>)
    requires forall i :: 0 <= i < |txs| ==> txs[i].id == i
    ensures r.Err? <==> whopUserId == "" || experienceId == "" || FindUser(users, whopUserId, experienceId).None?
    ensures r.Ok? ==> |r.value| <= (if limit.Some? then limit.value else 50)
    ensures r.Ok? ==> forall t :: t in r.value ==>
              t in txs && Selected(t, FindUser(users, whopUserId, experienceId).value, bankrollId)
    ensures r.Ok? ==> Decreasing(r.value, TransactionId)
    ensures r.Ok? ==>
              var userId := FindUser(users, whopUserId, experienceId).value;
              forall t, u :: t in txs && Selected(t, userId, bankrollId) && t !in r.value && u in r.value ==>
                TransactionId(u) > TransactionId(t)
    ensures r.Ok? && |r.value| < (if limit.Some? then limit.value else 50) ==>
              forall t :: t in txs && Selected(t, FindUser(users, whopUserId, experienceId).value, bankrollId) ==>
                t in r.value
  {
    if whopUserId == "" || experienceId == "" then Err(MissingFields)
    else
      var found := FindUser(users, whopUserId, experienceId);
      if found.None? then Err(UserNotFound)
      else
        var selected := (t: Transaction) => Selected(t, found.value, bankrollId);
        var n := if limit.Some? then limit.value else 50;
        assert Increasing(txs, TransactionId);
        NewestLimit(txs, selected, TransactionId, n);
        Ok(Take(NewestFirst(txs, selected), n))
  }
}
