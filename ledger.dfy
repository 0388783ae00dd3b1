/** The bankroll ledger: the signed replay of a bankroll's transaction log,
    the balance arithmetic of manual transactions and of settlement, and the
    choice of bankroll a settlement is booked against. The invariant of
    interest is `Balanced`: current_amount equals the replay of the log. */
module Ledger {
  import opened Common
  import opened Schema

  /** The sign a transaction type carries in the replay: deposits and wins add;
      withdrawals, losses and bets (a stake leaving the bankroll) subtract; any
      other type counts for nothing. */
  function SignedAmount(txType: string, amount: real): real
  {
    if txType == "deposit" || txType == "win" then amount
    else if txType == "withdrawal" || txType == "loss" || txType == "bet" then -amount
    else 0.0
  }

  /** The types that move the replay but that a manual transaction records
      without moving current_amount. */
  predicate LoggedOnly(txType: string)
  {
    txType == "win" || txType == "loss" || txType == "bet"
  }

  /** The signed sum of bankroll `b`'s transactions in `txs`. */
  function Replay(txs: seq<Transaction>, b: Id): real
  {
    if txs == [] then 0.0
    else (if txs[0].bankrollId == b then SignedAmount(txs[0].txType, txs[0].amount) else 0.0)
         + Replay(txs[1..], b)
  }

  /** Appending one transaction moves the replay of its own bankroll by its
      signed amount and leaves every other bankroll's replay alone. */
  lemma {:induction false} ReplayAppend(txs: seq<Transaction>, t: Transaction, b: Id)
    ensures Replay(txs + [t], b) ==
            Replay(txs, b) + (if t.bankrollId == b then SignedAmount(t.txType, t.amount) else 0.0)
  {
    if txs != [] {
      assert (txs + [t])[1..] == txs[1..] + [t];
      ReplayAppend(txs[1..], t, b);
    } else {
      assert ([] + [t])[1..] == [];
    }
  }

  /** A log without entries for `b` replays to 0 for `b`. */
  lemma {:induction false} ReplayOfUnrelated(txs: seq<Transaction>, b: Id)
    requires forall i :: 0 <= i < |txs| ==> txs[i].bankrollId != b
    ensures Replay(txs, b) == 0.0
  {
    if txs != [] {
      ReplayOfUnrelated(txs[1..], b);
    }
  }

  ghost predicate Balanced(bankrolls: seq<Bankroll>, txs: seq<Transaction>, b: Id)
  {
    b < |bankrolls| && bankrolls[b].currentAmount == Replay(txs, b)
  }

  /** The new current_amount after a manual transaction (transactions POST):
      a deposit adds the amount, a withdrawal subtracts it, any other type
      leaves the balance where it was. */
  function ManualBalance(current: real, txType: string, amount: real): (r: real)
    ensures txType == "deposit" ==> r == current + amount
    ensures txType == "withdrawal" ==> r == current - amount
    ensures txType != "deposit" && txType != "withdrawal" ==> r == current
  {
    if txType == "deposit" then current + amount
    else if txType == "withdrawal" then current - amount
    else current
  }

  /** A manual transaction of any type other than win, loss or bet keeps a
      balanced bankroll balanced. */
  lemma ManualKeepsBalance(txs: seq<Transaction>, t: Transaction, current: real)
    requires current == Replay(txs, t.bankrollId)
    requires !LoggedOnly(t.txType)
    ensures ManualBalance(current, t.txType, t.amount) == Replay(txs + [t], t.bankrollId)
  {
    ReplayAppend(txs, t, t.bankrollId);
  }

  /** A manual 'win', 'loss' or 'bet' is logged without touching the balance,
      so a nonzero one leaves the balance out of step with the log. */
  lemma ManualLoggedOnlyBreaksBalance(txs: seq<Transaction>, t: Transaction, current: real)
    requires current == Replay(txs, t.bankrollId)
    requires LoggedOnly(t.txType) && t.amount != 0.0
    ensures ManualBalance(current, t.txType, t.amount) != Replay(txs + [t], t.bankrollId)
  {
    ReplayAppend(txs, t, t.bankrollId);
  }

  /** total_deposited / total_withdrawn after a manual transaction: the
      matching total grows by the amount (a NULL total counts as 0); the other
      total is written back as it was. */
  function NewTotal(total: Nullable<real>, grows: bool, amount: real): (r: Nullable<real>)
    ensures grows ==> r == Val(RealOrZero(total) + amount)
    ensures !grows ==> r == total
  {
    if grows then Val(RealOrZero(total) + amount) else total
  }

  /** The transaction a settlement books: type, amount, and the change it
      makes to the balance. */
  datatype Entry = Entry(txType: string, amount: real, adjustment: real)

  /** won books a 'win' of the profit, lost a 'loss' of the stake, push
      nothing. */
  function SettlementEntry(result: BetResult, stake: real, actualReturn: real): (e: Option<Entry>)
    ensures e.Some? <==> result == Won || result == Lost
    ensures e.Some? ==> e.value.adjustment == SignedAmount(e.value.txType, e.value.amount)
    ensures result == Won ==> e.value.txType == "win" && e.value.adjustment == actualReturn - stake
    ensures result == Lost ==> e.value.txType == "loss" && e.value.amount == stake
    ensures result == Lost && actualReturn == 0.0 ==> e.value.adjustment == actualReturn - stake
  {
    if result == Won then Some(Entry("win", actualReturn - stake, actualReturn - stake))
    else if result == Lost then Some(Entry("loss", stake, -stake))
    else None
  }

  /** Booking a settlement entry and adjusting the balance by it keeps a
      balanced bankroll balanced. */
  lemma SettlementKeepsBalance(txs: seq<Transaction>, t: Transaction, current: real, e: Entry)
    requires current == Replay(txs, t.bankrollId)
    requires t.txType == e.txType && t.amount == e.amount
    requires e.adjustment == SignedAmount(e.txType, e.amount)
    ensures current + e.adjustment == Replay(txs + [t], t.bankrollId)
  {
    ReplayAppend(txs, t, t.bankrollId);
  }

  predicate ActiveOf(br: Bankroll, userId: Id)
  {
    br.userId == userId && br.isActive
  }

  /** The bankroll a settlement is booked against: among the user's active
      bankrolls, the first whose sport is the bet's, else the first one;
      none when the user has no active bankroll. */
  function TargetBankroll(bankrolls: seq<Bankroll>, userId: Id, sport: string): (r: Option<Id>)
    ensures r.None? <==> forall j :: 0 <= j < |bankrolls| ==> !ActiveOf(bankrolls[j], userId)
    ensures r.Some? ==> r.value < |bankrolls| && ActiveOf(bankrolls[r.value], userId)
    ensures r.Some? && bankrolls[r.value].sport != Val(sport) ==>
              (forall j :: 0 <= j < |bankrolls| && ActiveOf(bankrolls[j], userId) ==> bankrolls[j].sport != Val(sport)) &&
              (forall j :: 0 <= j < r.value ==> !ActiveOf(bankrolls[j], userId))
    ensures r.Some? && bankrolls[r.value].sport == Val(sport) ==>
              forall j :: 0 <= j < r.value && ActiveOf(bankrolls[j], userId) ==> bankrolls[j].sport != Val(sport)
  {
    var bySport := FirstIndex(bankrolls, (br: Bankroll) => ActiveOf(br, userId) && br.sport == Val(sport));
    if bySport.Some? then bySport
    else FirstIndex(bankrolls, (br: Bankroll) => ActiveOf(br, userId))
  }
}
