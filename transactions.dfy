/**
 * The five transaction rules. Each takes the state of one client and returns
 * its next state; the dispute-management rules return `None` when the
 * request has no effect, so the caller can leave the ledger as it was.
 */
module Transactions {
  import opened Types
  import opened Utils
  import opened Backfill

  /** Every recorded activity is stored under its own transaction id. */
  predicate ActivityKeyed(s: ClientState) {
    forall t :: t in s.history.accountActivity ==> s.history.accountActivity[t].tx == t
  }

  /**
   * The invariant every reachable client state keeps: the balances add up,
   * the rejected list holds only withdrawals, and activities are keyed by
   * their own id.
   */
  predicate ValidState(s: ClientState) {
    s.Balanced() && OnlyWithdrawals(s.history.rejectedTxs) && ActivityKeyed(s)
  }

  /** The state of a client not seen before satisfies the invariant. */
  lemma DefaultIsValid()
    ensures ValidState(ClientState.Default())
  {
    var d := ClientState.Default();
    assert d.total == d.available.Add(d.held);
  }

  /**
   * A deposit: on an unlocked account, available and total both rise by the
   * amount and the activity is recorded under `txId`; on a locked account
   * nothing changes.
   */
  function UpdateDeposit(s: ClientState, activity: AccountActivity, txId: TransactionId, amount: MonetaryAmount): (r: ClientState)
    ensures s.isLocked ==> r == s
    ensures !s.isLocked ==>
              && r.available.value == s.available.value + amount.value
              && r.total.value == s.total.value + amount.value
              && r.held == s.held && !r.isLocked
              && r.history.accountActivity == s.history.accountActivity[txId := activity]
              && r.history.disputedTxs == s.history.disputedTxs
              && r.history.rejectedTxs == s.history.rejectedTxs
    ensures s.Balanced() ==> r.Balanced()
  {
    if s.isLocked then s
    else
      s.MapAvail((a: MonetaryAmount) => a.Add(amount))
       .MapTotal((t: MonetaryAmount) => t.Add(amount))
       .MapHistory((h: TransactionHistory) =>
          h.MapAccountActivity((acts: map<TransactionId, AccountActivity>) => acts[txId := activity]))
  }

  /** The withdrawal is applied: the account is unlocked and both balances cover the amount. */
  predicate WithdrawalApplies(s: ClientState, amount: MonetaryAmount) {
    !s.isLocked && !s.total.Less(amount) && !s.available.Less(amount)
  }

  /**
   * The withdrawal is parked for a later backfill: the total covers it but
   * available does not, and some dispute is open whose resolution may free
   * the difference.
   */
  predicate WithdrawalParked(s: ClientState, amount: MonetaryAmount) {
    !s.isLocked && !s.total.Less(amount) && s.available.Less(amount) && |s.history.disputedTxs| > 0
  }

  /**
   * A withdrawal has exactly one of three outcomes. Applied: available and
   * total fall by the amount and the activity is recorded under `txId`.
   * Parked: balances and recorded activities stay, and one rejected entry is
   * appended carrying the withdrawal and the ids disputed at this moment.
   * Otherwise (locked, total too small, or available too small with no open
   * dispute) the state is returned untouched.
   */
  function UpdateWithdrawal(s: ClientState, activity: AccountActivity, txId: TransactionId, amount: MonetaryAmount): (r: ClientState)
    ensures WithdrawalApplies(s, amount) ==>
              && r.available.value == s.available.value - amount.value
              && r.total.value == s.total.value - amount.value
              && r.held == s.held && r.isLocked == s.isLocked
              && r.history.accountActivity == s.history.accountActivity[txId := activity]
              && r.history.disputedTxs == s.history.disputedTxs
              && r.history.rejectedTxs == s.history.rejectedTxs
    ensures WithdrawalParked(s, amount) ==>
              && r.available == s.available && r.held == s.held && r.total == s.total
              && r.isLocked == s.isLocked
              && r.history.accountActivity == s.history.accountActivity
              && r.history.disputedTxs == s.history.disputedTxs
              && r.history.rejectedTxs
                 == s.history.rejectedTxs + [RejectedActivity(activity, s.history.disputedTxs)]
    ensures !WithdrawalApplies(s, amount) && !WithdrawalParked(s, amount) ==> r == s
    ensures s.Balanced() ==> r.Balanced()
    ensures OnlyWithdrawals(s.history.rejectedTxs) && activity.Withdrawal? ==> OnlyWithdrawals(r.history.rejectedTxs)
  {
    var noPossibleWithdrawalBackfill :=
      (s.available.Less(amount) && |s.history.disputedTxs| == 0) || s.total.Less(amount);
    if s.isLocked || noPossibleWithdrawalBackfill then s
    else
      var potentialBackfill := s.available.Less(amount) && |s.history.disputedTxs| != 0;
      if potentialBackfill then
        var rejectedActivity := RejectedActivity(activity, s.history.disputedTxs);
        s.MapHistory((h: TransactionHistory) =>
          h.MapRejectedActivity((rej: seq<RejectedActivity>) => Push(rej, rejectedActivity)))
      else
        s.MapTotal((t: MonetaryAmount) => t.Sub(amount))
         .MapAvail((a: MonetaryAmount) => a.Sub(amount))
         .MapHistory((h: TransactionHistory) =>
            h.MapAccountActivity((acts: map<TransactionId, AccountActivity>) => acts[txId := activity]))
  }

  /** A deposit or a withdrawal leaves only withdrawals in the rejected list. */
  lemma ActivityRulesKeepWithdrawalsOnly(s: ClientState, activity: AccountActivity)
    requires OnlyWithdrawals(s.history.rejectedTxs)
    ensures activity.Deposit? ==>
              OnlyWithdrawals(UpdateDeposit(s, activity, activity.tx, activity.amount).history.rejectedTxs)
    ensures activity.Withdrawal? ==>
              OnlyWithdrawals(UpdateWithdrawal(s, activity, activity.tx, activity.amount).history.rejectedTxs)
  {
  }

  /** The three outcomes of a withdrawal are mutually exclusive. */
  lemma WithdrawalOutcomesExclusive(s: ClientState, amount: MonetaryAmount)
    ensures !(WithdrawalApplies(s, amount) && WithdrawalParked(s, amount))
    ensures WithdrawalApplies(s, amount) ==> amount.LessEq(s.available) && amount.LessEq(s.total)
  {
  }

  /** The recorded activity under `txId`, when there is one. */
  function LookupActivity(s: ClientState, txId: TransactionId): (r: Option<AccountActivity>)
    ensures r.Some? <==> txId in s.history.accountActivity
    ensures r.Some? ==> r.value == s.history.accountActivity[txId]
  {
    if txId in s.history.accountActivity then Some(s.history.accountActivity[txId]) else None
  }

  /** `txId` names a recorded deposit. */
  predicate IsRecordedDeposit(s: ClientState, txId: TransactionId) {
    txId in s.history.accountActivity && s.history.accountActivity[txId].Deposit?
  }

  /**
   * A dispute of `txId`. It has no effect when the account is locked, the
   * transaction is already disputed, or it is not a recorded deposit.
   * Otherwise the deposit's amount moves from available to held, and the id
   * stored inside the deposit joins the disputed set.
   */
  function UpdateDispute(s: ClientState, txId: TransactionId): (r: Option<ClientState>)
    ensures r.None? <==> s.isLocked || txId in s.history.disputedTxs || !IsRecordedDeposit(s, txId)
    ensures r.Some? ==>
              var d := s.history.accountActivity[txId];
              && r.value.available.value == s.available.value - d.amount.value
              && r.value.held.value == s.held.value + d.amount.value
              && r.value.total == s.total && r.value.isLocked == s.isLocked
              && r.value.history.accountActivity == s.history.accountActivity
              && r.value.history.disputedTxs == s.history.disputedTxs + {d.tx}
              && r.value.history.rejectedTxs == s.history.rejectedTxs
    ensures r.Some? && s.Balanced() ==> r.value.Balanced()
  {
    var isAlreadyDisputed := txId in s.history.disputedTxs;
    if s.isLocked || isAlreadyDisputed then None
    else
      match LookupActivity(s, txId)
      case Some(Deposit(_, depositTx, amount)) =>
        Some(s.MapAvail((a: MonetaryAmount) => a.Sub(amount))
              .MapHeld((h: MonetaryAmount) => h.Add(amount))
              .MapHistory((h: TransactionHistory) =>
                 h.MapDisputedTx((disputed: set<TransactionId>) => disputed + {depositTx})))
      case _ => None
  }

  /**
   * The first half of a resolve of the recorded deposit `txId`: its amount
   * moves from held back to available and the id stored inside the deposit
   * leaves the disputed set; nothing else changes.
   */
  function Undispute(s: ClientState, txId: TransactionId): (r: ClientState)
    requires IsRecordedDeposit(s, txId)
    ensures var d := s.history.accountActivity[txId];
            && r.available.Sub(d.amount) == s.available && r.held.Add(d.amount) == s.held
            && r.total == s.total && r.isLocked == s.isLocked
            && r.history.accountActivity == s.history.accountActivity
            && r.history.disputedTxs == s.history.disputedTxs - {d.tx}
            && r.history.rejectedTxs == s.history.rejectedTxs
  {
    var d := s.history.accountActivity[txId];
    s.(available := s.available.Add(d.amount), held := s.held.Sub(d.amount),
       history := s.history.(disputedTxs := s.history.disputedTxs - {d.tx}))
  }

  /**
   * A resolve of `txId`. It has no effect when the account is locked, the
   * transaction is not disputed, or it is not a recorded deposit. Otherwise
   * the deposit's amount moves from held back to available, the id stored
   * inside the deposit leaves the disputed set, and the rejected withdrawals
   * that were waiting on it are retried by the backfill. Held funds, the lock
   * and the recorded activities are as the dispute-undo leaves them; the
   * backfill can only move available and total together.
   */
  function UpdateResolve(s: ClientState, txId: TransactionId): (r: Option<ClientState>)
    requires OnlyWithdrawals(s.history.rejectedTxs)
    ensures r.None? <==> s.isLocked || txId !in s.history.disputedTxs || !IsRecordedDeposit(s, txId)
    ensures r.Some? ==>
              var d := s.history.accountActivity[txId];
              && r.value.held.value == s.held.value - d.amount.value
              && r.value.isLocked == s.isLocked
              && r.value.history.accountActivity == s.history.accountActivity
              && r.value.history.disputedTxs == s.history.disputedTxs - {d.tx}
              && r.value.total.value - r.value.available.value
                 == s.total.value - s.available.value - d.amount.value
              && OnlyWithdrawals(r.value.history.rejectedTxs)
    ensures r.Some? && s.Balanced() ==> r.value.Balanced()
  {
    var isDisputed := txId in s.history.disputedTxs;
    if s.isLocked || !isDisputed then None
    else
      match LookupActivity(s, txId)
      case Some(Deposit(_, depositTx, amount)) =>
        var newState := s.MapAvail((a: MonetaryAmount) => a.Add(amount))
                         .MapHeld((h: MonetaryAmount) => h.Sub(amount))
                         .MapHistory((h: TransactionHistory) =>
                            h.MapDisputedTx((disputed: set<TransactionId>) => disputed - {depositTx}));
        Some(ResolvePrevRejected(depositTx, newState))
      case _ => None
  }

  /**
   * A chargeback of `txId`. It has no effect when the account is locked, the
   * transaction is not disputed, or it is not a recorded deposit. Otherwise
   * total and held fall by the deposit's amount, available is untouched, the
   * account is locked, and the history (the disputed set included) is kept.
   */
  function UpdateChargeback(s: ClientState, txId: TransactionId): (r: Option<ClientState>)
    ensures r.None? <==> s.isLocked || txId !in s.history.disputedTxs || !IsRecordedDeposit(s, txId)
    ensures r.Some? ==>
              var d := s.history.accountActivity[txId];
              && r.value.total.value == s.total.value - d.amount.value
              && r.value.held.value == s.held.value - d.amount.value
              && r.value.available == s.available
              && r.value.isLocked
              && r.value.history == s.history
    ensures r.Some? && s.Balanced() ==> r.value.Balanced()
  {
    var isDisputed := txId in s.history.disputedTxs;
    if s.isLocked || !isDisputed then None
    else
      match LookupActivity(s, txId)
      case Some(Deposit(_, _, amount)) =>
        Some(s.MapTotal((t: MonetaryAmount) => t.Sub(amount))
              .MapHeld((h: MonetaryAmount) => h.Sub(amount))
              .UpdateLocked(true))
      case _ => None
  }

  /** A locked account is frozen: no rule changes it. */
  lemma LockedIsFrozen(s: ClientState, activity: AccountActivity, txId: TransactionId, amount: MonetaryAmount)
    requires s.isLocked
    ensures UpdateDeposit(s, activity, txId, amount) == s
    ensures UpdateWithdrawal(s, activity, txId, amount) == s
    ensures UpdateDispute(s, txId).None?
    ensures UpdateChargeback(s, txId).None?
    ensures OnlyWithdrawals(s.history.rejectedTxs) ==> UpdateResolve(s, txId).None?
  {
  }

  /** Disputing a transaction twice has the same effect as disputing it once. */
  lemma DisputeIdempotent(s: ClientState, txId: TransactionId)
    requires ActivityKeyed(s)
    requires UpdateDispute(s, txId).Some?
    ensures UpdateDispute(UpdateDispute(s, txId).value, txId).None?
  {
    var d := s.history.accountActivity[txId];
    assert d.tx == txId;
  }

  /**
   * A resolve exactly undoes the balance move of the dispute before it, and
   * when no rejected withdrawal was waiting on the transaction, the state is
   * back where it was.
   */
  lemma DisputeThenResolve(s: ClientState, txId: TransactionId)
    requires ActivityKeyed(s) && OnlyWithdrawals(s.history.rejectedTxs)
    requires UpdateDispute(s, txId).Some?
    requires forall i :: 0 <= i < |s.history.rejectedTxs| ==>
               txId !in s.history.rejectedTxs[i].disputedTransactionSnapshot
    ensures UpdateResolve(UpdateDispute(s, txId).value, txId) == Some(s)
  {
    var d := s.history.accountActivity[txId];
    assert d.tx == txId;
    var mid := UpdateDispute(s, txId).value;
    var undone := Undispute(mid, txId);
    assert undone.history.disputedTxs == s.history.disputedTxs;
    assert undone == s;
    ResolveNothingWaiting(txId, s);
  }

  /**
   * A resolve that no rejected withdrawal is waiting on only undoes the
   * dispute: the deposit's amount moves from held back to available and its
   * id leaves the disputed set; the rejected list is kept as it is.
   */
  lemma ResolveWithNothingWaiting(s: ClientState, txId: TransactionId)
    requires ActivityKeyed(s) && OnlyWithdrawals(s.history.rejectedTxs)
    requires !s.isLocked && txId in s.history.disputedTxs && IsRecordedDeposit(s, txId)
    requires forall i :: 0 <= i < |s.history.rejectedTxs| ==>
               txId !in s.history.rejectedTxs[i].disputedTransactionSnapshot
    ensures UpdateResolve(s, txId) == Some(Undispute(s, txId))
  {
    var d := s.history.accountActivity[txId];
    assert d.tx == txId;
    ResolveNothingWaiting(txId, Undispute(s, txId));
  }

  /**
   * A resolve that takes effect is exactly the undo of the dispute followed
   * by the backfill of the withdrawals waiting on the deposit's id, so every
   * fact proved about `ResolvePrevRejected` holds of the resolve.
   */
  lemma ResolveIsUndisputeThenBackfill(s: ClientState, txId: TransactionId)
    requires OnlyWithdrawals(s.history.rejectedTxs)
    requires !s.isLocked && txId in s.history.disputedTxs && IsRecordedDeposit(s, txId)
    ensures OnlyWithdrawals(Undispute(s, txId).history.rejectedTxs)
    ensures UpdateResolve(s, txId)
            == Some(ResolvePrevRejected(s.history.accountActivity[txId].tx, Undispute(s, txId)))
  {
  }

  /**
   * A resolve that takes effect, stated through the reference pass `Applied`:
   * the deposit's amount leaves held; available gains it and total keeps it,
   * and both then lose the amounts of the rejected withdrawals the pass
   * applies from the released funds; exactly those withdrawals leave the
   * rejected list.
   */
  lemma ResolveBackfillsApplied(s: ClientState, txId: TransactionId)
    requires OnlyWithdrawals(s.history.rejectedTxs)
    requires !s.isLocked && txId in s.history.disputedTxs && IsRecordedDeposit(s, txId)
    ensures var d := s.history.accountActivity[txId];
            var rejected := s.history.rejectedTxs;
            var applied := Pick(rejected, Applied(d.tx, rejected, s.available.Add(d.amount)), true);
            var r := UpdateResolve(s, txId);
            && r.Some?
            && r.value.available.value == s.available.value + d.amount.value - SumAmounts(applied)
            && r.value.total.value == s.total.value - SumAmounts(applied)
            && r.value.held.value == s.held.value - d.amount.value
            && multiset(Activities(r.value.history.rejectedTxs))
               == multiset(Activities(rejected)) - multiset(Activities(applied))
  {
    var d := s.history.accountActivity[txId];
    ResolveIsUndisputeThenBackfill(s, txId);
    ResolvePrevRejectedMatchesApplied(d.tx, Undispute(s, txId));
  }

  /** Every rule keeps the state invariant. */
  lemma RulesKeepValid(s: ClientState, activity: AccountActivity, txId: TransactionId)
    requires ValidState(s)
    ensures activity.Deposit? && activity.tx == txId ==>
              ValidState(UpdateDeposit(s, activity, txId, activity.amount))
    ensures activity.Withdrawal? && activity.tx == txId ==>
              ValidState(UpdateWithdrawal(s, activity, txId, activity.amount))
    ensures UpdateDispute(s, txId).Some? ==> ValidState(UpdateDispute(s, txId).value)
    ensures UpdateResolve(s, txId).Some? ==> ValidState(UpdateResolve(s, txId).value)
    ensures UpdateChargeback(s, txId).Some? ==> ValidState(UpdateChargeback(s, txId).value)
  {
  }
}
