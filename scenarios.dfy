/**
 * Worked examples: short transaction sequences for one client with the
 * balances they must produce, including the retroactive backfill and its
 * causal rule.
 */
module Scenarios {
  import opened Types
  import opened Utils
  import opened Backfill
  import opened Transactions
  import opened Engine

  function Amount(v: real): MonetaryAmount {
    MonetaryAmount(v)
  }

  function DepositOf(c: ClientId, t: TransactionId, v: real): AccountActivity {
    Deposit(c, t, Amount(v))
  }

  function WithdrawalOf(c: ClientId, t: TransactionId, v: real): AccountActivity {
    Withdrawal(c, t, Amount(v))
  }

  /** A state holding 10 available, nothing held and an empty history. */
  function Funded(): ClientState {
    ClientState(Amount(10.0), Amount(0.0), Amount(10.0), false, TransactionHistory.Default())
  }

  /** A state with total 10, of which 5 are available and 5 held, and an empty history. */
  function HalfHeld(): ClientState {
    ClientState(Amount(5.0), Amount(5.0), Amount(10.0), false, TransactionHistory.Default())
  }

  /**
   * Withdrawing 6 with 5 available and no dispute open is dropped: total 10,
   * available 5 and held 5 stay, and nothing is recorded.
   */
  lemma WithdrawalUnderAvailableDropped()
    ensures UpdateWithdrawal(HalfHeld(), WithdrawalOf(1, 1, 6.0), 1, Amount(6.0)) == HalfHeld()
  {
  }

  /** Withdrawing exactly the 5 available leaves total 5, available 0 and held 5. */
  lemma WithdrawalWithinAvailableApplied()
    ensures var s := UpdateWithdrawal(HalfHeld(), WithdrawalOf(1, 1, 5.0), 1, Amount(5.0));
            s.total.value == 5.0 && s.available.value == 0.0 && s.held.value == 5.0
  {
    assert WithdrawalApplies(HalfHeld(), Amount(5.0));
  }

  /** Depositing 5 raises total to 15 and available to 10; held stays 5. */
  lemma DepositRaisesTotalAndAvailable()
    ensures var s := UpdateDeposit(HalfHeld(), DepositOf(1, 1, 5.0), 1, Amount(5.0));
            s.total.value == 15.0 && s.available.value == 10.0 && s.held.value == 5.0
  {
  }

  /** A new client deposits 5 then withdraws 3: available and total are 2, nothing held, unlocked. */
  lemma DepositThenWithdrawWithinFunds()
    ensures var s1 := UpdateDeposit(ClientState.Default(), DepositOf(1, 1, 5.0), 1, Amount(5.0));
            var s2 := UpdateWithdrawal(s1, WithdrawalOf(1, 2, 3.0), 2, Amount(3.0));
            s2.available.value == 2.0 && s2.held.value == 0.0 && s2.total.value == 2.0 && !s2.isLocked
  {
  }

  /** A new client deposits 10 then withdraws 20 with no dispute open: the withdrawal leaves no trace. */
  lemma OverdrawnWithdrawalDropped()
    ensures var s1 := UpdateDeposit(ClientState.Default(), DepositOf(1, 1, 10.0), 1, Amount(10.0));
            var s2 := UpdateWithdrawal(s1, WithdrawalOf(1, 2, 20.0), 2, Amount(20.0));
            s2 == s1 && s2.available.value == 10.0 && s2.total.value == 10.0 && s2.history.rejectedTxs == []
  {
  }

  /**
   * From 10 available: deposit 5, dispute it, resolve it. The dispute holds
   * the 5 and the resolve releases them: 15 available, 15 total, nothing
   * held, and the state is the one before the dispute.
   */
  lemma DisputeResolveRoundTrip()
    ensures var s1 := UpdateDeposit(Funded(), DepositOf(1, 1, 5.0), 1, Amount(5.0));
            var s2 := UpdateDispute(s1, 1);
            && s2.Some?
            && s2.value.available.value == 10.0 && s2.value.held.value == 5.0 && s2.value.total.value == 15.0
            && UpdateResolve(s2.value, 1) == Some(s1)
            && s1.available.value == 15.0 && s1.held.value == 0.0 && s1.total.value == 15.0
  {
    var s1 := UpdateDeposit(Funded(), DepositOf(1, 1, 5.0), 1, Amount(5.0));
    assert s1.history.accountActivity == map[1 := DepositOf(1, 1, 5.0)];
    DisputeThenResolve(s1, 1);
  }

  /**
   * From 10 available: deposit 5, dispute it, charge it back. Total is back
   * to 10, nothing is held, available stays 10 and the account is locked.
   */
  lemma DisputeChargeback()
    ensures var s1 := UpdateDeposit(Funded(), DepositOf(1, 1, 5.0), 1, Amount(5.0));
            var s2 := UpdateDispute(s1, 1);
            && s2.Some?
            && var s3 := UpdateChargeback(s2.value, 1);
            && s3.Some?
            && s3.value.available.value == 10.0 && s3.value.held.value == 0.0 && s3.value.total.value == 10.0
            && s3.value.isLocked
  {
  }

  /** Disputing a withdrawal is ignored. */
  lemma DisputeOfWithdrawalIgnored()
    ensures var s1 := UpdateWithdrawal(Funded(), WithdrawalOf(1, 1, 5.0), 1, Amount(5.0));
            && s1.available.value == 5.0 && s1.held.value == 0.0 && s1.total.value == 5.0
            && UpdateDispute(s1, 1).None?
  {
    var s1 := UpdateWithdrawal(Funded(), WithdrawalOf(1, 1, 5.0), 1, Amount(5.0));
    assert WithdrawalApplies(Funded(), Amount(5.0));
    assert s1.history.accountActivity == map[1 := WithdrawalOf(1, 1, 5.0)];
  }

  /** From 10 available: deposit 5, dispute it. The 5 move to held: 10 available, 5 held, 15 total. */
  lemma DisputeHoldsDeposit()
    ensures var s1 := UpdateDeposit(Funded(), DepositOf(1, 1, 5.0), 1, Amount(5.0));
            var s2 := UpdateDispute(s1, 1);
            && s2.Some?
            && s2.value.available.value == 10.0 && s2.value.held.value == 5.0 && s2.value.total.value == 15.0
  {
    var s1 := UpdateDeposit(Funded(), DepositOf(1, 1, 5.0), 1, Amount(5.0));
    assert s1.history.accountActivity == map[1 := DepositOf(1, 1, 5.0)];
  }

  /** From 10 available: deposit 5, dispute a transaction never recorded. It is ignored: 15 available and total. */
  lemma UnknownDisputeIgnored()
    ensures var s1 := UpdateDeposit(Funded(), DepositOf(1, 1, 5.0), 1, Amount(5.0));
            && UpdateDispute(s1, 2).None?
            && s1.available.value == 15.0 && s1.held.value == 0.0 && s1.total.value == 15.0
  {
    var s1 := UpdateDeposit(Funded(), DepositOf(1, 1, 5.0), 1, Amount(5.0));
    assert s1.history.accountActivity == map[1 := DepositOf(1, 1, 5.0)];
  }

  /**
   * From 10 available: deposit 5, dispute it, resolve a transaction never
   * recorded. The resolve is ignored: 10 available, 5 held, 15 total.
   */
  lemma UnknownResolveIgnored()
    ensures var s1 := UpdateDeposit(Funded(), DepositOf(1, 1, 5.0), 1, Amount(5.0));
            var s2 := UpdateDispute(s1, 1);
            && s2.Some? && OnlyWithdrawals(s2.value.history.rejectedTxs)
            && UpdateResolve(s2.value, 2).None?
            && s2.value.available.value == 10.0 && s2.value.held.value == 5.0 && s2.value.total.value == 15.0
  {
    var s1 := UpdateDeposit(Funded(), DepositOf(1, 1, 5.0), 1, Amount(5.0));
    assert s1.history.accountActivity == map[1 := DepositOf(1, 1, 5.0)];
  }

  /**
   * From 10 available: deposit 5, dispute it, charge back a transaction
   * never recorded. The chargeback is ignored: 10 available, 5 held, 15 total.
   */
  lemma UnknownChargebackIgnored()
    ensures var s1 := UpdateDeposit(Funded(), DepositOf(1, 1, 5.0), 1, Amount(5.0));
            var s2 := UpdateDispute(s1, 1);
            && s2.Some?
            && UpdateChargeback(s2.value, 2).None?
            && s2.value.available.value == 10.0 && s2.value.held.value == 5.0 && s2.value.total.value == 15.0
  {
    var s1 := UpdateDeposit(Funded(), DepositOf(1, 1, 5.0), 1, Amount(5.0));
    assert s1.history.accountActivity == map[1 := DepositOf(1, 1, 5.0)];
  }

  /** A second dispute of the same deposit is ignored: 10 available, 5 held, 15 total. */
  lemma SecondDisputeIgnored()
    ensures var s1 := UpdateDeposit(Funded(), DepositOf(1, 1, 5.0), 1, Amount(5.0));
            var s2 := UpdateDispute(s1, 1);
            && s2.Some? && UpdateDispute(s2.value, 1).None?
            && s2.value.available.value == 10.0 && s2.value.held.value == 5.0 && s2.value.total.value == 15.0
  {
  }

  /** From 10 available: deposit 5, resolve it undisputed. It is ignored: 15 available and total, nothing held. */
  lemma UndisputedResolveIgnored()
    ensures var s1 := UpdateDeposit(Funded(), DepositOf(1, 1, 5.0), 1, Amount(5.0));
            && UpdateResolve(s1, 1).None?
            && s1.available.value == 15.0 && s1.held.value == 0.0 && s1.total.value == 15.0
  {
  }

  /** From 10 available: deposit 5, charge it back undisputed. It is ignored: 15 available and total, nothing held. */
  lemma UndisputedChargebackIgnored()
    ensures var s1 := UpdateDeposit(Funded(), DepositOf(1, 1, 5.0), 1, Amount(5.0));
            && UpdateChargeback(s1, 1).None?
            && s1.available.value == 15.0 && s1.held.value == 0.0 && s1.total.value == 15.0 && !s1.isLocked
  {
  }

  /**
   * The state reached by: deposit 100, dispute it, deposit 50, withdraw 80.
   * The withdrawal found only 50 available while deposit 1 was disputed, so
   * it waits with snapshot {1}.
   */
  function WaitingOnFirst(): ClientState {
    ClientState(Amount(50.0), Amount(100.0), Amount(150.0), false,
                TransactionHistory(map[1 := DepositOf(1, 1, 100.0), 2 := DepositOf(1, 2, 50.0)], {1},
                                   [RejectedActivity(WithdrawalOf(1, 3, 80.0), {1})]))
  }

  /** The four steps that lead to `WaitingOnFirst`. */
  lemma ReachWaitingOnFirst()
    ensures var s1 := UpdateDeposit(ClientState.Default(), DepositOf(1, 1, 100.0), 1, Amount(100.0));
            var s2 := UpdateDispute(s1, 1);
            && s2.Some?
            && var s3 := UpdateDeposit(s2.value, DepositOf(1, 2, 50.0), 2, Amount(50.0));
            UpdateWithdrawal(s3, WithdrawalOf(1, 3, 80.0), 3, Amount(80.0)) == WaitingOnFirst()
  {
    var s1 := UpdateDeposit(ClientState.Default(), DepositOf(1, 1, 100.0), 1, Amount(100.0));
    var s2 := UpdateDispute(s1, 1).value;
    assert s1.history.accountActivity == map[1 := DepositOf(1, 1, 100.0)];
    assert s2 == ClientState(Amount(0.0), Amount(100.0), Amount(100.0), false,
                             TransactionHistory(map[1 := DepositOf(1, 1, 100.0)], {1}, []));
    var s3 := UpdateDeposit(s2, DepositOf(1, 2, 50.0), 2, Amount(50.0));
    assert s3 == ClientState(Amount(50.0), Amount(100.0), Amount(150.0), false,
                             TransactionHistory(map[1 := DepositOf(1, 1, 100.0), 2 := DepositOf(1, 2, 50.0)], {1}, []));
    assert WithdrawalParked(s3, Amount(80.0));
  }

  /**
   * The causal rule: the withdrawal waiting on deposit 1 is not retried when
   * another dispute resolves, even though the funds would cover it. From
   * `WaitingOnFirst`: deposit 40, dispute it, resolve it. 90 is available
   * and the withdrawal is still waiting.
   */
  lemma BackfillWaitsForItsOwnDispute()
    ensures var s5 := UpdateDeposit(WaitingOnFirst(), DepositOf(1, 4, 40.0), 4, Amount(40.0));
            var s6 := UpdateDispute(s5, 4);
            && s6.Some? && OnlyWithdrawals(s6.value.history.rejectedTxs)
            && var s7 := UpdateResolve(s6.value, 4);
            && s7.Some?
            && s7.value.available.value == 90.0 && s7.value.held.value == 100.0
            && s7.value.history.rejectedTxs == WaitingOnFirst().history.rejectedTxs
  {
    var s5 := UpdateDeposit(WaitingOnFirst(), DepositOf(1, 4, 40.0), 4, Amount(40.0));
    var s6 := UpdateDispute(s5, 4).value;
    assert s6.history.rejectedTxs == [RejectedActivity(WithdrawalOf(1, 3, 80.0), {1})];
    assert ActivityKeyed(s6);
    ResolveWithNothingWaiting(s6, 4);
  }

  /**
   * Resolving the only open dispute, on which a single parked withdrawal
   * waits, applies that withdrawal when the released deposit covers it:
   * the deposit's amount leaves held, the withdrawal leaves available and
   * total, and the rejected list empties.
   */
  lemma ResolveAppliesSoleWaiting(s: ClientState, txId: TransactionId, deposit: AccountActivity, w: AccountActivity)
    requires !s.isLocked && s.history.disputedTxs == {txId}
    requires txId in s.history.accountActivity && s.history.accountActivity[txId] == deposit
    requires deposit.Deposit? && deposit.tx == txId
    requires w.Withdrawal? && s.history.rejectedTxs == [RejectedActivity(w, {txId})]
    requires w.amount.value <= s.available.value + deposit.amount.value
    ensures OnlyWithdrawals(s.history.rejectedTxs)
    ensures var r := UpdateResolve(s, txId);
            && r.Some?
            && r.value.available.value == s.available.value + deposit.amount.value - w.amount.value
            && r.value.held.value == s.held.value - deposit.amount.value
            && r.value.total.value == s.total.value - w.amount.value
            && r.value.history.rejectedTxs == []
  {
    var mid := Undispute(s, txId);
    assert UpdateResolve(s, txId) == Some(ResolvePrevRejected(txId, mid));
    BackfillAppliesSoleEntry(txId, mid, w);
  }

  /** A backfill over a single entry waiting on the resolved id applies it when available covers it. */
  lemma BackfillAppliesSoleEntry(resolved: TransactionId, s: ClientState, w: AccountActivity)
    requires w.Withdrawal? && s.history.rejectedTxs == [RejectedActivity(w, {resolved})]
    requires w.amount.LessEq(s.available)
    ensures OnlyWithdrawals(s.history.rejectedTxs)
    ensures var r := ResolvePrevRejected(resolved, s);
            && r.available.value == s.available.value - w.amount.value
            && r.total.value == s.total.value - w.amount.value
            && r.held == s.held
            && r.history.rejectedTxs == []
  {
    var rejected := s.history.rejectedTxs;
    assert Activities(rejected) == [w];
    var next, take := StepUnfold(resolved, rejected, s);
    assert take && rejected[1..] == [];
    assert multiset(Activities(next.history.rejectedTxs)) == multiset{};
  }

  /**
   * Resolving deposit 1 instead releases the waiting withdrawal: deposit
   * 100, dispute it, deposit 50, withdraw 80 (parked), resolve 1. The 150
   * available covers the 80, leaving 70 and an empty rejected list.
   */
  lemma BackfillAppliedOnItsOwnResolve()
    ensures var s1 := UpdateDeposit(ClientState.Default(), DepositOf(1, 1, 100.0), 1, Amount(100.0));
            var s2 := UpdateDispute(s1, 1);
            && s2.Some?
            && var s3 := UpdateDeposit(s2.value, DepositOf(1, 2, 50.0), 2, Amount(50.0));
            && var s4 := UpdateWithdrawal(s3, WithdrawalOf(1, 3, 80.0), 3, Amount(80.0));
            && OnlyWithdrawals(s4.history.rejectedTxs)
            && var r := UpdateResolve(s4, 1);
            && r.Some?
            && r.value.available.value == 70.0 && r.value.held.value == 0.0 && r.value.total.value == 70.0
            && r.value.history.rejectedTxs == []
  {
    var s1 := UpdateDeposit(ClientState.Default(), DepositOf(1, 1, 100.0), 1, Amount(100.0));
    var s2 := UpdateDispute(s1, 1).value;
    var s3 := UpdateDeposit(s2, DepositOf(1, 2, 50.0), 2, Amount(50.0));
    assert WithdrawalParked(s3, Amount(80.0));
    var s4 := UpdateWithdrawal(s3, WithdrawalOf(1, 3, 80.0), 3, Amount(80.0));
    ResolveAppliesSoleWaiting(s4, 1, DepositOf(1, 1, 100.0), WithdrawalOf(1, 3, 80.0));
  }

  /**
   * A withdrawal rejected while a deposit is disputed is applied when that
   * dispute resolves: deposit 250 and 10, dispute the 10, withdraw 255
   * (250 available, so it is parked with snapshot {2}), resolve 2. The 260
   * now available covers it: 5 is left, nothing is held and the rejected
   * list is empty.
   */
  lemma BackfillAppliesWaitingWithdrawal()
    ensures var s1 := UpdateDeposit(ClientState.Default(), DepositOf(1, 1, 250.0), 1, Amount(250.0));
            var s2 := UpdateDeposit(s1, DepositOf(1, 2, 10.0), 2, Amount(10.0));
            var s3 := UpdateDispute(s2, 2);
            && s3.Some?
            && var s4 := UpdateWithdrawal(s3.value, WithdrawalOf(1, 3, 255.0), 3, Amount(255.0));
            && s4.available.value == 250.0 && s4.total.value == 260.0
            && s4.history.rejectedTxs == [RejectedActivity(WithdrawalOf(1, 3, 255.0), {2})]
            && OnlyWithdrawals(s4.history.rejectedTxs)
            && var s5 := UpdateResolve(s4, 2);
            && s5.Some?
            && s5.value.available.value == 5.0 && s5.value.held.value == 0.0 && s5.value.total.value == 5.0
            && s5.value.history.rejectedTxs == []
  {
    var s1 := UpdateDeposit(ClientState.Default(), DepositOf(1, 1, 250.0), 1, Amount(250.0));
    var s2 := UpdateDeposit(s1, DepositOf(1, 2, 10.0), 2, Amount(10.0));
    var s3 := UpdateDispute(s2, 2).value;
    assert WithdrawalParked(s3, Amount(255.0));
    var s4 := UpdateWithdrawal(s3, WithdrawalOf(1, 3, 255.0), 3, Amount(255.0));
    ResolveAppliesSoleWaiting(s4, 2, DepositOf(1, 2, 10.0), WithdrawalOf(1, 3, 255.0));
  }

  /** The slices a replay of three transactions walks through. */
  lemma ThreeSlices<T>(a: T, b: T, c: T)
    ensures [a, b, c][0] == a && [a, b, c][1..] == [b, c]
    ensures [b, c][0] == b && [b, c][1..] == [c]
    ensures [c][0] == c && [c][1..] == []
  {
  }

  /**
   * The ledger level: from a client holding 10, a deposit of 5, its dispute
   * and its chargeback leave that client's entry locked with total 10,
   * nothing held, and no other client in the ledger.
   */
  lemma LedgerChargeback()
    ensures var init := map[1 := Funded()];
            var txs := [Transaction.Activity(DepositOf(1, 1, 5.0)),
                        Transaction.Dispute(DisputeManagement.Dispute(1, 1)),
                        Transaction.Dispute(DisputeManagement.Chargeback(1, 1))];
            var final := FoldTransactions(init, txs);
            && final.Keys == {1}
            && final[1].isLocked && final[1].total.value == 10.0 && final[1].held.value == 0.0
            && final[1].available.value == 10.0
  {
    var t1 := Transaction.Activity(DepositOf(1, 1, 5.0));
    var t2 := Transaction.Dispute(DisputeManagement.Dispute(1, 1));
    var t3 := Transaction.Dispute(DisputeManagement.Chargeback(1, 1));
    var s1 := LedgerDepositStep();
    var s2 := LedgerDisputeStep(s1);
    var s3 := LedgerChargebackStep(s2);
    ThreeSlices(t1, t2, t3);
    FoldCons(map[1 := Funded()], [t1, t2, t3]);
    FoldCons(map[1 := s1], [t2, t3]);
    FoldCons(map[1 := s2], [t3]);
  }

  /** The deposit of 5 on top of the funded client. */
  lemma LedgerDepositStep() returns (s1: ClientState)
    ensures ResolveTransaction(Transaction.Activity(DepositOf(1, 1, 5.0)), map[1 := Funded()]) == map[1 := s1]
    ensures AllWithdrawalsOnly(map[1 := s1])
    ensures !s1.isLocked && 1 !in s1.history.disputedTxs
    ensures 1 in s1.history.accountActivity && s1.history.accountActivity[1] == DepositOf(1, 1, 5.0)
    ensures s1.total.value == 15.0 && s1.held.value == 0.0 && s1.available.value == 15.0
  {
    var deposit := DepositOf(1, 1, 5.0);
    s1 := UpdateDeposit(Funded(), deposit, 1, Amount(5.0));
    ActivityOutcome(deposit, map[1 := Funded()]);
  }

  /** The dispute of the deposit: its 5 are held. */
  lemma LedgerDisputeStep(s1: ClientState) returns (s2: ClientState)
    requires AllWithdrawalsOnly(map[1 := s1])
    requires !s1.isLocked && 1 !in s1.history.disputedTxs
    requires 1 in s1.history.accountActivity && s1.history.accountActivity[1] == DepositOf(1, 1, 5.0)
    ensures ResolveTransaction(Transaction.Dispute(DisputeManagement.Dispute(1, 1)), map[1 := s1]) == map[1 := s2]
    ensures AllWithdrawalsOnly(map[1 := s2])
    ensures !s2.isLocked && 1 in s2.history.disputedTxs
    ensures 1 in s2.history.accountActivity && s2.history.accountActivity[1] == DepositOf(1, 1, 5.0)
    ensures s2.total == s1.total && s2.held.value == s1.held.value + 5.0
    ensures s2.available.value == s1.available.value - 5.0
  {
    s2 := UpdateDispute(s1, 1).value;
    ManagementOutcome(DisputeManagement.Dispute(1, 1), map[1 := s1]);
  }

  /** The chargeback of the disputed deposit: its 5 leave held and total, and the account locks. */
  lemma LedgerChargebackStep(s2: ClientState) returns (s3: ClientState)
    requires AllWithdrawalsOnly(map[1 := s2])
    requires !s2.isLocked && 1 in s2.history.disputedTxs
    requires 1 in s2.history.accountActivity && s2.history.accountActivity[1] == DepositOf(1, 1, 5.0)
    ensures ResolveTransaction(Transaction.Dispute(DisputeManagement.Chargeback(1, 1)), map[1 := s2]) == map[1 := s3]
    ensures s3.isLocked && s3.available == s2.available
    ensures s3.total.value == s2.total.value - 5.0 && s3.held.value == s2.held.value - 5.0
  {
    s3 := UpdateChargeback(s2, 1).value;
    ManagementOutcome(DisputeManagement.Chargeback(1, 1), map[1 := s2]);
  }
}
