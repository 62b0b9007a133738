/**
 * The ledger: the transaction stream is folded, in order, into a map from
 * client id to client state, and the final map is projected into one ledger
 * row per client.
 */
module Engine {
  import opened Types
  import opened Utils
  import opened Backfill
  import opened Transactions

  /** Every client's rejected list holds only withdrawals, so the backfill never panics. */
  predicate AllWithdrawalsOnly(ledger: map<ClientId, ClientState>) {
    forall c :: c in ledger ==> OnlyWithdrawals(ledger[c].history.rejectedTxs)
  }

  /** Every client's state satisfies the state invariant. */
  predicate ValidLedger(ledger: map<ClientId, ClientState>) {
    forall c :: c in ledger ==> ValidState(ledger[c])
  }

  /** Two ledgers hold the same entry (or none) for client `c`. */
  predicate AgreeOn(l1: map<ClientId, ClientState>, l2: map<ClientId, ClientState>, c: ClientId) {
    (c in l1 <==> c in l2) && (c in l1 ==> l1[c] == l2[c])
  }

  /** The default state has no recorded activity, so no dispute-management rule applies to it. */
  lemma DefaultHasNoActivity()
    ensures forall txId :: !IsRecordedDeposit(ClientState.Default(), txId)
  {
    var d := ClientState.Default();
    assert d.history.accountActivity == map[];
  }

  /**
   * Applies one transaction. The named client's state (the default state if
   * the client is new) goes through its rule. No other client's entry
   * changes, and a client enters the map only through a deposit or a
   * withdrawal.
   */
  function ResolveTransaction(transaction: Transaction, ledger: map<ClientId, ClientState>): (r: map<ClientId, ClientState>)
    requires AllWithdrawalsOnly(ledger)
    ensures r.Keys == ledger.Keys + (if transaction.Activity? then {transaction.Client()} else {})
    ensures forall c :: c in ledger && c != transaction.Client() ==> r[c] == ledger[c]
    ensures AllWithdrawalsOnly(r)
  {
    match transaction
    case Activity(activity) => ResolveActivity(activity, ledger)
    case Dispute(management) => ResolveManagement(management, ledger)
  }

  /** A deposit or a withdrawal: the client's rule result is always stored. */
  function ResolveActivity(activity: AccountActivity, ledger: map<ClientId, ClientState>): (r: map<ClientId, ClientState>)
    requires AllWithdrawalsOnly(ledger)
    ensures r.Keys == ledger.Keys + {activity.client}
    ensures forall c :: c in ledger && c != activity.client ==> r[c] == ledger[c]
    ensures AllWithdrawalsOnly(r)
  {
    var cId := activity.client;
    var clientState := GetOrDefault(ledger, cId, ClientState.Default());
    var newState :=
      match activity
      case Deposit(_, txId, amount) => UpdateDeposit(clientState, activity, txId, amount)
      case Withdrawal(_, txId, amount) => UpdateWithdrawal(clientState, activity, txId, amount);
    LookupKeepsWithdrawalsOnly(ledger, cId);
    ActivityRulesKeepWithdrawalsOnly(clientState, activity);
    StoreKeepsWithdrawalsOnly(ledger, cId, newState);
    ledger[cId := newState]
  }

  /** The state a rule starts from, stored or default, holds only withdrawals in its rejected list. */
  lemma LookupKeepsWithdrawalsOnly(ledger: map<ClientId, ClientState>, c: ClientId)
    requires AllWithdrawalsOnly(ledger)
    ensures OnlyWithdrawals(GetOrDefault(ledger, c, ClientState.Default()).history.rejectedTxs)
  {
  }

  /**
   * Storing a state under `c` adds `c` to the clients, leaves every other
   * entry alone, and keeps the invariant when the stored state holds only
   * withdrawals in its rejected list.
   */
  lemma StoreKeepsWithdrawalsOnly(ledger: map<ClientId, ClientState>, c: ClientId, state: ClientState)
    requires AllWithdrawalsOnly(ledger)
    ensures ledger[c := state].Keys == ledger.Keys + {c}
    ensures forall d :: d in ledger && d != c ==> ledger[c := state][d] == ledger[d]
    ensures OnlyWithdrawals(state.history.rejectedTxs) ==> AllWithdrawalsOnly(ledger[c := state])
  {
  }

  /**
   * A dispute, resolve or chargeback: the client's rule result is stored
   * only when the rule took effect; otherwise the ledger is returned as it
   * was, so a request naming an unknown client adds no entry.
   */
  function ResolveManagement(management: DisputeManagement, ledger: map<ClientId, ClientState>): (r: map<ClientId, ClientState>)
    requires AllWithdrawalsOnly(ledger)
    ensures r.Keys == ledger.Keys
    ensures forall c :: c in ledger && c != management.client ==> r[c] == ledger[c]
    ensures AllWithdrawalsOnly(r)
  {
    var cId := management.client;
    var clientState := GetOrDefault(ledger, cId, ClientState.Default());
    DefaultHasNoActivity();
    var newState :=
      match management
      case Dispute(_, txId) => UpdateDispute(clientState, txId)
      case Resolve(_, txId) => UpdateResolve(clientState, txId)
      case Chargeback(_, txId) => UpdateChargeback(clientState, txId);
    LookupKeepsWithdrawalsOnly(ledger, cId);
    match newState
    case Some(state) =>
      StoreKeepsWithdrawalsOnly(ledger, cId, state);
      ledger[cId := state]
    case None => ledger
  }

  /** A deposit or a withdrawal stores its rule's result, computed from the stored or default state. */
  lemma ActivityOutcome(activity: AccountActivity, ledger: map<ClientId, ClientState>)
    requires AllWithdrawalsOnly(ledger)
    ensures var s := GetOrDefault(ledger, activity.client, ClientState.Default());
            ResolveTransaction(Transaction.Activity(activity), ledger)
            == ledger[activity.client := match activity
                                         case Deposit(_, txId, amount) => UpdateDeposit(s, activity, txId, amount)
                                         case Withdrawal(_, txId, amount) => UpdateWithdrawal(s, activity, txId, amount)]
  {
  }

  /**
   * A dispute, resolve or chargeback stores its rule's result when the rule
   * takes effect on the stored or default state, and changes nothing otherwise.
   */
  lemma ManagementOutcome(management: DisputeManagement, ledger: map<ClientId, ClientState>)
    requires AllWithdrawalsOnly(ledger)
    ensures var s := GetOrDefault(ledger, management.client, ClientState.Default());
            OnlyWithdrawals(s.history.rejectedTxs)
            && var outcome := match management
                              case Dispute(_, txId) => UpdateDispute(s, txId)
                              case Resolve(_, txId) => UpdateResolve(s, txId)
                              case Chargeback(_, txId) => UpdateChargeback(s, txId);
               ResolveTransaction(Transaction.Dispute(management), ledger)
               == if outcome.Some? then ledger[management.client := outcome.value] else ledger
  {
    LookupKeepsWithdrawalsOnly(ledger, management.client);
    DefaultHasNoActivity();
    assert ResolveTransaction(Transaction.Dispute(management), ledger) == ResolveManagement(management, ledger);
  }

  /** The clients named by a deposit or a withdrawal somewhere in `txs`. */
  function ActivityClients(txs: seq<Transaction>): (cs: set<ClientId>)
    ensures forall i :: 0 <= i < |txs| && txs[i].Activity? ==> txs[i].Client() in cs
    ensures forall c :: c in cs ==> exists i :: 0 <= i < |txs| && txs[i].Activity? && txs[i].Client() == c
    decreases |txs|
  {
    if txs == [] then {}
    else (if txs[0].Activity? then {txs[0].Client()} else {}) + ActivityClients(txs[1..])
  }

  /**
   * The fold of the stream into the ledger, left to right. The clients in
   * the result are those already there and those named by a deposit or a
   * withdrawal; the backfill precondition holds throughout.
   */
  function FoldTransactions(ledger: map<ClientId, ClientState>, txs: seq<Transaction>): (r: map<ClientId, ClientState>)
    requires AllWithdrawalsOnly(ledger)
    ensures r.Keys == ledger.Keys + ActivityClients(txs)
    ensures AllWithdrawalsOnly(r)
    decreases |txs|
  {
    if txs == [] then ledger
    else
      var next := ResolveTransaction(txs[0], ledger);
      ActivityClientsCons(txs);
      FoldTransactions(next, txs[1..])
  }

  /** The clients of a non-empty list: the first transaction's (when it is an activity) and the rest's. */
  lemma ActivityClientsCons(txs: seq<Transaction>)
    requires txs != []
    ensures ActivityClients(txs)
            == (if txs[0].Activity? then {txs[0].Client()} else {}) + ActivityClients(txs[1..])
  {
  }

  /** One unfolding of the replay: the first transaction, then the rest from where it leaves the ledger. */
  lemma FoldCons(ledger: map<ClientId, ClientState>, txs: seq<Transaction>)
    requires AllWithdrawalsOnly(ledger) && txs != []
    ensures AllWithdrawalsOnly(ResolveTransaction(txs[0], ledger))
    ensures FoldTransactions(ledger, txs) == FoldTransactions(ResolveTransaction(txs[0], ledger), txs[1..])
  {
  }

  /**
   * Replays `txs` on top of `init` and projects every final entry into a row
   * tagged with its client id; each row is exactly the projection of its
   * client's final state.
   */
  function CreateLedgerWithInit(init: map<ClientId, ClientState>, txs: seq<Transaction>): (r: Ledger)
    requires AllWithdrawalsOnly(init)
    ensures var final := FoldTransactions(init, txs);
            && (forall row :: row in r.rows ==> row.id in final && row == ClientLedger.FromState(row.id, final[row.id]))
            && (forall c :: c in final ==> ClientLedger.FromState(c, final[c]) in r.rows)
  {
    var final := FoldTransactions(init, txs);
    Ledger(set c | c in final :: ClientLedger.FromState(c, final[c]))
  }

  /**
   * The ledger of a stream replayed from no clients at all: one row per
   * client named by a deposit or a withdrawal.
   */
  function CreateLedger(txs: seq<Transaction>): (r: Ledger)
    ensures forall row :: row in r.rows ==> row.id in ActivityClients(txs)
    ensures forall c :: c in ActivityClients(txs) ==> exists row :: row in r.rows && row.id == c
  {
    var empty: map<ClientId, ClientState> := map[];
    var r := CreateLedgerWithInit(empty, txs);
    assert forall c :: c in ActivityClients(txs) ==> ClientLedger.FromState(c, FoldTransactions(empty, txs)[c]) in r.rows;
    r
  }

  /** One transaction keeps every client's state valid. */
  lemma ResolveTransactionKeepsValid(transaction: Transaction, ledger: map<ClientId, ClientState>)
    requires ValidLedger(ledger)
    ensures ValidLedger(ResolveTransaction(transaction, ledger))
  {
    var cId := transaction.Client();
    var s := GetOrDefault(ledger, cId, ClientState.Default());
    DefaultIsValid();
    assert ValidState(s);
    match transaction
    case Activity(activity) =>
      RulesKeepValid(s, activity, activity.tx);
    case Dispute(management) =>
      RulesKeepValid(s, Deposit(cId, management.tx, MonetaryAmount.Zero()), management.tx);
  }

  /** The whole fold keeps every client's state valid. */
  lemma {:induction false} FoldKeepsValid(ledger: map<ClientId, ClientState>, txs: seq<Transaction>)
    requires ValidLedger(ledger)
    ensures ValidLedger(FoldTransactions(ledger, txs))
    decreases |txs|
  {
    if txs != [] {
      ResolveTransactionKeepsValid(txs[0], ledger);
      FoldKeepsValid(ResolveTransaction(txs[0], ledger), txs[1..]);
    }
  }

  /** A transaction for a locked client leaves the ledger as it was. */
  lemma LockedClientUntouched(transaction: Transaction, ledger: map<ClientId, ClientState>)
    requires AllWithdrawalsOnly(ledger)
    requires transaction.Client() in ledger && ledger[transaction.Client()].isLocked
    ensures ResolveTransaction(transaction, ledger) == ledger
  {
    var s := ledger[transaction.Client()];
    match transaction
    case Activity(activity) =>
      ActivityOutcome(activity, ledger);
      LockedIsFrozen(s, activity, activity.tx, activity.amount);
      assert ResolveTransaction(transaction, ledger) == ledger[activity.client := s];
      assert ledger[activity.client := s] == ledger;
    case Dispute(management) =>
      ManagementOutcome(management, ledger);
      LockedIsFrozen(s, Deposit(transaction.Client(), management.tx, MonetaryAmount.Zero()), management.tx, MonetaryAmount.Zero());
      assert ResolveTransaction(transaction, ledger) == ledger;
  }

  /** Once a client is locked, no later transaction changes its state. */
  lemma {:induction false} LockedClientFrozen(ledger: map<ClientId, ClientState>, txs: seq<Transaction>, c: ClientId)
    requires AllWithdrawalsOnly(ledger)
    requires c in ledger && ledger[c].isLocked
    ensures c in FoldTransactions(ledger, txs) && FoldTransactions(ledger, txs)[c] == ledger[c]
    decreases |txs|
  {
    if txs != [] {
      var next := ResolveTransaction(txs[0], ledger);
      if txs[0].Client() == c {
        LockedClientUntouched(txs[0], ledger);
      }
      LockedClientFrozen(next, txs[1..], c);
    }
  }

  /** The outcome of a transaction for its client depends only on that client's entry. */
  lemma ResolveTransactionLocal(transaction: Transaction, l1: map<ClientId, ClientState>, l2: map<ClientId, ClientState>)
    requires AllWithdrawalsOnly(l1) && AllWithdrawalsOnly(l2)
    requires AgreeOn(l1, l2, transaction.Client())
    ensures AgreeOn(ResolveTransaction(transaction, l1), ResolveTransaction(transaction, l2), transaction.Client())
  {
    var c := transaction.Client();
    assert GetOrDefault(l1, c, ClientState.Default()) == GetOrDefault(l2, c, ClientState.Default());
  }

  /** The transactions of `txs` that name client `c`, in order. */
  function ForClient(txs: seq<Transaction>, c: ClientId): (r: seq<Transaction>)
    ensures |r| <= |txs|
    ensures forall i :: 0 <= i < |r| ==> r[i].Client() == c
    ensures forall i :: 0 <= i < |txs| && txs[i].Client() == c ==> txs[i] in r
    decreases |txs|
  {
    if txs == [] then []
    else (if txs[0].Client() == c then [txs[0]] else []) + ForClient(txs[1..], c)
  }

  /** Folding a stream that starts with `t` first applies `t`. */
  lemma FoldStep(ledger: map<ClientId, ClientState>, t: Transaction, rest: seq<Transaction>)
    requires AllWithdrawalsOnly(ledger)
    ensures FoldTransactions(ledger, [t] + rest) == FoldTransactions(ResolveTransaction(t, ledger), rest)
  {
    assert ([t] + rest)[0] == t && ([t] + rest)[1..] == rest;
  }

  /**
   * Clients are independent: a client's final entry is what replaying only
   * that client's transactions gives, from any ledger that agrees on it.
   */
  lemma {:induction false} ClientIndependence(l1: map<ClientId, ClientState>, l2: map<ClientId, ClientState>, txs: seq<Transaction>, c: ClientId)
    requires AllWithdrawalsOnly(l1) && AllWithdrawalsOnly(l2)
    requires AgreeOn(l1, l2, c)
    ensures AgreeOn(FoldTransactions(l1, txs), FoldTransactions(l2, ForClient(txs, c)), c)
    decreases |txs|, 1
  {
    if txs != [] {
      if txs[0].Client() == c {
        IndependenceOwn(l1, l2, txs, c);
      } else {
        IndependenceOther(l1, l2, txs, c);
      }
    }
  }

  /** The step of `ClientIndependence` for a transaction of client `c`: both sides apply it. */
  lemma {:induction false} IndependenceOwn(l1: map<ClientId, ClientState>, l2: map<ClientId, ClientState>, txs: seq<Transaction>, c: ClientId)
    requires AllWithdrawalsOnly(l1) && AllWithdrawalsOnly(l2)
    requires AgreeOn(l1, l2, c)
    requires txs != [] && txs[0].Client() == c
    ensures AgreeOn(FoldTransactions(l1, txs), FoldTransactions(l2, ForClient(txs, c)), c)
    decreases |txs|, 0
  {
    var t := txs[0];
    ResolveTransactionLocal(t, l1, l2);
    var n1 := ResolveTransaction(t, l1);
    var n2 := ResolveTransaction(t, l2);
    ClientIndependence(n1, n2, txs[1..], c);
    assert ForClient(txs, c) == [t] + ForClient(txs[1..], c);
    FoldStep(l2, t, ForClient(txs[1..], c));
  }

  /** The step of `ClientIndependence` for a transaction of another client: it leaves `c` alone. */
  lemma {:induction false} IndependenceOther(l1: map<ClientId, ClientState>, l2: map<ClientId, ClientState>, txs: seq<Transaction>, c: ClientId)
    requires AllWithdrawalsOnly(l1) && AllWithdrawalsOnly(l2)
    requires AgreeOn(l1, l2, c)
    requires txs != [] && txs[0].Client() != c
    ensures AgreeOn(FoldTransactions(l1, txs), FoldTransactions(l2, ForClient(txs, c)), c)
    decreases |txs|, 0
  {
    var n1 := ResolveTransaction(txs[0], l1);
    assert AgreeOn(n1, l2, c);
    ClientIndependence(n1, l2, txs[1..], c);
    assert ForClient(txs, c) == ForClient(txs[1..], c);
  }

  /** In particular, replaying the whole stream or only client `c`'s part of it gives `c` the same entry. */
  lemma ClientSeesOnlyItsOwn(ledger: map<ClientId, ClientState>, txs: seq<Transaction>, c: ClientId)
    requires AllWithdrawalsOnly(ledger)
    ensures AgreeOn(FoldTransactions(ledger, txs), FoldTransactions(ledger, ForClient(txs, c)), c)
  {
    ClientIndependence(ledger, ledger, txs, c);
  }

  /** Disputing the same transaction twice in a row equals disputing it once. */
  lemma DisputeTwiceIsOnce(ledger: map<ClientId, ClientState>, c: ClientId, txId: TransactionId)
    requires ValidLedger(ledger)
    ensures var d := Transaction.Dispute(DisputeManagement.Dispute(c, txId));
            ValidLedger(ResolveTransaction(d, ledger))
            && ResolveTransaction(d, ResolveTransaction(d, ledger)) == ResolveTransaction(d, ledger)
  {
    var d := Transaction.Dispute(DisputeManagement.Dispute(c, txId));
    var s := GetOrDefault(ledger, c, ClientState.Default());
    DefaultIsValid();
    assert ActivityKeyed(s);
    ResolveTransactionKeepsValid(d, ledger);
    var once := ResolveTransaction(d, ledger);
    if UpdateDispute(s, txId).Some? {
      DisputeIdempotent(s, txId);
      assert once[c] == UpdateDispute(s, txId).value;
    } else {
      assert once == ledger;
    }
  }

  /**
   * Every row of a ledger replayed from valid states is balanced, and no two
   * rows share a client id.
   */
  lemma CreateLedgerRowsSound(init: map<ClientId, ClientState>, txs: seq<Transaction>)
    requires ValidLedger(init)
    ensures var rows := CreateLedgerWithInit(init, txs).rows;
            && (forall row :: row in rows ==> row.total == row.available.Add(row.held))
            && (forall r1, r2 :: r1 in rows && r2 in rows && r1.id == r2.id ==> r1 == r2)
  {
    FoldKeepsValid(init, txs);
  }

  /** The ledger of a fresh replay: balanced rows with distinct client ids. */
  lemma CreateLedgerRowsBalanced(txs: seq<Transaction>)
    ensures var rows := CreateLedger(txs).rows;
            && (forall row :: row in rows ==> row.total == row.available.Add(row.held))
            && (forall r1, r2 :: r1 in rows && r2 in rows && r1.id == r2.id ==> r1 == r2)
  {
    CreateLedgerRowsSound(map[], txs);
  }
}
