/**
 * Identifiers, exact monetary amounts, account activities and the per-client
 * state of the payments engine, with the field-update helpers the transaction
 * rules are written with.
 */
module Types {

  /** A client identifier: the range of an unsigned 16-bit integer. */
  newtype ClientId = x: int | 0 <= x < 0x1_0000

  /** A transaction identifier: the range of an unsigned 32-bit integer. */
  newtype TransactionId = x: int | 0 <= x < 0x1_0000_0000

  /**
   * An exact decimal amount. The model treats the engine's decimal
   * arithmetic as exact; the decimal type's limits (overflow, rounding past
   * 28 significant digits) are not modelled.
   */
  datatype MonetaryAmount = MonetaryAmount(value: real) {

    static function Zero(): (z: MonetaryAmount)
      ensures forall a: MonetaryAmount {:trigger z.Add(a)} :: z.Add(a) == a
    {
      MonetaryAmount(0.0)
    }

    /** Exact addition: the sum of the two underlying values. */
    function Add(rhs: MonetaryAmount): (r: MonetaryAmount)
      ensures r.value == value + rhs.value
    {
      MonetaryAmount(value + rhs.value)
    }

    /** Exact subtraction: adding `rhs` back gives the receiver again. */
    function Sub(rhs: MonetaryAmount): (r: MonetaryAmount)
      ensures r.Add(rhs) == this
      ensures rhs.Add(r) == this
    {
      MonetaryAmount(value - rhs.value)
    }

    /** The derived strict ordering: `rhs` exceeds the receiver by a positive amount. */
    predicate Less(rhs: MonetaryAmount)
      ensures Less(rhs) <==> rhs.Sub(this).value > 0.0
    {
      value < rhs.value
    }

    /** The derived ordering: taking the receiver from `rhs` leaves a non-negative amount. */
    predicate LessEq(rhs: MonetaryAmount)
      ensures LessEq(rhs) <==> rhs.Sub(this).value >= 0.0
    {
      value <= rhs.value
    }
  }

  /** Addition followed by subtraction of the same amount is the identity. */
  lemma AddSubCancel(a: MonetaryAmount, b: MonetaryAmount)
    ensures a.Add(b).Sub(b) == a
    ensures a.Sub(b).Add(b) == a
  {
  }

  /** The ordering is total: exactly one of `a < b`, `a == b`, `b < a` holds, and `<=` is `<` or `==`. */
  lemma OrderingIsTotal(a: MonetaryAmount, b: MonetaryAmount)
    ensures a.Less(b) || a == b || b.Less(a)
    ensures !(a.Less(b) && b.Less(a)) && !(a.Less(b) && a == b)
    ensures a.LessEq(b) <==> a.Less(b) || a == b
  {
  }

  /** A completed money movement, recorded under its transaction id. */
  datatype AccountActivity =
    | Deposit(client: ClientId, tx: TransactionId, amount: MonetaryAmount)
    | Withdrawal(client: ClientId, tx: TransactionId, amount: MonetaryAmount)

  /** The three dispute-management requests; each names an earlier transaction. */
  datatype DisputeManagement =
    | Dispute(client: ClientId, tx: TransactionId)
    | Resolve(client: ClientId, tx: TransactionId)
    | Chargeback(client: ClientId, tx: TransactionId)

  /** One decoded input record. The amount is present exactly for the two activities. */
  datatype Transaction =
    | Activity(activity: AccountActivity)
    | Dispute(management: DisputeManagement)
  {
    /** The client whose state the transaction is applied to. */
    function Client(): ClientId {
      match this
      case Activity(a) => a.client
      case Dispute(d) => d.client
    }
  }

  /**
   * A withdrawal that could not be applied while disputes were open, with the
   * set of transaction ids that were disputed at that moment.
   */
  datatype RejectedActivity = RejectedActivity(
    activity: AccountActivity,
    disputedTransactionSnapshot: set<TransactionId>)

  /** The per-client record of past transactions. */
  datatype TransactionHistory = TransactionHistory(
    accountActivity: map<TransactionId, AccountActivity>,
    disputedTxs: set<TransactionId>,
    rejectedTxs: seq<RejectedActivity>)
  {
    /** The default history: all three collections empty. */
    static function Default(): (h: TransactionHistory)
      ensures |h.accountActivity| == 0 && |h.disputedTxs| == 0 && |h.rejectedTxs| == 0
    {
      TransactionHistory(map[], {}, [])
    }

    /** Replaces the activity map by `f` of it; the other two collections are copied. */
    function MapAccountActivity(f: map<TransactionId, AccountActivity> --> map<TransactionId, AccountActivity>): (r: TransactionHistory)
      requires f.requires(accountActivity)
      ensures r.accountActivity == f(accountActivity)
      ensures r.disputedTxs == disputedTxs && r.rejectedTxs == rejectedTxs
    {
      this.(accountActivity := f(accountActivity))
    }

    /** Replaces the disputed set by `f` of it; the other two collections are copied. */
    function MapDisputedTx(f: set<TransactionId> --> set<TransactionId>): (r: TransactionHistory)
      requires f.requires(disputedTxs)
      ensures r.disputedTxs == f(disputedTxs)
      ensures r.accountActivity == accountActivity && r.rejectedTxs == rejectedTxs
    {
      this.(disputedTxs := f(disputedTxs))
    }

    /** Replaces the rejected list by `f` of it; the other two collections are copied. */
    function MapRejectedActivity(f: seq<RejectedActivity> --> seq<RejectedActivity>): (r: TransactionHistory)
      requires f.requires(rejectedTxs)
      ensures r.rejectedTxs == f(rejectedTxs)
      ensures r.accountActivity == accountActivity && r.disputedTxs == disputedTxs
    {
      this.(rejectedTxs := f(rejectedTxs))
    }
  }

  /** The balances, lock flag and history of one client. */
  datatype ClientState = ClientState(
    available: MonetaryAmount,
    held: MonetaryAmount,
    total: MonetaryAmount,
    isLocked: bool,
    history: TransactionHistory)
  {
    /** The balance invariant: the total is the available plus the held funds. */
    predicate Balanced() {
      total == available.Add(held)
    }

    /** The state of a client not seen before: zero balances, unlocked, empty history. */
    static function Default(): (s: ClientState)
      ensures s.available.value == 0.0 && s.held.value == 0.0 && s.total.value == 0.0
      ensures !s.isLocked
      ensures |s.history.accountActivity| == 0 && |s.history.disputedTxs| == 0
      ensures |s.history.rejectedTxs| == 0
    {
      ClientState(MonetaryAmount.Zero(), MonetaryAmount.Zero(), MonetaryAmount.Zero(), false,
                  TransactionHistory.Default())
    }

    /** Changes `available` to `f` of it and nothing else. */
    function MapAvail(f: MonetaryAmount -> MonetaryAmount): (r: ClientState)
      ensures r.available == f(available)
      ensures r.held == held && r.total == total && r.isLocked == isLocked && r.history == history
    {
      this.(available := f(available))
    }

    /** Changes `total` to `f` of it and nothing else. */
    function MapTotal(f: MonetaryAmount -> MonetaryAmount): (r: ClientState)
      ensures r.total == f(total)
      ensures r.available == available && r.held == held && r.isLocked == isLocked && r.history == history
    {
      this.(total := f(total))
    }

    /** Changes `held` to `f` of it and nothing else. */
    function MapHeld(f: MonetaryAmount -> MonetaryAmount): (r: ClientState)
      ensures r.held == f(held)
      ensures r.available == available && r.total == total && r.isLocked == isLocked && r.history == history
    {
      this.(held := f(held))
    }

    /** Changes `history` to `f` of it and nothing else. */
    function MapHistory(f: TransactionHistory --> TransactionHistory): (r: ClientState)
      requires f.requires(history)
      ensures r.history == f(history)
      ensures r.available == available && r.held == held && r.total == total && r.isLocked == isLocked
    {
      this.(history := f(history))
    }

    /** Sets the lock flag and changes nothing else. */
    function UpdateLocked(locked: bool): (r: ClientState)
      ensures r.isLocked == locked
      ensures r.available == available && r.held == held && r.total == total && r.history == history
    {
      this.(isLocked := locked)
    }
  }

  /** One row of the final ledger. */
  datatype ClientLedger = ClientLedger(
    id: ClientId,
    available: MonetaryAmount,
    held: MonetaryAmount,
    total: MonetaryAmount,
    isLocked: bool)
  {
    /** Projects a client state into a row tagged with `id`, copying the balances and the lock flag. */
    static function FromState(id: ClientId, state: ClientState): (row: ClientLedger)
      ensures row.id == id
      ensures row.available == state.available && row.held == state.held && row.total == state.total
      ensures row.isLocked == state.isLocked
    {
      ClientLedger(id, state.available, state.held, state.total, state.isLocked)
    }
  }

  /** The final ledger: one row per client, in no particular order. */
  datatype Ledger = Ledger(rows: set<ClientLedger>)
}
