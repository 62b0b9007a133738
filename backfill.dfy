/**
 * Retroactive backfill: after a dispute is resolved, the withdrawals that were
 * rejected while that dispute was open are retried, in the order they were
 * rejected, against the funds the resolution released.
 */
module Backfill {
  import opened Types
  import opened Utils

  /** The activities of a list of rejected entries, in order. */
  function Activities(rs: seq<RejectedActivity>): (acts: seq<AccountActivity>)
    ensures |acts| == |rs|
    ensures forall i :: 0 <= i < |rs| ==> acts[i] == rs[i].activity
  {
    seq(|rs|, i requires 0 <= i < |rs| => rs[i].activity)
  }

  /** Every entry holds a withdrawal: the only kind the rejection path ever stores. */
  predicate OnlyWithdrawals(rs: seq<RejectedActivity>) {
    forall i :: 0 <= i < |rs| ==> rs[i].activity.Withdrawal?
  }

  /** No two entries hold structurally equal activities (true when transaction ids are unique). */
  predicate DistinctActivities(rs: seq<RejectedActivity>) {
    forall i, j :: 0 <= i < j < |rs| ==> rs[i].activity != rs[j].activity
  }

  /** The index of the first entry whose activity equals `a`, if there is one. */
  function FindRejected(rej: seq<RejectedActivity>, a: AccountActivity): (r: Option<nat>)
    ensures r.Some? ==> r.value < |rej| && rej[r.value].activity == a
    ensures r.Some? ==> forall j :: 0 <= j < r.value ==> rej[j].activity != a
    ensures r.None? ==> forall j :: 0 <= j < |rej| ==> rej[j].activity != a
  {
    if rej == [] then None
    else if rej[0].activity == a then Some(0)
    else
      match FindRejected(rej[1..], a)
      case None => None
      case Some(i) => Some(i + 1)
  }

  /** The amount of a stored withdrawal; any other activity is a runtime panic, so it is excluded. */
  function WithdrawAmount(a: AccountActivity): (amount: MonetaryAmount)
    requires a.Withdrawal?
    ensures a == Withdrawal(a.client, a.tx, amount)
  {
    match a
    case Withdrawal(_, _, amount) => amount
  }

  /** Removing one entry removes exactly its activity from the activities. */
  lemma ActivitiesRemoveIdx(s: seq<RejectedActivity>, idx: nat)
    requires idx < |s|
    ensures multiset(Activities(RemoveIdx(s, idx))) == multiset(Activities(s)) - multiset{s[idx].activity}
  {
    var acts := Activities(s);
    assert Activities(RemoveIdx(s, idx)) == RemoveIdx(acts, idx);
  }

  /**
   * One step of the backfill fold: retries `rejected` against the accumulator.
   * It is applied when the just-resolved transaction was disputed when the
   * withdrawal was rejected and the amount is within the accumulator's
   * available funds; otherwise the accumulator is returned unchanged.
   */
  function BackfillStep(resolved: TransactionId, acc: ClientState, rejected: RejectedActivity): (r: ClientState)
    requires rejected.activity.Withdrawal?
    requires rejected.activity in Activities(acc.history.rejectedTxs)
    ensures r.held == acc.held && r.isLocked == acc.isLocked
    ensures r.history.accountActivity == acc.history.accountActivity
    ensures r.history.disputedTxs == acc.history.disputedTxs
    ensures var amount := rejected.activity.amount;
            if resolved in rejected.disputedTransactionSnapshot && amount.LessEq(acc.available) then
              && r.available == acc.available.Sub(amount)
              && r.total == acc.total.Sub(amount)
              && r.available.value >= 0.0
              && multiset(Activities(r.history.rejectedTxs))
                 == multiset(Activities(acc.history.rejectedTxs)) - multiset{rejected.activity}
            else
              r == acc
  {
    var occurredBeforeResolved := resolved in rejected.disputedTransactionSnapshot;
    var withdrawAmount := WithdrawAmount(rejected.activity);
    var withinAvail := withdrawAmount.LessEq(acc.available);
    if occurredBeforeResolved && withinAvail then
      var a := rejected.activity;
      var rej0 := acc.history.rejectedTxs;
      var idx := FindRejected(rej0, a).Unwrap();
      ActivitiesRemoveIdx(rej0, idx);
      acc.MapAvail((x: MonetaryAmount) => x.Sub(withdrawAmount))
         .MapTotal((t: MonetaryAmount) => t.Sub(withdrawAmount))
         .MapHistory((h: TransactionHistory) requires a in Activities(h.rejectedTxs) =>
            h.MapRejectedActivity((rej: seq<RejectedActivity>) requires a in Activities(rej) =>
              RemoveIdx(rej, FindRejected(rej, a).Unwrap())))
    else
      acc
  }

  /** An applied step removes the first entry holding the withdrawn activity. */
  lemma BackfillStepRemovesFirst(resolved: TransactionId, acc: ClientState, rejected: RejectedActivity)
    requires rejected.activity.Withdrawal?
    requires rejected.activity in Activities(acc.history.rejectedTxs)
    requires resolved in rejected.disputedTransactionSnapshot
    requires rejected.activity.amount.LessEq(acc.available)
    ensures var found := FindRejected(acc.history.rejectedTxs, rejected.activity);
            found.Some? && BackfillStep(resolved, acc, rejected).history.rejectedTxs
                           == RemoveIdx(acc.history.rejectedTxs, found.value)
  {
  }

  /** The entries of `rs` whose mask bit equals `want`, in order. */
  function Pick(rs: seq<RejectedActivity>, mask: seq<bool>, want: bool): (r: seq<RejectedActivity>)
    requires |mask| == |rs|
    ensures |r| <= |rs|
    decreases |rs|
  {
    if rs == [] then []
    else (if mask[0] == want then [rs[0]] else []) + Pick(rs[1..], mask[1..], want)
  }

  /** The sum of the amounts of the activities of `rs`. */
  function SumAmounts(rs: seq<RejectedActivity>): real
    decreases |rs|
  {
    if rs == [] then 0.0 else rs[0].activity.amount.value + SumAmounts(rs[1..])
  }

  /**
   * The reference specification of the backfill decision: which entries of
   * `pending` a single left-to-right pass applies, starting from `available`
   * funds. An entry is applied when its snapshot holds the resolved
   * transaction and its amount is within the funds left by the entries
   * applied before it; only causally eligible entries are ever applied.
   */
  function Applied(resolved: TransactionId, pending: seq<RejectedActivity>, available: MonetaryAmount): (mask: seq<bool>)
    ensures |mask| == |pending|
    ensures forall k :: 0 <= k < |pending| && mask[k] ==> resolved in pending[k].disputedTransactionSnapshot
    decreases |pending|
  {
    if pending == [] then []
    else
      var p := pending[0];
      var take := resolved in p.disputedTransactionSnapshot && p.activity.amount.LessEq(available);
      [take] + Applied(resolved, pending[1..], if take then available.Sub(p.activity.amount) else available)
  }

  /**
   * Whenever the pass applies anything, the applied amounts together fit in
   * the funds it started from; when it applies nothing, nothing is picked.
   */
  lemma {:induction false} AppliedFitsAvailable(resolved: TransactionId, pending: seq<RejectedActivity>, available: MonetaryAmount)
    ensures var mask := Applied(resolved, pending, available);
            && (true in mask ==> SumAmounts(Pick(pending, mask, true)) <= available.value)
            && (true !in mask ==> Pick(pending, mask, true) == [])
    decreases |pending|
  {
    if pending != [] {
      var p := pending[0];
      var take := resolved in p.disputedTransactionSnapshot && p.activity.amount.LessEq(available);
      var next := if take then available.Sub(p.activity.amount) else available;
      var rest := Applied(resolved, pending[1..], next);
      var mask := Applied(resolved, pending, available);
      assert mask == [take] + rest && mask[1..] == rest;
      AppliedFitsAvailable(resolved, pending[1..], next);
      var picked := Pick(pending, mask, true);
      var restPicked := Pick(pending[1..], rest, true);
      if take {
        assert picked == [p] + restPicked;
        assert picked[1..] == restPicked;
      } else {
        assert picked == restPicked;
      }
    }
  }

  /**
   * The fold's invariant: every activity still to be processed is still in
   * the accumulator's rejected list, so the `unwrap` of the search for it
   * cannot fail, and one step keeps this true for the rest.
   */
  lemma PendingStaysAvailable(resolved: TransactionId, pending: seq<RejectedActivity>, acc: ClientState)
    requires pending != [] && OnlyWithdrawals(pending)
    requires multiset(Activities(pending)) <= multiset(Activities(acc.history.rejectedTxs))
    ensures pending[0].activity in Activities(acc.history.rejectedTxs)
    ensures multiset(Activities(pending[1..]))
            <= multiset(Activities(BackfillStep(resolved, acc, pending[0]).history.rejectedTxs))
  {
    var p := pending[0];
    var accActs := multiset(Activities(acc.history.rejectedTxs));
    assert Activities(pending) == [p.activity] + Activities(pending[1..]);
    assert p.activity in accActs;
    var next := BackfillStep(resolved, acc, p);
    var nextActs := multiset(Activities(next.history.rejectedTxs));
    var restActs := multiset(Activities(pending[1..]));
    if next != acc {
      assert nextActs == accActs - multiset{p.activity};
      assert restActs + multiset{p.activity} <= accActs;
    }
  }

  /**
   * The backfill fold over `pending`, threading the accumulator state. It
   * moves no held funds, keeps `total - available` fixed, records nothing
   * and only ever takes activities out of the rejected list.
   */
  function BackfillFold(resolved: TransactionId, pending: seq<RejectedActivity>, acc: ClientState): (r: ClientState)
    requires OnlyWithdrawals(pending)
    requires multiset(Activities(pending)) <= multiset(Activities(acc.history.rejectedTxs))
    ensures r.held == acc.held && r.isLocked == acc.isLocked
    ensures r.history.accountActivity == acc.history.accountActivity
    ensures r.history.disputedTxs == acc.history.disputedTxs
    ensures r.total.value - r.available.value == acc.total.value - acc.available.value
    ensures multiset(Activities(r.history.rejectedTxs)) <= multiset(Activities(acc.history.rejectedTxs))
    decreases |pending|
  {
    if pending == [] then acc
    else
      PendingStaysAvailable(resolved, pending, acc);
      var next := BackfillStep(resolved, acc, pending[0]);
      StepShrinks(resolved, acc, pending[0]);
      BackfillFold(resolved, pending[1..], next)
  }

  /** A step keeps `total - available` fixed and only takes activities out of the rejected list. */
  lemma StepShrinks(resolved: TransactionId, acc: ClientState, rejected: RejectedActivity)
    requires rejected.activity.Withdrawal?
    requires rejected.activity in Activities(acc.history.rejectedTxs)
    ensures var r := BackfillStep(resolved, acc, rejected);
            && r.total.value - r.available.value == acc.total.value - acc.available.value
            && multiset(Activities(r.history.rejectedTxs)) <= multiset(Activities(acc.history.rejectedTxs))
  {
  }

  /**
   * One unfolding of the fold, stated without the step itself: whether the
   * first entry is taken, the state `next` the fold continues from, and the
   * first bit of the reference pass.
   */
  lemma StepUnfold(resolved: TransactionId, pending: seq<RejectedActivity>, acc: ClientState)
      returns (next: ClientState, take: bool)
    requires pending != [] && OnlyWithdrawals(pending)
    requires multiset(Activities(pending)) <= multiset(Activities(acc.history.rejectedTxs))
    ensures take == (resolved in pending[0].disputedTransactionSnapshot
                     && pending[0].activity.amount.LessEq(acc.available))
    ensures OnlyWithdrawals(pending[1..])
    ensures multiset(Activities(pending[1..])) <= multiset(Activities(next.history.rejectedTxs))
    ensures BackfillFold(resolved, pending, acc) == BackfillFold(resolved, pending[1..], next)
    ensures Applied(resolved, pending, acc.available) == [take] + Applied(resolved, pending[1..], next.available)
    ensures take ==> && next.available == acc.available.Sub(pending[0].activity.amount)
                     && next.total == acc.total.Sub(pending[0].activity.amount)
                     && multiset(Activities(next.history.rejectedTxs))
                        == multiset(Activities(acc.history.rejectedTxs)) - multiset{pending[0].activity}
    ensures !take ==> next == acc
  {
    var p := pending[0];
    take := resolved in p.disputedTransactionSnapshot && p.activity.amount.LessEq(acc.available);
    PendingStaysAvailable(resolved, pending, acc);
    next := BackfillStep(resolved, acc, p);
  }

  /** The activities of a concatenation are the concatenated activities. */
  lemma ActivitiesConcat(a: seq<RejectedActivity>, b: seq<RejectedActivity>)
    ensures Activities(a + b) == Activities(a) + Activities(b)
  {
  }

  /** Entries drawn (as activities) from a list of withdrawals are withdrawals too. */
  lemma WithdrawalsInherited(sub: seq<RejectedActivity>, sup: seq<RejectedActivity>)
    requires OnlyWithdrawals(sup)
    requires multiset(Activities(sub)) <= multiset(Activities(sup))
    ensures OnlyWithdrawals(sub)
  {
    forall i | 0 <= i < |sub|
      ensures sub[i].activity.Withdrawal?
    {
      var acts := Activities(sup);
      assert Activities(sub)[i] in multiset(Activities(sub));
      assert sub[i].activity in acts;
      var j :| 0 <= j < |acts| && acts[j] == sub[i].activity;
    }
  }

  /** Taking away `b` and then `c` is taking away `b + c`. */
  lemma MultisetDiffDiff<T>(a: multiset<T>, b: multiset<T>, c: multiset<T>)
    ensures (a - b) - c == a - (b + c)
  {
    assert forall x :: ((a - b) - c)[x] == (a - (b + c))[x];
  }

  /** Picking under a mask that starts with `take` picks the first entry exactly when `take == want`. */
  lemma PickHead(pending: seq<RejectedActivity>, take: bool, rest: seq<bool>, want: bool)
    requires pending != [] && |rest| == |pending| - 1
    ensures Pick(pending, [take] + rest, want)
            == (if take == want then [pending[0]] else []) + Pick(pending[1..], rest, want)
  {
    assert ([take] + rest)[1..] == rest;
  }

  /** The amounts and activities picked by a mask that starts with `take`. */
  lemma PickCons(pending: seq<RejectedActivity>, take: bool, rest: seq<bool>)
    requires pending != [] && |rest| == |pending| - 1
    ensures SumAmounts(Pick(pending, [take] + rest, true))
            == (if take then pending[0].activity.amount.value else 0.0) + SumAmounts(Pick(pending[1..], rest, true))
    ensures multiset(Activities(Pick(pending, [take] + rest, true)))
            == (if take then multiset{pending[0].activity} else multiset{}) + multiset(Activities(Pick(pending[1..], rest, true)))
  {
    PickHead(pending, take, rest, true);
    var tail := Pick(pending[1..], rest, true);
    var head: seq<RejectedActivity> := if take then [pending[0]] else [];
    if take {
      assert (head + tail)[1..] == tail;
    } else {
      assert head + tail == tail;
    }
    ActivitiesConcat(head, tail);
  }

  /**
   * The fold agrees with the reference specification on balances: available
   * and total each fall by the sum of the amounts `Applied` selects.
   */
  lemma {:induction false} BackfillFoldMatchesApplied(resolved: TransactionId, pending: seq<RejectedActivity>, acc: ClientState)
    requires OnlyWithdrawals(pending)
    requires multiset(Activities(pending)) <= multiset(Activities(acc.history.rejectedTxs))
    ensures var r := BackfillFold(resolved, pending, acc);
            var applied := Pick(pending, Applied(resolved, pending, acc.available), true);
            && r.available.value == acc.available.value - SumAmounts(applied)
            && r.total.value == acc.total.value - SumAmounts(applied)
    decreases |pending|
  {
    if pending != [] {
      var next, take := StepUnfold(resolved, pending, acc);
      BackfillFoldMatchesApplied(resolved, pending[1..], next);
      PickCons(pending, take, Applied(resolved, pending[1..], next.available));
    }
  }

  /**
   * The fold agrees with the reference specification on the rejected list:
   * exactly the activities of the entries `Applied` selects leave it.
   */
  lemma {:induction false} BackfillFoldRemovesApplied(resolved: TransactionId, pending: seq<RejectedActivity>, acc: ClientState)
    requires OnlyWithdrawals(pending)
    requires multiset(Activities(pending)) <= multiset(Activities(acc.history.rejectedTxs))
    ensures multiset(Activities(BackfillFold(resolved, pending, acc).history.rejectedTxs))
            == multiset(Activities(acc.history.rejectedTxs))
               - multiset(Activities(Pick(pending, Applied(resolved, pending, acc.available), true)))
    decreases |pending|
  {
    if pending != [] {
      var next, take := StepUnfold(resolved, pending, acc);
      var rest := Applied(resolved, pending[1..], next.available);
      BackfillFoldRemovesApplied(resolved, pending[1..], next);
      PickCons(pending, take, rest);
      var before := multiset(Activities(acc.history.rejectedTxs));
      var restPicked := multiset(Activities(Pick(pending[1..], rest, true)));
      if take {
        MultisetDiffDiff(before, multiset{pending[0].activity}, restPicked);
      } else {
        assert multiset{} + restPicked == restPicked;
      }
    }
  }

  /** A pass that applies nothing returns its accumulator unchanged. */
  lemma {:induction false} BackfillNothingApplied(resolved: TransactionId, pending: seq<RejectedActivity>, acc: ClientState)
    requires OnlyWithdrawals(pending)
    requires multiset(Activities(pending)) <= multiset(Activities(acc.history.rejectedTxs))
    requires true !in Applied(resolved, pending, acc.available)
    ensures BackfillFold(resolved, pending, acc) == acc
    decreases |pending|
  {
    if pending != [] {
      var next, take := StepUnfold(resolved, pending, acc);
      var mask := Applied(resolved, pending, acc.available);
      assert mask[0] == take && mask[1..] == Applied(resolved, pending[1..], next.available);
      BackfillNothingApplied(resolved, pending[1..], next);
    }
  }

  /** With distinct activities, the search for the first entry of `pending` finds it right after `kept`. */
  lemma FindAfterDistinctPrefix(kept: seq<RejectedActivity>, pending: seq<RejectedActivity>)
    requires pending != [] && DistinctActivities(kept + pending)
    ensures FindRejected(kept + pending, pending[0].activity) == Some(|kept|)
  {
    var whole := kept + pending;
    var found := FindRejected(whole, pending[0].activity);
    assert whole[|kept|] == pending[0];
  }

  /** One unfolding of the fold: the first pending entry is processed, then the rest. */
  lemma FoldUnfold(resolved: TransactionId, pending: seq<RejectedActivity>, acc: ClientState)
    requires pending != [] && OnlyWithdrawals(pending)
    requires multiset(Activities(pending)) <= multiset(Activities(acc.history.rejectedTxs))
    ensures pending[0].activity in Activities(acc.history.rejectedTxs)
    ensures multiset(Activities(pending[1..]))
            <= multiset(Activities(BackfillStep(resolved, acc, pending[0]).history.rejectedTxs))
    ensures BackfillFold(resolved, pending, acc)
            == BackfillFold(resolved, pending[1..], BackfillStep(resolved, acc, pending[0]))
  {
    PendingStaysAvailable(resolved, pending, acc);
  }

  /** Moving the first entry of `pending` to the end of `kept` does not change the list. */
  lemma ShiftHead(kept: seq<RejectedActivity>, pending: seq<RejectedActivity>, tail: seq<RejectedActivity>)
    requires pending != []
    ensures (kept + [pending[0]]) + pending[1..] == kept + pending
    ensures (kept + [pending[0]]) + tail == kept + ([pending[0]] + tail)
  {
    assert pending == [pending[0]] + pending[1..];
  }

  /** Removing the entry right after `kept` drops the first entry of `pending`. */
  lemma RemoveIdxAfterPrefix(kept: seq<RejectedActivity>, pending: seq<RejectedActivity>)
    requires pending != []
    ensures RemoveIdx(kept + pending, |kept|) == kept + pending[1..]
  {
    var r := RemoveIdx(kept + pending, |kept|);
    assert r == r[..|kept|] + r[|kept|..];
  }

  /** Dropping the first entry of `pending` keeps the activities distinct. */
  lemma DistinctWithoutFirst(kept: seq<RejectedActivity>, pending: seq<RejectedActivity>)
    requires pending != [] && DistinctActivities(kept + pending)
    ensures DistinctActivities(kept + pending[1..])
  {
    var whole := kept + pending;
    var shorter := kept + pending[1..];
    forall i, j | 0 <= i < j < |shorter|
      ensures shorter[i].activity != shorter[j].activity
    {
      var i' := if i < |kept| then i else i + 1;
      var j' := if j < |kept| then j else j + 1;
      assert shorter[i] == whole[i'] && shorter[j] == whole[j'];
    }
  }

  /** With distinct activities, an applied step drops exactly the first pending entry. */
  lemma AppliedStepShape(resolved: TransactionId, kept: seq<RejectedActivity>, pending: seq<RejectedActivity>, acc: ClientState)
    requires pending != [] && acc.history.rejectedTxs == kept + pending
    requires DistinctActivities(kept + pending)
    requires pending[0].activity.Withdrawal?
    requires resolved in pending[0].disputedTransactionSnapshot && pending[0].activity.amount.LessEq(acc.available)
    ensures pending[0].activity in Activities(acc.history.rejectedTxs)
    ensures var next := BackfillStep(resolved, acc, pending[0]);
            && next.history.rejectedTxs == kept + pending[1..]
            && next.available == acc.available.Sub(pending[0].activity.amount)
            && DistinctActivities(kept + pending[1..])
  {
    assert (kept + pending)[|kept|] == pending[0];
    FindAfterDistinctPrefix(kept, pending);
    BackfillStepRemovesFirst(resolved, acc, pending[0]);
    RemoveIdxAfterPrefix(kept, pending);
    DistinctWithoutFirst(kept, pending);
  }

  /**
   * When the rejected activities are pairwise distinct, the fold removes
   * exactly the applied entries and keeps every other entry in its original
   * order. `kept` is the part of the list the fold has already passed over.
   */
  lemma {:induction false} BackfillFoldKeepsOthers(resolved: TransactionId, kept: seq<RejectedActivity>, pending: seq<RejectedActivity>, acc: ClientState)
    requires acc.history.rejectedTxs == kept + pending
    requires DistinctActivities(kept + pending)
    requires OnlyWithdrawals(pending)
    ensures multiset(Activities(pending)) <= multiset(Activities(acc.history.rejectedTxs))
    ensures BackfillFold(resolved, pending, acc).history.rejectedTxs
            == kept + Pick(pending, Applied(resolved, pending, acc.available), false)
    decreases |pending|, 1
  {
    ActivitiesConcat(kept, pending);
    if pending == [] {
      assert kept + pending == kept;
    } else {
      var p := pending[0];
      if resolved in p.disputedTransactionSnapshot && p.activity.amount.LessEq(acc.available) {
        KeepsOthersApplied(resolved, kept, pending, acc);
      } else {
        KeepsOthersSkipped(resolved, kept, pending, acc);
      }
    }
  }

  /** When the pass takes the first entry, the entries it keeps are the ones it keeps of the rest. */
  lemma AppliedTakesHead(resolved: TransactionId, pending: seq<RejectedActivity>, available: MonetaryAmount)
    requires pending != []
    requires resolved in pending[0].disputedTransactionSnapshot && pending[0].activity.amount.LessEq(available)
    ensures var rest := Applied(resolved, pending[1..], available.Sub(pending[0].activity.amount));
            Pick(pending, Applied(resolved, pending, available), false) == Pick(pending[1..], rest, false)
  {
    var rest := Applied(resolved, pending[1..], available.Sub(pending[0].activity.amount));
    assert Applied(resolved, pending, available) == [true] + rest;
    PickHead(pending, true, rest, false);
    var tail := Pick(pending[1..], rest, false);
    assert [] + tail == tail;
  }

  /**
   * An applied first step, stated without the step itself: the fold and the
   * reference pass both continue with the rest of `pending` from `next`.
   */
  lemma AppliedUnfold(resolved: TransactionId, kept: seq<RejectedActivity>, pending: seq<RejectedActivity>, acc: ClientState)
      returns (next: ClientState)
    requires pending != [] && acc.history.rejectedTxs == kept + pending
    requires DistinctActivities(kept + pending)
    requires OnlyWithdrawals(pending)
    requires multiset(Activities(pending)) <= multiset(Activities(acc.history.rejectedTxs))
    requires resolved in pending[0].disputedTransactionSnapshot && pending[0].activity.amount.LessEq(acc.available)
    ensures next.history.rejectedTxs == kept + pending[1..]
    ensures DistinctActivities(kept + pending[1..]) && OnlyWithdrawals(pending[1..])
    ensures multiset(Activities(pending[1..])) <= multiset(Activities(next.history.rejectedTxs))
    ensures BackfillFold(resolved, pending, acc) == BackfillFold(resolved, pending[1..], next)
    ensures Pick(pending, Applied(resolved, pending, acc.available), false)
            == Pick(pending[1..], Applied(resolved, pending[1..], next.available), false)
  {
    FoldUnfold(resolved, pending, acc);
    next := BackfillStep(resolved, acc, pending[0]);
    AppliedStepShape(resolved, kept, pending, acc);
    AppliedTakesHead(resolved, pending, acc.available);
  }

  /** The step of `BackfillFoldKeepsOthers` where the first pending entry is applied and removed. */
  lemma {:induction false} KeepsOthersApplied(resolved: TransactionId, kept: seq<RejectedActivity>, pending: seq<RejectedActivity>, acc: ClientState)
    requires pending != [] && acc.history.rejectedTxs == kept + pending
    requires DistinctActivities(kept + pending)
    requires OnlyWithdrawals(pending)
    requires multiset(Activities(pending)) <= multiset(Activities(acc.history.rejectedTxs))
    requires resolved in pending[0].disputedTransactionSnapshot && pending[0].activity.amount.LessEq(acc.available)
    ensures BackfillFold(resolved, pending, acc).history.rejectedTxs
            == kept + Pick(pending, Applied(resolved, pending, acc.available), false)
    decreases |pending|, 0
  {
    var next := AppliedUnfold(resolved, kept, pending, acc);
    BackfillFoldKeepsOthers(resolved, kept, pending[1..], next);
  }

  /** The step of `BackfillFoldKeepsOthers` where the first pending entry is skipped and stays. */
  lemma {:induction false} KeepsOthersSkipped(resolved: TransactionId, kept: seq<RejectedActivity>, pending: seq<RejectedActivity>, acc: ClientState)
    requires pending != [] && acc.history.rejectedTxs == kept + pending
    requires DistinctActivities(kept + pending)
    requires OnlyWithdrawals(pending)
    requires multiset(Activities(pending)) <= multiset(Activities(acc.history.rejectedTxs))
    requires !(resolved in pending[0].disputedTransactionSnapshot && pending[0].activity.amount.LessEq(acc.available))
    ensures BackfillFold(resolved, pending, acc).history.rejectedTxs
            == kept + Pick(pending, Applied(resolved, pending, acc.available), false)
    decreases |pending|, 0
  {
    var next, take := StepUnfold(resolved, pending, acc);
    var rest := Applied(resolved, pending[1..], acc.available);
    ShiftHead(kept, pending, Pick(pending[1..], rest, false));
    BackfillFoldKeepsOthers(resolved, kept + [pending[0]], pending[1..], acc);
    PickHead(pending, false, rest, false);
  }

  /** The facts `ResolvePrevRejected` promises, about the fold over the whole rejected list. */
  lemma BackfillKeepsInvariants(resolved: TransactionId, s: ClientState)
    requires OnlyWithdrawals(s.history.rejectedTxs)
    ensures var r := BackfillFold(resolved, s.history.rejectedTxs, s);
            && (s.Balanced() ==> r.Balanced())
            && OnlyWithdrawals(r.history.rejectedTxs)
            && (r.available.value >= 0.0 || r == s)
  {
    var rejected := s.history.rejectedTxs;
    var r := BackfillFold(resolved, rejected, s);
    WithdrawalsInherited(r.history.rejectedTxs, rejected);
    if s.Balanced() {
      assert r.total.value == r.available.value + r.held.value;
      assert r.total == MonetaryAmount(r.total.value);
    }
    var mask := Applied(resolved, rejected, s.available);
    AppliedFitsAvailable(resolved, rejected, s.available);
    if true in mask {
      BackfillFoldMatchesApplied(resolved, rejected, s);
    } else {
      BackfillNothingApplied(resolved, rejected, s);
    }
  }

  /**
   * The retroactive backfill run after a resolve of `resolved`: one pass over
   * the client's rejected withdrawals, in their stored order, starting from
   * the post-resolve state. It moves no held funds and records nothing; it
   * keeps the balance invariant and leaves only withdrawals in the rejected
   * list; and after it available is non-negative unless nothing was applied.
   */
  function ResolvePrevRejected(resolved: TransactionId, s: ClientState): (r: ClientState)
    requires OnlyWithdrawals(s.history.rejectedTxs)
    ensures r.held == s.held && r.isLocked == s.isLocked
    ensures r.history.accountActivity == s.history.accountActivity
    ensures r.history.disputedTxs == s.history.disputedTxs
    ensures r.total.value - r.available.value == s.total.value - s.available.value
    ensures s.Balanced() ==> r.Balanced()
    ensures OnlyWithdrawals(r.history.rejectedTxs)
    ensures r.available.value >= 0.0 || r == s
  {
    BackfillKeepsInvariants(resolved, s);
    BackfillFold(resolved, s.history.rejectedTxs, s)
  }

  /**
   * The backfill agrees with the reference pass `Applied`: available and
   * total fall by the sum of the applied amounts, and exactly the applied
   * activities leave the rejected list. When the rejected activities are
   * pairwise distinct, the list left behind is precisely the entries the
   * pass did not apply, in their original order.
   */
  lemma ResolvePrevRejectedMatchesApplied(resolved: TransactionId, s: ClientState)
    requires OnlyWithdrawals(s.history.rejectedTxs)
    ensures var rejected := s.history.rejectedTxs;
            var mask := Applied(resolved, rejected, s.available);
            var r := ResolvePrevRejected(resolved, s);
            && r.available.value == s.available.value - SumAmounts(Pick(rejected, mask, true))
            && r.total.value == s.total.value - SumAmounts(Pick(rejected, mask, true))
            && multiset(Activities(r.history.rejectedTxs))
               == multiset(Activities(rejected)) - multiset(Activities(Pick(rejected, mask, true)))
            && (DistinctActivities(rejected) ==> r.history.rejectedTxs == Pick(rejected, mask, false))
  {
    var rejected := s.history.rejectedTxs;
    BackfillFoldMatchesApplied(resolved, rejected, s);
    BackfillFoldRemovesApplied(resolved, rejected, s);
    if DistinctActivities(rejected) {
      assert [] + rejected == rejected;
      BackfillFoldKeepsOthers(resolved, [], rejected, s);
    }
  }

  /**
   * The causal rule: a resolution that no rejected withdrawal was waiting on
   * (no snapshot holds the resolved id) changes nothing.
   */
  lemma ResolveNothingWaiting(resolved: TransactionId, s: ClientState)
    requires OnlyWithdrawals(s.history.rejectedTxs)
    requires forall i :: 0 <= i < |s.history.rejectedTxs| ==>
               resolved !in s.history.rejectedTxs[i].disputedTransactionSnapshot
    ensures ResolvePrevRejected(resolved, s) == s
  {
    var rejected := s.history.rejectedTxs;
    var mask := Applied(resolved, rejected, s.available);
    assert true !in mask by {
      forall k | 0 <= k < |mask| ensures !mask[k] {
        assert resolved !in rejected[k].disputedTransactionSnapshot;
      }
    }
    BackfillNothingApplied(resolved, rejected, s);
  }

  /**
   * With distinct activities, an entry that was not waiting on the resolved
   * transaction stays in the rejected list after the backfill.
   */
  lemma ResolveKeepsUnrelated(resolved: TransactionId, s: ClientState, k: nat)
    requires OnlyWithdrawals(s.history.rejectedTxs) && DistinctActivities(s.history.rejectedTxs)
    requires k < |s.history.rejectedTxs|
    requires resolved !in s.history.rejectedTxs[k].disputedTransactionSnapshot
    ensures s.history.rejectedTxs[k] in ResolvePrevRejected(resolved, s).history.rejectedTxs
  {
    var rejected := s.history.rejectedTxs;
    var mask := Applied(resolved, rejected, s.available);
    ResolvePrevRejectedMatchesApplied(resolved, s);
    assert !mask[k];
    PickKeeps(rejected, mask, false, k);
  }

  /** An entry whose mask bit equals `want` is among the picked entries. */
  lemma {:induction false} PickKeeps(rs: seq<RejectedActivity>, mask: seq<bool>, want: bool, k: nat)
    requires |mask| == |rs| && k < |rs| && mask[k] == want
    ensures rs[k] in Pick(rs, mask, want)
    decreases |rs|
  {
    if k > 0 {
      PickKeeps(rs[1..], mask[1..], want, k - 1);
    }
  }
}
