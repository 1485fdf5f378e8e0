/** What the invariant buys: statements about every ledger a run of transactions can reach. */
module LedgerTheorems {
  import opened Options
  import opened Ledger
  import opened Sums
  import opened LedgerInvariant

  ghost function Reached(ops: seq<Op>): (s: Ledger)
    ensures Inv(s)
  {
    hide Inv;
    InvEmpty();
    RunKeepsInv(EMPTY, ops);
    Run(EMPTY, ops)
  }

  /* ---- Balances ---- */

  lemma AccountEquation(s: Ledger, k: AccountKey)
    requires Inv(s)
    ensures var a := AccountOf(s, k);
      && a == Summary(s.txns, k)
      && a.available + a.frozen == a.toppedUp - a.consumed + a.refunded
      && 0 <= a.available && 0 <= a.frozen && 0 <= a.refunded <= a.consumed
      && a.available + a.frozen <= a.toppedUp <= MAX_CREDITS
  {
    hide Shape, Total, RunningBalances, UniqueRows, RefundsCapped, HoldsMatchHistory, FrozenIsActiveHolds, ReceiptsMatchHistory;
    assert AccountOf(s, k) == Summary(s.txns, k);
    TotalsBalance(s.txns, InAccount(k));
    RefundedWithinConsumed(s.txns, k);
  }

  /** Every reachable account balances to the credit, never refunds more than it consumed, never
      goes negative, and holds no more than was ever topped up. */
  lemma EveryAccountBalances(ops: seq<Op>, k: AccountKey)
    ensures var a := AccountOf(Reached(ops), k);
      && a == Summary(Reached(ops).txns, k)
      && a.available + a.frozen == a.toppedUp - a.consumed + a.refunded
      && 0 <= a.available && 0 <= a.frozen && 0 <= a.refunded <= a.consumed
      && a.available + a.frozen <= a.toppedUp <= MAX_CREDITS
  {
    hide Inv, Run, Summary;
    AccountEquation(Reached(ops), k);
  }

  /** The frozen balance is exactly the account's active holds, so any one of them can be closed. */
  lemma FrozenCoversHolds(s: Ledger, h: Hold)
    requires Inv(s) && h in s.holds && h.status == Active
    ensures h.amount <= AccountOf(s, HoldAccount(h)).frozen == ActiveSum(s.holds, HoldAccount(h))
  {
    hide Books, RunningBalances, UniqueRows, RefundsCapped, ReceiptsMatchHistory, UniqueHolds, Total, ActiveSum;
    assert forall x | x in s.holds :: HoldLifecycle(s.txns, x);
    ActiveSumCovers(s.holds, h, HoldAccount(h));
    assert AccountOf(s, HoldAccount(h)).frozen == ActiveSum(s.holds, HoldAccount(h));
  }

  lemma HoldsHaveOneLife(ops: seq<Op>, h: Hold)
    requires h in Reached(ops).holds
    ensures Total(Reached(ops).txns, FreezesOf(h.id), Count) == 1
    ensures Total(Reached(ops).txns, ClosingsOf(h.id), Count) == if h.status == Active then 0 else 1
    ensures h.status == Active ==>
      h.amount <= AccountOf(Reached(ops), HoldAccount(h)).frozen == ActiveSum(Reached(ops).holds, HoldAccount(h))
  {
    hide Books, RunningBalances, UniqueRows, RefundsCapped, ReceiptsMatchHistory, UniqueHolds, Total, ActiveSum, Run, FrozenIsActiveHolds;
    assert HoldLifecycle(Reached(ops).txns, h);
    if h.status == Active {
      hide Inv;
      FrozenCoversHolds(Reached(ops), h);
    }
  }

  /* ---- Limits ---- */

  /** The only two columns a limit can stop: credits ever topped up, credits ever consumed. */
  predicate OverLimit(s: Ledger, op: Op) {
    match op
    case TopUpCredits(_, customer, org, amount, _, _, _) =>
      AccountOf(s, AccountKey(customer, org)).toppedUp + amount > MAX_CREDITS
    case ConsumeCredits(_, customer, org, _, _, amount, _, _, _) =>
      AccountOf(s, AccountKey(customer, org)).consumed + amount > MAX_CREDITS
    case IngestExecutionReceipt(_, customer, amount, claim) =>
      AccountOf(s, AccountKey(customer, claim.org)).consumed + amount > MAX_CREDITS
    case CaptureCreditHold(_, holdId, customer, amount, _, _, _) =>
      (match FindHold(s.holds, holdId)
       case Some(i) => AccountOf(s, AccountKey(customer, s.holds[i].org)).consumed + amount > MAX_CREDITS
       case None => false)
    case _ => false
  }

  /** An operation that gets as far as its balance update is stopped by a limit exactly when
      `OverLimit` says so; a committed one, or one stopped later, was within it. */
  ghost predicate LimitVerdict(s: Ledger, op: Op) {
    var outcome := Decide(s, op);
    && (outcome == Rejected(LimitExceeded) ==> OverLimit(s, op))
    && (outcome.Committed? || outcome == Rejected(DuplicateRow) ==> !OverLimit(s, op))
  }

  /** The facts about the account that decide the CHECK constraints. */
  ghost predicate Balanced(a: Account) {
    && a.available + a.frozen == a.toppedUp - a.consumed + a.refunded
    && 0 <= a.available && 0 <= a.frozen && 0 <= a.refunded <= a.consumed <= MAX_CREDITS
    && a.toppedUp <= MAX_CREDITS
  }

  lemma BalancedAccount(s: Ledger, k: AccountKey)
    requires Inv(s)
    ensures Balanced(AccountOf(s, k))
  {
    hide Shape, Summary, RunningBalances, UniqueRows, RefundsCapped, HoldsMatchHistory, FrozenIsActiveHolds, ReceiptsMatchHistory;
    AccountEquation(s, k);
  }

  lemma ChargeTotal(s: Ledger, c: Txn)
    requires Inv(s) && c in s.txns && IsCharge(c)
    ensures c.id in ChargeIds(s.txns, KeyOf(c)) && Total(s.txns, WithId(c.id), Consumed) >= c.billed
  {
    hide RunningBalances, UniqueRows, RefundsCapped, HoldsMatchHistory, FrozenIsActiveHolds, ReceiptsMatchHistory, Total;
    RowInTotal(s.txns, c, WithId(c.id), Consumed);
  }

  /** A refund within the cap of its charge is within what its account consumed. */
  lemma RefundFits(s: Ledger, op: Op, original: Txn)
    requires Inv(s) && op.RefundCredits? && FindById(s.txns, op.relatedId) == Some(original) && IsCharge(original)
    requires Total(s.txns, RefundsOf(op.relatedId), Billed) + op.amount <= original.billed
    ensures AccountOf(s, KeyOf(original)).refunded + op.amount <= AccountOf(s, KeyOf(original)).consumed
  {
    var k := KeyOf(original);
    var refunded := (id: Id) => Total(s.txns, RefundsOf(id), Billed);
    var charged := (id: Id) => Total(s.txns, WithId(id), Consumed);
    hide UniqueRows, RunningBalances, HoldsMatchHistory, FrozenIsActiveHolds, ReceiptsMatchHistory,
         Total, Shape, In, FindByKey, RefundOfCharge, WithinLimits;
    assert AccountOf(s, k) == Summary(s.txns, k);
    ChargesById(s.txns, k, charged);
    RefundsByCharge(s.txns, k, refunded);
    var ids := ChargeIds(s.txns, k);
    ChargeTotal(s, original);
    forall id | id in ids { CapById(s.txns, k, id); }
    SumSetPick(ids, op.relatedId, refunded);
    SumSetPick(ids, op.relatedId, charged);
    SumSetLe(ids - {op.relatedId}, refunded, charged);
  }

  lemma LimitsAtPost(s: Ledger, draft: Txn)
    requires Balanced(AccountOf(s, KeyOf(draft))) && Shape(draft)
    requires 0 <= AccountOf(s, KeyOf(draft)).available + draft.availableDelta
    requires 0 <= AccountOf(s, KeyOf(draft)).frozen + draft.frozenDelta
    requires draft.kind == Refund ==>
      AccountOf(s, KeyOf(draft)).refunded + draft.billed <= AccountOf(s, KeyOf(draft)).consumed
    ensures Post(s, draft) == Rejected(LimitExceeded) <==>
      var a := Applied(AccountOf(s, KeyOf(draft)), draft);
      a.toppedUp > MAX_CREDITS || a.consumed > MAX_CREDITS
  {
    hide FindById, FindByKey;
  }

  lemma LimitTopUp(s: Ledger, op: Op)
    requires op.TopUpCredits? && Balanced(AccountOf(s, AccountKey(op.customer, op.org)))
    ensures LimitVerdict(s, op)
  {
    hide Post, FindById, FindByKey;
    LimitsAtPost(s, Txn(op.txnId, op.customer, op.org, None, None, TopUp, op.amount, 0, 0, 0, 0, op.key,
                        op.reference, None, None, op.at));
  }

  lemma LimitHold(s: Ledger, op: Op)
    requires op.CreateCreditHold? && Balanced(AccountOf(s, AccountKey(op.customer, op.org)))
    ensures LimitVerdict(s, op)
  {
    hide Post, FindById, FindByKey, FindHoldByKey, FindHold;
    if op.amount <= AccountOf(s, AccountKey(op.customer, op.org)).available {
      LimitsAtPost(s, Txn(op.txnId, op.customer, op.org, Some(op.deployment), Some(op.moduleName), Freeze,
                          -(op.amount as int), op.amount, 0, 0, 0, op.key, op.holdId, None, None, op.at));
    }
  }

  lemma LimitCapture(s: Ledger, op: Op)
    requires op.CaptureCreditHold? && Inv(s)
    ensures LimitVerdict(s, op)
  {
    hide Post, FindById, FindByKey, FindHold, Inv, Shape;
    if FindHold(s.holds, op.holdId).Some? && s.holds[FindHold(s.holds, op.holdId).value].status == Active {
      var h := s.holds[FindHold(s.holds, op.holdId).value];
      BalancedAccount(s, HoldAccount(h));
      FrozenCoversHolds(s, h);
      HoldAmountPositive(s, h);
      LimitCaptureAt(s, op, h);
    }
  }

  lemma LimitCaptureAt(s: Ledger, op: Op, h: Hold)
    requires op.CaptureCreditHold? && FindHold(s.holds, op.holdId).Some?
    requires h == s.holds[FindHold(s.holds, op.holdId).value]
    requires Balanced(AccountOf(s, HoldAccount(h))) && 0 < h.amount <= AccountOf(s, HoldAccount(h)).frozen
    ensures LimitVerdict(s, op)
  {
    hide Post, FindById, FindByKey, FindHold;
    if 0 <= AccountOf(s, HoldAccount(h)).available + (h.amount - op.amount) {
      LimitsAtPost(s, Txn(op.txnId, h.customer, h.org, Some(h.deployment), Some(h.moduleName), Capture,
                          h.amount - op.amount, -h.amount, op.amount, 0, 0, op.key, op.reference,
                          None, Some(op.holdId), op.at));
    }
  }

  lemma LimitRelease(s: Ledger, op: Op)
    requires op.ReleaseCreditHold? && Inv(s)
    ensures LimitVerdict(s, op)
  {
    hide Post, FindById, FindByKey, FindHold, Inv, Shape;
    if FindHold(s.holds, op.holdId).Some? && s.holds[FindHold(s.holds, op.holdId).value].status == Active {
      var h := s.holds[FindHold(s.holds, op.holdId).value];
      BalancedAccount(s, HoldAccount(h));
      FrozenCoversHolds(s, h);
      HoldAmountPositive(s, h);
      LimitReleaseAt(s, op, h);
    }
  }

  lemma HoldAmountPositive(s: Ledger, h: Hold)
    requires Inv(s) && h in s.holds
    ensures h.amount > 0
  {
    hide Books, RunningBalances, UniqueRows, RefundsCapped, FrozenIsActiveHolds, ReceiptsMatchHistory;
    assert HoldLifecycle(s.txns, h);
  }

  lemma LimitReleaseAt(s: Ledger, op: Op, h: Hold)
    requires op.ReleaseCreditHold? && FindHold(s.holds, op.holdId).Some?
    requires h == s.holds[FindHold(s.holds, op.holdId).value]
    requires Balanced(AccountOf(s, HoldAccount(h))) && 0 < h.amount <= AccountOf(s, HoldAccount(h)).frozen
    ensures LimitVerdict(s, op)
  {
    hide Post, FindById, FindByKey, FindHold;
    LimitsAtPost(s, Txn(op.txnId, h.customer, h.org, Some(h.deployment), Some(h.moduleName), Release,
                        h.amount, -h.amount, 0, 0, 0, op.key, op.holdId, None, None, op.at));
  }

  lemma LimitConsume(s: Ledger, op: Op)
    requires op.ConsumeCredits? && Balanced(AccountOf(s, AccountKey(op.customer, op.org)))
    ensures LimitVerdict(s, op)
  {
    hide Post, FindById, FindByKey;
    if op.amount <= AccountOf(s, AccountKey(op.customer, op.org)).available {
      LimitsAtPost(s, Txn(op.txnId, op.customer, op.org, Some(op.deployment), Some(op.moduleName), Consume,
                          -(op.amount as int), 0, op.amount, 0, 0, op.key, op.reference, None, None, op.at));
    }
  }

  lemma LimitIngest(s: Ledger, op: Op)
    requires op.IngestExecutionReceipt? && Balanced(AccountOf(s, AccountKey(op.customer, op.claim.org)))
    ensures LimitVerdict(s, op)
  {
    hide Post, FindById, FindByKey, FindReceipt, TaskBilled;
    var c := op.claim;
    if op.amount <= AccountOf(s, AccountKey(op.customer, c.org)).available {
      LimitsAtPost(s, Txn(op.txnId, op.customer, c.org, Some(c.deployment), Some(c.moduleName), Consume,
                          -(op.amount as int), 0, op.amount, 0, 0, ReceiptKey(c.receiptId), c.task, None, None, c.issuedAt));
    }
  }

  lemma LimitRefund(s: Ledger, op: Op)
    requires op.RefundCredits? && Inv(s)
    ensures LimitVerdict(s, op)
  {
    hide Post, FindById, FindByKey, Inv, Shape;
    if FindById(s.txns, op.relatedId).Some? {
      var original := FindById(s.txns, op.relatedId).value;
      if IsCharge(original) && Total(s.txns, RefundsOf(op.relatedId), Billed) + op.amount <= original.billed {
        BalancedAccount(s, KeyOf(original));
        ChargeHasModule(s, original);
        RefundFits(s, op, original);
        LimitsAtPostRefund(s, op, original);
      }
    }
  }

  lemma ChargeHasModule(s: Ledger, c: Txn)
    requires Inv(s) && c in s.txns && IsCharge(c)
    ensures c.moduleName.Some?
  {
    hide RunningBalances, UniqueRows, RefundsCapped, HoldsMatchHistory, FrozenIsActiveHolds, ReceiptsMatchHistory;
    assert Shape(c);
  }

  lemma LimitsAtPostRefund(s: Ledger, op: Op, original: Txn)
    requires op.RefundCredits? && FindById(s.txns, op.relatedId) == Some(original)
    requires Balanced(AccountOf(s, KeyOf(original))) && original.moduleName.Some?
    requires AccountOf(s, KeyOf(original)).refunded + op.amount <= AccountOf(s, KeyOf(original)).consumed
    ensures LimitVerdict(s, op)
  {
    hide Post, FindById, FindByKey;
    LimitsAtPost(s, Txn(op.txnId, original.customer, original.org, original.deployment, original.moduleName, Refund,
                        op.amount, 0, op.amount, 0, 0, op.key, op.reference, Some(op.relatedId), None, op.at));
  }

  /** Holding, releasing and refunding never trip a limit; topping up trips one only through the
      credits ever topped up, and a charge only through the credits ever consumed. */
  lemma LimitsTripOnlyOnTotals(ops: seq<Op>, op: Op)
    ensures LimitVerdict(Reached(ops), op)
  {
    hide Inv, Run, Balanced, LimitVerdict;
    var s := Reached(ops);
    match op
    case TopUpCredits(_, customer, org, _, _, _, _) => BalancedAccount(s, AccountKey(customer, org)); LimitTopUp(s, op);
    case CreateCreditHold(_, _, customer, org, _, _, _, _, _, _) =>
      BalancedAccount(s, AccountKey(customer, org)); LimitHold(s, op);
    case CaptureCreditHold(_, _, _, _, _, _, _) => LimitCapture(s, op);
    case ReleaseCreditHold(_, _, _, _, _, _) => LimitRelease(s, op);
    case ConsumeCredits(_, customer, org, _, _, _, _, _, _) =>
      BalancedAccount(s, AccountKey(customer, org)); LimitConsume(s, op);
    case IngestExecutionReceipt(_, customer, _, claim) =>
      BalancedAccount(s, AccountKey(customer, claim.org)); LimitIngest(s, op);
    case RefundCredits(_, _, _, _, _, _, _) => LimitRefund(s, op);
    case AdminChange(_, _) => AdminHasNoLimit(s, op);
  }

  lemma AdminHasNoLimit(s: Ledger, op: Op)
    requires op.AdminChange?
    ensures LimitVerdict(s, op)
  {
  }
}
