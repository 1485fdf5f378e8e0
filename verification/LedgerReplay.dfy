/** Idempotency keys over whole runs: a committed mutation can be resubmitted for ever, and its key
    can never be spent on anything else. */
module LedgerReplay {
  import opened Options
  import opened Ledger
  import opened LedgerInvariant
  import opened LedgerTheorems

  /** The row `t` records what `op` asks for: the parameters the store compares on a replay. */
  predicate Records(t: Txn, op: Op) {
    t.kind == KindOf(op) &&
    match op
    case TopUpCredits(_, customer, org, amount, key, reference, _) =>
      KeyOf(t) == AccountKey(customer, org) && t.key == key && t.availableDelta == amount && t.reference == reference
    case CreateCreditHold(_, _, customer, org, deployment, moduleName, amount, key, _, _) =>
      && KeyOf(t) == AccountKey(customer, org) && t.key == key && t.frozenDelta == amount
      && t.deployment == Some(deployment) && t.moduleName == Some(moduleName)
    case CaptureCreditHold(_, holdId, customer, amount, key, reference, _) =>
      && t.customer == customer && t.key == key && t.billed == amount
      && t.holdId == Some(holdId) && t.reference == reference
    case ReleaseCreditHold(_, holdId, customer, key, _, _) =>
      t.customer == customer && t.key == key && t.reference == holdId
    case ConsumeCredits(_, customer, org, deployment, moduleName, amount, key, reference, _) =>
      && KeyOf(t) == AccountKey(customer, org) && t.key == key && t.billed == amount
      && t.deployment == Some(deployment) && t.moduleName == Some(moduleName) && t.reference == reference
    case IngestExecutionReceipt(_, customer, _, claim) =>
      && KeyOf(t) == AccountKey(customer, claim.org) && t.key == ReceiptKey(claim.receiptId)
      && t.deployment == Some(claim.deployment) && t.moduleName == Some(claim.moduleName)
      && t.reference == claim.task && t.at == claim.issuedAt
    case RefundCredits(_, customer, relatedId, amount, key, reference, _) =>
      && t.customer == customer && t.key == key && t.billed == amount
      && t.related == Some(relatedId) && t.reference == reference
    case AdminChange(_, _) => false
  }

  /** Two submissions of one request: fresh row ids, times and hold deadlines are the server's own. */
  predicate SameRequest(op: Op, again: Op) {
    match (op, again)
    case (TopUpCredits(_, c, o, a, k, r, _), TopUpCredits(_, c', o', a', k', r', _)) =>
      c == c' && o == o' && a == a' && k == k' && r == r'
    case (CreateCreditHold(_, _, c, o, d, m, a, k, _, _), CreateCreditHold(_, _, c', o', d', m', a', k', _, _)) =>
      c == c' && o == o' && d == d' && m == m' && a == a' && k == k'
    case (CaptureCreditHold(_, h, c, a, k, r, _), CaptureCreditHold(_, h', c', a', k', r', _)) =>
      h == h' && c == c' && a == a' && k == k' && r == r'
    case (ReleaseCreditHold(_, h, c, k, _, _), ReleaseCreditHold(_, h', c', k', _, _)) =>
      h == h' && c == c' && k == k'
    case (ConsumeCredits(_, c, o, d, m, a, k, r, _), ConsumeCredits(_, c', o', d', m', a', k', r', _)) =>
      c == c' && o == o' && d == d' && m == m' && a == a' && k == k' && r == r'
    case (IngestExecutionReceipt(_, c, _, x), IngestExecutionReceipt(_, c', _, x')) => c == c' && x == x'
    case (RefundCredits(_, c, i, a, k, r, _), RefundCredits(_, c', i', a', k', r', _)) =>
      c == c' && i == i' && a == a' && k == k' && r == r'
    case _ => false
  }

  /* ---- Rows are only ever appended ---- */

  lemma StepAppends(s: Ledger, op: Op)
    ensures s.txns <= Step(s, op).0.txns && s.receipts <= Step(s, op).0.receipts
  {
    hide Decide, HoldsAfter, Applied;
  }

  lemma {:induction false} RunAppends(s: Ledger, ops: seq<Op>)
    ensures s.txns <= Run(s, ops).txns && s.receipts <= Run(s, ops).receipts
  {
    hide Step;
    if |ops| > 0 {
      RunAppends(s, ops[..|ops| - 1]);
      StepAppends(Run(s, ops[..|ops| - 1]), ops[|ops| - 1]);
    }
  }

  /* ---- What a row says ---- */

  lemma {:induction false} CommittedRecords(s: Ledger, op: Op, t: Txn)
    requires Decide(s, op) == Committed(t)
    ensures Records(t, op)
  {
    hide Applied, WithinLimits, FindByKey, FindReceipt, TaskBilled, Total;
  }

  lemma ReplayedRecords(s: Ledger, op: Op, t: Txn)
    requires Inv(s) && Decide(s, op) == Replayed(t)
    ensures t in s.txns && Records(t, op)
  {
    hide Post, Total, Inv;
    ReplayedRow(s, op, t);
    if op.CreateCreditHold? {
      var h := s.holds[FindHoldByKey(s.holds, AccountKey(op.customer, op.org), op.key).value];
      FreezeIsRow(s, h, t);
    } else if op.IngestExecutionReceipt? {
      var r := FindReceipt(s.receipts, op.claim.receiptId).value;
      ReceiptIsRow(s, r, t);
    }
  }

  lemma FreezeIsRow(s: Ledger, h: Hold, t: Txn)
    requires Inv(s) && h in s.holds && t in s.txns && KeyOf(t) == HoldAccount(h) && t.key == h.key
    ensures FreezeFor(t, h)
  {
    hide Books, RunningBalances, UniqueRows, RefundsCapped, FrozenIsActiveHolds, ReceiptsMatchHistory, Total;
    assert HoldLifecycle(s.txns, h);
    var f :| f in s.txns && FreezeFor(f, h);
    SameRow(s.txns, f, t);
  }

  lemma ReceiptIsRow(s: Ledger, r: Receipt, t: Txn)
    requires Inv(s) && r in s.receipts && t in s.txns && t.id == r.txnId
    ensures Bills(t, r)
  {
    hide Books, RunningBalances, UniqueRows, RefundsCapped, FrozenIsActiveHolds, HoldsMatchHistory, Contiguous;
    var u :| u in s.txns && Bills(u, r);
    SameRow(s.txns, u, t);
  }

  /* ---- Replays ---- */

  lemma FindsRow(s: Ledger, t: Txn)
    requires Inv(s) && t in s.txns
    ensures FindByKey(s.txns, KeyOf(t), t.key) == Some(t) && FindById(s.txns, t.id) == Some(t)
    ensures KeyOf(t) in s.accounts
  {
    hide Shape, Summary, RunningBalances, UniqueRows, RefundsCapped, FrozenIsActiveHolds, HoldsMatchHistory, ReceiptsMatchHistory;
    SameRow(s.txns, t, FindByKey(s.txns, KeyOf(t), t.key).value);
    SameRow(s.txns, t, FindById(s.txns, t.id).value);
  }

  lemma FindsHold(s: Ledger, h: Hold)
    requires Inv(s) && h in s.holds
    ensures FindHold(s.holds, h.id).Some? && s.holds[FindHold(s.holds, h.id).value] == h
  {
    hide Books, RunningBalances, UniqueRows, RefundsCapped, FrozenIsActiveHolds, ReceiptsMatchHistory, HoldLifecycle, FreezeFor, ClosingFor;
    var i :| 0 <= i < |s.holds| && s.holds[i] == h;
  }

  lemma HoldOfRow(s: Ledger, t: Txn) returns (h: Hold)
    requires Inv(s) && t in s.txns && (t.kind == Freeze || t.kind == Capture || t.kind == Release)
    ensures h in s.holds && HoldAccount(h) == KeyOf(t)
    ensures t.kind == Freeze ==> FreezeFor(t, h)
    ensures t.kind == Capture ==> t.holdId == Some(h.id)
    ensures t.kind == Release ==> t.reference == h.id
  {
    hide Books, RunningBalances, UniqueRows, RefundsCapped, FrozenIsActiveHolds, ReceiptsMatchHistory, HoldLifecycle;
    if t.kind == Freeze {
      h :| h in s.holds && FreezeFor(t, h);
    } else {
      h :| h in s.holds && ClosingFor(t, h);
    }
  }

  lemma ChargeOfRefund(s: Ledger, t: Txn) returns (c: Txn)
    requires Inv(s) && t in s.txns && t.kind == Refund
    ensures c in s.txns && RefundOfCharge(t, c)
  {
    hide Books, RunningBalances, UniqueRows, HoldsMatchHistory, FrozenIsActiveHolds, ReceiptsMatchHistory;
    c :| c in s.txns && RefundOfCharge(t, c);
  }

  lemma FindsReceipt(s: Ledger, r: Receipt)
    requires Inv(s) && r in s.receipts
    ensures FindReceipt(s.receipts, r.claim.receiptId) == Some(r)
  {
    hide Books, RunningBalances, UniqueRows, RefundsCapped, FrozenIsActiveHolds, HoldsMatchHistory, Contiguous, Bills;
    var i :| 0 <= i < |s.receipts| && s.receipts[i] == r;
  }

  /** A request whose row is in the table is answered with that row, in whatever state the rest is. */
  lemma RecordedReplays(s: Ledger, op: Op, t: Txn)
    requires Inv(s) && t in s.txns && Records(t, op)
    requires op.IngestExecutionReceipt? ==> Receipt(op.customer, op.claim, t.id) in s.receipts
    ensures Decide(s, op) == Replayed(t)
  {
    hide Inv, Post;
    FindsRow(s, t);
    if op.CreateCreditHold? {
      var h := HoldOfRow(s, t);
      var x := s.holds[FindHoldByKey(s.holds, KeyOf(t), t.key).value];
      FreezeIsRow(s, x, t);
    } else if op.CaptureCreditHold? || op.ReleaseCreditHold? {
      var h := HoldOfRow(s, t);
      FindsHold(s, h);
    } else if op.RefundCredits? {
      var c := ChargeOfRefund(s, t);
      FindsRow(s, c);
    } else if op.IngestExecutionReceipt? {
      FindsReceipt(s, Receipt(op.customer, op.claim, t.id));
    }
  }

  lemma SameRequestRecords(t: Txn, op: Op, again: Op)
    requires Records(t, op) && SameRequest(op, again)
    ensures Records(t, again)
  {
  }

  /** Resubmitting a committed mutation, after any further traffic, answers with the original row
      and changes nothing at all. */
  lemma ResubmissionReplays(before: seq<Op>, op: Op, after: seq<Op>, again: Op)
    requires Decide(Reached(before), op).Committed? && SameRequest(op, again)
    ensures var s := Run(Step(Reached(before), op).0, after);
      Step(s, again) == (s, Replayed(Decide(Reached(before), op).txn))
  {
    hide Inv, Run, Decide, Records, SameRequest;
    var s0 := Reached(before);
    var t := Decide(s0, op).txn;
    var s1 := Step(s0, op).0;
    var s := Run(s1, after);
    StepKeepsInv(s0, op);
    RunKeepsInv(s1, after);
    RunAppends(s1, after);
    assert t == s1.txns[|s1.txns| - 1] && t in s.txns;
    CommittedRecords(s0, op, t);
    SameRequestRecords(t, op, again);
    if again.IngestExecutionReceipt? { IngestedReceipt(s0, op, again, t, s); }
    RecordedReplays(s, again, t);
    StepKeepsInv(s, again);
    NotAdmin(op, again);
  }

  lemma NotAdmin(op: Op, again: Op)
    requires SameRequest(op, again)
    ensures !again.AdminChange?
  {
  }

  lemma IngestedReceipt(s0: Ledger, op: Op, again: Op, t: Txn, s: Ledger)
    requires Decide(s0, op) == Committed(t) && SameRequest(op, again) && again.IngestExecutionReceipt?
    requires Commit(s0, op, t).receipts <= s.receipts
    ensures Receipt(again.customer, again.claim, t.id) in s.receipts
  {
    hide Decide;
    var rs := Commit(s0, op, t).receipts;
    assert rs[|rs| - 1] == s.receipts[|rs| - 1];
  }

  /* ---- Keys ---- */

  /** The account and the key under which `op` would insert its row, when the rows it names exist. */
  function Slot(s: Ledger, op: Op): Option<(AccountKey, Id)> {
    match op
    case TopUpCredits(_, customer, org, _, key, _, _) => Some((AccountKey(customer, org), key))
    case CreateCreditHold(_, _, customer, org, _, _, _, key, _, _) => Some((AccountKey(customer, org), key))
    case ConsumeCredits(_, customer, org, _, _, _, key, _, _) => Some((AccountKey(customer, org), key))
    case IngestExecutionReceipt(_, customer, _, claim) =>
      Some((AccountKey(customer, claim.org), ReceiptKey(claim.receiptId)))
    case CaptureCreditHold(_, holdId, customer, _, key, _, _) =>
      (match FindHold(s.holds, holdId)
       case Some(i) => Some((AccountKey(customer, s.holds[i].org), key))
       case None => None)
    case ReleaseCreditHold(_, holdId, customer, key, _, _) =>
      (match FindHold(s.holds, holdId)
       case Some(i) => Some((AccountKey(customer, s.holds[i].org), key))
       case None => None)
    case RefundCredits(_, customer, relatedId, _, key, _, _) =>
      (match FindById(s.txns, relatedId)
       case Some(c) => Some((AccountKey(customer, c.org), key))
       case None => None)
    case AdminChange(_, _) => None
  }

  lemma CommittedInSlot(s: Ledger, op: Op, t: Txn)
    requires Decide(s, op) == Committed(t)
    ensures Slot(s, op) == Some((KeyOf(t), t.key))
    ensures FindByKey(s.txns, KeyOf(t), t.key).None?
  {
    hide Applied, WithinLimits, FindReceipt, TaskBilled, Total;
  }

  lemma ReplayedInSlot(s: Ledger, op: Op, t: Txn)
    requires Inv(s) && Decide(s, op) == Replayed(t)
    ensures Slot(s, op) == Some((KeyOf(t), t.key))
  {
    hide Inv, Post, Total;
    ReplayedRecords(s, op, t);
  }

  /** One key space for every kind of operation: a key that any row of the account already carries
      is answered with that row if the row records the same request, and is refused otherwise. In
      both cases no table changes. */
  lemma SpentKeyChangesNothing(ops: seq<Op>, op: Op, u: Txn)
    requires u in Reached(ops).txns && Slot(Reached(ops), op) == Some((KeyOf(u), u.key))
    ensures Step(Reached(ops), op).0 == Reached(ops)
    ensures Step(Reached(ops), op).1.Replayed? ==> Step(Reached(ops), op).1 == Replayed(u) && Records(u, op)
    ensures Step(Reached(ops), op).1.Replayed? || Step(Reached(ops), op).1.Rejected?
    ensures !Records(u, op) ==> Step(Reached(ops), op).1.Rejected?
  {
    hide Inv, Run, Decide, Records, Slot, FindByKey;
    var s := Reached(ops);
    StepKeepsInv(s, op);
    SlotNotAdmin(s, op);
    match Decide(s, op)
    case Committed(t) => CommittedInSlot(s, op, t); FindsRow(s, u);
    case Replayed(t) =>
      ReplayedInSlot(s, op, t);
      ReplayedRecords(s, op, t);
      FindsRow(s, u);
      FindsRow(s, t);
    case Rejected(_) =>
    case Acknowledged => OnlyAdminAcknowledged(s, op);
  }

  lemma SlotNotAdmin(s: Ledger, op: Op)
    requires Slot(s, op).Some?
    ensures !op.AdminChange?
  {
  }

  lemma OnlyAdminAcknowledged(s: Ledger, op: Op)
    requires Decide(s, op) == Acknowledged
    ensures op.AdminChange?
  {
  }

  /** So no account ever has two rows under one idempotency key. */
  lemma OneRowPerKey(ops: seq<Op>, t: Txn, u: Txn)
    requires t in Reached(ops).txns && u in Reached(ops).txns
    requires KeyOf(t) == KeyOf(u) && t.key == u.key
    ensures t == u
  {
    hide Run, Books, RunningBalances, UniqueRows, RefundsCapped, HoldsMatchHistory, FrozenIsActiveHolds, ReceiptsMatchHistory;
    SameRow(Reached(ops).txns, t, u);
  }

  /* ---- Execution receipts ---- */

  /** Each deployment's receipts carry exactly the sequences 1, 2, ..., n in commit order. */
  lemma ReceiptsContiguous(ops: seq<Op>, deployment: Id)
    ensures var rs := ReceiptsOf(Reached(ops).receipts, deployment);
      && |rs| == LastSequence(Reached(ops), deployment)
      && forall i | 0 <= i < |rs| :: rs[i].claim.sequence == i + 1
  {
    hide Run, ReceiptsOf, Books, RunningBalances, UniqueRows, RefundsCapped, HoldsMatchHistory, FrozenIsActiveHolds;
    assert Contiguous(Reached(ops), deployment);
  }

  /** Receipts and the consume rows they bill are one to one, and no task is billed twice. */
  lemma ReceiptsBillOnce(ops: seq<Op>, r: Receipt) returns (t: Txn)
    requires r in Reached(ops).receipts
    ensures t in Reached(ops).txns && Bills(t, r)
    ensures forall x | x in Reached(ops).receipts && (x.txnId == t.id || x.claim.receiptId == r.claim.receiptId
              || (x.claim.deployment == r.claim.deployment && x.claim.task == r.claim.task)) :: x == r
  {
    hide Run, Contiguous, Books, RunningBalances, UniqueRows, RefundsCapped, HoldsMatchHistory, FrozenIsActiveHolds;
    var s := Reached(ops);
    t :| t in s.txns && Bills(t, r);
    forall x | x in s.receipts && (x.txnId == t.id || x.claim.receiptId == r.claim.receiptId
                 || (x.claim.deployment == r.claim.deployment && x.claim.task == r.claim.task))
      ensures x == r
    {
      var i :| 0 <= i < |s.receipts| && s.receipts[i] == r;
      var j :| 0 <= j < |s.receipts| && s.receipts[j] == x;
    }
  }
}
