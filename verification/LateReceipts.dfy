/** When a statement that has been read can still change: receipts are dated by their claim. */
module LateReceipts {
  import opened Options
  import opened Ledger
  import opened Sums
  import opened LedgerInvariant
  import opened Statement

  /** The time a committed row is dated. */
  function TimeOf(op: Op): int
    requires !op.AdminChange?
  {
    if op.IngestExecutionReceipt? then op.claim.issuedAt else op.at
  }

  lemma CommittedTime(s: Ledger, op: Op, t: Txn)
    requires !op.AdminChange? && Decide(s, op) == Committed(t)
    ensures t.at == TimeOf(op)
  {
    hide Applied, WithinLimits, FindReceipt, TaskBilled, Total, FindByKey, FindHoldByKey, FindById, FindHold;
  }

  /** The rows a statement up to an instant takes into account: freezes and releases move nothing out. */
  predicate Counts(t: Txn, customer: Id, to: int) {
    t.customer == customer && t.at < to && t.kind != Freeze && t.kind != Release
  }

  lemma NothingCounted(t: Txn, customer: Id, from: int, to: int, line: (Id, Id))
    requires Shape(t) && from <= to && !Counts(t, customer, to)
    ensures Contribution(Before(customer, from), Balance, t) == Contribution(During(customer, from, to), Balance, t) == 0
    ensures Contribution(During(customer, from, to), ToppedUp, t) == Contribution(During(customer, from, to), Consumed, t) == 0
    ensures Contribution(During(customer, from, to), Refunded, t) == 0
    ensures !In(LineOf(customer, from, to, line), t) && !In(ChargesDuring(customer, from, to), t)
  {
  }

  lemma SameLine(s: Ledger, next: Ledger, t: Txn, customer: Id, from: int, to: int, line: (Id, Id))
    requires Shape(t) && next.txns == s.txns + [t] && from <= to && !Counts(t, customer, to)
    ensures LineFor(next.txns, customer, from, to, line) == LineFor(s.txns, customer, from, to, line)
  {
    NothingCounted(t, customer, from, to, line);
    hide Total, Shape, Counts, In;
    TotalAppend(s.txns, t, LineOf(customer, from, to, line), Consumed);
    TotalAppend(s.txns, t, LineOf(customer, from, to, line), Refunded);
    TotalAppend(s.txns, t, LineOf(customer, from, to, line), Count);
  }

  lemma SameKeys(s: Ledger, next: Ledger, t: Txn, customer: Id, from: int, to: int)
    requires Shape(t) && next.txns == s.txns + [t] && from <= to && !Counts(t, customer, to)
    ensures LineKeys(next.txns, customer, from, to) == LineKeys(s.txns, customer, from, to)
  {
    NothingCounted(t, customer, from, to, (t.org, t.org));
    hide In, Shape, Counts;
  }

  lemma SameTotal(s: Ledger, next: Ledger, t: Txn, sc: Scope, m: Measure)
    requires next.txns == s.txns + [t] && Contribution(sc, m, t) == 0
    ensures Total(next.txns, sc, m) == Total(s.txns, sc, m)
  {
    hide Total, Contribution;
    TotalAppend(s.txns, t, sc, m);
  }

  lemma RowLeavesStatement(s: Ledger, next: Ledger, t: Txn, customer: Id, from: int, to: int)
    requires Shape(t) && next.txns == s.txns + [t] && from <= to && !Counts(t, customer, to)
    requires AccountsOf(s, customer) != {} && AccountsOf(next, customer) != {}
    ensures StatementOf(next, customer, from, to) == StatementOf(s, customer, from, to)
  {
    hide Total, AccountsOf, LineKeys, LineFor, Shape, Counts, Contribution;
    NothingCounted(t, customer, from, to, (t.org, t.org));
    SameTotal(s, next, t, Before(customer, from), Balance);
    SameTotal(s, next, t, During(customer, from, to), Balance);
    SameTotal(s, next, t, During(customer, from, to), ToppedUp);
    SameTotal(s, next, t, During(customer, from, to), Consumed);
    SameTotal(s, next, t, During(customer, from, to), Refunded);
    SameKeys(s, next, t, customer, from, to);
    var was, now := StatementOf(s, customer, from, to).value, StatementOf(next, customer, from, to).value;
    forall line | line in was.lines ensures now.lines[line] == was.lines[line] { SameLine(s, next, t, customer, from, to, line); }
    assert now.lines == was.lines;
  }

  /** A charge lowers the closing balance, a top-up or refund raises it, by what it is worth. */
  lemma RowMovesClosing(s: Ledger, next: Ledger, t: Txn, customer: Id, from: int, to: int)
    requires next.txns == s.txns + [t] && from <= to
    requires AccountsOf(s, customer) != {} && AccountsOf(next, customer) != {}
    ensures StatementOf(next, customer, from, to).value.closing == StatementOf(s, customer, from, to).value.closing
         + if t.customer == customer && t.at < to then t.availableDelta + t.frozenDelta else 0
  {
    hide Total, LineKeys, AccountsOf;
    TotalAppend(s.txns, t, Before(customer, from), Balance);
    TotalAppend(s.txns, t, During(customer, from, to), Balance);
  }

  /** One more row changes a statement exactly when it counts. */
  lemma RowChangesStatementIff(s: Ledger, next: Ledger, t: Txn, customer: Id, from: int, to: int)
    requires Shape(t) && next.txns == s.txns + [t] && from <= to
    requires AccountsOf(s, customer) != {} && AccountsOf(next, customer) != {}
    ensures StatementOf(next, customer, from, to) == StatementOf(s, customer, from, to) <==> !Counts(t, customer, to)
  {
    hide AccountsOf, StatementOf;
    if Counts(t, customer, to) {
      RowMovesClosing(s, next, t, customer, from, to);
    } else {
      RowLeavesStatement(s, next, t, customer, from, to);
    }
  }

  /** From here on the clock is at or past the end of the period; receipts carry their own dates. */
  predicate PeriodOver(ops: seq<Op>, to: int) {
    forall op | op in ops && !op.AdminChange? && !op.IngestExecutionReceipt? :: to <= op.at
  }

  /** A receipt of the customer, dated inside the period or before it, committed along the run. */
  ghost predicate LateReceipt(s: Ledger, ops: seq<Op>, customer: Id, to: int) {
    exists i :: 0 <= i < |ops| && ops[i].IngestExecutionReceipt? && ops[i].customer == customer
      && ops[i].claim.issuedAt < to && Step(Run(s, ops[..i]), ops[i]).1.Committed?
  }

  /** What one operation does to a statement whose period is over. */
  lemma OverStep(s: Ledger, op: Op, customer: Id, from: int, to: int)
    requires Inv(s) && AccountsOf(s, customer) != {} && from <= to && PeriodOver([op], to)
    ensures var (next, late) := (Step(s, op).0, LateNow(s, op, customer, to));
      && AccountsOf(next, customer) != {}
      && (!late ==> StatementOf(next, customer, from, to) == StatementOf(s, customer, from, to))
      && (late ==> StatementOf(next, customer, from, to).value.closing < StatementOf(s, customer, from, to).value.closing)
  {
    hide Inv, Decide, Shape, StatementOf, AccountsOf, Commit, Opened;
    assert op in [op];
    StepKeepsInv(s, op);
    if op.AdminChange? { AdminDecides(s, op); }
    match Decide(s, op)
    case Committed(t) => OverCommit(s, op, t, customer, from, to);
    case Replayed(_) =>
    case Rejected(_) =>
    case Acknowledged => SameRows(s, Step(s, op).0, customer, from, to);
  }

  lemma AdminDecides(s: Ledger, op: Op)
    requires op.AdminChange?
    ensures Decide(s, op) == Acknowledged
  {
  }

  lemma OverCommit(s: Ledger, op: Op, t: Txn, customer: Id, from: int, to: int)
    requires Inv(s) && AccountsOf(s, customer) != {} && from <= to && PeriodOver([op], to) && Decide(s, op) == Committed(t)
    ensures var (next, late) := (Step(s, op).0, LateNow(s, op, customer, to));
      && AccountsOf(next, customer) != {}
      && (!late ==> StatementOf(next, customer, from, to) == StatementOf(s, customer, from, to))
      && (late ==> StatementOf(next, customer, from, to).value.closing < StatementOf(s, customer, from, to).value.closing)
  {
    hide Inv, Decide, Shape, StatementOf, AccountsOf, Commit;
    assert op in [op];
    CommitFacts(s, op, t, customer);
    if LateNow(s, op, customer, to) {
      RowMovesClosing(s, Step(s, op).0, t, customer, from, to);
      ConsumeLowers(t);
    } else {
      RowLeavesStatement(s, Step(s, op).0, t, customer, from, to);
    }
  }

  predicate LateNow(s: Ledger, op: Op, customer: Id, to: int) {
    op.IngestExecutionReceipt? && op.customer == customer && op.claim.issuedAt < to && Step(s, op).1.Committed?
  }

  lemma SameRows(s: Ledger, next: Ledger, customer: Id, from: int, to: int)
    requires next.txns == s.txns && next.accounts == s.accounts
    ensures StatementOf(next, customer, from, to) == StatementOf(s, customer, from, to)
    ensures AccountsOf(next, customer) == AccountsOf(s, customer)
  {
  }

  lemma ConsumeLowers(t: Txn)
    requires Shape(t) && t.kind == Consume
    ensures t.availableDelta + t.frozenDelta < 0
  {
  }

  lemma CommitFacts(s: Ledger, op: Op, t: Txn, customer: Id)
    requires Inv(s) && Decide(s, op) == Committed(t) && AccountsOf(s, customer) != {}
    ensures Shape(t) && !op.AdminChange? && t.at == TimeOf(op) && t.kind == KindOf(op)
    ensures op.IngestExecutionReceipt? ==> t.customer == op.customer
    ensures Step(s, op).0.txns == s.txns + [t] && AccountsOf(Step(s, op).0, customer) != {}
  {
    RowShapes(s);
    CommittedRow(s, op, t);
    CommittedTime(s, op, t);
    IngestCustomer(s, op, t);
    hide Inv, Decide, Applied, Shape;
    var k :| k in AccountsOf(s, customer);
    assert k in AccountsOf(Step(s, op).0, customer);
  }

  lemma RowShapes(s: Ledger)
    requires Inv(s)
    ensures forall u | u in s.txns :: Shape(u)
    ensures forall h | h in s.holds :: h.amount > 0
  {
    hide RunningBalances, UniqueRows, RefundsCapped, FrozenIsActiveHolds, ReceiptsMatchHistory, Summary, Shape;
  }

  lemma IngestCustomer(s: Ledger, op: Op, t: Txn)
    requires Decide(s, op) == Committed(t)
    ensures op.IngestExecutionReceipt? ==> t.customer == op.customer
  {
    hide Applied, WithinLimits, FindReceipt, TaskBilled, Total, FindByKey, FindHoldByKey, FindById, FindHold;
    hide DecideTopUp, DecideHold, DecideConsume, DecideCapture, DecideRelease, DecideRefund;
  }

  lemma {:induction false} OverRun(s: Ledger, ops: seq<Op>, customer: Id, from: int, to: int)
    requires Inv(s) && AccountsOf(s, customer) != {} && from <= to && PeriodOver(ops, to)
    ensures var next := Run(s, ops);
      && AccountsOf(next, customer) != {}
      && (if LateReceipt(s, ops, customer, to)
          then StatementOf(next, customer, from, to).value.closing < StatementOf(s, customer, from, to).value.closing
          else StatementOf(next, customer, from, to) == StatementOf(s, customer, from, to))
  {
    hide Inv, Step, AccountsOf, StatementOf;
    if |ops| > 0 {
      var before, last := ops[..|ops| - 1], ops[|ops| - 1];
      assert last in ops && forall op | op in before :: op in ops;
      OverRun(s, before, customer, from, to);
      RunKeepsInv(s, before);
      OverStep(Run(s, before), last, customer, from, to);
      LateGrows(s, ops, customer, to);
    }
  }

  lemma LateGrows(s: Ledger, ops: seq<Op>, customer: Id, to: int)
    requires |ops| > 0
    ensures LateReceipt(s, ops, customer, to)
       <==> LateReceipt(s, ops[..|ops| - 1], customer, to) || LateNow(Run(s, ops[..|ops| - 1]), ops[|ops| - 1], customer, to)
  {
    hide Step, Run;
    var before := ops[..|ops| - 1];
    assert forall i | 0 <= i < |before| :: before[i] == ops[i] && before[..i] == ops[..i];
    if LateNow(Run(s, before), ops[|ops| - 1], customer, to) { assert ops[..|ops| - 1] == before; }
  }

  /** A statement read once its period is over reads the same for ever exactly until a receipt dated
      before the end of the period is accepted; then, and however much else happens, it never again
      closes where it did. */
  lemma StatementChangesIff(s: Ledger, ops: seq<Op>, customer: Id, from: int, to: int)
    requires Inv(s) && StatementOf(s, customer, from, to).Some? && from <= to && PeriodOver(ops, to)
    ensures StatementOf(Run(s, ops), customer, from, to) != StatementOf(s, customer, from, to) <==> LateReceipt(s, ops, customer, to)
    ensures LateReceipt(s, ops, customer, to) ==>
      && StatementOf(Run(s, ops), customer, from, to).Some?
      && StatementOf(Run(s, ops), customer, from, to).value.closing < StatementOf(s, customer, from, to).value.closing
  {
    hide Inv, Run, LateReceipt;
    OverRun(s, ops, customer, from, to);
  }
}
