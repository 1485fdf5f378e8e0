/** What every store transaction keeps, whatever its arguments and whatever ran before it. */
module LedgerInvariant {
  import opened Options
  import opened Ledger
  import opened Sums

  /* ---- The invariant ---- */

  /** The shape of a row of each kind: which columns move, and which way. */
  predicate Shape(t: Txn) {
    match t.kind
    case TopUp => t.billed == 0 && t.frozenDelta == 0 && t.availableDelta > 0
    case Freeze => t.billed == 0 && t.frozenDelta > 0 && t.availableDelta == -t.frozenDelta
    case Capture =>
      && t.billed > 0 && t.frozenDelta < 0 && t.availableDelta == -t.frozenDelta - t.billed
      && t.moduleName.Some? && t.holdId.Some?
    case Release => t.billed == 0 && t.frozenDelta < 0 && t.availableDelta == -t.frozenDelta
    case Consume => t.billed > 0 && t.frozenDelta == 0 && t.availableDelta == -t.billed && t.moduleName.Some?
    case Refund =>
      t.billed > 0 && t.frozenDelta == 0 && t.availableDelta == t.billed && t.related.Some? && t.moduleName.Some?
  }

  ghost function Summary(txns: seq<Txn>, k: AccountKey): Account {
    Account(Total(txns, InAccount(k), AvailableDelta), Total(txns, InAccount(k), FrozenDelta),
            Total(txns, InAccount(k), ToppedUp), Total(txns, InAccount(k), Consumed),
            Total(txns, InAccount(k), Refunded))
  }

  ghost predicate Books(s: Ledger) {
    && (forall t | t in s.txns :: Shape(t) && KeyOf(t) in s.accounts)
    && (forall k :: AccountOf(s, k) == Summary(s.txns, k))
    && (forall k | k in s.accounts :: WithinLimits(s.accounts[k]))
  }

  /** Each row records the balances its account had right after it. */
  ghost predicate RunningBalances(txns: seq<Txn>) {
    forall i | 0 <= i < |txns| ::
      && txns[i].availableAfter == Total(txns[..i + 1], InAccount(KeyOf(txns[i])), AvailableDelta)
      && txns[i].frozenAfter == Total(txns[..i + 1], InAccount(KeyOf(txns[i])), FrozenDelta)
  }

  predicate UniqueRows(txns: seq<Txn>) {
    forall i, j | 0 <= i < j < |txns| ::
      txns[i].id != txns[j].id && (KeyOf(txns[i]) != KeyOf(txns[j]) || txns[i].key != txns[j].key)
  }

  predicate RefundOfCharge(t: Txn, c: Txn) {
    t.related == Some(c.id) && IsCharge(c) && KeyOf(c) == KeyOf(t) && c.moduleName == t.moduleName
  }

  ghost predicate RefundsCapped(txns: seq<Txn>) {
    && (forall t | t in txns && t.kind == Refund :: exists c :: c in txns && RefundOfCharge(t, c))
    && (forall c | c in txns && IsCharge(c) :: Total(txns, RefundsOf(c.id), Billed) <= c.billed)
  }

  predicate FreezeFor(t: Txn, h: Hold) {
    && t.kind == Freeze && t.reference == h.id && KeyOf(t) == HoldAccount(h) && t.key == h.key
    && t.deployment == Some(h.deployment) && t.moduleName == Some(h.moduleName) && t.frozenDelta == h.amount
  }

  predicate ClosingFor(t: Txn, h: Hold) {
    && In(ClosingsOf(h.id), t) && KeyOf(t) == HoldAccount(h) && t.frozenDelta == -h.amount
    && h.status != Active && (t.kind == Capture <==> h.status == Captured)
  }

  predicate UniqueHolds(holds: seq<Hold>) {
    forall i, j | 0 <= i < j < |holds| :: holds[i].id != holds[j].id
  }

  ghost predicate HoldLifecycle(txns: seq<Txn>, h: Hold) {
    && h.amount > 0
    && (exists t :: t in txns && FreezeFor(t, h))
    && Total(txns, FreezesOf(h.id), Count) == 1
    && Total(txns, ClosingsOf(h.id), Count) == (if h.status == Active then 0 else 1)
  }

  ghost predicate HoldsMatchHistory(s: Ledger) {
    && UniqueHolds(s.holds)
    && (forall h | h in s.holds :: HoldAccount(h) in s.accounts && HoldLifecycle(s.txns, h))
    && (forall t | t in s.txns && t.kind == Freeze :: exists h :: h in s.holds && FreezeFor(t, h))
    && (forall t | t in s.txns && (t.kind == Capture || t.kind == Release) ::
          exists h :: h in s.holds && ClosingFor(t, h))
  }

  function Frozen(h: Hold, k: AccountKey): int {
    if h.status == Active && HoldAccount(h) == k then h.amount else 0
  }

  function ActiveSum(holds: seq<Hold>, k: AccountKey): int {
    if |holds| == 0 then 0 else ActiveSum(holds[..|holds| - 1], k) + Frozen(holds[|holds| - 1], k)
  }

  ghost predicate FrozenIsActiveHolds(s: Ledger) {
    forall k :: AccountOf(s, k).frozen == ActiveSum(s.holds, k)
  }

  /** The receipts of one deployment, in the order they were committed. */
  function ReceiptsOf(receipts: seq<Receipt>, deployment: Id): seq<Receipt> {
    if |receipts| == 0 then []
    else
      var r := receipts[|receipts| - 1];
      ReceiptsOf(receipts[..|receipts| - 1], deployment) + (if r.claim.deployment == deployment then [r] else [])
  }

  ghost predicate Contiguous(s: Ledger, deployment: Id) {
    var rs := ReceiptsOf(s.receipts, deployment);
    && |rs| == LastSequence(s, deployment)
    && forall i | 0 <= i < |rs| :: rs[i].claim.sequence == i + 1
  }

  predicate Bills(t: Txn, r: Receipt) {
    && t.id == r.txnId && t.kind == Consume && KeyOf(t) == AccountKey(r.customer, r.claim.org)
    && t.deployment == Some(r.claim.deployment) && t.moduleName == Some(r.claim.moduleName)
    && t.key == ReceiptKey(r.claim.receiptId) && t.reference == r.claim.task && t.at == r.claim.issuedAt
  }

  ghost predicate ReceiptsMatchHistory(s: Ledger) {
    && (forall d :: Contiguous(s, d))
    && (forall r | r in s.receipts :: exists t :: t in s.txns && Bills(t, r))
    && (forall i, j | 0 <= i < j < |s.receipts| ::
          && s.receipts[i].claim.receiptId != s.receipts[j].claim.receiptId
          && s.receipts[i].txnId != s.receipts[j].txnId
          && (s.receipts[i].claim.deployment == s.receipts[j].claim.deployment ==>
                s.receipts[i].claim.task != s.receipts[j].claim.task))
  }

  ghost predicate Inv(s: Ledger) {
    && Books(s)
    && RunningBalances(s.txns)
    && UniqueRows(s.txns)
    && RefundsCapped(s.txns)
    && HoldsMatchHistory(s)
    && FrozenIsActiveHolds(s)
    && ReceiptsMatchHistory(s)
  }

  /* ---- Consequences ---- */

  lemma SameRow(txns: seq<Txn>, t: Txn, u: Txn)
    requires UniqueRows(txns) && t in txns && u in txns
    requires t.id == u.id || (KeyOf(t) == KeyOf(u) && t.key == u.key)
    ensures t == u
  {
    var i :| 0 <= i < |txns| && txns[i] == t;
    var j :| 0 <= j < |txns| && txns[j] == u;
  }

  /** Under every filter, money in the account is money topped up, less consumed, plus refunded. */
  lemma {:induction false} TotalsBalance(txns: seq<Txn>, sc: Scope)
    requires forall t | t in txns :: Shape(t)
    ensures Total(txns, sc, AvailableDelta) + Total(txns, sc, FrozenDelta)
         == Total(txns, sc, ToppedUp) - Total(txns, sc, Consumed) + Total(txns, sc, Refunded)
  {
    hide In;
    if |txns| > 0 {
      var front, last := txns[..|txns| - 1], txns[|txns| - 1];
      assert Shape(last);
      TotalsBalance(front, sc);
    }
  }

  lemma {:induction false} RowInTotalAt(txns: seq<Txn>, i: nat, sc: Scope, m: Measure)
    requires i < |txns|
    requires forall j | 0 <= j < |txns| :: Contribution(sc, m, txns[j]) >= 0
    ensures Total(txns, sc, m) >= Contribution(sc, m, txns[i])
  {
    hide Contribution;
    if i < |txns| - 1 { RowInTotalAt(txns[..|txns| - 1], i, sc, m); } else { NonNegative(txns[..i], sc, m); }
  }

  lemma RowInTotal(txns: seq<Txn>, t: Txn, sc: Scope, m: Measure)
    requires t in txns && In(sc, t)
    requires forall u | u in txns :: Value(m, u) >= 0
    ensures Total(txns, sc, m) >= Value(m, t)
  {
    hide In, Value, Total;
    var i :| 0 <= i < |txns| && txns[i] == t;
    RowInTotalAt(txns, i, sc, m);
  }

  lemma {:induction false} NonNegative(txns: seq<Txn>, sc: Scope, m: Measure)
    requires forall j | 0 <= j < |txns| :: Contribution(sc, m, txns[j]) >= 0
    ensures Total(txns, sc, m) >= 0
  {
    hide Contribution;
    if |txns| > 0 { NonNegative(txns[..|txns| - 1], sc, m); }
  }

  ghost function ChargeIds(txns: seq<Txn>, k: AccountKey): set<Id> {
    set t | t in txns && In(ChargesIn(k), t) :: t.id
  }

  lemma ChargeSplits(txns: seq<Txn>, k: AccountKey, t: Txn, part: Id -> Scope)
    requires UniqueRows(txns) && t in txns
    requires forall id :: part(id) == WithId(id)
    ensures Splits(t, ChargesIn(k), Consumed, ChargeIds(txns, k), part)
  {
    hide UniqueRows;
    var ids := ChargeIds(txns, k);
    if In(ChargesIn(k), t) {
      assert t.id in ids && In(part(t.id), t);
    } else {
      forall j | j in ids ensures !In(part(j), t) {
        var u :| u in txns && In(ChargesIn(k), u) && u.id == j;
        if t.id == j { SameRow(txns, t, u); }
      }
    }
  }

  /** Summing over the charges of an account, by row id, is summing over the account. */
  lemma ChargesById(txns: seq<Txn>, k: AccountKey, f: Id -> int)
    requires UniqueRows(txns)
    requires forall id | id in ChargeIds(txns, k) :: f(id) == Total(txns, WithId(id), Consumed)
    ensures SumSet(ChargeIds(txns, k), f) == Total(txns, InAccount(k), Consumed)
  {
    var part := (id: Id) => WithId(id);
    forall t | t in txns { ChargeSplits(txns, k, t, part); }
    Partition(txns, ChargesIn(k), Consumed, ChargeIds(txns, k), part, f);
    TotalSame(txns, ChargesIn(k), Consumed, InAccount(k), Consumed);
  }

  lemma RefundSplits(txns: seq<Txn>, k: AccountKey, t: Txn, part: Id -> Scope)
    requires UniqueRows(txns) && t in txns
    requires t.kind == Refund ==> exists c :: c in txns && RefundOfCharge(t, c)
    requires forall id :: part(id) == RefundsOf(id)
    ensures Splits(t, RefundsIn(k), Billed, ChargeIds(txns, k), part)
  {
    hide UniqueRows;
    var ids := ChargeIds(txns, k);
    if t.kind == Refund {
      var c :| c in txns && RefundOfCharge(t, c);
      if KeyOf(t) == k {
        assert c.id in ids && In(part(c.id), t);
      } else if c.id in ids {
        var u :| u in txns && In(ChargesIn(k), u) && u.id == c.id;
        SameRow(txns, c, u);
        assert false;
      }
    }
  }

  /** Summing refunds per refunded charge is summing the refunds of the account. */
  lemma RefundsByCharge(txns: seq<Txn>, k: AccountKey, f: Id -> int)
    requires UniqueRows(txns)
    requires forall t | t in txns && t.kind == Refund :: exists c :: c in txns && RefundOfCharge(t, c)
    requires forall id | id in ChargeIds(txns, k) :: f(id) == Total(txns, RefundsOf(id), Billed)
    ensures SumSet(ChargeIds(txns, k), f) == Total(txns, InAccount(k), Refunded)
  {
    var part := (id: Id) => RefundsOf(id);
    forall t | t in txns { RefundSplits(txns, k, t, part); }
    Partition(txns, RefundsIn(k), Billed, ChargeIds(txns, k), part, f);
    TotalSame(txns, RefundsIn(k), Billed, InAccount(k), Refunded);
  }

  lemma CapById(txns: seq<Txn>, k: AccountKey, id: Id)
    requires RefundsCapped(txns) && id in ChargeIds(txns, k)
    requires forall t | t in txns :: Shape(t)
    ensures Total(txns, RefundsOf(id), Billed) <= Total(txns, WithId(id), Consumed)
  {
    var c :| c in txns && In(ChargesIn(k), c) && c.id == id;
    RowInTotal(txns, c, WithId(id), Consumed);
  }

  /** No account is ever refunded more than it consumed: a cap per charge caps the sum of sums. */
  lemma RefundedWithinConsumed(txns: seq<Txn>, k: AccountKey)
    requires UniqueRows(txns) && RefundsCapped(txns)
    requires forall t | t in txns :: Shape(t)
    ensures Total(txns, InAccount(k), Refunded) <= Total(txns, InAccount(k), Consumed)
  {
    var ids := ChargeIds(txns, k);
    var charged := (id: Id) => Total(txns, WithId(id), Consumed);
    var refunded := (id: Id) => Total(txns, RefundsOf(id), Billed);
    ChargesById(txns, k, charged);
    RefundsByCharge(txns, k, refunded);
    forall id | id in ids { CapById(txns, k, id); }
    SumSetLe(ids, refunded, charged);
  }

  /* ---- Preservation ---- */

  lemma InvEmpty()
    ensures Inv(EMPTY)
  {
    assert forall k :: AccountOf(EMPTY, k) == Summary(EMPTY.txns, k);
  }

  /** What a committed row promises, whichever operation drafted it. */
  ghost predicate Posted(s: Ledger, t: Txn) {
    var a := Applied(AccountOf(s, KeyOf(t)), t);
    && WithinLimits(a) && t.availableAfter == a.available && t.frozenAfter == a.frozen
    && forall u | u in s.txns :: u.id != t.id && (KeyOf(u) != KeyOf(t) || u.key != t.key)
  }

  function KindOf(op: Op): Kind {
    match op
    case CreateCreditHold(_, _, _, _, _, _, _, _, _, _) => Freeze
    case CaptureCreditHold(_, _, _, _, _, _, _) => Capture
    case ReleaseCreditHold(_, _, _, _, _, _) => Release
    case ConsumeCredits(_, _, _, _, _, _, _, _, _) => Consume
    case IngestExecutionReceipt(_, _, _, _) => Consume
    case RefundCredits(_, _, _, _, _, _, _) => Refund
    case _ => TopUp
  }

  lemma PostedRow(s: Ledger, draft: Txn, t: Txn)
    requires Post(s, draft) == Committed(t)
    ensures Posted(s, t) && t == draft.(availableAfter := t.availableAfter, frozenAfter := t.frozenAfter)
  {
  }

  /** Reads the row off the eight decisions. */
  lemma CommittedRow(s: Ledger, op: Op, t: Txn)
    requires forall u | u in s.txns :: Shape(u)
    requires forall h | h in s.holds :: h.amount > 0
    requires Decide(s, op) == Committed(t)
    ensures Shape(t) && Posted(s, t) && t.kind == KindOf(op) && !op.AdminChange?
  {
    hide Post, Posted, Applied, In, Total, FindByKey, FindHoldByKey, FindReceipt, FindById, FindHold, TaskBilled;
    forall draft: Txn | Post(s, draft) == Committed(t)
      ensures Posted(s, t) && t == draft.(availableAfter := t.availableAfter, frozenAfter := t.frozenAfter)
    {
      PostedRow(s, draft, t);
    }
    if op.CaptureCreditHold? || op.ReleaseCreditHold? || op.RefundCredits? {
      hide DecideTopUp, DecideHold, DecideConsume, DecideIngest;
    } else {
      hide DecideCapture, DecideRelease, DecideRefund;
    }
  }

  lemma SummaryAppend(txns: seq<Txn>, t: Txn, k: AccountKey)
    ensures Summary(txns + [t], k) == if KeyOf(t) == k then Applied(Summary(txns, k), t) else Summary(txns, k)
  {
    hide Total;
    TotalAppend(txns, t, InAccount(k), AvailableDelta);
    TotalAppend(txns, t, InAccount(k), FrozenDelta);
    TotalAppend(txns, t, InAccount(k), ToppedUp);
    TotalAppend(txns, t, InAccount(k), Consumed);
    TotalAppend(txns, t, InAccount(k), Refunded);
  }

  lemma KeepBooks(s: Ledger, op: Op, t: Txn)
    requires Books(s) && Shape(t) && Posted(s, t)
    ensures Books(Commit(s, op, t))
  {
    hide Shape, Summary, HoldsAfter, WithinLimits, Applied;
    var s' := Commit(s, op, t);
    forall k ensures AccountOf(s', k) == Summary(s'.txns, k) {
      SummaryAppend(s.txns, t, k);
      assert AccountOf(s, k) == Summary(s.txns, k);
    }
  }

  lemma KeepRunning(s: Ledger, op: Op, t: Txn)
    requires Books(Commit(s, op, t)) && RunningBalances(s.txns) && Posted(s, t)
    ensures RunningBalances(s.txns + [t])
  {
    hide Total, HoldsAfter;
    var all := s.txns + [t];
    var s' := Commit(s, op, t);
    assert AccountOf(s', KeyOf(t)) == Summary(all, KeyOf(t));
    forall i | 0 <= i < |all|
      ensures all[i].availableAfter == Total(all[..i + 1], InAccount(KeyOf(all[i])), AvailableDelta)
      ensures all[i].frozenAfter == Total(all[..i + 1], InAccount(KeyOf(all[i])), FrozenDelta)
    {
      if i < |s.txns| { assert all[..i + 1] == s.txns[..i + 1]; } else { assert all[..i + 1] == all; }
    }
  }

  lemma KeepUnique(s: Ledger, t: Txn)
    requires UniqueRows(s.txns) && Posted(s, t)
    ensures UniqueRows(s.txns + [t])
  {
    hide Applied, WithinLimits;
  }

  /** A refund stays under the cap of its charge; a charge starts with no refunds at all. */
  lemma CapKept(s: Ledger, op: Op, t: Txn, c: Txn)
    requires UniqueRows(s.txns) && RefundsCapped(s.txns) && Posted(s, t)
    requires Decide(s, op) == Committed(t) && Shape(t) && t.kind == KindOf(op)
    requires c in s.txns + [t] && IsCharge(c)
    ensures Total(s.txns + [t], RefundsOf(c.id), Billed) <= c.billed
  {
    hide UniqueRows, Total;
    TotalAppend(s.txns, t, RefundsOf(c.id), Billed);
    if c in s.txns {
      if op.RefundCredits? && c.id == op.relatedId { SameRow(s.txns, c, FindById(s.txns, op.relatedId).value); }
    } else {
      forall u | u in s.txns ensures !In(RefundsOf(c.id), u) {
        if u.kind == Refund { var d :| d in s.txns && RefundOfCharge(u, d); }
      }
      TotalZero(s.txns, RefundsOf(c.id), Billed);
    }
  }

  lemma KeepRefunds(s: Ledger, op: Op, t: Txn)
    requires UniqueRows(s.txns) && RefundsCapped(s.txns) && Posted(s, t)
    requires Decide(s, op) == Committed(t) && Shape(t) && t.kind == KindOf(op)
    ensures RefundsCapped(s.txns + [t])
  {
    hide UniqueRows, Total, Posted;
    var all := s.txns + [t];
    forall c | c in all && IsCharge(c) { CapKept(s, op, t, c); }
    forall u | u in all && u.kind == Refund ensures exists c :: c in all && RefundOfCharge(u, c) {
      if u in s.txns {
        var c :| c in s.txns && RefundOfCharge(u, c);
        assert c in all;
      } else {
        var original := FindById(s.txns, op.relatedId).value;
        assert RefundOfCharge(t, original) && original in all;
      }
    }
  }

  /* ---- Holds ---- */

  lemma ActiveSumAppend(holds: seq<Hold>, h: Hold, k: AccountKey)
    ensures ActiveSum(holds + [h], k) == ActiveSum(holds, k) + Frozen(h, k)
  {
    assert (holds + [h])[..|holds|] == holds;
  }

  lemma {:induction false} ActiveSumUpdate(holds: seq<Hold>, i: nat, h: Hold, k: AccountKey)
    requires i < |holds|
    ensures ActiveSum(holds[i := h], k) == ActiveSum(holds, k) - Frozen(holds[i], k) + Frozen(h, k)
  {
    var n := |holds| - 1;
    if i == n {
      assert holds[i := h][..n] == holds[..n];
    } else {
      ActiveSumUpdate(holds[..n], i, h, k);
      assert holds[i := h][..n] == holds[..n][i := h];
    }
  }

  /** An active hold is part of its account's frozen balance. */
  lemma {:induction false} ActiveSumCovers(holds: seq<Hold>, h: Hold, k: AccountKey)
    requires h in holds
    requires forall x | x in holds :: x.amount > 0
    ensures Frozen(h, k) <= ActiveSum(holds, k)
  {
    var front, last := holds[..|holds| - 1], holds[|holds| - 1];
    assert last in holds;
    if last == h { ActiveSumNonNegative(front, k); } else { ActiveSumCovers(front, h, k); }
  }

  lemma {:induction false} ActiveSumNonNegative(holds: seq<Hold>, k: AccountKey)
    requires forall x | x in holds :: x.amount > 0
    ensures ActiveSum(holds, k) >= 0
  {
    if |holds| > 0 {
      assert holds[|holds| - 1] in holds;
      ActiveSumNonNegative(holds[..|holds| - 1], k);
    }
  }

  predicate ClosesHold(op: Op) { op.CaptureCreditHold? || op.ReleaseCreditHold? }

  /** The status a closing operation writes. */
  function ClosedStatus(op: Op): HoldStatus
    requires ClosesHold(op)
  {
    if op.CaptureCreditHold? then Captured else if op.expired then Expired else Released
  }

  lemma HoldsAfterClosing(s: Ledger, op: Op, t: Txn) returns (i: nat)
    requires Decide(s, op) == Committed(t) && ClosesHold(op)
    ensures i < |s.holds| && s.holds[i].id == op.holdId && s.holds[i].status == Active
    ensures HoldsAfter(s.holds, op) == s.holds[i := s.holds[i].(status := ClosedStatus(op))]
    ensures KeyOf(t) == HoldAccount(s.holds[i]) && t.frozenDelta == -s.holds[i].amount
    ensures In(ClosingsOf(op.holdId), t) && t.kind == KindOf(op)
  {
    hide Applied, WithinLimits, FindByKey, FindById;
    i := FindHold(s.holds, op.holdId).value;
  }

  lemma HoldsAfterFreeze(s: Ledger, op: Op, t: Txn) returns (h: Hold)
    requires Decide(s, op) == Committed(t) && op.CreateCreditHold?
    ensures HoldsAfter(s.holds, op) == s.holds + [h]
    ensures FreezeFor(t, h) && h.status == Active && h.amount == op.amount && h.id == op.holdId
    ensures forall x | x in s.holds :: x.id != h.id
  {
    hide Applied, WithinLimits, FindByKey, FindById;
    h := Hold(op.holdId, op.customer, op.org, op.deployment, op.moduleName, op.amount, Active, op.key, op.expiresAt);
  }

  lemma KeepFrozen(s: Ledger, op: Op, t: Txn)
    requires FrozenIsActiveHolds(s) && Shape(t) && t.kind == KindOf(op)
    requires Decide(s, op) == Committed(t)
    ensures FrozenIsActiveHolds(Commit(s, op, t))
  {
    hide Decide, ActiveSum;
    var s' := Commit(s, op, t);
    forall k ensures AccountOf(s', k).frozen == ActiveSum(s'.holds, k) {
      assert AccountOf(s, k).frozen == ActiveSum(s.holds, k);
      if ClosesHold(op) {
        var i := HoldsAfterClosing(s, op, t);
        ActiveSumUpdate(s.holds, i, s'.holds[i], k);
      } else if op.CreateCreditHold? {
        var h := HoldsAfterFreeze(s, op, t);
        ActiveSumAppend(s.holds, h, k);
      }
    }
  }

  /** Freezes and closings name holds the table has. */
  lemma NoHistoryWithoutHold(s: Ledger, id: Id)
    requires HoldsMatchHistory(s)
    requires forall h | h in s.holds :: h.id != id
    ensures Total(s.txns, FreezesOf(id), Count) == 0 && Total(s.txns, ClosingsOf(id), Count) == 0
  {
    hide HoldLifecycle, UniqueHolds, Total;
    forall t | t in s.txns ensures !In(FreezesOf(id), t) && !In(ClosingsOf(id), t) {
      if t.kind == Freeze {
        var h :| h in s.holds && FreezeFor(t, h);
      } else if t.kind == Capture || t.kind == Release {
        var h :| h in s.holds && ClosingFor(t, h);
      }
    }
    TotalZero(s.txns, FreezesOf(id), Count);
    TotalZero(s.txns, ClosingsOf(id), Count);
  }

  /** A row about another hold leaves a hold's lifecycle alone. */
  lemma OtherLifecycle(txns: seq<Txn>, t: Txn, h: Hold)
    requires HoldLifecycle(txns, h)
    requires !In(FreezesOf(h.id), t) && !In(ClosingsOf(h.id), t)
    ensures HoldLifecycle(txns + [t], h)
  {
    hide FreezeFor, Total;
    TotalAppend(txns, t, FreezesOf(h.id), Count);
    TotalAppend(txns, t, ClosingsOf(h.id), Count);
    var f :| f in txns && FreezeFor(f, h);
    assert f in txns + [t];
  }

  lemma ClosedLifecycle(txns: seq<Txn>, t: Txn, h: Hold, h': Hold)
    requires HoldLifecycle(txns, h) && h.status == Active
    requires h' == h.(status := h'.status) && h'.status != Active
    requires t.kind != Freeze && In(ClosingsOf(h.id), t)
    ensures HoldLifecycle(txns + [t], h')
  {
    hide Total;
    TotalAppend(txns, t, FreezesOf(h.id), Count);
    TotalAppend(txns, t, ClosingsOf(h.id), Count);
    var f :| f in txns && FreezeFor(f, h);
    assert f in txns + [t] && FreezeFor(f, h');
  }

  lemma OpenedLifecycle(s: Ledger, t: Txn, h: Hold)
    requires HoldsMatchHistory(s) && forall x | x in s.holds :: x.id != h.id
    requires FreezeFor(t, h) && h.status == Active && h.amount > 0
    ensures HoldLifecycle(s.txns + [t], h)
  {
    hide Total, HoldsMatchHistory;
    NoHistoryWithoutHold(s, h.id);
    TotalAppend(s.txns, t, FreezesOf(h.id), Count);
    TotalAppend(s.txns, t, ClosingsOf(h.id), Count);
    assert t in s.txns + [t];
  }

  lemma KeepHoldsOpened(s: Ledger, op: Op, t: Txn)
    requires HoldsMatchHistory(s) && Decide(s, op) == Committed(t) && op.CreateCreditHold?
    requires t.kind == Freeze
    ensures HoldsMatchHistory(Commit(s, op, t))
  {
    hide Decide, HoldLifecycle, FreezeFor, ClosingFor, HoldsAfter, Applied;
    var h := HoldsAfterFreeze(s, op, t);
    var s' := Commit(s, op, t);
    assert s'.holds == s.holds + [h];
    assert h.id == op.holdId && KeyOf(t) == HoldAccount(h) && t.reference == h.id by { assert FreezeFor(t, h); FreezeFields(t, h); }
    OpenedLifecycle(s, t, h);
    forall x | x in s'.holds ensures HoldAccount(x) in s'.accounts && HoldLifecycle(s'.txns, x) {
      if x in s.holds { OtherLifecycle(s.txns, t, x); }
    }
    forall u | u in s'.txns && u.kind == Freeze ensures exists x :: x in s'.holds && FreezeFor(u, x) {
      if u in s.txns {
        var x :| x in s.holds && FreezeFor(u, x);
        assert x in s'.holds;
      } else {
        assert h in s'.holds && FreezeFor(u, h);
      }
    }
    forall u | u in s'.txns && (u.kind == Capture || u.kind == Release)
      ensures exists x :: x in s'.holds && ClosingFor(u, x)
    {
      var x :| x in s.holds && ClosingFor(u, x);
      assert x in s'.holds;
    }
  }

  lemma FreezeFields(t: Txn, h: Hold)
    requires FreezeFor(t, h)
    ensures KeyOf(t) == HoldAccount(h) && t.reference == h.id && t.kind == Freeze
  {
  }

  lemma KeepHoldsClosed(s: Ledger, op: Op, t: Txn)
    requires HoldsMatchHistory(s) && Decide(s, op) == Committed(t) && ClosesHold(op)
    ensures HoldsMatchHistory(Commit(s, op, t))
  {
    hide Decide, HoldLifecycle, HoldsAfter, Applied;
    var i := HoldsAfterClosing(s, op, t);
    var s' := Commit(s, op, t);
    var h, h' := s.holds[i], s.holds[i].(status := ClosedStatus(op));
    assert s'.holds == s.holds[i := h'];
    assert h in s.holds && HoldLifecycle(s.txns, h);
    ClosedLifecycle(s.txns, t, h, h');
    forall j | 0 <= j < |s'.holds| ensures HoldAccount(s'.holds[j]) in s'.accounts && HoldLifecycle(s'.txns, s'.holds[j]) {
      if j != i {
        assert s.holds[j] in s.holds && s.holds[j].id != h.id;
        OtherLifecycle(s.txns, t, s.holds[j]);
      }
    }
    forall u | u in s'.txns && u.kind == Freeze ensures exists x :: x in s'.holds && FreezeFor(u, x) {
      var x :| x in s.holds && FreezeFor(u, x);
      var j :| 0 <= j < |s.holds| && s.holds[j] == x;
      assert s'.holds[j] in s'.holds && FreezeFor(u, s'.holds[j]);
    }
    forall u | u in s'.txns && (u.kind == Capture || u.kind == Release)
      ensures exists x :: x in s'.holds && ClosingFor(u, x)
    {
      if u in s.txns {
        var x :| x in s.holds && ClosingFor(u, x);
        var j :| 0 <= j < |s.holds| && s.holds[j] == x;
        assert s'.holds[j] in s'.holds && ClosingFor(u, s'.holds[j]);
      } else {
        assert s'.holds[i] in s'.holds && ClosingFor(u, h');
      }
    }
  }

  lemma KeepHoldsUntouched(s: Ledger, s': Ledger, t: Txn)
    requires HoldsMatchHistory(s)
    requires s'.holds == s.holds && s'.txns == s.txns + [t] && s.accounts.Keys <= s'.accounts.Keys
    requires t.kind != Freeze && t.kind != Capture && t.kind != Release
    ensures HoldsMatchHistory(s')
  {
    hide HoldLifecycle, FreezeFor, ClosingFor, UniqueHolds;
    forall x | x in s'.holds ensures HoldLifecycle(s'.txns, x) { OtherLifecycle(s.txns, t, x); }
  }

  lemma KeepHolds(s: Ledger, op: Op, t: Txn)
    requires HoldsMatchHistory(s) && Decide(s, op) == Committed(t) && t.kind == KindOf(op) && !op.AdminChange?
    ensures HoldsMatchHistory(Commit(s, op, t))
  {
    hide Decide, HoldsMatchHistory;
    if op.CreateCreditHold? {
      KeepHoldsOpened(s, op, t);
    } else if ClosesHold(op) {
      KeepHoldsClosed(s, op, t);
    } else {
      KeepHoldsUntouched(s, Commit(s, op, t), t);
    }
  }

  /* ---- Receipts ---- */

  lemma ReceiptsOfAppend(rs: seq<Receipt>, r: Receipt, deployment: Id)
    ensures ReceiptsOf(rs + [r], deployment)
         == ReceiptsOf(rs, deployment) + (if r.claim.deployment == deployment then [r] else [])
  {
    assert (rs + [r])[..|rs|] == rs;
  }

  lemma NewReceipt(s: Ledger, op: Op, t: Txn)
    requires Decide(s, op) == Committed(t) && op.IngestExecutionReceipt?
    ensures op.claim.sequence == LastSequence(s, op.claim.deployment) + 1
    ensures Bills(t, Receipt(op.customer, op.claim, t.id))
    ensures forall r | r in s.receipts ::
      && r.claim.receiptId != op.claim.receiptId
      && (r.claim.deployment == op.claim.deployment ==> r.claim.task != op.claim.task)
  {
    hide Applied, WithinLimits, FindByKey, FindById;
  }

  lemma KeepContiguous(s: Ledger, op: Op, t: Txn, d: Id)
    requires Contiguous(s, d) && Decide(s, op) == Committed(t) && op.IngestExecutionReceipt?
    ensures Contiguous(Commit(s, op, t), d)
  {
    hide Decide, ReceiptsOf, HoldsAfter;
    NewReceipt(s, op, t);
    ReceiptsOfAppend(s.receipts, Receipt(op.customer, op.claim, t.id), d);
  }

  lemma KeepReceipts(s: Ledger, op: Op, t: Txn)
    requires ReceiptsMatchHistory(s) && Decide(s, op) == Committed(t) && Posted(s, t) && !op.AdminChange?
    ensures ReceiptsMatchHistory(Commit(s, op, t))
  {
    hide Decide, Bills, ReceiptsOf, HoldsAfter, Applied, WithinLimits;
    var s' := Commit(s, op, t);
    forall r | r in s'.receipts ensures exists u :: u in s'.txns && Bills(u, r) {
      if r in s.receipts {
        var u :| u in s.txns && Bills(u, r);
        assert u in s'.txns;
      } else {
        NewReceipt(s, op, t);
        assert t in s'.txns;
      }
    }
    if op.IngestExecutionReceipt? {
      hide Contiguous;
      NewReceipt(s, op, t);
      forall d ensures Contiguous(s', d) { KeepContiguous(s, op, t, d); }
      forall r | r in s.receipts ensures r.txnId != t.id {
        var u :| u in s.txns && Bills(u, r);
        BilledId(u, r);
      }
    } else {
      forall d ensures Contiguous(s', d) { assert Contiguous(s, d); }
    }
  }

  lemma BilledId(t: Txn, r: Receipt)
    requires Bills(t, r)
    ensures t.id == r.txnId
  {
  }

  /* ---- Every step, every run ---- */

  /** A replay finds the account row already there. */
  lemma OpenedUnchanged(s: Ledger, t: Txn)
    requires t in s.txns && KeyOf(t) in s.accounts
    ensures Opened(s, KeyOf(t)) == s
  {
    assert s.accounts[KeyOf(t) := s.accounts[KeyOf(t)]] == s.accounts;
  }

  lemma ReplayedRow(s: Ledger, op: Op, t: Txn)
    requires Decide(s, op) == Replayed(t)
    ensures t in s.txns
  {
    hide Post, In, Total;
  }

  lemma CommitKeepsInv(s: Ledger, op: Op, t: Txn)
    requires Inv(s) && Decide(s, op) == Committed(t)
    ensures Inv(Commit(s, op, t))
  {
    hide Decide, Posted, Shape, RunningBalances, RefundsCapped, UniqueRows, FrozenIsActiveHolds, ReceiptsMatchHistory;
    assert forall h | h in s.holds :: h.amount > 0 by { assert forall h | h in s.holds :: HoldLifecycle(s.txns, h); }
    CommittedRow(s, op, t);
    KeepBooks(s, op, t);
    hide Books, HoldsMatchHistory;
    KeepRunning(s, op, t);
    KeepUnique(s, t);
    KeepRefunds(s, op, t);
    KeepFrozen(s, op, t);
    KeepHolds(s, op, t);
    KeepReceipts(s, op, t);
  }

  lemma StepKeepsInv(s: Ledger, op: Op)
    requires Inv(s)
    ensures Inv(Step(s, op).0)
    ensures !Step(s, op).1.Committed? && !op.AdminChange? ==> Step(s, op).0 == s
  {
    hide Decide;
    match Decide(s, op)
    case Committed(t) =>
      hide Inv;
      CommitKeepsInv(s, op, t);
    case Replayed(t) =>
      hide Shape, Summary, RunningBalances, RefundsCapped, UniqueRows, HoldsMatchHistory, FrozenIsActiveHolds, ReceiptsMatchHistory;
      ReplayedRow(s, op, t);
      OpenedUnchanged(s, t);
    case Rejected(_) =>
    case Acknowledged =>
      if op.AdminChange? { AdminKeepsInv(s, op); }
  }

  lemma AdminKeepsInv(s: Ledger, op: Op)
    requires Inv(s) && op.AdminChange?
    ensures Inv(s.(customers := op.customers, activeKeys := op.activeKeys))
  {
    var s' := s.(customers := op.customers, activeKeys := op.activeKeys);
    assert forall k :: AccountOf(s', k) == AccountOf(s, k);
    assert forall d :: Contiguous(s, d) ==> Contiguous(s', d);
  }

  /** The invariant holds in every ledger that any run of transactions reaches. */
  lemma {:induction false} RunKeepsInv(s: Ledger, ops: seq<Op>)
    requires Inv(s)
    ensures Inv(Run(s, ops))
  {
    hide Inv, Step;
    if |ops| > 0 {
      RunKeepsInv(s, ops[..|ops| - 1]);
      StepKeepsInv(Run(s, ops[..|ops| - 1]), ops[|ops| - 1]);
    }
  }
}
