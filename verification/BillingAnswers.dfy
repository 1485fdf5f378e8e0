/** What a metered submission is charged and what it writes, in whole numbers and columns. */
module BillingAnswers {
  import opened Options
  import opened Ledger
  import opened LedgerInvariant
  import opened LedgerTheorems
  import opened LedgerAnswers
  import opened Billing
  import ExpirySweep
  import Pricing
  import Doubles

  /** The charge: every started unit of `unitSize` costs `creditsPerUnit`. */
  function StartedUnits(units: int, unitSize: Units): int { if units % unitSize == 0 then units / unitSize else units / unitSize + 1 }

  lemma StartedIsCeiling(units: int, unitSize: Units)
    requires units >= 0
    ensures StartedUnits(units, unitSize) == Pricing.CeilDiv(units, unitSize)
  {
    var q, r := units / unitSize, units % unitSize;
    assert units == q * unitSize + r;
    if r == 0 {
      DivOf(q, unitSize, unitSize - 1);
    } else {
      assert units + unitSize - 1 == (q + 1) * unitSize + (r - 1);
      DivOf(q + 1, unitSize, r - 1);
    }
  }

  lemma DivOf(q: int, n: int, r: int)
    requires 0 <= r < n
    ensures (q * n + r) / n == q
  {
    var m := q * n + r;
    assert m == (m / n) * n + m % n;
    if m / n < q { MulMore(m / n + 1, q, n); }
    if m / n > q { MulMore(q + 1, m / n, n); }
  }

  lemma MulMore(a: int, b: int, n: int)
    requires a <= b && n >= 0
    ensures a * n <= b * n
  {
    assert b * n - a * n == (b - a) * n;
  }

  /** The module a submission is for: the one it names, or that of its hold if the hold is its own. */
  ghost predicate ForModule(s: Ledger, sub: Submission, m: Id) {
    match sub
    case UsageReport(_, _, _, moduleName, _, _, _) => m == moduleName
    case HoldRequest(_, _, _, moduleName, _, _) => m == moduleName
    case SignedReceipt(_, claim) => m == claim.moduleName
    case HoldCapture(holdId, customer, org, deployment, _, _, _) =>
      exists h | h in s.holds :: h.id == holdId && h.customer == customer && h.org == org && h.deployment == deployment && h.moduleName == m
  }

  lemma ModuleIs(s: Ledger, sub: Submission)
    requires Inv(s)
    ensures forall m :: ModuleOf(s, sub) == Some(m) <==> ForModule(s, sub, m)
  {
    if sub.HoldCapture? { HoldIs(s, sub.holdId); }
    hide Inv, FindHold;
    forall m ensures ModuleOf(s, sub) == Some(m) <==> ForModule(s, sub, m) {
      if sub.HoldCapture? && ModuleOf(s, sub) == Some(m) {
        var h := s.holds[FindHold(s.holds, sub.holdId).value];
        assert h in s.holds;
      }
    }
  }

  /** A submission is priced exactly when its module has a rate for the customer, its units are from 1 to
      9e12 and the charge is at most 9e15; and then at that charge. */
  lemma QuoteIff(s: Ledger, sub: Submission, rates: Rates, price: int)
    requires Inv(s)
    ensures Quote(s, sub, rates) == Some(price) <==>
      exists m :: ForModule(s, sub, m) && (sub.customer, m) in rates && 1 <= UnitsOf(sub) <= 9_000_000_000_000
        && price == StartedUnits(UnitsOf(sub), rates[(sub.customer, m)].unitSize) * rates[(sub.customer, m)].creditsPerUnit
        && price <= 9_000_000_000_000_000
  {
    ModuleIs(s, sub);
    hide Inv, ModuleOf, ForModule;
    var found := ModuleOf(s, sub);
    if found.Some? && (sub.customer, found.value) in rates && 1 <= UnitsOf(sub) <= MAX_UNITS {
      var rate := rates[(sub.customer, found.value)];
      assert MAX_UNITS < Doubles.TWO53;
      StartedIsCeiling(UnitsOf(sub), rate.unitSize);
      Pricing.PriceExact(UnitsOf(sub), rate.unitSize, rate.creditsPerUnit);
    }
    hide Pricing.Price, Pricing.CeilDiv, StartedUnits;
  }

  /** A submission without a price changes nothing; one with a price is answered by the ledger alone. */
  lemma SubmitIs(s: Ledger, sub: Submission, rates: Rates, d: Draw)
    ensures Submit(s, sub, rates, d).1 == Turned <==> Quote(s, sub, rates).None?
    ensures Submit(s, sub, rates, d).1 == Turned ==> Submit(s, sub, rates, d).0 == s
  {
    hide Quote, Step;
  }

  /** The hold a request asks for, with the id and the deadline drawn for it. */
  function HoldOf(sub: Submission, d: Draw, amount: int): Hold
    requires sub.HoldRequest?
  {
    Hold(d.holdId, sub.customer, sub.org, sub.deployment, sub.moduleName, amount, Active, sub.key, d.expiresAt)
  }

  /** What a committed submission writes: one row with the row id and time drawn for it (a receipt is
      dated by its claim), under its own key, for the price; and for a hold, an active hold with the hold
      id and the deadline drawn for it. */
  lemma SubmissionWrites(s: Ledger, sub: Submission, rates: Rates, d: Draw)
    requires Inv(s) && Submit(s, sub, rates, d).1.Answered? && Submit(s, sub, rates, d).1.outcome.Committed?
    ensures var (next, t) := (Submit(s, sub, rates, d).0, Submit(s, sub, rates, d).1.outcome.txn);
      && next.txns == s.txns + [t] && t.id == d.txnId && t.customer == sub.customer
      && t.at == (if sub.SignedReceipt? then sub.claim.issuedAt else d.at)
      && t.key == (if sub.SignedReceipt? then "receipt:" + sub.claim.receiptId else sub.key)
      && t.org == (if sub.SignedReceipt? then sub.claim.org else sub.org)
      && t.deployment == Some(if sub.SignedReceipt? then sub.claim.deployment else sub.deployment)
      && t.moduleName.Some? && ForModule(s, sub, t.moduleName.value)
      && Quote(s, sub, rates) == Some(if sub.HoldRequest? then t.frozenDelta else t.billed)
      && t.kind == (if sub.HoldRequest? then Freeze else if sub.HoldCapture? then Capture else Consume)
      && (sub.HoldRequest? ==> t.reference == d.holdId && next.holds == s.holds + [HoldOf(sub, d, t.frozenDelta)])
      && (sub.UsageReport? || sub.HoldCapture? ==> t.reference == sub.reference)
  {
    var price := Quote(s, sub, rates).value;
    var op := Charged(sub, price, d);
    ModuleIs(s, sub);
    StepLeaves(s, op);
    AnswerIsDecided(s, op);
    match sub
    case UsageReport(_, _, _, _, _, _, _) => ConsumeAnswers(s, op); hide Inv, Decide, Quote, Step, ForModule, ModuleOf, KeySpent;
    case HoldRequest(_, _, _, _, _, _) => HoldAnswers(s, op); hide Inv, Decide, Quote, Step, ForModule, ModuleOf, KeySpent;
    case HoldCapture(_, _, _, _, _, _, _) =>
      var h := OwnHold(s, sub);
      CaptureAnswers(s, op, h);
      hide Inv, Decide, Quote, Step, ModuleOf, KeySpent;
    case SignedReceipt(_, _) => ReceiptAnswers(s, op); hide Inv, Decide, Quote, Step, ForModule, ModuleOf, KeySpent;
  }

  lemma OwnHold(s: Ledger, sub: Submission) returns (h: Hold)
    requires Inv(s) && sub.HoldCapture? && ModuleOf(s, sub).Some?
    ensures h in s.holds && h.id == sub.holdId && h.customer == sub.customer && h.org == sub.org && h.deployment == sub.deployment
    ensures ModuleOf(s, sub) == Some(h.moduleName)
  {
    hide Inv, FindHold;
    h := s.holds[FindHold(s.holds, sub.holdId).value];
  }

  /** The sweep is for exactly the customer's active holds that a capture would find expired. */
  lemma OverdueIff(s: Ledger, h: Hold, op: Op)
    requires Inv(s) && h in s.holds && op.CaptureCreditHold? && op.holdId == h.id && op.customer == h.customer
    requires !KeySpent(s, HoldAccount(h), op.key)
    ensures ExpirySweep.Overdue(h, op.customer, op.at) <==> Decide(s, op) == Rejected(HoldExpired)
    ensures forall other | other != h.customer :: !ExpirySweep.Overdue(h, other, op.at)
  {
    CaptureAnswers(s, op, h);
    hide Inv, Decide, KeySpent;
  }

  /** A hold the sweep releases ends as expired, not as released, under the sweep's own key. */
  lemma SweptEndsExpired(s: Ledger, txnId: Id, h: Hold, now: int)
    requires Inv(s) && h in s.holds
    requires Step(s, ExpirySweep.ExpiryRelease(txnId, h.id, h.customer, now)).1.Committed?
    ensures var (next, answer) := Step(s, ExpirySweep.ExpiryRelease(txnId, h.id, h.customer, now));
      Restated(s.holds, next.holds, h.id, Expired) && answer.txn.key == "expiry:" + h.id && answer.txn.id == txnId && answer.txn.at == now
  {
    var op := ExpirySweep.ExpiryRelease(txnId, h.id, h.customer, now);
    AnswerIsDecided(s, op);
    StepLeaves(s, op);
    ReleaseAnswers(s, op, h);
    hide Inv, Decide, Step, KeySpent;
  }
}
