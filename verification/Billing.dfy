/** The billing service's metered submissions: each names units, and is charged at the rate in force
    when it arrives. */
module Billing {
  import opened Options
  import opened Ledger
  import opened LedgerInvariant
  import opened LedgerTheorems
  import opened LedgerReplay
  import ExpirySweep
  import Doubles
  import Pricing

  const MAX_UNITS: int := 9_000_000_000_000

  type Units = x: int | 1 <= x <= MAX_UNITS witness 1

  /** The rate table's CHECKs and the service's own bound on the unit size. */
  datatype Rate = Rate(unitSize: Units, creditsPerUnit: Credits)

  /** Rates in force, by customer and module. */
  type Rates = map<(Id, Id), Rate>

  /** What a deployment sends; the price is not part of it. */
  datatype Submission =
    | UsageReport(customer: Id, org: Id, deployment: Id, moduleName: Id, units: Units, key: Id, reference: Id)
    | HoldRequest(customer: Id, org: Id, deployment: Id, moduleName: Id, units: Units, key: Id)
    | HoldCapture(holdId: Id, customer: Id, org: Id, deployment: Id, units: Units, key: Id, reference: Id)
    | SignedReceipt(customer: Id, claim: Claim)

  /** What the server draws anew for every submission. */
  datatype Draw = Draw(txnId: Id, holdId: Id, expiresAt: int, at: int)

  /** `Turned` away before any transaction, or the transaction's own answer. */
  datatype Answer = Turned | Answered(outcome: Outcome)

  /** The module a submission is charged for; a capture is charged for its hold's, if the hold is the
      deployment's own. */
  function ModuleOf(s: Ledger, sub: Submission): Option<Id> {
    match sub
    case UsageReport(_, _, _, moduleName, _, _, _) => Some(moduleName)
    case HoldRequest(_, _, _, moduleName, _, _) => Some(moduleName)
    case HoldCapture(holdId, customer, org, deployment, _, _, _) =>
      (match FindHold(s.holds, holdId)
       case None => None
       case Some(i) =>
         var h := s.holds[i];
         if h.customer == customer && h.deployment == deployment && h.org == org then Some(h.moduleName) else None)
    case SignedReceipt(_, claim) => Some(claim.moduleName)
  }

  function UnitsOf(sub: Submission): int {
    if sub.SignedReceipt? then sub.claim.units else sub.units
  }

  /** The price at the rates in force, if there is a rate and the price is in range. */
  function Quote(s: Ledger, sub: Submission, rates: Rates): (price: Option<int>)
    ensures price.Some? ==> 1 <= price.value <= MAX_CREDITS && ModuleOf(s, sub).Some?
  {
    var moduleName :- ModuleOf(s, sub);
    if (sub.customer, moduleName) !in rates || !(1 <= UnitsOf(sub) <= MAX_UNITS) then None
    else
      var rate := rates[(sub.customer, moduleName)];
      assert 1 <= MAX_UNITS < Doubles.TWO53;
      Pricing.PriceIsCredits(UnitsOf(sub), rate.unitSize, rate.creditsPerUnit);
      Pricing.Price(UnitsOf(sub), rate.unitSize, rate.creditsPerUnit)
  }

  function Charged(sub: Submission, price: Credits, d: Draw): Op {
    match sub
    case UsageReport(customer, org, deployment, moduleName, _, key, reference) =>
      ConsumeCredits(d.txnId, customer, org, deployment, moduleName, price, key, reference, d.at)
    case HoldRequest(customer, org, deployment, moduleName, _, key) =>
      CreateCreditHold(d.txnId, d.holdId, customer, org, deployment, moduleName, price, key, d.expiresAt, d.at)
    case HoldCapture(holdId, customer, _, _, _, key, reference) =>
      CaptureCreditHold(d.txnId, holdId, customer, price, key, reference, d.at)
    case SignedReceipt(customer, claim) => IngestExecutionReceipt(d.txnId, customer, price, claim)
  }

  function Submit(s: Ledger, sub: Submission, rates: Rates, d: Draw): (Ledger, Answer) {
    match Quote(s, sub, rates)
    case None => (s, Turned)
    case Some(price) => var (s', outcome) := Step(s, Charged(sub, price, d)); (s', Answered(outcome))
  }

  /** The credits a row set aside or took for its submission. */
  function AmountOf(sub: Submission, t: Txn): int {
    if sub.HoldRequest? then t.frozenDelta else t.billed
  }

  /* ---- Runs ---- */

  lemma {:induction false} RunOnward(s: Ledger, a: seq<Op>, b: seq<Op>)
    ensures Run(Run(s, a), b) == Run(s, a + b)
  {
    hide Step;
    if |b| == 0 {
      assert a + b == a;
    } else {
      RunOnward(s, a, b[..|b| - 1]);
      assert (a + b)[..|a + b| - 1] == a + b[..|b| - 1];
    }
  }

  /** A hold keeps its place and its terms through any run. */
  lemma {:induction false} HoldTermsStay(s: Ledger, ops: seq<Op>, i: nat)
    requires i < |s.holds|
    ensures i < |Run(s, ops).holds| && Run(s, ops).holds[i].(status := s.holds[i].status) == s.holds[i]
  {
    hide Step;
    if |ops| > 0 {
      HoldTermsStay(s, ops[..|ops| - 1], i);
      ExpirySweep.HoldsOnlyClose(Run(s, ops[..|ops| - 1]), ops[|ops| - 1], i);
    }
  }

  predicate HoldIn(s: Ledger, holdId: Id, org: Id) {
    FindHold(s.holds, holdId).Some? && s.holds[FindHold(s.holds, holdId).value].org == org
  }

  lemma SameModule(s: Ledger, sub: Submission, ops: seq<Op>)
    requires Inv(s) && Inv(Run(s, ops)) && ModuleOf(s, sub).Some?
    ensures ModuleOf(Run(s, ops), sub) == ModuleOf(s, sub)
    ensures sub.HoldCapture? ==> HoldIn(Run(s, ops), sub.holdId, sub.org)
  {
    hide Inv, Run;
    if sub.HoldCapture? {
      var i := FindHold(s.holds, sub.holdId).value;
      HoldTermsStay(s, ops, i);
      FindsHold(Run(s, ops), Run(s, ops).holds[i]);
    }
  }

  /* ---- The same submission at another rate ---- */

  lemma SamePriceSameRequest(sub: Submission, price: Credits, again: Credits, d: Draw, e: Draw)
    requires sub.SignedReceipt? || price == again
    ensures SameRequest(Charged(sub, price, d), Charged(sub, again, e))
  {
  }

  lemma OtherPriceOtherRequest(sub: Submission, t: Txn, price: Credits, d: Draw)
    requires !sub.SignedReceipt? && price != AmountOf(sub, t)
    ensures !Records(t, Charged(sub, price, d))
  {
  }

  lemma RecordsPrice(sub: Submission, t: Txn, price: Credits, d: Draw)
    requires Records(t, Charged(sub, price, d)) && !sub.SignedReceipt?
    ensures AmountOf(sub, t) == price
  {
  }

  lemma SlotOfSubmission(s: Ledger, sub: Submission, price: Credits, d: Draw, t: Txn)
    requires Records(t, Charged(sub, price, d)) && (sub.HoldCapture? ==> t.org == sub.org && HoldIn(s, sub.holdId, sub.org))
    ensures forall again: Credits, e: Draw :: Slot(s, Charged(sub, again, e)) == Some((KeyOf(t), t.key))
  {
    hide FindHold;
  }

  /** Once a metered submission has committed, the same submission at the rates then in force, after
      any further traffic, is answered with the original row exactly when it still prices to the
      amount that row took; for a signed receipt, exactly when it still has a price at all. Otherwise
      it is refused. In every case no table changes. */
  lemma ResubmissionAtNewRates(before: seq<Op>, sub: Submission, rates: Rates, d: Draw, after: seq<Op>, newRates: Rates, e: Draw)
    requires Submit(Reached(before), sub, rates, d).1.Answered? && Submit(Reached(before), sub, rates, d).1.outcome.Committed?
    ensures var (s1, t) := (Submit(Reached(before), sub, rates, d).0, Submit(Reached(before), sub, rates, d).1.outcome.txn);
      var s := Run(s1, after);
      && Submit(s, sub, newRates, e).0 == s
      && (Submit(s, sub, newRates, e).1 == Answered(Replayed(t)) <==>
            Quote(s, sub, newRates).Some? && (sub.SignedReceipt? || Quote(s, sub, newRates).value == AmountOf(sub, t)))
      && (Submit(s, sub, newRates, e).1 == Answered(Replayed(t)) || Submit(s, sub, newRates, e).1 == Turned
          || Submit(s, sub, newRates, e).1.outcome.Rejected?)
  {
    hide Inv, Run, Quote, Decide, Records, SameRequest, Slot, Commit;
    var price := Quote(Reached(before), sub, rates).value;
    var op := Charged(sub, price, d);
    var t := Decide(Reached(before), op).txn;
    CommittedRecords(Reached(before), op, t);
    var s := Run(Step(Reached(before), op).0, after);
    if Quote(s, sub, newRates).Some? {
      var again := Quote(s, sub, newRates).value;
      if sub.SignedReceipt? || again == price {
        SamePriceSameRequest(sub, price, again, d, e);
        ResubmissionReplays(before, op, after, Charged(sub, again, e));
        if !sub.SignedReceipt? { RecordsPrice(sub, t, price, d); }
      } else {
        RecordsPrice(sub, t, price, d);
        OtherPriceRefused(before, sub, price, d, after, again, e);
      }
    }
  }

  lemma OtherPriceRefused(before: seq<Op>, sub: Submission, price: Credits, d: Draw, after: seq<Op>, again: Credits, e: Draw)
    requires !sub.SignedReceipt? && ModuleOf(Reached(before), sub).Some? && price != again
    requires Decide(Reached(before), Charged(sub, price, d)).Committed?
    ensures var s := Run(Step(Reached(before), Charged(sub, price, d)).0, after);
      Step(s, Charged(sub, again, e)).0 == s && Step(s, Charged(sub, again, e)).1.Rejected?
  {
    hide Inv, Run, Decide, Records, Slot, Commit;
    var op := Charged(sub, price, d);
    var t := Decide(Reached(before), op).txn;
    var all := before + [op] + after;
    ReachedOnward(before, op, after);
    assert t in Reached(all).txns by { RowRemains(before, op, after); }
    CommittedRecords(Reached(before), op, t);
    RecordsPrice(sub, t, price, d);
    OtherPriceOtherRequest(sub, t, again, e);
    if sub.HoldCapture? { CaptureInOrg(before, sub, price, d, after); }
    SlotOfSubmission(Reached(all), sub, price, d, t);
    SpentKeyChangesNothing(all, Charged(sub, again, e), t);
  }

  lemma ReachedOnward(before: seq<Op>, op: Op, after: seq<Op>)
    ensures Run(Step(Reached(before), op).0, after) == Reached(before + [op] + after)
  {
    hide Step, Inv;
    RunOnward(EMPTY, before, [op]);
    RunOnward(EMPTY, before + [op], after);
    assert [op][..0] == [] && Run(Reached(before), []) == Reached(before);
    assert Run(Reached(before), [op]) == Step(Reached(before), op).0;
  }

  lemma RowRemains(before: seq<Op>, op: Op, after: seq<Op>)
    requires Decide(Reached(before), op).Committed?
    ensures Decide(Reached(before), op).txn in Run(Step(Reached(before), op).0, after).txns
  {
    hide Decide, Run, Inv;
    var s1 := Step(Reached(before), op).0;
    RunAppends(s1, after);
    assert s1.txns[|s1.txns| - 1] == Decide(Reached(before), op).txn;
  }

  lemma CaptureInOrg(before: seq<Op>, sub: Submission, price: Credits, d: Draw, after: seq<Op>)
    requires sub.HoldCapture? && ModuleOf(Reached(before), sub).Some?
    requires Decide(Reached(before), Charged(sub, price, d)).Committed?
    ensures Decide(Reached(before), Charged(sub, price, d)).txn.org == sub.org
    ensures HoldIn(Reached(before + [Charged(sub, price, d)] + after), sub.holdId, sub.org)
  {
    hide Inv, Run, Commit, Post;
    var op := Charged(sub, price, d);
    var rest := [op] + after;
    RunOnward(EMPTY, before, rest);
    assert before + rest == before + [op] + after;
    RunKeepsInv(Reached(before), rest);
    SameModule(Reached(before), sub, rest);
    CommittedInSlot(Reached(before), op, Decide(Reached(before), op).txn);
  }

  /* ---- A run whose retry is refused ---- */

  /** A usage report of ten units, billed at one credit a unit; the rate doubles, and the retry of the
      very same report is refused. At the old rate it is answered with its row. */
  lemma RetryRefusedAfterRateChange(x: ExpirySweep.Story, reference: Id)
    requires x.Distinct()
    ensures var (sub, d) := (UsageReport(x.customer, x.org, x.deployment, x.moduleName, 10, x.key2, reference), Draw(x.txn2, x.hold, 5, 0));
      var (cheap, dear) := (map[(x.customer, x.moduleName) := Rate(1, 1)], map[(x.customer, x.moduleName) := Rate(1, 2)]);
      var (s, answer) := Submit(Reached([x.Enroll(), x.Fund()]), sub, cheap, d);
      && answer.Answered? && answer.outcome.Committed? && answer.outcome.txn.billed == 10
      && Submit(s, sub, dear, d).0 == s && Submit(s, sub, dear, d).1 != Answered(answer.outcome)
      && Submit(s, sub, dear, d).1 != Answered(Replayed(answer.outcome.txn))
      && Submit(s, sub, cheap, d) == (s, Answered(Replayed(answer.outcome.txn)))
  {
    var sub := UsageReport(x.customer, x.org, x.deployment, x.moduleName, 10, x.key2, reference);
    var d := Draw(x.txn2, x.hold, 5, 0);
    var cheap, dear := map[(x.customer, x.moduleName) := Rate(1, 1)], map[(x.customer, x.moduleName) := Rate(1, 2)];
    var before := [x.Enroll(), x.Fund()];
    hide Inv;
    FundedFor(x);
    UsagePrices(Reached(before), sub, cheap, 1);
    UsageCommits(x, reference);
    hide Decide, Run, Quote, Step;
    var s := Submit(Reached(before), sub, cheap, d).0;
    assert Run(s, []) == s by { RunNothing(s); }
    UsagePrices(s, sub, cheap, 1);
    UsagePrices(s, sub, dear, 2);
    ResubmissionAtNewRates(before, sub, cheap, d, [], cheap, d);
    ResubmissionAtNewRates(before, sub, cheap, d, [], dear, d);
  }

  lemma RunNothing(s: Ledger)
    ensures Run(s, []) == s
  {
  }

  lemma UsagePrices(s: Ledger, sub: Submission, rates: Rates, perUnit: int)
    requires sub.UsageReport? && sub.units == 10 && (sub.customer, sub.moduleName) in rates && 1 <= perUnit <= 2
    requires rates[(sub.customer, sub.moduleName)] == Rate(1, perUnit)
    ensures Quote(s, sub, rates) == Some(10 * perUnit)
  {
    Pricing.PriceExact(10, 1, perUnit);
  }

  lemma FundedFor(x: ExpirySweep.Story)
    ensures Reached([x.Enroll(), x.Fund()]) == x.Ledger2()
  {
    ExpirySweep.FundingStep(x);
    hide Step, Inv;
    ExpirySweep.RunConcat(EMPTY, [], x.Enroll());
    ExpirySweep.RunConcat(EMPTY, [x.Enroll()], x.Fund());
    assert [] + [x.Enroll()] == [x.Enroll()] && [x.Enroll()] + [x.Fund()] == [x.Enroll(), x.Fund()];
    RunNothing(EMPTY);
    hide Run;
  }

  lemma UsageCommits(x: ExpirySweep.Story, reference: Id)
    requires x.Distinct()
    ensures var op := ConsumeCredits(x.txn2, x.customer, x.org, x.deployment, x.moduleName, 10, x.key2, reference, 0);
      Decide(x.Ledger2(), op).Committed? && Decide(x.Ledger2(), op).txn.billed == 10
  {
    hide Total, ExpiryKey;
    var s := x.Ledger2();
    assert FindByKey(s.txns, x.Shop(), x.key2).None? && FindById(s.txns, x.txn2).None?;
    hide FindByKey, FindById;
    assert AccountOf(s, x.Shop()) == Account(100, 0, 100, 0, 0);
  }
}
