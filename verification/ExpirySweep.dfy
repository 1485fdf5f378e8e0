/** The billing service's sweep of expired holds, run while other requests keep coming in. */
module ExpirySweep {
  import opened Options
  import opened Ledger
  import opened LedgerInvariant
  import opened LedgerTheorems
  import opened LedgerReplay
  import opened CreditStore

  const SWEEP_LIMIT: nat := 100

  /** What the service's query may return: up to a hundred of the customer's overdue active holds. */
  ghost predicate Listing(s: Ledger, customer: Id, now: int, listed: seq<Id>) {
    && |listed| <= SWEEP_LIMIT
    && (forall i, j | 0 <= i < j < |listed| :: listed[i] != listed[j])
    && (forall id | id in listed :: exists h :: h in s.holds && h.id == id && Overdue(h, customer, now))
    && (|listed| < SWEEP_LIMIT ==> forall h | h in s.holds && Overdue(h, customer, now) :: h.id in listed)
  }

  predicate Overdue(h: Hold, customer: Id, now: int) {
    h.customer == customer && h.status == Active && h.expiresAt <= now
  }

  predicate Closed(s: Ledger, id: Id) {
    exists h | h in s.holds :: h.id == id && h.status != Active
  }

  predicate Known(s: Ledger, id: Id, customer: Id) {
    exists h | h in s.holds :: h.id == id && h.customer == customer
  }

  function ExpiryRelease(txnId: Id, holdId: Id, customer: Id, now: int): Op {
    ReleaseCreditHold(txnId, holdId, customer, ExpiryKey(holdId), true, now)
  }

  /* ---- Closed holds stay closed, known holds stay known ---- */

  lemma {:induction false} HoldsOnlyClose(s: Ledger, op: Op, i: nat)
    requires i < |s.holds|
    ensures i < |Step(s, op).0.holds|
    ensures Step(s, op).0.holds[i].(status := s.holds[i].status) == s.holds[i]
    ensures Step(s, op).0.holds[i].status == Active ==> s.holds[i].status == Active
  {
    hide Decide, Applied;
  }

  lemma StepKeepsFacts(s: Ledger, op: Op, id: Id, customer: Id)
    ensures Closed(s, id) ==> Closed(Step(s, op).0, id)
    ensures Known(s, id, customer) ==> Known(Step(s, op).0, id, customer)
  {
    hide Step;
    var s' := Step(s, op).0;
    if Closed(s, id) {
      var h :| h in s.holds && h.id == id && h.status != Active;
      var i :| 0 <= i < |s.holds| && s.holds[i] == h;
      HoldsOnlyClose(s, op, i);
      assert s'.holds[i] in s'.holds;
    }
    if Known(s, id, customer) {
      var h :| h in s.holds && h.id == id && h.customer == customer;
      var i :| 0 <= i < |s.holds| && s.holds[i] == h;
      HoldsOnlyClose(s, op, i);
      assert s'.holds[i] in s'.holds;
    }
  }

  /* ---- One release of the sweep ---- */

  lemma KnownHold(s: Ledger, id: Id, customer: Id) returns (h: Hold)
    requires Inv(s) && Known(s, id, customer)
    ensures h in s.holds && h.id == id && h.customer == customer
    ensures FindHold(s.holds, id).Some? && s.holds[FindHold(s.holds, id).value] == h
    ensures HoldAccount(h) in s.accounts
  {
    hide Books, RunningBalances, UniqueRows, RefundsCapped, FrozenIsActiveHolds, ReceiptsMatchHistory,
         HoldLifecycle, UniqueHolds, FreezeFor, ClosingFor, FindHold;
    h :| h in s.holds && h.id == id && h.customer == customer;
    hide Inv;
    FindsHold(s, h);
  }

  /** A release row proves its hold closed. */
  lemma ReleaseRowClosed(s: Ledger, t: Txn)
    requires Inv(s) && t in s.txns && t.kind == Release
    ensures Closed(s, t.reference)
  {
    hide Books, RunningBalances, UniqueRows, RefundsCapped, FrozenIsActiveHolds, ReceiptsMatchHistory, HoldLifecycle, UniqueHolds;
    var h :| h in s.holds && ClosingFor(t, h);
  }

  lemma CommittedReleaseCloses(s: Ledger, op: Op, t: Txn)
    requires Decide(s, op) == Committed(t) && op.ReleaseCreditHold?
    ensures Closed(Commit(s, op, t), op.holdId)
  {
    var i := HoldsAfterClosing(s, op, t);
    hide Decide, HoldsAfter, Applied;
    var s' := Commit(s, op, t);
    assert s'.holds[i] in s'.holds && s'.holds[i].id == op.holdId;
  }

  lemma RefusedReleaseFinds(s: Ledger, op: Op, h: Hold)
    requires op.ReleaseCreditHold? && FindHold(s.holds, op.holdId).Some?
    requires h == s.holds[FindHold(s.holds, op.holdId).value] && h.customer == op.customer
    requires HoldAccount(h) in s.accounts
    ensures Decide(s, op) != Rejected(NotFound) && Decide(s, op) != Acknowledged
    ensures Decide(s, op) == Rejected(HoldNotActive) ==> h.status != Active
    ensures Decide(s, op).Replayed? ==> Decide(s, op).txn.kind == Release && Decide(s, op).txn.reference == op.holdId
  {
    hide FindHold, FindByKey, FindById, WithinLimits, Applied;
  }

  /** Unless the key `expiry:<hold>` is spent on something else, the release leaves the hold closed:
      by this release, by an earlier one, or by a client that got there first. */
  lemma ReleaseCloses(s: Ledger, txnId: Id, id: Id, customer: Id, now: int)
    requires Inv(s) && Known(s, id, customer)
    ensures var (s', outcome) := Step(s, ExpiryRelease(txnId, id, customer, now));
      && (outcome.Committed? || outcome.Replayed? || outcome == Rejected(HoldNotActive) ==> Closed(s', id))
      && outcome != Rejected(NotFound) && outcome != Acknowledged
  {
    var op := ExpiryRelease(txnId, id, customer, now);
    var h := KnownHold(s, id, customer);
    RefusedReleaseFinds(s, op, h);
    hide Inv, Decide, FindHold, Commit;
    match Decide(s, op)
    case Committed(t) =>
      CommittedReleaseCloses(s, op, t);
    case Replayed(t) =>
      ReplayedRow(s, op, t);
      ReleaseRowClosed(s, t);
    case Rejected(r) =>
      if r == HoldNotActive { assert h in s.holds; }
    case Acknowledged =>
  }

  /** The sweep can release an active hold exactly when no row of the account, of any kind, was
      committed under the key `expiry:<hold>`. */
  lemma SweepReleasesIff(ops: seq<Op>, h: Hold, txnId: Id, now: int)
    requires h in Reached(ops).holds && h.status == Active
    requires forall t | t in Reached(ops).txns :: t.id != txnId
    ensures Decide(Reached(ops), ExpiryRelease(txnId, h.id, h.customer, now)).Committed?
       <==> forall t | t in Reached(ops).txns :: KeyOf(t) != HoldAccount(h) || t.key != ExpiryKey(h.id)
  {
    hide Run;
    var s := Reached(ops);
    var op := ExpiryRelease(txnId, h.id, h.customer, now);
    hide Inv;
    assert Known(s, h.id, h.customer);
    var x := KnownHold(s, h.id, h.customer);
    FindsHold(s, h);
    LimitsTripOnlyOnTotals(ops, op);
    if FindByKey(s.txns, HoldAccount(h), ExpiryKey(h.id)).Some? {
      SpentKeyChangesNothing(ops, op, FindByKey(s.txns, HoldAccount(h), ExpiryKey(h.id)).value);
    }
  }

  /* ---- The sweep ---- */

  lemma {:induction false} RunConcat(s: Ledger, a: seq<Op>, op: Op)
    ensures Run(s, a + [op]) == Step(Run(s, a), op).0
  {
    assert (a + [op])[..|a|] == a;
  }

  /** The last thing done was the release of a listed hold, and it was refused although the hold is active. */
  ghost predicate RefusedLast(begin: Ledger, trace: seq<Op>, listed: seq<Id>) {
    |trace| > 0 &&
    var (op, s) := (trace[|trace| - 1], Run(begin, trace[..|trace| - 1]));
    && op.ReleaseCreditHold? && op.holdId in listed && op.key == "expiry:" + op.holdId && op.expired
    && Step(s, op).1.Rejected? && Step(s, op).1.reason != HoldNotActive
  }

  /** `others[i]` are the requests that commit between the sweep's statements. The sweep never
      leaves an overdue hold it was given active, unless it stops with an error. */
  method ReleaseExpiredHolds(store: Store, customer: Id, now: int, listed: seq<Id>, txnIds: seq<Id>, others: seq<seq<Op>>)
    returns (threw: bool, ghost trace: seq<Op>)
    requires store.Valid() && Listing(store.State(), customer, now, listed)
    requires |txnIds| == |listed| == |others|
    modifies store
    ensures store.Valid() && store.State() == Run(old(store.State()), trace)
    ensures !threw ==> forall id | id in listed :: Closed(store.State(), id)
    ensures threw ==> RefusedLast(old(store.State()), trace, listed)
    ensures !threw && |listed| < SWEEP_LIMIT ==>
      forall h | h in old(store.State()).holds && Overdue(h, customer, now) :: Closed(store.State(), h.id)
  {
    hide Inv, Step, Closed, Known, HoldLifecycle;
    ghost var begin := store.State();
    trace := [];
    assert forall id | id in listed :: Known(begin, id, customer) by { ListedKnown(begin, customer, now, listed); }
    hide Listing;
    for i := 0 to |listed|
      invariant store.Valid() && store.State() == Run(begin, trace)
      invariant forall id | id in listed :: Known(store.State(), id, customer)
      invariant forall j | 0 <= j < i :: Closed(store.State(), listed[j])
    {
      trace := Serve(store, begin, trace, others[i], customer, listed, i);
      ghost var before := store.State();
      var op := ExpiryRelease(txnIds[i], listed[i], customer, now);
      ReleaseCloses(before, txnIds[i], listed[i], customer, now);
      var outcome := store.ReleaseCreditHold(op);
      forall id: Id { StepKeepsFacts(before, op, id, customer); }
      RunConcat(begin, trace, op);
      trace := trace + [op];
      assert trace[..|trace| - 1] + [op] == trace && Step(before, op).1 == outcome;
      assert before == Run(begin, trace[..|trace| - 1]);
      if outcome.Rejected? && outcome.reason != HoldNotActive { return true, trace; }
    }
    threw := false;
    assert |listed| < SWEEP_LIMIT ==> forall h | h in begin.holds && Overdue(h, customer, now) :: h.id in listed;
  }

  lemma ListedKnown(s: Ledger, customer: Id, now: int, listed: seq<Id>)
    requires Listing(s, customer, now, listed)
    ensures forall id | id in listed :: Known(s, id, customer)
  {
  }

  /** Other clients' requests, one after another. */
  method Serve(store: Store, ghost begin: Ledger, ghost trace: seq<Op>, ops: seq<Op>, ghost customer: Id,
               ghost listed: seq<Id>, ghost closed: nat)
    returns (ghost longer: seq<Op>)
    requires store.Valid() && store.State() == Run(begin, trace) && closed <= |listed|
    requires forall id | id in listed :: Known(store.State(), id, customer)
    requires forall j | 0 <= j < closed :: Closed(store.State(), listed[j])
    modifies store
    ensures store.Valid() && store.State() == Run(begin, longer)
    ensures forall id | id in listed :: Known(store.State(), id, customer)
    ensures forall j | 0 <= j < closed :: Closed(store.State(), listed[j])
  {
    hide Inv, Step, Closed, Known;
    longer := trace;
    for i := 0 to |ops|
      invariant store.Valid() && store.State() == Run(begin, longer)
      invariant forall id | id in listed :: Known(store.State(), id, customer)
      invariant forall j | 0 <= j < closed :: Closed(store.State(), listed[j])
    {
      ghost var before := store.State();
      var _ := store.Execute(ops[i]);
      forall id: Id { StepKeepsFacts(before, ops[i], id, customer); }
      RunConcat(begin, longer, ops[i]);
      longer := longer + [ops[i]];
    }
  }

  /* ---- A run after which the sweep is refused ---- */

  /** Names for one customer's top-up, hold and usage report. */
  datatype Story = Story(customer: Id, org: Id, deployment: Id, moduleName: Id, hold: Id,
                         txn1: Id, txn2: Id, txn3: Id, key1: Id, key2: Id) {
    predicate Distinct() {
      txn1 != txn2 && txn1 != txn3 && txn2 != txn3 && key1 != key2 && key1 != ExpiryKey(hold) && key2 != ExpiryKey(hold)
    }
    function Shop(): AccountKey { AccountKey(customer, org) }
    function Enroll(): Op { AdminChange({customer}, {}) }
    function Fund(): Op { TopUpCredits(txn1, customer, org, 100, key1, hold, 0) }
    function Freeze(): Op { CreateCreditHold(txn2, hold, customer, org, deployment, moduleName, 10, key2, 5, 0) }
    function Spend(): Op { ConsumeCredits(txn3, customer, org, deployment, moduleName, 1, ExpiryKey(hold), hold, 0) }
    function Blocking(): seq<Op> { [Enroll(), Fund(), Freeze(), Spend()] }
    function Paid(): Txn { Txn(txn1, customer, org, None, None, TopUp, 100, 0, 0, 100, 0, key1, hold, None, None, 0) }
    function Froze(): Txn {
      Txn(txn2, customer, org, Some(deployment), Some(moduleName), Kind.Freeze, -10, 10, 0, 90, 10, key2, hold, None, None, 0)
    }
    function Spent(): Txn {
      Txn(txn3, customer, org, Some(deployment), Some(moduleName), Consume, -1, 0, 1, 89, 10, ExpiryKey(hold), hold, None, None, 0)
    }
    function Held(): Hold { Hold(hold, customer, org, deployment, moduleName, 10, Active, key2, 5) }
    function Ledger1(): Ledger { EMPTY.(customers := {customer}) }
    function Ledger2(): Ledger { Ledger({customer}, {}, map[Shop() := Account(100, 0, 100, 0, 0)], [], [Paid()], [], map[]) }
    function Ledger3(): Ledger {
      Ledger({customer}, {}, map[Shop() := Account(90, 10, 100, 0, 0)], [Held()], [Paid(), Froze()], [], map[])
    }
    function Ledger4(): Ledger {
      Ledger({customer}, {}, map[Shop() := Account(89, 10, 100, 1, 0)], [Held()], [Paid(), Froze(), Spent()], [], map[])
    }
  }

  lemma FundingStep(x: Story)
    ensures Step(EMPTY, x.Enroll()).0 == x.Ledger1() && Step(x.Ledger1(), x.Fund()).0 == x.Ledger2()
  {
    assert Decide(x.Ledger1(), x.Fund()) == Committed(x.Paid());
  }

  lemma FreezingDecided(x: Story)
    requires x.Distinct()
    ensures Decide(x.Ledger2(), x.Freeze()) == Committed(x.Froze())
  {
    hide Total, ExpiryKey;
    var s := x.Ledger2();
    assert FindByKey(s.txns, x.Shop(), x.key2).None? && FindById(s.txns, x.txn2).None?;
    assert FindHoldByKey(s.holds, x.Shop(), x.key2).None? && FindHold(s.holds, x.hold).None?;
    hide FindByKey, FindById, FindHold, FindHoldByKey;
    assert AccountOf(s, x.Shop()) == Account(100, 0, 100, 0, 0);
  }

  lemma FreezingStep(x: Story)
    requires x.Distinct()
    ensures Step(x.Ledger2(), x.Freeze()).0 == x.Ledger3()
  {
    FreezingDecided(x);
    hide Decide, ExpiryKey;
    var s, s' := x.Ledger2(), Step(x.Ledger2(), x.Freeze()).0;
    assert s'.txns == x.Ledger3().txns && s'.holds == x.Ledger3().holds;
    assert AccountOf(s, x.Shop()) == Account(100, 0, 100, 0, 0);
    assert s'.accounts == x.Ledger3().accounts;
  }

  lemma SpendingStep(x: Story)
    requires x.Distinct()
    ensures Step(x.Ledger3(), x.Spend()).0 == x.Ledger4()
  {
    hide ExpiryKey, Total;
    var s := x.Ledger3();
    assert FindByKey(s.txns, x.Shop(), ExpiryKey(x.hold)).None? && FindById(s.txns, x.txn3).None?;
    hide FindByKey, FindById;
    assert Decide(s, x.Spend()) == Committed(x.Spent());
  }

  lemma BlockedStep(x: Story, now: int)
    requires x.Distinct()
    ensures Step(x.Ledger4(), ExpiryRelease(x.txn2, x.hold, x.customer, now)) == (x.Ledger4(), Rejected(KeyReused))
  {
    hide ExpiryKey, Total;
    var s := x.Ledger4();
    assert FindHold(s.holds, x.hold) == Some(0);
    assert x.Spent() in s.txns && KeyOf(x.Spent()) == x.Shop();
    assert FindByKey(s.txns, x.Shop(), ExpiryKey(x.hold)) == Some(x.Spent());
    hide FindByKey, FindHold;
  }

  lemma RunFour(a: Op, b: Op, c: Op, d: Op)
    ensures Run(EMPTY, [a, b, c, d]) == Step(Step(Step(Step(EMPTY, a).0, b).0, c).0, d).0
  {
    hide Step;
    RunConcat(EMPTY, [], a);
    RunConcat(EMPTY, [a], b);
    RunConcat(EMPTY, [a, b], c);
    RunConcat(EMPTY, [a, b, c], d);
    assert [] + [a] == [a] && [a] + [b] == [a, b] && [a, b] + [c] == [a, b, c] && [a, b, c] + [d] == [a, b, c, d];
  }

  /** A usage report under the key `expiry:<hold>` commits, and the overdue hold then stays active:
      its automatic release is refused, and changes nothing, however often the sweep comes by. */
  lemma SweepCanBeBlocked(x: Story, now: int)
    requires x.Distinct() && now >= 5
    ensures x.Held() in Reached(x.Blocking()).holds && Overdue(x.Held(), x.customer, now)
    ensures Step(Reached(x.Blocking()), ExpiryRelease(x.txn2, x.hold, x.customer, now))
         == (Reached(x.Blocking()), Rejected(KeyReused))
  {
    FundingStep(x);
    FreezingStep(x);
    SpendingStep(x);
    BlockedStep(x, now);
    hide Step, Run, Inv;
    RunFour(x.Enroll(), x.Fund(), x.Freeze(), x.Spend());
  }
}
