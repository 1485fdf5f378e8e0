/** What each credit transaction answers, read off the rows of any ledger it can meet: when exactly it
    commits, when it replays, and which refusal it gives otherwise. */
module LedgerAnswers {
  import opened Options
  import opened Ledger
  import opened LedgerInvariant
  import opened LedgerTheorems
  import opened LedgerReplay

  /* ---- Facts about the rows ---- */

  /** The account is there, or its customer is and opening it inserts it. */
  ghost predicate Opens(s: Ledger, k: AccountKey) { k in s.accounts || k.customer in s.customers }

  ghost predicate Row(s: Ledger, k: AccountKey, key: Id, t: Txn) { t in s.txns && KeyOf(t) == k && t.key == key }

  ghost predicate KeySpent(s: Ledger, k: AccountKey, key: Id) { exists t :: Row(s, k, key, t) }

  ghost predicate RowIdUsed(s: Ledger, id: Id) { exists t | t in s.txns :: t.id == id }

  ghost predicate HoldIdUsed(s: Ledger, id: Id) { exists h | h in s.holds :: h.id == id }

  function Spendable(s: Ledger, k: AccountKey): int { AccountOf(s, k).available }

  function ToppedUpOf(s: Ledger, k: AccountKey): int { AccountOf(s, k).toppedUp }

  function ConsumedOf(s: Ledger, k: AccountKey): int { AccountOf(s, k).consumed }

  /** The caller's hold. */
  ghost predicate Mine(s: Ledger, holdId: Id, customer: Id, h: Hold) { h in s.holds && h.id == holdId && h.customer == customer }

  /** The caller's charge. */
  ghost predicate MyCharge(s: Ledger, id: Id, customer: Id, c: Txn) {
    c in s.txns && c.id == id && c.customer == customer && (c.kind == Consume || c.kind == Capture)
  }

  /* ---- Looking up ---- */

  lemma RowIs(s: Ledger, k: AccountKey, key: Id)
    requires Inv(s)
    ensures FindByKey(s.txns, k, key).Some? <==> KeySpent(s, k, key)
    ensures forall t | Row(s, k, key, t) :: FindByKey(s.txns, k, key) == Some(t)
    ensures FindByKey(s.txns, k, key).Some? ==> Row(s, k, key, FindByKey(s.txns, k, key).value) && k in s.accounts
  {
    hide Inv;
    var found := FindByKey(s.txns, k, key);
    if found.Some? {
      assert Row(s, k, key, found.value);
      FindsRow(s, found.value);
    }
    forall t | Row(s, k, key, t) ensures found == Some(t) { FindsRow(s, t); }
  }

  lemma ChargeIs(s: Ledger, id: Id)
    requires Inv(s)
    ensures FindById(s.txns, id).Some? <==> RowIdUsed(s, id)
    ensures forall t | t in s.txns && t.id == id :: FindById(s.txns, id) == Some(t)
    ensures FindById(s.txns, id).Some? ==> KeyOf(FindById(s.txns, id).value) in s.accounts
  {
    hide Inv;
    if FindById(s.txns, id).Some? { FindsRow(s, FindById(s.txns, id).value); }
    forall t | t in s.txns && t.id == id ensures FindById(s.txns, id) == Some(t) { FindsRow(s, t); }
  }

  lemma HoldIs(s: Ledger, id: Id)
    requires Inv(s)
    ensures FindHold(s.holds, id).Some? <==> HoldIdUsed(s, id)
    ensures forall h | h in s.holds && h.id == id :: FindHold(s.holds, id).Some? && s.holds[FindHold(s.holds, id).value] == h
    ensures forall h | h in s.holds && h.id == id :: HoldAccount(h) in s.accounts
  {
    hide Books, RunningBalances, UniqueRows, RefundsCapped, FrozenIsActiveHolds, ReceiptsMatchHistory, UniqueHolds, HoldLifecycle, ClosingFor, FreezeFor;
    forall h | h in s.holds && h.id == id
      ensures FindHold(s.holds, id).Some? && s.holds[FindHold(s.holds, id).value] == h && HoldAccount(h) in s.accounts
    {
      FindsHold(s, h);
    }
    hide Inv;
    if FindHold(s.holds, id).Some? { assert s.holds[FindHold(s.holds, id).value] in s.holds; }
  }

  /** A hold's key is the key of its freeze row, so a hold under a key is a row under it. */
  lemma HoldKeySpent(s: Ledger, h: Hold) returns (t: Txn)
    requires Inv(s) && h in s.holds
    ensures Row(s, HoldAccount(h), h.key, t) && FreezeFor(t, h)
  {
    hide Books, RunningBalances, UniqueRows, RefundsCapped, FrozenIsActiveHolds, ReceiptsMatchHistory, UniqueHolds;
    assert HoldLifecycle(s.txns, h);
    t :| t in s.txns && FreezeFor(t, h);
  }

  /** The last step of every operation. */
  lemma PostAnswers(s: Ledger, draft: Txn)
    ensures Post(s, draft).Committed? ==> !RowIdUsed(s, draft.id) && !KeySpent(s, KeyOf(draft), draft.key)
    ensures !RowIdUsed(s, draft.id) && !KeySpent(s, KeyOf(draft), draft.key) && Post(s, draft) != Rejected(LimitExceeded) ==> Post(s, draft).Committed?
    ensures Post(s, draft) in {Rejected(LimitExceeded), Rejected(DuplicateRow)} || Post(s, draft).Committed?
    ensures Post(s, draft) == Rejected(DuplicateRow) ==> RowIdUsed(s, draft.id) || KeySpent(s, KeyOf(draft), draft.key)
    ensures Post(s, draft).Committed? ==> Post(s, draft).txn == draft.(availableAfter := AccountOf(s, KeyOf(draft)).available + draft.availableDelta,
                                                                      frozenAfter := AccountOf(s, KeyOf(draft)).frozen + draft.frozenDelta)
  {
    hide WithinLimits;
    if FindByKey(s.txns, KeyOf(draft), draft.key).Some? {
      assert Row(s, KeyOf(draft), draft.key, FindByKey(s.txns, KeyOf(draft), draft.key).value);
    }
    hide FindByKey, FindById;
  }

  /** A committed answer writes this row, with the account's balances after it. */
  ghost predicate Writes(s: Ledger, answer: Outcome, t: Txn) {
    answer.Committed? ==>
      answer.txn == t.(availableAfter := Spendable(s, KeyOf(t)) + t.availableDelta, frozenAfter := AccountOf(s, KeyOf(t)).frozen + t.frozenDelta)
  }

  lemma PostNeverMisses(s: Ledger)
    ensures forall draft :: Post(s, draft) != Rejected(NotFound)
  {
    hide Post;
    forall draft ensures Post(s, draft) != Rejected(NotFound) { PostAnswers(s, draft); }
  }

  /* ---- Topping up ---- */

  /** A top-up commits exactly when the account can be opened, its key is unspent there, its row id is
      unused and the credits ever topped up stay within the limit. */
  lemma TopUpAnswers(s: Ledger, op: Op)
    requires Inv(s) && op.TopUpCredits?
    ensures var (k, answer) := (AccountKey(op.customer, op.org), Decide(s, op));
      && (answer.Committed? <==> Opens(s, k) && !KeySpent(s, k, op.key) && ToppedUpOf(s, k) + op.amount <= MAX_CREDITS && !RowIdUsed(s, op.txnId))
      && (answer == Rejected(CustomerMissing) <==> !Opens(s, k))
      && (forall t :: answer == Replayed(t) <==>
            Row(s, k, op.key, t) && t.kind == TopUp && t.availableDelta == op.amount && t.reference == op.reference)
      && (answer == Rejected(KeyReused) <==> KeySpent(s, k, op.key) && !answer.Replayed?)
      && (answer == Rejected(LimitExceeded) <==> Opens(s, k) && !KeySpent(s, k, op.key) && ToppedUpOf(s, k) + op.amount > MAX_CREDITS)
      && (answer == Rejected(DuplicateRow) <==>
            Opens(s, k) && !KeySpent(s, k, op.key) && ToppedUpOf(s, k) + op.amount <= MAX_CREDITS && RowIdUsed(s, op.txnId))
      && Writes(s, answer, Txn(op.txnId, op.customer, op.org, None, None, TopUp, op.amount, 0, 0, 0, 0, op.key, op.reference, None, None, op.at))
  {
    hide Inv, FindByKey, Post, KeySpent, RowIdUsed;
    hide DecideHold, DecideCapture, DecideRelease, DecideConsume, DecideIngest, DecideRefund;
    var k := AccountKey(op.customer, op.org);
    RowIs(s, k, op.key);
    BalancedAccount(s, k);
    var draft := Txn(op.txnId, op.customer, op.org, None, None, TopUp, op.amount, 0, 0, 0, 0, op.key, op.reference, None, None, op.at);
    LimitsAtPost(s, draft);
    PostAnswers(s, draft);
  }

  /* ---- Holding ---- */

  /** What a hold needs besides a free hold id. */
  ghost predicate CanFreeze(s: Ledger, op: Op)
    requires op.CreateCreditHold?
  {
    var k := AccountKey(op.customer, op.org);
    Opens(s, k) && !KeySpent(s, k, op.key) && op.amount <= Spendable(s, k) && !RowIdUsed(s, op.txnId)
  }

  ghost predicate HoldUnder(s: Ledger, k: AccountKey, key: Id, h: Hold) { h in s.holds && HoldAccount(h) == k && h.key == key }

  ghost predicate HoldKeySeen(s: Ledger, k: AccountKey, key: Id) { exists h :: HoldUnder(s, k, key, h) }

  lemma HoldUnderIs(s: Ledger, k: AccountKey, key: Id)
    requires Inv(s)
    ensures FindHoldByKey(s.holds, k, key).Some? <==> HoldKeySeen(s, k, key)
    ensures forall h | HoldUnder(s, k, key, h) ::
      FindHoldByKey(s.holds, k, key).Some? && s.holds[FindHoldByKey(s.holds, k, key).value] == h && k in s.accounts && KeySpent(s, k, key)
  {
    hide Inv;
    var found := FindHoldByKey(s.holds, k, key);
    if found.Some? { assert HoldUnder(s, k, key, s.holds[found.value]); }
    forall h | HoldUnder(s, k, key, h)
      ensures found.Some? && s.holds[found.value] == h && k in s.accounts && KeySpent(s, k, key)
    {
      OneHoldPerKey(s, h, s.holds[found.value]);
      var t := HoldKeySpent(s, h);
      FindsRow(s, t);
    }
  }

  lemma OneHoldPerKey(s: Ledger, h: Hold, x: Hold)
    requires Inv(s) && h in s.holds && x in s.holds && HoldAccount(h) == HoldAccount(x) && h.key == x.key
    ensures h == x
  {
    var t := HoldKeySpent(s, h);
    var u := HoldKeySpent(s, x);
    hide Inv;
    FindsRow(s, t);
    FindsRow(s, u);
    assert t == u && h.id == x.id;
    FindsHold(s, h);
    FindsHold(s, x);
  }

  /** A hold commits exactly when the account can be opened and has the credits, its key is unspent
      there, and both its ids are unused. */
  lemma HoldAnswers(s: Ledger, op: Op)
    requires Inv(s) && op.CreateCreditHold?
    ensures var (k, answer) := (AccountKey(op.customer, op.org), Decide(s, op));
      && (answer.Committed? <==> CanFreeze(s, op) && !HoldIdUsed(s, op.holdId))
      && (answer == Rejected(CustomerMissing) <==> !Opens(s, k))
      && (forall t :: answer == Replayed(t) <==>
            && Row(s, k, op.key, t) && t.kind == Freeze && t.frozenDelta == op.amount
            && t.deployment == Some(op.deployment) && t.moduleName == Some(op.moduleName))
      && (answer == Rejected(KeyReused) <==> HoldKeySeen(s, k, op.key) && !answer.Replayed?)
      && (answer == Rejected(InsufficientCredits) <==> Opens(s, k) && !HoldKeySeen(s, k, op.key) && Spendable(s, k) < op.amount)
      && (answer == Rejected(DuplicateRow) <==>
            && Opens(s, k) && !HoldKeySeen(s, k, op.key) && op.amount <= Spendable(s, k)
            && (KeySpent(s, k, op.key) || RowIdUsed(s, op.txnId) || HoldIdUsed(s, op.holdId)))
      && Writes(s, answer, Txn(op.txnId, op.customer, op.org, Some(op.deployment), Some(op.moduleName), Freeze,
                               -(op.amount as int), op.amount, 0, 0, 0, op.key, op.holdId, None, None, op.at))
  {
    hide Inv, FindByKey, FindHold, FindHoldByKey, Post, KeySpent, RowIdUsed, HoldIdUsed, FreezeFor;
    hide DecideTopUp, DecideCapture, DecideRelease, DecideConsume, DecideIngest, DecideRefund;
    var k := AccountKey(op.customer, op.org);
    RowIs(s, k, op.key);
    HoldUnderIs(s, k, op.key);
    HoldIs(s, op.holdId);
    BalancedAccount(s, k);
    var draft := Txn(op.txnId, op.customer, op.org, Some(op.deployment), Some(op.moduleName), Freeze,
                     -(op.amount as int), op.amount, 0, 0, 0, op.key, op.holdId, None, None, op.at);
    PostAnswers(s, draft);
    if op.amount <= Spendable(s, k) { LimitsAtPost(s, draft); }
    HoldRows(s, k, op.key);
    HoldReplays(s, op);
  }

  /** The rows under a key that a hold has are that hold's freeze. */
  lemma HoldRows(s: Ledger, k: AccountKey, key: Id)
    requires Inv(s)
    ensures forall h, t | HoldUnder(s, k, key, h) && Row(s, k, key, t) :: FreezeFor(t, h)
    ensures forall t | Row(s, k, key, t) && t.kind == Freeze :: HoldKeySeen(s, k, key)
  {
    hide Inv;
    forall h, t | HoldUnder(s, k, key, h) && Row(s, k, key, t) ensures FreezeFor(t, h) { FreezeIsRow(s, h, t); }
    forall t | Row(s, k, key, t) && t.kind == Freeze ensures HoldKeySeen(s, k, key) {
      var h := HoldOfRow(s, t);
      assert HoldUnder(s, k, key, h);
    }
  }

  lemma HoldReplays(s: Ledger, op: Op)
    requires Inv(s) && op.CreateCreditHold?
    ensures var (k, answer) := (AccountKey(op.customer, op.org), Decide(s, op));
      forall t :: answer == Replayed(t) <==>
        && Row(s, k, op.key, t) && t.kind == Freeze && t.frozenDelta == op.amount
        && t.deployment == Some(op.deployment) && t.moduleName == Some(op.moduleName)
  {
    hide Inv, FindByKey, FindHold, FindHoldByKey, Post, KeySpent;
    hide DecideTopUp, DecideCapture, DecideRelease, DecideConsume, DecideIngest, DecideRefund;
    var k := AccountKey(op.customer, op.org);
    RowIs(s, k, op.key);
    HoldUnderIs(s, k, op.key);
    HoldRows(s, k, op.key);
    hide Inv, FindByKey, FindHold, FindHoldByKey, Post, KeySpent;
  }

  /* ---- Capturing ---- */

  /** A capture commits exactly when it names an active hold of its customer that has not expired, its
      key is unspent in the hold's account and its row id unused, the charge is covered by the hold and
      what is available, and the credits ever consumed stay within the limit. */
  lemma CaptureAnswers(s: Ledger, op: Op, h: Hold)
    requires Inv(s) && op.CaptureCreditHold? && Mine(s, op.holdId, op.customer, h)
    ensures var (k, answer) := (HoldAccount(h), Decide(s, op));
      var open := !KeySpent(s, k, op.key) && h.status == Active && op.at < h.expiresAt && op.amount <= Spendable(s, k) + h.amount;
      var within := ConsumedOf(s, k) + op.amount <= MAX_CREDITS;
      && (answer.Committed? <==> open && within && !RowIdUsed(s, op.txnId))
      && (forall t :: answer == Replayed(t) <==>
            Row(s, k, op.key, t) && t.kind == Capture && t.reference == op.reference && t.holdId == Some(op.holdId) && t.billed == op.amount)
      && (answer == Rejected(KeyReused) <==> KeySpent(s, k, op.key) && !answer.Replayed?)
      && (answer == Rejected(HoldNotActive) <==> !KeySpent(s, k, op.key) && h.status != Active)
      && (answer == Rejected(HoldExpired) <==> !KeySpent(s, k, op.key) && h.status == Active && h.expiresAt <= op.at)
      && (answer == Rejected(InsufficientCredits) <==>
            !KeySpent(s, k, op.key) && h.status == Active && op.at < h.expiresAt && op.amount > Spendable(s, k) + h.amount)
      && (answer == Rejected(LimitExceeded) <==> open && !within)
      && (answer == Rejected(DuplicateRow) <==> open && within && RowIdUsed(s, op.txnId))
      && Writes(s, answer, Txn(op.txnId, h.customer, h.org, Some(h.deployment), Some(h.moduleName), Capture,
                               h.amount - op.amount, -h.amount, op.amount, 0, 0, op.key, op.reference, None, Some(h.id), op.at))
  {
    hide Inv, FindByKey, FindHold, Post, KeySpent, RowIdUsed, HoldIdUsed;
    hide DecideTopUp, DecideHold, DecideRelease, DecideConsume, DecideIngest, DecideRefund;
    var k := HoldAccount(h);
    RowIs(s, k, op.key);
    HoldIs(s, op.holdId);
    BalancedAccount(s, k);
    HoldAmountPositive(s, h);
    if h.status == Active { FrozenCoversHolds(s, h); }
    var draft := Txn(op.txnId, op.customer, h.org, Some(h.deployment), Some(h.moduleName), Capture,
                     h.amount - op.amount, -h.amount, op.amount, 0, 0, op.key, op.reference, None, Some(op.holdId), op.at);
    PostAnswers(s, draft);
    if h.status == Active && op.amount <= Spendable(s, k) + h.amount { LimitsAtPost(s, draft); }
  }

  /** Without such a hold it is refused as not found. */
  lemma NoHoldNotFound(s: Ledger, op: Op)
    requires Inv(s) && (op.CaptureCreditHold? || op.ReleaseCreditHold?)
    ensures Decide(s, op) == Rejected(NotFound) <==> forall h :: !Mine(s, op.holdId, op.customer, h)
  {
    hide Inv, FindByKey, FindHold, Post;
    hide DecideTopUp, DecideHold, DecideConsume, DecideIngest, DecideRefund;
    HoldIs(s, op.holdId);
    PostNeverMisses(s);
    var found := FindHold(s.holds, op.holdId);
    if found.Some? { assert Mine(s, op.holdId, op.customer, s.holds[found.value]) <==> s.holds[found.value].customer == op.customer; }
  }

  /* ---- Releasing ---- */

  /** A release commits exactly when it names an active hold of its customer, its key is unspent in the
      hold's account and its row id unused: no expiry and no limit stands in its way. */
  lemma ReleaseAnswers(s: Ledger, op: Op, h: Hold)
    requires Inv(s) && op.ReleaseCreditHold? && Mine(s, op.holdId, op.customer, h)
    ensures var (k, answer) := (HoldAccount(h), Decide(s, op));
      && (answer.Committed? <==> !KeySpent(s, k, op.key) && h.status == Active && !RowIdUsed(s, op.txnId))
      && (forall t :: answer == Replayed(t) <==> Row(s, k, op.key, t) && t.kind == Release && t.reference == op.holdId)
      && (answer == Rejected(KeyReused) <==> KeySpent(s, k, op.key) && !answer.Replayed?)
      && (answer == Rejected(HoldNotActive) <==> !KeySpent(s, k, op.key) && h.status != Active)
      && (answer == Rejected(DuplicateRow) <==> !KeySpent(s, k, op.key) && h.status == Active && RowIdUsed(s, op.txnId))
      && Writes(s, answer, Txn(op.txnId, h.customer, h.org, Some(h.deployment), Some(h.moduleName), Release,
                               h.amount, -h.amount, 0, 0, 0, op.key, h.id, None, None, op.at))
  {
    hide Inv, FindByKey, FindHold, Post, KeySpent, RowIdUsed, HoldIdUsed;
    hide DecideTopUp, DecideHold, DecideCapture, DecideConsume, DecideIngest, DecideRefund;
    var k := HoldAccount(h);
    RowIs(s, k, op.key);
    HoldIs(s, op.holdId);
    BalancedAccount(s, k);
    HoldAmountPositive(s, h);
    if h.status == Active { FrozenCoversHolds(s, h); }
    var draft := Txn(op.txnId, op.customer, h.org, Some(h.deployment), Some(h.moduleName), Release,
                     h.amount, -h.amount, 0, 0, 0, op.key, op.holdId, None, None, op.at);
    PostAnswers(s, draft);
    if h.status == Active { LimitsAtPost(s, draft); }
  }

  /* ---- Consuming ---- */

  /** A direct debit commits exactly when the account has the credits, its key is unspent there and its
      row id unused, and the credits ever consumed stay within the limit. */
  lemma ConsumeAnswers(s: Ledger, op: Op)
    requires Inv(s) && op.ConsumeCredits?
    ensures var (k, answer) := (AccountKey(op.customer, op.org), Decide(s, op));
      var open := !KeySpent(s, k, op.key) && op.amount <= Spendable(s, k);
      var within := ConsumedOf(s, k) + op.amount <= MAX_CREDITS;
      && (answer.Committed? <==> open && within && !RowIdUsed(s, op.txnId))
      && (answer == Rejected(CustomerMissing) <==> !Opens(s, k))
      && (forall t :: answer == Replayed(t) <==>
            && Row(s, k, op.key, t) && t.kind == Consume && t.billed == op.amount && t.reference == op.reference
            && t.deployment == Some(op.deployment) && t.moduleName == Some(op.moduleName))
      && (answer == Rejected(KeyReused) <==> KeySpent(s, k, op.key) && !answer.Replayed?)
      && (answer == Rejected(InsufficientCredits) <==> Opens(s, k) && !KeySpent(s, k, op.key) && op.amount > Spendable(s, k))
      && (answer == Rejected(LimitExceeded) <==> open && !within)
      && (answer == Rejected(DuplicateRow) <==> open && within && RowIdUsed(s, op.txnId))
      && Writes(s, answer, Txn(op.txnId, op.customer, op.org, Some(op.deployment), Some(op.moduleName), Consume,
                               -(op.amount as int), 0, op.amount, 0, 0, op.key, op.reference, None, None, op.at))
  {
    hide Inv, FindByKey, Post, KeySpent, RowIdUsed;
    hide DecideTopUp, DecideHold, DecideCapture, DecideRelease, DecideIngest, DecideRefund;
    var k := AccountKey(op.customer, op.org);
    RowIs(s, k, op.key);
    BalancedAccount(s, k);
    var draft := Txn(op.txnId, op.customer, op.org, Some(op.deployment), Some(op.moduleName), Consume,
                     -(op.amount as int), 0, op.amount, 0, 0, op.key, op.reference, None, None, op.at);
    PostAnswers(s, draft);
    if op.amount <= Spendable(s, k) { LimitsAtPost(s, draft); }
  }

  /* ---- Signed receipts ---- */

  ghost predicate Consumed(s: Ledger, id: Id, r: Receipt) { r in s.receipts && r.claim.receiptId == id }

  ghost predicate ReceiptSeen(s: Ledger, id: Id) { exists r :: Consumed(s, id, r) }

  ghost predicate TaskSeen(s: Ledger, deployment: Id, task: Id) {
    exists r | r in s.receipts :: r.claim.deployment == deployment && r.claim.task == task
  }

  lemma ReceiptIs(s: Ledger, id: Id)
    requires Inv(s)
    ensures FindReceipt(s.receipts, id).Some? <==> ReceiptSeen(s, id)
    ensures forall r | Consumed(s, id, r) :: FindReceipt(s.receipts, id) == Some(r)
    ensures forall r | Consumed(s, id, r) :: AccountKey(r.customer, r.claim.org) in s.accounts && FindById(s.txns, r.txnId).Some?
  {
    hide Inv;
    var found := FindReceipt(s.receipts, id);
    if found.Some? { assert Consumed(s, id, found.value); }
    forall r | Consumed(s, id, r)
      ensures found == Some(r) && AccountKey(r.customer, r.claim.org) in s.accounts && FindById(s.txns, r.txnId).Some?
    {
      FindsReceipt(s, r);
      var t := RowOfReceipt(s, r);
      FindsRow(s, t);
    }
  }

  lemma RowOfReceipt(s: Ledger, r: Receipt) returns (t: Txn)
    requires Inv(s) && r in s.receipts
    ensures t in s.txns && Bills(t, r)
  {
    hide Books, RunningBalances, UniqueRows, RefundsCapped, FrozenIsActiveHolds, HoldsMatchHistory, Contiguous;
    t :| t in s.txns && Bills(t, r);
  }

  /** The receipt may be billed: its key is active, it is the deployment's next in sequence, and its
      task has not been billed. */
  ghost predicate InTurn(s: Ledger, c: Claim) {
    && (c.deployment, c.signingKey) in s.activeKeys
    && c.sequence == |ReceiptsOf(s.receipts, c.deployment)| + 1
    && !TaskSeen(s, c.deployment, c.task)
  }

  /** A signed receipt is billed exactly when its id is new, it is in turn, its account has the credits,
      its row can be written and the credits ever consumed stay within the limit. */
  lemma ReceiptAnswers(s: Ledger, op: Op)
    requires Inv(s) && op.IngestExecutionReceipt?
    ensures var (c, answer) := (op.claim, Decide(s, op));
      var k := AccountKey(op.customer, c.org);
      var first := Opens(s, k) && !ReceiptSeen(s, c.receiptId);
      var open := first && InTurn(s, c) && op.amount <= Spendable(s, k);
      var within := ConsumedOf(s, k) + op.amount <= MAX_CREDITS;
      var free := !KeySpent(s, k, "receipt:" + c.receiptId) && !RowIdUsed(s, op.txnId);
      && (answer.Committed? <==> open && within && free)
      && (answer == Rejected(CustomerMissing) <==> !Opens(s, k))
      && (answer.Replayed? <==> exists r :: Consumed(s, c.receiptId, r) && r.customer == op.customer && r.claim == c)
      && (answer == Rejected(ReceiptReused) <==> Opens(s, k) && ReceiptSeen(s, c.receiptId) && !answer.Replayed?)
      && (answer == Rejected(SigningKeyInactive) <==> first && (c.deployment, c.signingKey) !in s.activeKeys)
      && (answer == Rejected(SequenceMismatch) <==>
            first && (c.deployment, c.signingKey) in s.activeKeys && c.sequence != |ReceiptsOf(s.receipts, c.deployment)| + 1)
      && (answer == Rejected(TaskAlreadyBilled) <==>
            && first && (c.deployment, c.signingKey) in s.activeKeys && c.sequence == |ReceiptsOf(s.receipts, c.deployment)| + 1
            && TaskSeen(s, c.deployment, c.task))
      && (answer == Rejected(InsufficientCredits) <==> first && InTurn(s, c) && op.amount > Spendable(s, k))
      && (answer == Rejected(LimitExceeded) <==> open && !within)
      && (answer == Rejected(DuplicateRow) <==> open && within && !free)
      && Writes(s, answer, Txn(op.txnId, op.customer, c.org, Some(c.deployment), Some(c.moduleName), Consume,
                               -(op.amount as int), 0, op.amount, 0, 0, "receipt:" + c.receiptId, c.task, None, None, c.issuedAt))
  {
    hide Inv, FindReceipt, FindById, Post, KeySpent, RowIdUsed, TaskBilled, TaskSeen, LastSequence, ReceiptsOf;
    hide DecideTopUp, DecideHold, DecideCapture, DecideRelease, DecideConsume, DecideRefund;
    var c := op.claim;
    var k := AccountKey(op.customer, c.org);
    ReceiptIs(s, c.receiptId);
    BalancedAccount(s, k);
    LastIsCount(s, c.deployment);
    TaskIs(s, c);
    var draft := Txn(op.txnId, op.customer, c.org, Some(c.deployment), Some(c.moduleName), Consume,
                     -(op.amount as int), 0, op.amount, 0, 0, ReceiptKey(c.receiptId), c.task, None, None, c.issuedAt);
    PostAnswers(s, draft);
    if op.amount <= Spendable(s, k) { LimitsAtPost(s, draft); }
  }

  lemma TaskIs(s: Ledger, c: Claim)
    ensures TaskBilled(s.receipts, c.deployment, c.task) <==> TaskSeen(s, c.deployment, c.task)
  {
  }

  lemma LastIsCount(s: Ledger, deployment: Id)
    requires Inv(s)
    ensures LastSequence(s, deployment) == |ReceiptsOf(s.receipts, deployment)|
  {
    hide Books, RunningBalances, UniqueRows, RefundsCapped, FrozenIsActiveHolds, HoldsMatchHistory, ReceiptsOf;
    assert Contiguous(s, deployment);
  }

  /** A replay is answered with the row that billed the receipt. */
  lemma ReceiptReplaysRow(s: Ledger, op: Op)
    requires Inv(s) && op.IngestExecutionReceipt? && Decide(s, op).Replayed?
    ensures Decide(s, op).txn in s.txns && Decide(s, op).txn.key == "receipt:" + op.claim.receiptId
    ensures KeyOf(Decide(s, op).txn) == AccountKey(op.customer, op.claim.org)
  {
    hide Inv, Decide;
    ReplayedRecords(s, op, Decide(s, op).txn);
  }

  /* ---- Refunding ---- */

  /** A refund commits exactly when it names a charge of its customer, its key is unspent in the
      charge's account and its row id unused, and all refunds of the charge stay within what it billed. */
  lemma RefundAnswers(s: Ledger, op: Op, c: Txn)
    requires Inv(s) && op.RefundCredits? && MyCharge(s, op.relatedId, op.customer, c)
    ensures var (k, answer) := (KeyOf(c), Decide(s, op));
      var room := Total(s.txns, RefundsOf(c.id), Billed) + op.amount <= c.billed;
      && (answer.Committed? <==> !KeySpent(s, k, op.key) && room && !RowIdUsed(s, op.txnId))
      && (forall t :: answer == Replayed(t) <==>
            Row(s, k, op.key, t) && t.kind == Refund && t.billed == op.amount && t.related == Some(c.id) && t.reference == op.reference)
      && (answer == Rejected(KeyReused) <==> KeySpent(s, k, op.key) && !answer.Replayed?)
      && (answer == Rejected(RefundExceeds) <==> !KeySpent(s, k, op.key) && !room)
      && (answer == Rejected(DuplicateRow) <==> !KeySpent(s, k, op.key) && room && RowIdUsed(s, op.txnId))
      && Writes(s, answer, Txn(op.txnId, c.customer, c.org, c.deployment, c.moduleName, Refund,
                               op.amount, 0, op.amount, 0, 0, op.key, op.reference, Some(c.id), None, op.at))
  {
    hide Inv, FindByKey, FindById, Post, KeySpent, RowIdUsed, Total;
    hide DecideTopUp, DecideHold, DecideCapture, DecideRelease, DecideConsume, DecideIngest;
    var k := KeyOf(c);
    RowIs(s, k, op.key);
    ChargeIs(s, op.relatedId);
    BalancedAccount(s, k);
    ChargeHasModule(s, c);
    if Total(s.txns, RefundsOf(c.id), Billed) + op.amount <= c.billed { RefundFits(s, op, c); }
    var draft := Txn(op.txnId, op.customer, c.org, c.deployment, c.moduleName, Refund,
                     op.amount, 0, op.amount, 0, 0, op.key, op.reference, Some(op.relatedId), None, op.at);
    PostAnswers(s, draft);
    if Total(s.txns, RefundsOf(c.id), Billed) + op.amount <= c.billed { LimitsAtPost(s, draft); }
  }

  lemma NoChargeNotFound(s: Ledger, op: Op)
    requires Inv(s) && op.RefundCredits?
    ensures Decide(s, op) == Rejected(NotFound) <==> forall c :: !MyCharge(s, op.relatedId, op.customer, c)
  {
    hide Inv, FindByKey, FindById, Post, Total;
    hide DecideTopUp, DecideHold, DecideCapture, DecideRelease, DecideConsume, DecideIngest;
    ChargeIs(s, op.relatedId);
    PostNeverMisses(s);
    var found := FindById(s.txns, op.relatedId);
    if found.Some? { assert MyCharge(s, op.relatedId, op.customer, found.value) <==> found.value.customer == op.customer && IsCharge(found.value); }
  }

  /* ---- What is left behind ---- */

  /** The holds after an operation that commits: one more, one with its new status, or the same. */
  ghost predicate HoldsMoved(before: seq<Hold>, after: seq<Hold>, op: Op) {
    match op
    case CreateCreditHold(_, holdId, customer, org, deployment, moduleName, amount, key, expiresAt, _) =>
      after == before + [Hold(holdId, customer, org, deployment, moduleName, amount, Active, key, expiresAt)]
    case CaptureCreditHold(_, holdId, _, _, _, _, _) => Restated(before, after, holdId, Captured)
    case ReleaseCreditHold(_, holdId, _, _, expired, _) => Restated(before, after, holdId, if expired then Expired else Released)
    case _ => after == before
  }

  ghost predicate Restated(before: seq<Hold>, after: seq<Hold>, id: Id, status: HoldStatus) {
    |after| == |before| && forall i | 0 <= i < |before| ::
      after[i] == if before[i].id == id then before[i].(status := status) else before[i]
  }

  lemma StatusSet(holds: seq<Hold>, id: Id, status: HoldStatus)
    requires UniqueHolds(holds)
    ensures Restated(holds, SetStatus(holds, id, status), id, status)
  {
    hide FindHold;
    var found := FindHold(holds, id);
    forall i | 0 <= i < |holds| && holds[i].id == id ensures found == Some(i) {
      assert holds[i] in holds;
      var j := found.value;
      assert i == j;
    }
    forall i | 0 <= i < |holds| && found.None? ensures holds[i].id != id { assert holds[i] in holds; }
  }

  /** An operation that does not commit leaves everything as it was, but for an administrator's change;
      one that commits adds its row, posts it to its account, and moves holds and receipts as its kind
      says. */
  lemma StepLeaves(s: Ledger, op: Op)
    requires Inv(s)
    ensures var (next, answer) := Step(s, op);
      && (!answer.Committed? && !op.AdminChange? ==> next == s)
      && (op.AdminChange? ==> next == s.(customers := op.customers, activeKeys := op.activeKeys))
      && (answer.Committed? ==>
            && next.txns == s.txns + [answer.txn]
            && HoldsMoved(s.holds, next.holds, op)
            && next.receipts == s.receipts + (if op.IngestExecutionReceipt? then [Receipt(op.customer, op.claim, op.txnId)] else [])
            && next.accounts.Keys == s.accounts.Keys + {KeyOf(answer.txn)}
            && next.customers == s.customers && next.activeKeys == s.activeKeys)
  {
    hide Inv, Decide, HoldsMoved, Commit;
    StepKeepsInv(s, op);
    OnlyAdmin(s, op);
    if Decide(s, op).Committed? {
      var t := Decide(s, op).txn;
      UniqueHoldsOf(s);
      CommitLeaves(s, op, t);
      if op.IngestExecutionReceipt? { ReceiptRowId(s, op); }
    }
  }

  lemma CommitLeaves(s: Ledger, op: Op, t: Txn)
    requires UniqueHolds(s.holds)
    ensures var next := Commit(s, op, t);
      && next.txns == s.txns + [t] && HoldsMoved(s.holds, next.holds, op)
      && next.receipts == s.receipts + (if op.IngestExecutionReceipt? then [Receipt(op.customer, op.claim, t.id)] else [])
      && next.accounts.Keys == s.accounts.Keys + {KeyOf(t)}
      && next.customers == s.customers && next.activeKeys == s.activeKeys
  {
    hide SetStatus, Restated, Applied;
    if op.CaptureCreditHold? { StatusSet(s.holds, op.holdId, Captured); }
    if op.ReleaseCreditHold? { StatusSet(s.holds, op.holdId, if op.expired then Expired else Released); }
  }

  lemma ReceiptRowId(s: Ledger, op: Op)
    requires Inv(s) && op.IngestExecutionReceipt? && Decide(s, op).Committed?
    ensures Decide(s, op).txn.id == op.txnId
  {
    hide Inv, Decide, InTurn;
    ReceiptAnswers(s, op);
  }

  lemma OnlyAdmin(s: Ledger, op: Op)
    ensures op.AdminChange? <==> Decide(s, op) == Acknowledged
  {
    if Decide(s, op) == Acknowledged { OnlyAdminAcknowledged(s, op); }
  }

  lemma UniqueHoldsOf(s: Ledger)
    requires Inv(s)
    ensures UniqueHolds(s.holds)
  {
    hide Books, RunningBalances, UniqueRows, RefundsCapped, FrozenIsActiveHolds, ReceiptsMatchHistory, UniqueHolds;
  }

  /* ---- Captures come before the expiry ---- */

  /** Every hold named by a capture row had not expired at the row's date. */
  ghost predicate CapturedInTime(s: Ledger) {
    forall t, h | t in s.txns && h in s.holds && t.kind == Capture && t.holdId == Some(h.id) :: t.at < h.expiresAt
  }

  lemma StepKeepsInTime(s: Ledger, op: Op)
    requires Inv(s) && CapturedInTime(s)
    ensures CapturedInTime(Step(s, op).0)
  {
    hide Inv, Step, HoldsMoved;
    var (next, answer) := Step(s, op);
    StepLeaves(s, op);
    AnswerIsDecided(s, op);
    hide Decide;
    if answer.Committed? {
      AnswerKind(s, op);
      forall t, h | t in next.txns && h in next.holds && t.kind == Capture && t.holdId == Some(h.id) ensures t.at < h.expiresAt {
        HoldWas(s, op, h);
        if t in s.txns {
          CaptureHasHold(s, t);
        } else {
          var x :| x in s.holds && x.id == h.id && x.expiresAt == h.expiresAt;
          CaptureTimely(s, op, x);
        }
      }
    }
  }

  lemma AnswerIsDecided(s: Ledger, op: Op)
    ensures Step(s, op).1 == Decide(s, op)
  {
    hide Decide, Commit;
  }

  lemma AnswerKind(s: Ledger, op: Op)
    requires Inv(s) && Decide(s, op).Committed?
    ensures Decide(s, op).txn.kind == Capture <==> op.CaptureCreditHold?
    ensures op.CaptureCreditHold? ==> Decide(s, op).txn.holdId == Some(op.holdId)
  {
    CommittedRecords(s, op, Decide(s, op).txn);
    hide Inv, Decide;
  }

  lemma CaptureTimely(s: Ledger, op: Op, h: Hold)
    requires Inv(s) && op.CaptureCreditHold? && Decide(s, op).Committed? && h in s.holds && h.id == op.holdId
    ensures Decide(s, op).txn.at == op.at < h.expiresAt
  {
    NoHoldNotFound(s, op);
    hide Inv, Decide;
    var x :| Mine(s, op.holdId, op.customer, x);
    HoldIs(s, op.holdId);
    CaptureAnswers(s, op, x);
  }

  lemma CaptureHasHold(s: Ledger, t: Txn)
    requires Inv(s) && t in s.txns && t.kind == Capture
    ensures exists h :: h in s.holds && t.holdId == Some(h.id)
  {
    var h := HoldOfRow(s, t);
  }

  /** A hold after the step with an id that was there before keeps its terms. */
  lemma HoldWas(s: Ledger, op: Op, h: Hold)
    requires Inv(s) && h in Step(s, op).0.holds && Decide(s, op).Committed?
    ensures (exists x :: x in s.holds && x.id == h.id) ==> exists x :: x in s.holds && x.id == h.id && x.expiresAt == h.expiresAt
    ensures op.CaptureCreditHold? ==> exists x :: x in s.holds && x.id == h.id && x.expiresAt == h.expiresAt
  {
    hide Inv, Decide, Step, CanFreeze;
    AnswerIsDecided(s, op);
    StepLeaves(s, op);
    if op.CreateCreditHold? { HoldAnswers(s, op); }
    var next := Step(s, op).0;
    var i :| 0 <= i < |next.holds| && next.holds[i] == h;
    if i < |s.holds| { assert s.holds[i] in s.holds; }
  }

  lemma {:induction false} EveryCaptureInTime(ops: seq<Op>)
    ensures CapturedInTime(Reached(ops))
  {
    hide Inv, Step, CapturedInTime;
    if |ops| == 0 {
      NoneCaptured();
    } else {
      EveryCaptureInTime(ops[..|ops| - 1]);
      StepKeepsInTime(Reached(ops[..|ops| - 1]), ops[|ops| - 1]);
    }
  }

  lemma NoneCaptured()
    ensures CapturedInTime(EMPTY)
  {
  }
}
