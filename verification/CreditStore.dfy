/** The PostgreSQL store's credit transactions: each method works on the tables statement by
    statement, rolls back on a conflict or a violated constraint, and is proved to be one `Step`. */
module CreditStore {
  import opened Options
  import opened Ledger
  import opened LedgerInvariant
  import Doubles

  class Store {
    var customers: set<Id>
    var activeKeys: set<(Id, Id)>
    var accounts: map<AccountKey, Account>
    var holds: seq<Hold>
    var txns: seq<Txn>
    var receipts: seq<Receipt>
    var sequences: map<Id, int>

    constructor ()
      ensures State() == EMPTY && Valid()
    {
      customers, activeKeys, accounts, holds, txns, receipts, sequences := {}, {}, map[], [], [], [], map[];
      new;
      InvEmpty();
    }

    function State(): Ledger
      reads this
    {
      Ledger(customers, activeKeys, accounts, holds, txns, receipts, sequences)
    }

    ghost predicate Valid()
      reads this
    {
      Inv(State())
    }

    method Rollback(begin: Ledger)
      modifies this
      ensures State() == begin
    {
      customers, activeKeys, accounts := begin.customers, begin.activeKeys, begin.accounts;
      holds, txns, receipts, sequences := begin.holds, begin.txns, begin.receipts, begin.sequences;
    }

    /** INSERT ... ON CONFLICT DO NOTHING; only a fresh row needs its customer to exist. */
    method OpenAccount(k: AccountKey) returns (ok: bool)
      modifies this`accounts
      ensures ok <==> k in old(accounts) || k.customer in customers
      ensures State() == if ok then Opened(old(State()), k) else old(State())
    {
      ok := k in accounts || k.customer in customers;
      if k in accounts {
        assert accounts == accounts[k := accounts[k]];
      } else if ok {
        accounts := accounts[k := NEW_ACCOUNT];
      }
    }

    /** UPDATE ... RETURNING, under the CHECK constraints of the balance columns. */
    method UpdateBalances(k: AccountKey, available: int, frozen: int, toppedUp: int, consumed: int, refunded: int)
      returns (account: Account, ok: bool)
      requires k in accounts
      modifies this`accounts
      ensures var a := old(accounts[k]);
        account == Account(a.available + available, a.frozen + frozen, a.toppedUp + toppedUp,
                           a.consumed + consumed, a.refunded + refunded)
      ensures ok <==> WithinLimits(account)
      ensures accounts == if ok then old(accounts)[k := account] else old(accounts)
    {
      var a := accounts[k];
      account := Account(a.available + available, a.frozen + frozen, a.toppedUp + toppedUp,
                         a.consumed + consumed, a.refunded + refunded);
      ok := WithinLimits(account);
      if ok { accounts := accounts[k := account]; }
    }

    /** INSERT under the primary key and the per-account idempotency index. */
    method InsertTransaction(t: Txn) returns (ok: bool)
      modifies this`txns
      ensures ok <==> FindById(old(txns), t.id).None? && FindByKey(old(txns), KeyOf(t), t.key).None?
      ensures txns == if ok then old(txns) + [t] else old(txns)
    {
      ok := FindById(txns, t.id).None? && FindByKey(txns, KeyOf(t), t.key).None?;
      if ok { txns := txns + [t]; }
    }

    /** The write half of every mutation: the balance update, then the row with the balances that
        came back. Either both happen or the transaction is rolled back to `begin`. */
    method WriteRow(begin: Ledger, draft: Txn, available: int, frozen: int, toppedUp: int, consumed: int, refunded: int)
      returns (outcome: Outcome)
      requires KeyOf(draft) in accounts
      requires accounts == Opened(begin, KeyOf(draft)).accounts && txns == begin.txns
      requires receipts == begin.receipts && sequences == begin.sequences
      requires customers == begin.customers && activeKeys == begin.activeKeys
      requires var a := AccountOf(begin, KeyOf(draft));
        Applied(a, draft) == Account(a.available + available, a.frozen + frozen, a.toppedUp + toppedUp,
                                     a.consumed + consumed, a.refunded + refunded)
      modifies this
      ensures outcome == Post(begin, draft)
      ensures outcome.Committed? ==>
        && KeyOf(outcome.txn) == KeyOf(draft) && outcome.txn.id == draft.id
        && State() == begin.(holds := old(holds), txns := begin.txns + [outcome.txn],
             accounts := begin.accounts[KeyOf(draft) := Applied(AccountOf(begin, KeyOf(draft)), outcome.txn)])
      ensures !outcome.Committed? ==> State() == begin
    {
      hide FindById, FindByKey, WithinLimits;
      var k := KeyOf(draft);
      var account, ok := UpdateBalances(k, available, frozen, toppedUp, consumed, refunded);
      assert Opened(begin, k).accounts[k := account] == begin.accounts[k := account];
      if !ok {
        Rollback(begin);
        return Rejected(LimitExceeded);
      }
      var t := draft.(availableAfter := account.available, frozenAfter := account.frozen);
      ok := InsertTransaction(t);
      if !ok {
        Rollback(begin);
        return Rejected(DuplicateRow);
      }
      return Committed(t);
    }

    method TopUpCredits(input: Op) returns (outcome: Outcome)
      requires Valid() && input.TopUpCredits?
      modifies this
      ensures Valid() && State() == Step(old(State()), input).0 && outcome == Step(old(State()), input).1
    {
      hide Inv, Post, FindById, FindByKey;
      StepKeepsInv(State(), input);
      var begin := State();
      var k := AccountKey(input.customer, input.org);
      var ok := OpenAccount(k);
      if !ok { return Rejected(CustomerMissing); }
      var existing := FindByKey(txns, k, input.key);
      if existing.Some? {
        var t := existing.value;
        if t.kind != TopUp || t.availableDelta != input.amount || t.reference != input.reference {
          Rollback(begin);
          return Rejected(KeyReused);
        }
        return Replayed(t);
      }
      outcome := WriteRow(begin, Txn(input.txnId, input.customer, input.org, None, None, TopUp, input.amount, 0, 0, 0, 0,
                                     input.key, input.reference, None, None, input.at),
                          input.amount, 0, input.amount, 0, 0);
    }

    method CreateCreditHold(input: Op) returns (outcome: Outcome)
      requires Valid() && input.CreateCreditHold?
      modifies this
      ensures Valid() && State() == Step(old(State()), input).0 && outcome == Step(old(State()), input).1
    {
      hide Inv, Post, FindById, FindByKey, FindHoldByKey, FindHold;
      StepKeepsInv(State(), input);
      var begin := State();
      var k := AccountKey(input.customer, input.org);
      var ok := OpenAccount(k);
      if !ok { return Rejected(CustomerMissing); }
      var existingHold := FindHoldByKey(holds, k, input.key);
      if existingHold.Some? {
        var h := holds[existingHold.value];
        if h.deployment != input.deployment || h.moduleName != input.moduleName || h.amount != input.amount {
          Rollback(begin);
          return Rejected(KeyReused);
        }
        var existing := FindByKey(txns, k, input.key);
        if existing.None? {
          Rollback(begin);
          return Rejected(NotFound);
        }
        return Replayed(existing.value);
      }
      if accounts[k].available < input.amount {
        Rollback(begin);
        return Rejected(InsufficientCredits);
      }
      var duplicate := FindHold(holds, input.holdId).Some?;
      holds := holds + [Hold(input.holdId, input.customer, input.org, input.deployment, input.moduleName,
                             input.amount, Active, input.key, input.expiresAt)];
      outcome := WriteRow(begin, Txn(input.txnId, input.customer, input.org, Some(input.deployment), Some(input.moduleName),
                                     Freeze, -(input.amount as int), input.amount, 0, 0, 0, input.key, input.holdId,
                                     None, None, input.at),
                          -(input.amount as int), input.amount, 0, 0, 0);
      if outcome.Committed? && duplicate {
        Rollback(begin);
        return Rejected(DuplicateRow);
      }
    }

    method CaptureCreditHold(input: Op) returns (outcome: Outcome)
      requires Valid() && input.CaptureCreditHold?
      modifies this
      ensures Valid() && State() == Step(old(State()), input).0 && outcome == Step(old(State()), input).1
    {
      hide Inv, Post, FindById, FindByKey, FindHold, Doubles.Round;
      StepKeepsInv(State(), input);
      var begin := State();
      var found := FindHold(holds, input.holdId);
      if found.None? || holds[found.value].customer != input.customer { return Rejected(NotFound); }
      var h := holds[found.value];
      var k := AccountKey(input.customer, h.org);
      if k !in accounts { return Rejected(NotFound); }
      assert Opened(begin, k).accounts == accounts;
      var existing := FindByKey(txns, k, input.key);
      if existing.Some? {
        var t := existing.value;
        if t.kind != Capture || t.reference != input.reference || t.holdId != Some(input.holdId) || t.billed != input.amount {
          return Rejected(KeyReused);
        }
        return Replayed(t);
      }
      if h.status != Active { return Rejected(HoldNotActive); }
      if h.expiresAt <= input.at { return Rejected(HoldExpired); }
      var availableDelta := h.amount - input.amount;
      Doubles.RoundSign((accounts[k].available + availableDelta) as real);
      if Doubles.Round((accounts[k].available + availableDelta) as real) < 0.0 { return Rejected(InsufficientCredits); }
      holds := holds[found.value := h.(status := Captured)];
      outcome := WriteRow(begin, Txn(input.txnId, input.customer, h.org, Some(h.deployment), Some(h.moduleName), Capture,
                                     availableDelta, -h.amount, input.amount, 0, 0, input.key, input.reference,
                                     None, Some(input.holdId), input.at),
                          availableDelta, -h.amount, 0, input.amount, 0);
    }

    method ReleaseCreditHold(input: Op) returns (outcome: Outcome)
      requires Valid() && input.ReleaseCreditHold?
      modifies this
      ensures Valid() && State() == Step(old(State()), input).0 && outcome == Step(old(State()), input).1
    {
      hide Inv, Post, FindById, FindByKey, FindHold;
      StepKeepsInv(State(), input);
      var begin := State();
      var found := FindHold(holds, input.holdId);
      if found.None? || holds[found.value].customer != input.customer { return Rejected(NotFound); }
      var h := holds[found.value];
      var k := AccountKey(input.customer, h.org);
      if k !in accounts { return Rejected(NotFound); }
      assert Opened(begin, k).accounts == accounts;
      var existing := FindByKey(txns, k, input.key);
      if existing.Some? {
        var t := existing.value;
        if t.kind != Release || t.reference != input.holdId { return Rejected(KeyReused); }
        return Replayed(t);
      }
      if h.status != Active { return Rejected(HoldNotActive); }
      holds := holds[found.value := h.(status := if input.expired then Expired else Released)];
      outcome := WriteRow(begin, Txn(input.txnId, input.customer, h.org, Some(h.deployment), Some(h.moduleName), Release,
                                     h.amount, -h.amount, 0, 0, 0, input.key, input.holdId, None, None, input.at),
                          h.amount, -h.amount, 0, 0, 0);
    }

    method ConsumeCredits(input: Op) returns (outcome: Outcome)
      requires Valid() && input.ConsumeCredits?
      modifies this
      ensures Valid() && State() == Step(old(State()), input).0 && outcome == Step(old(State()), input).1
    {
      hide Inv, Post, FindById, FindByKey;
      StepKeepsInv(State(), input);
      var begin := State();
      var k := AccountKey(input.customer, input.org);
      var ok := OpenAccount(k);
      if !ok { return Rejected(CustomerMissing); }
      var existing := FindByKey(txns, k, input.key);
      if existing.Some? {
        var t := existing.value;
        if || t.kind != Consume || t.billed != input.amount || t.deployment != Some(input.deployment)
           || t.moduleName != Some(input.moduleName) || t.reference != input.reference {
          Rollback(begin);
          return Rejected(KeyReused);
        }
        return Replayed(t);
      }
      if accounts[k].available < input.amount {
        Rollback(begin);
        return Rejected(InsufficientCredits);
      }
      outcome := WriteRow(begin, Txn(input.txnId, input.customer, input.org, Some(input.deployment), Some(input.moduleName),
                                     Consume, -(input.amount as int), 0, input.amount, 0, 0, input.key, input.reference,
                                     None, None, input.at),
                          -(input.amount as int), 0, 0, input.amount, 0);
    }

    method IngestExecutionReceipt(input: Op) returns (outcome: Outcome)
      requires Valid() && input.IngestExecutionReceipt?
      modifies this
      ensures Valid() && State() == Step(old(State()), input).0 && outcome == Step(old(State()), input).1
    {
      hide Inv, Post, FindById, FindByKey, FindReceipt, TaskBilled;
      StepKeepsInv(State(), input);
      var begin := State();
      var c := input.claim;
      var k := AccountKey(input.customer, c.org);
      var ok := OpenAccount(k);
      if !ok { return Rejected(CustomerMissing); }
      var replay := FindReceipt(receipts, c.receiptId);
      if replay.Some? {
        if replay.value.customer != input.customer || replay.value.claim != c {
          Rollback(begin);
          return Rejected(ReceiptReused);
        }
        outcome := ReplayReceipt(begin, replay.value, input);
        return;
      }
      if (c.deployment, c.signingKey) !in activeKeys {
        Rollback(begin);
        return Rejected(SigningKeyInactive);
      }
      if c.sequence != (if c.deployment in sequences then sequences[c.deployment] else 0) + 1 {
        Rollback(begin);
        return Rejected(SequenceMismatch);
      }
      if TaskBilled(receipts, c.deployment, c.task) {
        Rollback(begin);
        return Rejected(TaskAlreadyBilled);
      }
      if accounts[k].available < input.amount {
        Rollback(begin);
        return Rejected(InsufficientCredits);
      }
      outcome := WriteRow(begin, Txn(input.txnId, input.customer, c.org, Some(c.deployment), Some(c.moduleName), Consume,
                                     -(input.amount as int), 0, input.amount, 0, 0, ReceiptKey(c.receiptId), c.task,
                                     None, None, c.issuedAt),
                          -(input.amount as int), 0, 0, input.amount, 0);
      if outcome.Committed? {
        receipts := receipts + [Receipt(input.customer, c, outcome.txn.id)];
        sequences := sequences[c.deployment := c.sequence];
      }
    }

    /** The replay branch of a receipt: fetch the billed row the receipt points at. */
    method ReplayReceipt(ghost begin: Ledger, replay: Receipt, ghost input: Op) returns (outcome: Outcome)
      requires Inv(begin) && replay in begin.receipts && input.IngestExecutionReceipt?
      requires State() == Opened(begin, AccountKey(input.customer, input.claim.org))
      requires replay.customer == input.customer && replay.claim == input.claim
      requires Decide(begin, input) ==
        match FindById(begin.txns, replay.txnId) case Some(t) => Replayed(t) case None => Rejected(NotFound)
      ensures State() == Step(begin, input).0 && outcome == Step(begin, input).1
    {
      hide Inv, Decide, Bills, FindById;
      var billed := FindById(txns, replay.txnId);
      ghost var t := BilledRow(begin, replay);
      return Replayed(billed.value);
    }

    method RefundCredits(input: Op) returns (outcome: Outcome)
      requires Valid() && input.RefundCredits?
      modifies this
      ensures Valid() && State() == Step(old(State()), input).0 && outcome == Step(old(State()), input).1
    {
      hide Inv, Post, FindById, FindByKey, Total, Doubles.Round;
      StepKeepsInv(State(), input);
      var begin := State();
      var found := FindById(txns, input.relatedId);
      if found.None? || found.value.customer != input.customer || !IsCharge(found.value) { return Rejected(NotFound); }
      var original := found.value;
      var k := AccountKey(input.customer, original.org);
      if k !in accounts { return Rejected(NotFound); }
      assert Opened(begin, k).accounts == accounts;
      var existing := FindByKey(txns, k, input.key);
      if existing.Some? {
        var t := existing.value;
        if t.kind != Refund || t.billed != input.amount || t.related != Some(input.relatedId) || t.reference != input.reference {
          return Rejected(KeyReused);
        }
        return Replayed(t);
      }
      var refunded := Total(txns, RefundsOf(input.relatedId), Billed);
      RefundedAmounts(State(), original);
      Doubles.SumComparisonExact(refunded, input.amount, original.billed);
      if Doubles.Round((refunded + input.amount) as real) > original.billed as real { return Rejected(RefundExceeds); }
      outcome := WriteRow(begin, Txn(input.txnId, input.customer, original.org, original.deployment, original.moduleName,
                                     Refund, input.amount, 0, input.amount, 0, 0, input.key, input.reference,
                                     Some(input.relatedId), None, input.at),
                          input.amount, 0, 0, 0, input.amount);
    }

    /** Another service changes its own tables. */
    method AdminChange(input: Op)
      requires Valid() && input.AdminChange?
      modifies this`customers, this`activeKeys
      ensures Valid() && State() == Step(old(State()), input).0
    {
      hide Inv;
      StepKeepsInv(State(), input);
      customers, activeKeys := input.customers, input.activeKeys;
    }

    /** One client request, of whichever kind. */
    method Execute(input: Op) returns (outcome: Outcome)
      requires Valid()
      modifies this
      ensures Valid() && State() == Step(old(State()), input).0 && outcome == Step(old(State()), input).1
    {
      hide Inv, Decide;
      match input
      case TopUpCredits(_, _, _, _, _, _, _) => outcome := TopUpCredits(input);
      case CreateCreditHold(_, _, _, _, _, _, _, _, _, _) => outcome := CreateCreditHold(input);
      case CaptureCreditHold(_, _, _, _, _, _, _) => outcome := CaptureCreditHold(input);
      case ReleaseCreditHold(_, _, _, _, _, _) => outcome := ReleaseCreditHold(input);
      case ConsumeCredits(_, _, _, _, _, _, _, _, _) => outcome := ConsumeCredits(input);
      case IngestExecutionReceipt(_, _, _, _) => outcome := IngestExecutionReceipt(input);
      case RefundCredits(_, _, _, _, _, _, _) => outcome := RefundCredits(input);
      case AdminChange(_, _) =>
        AdminChange(input);
        AdminAcknowledged(old(State()), input);
        outcome := Acknowledged;
    }
  }

  lemma AdminAcknowledged(s: Ledger, op: Op)
    requires op.AdminChange?
    ensures Decide(s, op) == Acknowledged
  {
  }

  lemma BilledRow(s: Ledger, r: Receipt) returns (t: Txn)
    requires Inv(s) && r in s.receipts
    ensures FindById(s.txns, r.txnId) == Some(t)
    ensures KeyOf(t) == AccountKey(r.customer, r.claim.org)
  {
    hide Books, RunningBalances, UniqueRows, RefundsCapped, HoldsMatchHistory, FrozenIsActiveHolds, Contiguous;
    t :| t in s.txns && Bills(t, r);
    SameRow(s.txns, t, FindById(s.txns, r.txnId).value);
  }

  /** What keeps the refund comparison within the reach of doubles. */
  lemma RefundedAmounts(s: Ledger, c: Txn)
    requires Inv(s) && c in s.txns && IsCharge(c)
    ensures 0 <= Total(s.txns, RefundsOf(c.id), Billed) <= c.billed <= MAX_CREDITS
  {
    hide RunningBalances, UniqueRows, HoldsMatchHistory, FrozenIsActiveHolds, ReceiptsMatchHistory, Total;
    forall u | u in s.txns ensures Value(Billed, u) >= 0 && Value(Consumed, u) >= 0 { assert Shape(u); }
    NonNegative(s.txns, RefundsOf(c.id), Billed);
    RowInTotal(s.txns, c, InAccount(KeyOf(c)), Consumed);
    assert AccountOf(s, KeyOf(c)) == Summary(s.txns, KeyOf(c));
  }
}
