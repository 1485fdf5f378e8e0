/** The credit ledger as atomic transactions over values.

    A ledger is the contents of the account, hold, transaction and receipt tables. `Decide` is what
    one store transaction answers; `Step` adds what it leaves behind. A thrown conflict and a
    violated database constraint are both rollbacks: the answer is `Rejected` and the tables keep
    their rows. */
module Ledger {
  import opened Options

  type Id = string

  const MAX_CREDITS: int := 9_000_000_000_000_000

  type Credits = x: int | 1 <= x <= MAX_CREDITS witness 1

  datatype AccountKey = AccountKey(customer: Id, org: Id)

  datatype Account = Account(available: int, frozen: int, toppedUp: int, consumed: int, refunded: int)

  const NEW_ACCOUNT: Account := Account(0, 0, 0, 0, 0)

  datatype HoldStatus = Active | Captured | Released | Expired

  datatype Hold = Hold(id: Id, customer: Id, org: Id, deployment: Id, moduleName: Id, amount: int,
                       status: HoldStatus, key: Id, expiresAt: int)

  datatype Kind = TopUp | Freeze | Capture | Release | Consume | Refund

  datatype Txn = Txn(id: Id, customer: Id, org: Id, deployment: Option<Id>, moduleName: Option<Id>,
                     kind: Kind, availableDelta: int, frozenDelta: int, billed: int,
                     availableAfter: int, frozenAfter: int, key: Id, reference: Id,
                     related: Option<Id>, holdId: Option<Id>, at: int)

  /** What a deployment signs for one executed task, with its signature. */
  datatype Claim = Claim(receiptId: Id, deployment: Id, org: Id, task: Id, moduleName: Id, units: int,
                         model: Option<Id>, issuedAt: int, expiresAt: int, sequence: int,
                         policyVersion: Id, signingKey: Id, signature: Id)

  datatype Receipt = Receipt(customer: Id, claim: Claim, txnId: Id)

  /** Customers and signing keys belong to other services; `AdminChange` lets them vary freely. */
  datatype Ledger = Ledger(customers: set<Id>, activeKeys: set<(Id, Id)>,
                           accounts: map<AccountKey, Account>, holds: seq<Hold>, txns: seq<Txn>,
                           receipts: seq<Receipt>, sequences: map<Id, int>)

  datatype Op =
    | TopUpCredits(txnId: Id, customer: Id, org: Id, amount: Credits, key: Id, reference: Id, at: int)
    | CreateCreditHold(txnId: Id, holdId: Id, customer: Id, org: Id, deployment: Id, moduleName: Id,
                       amount: Credits, key: Id, expiresAt: int, at: int)
    | CaptureCreditHold(txnId: Id, holdId: Id, customer: Id, amount: Credits, key: Id, reference: Id, at: int)
    | ReleaseCreditHold(txnId: Id, holdId: Id, customer: Id, key: Id, expired: bool, at: int)
    | ConsumeCredits(txnId: Id, customer: Id, org: Id, deployment: Id, moduleName: Id, amount: Credits,
                     key: Id, reference: Id, at: int)
    | IngestExecutionReceipt(txnId: Id, customer: Id, amount: Credits, claim: Claim)
    | RefundCredits(txnId: Id, customer: Id, relatedId: Id, amount: Credits, key: Id, reference: Id, at: int)
    | AdminChange(customers: set<Id>, activeKeys: set<(Id, Id)>)

  datatype Reason =
    | NotFound | CustomerMissing | KeyReused | InsufficientCredits | HoldNotActive | HoldExpired
    | RefundExceeds | LimitExceeded | DuplicateRow | ReceiptReused | SigningKeyInactive
    | SequenceMismatch | TaskAlreadyBilled

  datatype Outcome = Committed(txn: Txn) | Replayed(txn: Txn) | Rejected(reason: Reason) | Acknowledged

  /* ---- Lookups ---- */

  function KeyOf(t: Txn): AccountKey { AccountKey(t.customer, t.org) }

  function HoldAccount(h: Hold): AccountKey { AccountKey(h.customer, h.org) }

  function FindByKey(txns: seq<Txn>, k: AccountKey, key: Id): (r: Option<Txn>)
    ensures r.Some? ==> r.value in txns && KeyOf(r.value) == k && r.value.key == key
    ensures r.None? ==> forall t | t in txns :: KeyOf(t) != k || t.key != key
  {
    if |txns| == 0 then None
    else if KeyOf(txns[0]) == k && txns[0].key == key then Some(txns[0])
    else FindByKey(txns[1..], k, key)
  }

  function FindById(txns: seq<Txn>, id: Id): (r: Option<Txn>)
    ensures r.Some? ==> r.value in txns && r.value.id == id
    ensures r.None? ==> forall t | t in txns :: t.id != id
  {
    if |txns| == 0 then None
    else if txns[0].id == id then Some(txns[0])
    else FindById(txns[1..], id)
  }

  function FindHold(holds: seq<Hold>, id: Id): (r: Option<nat>)
    ensures r.Some? ==> r.value < |holds| && holds[r.value].id == id
    ensures r.None? ==> forall h | h in holds :: h.id != id
  {
    if |holds| == 0 then None
    else if holds[0].id == id then Some(0)
    else match FindHold(holds[1..], id)
      case None => None
      case Some(i) => Some(i + 1)
  }

  function FindHoldByKey(holds: seq<Hold>, k: AccountKey, key: Id): (r: Option<nat>)
    ensures r.Some? ==> r.value < |holds| && HoldAccount(holds[r.value]) == k && holds[r.value].key == key
    ensures r.None? ==> forall h | h in holds :: HoldAccount(h) != k || h.key != key
  {
    if |holds| == 0 then None
    else if HoldAccount(holds[0]) == k && holds[0].key == key then Some(0)
    else match FindHoldByKey(holds[1..], k, key)
      case None => None
      case Some(i) => Some(i + 1)
  }

  function FindReceipt(receipts: seq<Receipt>, id: Id): (r: Option<Receipt>)
    ensures r.Some? ==> r.value in receipts && r.value.claim.receiptId == id
    ensures r.None? ==> forall x | x in receipts :: x.claim.receiptId != id
  {
    if |receipts| == 0 then None
    else if receipts[0].claim.receiptId == id then Some(receipts[0])
    else FindReceipt(receipts[1..], id)
  }

  predicate TaskBilled(receipts: seq<Receipt>, deployment: Id, task: Id) {
    exists x | x in receipts :: x.claim.deployment == deployment && x.claim.task == task
  }

  function AccountOf(s: Ledger, k: AccountKey): Account {
    if k in s.accounts then s.accounts[k] else NEW_ACCOUNT
  }

  function LastSequence(s: Ledger, deployment: Id): int {
    if deployment in s.sequences then s.sequences[deployment] else 0
  }

  function ReceiptKey(receiptId: Id): Id { "receipt:" + receiptId }

  function ExpiryKey(holdId: Id): Id { "expiry:" + holdId }

  /* ---- Sums over the transaction table ---- */

  datatype Measure = AvailableDelta | FrozenDelta | Balance | ToppedUp | Consumed | Refunded | Billed | Count

  /** The row filters the store, the statement and the invariants sum under. */
  datatype Scope =
    | InAccount(account: AccountKey)
    | OfCustomer(customer: Id)
    | Before(customer: Id, to: int)
    | During(customer: Id, from: int, to: int)
    | LineOf(customer: Id, from: int, to: int, line: (Id, Id))
    | ChargesDuring(customer: Id, from: int, to: int)
    | ChargesIn(account: AccountKey)
    | RefundsIn(account: AccountKey)
    | RefundsOf(id: Id)
    | WithId(id: Id)
    | FreezesOf(hold: Id)
    | ClosingsOf(hold: Id)

  predicate IsCharge(t: Txn) { t.kind == Consume || t.kind == Capture }

  predicate In(sc: Scope, t: Txn) {
    match sc
    case InAccount(k) => KeyOf(t) == k
    case OfCustomer(c) => t.customer == c
    case Before(c, to) => t.customer == c && t.at < to
    case During(c, from, to) => t.customer == c && from <= t.at < to
    case LineOf(c, from, to, line) =>
      && t.customer == c && from <= t.at < to && (IsCharge(t) || t.kind == Refund)
      && t.org == line.0 && t.moduleName == Some(line.1)
    case ChargesDuring(c, from, to) =>
      t.customer == c && from <= t.at < to && (IsCharge(t) || t.kind == Refund)
    case ChargesIn(k) => KeyOf(t) == k && IsCharge(t)
    case RefundsIn(k) => KeyOf(t) == k && t.kind == Refund
    case RefundsOf(id) => t.kind == Refund && t.related == Some(id)
    case WithId(id) => t.id == id
    case FreezesOf(h) => t.kind == Freeze && t.reference == h
    case ClosingsOf(h) => (t.kind == Capture && t.holdId == Some(h)) || (t.kind == Release && t.reference == h)
  }

  function Value(m: Measure, t: Txn): int {
    match m
    case AvailableDelta => t.availableDelta
    case FrozenDelta => t.frozenDelta
    case Balance => t.availableDelta + t.frozenDelta
    case ToppedUp => if t.kind == TopUp then t.availableDelta else 0
    case Consumed => if IsCharge(t) then t.billed else 0
    case Refunded => if t.kind == Refund then t.billed else 0
    case Billed => t.billed
    case Count => 1
  }

  function Contribution(sc: Scope, m: Measure, t: Txn): int {
    if In(sc, t) then Value(m, t) else 0
  }

  function Total(txns: seq<Txn>, sc: Scope, m: Measure): int {
    if |txns| == 0 then 0
    else Total(txns[..|txns| - 1], sc, m) + Contribution(sc, m, txns[|txns| - 1])
  }

  /* ---- One transaction ---- */

  /** The balances of an account after one more transaction row. */
  function Applied(a: Account, t: Txn): Account {
    Account(a.available + t.availableDelta, a.frozen + t.frozenDelta, a.toppedUp + Value(ToppedUp, t),
            a.consumed + Value(Consumed, t), a.refunded + Value(Refunded, t))
  }

  /** The CHECK constraints on the five balance columns. */
  predicate WithinLimits(a: Account) {
    && 0 <= a.available <= MAX_CREDITS
    && 0 <= a.frozen <= MAX_CREDITS
    && 0 <= a.toppedUp <= MAX_CREDITS
    && 0 <= a.consumed <= MAX_CREDITS
    && 0 <= a.refunded <= MAX_CREDITS
  }

  /** Update the balances, then insert the row: a CHECK aborts first, a UNIQUE index second. */
  function Post(s: Ledger, draft: Txn): (r: Outcome)
    ensures r.Committed? || r.Rejected?
  {
    var k := KeyOf(draft);
    var a := Applied(AccountOf(s, k), draft);
    if !WithinLimits(a) then Rejected(LimitExceeded)
    else if FindById(s.txns, draft.id).Some? || FindByKey(s.txns, k, draft.key).Some? then Rejected(DuplicateRow)
    else Committed(draft.(availableAfter := a.available, frozenAfter := a.frozen))
  }

  function DecideTopUp(s: Ledger, op: Op): Outcome
    requires op.TopUpCredits?
  {
    var k := AccountKey(op.customer, op.org);
    if k !in s.accounts && op.customer !in s.customers then Rejected(CustomerMissing)
    else match FindByKey(s.txns, k, op.key)
      case Some(t) =>
        if t.kind == TopUp && t.availableDelta == op.amount && t.reference == op.reference
        then Replayed(t) else Rejected(KeyReused)
      case None =>
        Post(s, Txn(op.txnId, op.customer, op.org, None, None, TopUp, op.amount, 0, 0, 0, 0,
                    op.key, op.reference, None, None, op.at))
  }

  function DecideHold(s: Ledger, op: Op): Outcome
    requires op.CreateCreditHold?
  {
    var k := AccountKey(op.customer, op.org);
    if k !in s.accounts && op.customer !in s.customers then Rejected(CustomerMissing)
    else match FindHoldByKey(s.holds, k, op.key)
      case Some(i) =>
        var h := s.holds[i];
        if h.deployment == op.deployment && h.moduleName == op.moduleName && h.amount == op.amount
        then match FindByKey(s.txns, k, op.key)
          case Some(t) => Replayed(t)
          case None => Rejected(NotFound)
        else Rejected(KeyReused)
      case None =>
        if AccountOf(s, k).available < op.amount then Rejected(InsufficientCredits)
        else
          var posted := Post(s, Txn(op.txnId, op.customer, op.org, Some(op.deployment), Some(op.moduleName), Freeze,
                                    -(op.amount as int), op.amount, 0, 0, 0, op.key, op.holdId, None, None, op.at));
          if posted.Committed? && FindHold(s.holds, op.holdId).Some? then Rejected(DuplicateRow) else posted
  }

  function DecideCapture(s: Ledger, op: Op): Outcome
    requires op.CaptureCreditHold?
  {
    match FindHold(s.holds, op.holdId)
    case None => Rejected(NotFound)
    case Some(i) =>
      var h := s.holds[i];
      var k := AccountKey(op.customer, h.org);
      if h.customer != op.customer || k !in s.accounts then Rejected(NotFound)
      else match FindByKey(s.txns, k, op.key)
        case Some(t) =>
          if t.kind == Capture && t.reference == op.reference && t.holdId == Some(op.holdId) && t.billed == op.amount
          then Replayed(t) else Rejected(KeyReused)
        case None =>
          if h.status != Active then Rejected(HoldNotActive)
          else if h.expiresAt <= op.at then Rejected(HoldExpired)
          else if AccountOf(s, k).available + (h.amount - op.amount) < 0 then Rejected(InsufficientCredits)
          else Post(s, Txn(op.txnId, op.customer, h.org, Some(h.deployment), Some(h.moduleName), Capture,
                           h.amount - op.amount, -h.amount, op.amount, 0, 0, op.key, op.reference,
                           None, Some(op.holdId), op.at))
  }

  function DecideRelease(s: Ledger, op: Op): Outcome
    requires op.ReleaseCreditHold?
  {
    match FindHold(s.holds, op.holdId)
    case None => Rejected(NotFound)
    case Some(i) =>
      var h := s.holds[i];
      var k := AccountKey(op.customer, h.org);
      if h.customer != op.customer || k !in s.accounts then Rejected(NotFound)
      else match FindByKey(s.txns, k, op.key)
        case Some(t) =>
          if t.kind == Release && t.reference == op.holdId then Replayed(t) else Rejected(KeyReused)
        case None =>
          if h.status != Active then Rejected(HoldNotActive)
          else Post(s, Txn(op.txnId, op.customer, h.org, Some(h.deployment), Some(h.moduleName), Release,
                           h.amount, -h.amount, 0, 0, 0, op.key, op.holdId, None, None, op.at))
  }

  function DecideConsume(s: Ledger, op: Op): Outcome
    requires op.ConsumeCredits?
  {
    var k := AccountKey(op.customer, op.org);
    if k !in s.accounts && op.customer !in s.customers then Rejected(CustomerMissing)
    else match FindByKey(s.txns, k, op.key)
      case Some(t) =>
        if && t.kind == Consume && t.billed == op.amount && t.deployment == Some(op.deployment)
           && t.moduleName == Some(op.moduleName) && t.reference == op.reference
        then Replayed(t) else Rejected(KeyReused)
      case None =>
        if AccountOf(s, k).available < op.amount then Rejected(InsufficientCredits)
        else Post(s, Txn(op.txnId, op.customer, op.org, Some(op.deployment), Some(op.moduleName), Consume,
                         -(op.amount as int), 0, op.amount, 0, 0, op.key, op.reference, None, None, op.at))
  }

  function DecideIngest(s: Ledger, op: Op): Outcome
    requires op.IngestExecutionReceipt?
  {
    var c := op.claim;
    var k := AccountKey(op.customer, c.org);
    if k !in s.accounts && op.customer !in s.customers then Rejected(CustomerMissing)
    else match FindReceipt(s.receipts, c.receiptId)
      case Some(r) =>
        if r.customer != op.customer || r.claim != c then Rejected(ReceiptReused)
        else (match FindById(s.txns, r.txnId)
              case Some(t) => Replayed(t)
              case None => Rejected(NotFound))
      case None =>
        if (c.deployment, c.signingKey) !in s.activeKeys then Rejected(SigningKeyInactive)
        else if c.sequence != LastSequence(s, c.deployment) + 1 then Rejected(SequenceMismatch)
        else if TaskBilled(s.receipts, c.deployment, c.task) then Rejected(TaskAlreadyBilled)
        else if AccountOf(s, k).available < op.amount then Rejected(InsufficientCredits)
        else Post(s, Txn(op.txnId, op.customer, c.org, Some(c.deployment), Some(c.moduleName), Consume,
                         -(op.amount as int), 0, op.amount, 0, 0, ReceiptKey(c.receiptId), c.task, None, None, c.issuedAt))
  }

  function DecideRefund(s: Ledger, op: Op): Outcome
    requires op.RefundCredits?
  {
    match FindById(s.txns, op.relatedId)
    case None => Rejected(NotFound)
    case Some(original) =>
      var k := KeyOf(original);
      if original.customer != op.customer || !IsCharge(original) || k !in s.accounts then Rejected(NotFound)
      else match FindByKey(s.txns, k, op.key)
        case Some(t) =>
          if t.kind == Refund && t.billed == op.amount && t.related == Some(op.relatedId) && t.reference == op.reference
          then Replayed(t) else Rejected(KeyReused)
        case None =>
          if Total(s.txns, RefundsOf(op.relatedId), Billed) + op.amount > original.billed then Rejected(RefundExceeds)
          else Post(s, Txn(op.txnId, op.customer, original.org, original.deployment, original.moduleName, Refund,
                           op.amount, 0, op.amount, 0, 0, op.key, op.reference, Some(op.relatedId), None, op.at))
  }

  function Decide(s: Ledger, op: Op): Outcome {
    match op
    case TopUpCredits(_, _, _, _, _, _, _) => DecideTopUp(s, op)
    case CreateCreditHold(_, _, _, _, _, _, _, _, _, _) => DecideHold(s, op)
    case CaptureCreditHold(_, _, _, _, _, _, _) => DecideCapture(s, op)
    case ReleaseCreditHold(_, _, _, _, _, _) => DecideRelease(s, op)
    case ConsumeCredits(_, _, _, _, _, _, _, _, _) => DecideConsume(s, op)
    case IngestExecutionReceipt(_, _, _, _) => DecideIngest(s, op)
    case RefundCredits(_, _, _, _, _, _, _) => DecideRefund(s, op)
    case AdminChange(_, _) => Acknowledged
  }

  /* ---- What it leaves behind ---- */

  function SetStatus(holds: seq<Hold>, id: Id, status: HoldStatus): seq<Hold> {
    match FindHold(holds, id)
    case None => holds
    case Some(i) => holds[i := holds[i].(status := status)]
  }

  function HoldsAfter(holds: seq<Hold>, op: Op): seq<Hold> {
    match op
    case CreateCreditHold(_, holdId, customer, org, deployment, moduleName, amount, key, expiresAt, _) =>
      holds + [Hold(holdId, customer, org, deployment, moduleName, amount, Active, key, expiresAt)]
    case CaptureCreditHold(_, holdId, _, _, _, _, _) => SetStatus(holds, holdId, Captured)
    case ReleaseCreditHold(_, holdId, _, _, expired, _) =>
      SetStatus(holds, holdId, if expired then Expired else Released)
    case _ => holds
  }

  function Commit(s: Ledger, op: Op, t: Txn): Ledger {
    var k := KeyOf(t);
    var posted := s.(accounts := s.accounts[k := Applied(AccountOf(s, k), t)],
                     holds := HoldsAfter(s.holds, op), txns := s.txns + [t]);
    if op.IngestExecutionReceipt?
    then posted.(receipts := s.receipts + [Receipt(op.customer, op.claim, t.id)],
                 sequences := s.sequences[op.claim.deployment := op.claim.sequence])
    else posted
  }

  /** A replay still commits the insert-if-missing of the account row it started with. */
  function Opened(s: Ledger, k: AccountKey): Ledger {
    s.(accounts := s.accounts[k := AccountOf(s, k)])
  }

  function Step(s: Ledger, op: Op): (Ledger, Outcome) {
    var outcome := Decide(s, op);
    (match outcome
     case Committed(t) => Commit(s, op, t)
     case Replayed(t) => Opened(s, KeyOf(t))
     case Rejected(_) => s
     case Acknowledged => if op.AdminChange? then s.(customers := op.customers, activeKeys := op.activeKeys) else s,
     outcome)
  }

  const EMPTY: Ledger := Ledger({}, {}, map[], [], [], [], map[])

  /** The tables after a whole run of transactions. */
  function Run(s: Ledger, ops: seq<Op>): Ledger {
    if |ops| == 0 then s else Step(Run(s, ops[..|ops| - 1]), ops[|ops| - 1]).0
  }
}
