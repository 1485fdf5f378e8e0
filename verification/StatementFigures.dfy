/** A statement's figures as plain sums over the rows, with each row's part written out. */
module StatementFigures {
  import opened Options
  import opened Ledger
  import opened Statement

  function SumOf(txns: seq<Txn>, part: Txn -> int): int {
    if |txns| == 0 then 0 else SumOf(txns[..|txns| - 1], part) + part(txns[|txns| - 1])
  }

  lemma {:induction false} TotalIsSum(txns: seq<Txn>, sc: Scope, m: Measure, part: Txn -> int)
    requires forall t :: Contribution(sc, m, t) == part(t)
    ensures Total(txns, sc, m) == SumOf(txns, part)
  {
    hide Contribution;
    if |txns| > 0 { TotalIsSum(txns[..|txns| - 1], sc, m, part); }
  }

  predicate Dated(t: Txn, customer: Id, from: int, to: int) { t.customer == customer && from <= t.at && t.at < to }

  predicate IsLine(t: Txn, org: Id, moduleName: Id) { t.org == org && t.moduleName == Some(moduleName) }

  function Credited(customer: Id, before: int): Txn -> int {
    (t: Txn) => if t.customer == customer && t.at < before then t.availableDelta + t.frozenDelta else 0
  }

  function ToppedUpIn(customer: Id, from: int, to: int): Txn -> int {
    (t: Txn) => if Dated(t, customer, from, to) && t.kind == TopUp then t.availableDelta else 0
  }

  function ConsumedIn(customer: Id, from: int, to: int): Txn -> int {
    (t: Txn) => if Dated(t, customer, from, to) && (t.kind == Consume || t.kind == Capture) then t.billed else 0
  }

  function RefundedIn(customer: Id, from: int, to: int): Txn -> int {
    (t: Txn) => if Dated(t, customer, from, to) && t.kind == Refund then t.billed else 0
  }

  function LineConsumed(customer: Id, from: int, to: int, org: Id, moduleName: Id): Txn -> int {
    (t: Txn) => if Dated(t, customer, from, to) && IsLine(t, org, moduleName) && (t.kind == Consume || t.kind == Capture) then t.billed else 0
  }

  function LineRefunded(customer: Id, from: int, to: int, org: Id, moduleName: Id): Txn -> int {
    (t: Txn) => if Dated(t, customer, from, to) && IsLine(t, org, moduleName) && t.kind == Refund then t.billed else 0
  }

  function LineCount(customer: Id, from: int, to: int, org: Id, moduleName: Id): Txn -> int {
    (t: Txn) => if Dated(t, customer, from, to) && IsLine(t, org, moduleName) && (t.kind == Consume || t.kind == Capture || t.kind == Refund) then 1 else 0
  }

  /** There is a statement exactly for a customer with an account, and each figure of it is its sum. */
  lemma FiguresAreSums(s: Ledger, customer: Id, from: int, to: int)
    requires from <= to
    ensures StatementOf(s, customer, from, to).Some? <==> exists k :: k in s.accounts && k.customer == customer
    ensures StatementOf(s, customer, from, to).Some? ==>
      var st := StatementOf(s, customer, from, to).value;
      && st.opening == SumOf(s.txns, Credited(customer, from)) && st.closing == SumOf(s.txns, Credited(customer, to))
      && st.toppedUp == SumOf(s.txns, ToppedUpIn(customer, from, to))
      && st.consumed == SumOf(s.txns, ConsumedIn(customer, from, to))
      && st.refunded == SumOf(s.txns, RefundedIn(customer, from, to))
  {
    HasAccount(s, customer);
    PeriodsAdd(s.txns, customer, from, to, Balance);
    TotalIsSum(s.txns, Before(customer, from), Balance, Credited(customer, from));
    TotalIsSum(s.txns, Before(customer, to), Balance, Credited(customer, to));
    TotalIsSum(s.txns, During(customer, from, to), ToppedUp, ToppedUpIn(customer, from, to));
    TotalIsSum(s.txns, During(customer, from, to), Consumed, ConsumedIn(customer, from, to));
    TotalIsSum(s.txns, During(customer, from, to), Refunded, RefundedIn(customer, from, to));
    hide Total, SumOf, AccountsOf, LineKeys;
  }

  lemma HasAccount(s: Ledger, customer: Id)
    ensures AccountsOf(s, customer) != {} <==> exists k :: k in s.accounts && k.customer == customer
  {
    if k :| k in s.accounts && k.customer == customer { assert k in AccountsOf(s, customer); }
    if AccountsOf(s, customer) != {} { var k :| k in AccountsOf(s, customer); }
  }

  /** There is a line exactly for each organization and module with a charge or refund in the period,
      and it carries their sums, the difference, and how many there are. */
  lemma LinesAreSums(s: Ledger, customer: Id, from: int, to: int, org: Id, moduleName: Id)
    requires StatementOf(s, customer, from, to).Some?
    ensures var lines := StatementOf(s, customer, from, to).value.lines;
      && ((org, moduleName) in lines <==>
            exists t | t in s.txns :: Dated(t, customer, from, to) && IsLine(t, org, moduleName) && (t.kind == Consume || t.kind == Capture || t.kind == Refund))
      && ((org, moduleName) in lines ==>
            var line := lines[(org, moduleName)];
            && line.consumed == SumOf(s.txns, LineConsumed(customer, from, to, org, moduleName))
            && line.refunded == SumOf(s.txns, LineRefunded(customer, from, to, org, moduleName))
            && line.net == line.consumed - line.refunded
            && line.count == SumOf(s.txns, LineCount(customer, from, to, org, moduleName)))
  {
    var line := (org, moduleName);
    TotalIsSum(s.txns, LineOf(customer, from, to, line), Consumed, LineConsumed(customer, from, to, org, moduleName));
    TotalIsSum(s.txns, LineOf(customer, from, to, line), Refunded, LineRefunded(customer, from, to, org, moduleName));
    TotalIsSum(s.txns, LineOf(customer, from, to, line), Count, LineCount(customer, from, to, org, moduleName));
    LineThere(s.txns, customer, from, to, org, moduleName);
    hide Total, SumOf, AccountsOf, LineKeys, Dated, IsLine;
  }

  lemma LineThere(txns: seq<Txn>, customer: Id, from: int, to: int, org: Id, moduleName: Id)
    ensures (org, moduleName) in LineKeys(txns, customer, from, to) <==>
      exists t | t in txns :: Dated(t, customer, from, to) && IsLine(t, org, moduleName) && (t.kind == Consume || t.kind == Capture || t.kind == Refund)
  {
  }
}
