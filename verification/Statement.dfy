/** The periodic credit statement: three SQL aggregates over one snapshot of the tables, and how
    their answers fit together and agree with the account balances. */
module Statement {
  import opened Options
  import opened Ledger
  import opened Sums
  import opened LedgerInvariant
  import Doubles

  datatype Line = Line(consumed: int, refunded: int, net: int, count: int)

  datatype CreditStatement = CreditStatement(opening: int, closing: int, toppedUp: int, consumed: int,
                                             refunded: int, lines: map<(Id, Id), Line>)

  function AccountsOf(s: Ledger, customer: Id): set<AccountKey> {
    set k | k in s.accounts && k.customer == customer
  }

  /** The GROUP BY keys: the organization and module of every charge and refund in the period. */
  function LineKeys(txns: seq<Txn>, customer: Id, from: int, to: int): set<(Id, Id)> {
    set t | t in txns && In(ChargesDuring(customer, from, to), t) && t.moduleName.Some? :: (t.org, t.moduleName.value)
  }

  function LineFor(txns: seq<Txn>, customer: Id, from: int, to: int, line: (Id, Id)): Line {
    var consumed := Total(txns, LineOf(customer, from, to, line), Consumed);
    var refunded := Total(txns, LineOf(customer, from, to, line), Refunded);
    Line(consumed, refunded, consumed - refunded, Total(txns, LineOf(customer, from, to, line), Count))
  }

  function StatementOf(s: Ledger, customer: Id, from: int, to: int): Option<CreditStatement> {
    if AccountsOf(s, customer) == {} then None
    else
      var opening := Total(s.txns, Before(customer, from), Balance);
      Some(CreditStatement(
        opening,
        opening + Total(s.txns, During(customer, from, to), Balance),
        Total(s.txns, During(customer, from, to), ToppedUp),
        Total(s.txns, During(customer, from, to), Consumed),
        Total(s.txns, During(customer, from, to), Refunded),
        map line | line in LineKeys(s.txns, customer, from, to) :: LineFor(s.txns, customer, from, to, line)))
  }

  /* ---- Periods ---- */

  /** What happened before a later instant happened before an earlier one or in between. */
  lemma {:induction false} PeriodsAdd(txns: seq<Txn>, customer: Id, from: int, to: int, m: Measure)
    requires from <= to
    ensures Total(txns, Before(customer, to), m)
         == Total(txns, Before(customer, from), m) + Total(txns, During(customer, from, to), m)
  {
    if |txns| > 0 { PeriodsAdd(txns[..|txns| - 1], customer, from, to, m); }
  }

  /** The closing balance of a period is the opening balance of the next. */
  lemma StatementsCompose(s: Ledger, customer: Id, a: int, b: int, c: int)
    requires a <= b && StatementOf(s, customer, a, b).Some?
    ensures StatementOf(s, customer, b, c).Some?
    ensures StatementOf(s, customer, a, b).value.closing == StatementOf(s, customer, b, c).value.opening
  {
    PeriodsAdd(s.txns, customer, a, b, Balance);
  }

  lemma {:induction false} BalanceMoves(txns: seq<Txn>, sc: Scope)
    requires forall t | t in txns :: Shape(t)
    ensures Total(txns, sc, Balance)
         == Total(txns, sc, ToppedUp) - Total(txns, sc, Consumed) + Total(txns, sc, Refunded)
  {
    hide In;
    if |txns| > 0 {
      assert Shape(txns[|txns| - 1]);
      BalanceMoves(txns[..|txns| - 1], sc);
    }
  }

  /** Within a period the balance moves by exactly what the statement reports. */
  lemma StatementBalances(s: Ledger, customer: Id, from: int, to: int)
    requires Inv(s) && StatementOf(s, customer, from, to).Some?
    ensures var st := StatementOf(s, customer, from, to).value;
      st.closing == st.opening + st.toppedUp - st.consumed + st.refunded
  {
    hide Shape, RunningBalances, UniqueRows, RefundsCapped, HoldsMatchHistory, FrozenIsActiveHolds, ReceiptsMatchHistory, Total;
    BalanceMoves(s.txns, During(customer, from, to));
  }

  /* ---- Lines ---- */

  lemma RowsHaveModules(s: Ledger)
    requires Inv(s)
    ensures forall t | t in s.txns && (IsCharge(t) || t.kind == Refund) :: t.moduleName.Some?
  {
    hide RunningBalances, UniqueRows, RefundsCapped, HoldsMatchHistory, FrozenIsActiveHolds, ReceiptsMatchHistory, Summary;
    forall t | t in s.txns && (IsCharge(t) || t.kind == Refund) ensures t.moduleName.Some? { assert Shape(t); }
  }

  lemma LineSplits(txns: seq<Txn>, customer: Id, from: int, to: int, t: Txn, m: Measure, part: ((Id, Id)) -> Scope)
    requires t in txns && (IsCharge(t) || t.kind == Refund ==> t.moduleName.Some?)
    requires forall line :: part(line) == LineOf(customer, from, to, line)
    ensures Splits(t, ChargesDuring(customer, from, to), m, LineKeys(txns, customer, from, to), part)
  {
    if In(ChargesDuring(customer, from, to), t) {
      var line := (t.org, t.moduleName.value);
      assert line in LineKeys(txns, customer, from, to) && In(part(line), t);
      forall j: (Id, Id) | In(part(j), t) ensures j == line { assert j == (j.0, j.1); }
    }
  }

  lemma LinesAddUp(s: Ledger, customer: Id, from: int, to: int, m: Measure, f: ((Id, Id)) -> int)
    requires Inv(s)
    requires forall line | line in LineKeys(s.txns, customer, from, to) ::
               f(line) == Total(s.txns, LineOf(customer, from, to, line), m)
    ensures SumSet(LineKeys(s.txns, customer, from, to), f) == Total(s.txns, ChargesDuring(customer, from, to), m)
  {
    hide Inv, LineKeys;
    var part := (line: (Id, Id)) => LineOf(customer, from, to, line);
    RowsHaveModules(s);
    forall t | t in s.txns { LineSplits(s.txns, customer, from, to, t, m, part); }
    Partition(s.txns, ChargesDuring(customer, from, to), m, LineKeys(s.txns, customer, from, to), part, f);
  }

  /** The net credits of the lines are the period's consumption less its refunds. */
  lemma LinesMatchTotals(s: Ledger, customer: Id, from: int, to: int, net: ((Id, Id)) -> int)
    requires Inv(s) && StatementOf(s, customer, from, to).Some?
    requires forall line | line in StatementOf(s, customer, from, to).value.lines ::
               net(line) == StatementOf(s, customer, from, to).value.lines[line].net
    ensures var st := StatementOf(s, customer, from, to).value;
      SumSet(st.lines.Keys, net) == st.consumed - st.refunded
  {
    hide Inv, Total, LineKeys;
    var st := StatementOf(s, customer, from, to).value;
    var consumed := (line: (Id, Id)) => Total(s.txns, LineOf(customer, from, to, line), Consumed);
    var refunded := (line: (Id, Id)) => Total(s.txns, LineOf(customer, from, to, line), Refunded);
    LinesAddUp(s, customer, from, to, Consumed, consumed);
    LinesAddUp(s, customer, from, to, Refunded, refunded);
    TotalSame(s.txns, ChargesDuring(customer, from, to), Consumed, During(customer, from, to), Consumed);
    TotalSame(s.txns, ChargesDuring(customer, from, to), Refunded, During(customer, from, to), Refunded);
    assert st.lines.Keys == LineKeys(s.txns, customer, from, to);
    SumSetMinus(st.lines.Keys, consumed, refunded, net);
  }

  /* ---- Against the accounts ---- */

  lemma AccountSplits(s: Ledger, customer: Id, t: Txn, part: AccountKey -> Scope)
    requires Inv(s) && t in s.txns
    requires forall k :: part(k) == InAccount(k)
    ensures Splits(t, OfCustomer(customer), Balance, AccountsOf(s, customer), part)
  {
    hide Shape, Summary, RunningBalances, UniqueRows, RefundsCapped, HoldsMatchHistory, FrozenIsActiveHolds, ReceiptsMatchHistory;
    if t.customer == customer { assert KeyOf(t) in AccountsOf(s, customer) && In(part(KeyOf(t)), t); }
  }

  lemma {:induction false} BalanceOfDeltas(txns: seq<Txn>, sc: Scope)
    ensures Total(txns, sc, Balance) == Total(txns, sc, AvailableDelta) + Total(txns, sc, FrozenDelta)
  {
    if |txns| > 0 { BalanceOfDeltas(txns[..|txns| - 1], sc); }
  }

  lemma CustomerTotal(s: Ledger, customer: Id, held: AccountKey -> int)
    requires Inv(s)
    requires forall k | k in AccountsOf(s, customer) :: held(k) == s.accounts[k].available + s.accounts[k].frozen
    ensures SumSet(AccountsOf(s, customer), held) == Total(s.txns, OfCustomer(customer), Balance)
  {
    hide Inv, Total;
    var part := (k: AccountKey) => InAccount(k);
    forall k | k in AccountsOf(s, customer) ensures held(k) == Total(s.txns, part(k), Balance) {
      AccountHolds(s, k);
    }
    forall t | t in s.txns { AccountSplits(s, customer, t, part); }
    Partition(s.txns, OfCustomer(customer), Balance, AccountsOf(s, customer), part, held);
  }

  /** A statement that reaches past the last row closes at what the customer's accounts hold. */
  lemma StatementMatchesAccounts(s: Ledger, customer: Id, from: int, to: int, held: AccountKey -> int)
    requires Inv(s) && StatementOf(s, customer, from, to).Some? && from <= to
    requires forall t | t in s.txns && t.customer == customer :: t.at < to
    requires forall k | k in AccountsOf(s, customer) :: held(k) == s.accounts[k].available + s.accounts[k].frozen
    ensures StatementOf(s, customer, from, to).value.closing == SumSet(AccountsOf(s, customer), held)
    ensures (forall t | t in s.txns && t.customer == customer :: from <= t.at) ==>
      StatementOf(s, customer, from, to).value.opening == 0
  {
    hide Inv, Total, Value, LineKeys, AccountsOf;
    CustomerTotal(s, customer, held);
    TotalSame(s.txns, OfCustomer(customer), Balance, Before(customer, to), Balance);
    PeriodsAdd(s.txns, customer, from, to, Balance);
    if forall t | t in s.txns && t.customer == customer :: from <= t.at {
      TotalZero(s.txns, Before(customer, from), Balance);
    }
  }

  lemma AccountHolds(s: Ledger, k: AccountKey)
    requires Inv(s) && k in s.accounts
    ensures s.accounts[k].available + s.accounts[k].frozen == Total(s.txns, InAccount(k), Balance)
  {
    hide Shape, Total, RunningBalances, UniqueRows, RefundsCapped, HoldsMatchHistory, FrozenIsActiveHolds, ReceiptsMatchHistory;
    BalanceOfDeltas(s.txns, InAccount(k));
    assert AccountOf(s, k) == Summary(s.txns, k);
  }

  /* ---- The figures as numbers ---- */

  lemma {:induction false} SubtotalWithin(txns: seq<Txn>, part: Scope, whole: Scope, m: Measure)
    requires forall t | t in txns :: (In(part, t) ==> In(whole, t)) && Value(m, t) >= 0
    ensures 0 <= Total(txns, part, m) <= Total(txns, whole, m)
  {
    hide In, Value;
    if |txns| > 0 {
      assert txns[|txns| - 1] in txns;
      SubtotalWithin(txns[..|txns| - 1], part, whole, m);
    }
  }

  /** The customer's own totals, which bound every figure of every statement. */
  predicate FitsDoubles(s: Ledger, customer: Id) {
    && Total(s.txns, OfCustomer(customer), ToppedUp) + Total(s.txns, OfCustomer(customer), Refunded) <= Doubles.TWO53
    && Total(s.txns, OfCustomer(customer), Consumed) <= Doubles.TWO53
  }

  lemma PartFits(s: Ledger, customer: Id, part: Scope)
    requires Inv(s) && FitsDoubles(s, customer)
    requires forall t | In(part, t) :: t.customer == customer
    ensures -Doubles.TWO53 <= Total(s.txns, part, Balance) <= Doubles.TWO53
    ensures 0 <= Total(s.txns, part, ToppedUp) <= Doubles.TWO53
    ensures 0 <= Total(s.txns, part, Consumed) <= Doubles.TWO53
    ensures 0 <= Total(s.txns, part, Refunded) <= Doubles.TWO53
  {
    hide RunningBalances, UniqueRows, RefundsCapped, HoldsMatchHistory, FrozenIsActiveHolds, ReceiptsMatchHistory, Total;
    forall t | t in s.txns ensures Value(ToppedUp, t) >= 0 && Value(Consumed, t) >= 0 && Value(Refunded, t) >= 0 { assert Shape(t); }
    forall t | In(part, t) ensures In(OfCustomer(customer), t) {}
    BalanceMoves(s.txns, part);
    hide Inv, Shape, In;
    SubtotalWithin(s.txns, part, OfCustomer(customer), ToppedUp);
    SubtotalWithin(s.txns, part, OfCustomer(customer), Consumed);
    SubtotalWithin(s.txns, part, OfCustomer(customer), Refunded);
  }

  /** `Number` of a column, and sums and differences of such numbers, are the exact figures as long as
      the customer's totals fit: no statement over them rounds. */
  lemma StatementExact(s: Ledger, customer: Id, from: int, to: int)
    requires Inv(s) && FitsDoubles(s, customer) && from <= to && StatementOf(s, customer, from, to).Some?
    ensures var (st, delta) := (StatementOf(s, customer, from, to).value, Total(s.txns, During(customer, from, to), Balance));
      && Doubles.Round(st.opening as real) == st.opening as real && Doubles.Round(delta as real) == delta as real
      && Doubles.Round(st.opening as real + delta as real) == st.closing as real
      && Doubles.Round(st.toppedUp as real) == st.toppedUp as real
      && Doubles.Round(st.consumed as real) == st.consumed as real
      && Doubles.Round(st.refunded as real) == st.refunded as real
    ensures forall line | line in StatementOf(s, customer, from, to).value.lines ::
      var l := StatementOf(s, customer, from, to).value.lines[line];
      && Doubles.Round(l.consumed as real) == l.consumed as real && Doubles.Round(l.refunded as real) == l.refunded as real
      && Doubles.Round(l.consumed as real - l.refunded as real) == l.net as real
  {
    hide Inv, Total, Doubles.Round, LineKeys, FitsDoubles;
    var st := StatementOf(s, customer, from, to).value;
    PartFits(s, customer, Before(customer, from));
    PartFits(s, customer, Before(customer, to));
    PartFits(s, customer, During(customer, from, to));
    PeriodsAdd(s.txns, customer, from, to, Balance);
    Doubles.RoundInteger(st.opening);
    Doubles.RoundInteger(st.closing - st.opening);
    Doubles.RoundInteger(st.closing);
    Doubles.RoundInteger(st.toppedUp);
    Doubles.RoundInteger(st.consumed);
    Doubles.RoundInteger(st.refunded);
    forall line | line in st.lines
      ensures Doubles.Round(st.lines[line].consumed as real) == st.lines[line].consumed as real
      ensures Doubles.Round(st.lines[line].refunded as real) == st.lines[line].refunded as real
      ensures Doubles.Round(st.lines[line].consumed as real - st.lines[line].refunded as real) == st.lines[line].net as real
    {
      PartFits(s, customer, LineOf(customer, from, to, line));
      Doubles.RoundInteger(st.lines[line].consumed);
      Doubles.RoundInteger(st.lines[line].refunded);
      Doubles.RoundInteger(st.lines[line].net);
    }
  }
}
