/** Sums over finite sets, and the sums-of-sums law for the transaction table: when every row that
    a whole filter admits falls under exactly one key, adding up the per-key totals gives the whole
    total. */
module Sums {
  import opened Ledger

  ghost function SumSet<K(!new)>(ks: set<K>, f: K -> int): int {
    if ks == {} then 0 else
      var k :| k in ks;
      f(k) + SumSet(ks - {k}, f)
  }

  /** The arbitrary pick in `SumSet` does not matter. */
  lemma {:induction false} SumSetPick<K(!new)>(ks: set<K>, k: K, f: K -> int)
    requires k in ks
    ensures SumSet(ks, f) == f(k) + SumSet(ks - {k}, f)
    decreases |ks|
  {
    var p :| p in ks && SumSet(ks, f) == f(p) + SumSet(ks - {p}, f);
    if p != k {
      SumSetPick(ks - {p}, k, f);
      SumSetPick(ks - {k}, p, f);
      assert ks - {p} - {k} == ks - {k} - {p};
    }
  }

  lemma {:induction false} SumSetLe<K(!new)>(ks: set<K>, f: K -> int, g: K -> int)
    requires forall k | k in ks :: f(k) <= g(k)
    ensures SumSet(ks, f) <= SumSet(ks, g)
    decreases |ks|
  {
    if ks != {} {
      var k :| k in ks;
      SumSetPick(ks, k, f);
      SumSetPick(ks, k, g);
      SumSetLe(ks - {k}, f, g);
    }
  }

  lemma SumSetSame<K(!new)>(ks: set<K>, f: K -> int, g: K -> int)
    requires forall k | k in ks :: f(k) == g(k)
    ensures SumSet(ks, f) == SumSet(ks, g)
  {
    SumSetLe(ks, f, g);
    SumSetLe(ks, g, f);
  }

  /** Changing the summand at one key changes the sum by as much. */
  lemma SumSetShift<K(!new)>(ks: set<K>, f: K -> int, g: K -> int, k0: K, v: int)
    requires k0 in ks && g(k0) == f(k0) + v
    requires forall k | k in ks && k != k0 :: g(k) == f(k)
    ensures SumSet(ks, g) == SumSet(ks, f) + v
  {
    SumSetPick(ks, k0, f);
    SumSetPick(ks, k0, g);
    SumSetSame(ks - {k0}, f, g);
  }

  lemma {:induction false} SumSetZero<K(!new)>(ks: set<K>, f: K -> int)
    requires forall k | k in ks :: f(k) == 0
    ensures SumSet(ks, f) == 0
    decreases |ks|
  {
    if ks != {} {
      var k :| k in ks;
      SumSetPick(ks, k, f);
      SumSetZero(ks - {k}, f);
    }
  }

  lemma {:induction false} SumSetMinus<K(!new)>(ks: set<K>, f: K -> int, g: K -> int, h: K -> int)
    requires forall k | k in ks :: h(k) == f(k) - g(k)
    ensures SumSet(ks, h) == SumSet(ks, f) - SumSet(ks, g)
    decreases |ks|
  {
    if ks != {} {
      var k :| k in ks;
      SumSetPick(ks, k, f);
      SumSetPick(ks, k, g);
      SumSetPick(ks, k, h);
      SumSetMinus(ks - {k}, f, g, h);
    }
  }

  /* ---- Totals ---- */

  lemma TotalAppend(txns: seq<Txn>, t: Txn, sc: Scope, m: Measure)
    ensures Total(txns + [t], sc, m) == Total(txns, sc, m) + Contribution(sc, m, t)
  {
    assert (txns + [t])[..|txns|] == txns;
  }

  lemma {:induction false} TotalZero(txns: seq<Txn>, sc: Scope, m: Measure)
    requires forall t | t in txns :: !In(sc, t)
    ensures Total(txns, sc, m) == 0
  {
    if |txns| > 0 { TotalZero(txns[..|txns| - 1], sc, m); }
  }

  /** A total is determined by the contributions, so a finer filter may be swapped for an equal one. */
  lemma {:induction false} TotalSame(txns: seq<Txn>, sc: Scope, m: Measure, sc': Scope, m': Measure)
    requires forall t | t in txns :: Contribution(sc, m, t) == Contribution(sc', m', t)
    ensures Total(txns, sc, m) == Total(txns, sc', m')
  {
    if |txns| > 0 { TotalSame(txns[..|txns| - 1], sc, m, sc', m'); }
  }

  /** `t` counts under the whole filter exactly as it counts under the one key `key(t)`. */
  ghost predicate Splits<K(!new)>(t: Txn, whole: Scope, m: Measure, ks: set<K>, part: K -> Scope) {
    if In(whole, t)
    then exists k :: k in ks && In(part(k), t) && forall j | j in ks && j != k :: !In(part(j), t)
    else forall j | j in ks :: !In(part(j), t) || Value(m, t) == 0
  }

  lemma PartitionStep<K(!new)>(t: Txn, whole: Scope, m: Measure, ks: set<K>, part: K -> Scope,
                               g: K -> int, f: K -> int)
    requires Splits(t, whole, m, ks, part)
    requires forall k | k in ks :: f(k) == g(k) + Contribution(part(k), m, t)
    ensures SumSet(ks, f) == SumSet(ks, g) + Contribution(whole, m, t)
  {
    if In(whole, t) {
      var k :| k in ks && In(part(k), t) && forall j | j in ks && j != k :: !In(part(j), t);
      SumSetShift(ks, g, f, k, Value(m, t));
    } else {
      SumSetSame(ks, f, g);
    }
  }

  /** The sums-of-sums law. */
  lemma {:induction false} Partition<K(!new)>(txns: seq<Txn>, whole: Scope, m: Measure, ks: set<K>,
                                              part: K -> Scope, f: K -> int)
    requires forall t | t in txns :: Splits(t, whole, m, ks, part)
    requires forall k | k in ks :: f(k) == Total(txns, part(k), m)
    ensures SumSet(ks, f) == Total(txns, whole, m)
  {
    if |txns| == 0 {
      SumSetZero(ks, f);
    } else {
      var front, t := txns[..|txns| - 1], txns[|txns| - 1];
      var g := k => Total(front, part(k), m);
      Partition(front, whole, m, ks, part, g);
      PartitionStep(t, whole, m, ks, part, g, f);
    }
  }
}
