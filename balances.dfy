/**
 * Account-indexed ledgers shared by the KucoCoin token and the Uniswap V2
 * pair: a `map` from account to amount where an absent account holds zero,
 * and the total held by all accounts.
 */
module Balances {

  /** An account address. */
  type Addr = nat

  /** The amount `m` records for `a`; an account never seen holds zero. */
  function Get(m: map<Addr, nat>, a: Addr): nat
  {
    if a in m then m[a] else 0
  }

  /** The sum of all amounts in the ledger. */
  ghost function Sum(m: map<Addr, nat>): nat
    decreases |m|
  {
    if m == map[] then 0
    else
      var a :| a in m;
      m[a] + Sum(m - {a})
  }

  /** Any account can be split off the sum, not only the one `Sum` happens to pick. */
  lemma {:induction false} SumSplit(m: map<Addr, nat>, a: Addr)
    requires a in m
    ensures Sum(m) == m[a] + Sum(m - {a})
    decreases |m|
  {
    var b :| b in m && Sum(m) == m[b] + Sum(m - {b});
    if b != a {
      var both := m - {a} - {b};
      assert m - {b} - {a} == both;
      assert |m - {b}| < |m|;
      assert |m - {a}| < |m|;
      SumSplit(m - {b}, a);
      SumSplit(m - {a}, b);
    }
  }

  /** Setting one account's amount changes the sum by exactly the difference. */
  lemma SumUpdate(m: map<Addr, nat>, a: Addr, v: nat)
    ensures Sum(m[a := v]) + Get(m, a) == Sum(m) + v
  {
    SumSplit(m[a := v], a);
    assert m[a := v] - {a} == m - {a};
    if a in m {
      SumSplit(m, a);
    } else {
      assert m - {a} == m;
    }
  }

  /** The ledger after `amount` moves from `from` to `to` (the caller checks `from` holds it). */
  function Move(m: map<Addr, nat>, from: Addr, to: Addr, amount: nat): (m': map<Addr, nat>)
    requires amount <= Get(m, from)
    ensures Get(m', from) == if from == to then Get(m, from) else Get(m, from) - amount
    ensures Get(m', to) == if from == to then Get(m, to) else Get(m, to) + amount
    ensures forall a :: a != from && a != to ==> Get(m', a) == Get(m, a)
  {
    var debited := m[from := Get(m, from) - amount];
    debited[to := Get(debited, to) + amount]
  }

  /** A move keeps the total. */
  lemma MovePreservesSum(m: map<Addr, nat>, from: Addr, to: Addr, amount: nat)
    requires amount <= Get(m, from)
    ensures Sum(Move(m, from, to, amount)) == Sum(m)
  {
    var debited := m[from := Get(m, from) - amount];
    SumUpdate(m, from, Get(m, from) - amount);
    SumUpdate(debited, to, Get(debited, to) + amount);
  }

  /** The ledger after `amount` is credited to `to`. */
  function Credit(m: map<Addr, nat>, to: Addr, amount: nat): (m': map<Addr, nat>)
    ensures Get(m', to) == Get(m, to) + amount
    ensures forall a :: a != to ==> Get(m', a) == Get(m, a)
  {
    m[to := Get(m, to) + amount]
  }

  /** A credit raises the total by the amount credited. */
  lemma CreditSum(m: map<Addr, nat>, to: Addr, amount: nat)
    ensures Sum(Credit(m, to, amount)) == Sum(m) + amount
  {
    SumUpdate(m, to, Get(m, to) + amount);
  }

  /** The ledger after `amount` is taken from `from` (the caller checks `from` holds it). */
  function Debit(m: map<Addr, nat>, from: Addr, amount: nat): (m': map<Addr, nat>)
    requires amount <= Get(m, from)
    ensures Get(m', from) == Get(m, from) - amount
    ensures forall a :: a != from ==> Get(m', a) == Get(m, a)
  {
    m[from := Get(m, from) - amount]
  }

  /** A debit lowers the total by the amount debited. */
  lemma DebitSum(m: map<Addr, nat>, from: Addr, amount: nat)
    requires amount <= Get(m, from)
    ensures Sum(Debit(m, from, amount)) + amount == Sum(m)
  {
    SumUpdate(m, from, Get(m, from) - amount);
  }

  /** No single account holds more than the total. */
  lemma GetAtMostSum(m: map<Addr, nat>, a: Addr)
    ensures Get(m, a) <= Sum(m)
  {
    if a in m {
      SumSplit(m, a);
    }
  }
}
