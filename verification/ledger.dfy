/** The ARC-200 balance map underneath the security token: one box per account
    that has ever been written, read with a default of zero, and the ghost sum
    of all balances against which the total supply is checked. */
module Ledger {
  import opened Base

  type Balances = map<Address, U256>

  /** `_balanceOf(a)`: the stored balance, or zero for an account without a box. */
  function BalanceOf(b: Balances, a: Address): U256 {
    if a in b then b[a] else 0
  }

  ghost function Pick(keys: set<Address>): Address
    requires keys != {}
  {
    var a :| a in keys; a
  }

  /** The sum of the balances held by `keys`. */
  ghost function SumOver(b: Balances, keys: set<Address>): nat
    requires keys <= b.Keys
    decreases keys
  {
    if keys == {} then 0
    else
      var a := Pick(keys);
      b[a] + SumOver(b, keys - {a})
  }

  /** The sum of every balance in the ledger. */
  ghost function Total(b: Balances): nat {
    SumOver(b, b.Keys)
  }

  /** Any key can be taken out of the sum first, whichever one `Pick` chooses. */
  lemma {:induction false} SumOverRemove(b: Balances, keys: set<Address>, a: Address)
    requires keys <= b.Keys
    requires a in keys
    ensures SumOver(b, keys) == b[a] + SumOver(b, keys - {a})
    decreases keys
  {
    var p := Pick(keys);
    if p != a {
      SumOverRemove(b, keys - {p}, a);
      SumOverRemove(b, keys - {a}, p);
      assert keys - {p} - {a} == keys - {a} - {p};
    }
  }

  /** Two ledgers that agree on `keys` have the same sum over `keys`. */
  lemma {:induction false} SumOverAgree(b: Balances, c: Balances, keys: set<Address>)
    requires keys <= b.Keys && keys <= c.Keys
    requires forall a :: a in keys ==> b[a] == c[a]
    ensures SumOver(b, keys) == SumOver(c, keys)
    decreases keys
  {
    if keys != {} {
      var p := Pick(keys);
      SumOverAgree(b, c, keys - {p});
    }
  }

  /** Writing one balance changes the total by exactly the difference. */
  lemma TotalUpdate(b: Balances, a: Address, v: U256)
    ensures Total(b[a := v]) + BalanceOf(b, a) == Total(b) + v
  {
    var b' := b[a := v];
    var rest := b'.Keys - {a};
    SumOverRemove(b', b'.Keys, a);
    SumOverAgree(b', b, rest);
    if a in b {
      SumOverRemove(b, b.Keys, a);
      assert b.Keys - {a} == rest;
    } else {
      assert b.Keys == rest;
    }
  }

  /** No single balance exceeds the total. */
  lemma BalanceAtMostTotal(b: Balances, a: Address)
    ensures BalanceOf(b, a) <= Total(b)
  {
    if a in b {
      SumOverRemove(b, b.Keys, a);
    }
  }

  /** Two distinct balances together do not exceed the total. */
  lemma TwoBalancesAtMostTotal(b: Balances, x: Address, y: Address)
    requires x != y
    ensures BalanceOf(b, x) + BalanceOf(b, y) <= Total(b)
  {
    if x in b {
      SumOverRemove(b, b.Keys, x);
      var rest := b - {x};
      SumOverAgree(b, rest, b.Keys - {x});
      assert rest.Keys == b.Keys - {x};
      BalanceAtMostTotal(rest, y);
      assert BalanceOf(rest, y) == BalanceOf(b, y);
    } else {
      BalanceAtMostTotal(b, y);
    }
  }

  /** A ledger whose total is zero holds nothing anywhere. */
  lemma ZeroTotalMeansEmpty(b: Balances, a: Address)
    requires Total(b) == 0
    ensures BalanceOf(b, a) == 0
  {
    BalanceAtMostTotal(b, a);
  }

  /** Moving `amount` from `from` to `to` leaves the total unchanged. */
  lemma TotalMove(b: Balances, from: Address, to: Address, amount: nat)
    requires from != to
    requires BalanceOf(b, from) >= amount
    requires BalanceOf(b, to) + amount <= MAX_U256
    ensures
      var b1 := b[from := BalanceOf(b, from) - amount];
      Total(b1[to := BalanceOf(b1, to) + amount]) == Total(b)
  {
    var b1 := b[from := BalanceOf(b, from) - amount];
    TotalUpdate(b, from, BalanceOf(b, from) - amount);
    TotalUpdate(b1, to, BalanceOf(b1, to) + amount);
  }
}
