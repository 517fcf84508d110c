/**
 The total of all balances and stakes, kept up to date from the accounts a block touches.
 */
module CoinTotals {
  import opened Common

  datatype Account = Account(balance: int, stake: int)

  type Accounts = map<Address, Account>

  function Get(m: Accounts, a: Address): Account {
    if a in m then m[a] else Account(0, 0)
  }

  datatype Totals = Totals(balance: int, stake: int)

  // An amount by address: the balances, or the stakes, of all accounts.
  type Amounts = Address -> int

  function Balances(m: Accounts): Amounts {
    (a: Address) => Get(m, a).balance
  }

  function Stakes(m: Accounts): Amounts {
    (a: Address) => Get(m, a).stake
  }

  ghost function SumOver(f: Amounts, s: set<Address>): int {
    if s == {} then 0
    else
      var a :| a in s;
      f(a) + SumOver(f, s - {a})
  }

  // All coins there are.
  ghost function Sum(m: Accounts): Totals {
    Totals(SumOver(Balances(m), m.Keys), SumOver(Stakes(m), m.Keys))
  }

  lemma {:induction false} SumWithout(f: Amounts, s: set<Address>, a: Address)
    requires a in s
    ensures SumOver(f, s) == f(a) + SumOver(f, s - {a})
  {
    var b :| b in s && SumOver(f, s) == f(b) + SumOver(f, s - {b});
    if b != a {
      SumWithout(f, s - {b}, a);
      SumWithout(f, s - {a}, b);
      assert s - {b} - {a} == s - {a} - {b};
    }
  }

  // Addresses with nothing add nothing.
  lemma {:induction false} SumOfMore(f: Amounts, s: set<Address>, t: set<Address>)
    requires s <= t && forall a | a in t && a !in s :: f(a) == 0
    ensures SumOver(f, t) == SumOver(f, s)
  {
    if s != t {
      var a :| a in t && a !in s;
      SumWithout(f, t, a);
      SumOfMore(f, s, t - {a});
    }
  }

  // Two amounts differ in their sums by what they differ in on s, if they agree elsewhere in t.
  lemma {:induction false} SumsDiffer(f: Amounts, g: Amounts, s: set<Address>, t: set<Address>)
    requires s <= t && forall a | a in t && a !in s :: f(a) == g(a)
    ensures SumOver(g, t) - SumOver(f, t) == SumOver(g, s) - SumOver(f, s)
  {
    if s != t {
      var a :| a in t && a !in s;
      SumWithout(f, t, a);
      SumWithout(g, t, a);
      SumsDiffer(f, g, s, t - {a});
    }
  }

  // Every account that changed is among the touched ones.
  ghost predicate Touches(touched: set<Address>, prev: Accounts, next: Accounts) {
    forall a :: a !in touched ==> Get(prev, a) == Get(next, a)
  }

  // The change over the touched accounts.
  ghost function Change(touched: set<Address>, prev: Accounts, next: Accounts): Totals {
    Totals(SumOver(Balances(next), touched) - SumOver(Balances(prev), touched),
           SumOver(Stakes(next), touched) - SumOver(Stakes(prev), touched))
  }

  // It is the change of everything.
  lemma ChangeIsAll(touched: set<Address>, prev: Accounts, next: Accounts)
    requires Touches(touched, prev, next)
    ensures Sum(next).balance == Sum(prev).balance + Change(touched, prev, next).balance
    ensures Sum(next).stake == Sum(prev).stake + Change(touched, prev, next).stake
  {
    var all := touched + prev.Keys + next.Keys;
    SumOfMore(Balances(prev), prev.Keys, all);
    SumOfMore(Balances(next), next.Keys, all);
    SumsDiffer(Balances(prev), Balances(next), touched, all);
    SumOfMore(Stakes(prev), prev.Keys, all);
    SumOfMore(Stakes(next), next.Keys, all);
    SumsDiffer(Stakes(prev), Stakes(next), touched, all);
  }

  datatype Balance = Balance(address: Address, balance: int, stake: int)

  // The new balances of the touched accounts, and what changed in total.  In the first block every account is touched.
  method DetermineBalanceUpdates(isFirst: bool, touched: set<Address>, prev: Accounts, next: Accounts)
      returns (res: seq<Balance>, diff: Totals)
    ensures diff == Change(if isFirst then touched + prev.Keys else touched, prev, next)
    ensures Addresses(res) == if isFirst then touched + prev.Keys else touched
    ensures forall b | b in res :: b.balance == Get(next, b.address).balance && b.stake == Get(next, b.address).stake
    ensures forall i, j | 0 <= i < j < |res| :: res[i].address != res[j].address
  {
    var all := if isFirst then touched + prev.Keys else touched;
    var rest := all;
    res, diff := [], Totals(0, 0);
    while rest != {}
      invariant rest <= all
      invariant diff.balance + Change(rest, prev, next).balance == Change(all, prev, next).balance
      invariant diff.stake + Change(rest, prev, next).stake == Change(all, prev, next).stake
      invariant Addresses(res) == all - rest
      invariant forall b | b in res :: b.balance == Get(next, b.address).balance && b.stake == Get(next, b.address).stake
      invariant forall i, j | 0 <= i < j < |res| :: res[i].address != res[j].address
      decreases rest
    {
      var a :| a in rest;
      var before, after := Get(prev, a), Get(next, a);
      SumWithout(Balances(next), rest, a);
      SumWithout(Balances(prev), rest, a);
      SumWithout(Stakes(next), rest, a);
      SumWithout(Stakes(prev), rest, a);
      AddressesAppend(res, Balance(a, after.balance, after.stake));
      assert forall b | b in res :: b.address in Addresses(res);
      res := res + [Balance(a, after.balance, after.stake)];
      diff := Totals(diff.balance + after.balance - before.balance, diff.stake + after.stake - before.stake);
      rest := rest - {a};
    }
  }

  function Addresses(bs: seq<Balance>): set<Address> {
    set b | b in bs :: b.address
  }

  lemma AddressesAppend(bs: seq<Balance>, b: Balance)
    ensures Addresses(bs + [b]) == Addresses(bs) + {b.address}
  {
    assert forall c | c in bs + [b] :: c in bs || c == b;
    assert b in bs + [b] && forall c | c in bs :: c in bs + [b];
  }

  // The full scan.
  method ScanAccounts(m: Accounts) returns (t: Totals)
    ensures t == Sum(m)
  {
    t := Totals(0, 0);
    var rest := m.Keys;
    while rest != {}
      invariant rest <= m.Keys
      invariant t.balance + SumOver(Balances(m), rest) == SumOver(Balances(m), m.Keys)
      invariant t.stake + SumOver(Stakes(m), rest) == SumOver(Stakes(m), m.Keys)
      decreases rest
    {
      var a :| a in rest;
      SumWithout(Balances(m), rest, a);
      SumWithout(Stakes(m), rest, a);
      t := Totals(t.balance + m[a].balance, t.stake + m[a].stake);
      rest := rest - {a};
    }
  }
}
