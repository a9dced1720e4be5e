/** Weighted sums over the accounts of a ledger. */
module Sums {
  import opened BridgeTypes

  function Sum(accounts: seq<Account>, weight: Account -> int): int {
    if accounts == [] then 0 else weight(accounts[0]) + Sum(accounts[1..], weight)
  }

  lemma {:induction false} SumAppend(accounts: seq<Account>, a: Account, weight: Account -> int)
    ensures Sum(accounts + [a], weight) == Sum(accounts, weight) + weight(a)
  {
    if accounts == [] {
      assert [] + [a] == [a];
    } else {
      assert (accounts + [a])[1..] == accounts[1..] + [a];
      SumAppend(accounts[1..], a, weight);
    }
  }

  lemma {:induction false} SumSame(xs: seq<Account>, ys: seq<Account>, v: Account -> int, w: Account -> int)
    requires |xs| == |ys| && forall i :: 0 <= i < |xs| ==> v(xs[i]) == w(ys[i])
    ensures Sum(xs, v) == Sum(ys, w)
  {
    if xs != [] {
      forall i | 0 <= i < |xs[1..]| ensures v(xs[1..][i]) == w(ys[1..][i]) {
        assert xs[1..][i] == xs[i + 1] && ys[1..][i] == ys[i + 1];
      }
      SumSame(xs[1..], ys[1..], v, w);
    }
  }

  /** Two sums whose terms differ at one place differ by that term. */
  lemma {:induction false} SumPatch(xs: seq<Account>, ys: seq<Account>, v: Account -> int, w: Account -> int, k: nat)
    requires |xs| == |ys| && k < |xs|
    requires forall i :: 0 <= i < |xs| && i != k ==> v(xs[i]) == w(ys[i])
    ensures Sum(ys, w) == Sum(xs, v) - v(xs[k]) + w(ys[k])
  {
    forall i | 0 <= i < |xs| - 1 ensures xs[1..][i] == xs[i + 1] && ys[1..][i] == ys[i + 1] {}
    if k == 0 {
      forall i | 0 <= i < |xs[1..]| ensures v(xs[1..][i]) == w(ys[1..][i]) {
        assert xs[1..][i] == xs[i + 1] && ys[1..][i] == ys[i + 1];
      }
      SumSame(xs[1..], ys[1..], v, w);
    } else {
      SumPatch(xs[1..], ys[1..], v, w, k - 1);
    }
  }

  lemma {:induction false} SumMonotone(accounts: seq<Account>, v: Account -> int, w: Account -> int)
    requires forall a :: a in accounts ==> v(a) <= w(a)
    ensures Sum(accounts, v) <= Sum(accounts, w)
  {
    if accounts != [] {
      SumMonotone(accounts[1..], v, w);
    }
  }
}
