/** The escrow ledger: storing, debiting, and choosing the account that pays a release. */
module Ledger {
  import opened BridgeTypes
  import opened Sums
  import Uuid

  // ---------------------------------------------------------------- storing and debiting

  function Store(accounts: seq<Account>, bs: Account): seq<Account> {
    if exists i :: 0 <= i < |accounts| && accounts[i].id == bs.id
    then seq(|accounts|, i requires 0 <= i < |accounts| => if accounts[i].id == bs.id then bs else accounts[i])
    else accounts + [bs]
  }

  /** Every account whose ID contains the given text pays. */
  function Debit(accounts: seq<Account>, id: string, amount: int): seq<Account> {
    seq(|accounts|, i requires 0 <= i < |accounts| =>
      if Uuid.Contains(accounts[i].id, id) then accounts[i].(amount := accounts[i].amount - amount) else accounts[i])
  }

  /** What a debit is for: exactly the account with that ID pays. */
  function DebitExactly(accounts: seq<Account>, id: string, amount: int): seq<Account> {
    seq(|accounts|, i requires 0 <= i < |accounts| =>
      if accounts[i].id == id then accounts[i].(amount := accounts[i].amount - amount) else accounts[i])
  }

  ghost predicate DistinctIds(accounts: seq<Account>) {
    forall i, j :: 0 <= i < j < |accounts| ==> accounts[i].id != accounts[j].id
  }

  /** All IDs have one length, as UUID strings do. */
  ghost predicate LengthIds(accounts: seq<Account>, length: nat) {
    forall i :: 0 <= i < |accounts| ==> |accounts[i].id| == length
  }

  /** Exactly when a debit spares every other account: it is nothing, or no other stored ID contains this one. */
  lemma DebitExactlyWhen(accounts: seq<Account>, id: string, amount: int)
    ensures Debit(accounts, id, amount) == DebitExactly(accounts, id, amount) <==>
            amount == 0 || forall a :: a in accounts && Uuid.Contains(a.id, id) ==> a.id == id
  {
    var d, e := Debit(accounts, id, amount), DebitExactly(accounts, id, amount);
    Uuid.ContainsIsEquality(id, id);
    if a :| a in accounts && Uuid.Contains(a.id, id) && a.id != id {
      var i :| 0 <= i < |accounts| && accounts[i] == a;
      assert d[i].amount == a.amount - amount && e[i] == a;
      if amount == 0 { assert d == e; }
    } else {
      assert d == e;
    }
  }

  /** On any list: who pays is every account with the text anywhere in its ID, and nothing else of it changes. */
  lemma DebitReaches(accounts: seq<Account>, id: string, amount: int)
    ensures var out := Debit(accounts, id, amount);
      && |out| == |accounts|
      && forall i :: 0 <= i < |accounts| ==>
           out[i] == if exists before, after :: accounts[i].id == before + id + after
                     then accounts[i].(amount := accounts[i].amount - amount) else accounts[i]
  {
    forall i | 0 <= i < |accounts|
      ensures Uuid.Contains(accounts[i].id, id) <==> exists before, after :: accounts[i].id == before + id + after
    {
      Uuid.ContainsExactly(accounts[i].id, id);
    }
  }

  lemma DebitIsExact(accounts: seq<Account>, id: string, amount: int)
    requires LengthIds(accounts, |id|)
    ensures Debit(accounts, id, amount) == DebitExactly(accounts, id, amount)
  {
    forall a | a in accounts ensures Uuid.Contains(a.id, id) ==> a.id == id {
      Uuid.ContainsIsEquality(a.id, id);
    }
    DebitExactlyWhen(accounts, id, amount);
  }

  lemma DebitShape(accounts: seq<Account>, k: nat, amount: int)
    requires DistinctIds(accounts) && k < |accounts| && LengthIds(accounts, |accounts[k].id|)
    ensures Debit(accounts, accounts[k].id, amount) ==
            accounts[k := accounts[k].(amount := accounts[k].amount - amount)]
  {
    DebitIsExact(accounts, accounts[k].id, amount);
  }

  lemma StoreShape(accounts: seq<Account>, bs: Account)
    requires DistinctIds(accounts)
    ensures DistinctIds(Store(accounts, bs))
    ensures (forall i :: 0 <= i < |accounts| ==> accounts[i].id != bs.id) ==> Store(accounts, bs) == accounts + [bs]
    ensures forall k :: 0 <= k < |accounts| && accounts[k].id == bs.id ==> Store(accounts, bs) == accounts[k := bs]
  {}

  /** On any list: every account with the ID is replaced, and with none the new one goes to the end. */
  lemma StoreAnywhere(accounts: seq<Account>, bs: Account)
    ensures var out := Store(accounts, bs);
      if exists i :: 0 <= i < |accounts| && accounts[i].id == bs.id
      then |out| == |accounts| && forall i :: 0 <= i < |accounts| ==>
             out[i] == if accounts[i].id == bs.id then bs else accounts[i]
      else out == accounts + [bs]
  {}

  // ---------------------------------------------------------------- accounting over histories

  datatype Entry = Put(account: Account) | Take(id: string, amount: int)

  function Apply(accounts: seq<Account>, e: Entry): seq<Account> {
    match e
    case Put(bs) => Store(accounts, bs)
    case Take(id, amount) => Debit(accounts, id, amount)
  }

  function ApplyAll(accounts: seq<Account>, entries: seq<Entry>): seq<Account> {
    if entries == [] then accounts
    else Apply(ApplyAll(accounts, entries[..|entries| - 1]), entries[|entries| - 1])
  }

  /** The index after the last time the account was stored, or 0 if it never was. */
  function LastPut(entries: seq<Entry>, id: string): nat
    ensures LastPut(entries, id) <= |entries|
  {
    if entries == [] then 0
    else
      var e := entries[|entries| - 1];
      if e.Put? && e.account.id == id then |entries| else LastPut(entries[..|entries| - 1], id)
  }

  /** The debits made to one ID. */
  function Taken(entries: seq<Entry>, id: string): int {
    if entries == [] then 0
    else
      var e := entries[|entries| - 1];
      Taken(entries[..|entries| - 1], id) + if e.Take? && e.id == id then e.amount else 0
  }

  function EntryId(e: Entry): string {
    if e.Put? then e.account.id else e.id
  }

  function Find(accounts: seq<Account>, id: string): Option<Account> {
    if accounts == [] then None
    else if accounts[0].id == id then Some(accounts[0])
    else Find(accounts[1..], id)
  }

  lemma {:induction false} FindIs(accounts: seq<Account>, id: string)
    requires DistinctIds(accounts)
    ensures forall i :: 0 <= i < |accounts| && accounts[i].id == id ==> Find(accounts, id) == Some(accounts[i])
    ensures (forall i :: 0 <= i < |accounts| ==> accounts[i].id != id) ==> Find(accounts, id) == None
  {
    if accounts != [] {
      FindIs(accounts[1..], id);
      forall i | 1 <= i < |accounts| ensures accounts[1..][i - 1] == accounts[i] {}
    }
  }

  lemma FindStored(accounts: seq<Account>, bs: Account, id: string)
    requires DistinctIds(accounts)
    ensures Find(Store(accounts, bs), id) == if id == bs.id then Some(bs) else Find(accounts, id)
  {
    StoreShape(accounts, bs);
    var out := Store(accounts, bs);
    FindIs(accounts, id);
    FindIs(out, id);
    if k :| 0 <= k < |accounts| && accounts[k].id == bs.id {
      assert out == accounts[k := bs];
      assert out[k] == bs;
      forall i | 0 <= i < |accounts| && i != k ensures out[i] == accounts[i] {}
    } else {
      assert out == accounts + [bs];
      assert out[|accounts|] == bs;
      forall i | 0 <= i < |accounts| ensures out[i] == accounts[i] {}
    }
  }

  lemma FindDebited(accounts: seq<Account>, payer: string, amount: int, id: string)
    requires DistinctIds(accounts) && LengthIds(accounts, |payer|)
    ensures DistinctIds(Debit(accounts, payer, amount))
    ensures var was := Find(accounts, id);
      Find(Debit(accounts, payer, amount), id) ==
      if was.Some? && id == payer then Some(was.value.(amount := was.value.amount - amount)) else was
  {
    DebitIsExact(accounts, payer, amount);
    var out := Debit(accounts, payer, amount);
    forall i | 0 <= i < |accounts| ensures out[i].id == accounts[i].id {}
    FindIs(accounts, id);
    FindIs(out, id);
  }

  /** What a history says an ID holds: its last stored account, less the debits made to it since. */
  function Holds(entries: seq<Entry>, id: string): Option<Account> {
    var p := LastPut(entries, id);
    if p == 0 || entries[p - 1].Take? then None
    else
      var bs := entries[p - 1].account;
      Some(bs.(amount := bs.amount - Taken(entries[p..], id)))
  }

  lemma {:induction false} LastPutIsPut(entries: seq<Entry>, id: string)
    ensures var p := LastPut(entries, id); p > 0 ==> entries[p - 1].Put? && entries[p - 1].account.id == id
  {
    if entries != [] {
      LastPutIsPut(entries[..|entries| - 1], id);
    }
  }

  lemma HoldsExtends(front: seq<Entry>, e: Entry, id: string)
    ensures Holds(front + [e], id) ==
      if e.Put? && e.account.id == id then Some(e.account)
      else if e.Take? && e.id == id && Holds(front, id).Some? then
        var was := Holds(front, id).value; Some(was.(amount := was.amount - e.amount))
      else Holds(front, id)
  {
    var entries := front + [e];
    assert entries[..|entries| - 1] == front;
    LastPutIsPut(front, id);
    var p := LastPut(front, id);
    assert entries[p..] == front[p..] + [e];
    assert entries[p..][..|entries[p..]| - 1] == front[p..];
    assert Taken(entries[|entries|..], id) == 0;
  }

  /** IDs stay distinct, and of one length if the entry's is. */
  lemma ApplyKeepsIds(accounts: seq<Account>, e: Entry, length: nat)
    requires DistinctIds(accounts) && LengthIds(accounts, length) && |EntryId(e)| == length
    ensures DistinctIds(Apply(accounts, e)) && LengthIds(Apply(accounts, e), length)
  {}

  /** Starting empty, with IDs of one length, after every history each ID holds exactly what the history says. */
  lemma {:induction false} ExactAccounting(entries: seq<Entry>, length: nat, id: string)
    requires forall e :: e in entries ==> |EntryId(e)| == length
    ensures DistinctIds(ApplyAll([], entries))
    ensures LengthIds(ApplyAll([], entries), length)
    ensures Find(ApplyAll([], entries), id) == Holds(entries, id)
  {
    if entries != [] {
      var front, e := entries[..|entries| - 1], entries[|entries| - 1];
      assert entries == front + [e] && e in entries;
      ExactAccounting(front, length, id);
      var before := ApplyAll([], front);
      ApplyKeepsIds(before, e, length);
      HoldsExtends(front, e, id);
      match e {
        case Put(bs) => FindStored(before, bs, id);
        case Take(payer, amount) => FindDebited(before, payer, amount, id);
      }
    }
  }

  // ---------------------------------------------------------------- choosing an account

  predicate InGroup(a: Account, g: Group) {
    a.asset == g.asset && a.bridgeTo == g.chain
  }

  /** The accounts of one group, in ledger order. */
  function Candidates(accounts: seq<Account>, g: Group): seq<Account> {
    if accounts == [] then []
    else (if InGroup(accounts[0], g) then [accounts[0]] else []) + Candidates(accounts[1..], g)
  }

  lemma {:induction false} CandidatesAre(accounts: seq<Account>, g: Group, a: Account)
    ensures a in Candidates(accounts, g) <==> a in accounts && InGroup(a, g)
  {
    if accounts != [] {
      assert accounts == [accounts[0]] + accounts[1..];
      CandidatesAre(accounts[1..], g, a);
    }
  }

  /** Filtering keeps the ledger's order and every account that is of the asset and was bridged to the chain. */
  lemma {:induction false} CandidatesInOrder(front: seq<Account>, a: Account, back: seq<Account>, g: Group)
    ensures Candidates(front + [a] + back, g) ==
            Candidates(front, g) +
            (if a.asset == g.asset && a.bridgeTo == g.chain then [a] else []) +
            Candidates(back, g)
    ensures Candidates([], g) == []
  {
    var one := if a.asset == g.asset && a.bridgeTo == g.chain then [a] else [];
    if front == [] {
      assert front + [a] + back == [a] + back && ([a] + back)[1..] == back;
      assert Candidates(front, g) + one + Candidates(back, g) == one + Candidates(back, g);
    } else {
      assert (front + [a] + back)[1..] == front[1..] + [a] + back;
      CandidatesInOrder(front[1..], a, back, g);
      var head := if InGroup(front[0], g) then [front[0]] else [];
      assert head + (Candidates(front[1..], g) + one + Candidates(back, g)) ==
             head + Candidates(front[1..], g) + one + Candidates(back, g);
    }
  }

  lemma CandidatesFrom(accounts: seq<Account>, i: nat, g: Group)
    requires i < |accounts|
    ensures Candidates(accounts[i..], g) ==
            (if InGroup(accounts[i], g) then [accounts[i]] else []) + Candidates(accounts[i + 1..], g)
  {}

  /** The halving search for the first amount that reaches the target, with what it guarantees on any list. */
  function Search(fs: seq<Account>, target: int, low: nat, high: nat): (index: nat)
    requires low <= high <= |fs|
    ensures low <= index <= high
    ensures index == low || fs[index - 1].amount < target
    ensures index == high || fs[index].amount >= target
    decreases high - low
  {
    if low == high then low
    else
      var middle := (low + high) / 2;
      if fs[middle].amount < target then Search(fs, target, middle + 1, high) else Search(fs, target, low, middle)
  }

  /** Halving the range at each probe leads to the index: every probe on the way answers on its side. */
  ghost predicate HalvesTo(fs: seq<Account>, target: int, low: nat, high: nat, index: int)
    requires low <= high <= |fs|
    decreases high - low
  {
    if low == high then index == low
    else
      var middle := (low + high) / 2;
      && low <= index <= high
      && (index > middle <==> fs[middle].amount < target)
      && if index > middle
         then HalvesTo(fs, target, middle + 1, high, index)
         else HalvesTo(fs, target, low, middle, index)
  }

  /** On a list in any order the search stops where halving leads, and the side of its first probe is decided there. */
  lemma {:induction false} SearchHalves(fs: seq<Account>, target: int, low: nat, high: nat, index: int)
    requires low <= high <= |fs|
    ensures Search(fs, target, low, high) == index <==> HalvesTo(fs, target, low, high, index)
    ensures low < high ==> (Search(fs, target, low, high) > (low + high) / 2 <==> fs[(low + high) / 2].amount < target)
    decreases high - low
  {
    if low < high {
      var middle := (low + high) / 2;
      if fs[middle].amount < target {
        SearchHalves(fs, target, middle + 1, high, index);
      } else {
        SearchHalves(fs, target, low, middle, index);
      }
    }
  }

  /** The account picked next to where the search stops, a tie going to the left. */
  function Nearest(fs: seq<Account>, target: int): Account
    requires fs != []
  {
    var index := Search(fs, target, 0, |fs|);
    if index == 0 then fs[index]
    else if index == |fs| then fs[index - 1]
    else if target - fs[index - 1].amount <= fs[index].amount - target then fs[index - 1]
    else fs[index]
  }

  function Distance(a: Account, target: int): nat {
    if a.amount < target then target - a.amount else a.amount - target
  }

  /** On a list in any order: the target is bracketed where the search stops, and the nearer neighbour is picked. */
  lemma Bracketed(fs: seq<Account>, target: int)
    requires fs != []
    ensures var index, pick := Search(fs, target, 0, |fs|), Nearest(fs, target);
      && index <= |fs|
      && (index > 0 ==> fs[index - 1].amount < target && Distance(pick, target) <= Distance(fs[index - 1], target))
      && (index < |fs| ==> fs[index].amount >= target && Distance(pick, target) <= Distance(fs[index], target))
      && ((index > 0 && pick == fs[index - 1]) || (index < |fs| && pick == fs[index]))
  {}

  predicate Ascending(fs: seq<Account>) {
    forall i, j :: 0 <= i < j < |fs| ==> fs[i].amount <= fs[j].amount
  }

  /** No candidate is nearer to the target, and none as near is smaller. */
  ghost predicate IsBest(pick: Account, fs: seq<Account>, target: int) {
    && pick in fs
    && (forall c :: c in fs ==> Distance(pick, target) <= Distance(c, target))
    && (forall c :: c in fs && Distance(pick, target) == Distance(c, target) ==> pick.amount <= c.amount)
  }

  /** On an ascending list the pick is best, and an exact match is always used. */
  lemma NearestIsBest(fs: seq<Account>, target: int)
    requires fs != [] && Ascending(fs)
    ensures IsBest(Nearest(fs, target), fs, target)
    ensures (exists c :: c in fs && c.amount == target) ==> Nearest(fs, target).amount == target
  {
    var index, pick := Search(fs, target, 0, |fs|), Nearest(fs, target);
    forall c | c in fs
      ensures Distance(pick, target) <= Distance(c, target)
      ensures Distance(pick, target) == Distance(c, target) ==> pick.amount <= c.amount
    {
      var i :| 0 <= i < |fs| && fs[i] == c;
      if i < index - 1 { assert fs[i].amount <= fs[index - 1].amount; }
      if index < i { assert fs[index].amount <= fs[i].amount; }
    }
    if c :| c in fs && c.amount == target { assert Distance(c, target) == 0; }
  }

  predicate DistinctAmounts(fs: seq<Account>) {
    forall i, j :: 0 <= i < j < |fs| ==> fs[i].amount != fs[j].amount
  }

  /** If every amount's own search finds it, any two amounts are in order: the search separates them somewhere. */
  lemma {:induction false} FoundMeansOrdered(fs: seq<Account>, low: nat, high: nat, k: nat, l: nat)
    requires low <= k < l < high <= |fs|
    requires Search(fs, fs[k].amount, low, high) == k
    requires Search(fs, fs[l].amount, low, high) == l
    ensures fs[k].amount <= fs[l].amount
    decreases high - low
  {
    var middle := (low + high) / 2;
    assert k <= middle <==> fs[middle].amount >= fs[k].amount;
    assert l <= middle <==> fs[middle].amount >= fs[l].amount;
    if l < middle {
      FoundMeansOrdered(fs, low, middle, k, l);
    } else if middle < k {
      FoundMeansOrdered(fs, middle + 1, high, k, l);
    }
  }

  /** Two targets that no stored amount tells apart are searched alike. */
  lemma {:induction false} SearchedAlike(fs: seq<Account>, t: int, u: int, low: nat, high: nat)
    requires low <= high <= |fs|
    requires forall i :: 0 <= i < |fs| ==> (fs[i].amount < t <==> fs[i].amount < u)
    ensures Search(fs, t, low, high) == Search(fs, u, low, high)
    decreases high - low
  {
    if low < high {
      var middle := (low + high) / 2;
      if fs[middle].amount < t {
        SearchedAlike(fs, t, u, middle + 1, high);
      } else {
        SearchedAlike(fs, t, u, low, middle);
      }
    }
  }

  /** The greatest stored amount below the target, if any is. */
  lemma {:induction false} Below(fs: seq<Account>, target: int) returns (low: Option<Account>)
    ensures low.Some? ==> low.value in fs && low.value.amount < target
    ensures forall c :: c in fs && c.amount < target ==> low.Some? && c.amount <= low.value.amount
  {
    if fs == [] {
      low := None;
    } else {
      assert fs == [fs[0]] + fs[1..];
      low := Below(fs[1..], target);
      if fs[0].amount < target && (low.None? || low.value.amount < fs[0].amount) { low := Some(fs[0]); }
    }
  }

  /** The least stored amount that reaches the target, if any does. */
  lemma {:induction false} Above(fs: seq<Account>, target: int) returns (high: Option<Account>)
    ensures high.Some? ==> high.value in fs && high.value.amount >= target
    ensures forall c :: c in fs && c.amount >= target ==> high.Some? && high.value.amount <= c.amount
  {
    if fs == [] {
      high := None;
    } else {
      assert fs == [fs[0]] + fs[1..];
      high := Above(fs[1..], target);
      if fs[0].amount >= target && (high.None? || fs[0].amount < high.value.amount) { high := Some(fs[0]); }
    }
  }

  /** The pick is best for a request of the account's amount, and for one of a unit more. */
  ghost predicate BestAround(fs: seq<Account>, a: Account)
    requires fs != []
  {
    IsBest(Nearest(fs, a.amount), fs, a.amount) && IsBest(Nearest(fs, a.amount + 1), fs, a.amount + 1)
  }

  ghost predicate BestWhereStored(fs: seq<Account>)
    requires fs != []
  {
    forall a {:trigger BestAround(fs, a)} :: a in fs ==> BestAround(fs, a)
  }

  /**
   * The search for an unstored target has the greatest smaller amount on its left: one more than it is searched alike.
   */
  lemma LeftIsBelow(fs: seq<Account>, target: int, low: Account)
    requires fs != [] && BestAround(fs, low) && low in fs && low.amount < target
    requires forall c :: c in fs ==> c.amount <= low.amount || c.amount > target
    ensures var i := Search(fs, target, 0, |fs|); i > 0 && fs[i - 1].amount == low.amount
  {
    SearchedAlike(fs, low.amount + 1, target, 0, |fs|);
    assert Distance(low, low.amount + 1) == 1;
  }

  /** And the least larger amount on its right. */
  lemma RightIsAbove(fs: seq<Account>, target: int, high: Account)
    requires fs != [] && BestAround(fs, high) && high in fs && high.amount >= target
    requires forall c :: c in fs && c.amount >= target ==> high.amount <= c.amount
    ensures var i := Search(fs, target, 0, |fs|); i < |fs| && fs[i].amount == high.amount
  {
    SearchedAlike(fs, high.amount, target, 0, |fs|);
    assert Distance(high, high.amount) == 0;
  }

  lemma NearestIsNeighbour(fs: seq<Account>, target: int, low: Option<Account>, high: Option<Account>)
    requires fs != []
    requires low.Some? ==> low.value.amount < target
    requires forall c :: c in fs && c.amount < target ==> low.Some? && c.amount <= low.value.amount
    requires high.Some? ==> high.value.amount >= target
    requires forall c :: c in fs && c.amount >= target ==> high.Some? && high.value.amount <= c.amount
    requires var i := Search(fs, target, 0, |fs|);
      && (low.Some? ==> i > 0 && fs[i - 1].amount == low.value.amount)
      && (high.Some? ==> i < |fs| && fs[i].amount == high.value.amount)
    ensures IsBest(Nearest(fs, target), fs, target)
  {}

  lemma BestEverywhere(fs: seq<Account>, target: int)
    requires fs != [] && BestWhereStored(fs)
    ensures IsBest(Nearest(fs, target), fs, target)
  {
    var low := Below(fs, target);
    var high := Above(fs, target);
    if high.Some? { assert BestAround(fs, high.value); }
    if high.None? || high.value.amount != target {
      if low.Some? {
        assert BestAround(fs, low.value);
        LeftIsBelow(fs, target, low.value);
      }
      if high.Some? { RightIsAbove(fs, target, high.value); }
      NearestIsNeighbour(fs, target, low, high);
    }
  }

  /**
   * On any list, in any order and with any repeats: the pick is best for every request exactly when it is for each
   * stored amount and for one unit more than each, at most twice as many requests as there are accounts.
   */
  lemma BestExactlyWhen(fs: seq<Account>)
    requires fs != []
    ensures (forall target :: IsBest(Nearest(fs, target), fs, target)) <==> BestWhereStored(fs)
  {
    if BestWhereStored(fs) {
      forall target ensures IsBest(Nearest(fs, target), fs, target) { BestEverywhere(fs, target); }
    }
  }

  /** With pairwise different amounts, the pick is best for every request exactly when the list is ascending. */
  lemma BestExactlyWhenAscending(fs: seq<Account>)
    requires fs != [] && DistinctAmounts(fs)
    ensures (forall target :: IsBest(Nearest(fs, target), fs, target)) <==> Ascending(fs)
  {
    if Ascending(fs) {
      forall target ensures IsBest(Nearest(fs, target), fs, target) { NearestIsBest(fs, target); }
    } else if forall target :: IsBest(Nearest(fs, target), fs, target) {
      forall k | 0 <= k < |fs| ensures Search(fs, fs[k].amount, 0, |fs|) == k {
        var pick := Nearest(fs, fs[k].amount);
        assert IsBest(pick, fs, fs[k].amount);
        assert Distance(pick, fs[k].amount) <= Distance(fs[k], fs[k].amount);
      }
      forall i, j | 0 <= i < j < |fs| ensures fs[i].amount <= fs[j].amount {
        FoundMeansOrdered(fs, 0, |fs|, i, j);
      }
    }
  }

  lemma HalvingDecides(fs: seq<Account>, target: int, index: nat)
    requires fs != [] && HalvesTo(fs, target, 0, |fs|, index)
    ensures index <= |fs|
    ensures Nearest(fs, target) ==
            if index == 0 then fs[0]
            else if index == |fs| || target - fs[index - 1].amount <= fs[index].amount - target then fs[index - 1]
            else fs[index]
  {
    SearchHalves(fs, target, 0, |fs|, index);
  }

  /** Which of several accounts the target lies between depends on the probes: of 9, 2 and 5 the request of 4 gets 5. */
  lemma ProbesDecide(nine: Account, two: Account, five: Account)
    requires nine.amount == 9 && two.amount == 2 && five.amount == 5
    ensures Nearest([nine, two, five], 4) == five
  {
    SearchHalves([nine, two, five], 4, 0, 3, 2);
  }

  /** Out of order, a request can be paid by a worse account: 3 is asked for and 5 is picked. */
  lemma UnsortedPicksWorse(five: Account, three: Account)
    requires five.amount == 5 && three.amount == 3
    ensures Nearest([five, three], 3) == five && !IsBest(five, [five, three], 3)
  {}

  /** Repeated amounts can hide disorder, so that the equivalence needs them to differ. */
  lemma RepeatsHideDisorder(fs: seq<Account>)
    requires |fs| == 4 && fs[0].amount == fs[2].amount == 3 && fs[1].amount == fs[3].amount == 5
    ensures !Ascending(fs) && forall target :: IsBest(Nearest(fs, target), fs, target)
  {}

  // ---------------------------------------------------------------- retrieval

  datatype Lookup =
    | NoAccounts               // the ledger is empty: no account and no error
    | IndexOutOfRange          // accounts, but none in the group: the first candidate is indexed anyway
    | Found(account: Account)

  function RequestGroup(r: Request): Group {
    Group(Unwrapped(r.info.currency), r.info.bridgeFrom)
  }

  function Retrieve(accounts: seq<Account>, r: Request): Lookup {
    if accounts == [] then NoAccounts
    else
      var candidates := Candidates(accounts, RequestGroup(r));
      if candidates == [] then IndexOutOfRange else Found(Nearest(candidates, r.info.amount))
  }

  ghost predicate GroupHasAccount(accounts: seq<Account>, g: Group) {
    exists a :: a in accounts && InGroup(a, g)
  }

  /** An account is found exactly when the request's group has one, and then it is of that group. */
  lemma FoundExactlyWhen(accounts: seq<Account>, r: Request)
    ensures Retrieve(accounts, r).Found? <==> GroupHasAccount(accounts, RequestGroup(r))
    ensures GroupHasAccount(accounts, RequestGroup(r)) <==>
            exists a :: a in accounts && a.asset == Unwrapped(r.info.currency) && a.bridgeTo == r.info.bridgeFrom
    ensures Retrieve(accounts, r).Found? ==>
      var a := Retrieve(accounts, r).account; a in accounts && InGroup(a, RequestGroup(r))
    ensures Retrieve(accounts, r).NoAccounts? <==> accounts == []
  {
    var g := RequestGroup(r);
    var candidates := Candidates(accounts, g);
    if a :| a in accounts && InGroup(a, g) { CandidatesAre(accounts, g, a); }
    if candidates != [] {
      CandidatesAre(accounts, g, candidates[0]);
      var pick := Nearest(candidates, r.info.amount);
      CandidatesAre(accounts, g, pick);
    }
  }

  /**
   * Which account it is, whatever the order: of the two next to where halving for the inner amount leads, the nearer,
   * or the left one if they are as near, or the only one.
   */
  lemma FoundWhereHalvingLeads(accounts: seq<Account>, r: Request, index: nat)
    requires var fs := Candidates(accounts, RequestGroup(r));
      fs != [] && HalvesTo(fs, r.info.amount, 0, |fs|, index)
    ensures var fs, wanted := Candidates(accounts, RequestGroup(r)), r.info.amount;
      && index <= |fs|
      && Retrieve(accounts, r) == Found(
           if index == 0 then fs[0]
           else if index == |fs| || wanted - fs[index - 1].amount <= fs[index].amount - wanted then fs[index - 1]
           else fs[index])
  {
    var fs := Candidates(accounts, RequestGroup(r));
    HalvingDecides(fs, r.info.amount, index);
    assert accounts != [];
  }

  // ---------------------------------------------------------------- releases

  ghost function BalanceIn(g: Group): Account -> int {
    a => if InGroup(a, g) then a.amount else 0
  }

  ghost function Total(accounts: seq<Account>, g: Group): int {
    Sum(accounts, BalanceIn(g))
  }

  function Abs(x: int): nat {
    if x < 0 then -x else x
  }

  /**
   * A release that found its account debits that account only: it is in the request's group, whose total falls
   * by the amount; every other account and every other group's total stands.
   */
  lemma ReleaseDebits(accounts: seq<Account>, r: Request, length: nat) returns (k: nat)
    requires DistinctIds(accounts) && LengthIds(accounts, length) && Retrieve(accounts, r).Found?
    ensures k < |accounts| && accounts[k] == Retrieve(accounts, r).account && InGroup(accounts[k], RequestGroup(r))
    ensures Debit(accounts, accounts[k].id, r.amount) ==
            accounts[k := accounts[k].(amount := accounts[k].amount - r.amount)]
    ensures forall g :: Total(Debit(accounts, accounts[k].id, r.amount), g) ==
                        Total(accounts, g) - if g == RequestGroup(r) then r.amount else 0
  {
    var a := Retrieve(accounts, r).account;
    FoundExactlyWhen(accounts, r);
    k :| 0 <= k < |accounts| && accounts[k] == a;
    DebitShape(accounts, k, r.amount);
    forall g
      ensures Total(Debit(accounts, a.id, r.amount), g) ==
              Total(accounts, g) - if g == RequestGroup(r) then r.amount else 0
    {
      SumPatch(accounts, Debit(accounts, a.id, r.amount), BalanceIn(g), BalanceIn(g), k);
    }
  }

  /**
   * The search looks for the inner amount, and the debit takes the outer one: on candidates that ascend no other
   * account is nearer to the inner amount, and where the two are equal none would have been left closer to zero.
   */
  lemma ReleaseLeavesLeast(accounts: seq<Account>, r: Request, c: Account)
    requires Retrieve(accounts, r).Found?
    requires Ascending(Candidates(accounts, RequestGroup(r)))
    requires c in accounts && InGroup(c, RequestGroup(r))
    ensures Abs(Retrieve(accounts, r).account.amount - r.info.amount) <= Abs(c.amount - r.info.amount)
  {
    NearestIsBest(Candidates(accounts, RequestGroup(r)), r.info.amount);
    CandidatesAre(accounts, RequestGroup(r), c);
  }
}
