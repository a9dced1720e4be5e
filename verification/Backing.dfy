/** Money over whole runs: what has been minted, what has been released, and what the ledger holds. */
module Backing {
  import opened BridgeTypes
  import opened Routes
  import opened Sums
  import opened Ledger
  import opened Dispatching
  import opened Protocol
  import opened Conservation
  import Session
  import Uuid

  function MintedTo(transfers: seq<Transfer>, g: Group): int {
    if transfers == [] then 0
    else
      var minted := if transfers[0].Minted? && transfers[0].group == g then transfers[0].amount else 0;
      minted + MintedTo(transfers[1..], g)
  }

  function ReleasedFrom(transfers: seq<Transfer>, g: Group): int {
    if transfers == [] then 0
    else
      var released := if transfers[0].Released? && transfers[0].group == g then transfers[0].amount else 0;
      released + ReleasedFrom(transfers[1..], g)
  }

  lemma {:induction false} TransfersConcat(a: seq<Transfer>, b: seq<Transfer>, g: Group)
    ensures MintedTo(a + b, g) == MintedTo(a, g) + MintedTo(b, g)
    ensures ReleasedFrom(a + b, g) == ReleasedFrom(a, g) + ReleasedFrom(b, g)
  {
    if a == [] {
      assert a + b == b;
    } else {
      assert (a + b)[1..] == a[1..] + b;
      TransfersConcat(a[1..], b, g);
    }
  }

  /** What the ledger of a group holds beyond what is in circulation of its wrapped token. */
  ghost function Slack(s: System, g: Group): int {
    Total(s.db.accounts, g) - (MintedTo(s.transfers, g) - ReleasedFrom(s.transfers, g))
  }

  ghost predicate Backed(s: System, g: Group) {
    Slack(s, g) >= 0
  }

  // ---------------------------------------------------------------- what keeps a group backed

  ghost function Face(issued: map<string, Request>, g: Group): Account -> int {
    a => if InGroup(a, g) && a.id in issued then issued[a.id].amount else 0
  }

  /** The face value of those accounts whose order has been minted. */
  ghost function MintedFace(issued: map<string, Request>, minted: set<string>, g: Group): Account -> int {
    a => if InGroup(a, g) && a.id in issued && a.id in minted then issued[a.id].amount else 0
  }

  ghost function MintedIds(transfers: seq<Transfer>): set<string> {
    set tr | tr in transfers && tr.Minted? :: tr.tid
  }

  ghost predicate HasId(accounts: seq<Account>, id: string) {
    exists i :: 0 <= i < |accounts| && accounts[i].id == id
  }

  /** No account holds more than was deposited for it. */
  ghost predicate Fair(issued: map<string, Request>, accounts: seq<Account>) {
    forall i :: 0 <= i < |accounts| ==> accounts[i].id in issued && accounts[i].amount <= issued[accounts[i].id].amount
  }

  /** What has been paid out makes up for what the accounts are short of their face, and mints are of whole accounts. */
  ghost predicate Solvent(issued: map<string, Request>, accounts: seq<Account>, transfers: seq<Transfer>, g: Group) {
    && Total(accounts, g) + ReleasedFrom(transfers, g) >= Sum(accounts, Face(issued, g))
    && MintedTo(transfers, g) == Sum(accounts, MintedFace(issued, MintedIds(transfers), g))
  }

  /** An order that has been minted is done and has its account. */
  ghost predicate MintsHeld(s: System) {
    forall t :: t in MintedIds(s.transfers) ==> Has(s.done, t) && HasId(s.db.accounts, t)
  }

  ghost predicate Booked(s: System) {
    && MintsHeld(s) && Fair(s.issued, s.db.accounts)
    && (forall t :: t in s.issued ==> s.issued[t].amount >= 0)
    && (forall g :: Solvent(s.issued, s.db.accounts, s.transfers, g))
  }

  ghost predicate Books(s: System) {
    Conserved(s) && Booked(s)
  }

  // ---------------------------------------------------------------- safe steps

  ghost predicate NonNegative(s: System, step: Step) {
    step.Confirm? ==> step.order.amount >= 0
  }

  /** What a watch of a native coin mints was paid for: now, or by an earlier watch that stored its escrow. */
  ghost predicate PaidFor(s: System, step: Step) {
    step.Finish? && step.pod in s.pods && step.k < |s.pods[step.pod].watching| ==>
      var c := s.pods[step.pod].watching[step.k];
      Native(c.info.currency) ==> step.result == SUCCESS || !step.shimOk || HasId(s.db.accounts, c.transactionId)
  }

  ghost predicate Safe(s: System, step: Step) {
    FreeClaim(s, step) && NonNegative(s, step) && PaidFor(s, step)
  }

  lemma BooksAreBacked(s: System, g: Group)
    requires Books(s)
    ensures Backed(s, g)
  {
    assert Solvent(s.issued, s.db.accounts, s.transfers, g);
    SumMonotone(s.db.accounts, MintedFace(s.issued, MintedIds(s.transfers), g), Face(s.issued, g));
  }

  // ---------------------------------------------------------------- sums

  /** Rewriting one account's amount leaves every face, and changes its own group's total only. */
  lemma RewriteSums(issued: map<string, Request>, minted: set<string>, accounts: seq<Account>, k: nat, amount: int,
                    g: Group)
    requires k < |accounts|
    ensures var out := accounts[k := accounts[k].(amount := amount)];
      && Total(out, g) == Total(accounts, g) + (if InGroup(accounts[k], g) then amount - accounts[k].amount else 0)
      && Sum(out, Face(issued, g)) == Sum(accounts, Face(issued, g))
      && Sum(out, MintedFace(issued, minted, g)) == Sum(accounts, MintedFace(issued, minted, g))
  {
    var out := accounts[k := accounts[k].(amount := amount)];
    SumPatch(accounts, out, BalanceIn(g), BalanceIn(g), k);
    SumPatch(accounts, out, Face(issued, g), Face(issued, g), k);
    SumPatch(accounts, out, MintedFace(issued, minted, g), MintedFace(issued, minted, g), k);
  }

  lemma RewriteIds(accounts: seq<Account>, k: nat, amount: int)
    requires k < |accounts|
    ensures forall t :: HasId(accounts, t) ==> HasId(accounts[k := accounts[k].(amount := amount)], t)
  {
    var out := accounts[k := accounts[k].(amount := amount)];
    forall t | HasId(accounts, t) ensures HasId(out, t) {
      var i :| 0 <= i < |accounts| && accounts[i].id == t;
      assert out[i].id == t;
    }
  }

  /** Counting one more account as minted adds its face value. */
  lemma MintSums(issued: map<string, Request>, minted: set<string>, accounts: seq<Account>, k: nat, g: Group)
    requires DistinctIds(accounts) && k < |accounts| && accounts[k].id in issued && accounts[k].id !in minted
    ensures Sum(accounts, MintedFace(issued, minted + {accounts[k].id}, g)) ==
            Sum(accounts, MintedFace(issued, minted, g)) +
            if InGroup(accounts[k], g) then issued[accounts[k].id].amount else 0
  {
    SumPatch(accounts, accounts, MintedFace(issued, minted, g), MintedFace(issued, minted + {accounts[k].id}, g), k);
  }

  lemma MintedIdsConcat(a: seq<Transfer>, b: seq<Transfer>)
    ensures MintedIds(a + b) == MintedIds(a) + MintedIds(b)
  {}

  lemma OneTransfer(tr: Transfer, g: Group)
    ensures MintedTo([tr], g) == if tr.Minted? && tr.group == g then tr.amount else 0
    ensures ReleasedFrom([tr], g) == if tr.Released? && tr.group == g then tr.amount else 0
    ensures MintedIds([tr]) == if tr.Minted? then {tr.tid} else {}
  {}

  // ---------------------------------------------------------------- the books, change by change

  ghost predicate ResetAt(accounts: seq<Account>, out: seq<Account>, bs: Account, k: int)
    requires 0 <= k < |accounts|
  {
    out == accounts[k := accounts[k].(amount := bs.amount)] && out[k] == bs
  }

  /** Storing the escrow of an order that is not minted yet, new or reset to its face value. */
  lemma StoreBooks(issued: map<string, Request>, accounts: seq<Account>, out: seq<Account>, transfers: seq<Transfer>,
                   bs: Account, g: Group)
    requires Fair(issued, accounts) && Solvent(issued, accounts, transfers, g)
    requires bs.id in issued && bs.amount == issued[bs.id].amount && bs.id !in MintedIds(transfers)
    requires || out == accounts + [bs]
             || exists k :: 0 <= k < |accounts| && ResetAt(accounts, out, bs, k)
    ensures Solvent(issued, out, transfers, g)
  {
    var minted := MintedIds(transfers);
    if out == accounts + [bs] {
      SumAppend(accounts, bs, BalanceIn(g));
      SumAppend(accounts, bs, Face(issued, g));
      SumAppend(accounts, bs, MintedFace(issued, minted, g));
    } else {
      var k :| 0 <= k < |accounts| && ResetAt(accounts, out, bs, k);
      RewriteSums(issued, minted, accounts, k, bs.amount, g);
    }
  }

  /** Minting the whole of an account that had not been. */
  lemma MintBooks(issued: map<string, Request>, accounts: seq<Account>, transfers: seq<Transfer>, tr: Transfer, k: nat,
                  g: Group)
    requires DistinctIds(accounts) && Solvent(issued, accounts, transfers, g)
    requires k < |accounts| && accounts[k].id in issued && accounts[k].id !in MintedIds(transfers)
    requires tr.Minted? && tr.tid == accounts[k].id && tr.amount == issued[tr.tid].amount
    requires InGroup(accounts[k], tr.group)
    ensures Solvent(issued, accounts, transfers + [tr], g)
  {
    TransfersConcat(transfers, [tr], g);
    MintedIdsConcat(transfers, [tr]);
    OneTransfer(tr, g);
    MintSums(issued, MintedIds(transfers), accounts, k, g);
  }

  /** Releasing an amount that one account of the group pays. */
  lemma ReleaseBooks(issued: map<string, Request>, accounts: seq<Account>, transfers: seq<Transfer>, tr: Transfer,
                     k: nat, g: Group)
    requires Fair(issued, accounts) && Solvent(issued, accounts, transfers, g)
    requires tr.Released? && tr.amount >= 0 && k < |accounts| && InGroup(accounts[k], tr.group)
    ensures var out := accounts[k := accounts[k].(amount := accounts[k].amount - tr.amount)];
      Solvent(issued, out, transfers + [tr], g)
  {
    TransfersConcat(transfers, [tr], g);
    MintedIdsConcat(transfers, [tr]);
    OneTransfer(tr, g);
    RewriteSums(issued, MintedIds(transfers), accounts, k, accounts[k].amount - tr.amount, g);
    assert MintedIds(transfers + [tr]) == MintedIds(transfers);
  }

  /** Releasing an amount that no account pays. */
  lemma UnpaidBooks(issued: map<string, Request>, accounts: seq<Account>, transfers: seq<Transfer>, tr: Transfer,
                    g: Group)
    requires Solvent(issued, accounts, transfers, g) && tr.Released? && tr.amount >= 0
    ensures Solvent(issued, accounts, transfers + [tr], g)
  {
    TransfersConcat(transfers, [tr], g);
    MintedIdsConcat(transfers, [tr]);
    OneTransfer(tr, g);
    assert MintedIds(transfers + [tr]) == MintedIds(transfers);
  }

  /** Issuing another order. */
  lemma IssueBooks(issued: map<string, Request>, more: map<string, Request>, accounts: seq<Account>,
                   transfers: seq<Transfer>, g: Group)
    requires Fair(issued, accounts) && Solvent(issued, accounts, transfers, g)
    requires forall t :: t in issued ==> t in more && more[t] == issued[t]
    ensures Solvent(more, accounts, transfers, g)
  {
    var minted := MintedIds(transfers);
    SumSame(accounts, accounts, Face(issued, g), Face(more, g));
    SumSame(accounts, accounts, MintedFace(issued, minted, g), MintedFace(more, minted, g));
  }

  // ---------------------------------------------------------------- steps

  lemma WatchedCopy(s: System, step: Step) returns (c: Request)
    requires Sound(s) && Enabled(s, step) && step.Finish?
    ensures c == s.pods[step.pod].watching[step.k] && Known(s.issued, c)
    ensures c.amount == s.issued[c.transactionId].amount == c.info.amount
    ensures Bridge(c.info.bridgeTo, c.info.bridgeFrom, c.info.currency) ==
            Some(if Native(c.info.currency) then Mint else Release)
  {
    c := s.pods[step.pod].watching[step.k];
    assert PodOk(s.issued, s.capacity, step.pod, s.pods[step.pod]) && c in s.pods[step.pod].watching;
    assert Orderly(s.issued[c.transactionId], s.issued[c.transactionId].lockedBy);
    WatchedIsBridged(c.chain, c.info.bridgeTo, c.info.currency);
  }

  /** What a paid watch of a native coin does. */
  lemma NativeFinish(s: System, step: Step, c: Request)
    requires Sound(s) && Enabled(s, step) && step.Finish? && step.result == SUCCESS
    requires c == s.pods[step.pod].watching[step.k]
    requires Bridge(c.info.bridgeTo, c.info.bridgeFrom, c.info.currency) == Some(Mint) && Native(c.info.currency)
    ensures var s', o := Next(s, step), MintWrapped(s.db, c, step.shimOk);
      && s'.issued == s.issued && s'.db.accounts == StoreEscrow(s.db, c, SUCCESS).accounts
      && s'.transfers == s.transfers + o.transfers
      && s'.done == s.done + (if o.status.Ok? then [c] else [])
  {
    SettleIs(s.db, c, SUCCESS, step.shimOk);
  }

  lemma NotMinted(s: System, step: Step)
    requires Books(s) && Enabled(s, step) && step.Finish?
    ensures s.pods[step.pod].watching[step.k].transactionId !in MintedIds(s.transfers)
  {}

  /** The ledger after storing a known order's escrow, and where its account then is. */
  lemma StoredAt(issued: map<string, Request>, db: Db, c: Request) returns (k: nat)
    requires WellIssued(issued) && LedgerOk(issued, db.accounts) && Known(issued, c) && Native(c.info.currency)
    ensures var bs, out := EscrowAccount(c), StoreEscrow(db, c, SUCCESS).accounts;
      && LedgerOk(issued, out) && k < |out| && out[k] == bs
      && (|| out == db.accounts + [bs]
          || (k < |db.accounts| && out == db.accounts[k := db.accounts[k].(amount := bs.amount)]))
      && (forall t :: HasId(db.accounts, t) ==> HasId(out, t))
  {
    var bs, out := EscrowAccount(c), StoreEscrow(db, c, SUCCESS).accounts;
    StoreEscrowIs(issued, db, c);
    if out == db.accounts + [bs] {
      k := |db.accounts|;
      forall t | HasId(db.accounts, t) ensures HasId(out, t) {
        var i :| 0 <= i < |db.accounts| && db.accounts[i].id == t;
        assert out[i].id == t;
      }
    } else {
      k :| 0 <= k < |out| && db.accounts[k].id == c.transactionId && out == db.accounts[k := bs];
      assert EscrowOf(issued, db.accounts[k]);
      assert db.accounts[k].(amount := bs.amount) == bs;
      RewriteIds(db.accounts, k, bs.amount);
    }
  }

  /** Storing a known order's escrow and then minting it, or failing to. */
  lemma MintSolvent(issued: map<string, Request>, db: Db, transfers: seq<Transfer>, c: Request, shimOk: bool, g: Group)
    requires WellIssued(issued) && LedgerOk(issued, db.accounts) && Known(issued, c) && Native(c.info.currency)
    requires c.amount == c.info.amount == issued[c.transactionId].amount && c.transactionId !in MintedIds(transfers)
    requires Fair(issued, db.accounts) && Solvent(issued, db.accounts, transfers, g)
    ensures Solvent(issued, StoreEscrow(db, c, SUCCESS).accounts, transfers + MintWrapped(db, c, shimOk).transfers, g)
  {
    var out, o := StoreEscrow(db, c, SUCCESS).accounts, MintWrapped(db, c, shimOk);
    var k := StoredAt(issued, db, c);
    if k < |db.accounts| {
      assert out == db.accounts + [EscrowAccount(c)] || ResetAt(db.accounts, out, EscrowAccount(c), k);
    }
    StoreBooks(issued, db.accounts, out, transfers, EscrowAccount(c), g);
    if o.transfers == [] {
      assert transfers + o.transfers == transfers;
    } else {
      MintBooks(issued, out, transfers, o.transfers[0], k, g);
      assert o.transfers == [o.transfers[0]];
    }
  }

  ghost predicate BooksKept(s: System, s': System) {
    && s'.issued == s.issued && Fair(s'.issued, s'.db.accounts) && MintsHeld(s')
    && forall g :: Solvent(s'.issued, s'.db.accounts, s'.transfers, g)
  }

  lemma DoneStays(done: seq<Request>, more: seq<Request>, t: string)
    requires done <= more && Has(done, t)
    ensures Has(more, t)
  {}

  lemma MintHeld(s: System, s': System, c: Request, o: Outcome)
    requires MintsHeld(s) && s'.transfers == s.transfers + o.transfers
    requires o.transfers == [] || (o.status.Ok? && |o.transfers| == 1 && o.transfers[0].tid == c.transactionId)
    requires s'.done == s.done + (if o.status.Ok? then [c] else [])
    requires HasId(s'.db.accounts, c.transactionId) && forall t :: HasId(s.db.accounts, t) ==> HasId(s'.db.accounts, t)
    ensures MintsHeld(s')
  {
    forall t | t in MintedIds(s'.transfers) ensures Has(s'.done, t) && HasId(s'.db.accounts, t) {
      if t in MintedIds(s.transfers) {
        DoneStays(s.done, s'.done, t);
      } else {
        var tr :| tr in s'.transfers && tr.Minted? && tr.tid == t;
        assert tr in o.transfers && c in s'.done;
      }
    }
  }

  lemma AllMintSolvent(issued: map<string, Request>, db: Db, transfers: seq<Transfer>, c: Request, shimOk: bool)
    requires WellIssued(issued) && LedgerOk(issued, db.accounts) && Known(issued, c) && Native(c.info.currency)
    requires c.amount == c.info.amount == issued[c.transactionId].amount && c.transactionId !in MintedIds(transfers)
    requires Fair(issued, db.accounts) && forall g :: Solvent(issued, db.accounts, transfers, g)
    ensures var out, paid := StoreEscrow(db, c, SUCCESS).accounts, MintWrapped(db, c, shimOk).transfers;
      forall g :: Solvent(issued, out, transfers + paid, g)
  {
    var out, paid := StoreEscrow(db, c, SUCCESS).accounts, MintWrapped(db, c, shimOk).transfers;
    forall g ensures Solvent(issued, out, transfers + paid, g) {
      assert Solvent(issued, db.accounts, transfers, g);
      MintSolvent(issued, db, transfers, c, shimOk, g);
    }
  }

  lemma NativeBooks(s: System, step: Step)
    requires Sound(s) && Booked(s) && Enabled(s, step) && step.Finish? && step.result == SUCCESS
    requires var c := s.pods[step.pod].watching[step.k];
      Native(c.info.currency) && c.transactionId !in MintedIds(s.transfers)
    ensures BooksKept(s, Next(s, step))
  {
    var s' := Next(s, step);
    var c := WatchedCopy(s, step);
    NativeFinish(s, step, c);
    var k := StoredAt(s.issued, s.db, c);
    AllMintSolvent(s.issued, s.db, s.transfers, c, step.shimOk);
    MintHeld(s, s', c, MintWrapped(s.db, c, step.shimOk));
  }

  /** What a timed-out watch of a native coin does: it mints all the same, with nothing stored. */
  lemma TimedOutFinish(s: System, step: Step, c: Request)
    requires Sound(s) && Enabled(s, step) && step.Finish? && step.result == ERROR
    requires c == s.pods[step.pod].watching[step.k]
    requires Bridge(c.info.bridgeTo, c.info.bridgeFrom, c.info.currency) == Some(Mint) && Native(c.info.currency)
    ensures var s', o := Next(s, step), MintWrapped(s.db, c, step.shimOk);
      && s'.issued == s.issued && s'.db.accounts == s.db.accounts
      && s'.transfers == s.transfers + o.transfers
      && s'.done == s.done + (if o.status.Ok? then [c] else [])
  {}

  /** Minting an order whose escrow an earlier watch stored, or failing to mint. */
  lemma TimedOutSolvent(issued: map<string, Request>, db: Db, transfers: seq<Transfer>, c: Request, shimOk: bool,
                        g: Group)
    requires WellIssued(issued) && LedgerOk(issued, db.accounts) && Known(issued, c) && Native(c.info.currency)
    requires c.amount == issued[c.transactionId].amount && c.transactionId !in MintedIds(transfers)
    requires !shimOk || HasId(db.accounts, c.transactionId)
    requires Solvent(issued, db.accounts, transfers, g)
    ensures Solvent(issued, db.accounts, transfers + MintWrapped(db, c, shimOk).transfers, g)
  {
    var paid := MintWrapped(db, c, shimOk).transfers;
    if paid == [] {
      assert transfers + paid == transfers;
    } else {
      var k :| 0 <= k < |db.accounts| && db.accounts[k].id == c.transactionId;
      assert EscrowOf(issued, db.accounts[k]);
      MintBooks(issued, db.accounts, transfers, paid[0], k, g);
      assert paid == [paid[0]];
    }
  }

  lemma HeldStays(s: System, s': System)
    requires MintsHeld(s) && MintedIds(s'.transfers) == MintedIds(s.transfers)
    requires s.done <= s'.done && forall t :: HasId(s.db.accounts, t) ==> HasId(s'.db.accounts, t)
    ensures MintsHeld(s')
  {}

  lemma TimedOutBooks(s: System, step: Step)
    requires Sound(s) && Booked(s) && Enabled(s, step) && step.Finish? && step.result == ERROR && PaidFor(s, step)
    requires var c := s.pods[step.pod].watching[step.k];
      Native(c.info.currency) && c.transactionId !in MintedIds(s.transfers)
    ensures BooksKept(s, Next(s, step))
  {
    var s' := Next(s, step);
    var c := WatchedCopy(s, step);
    TimedOutFinish(s, step, c);
    forall g ensures Solvent(s.issued, s.db.accounts, s'.transfers, g) {
      assert Solvent(s.issued, s.db.accounts, s.transfers, g);
      TimedOutSolvent(s.issued, s.db, s.transfers, c, step.shimOk, g);
    }
    if step.shimOk {
      MintHeld(s, s', c, MintWrapped(s.db, c, step.shimOk));
    } else {
      assert s'.transfers == s.transfers;
      HeldStays(s, s');
    }
  }

  /** A timed-out watch of an order never paid for mints what no account stands for. */
  lemma UnpaidMintBreaks(s: System, step: Step)
    requires Sound(s) && Enabled(s, step) && !PaidFor(s, step)
    ensures !MintsHeld(Next(s, step))
  {
    var s' := Next(s, step);
    var c := WatchedCopy(s, step);
    assert PodOk(s.issued, s.capacity, step.pod, s.pods[step.pod]) && c in s.pods[step.pod].watching;
    WatchedIsBridged(c.chain, c.info.bridgeTo, c.info.currency);
    TimedOutFinish(s, step, c);
    var paid := MintWrapped(s.db, c, true).transfers;
    assert paid[0] in s'.transfers && paid[0].Minted?;
    assert c.transactionId in MintedIds(s'.transfers);
  }

  /** A release pays nothing, or is paid by nobody, or by one account of its group. */
  ghost predicate PaysOut(accounts: seq<Account>, c: Request, after: seq<Account>, paid: seq<Transfer>,
                          payer: Option<nat>)
  {
    && |paid| <= 1
    && (paid != [] ==> paid[0].Released? && paid[0].amount == c.amount && paid[0].group == RequestGroup(c))
    && (payer.None? ==> after == accounts)
    && (payer.Some? ==>
          && paid != [] && payer.value < |accounts| && InGroup(accounts[payer.value], RequestGroup(c))
          && var a := accounts[payer.value];
          after == accounts[payer.value := a.(amount := a.amount - c.amount)])
  }

  lemma ReleasePaysOut(issued: map<string, Request>, db: Db, c: Request, shimOk: bool) returns (payer: Option<nat>)
    requires WellIssued(issued) && LedgerOk(issued, db.accounts)
    ensures var o := ReleaseNative(db, c, shimOk); PaysOut(db.accounts, c, o.db.accounts, o.transfers, payer)
  {
    payer := None;
    if Retrieve(db.accounts, c).Found? && shimOk {
      IdLengths(issued, db.accounts);
      var k := ReleaseDebits(db.accounts, c, 36);
      payer := Some(k);
    }
  }

  /** What a watch of a wrapped token does when it dispatches. */
  lemma WrappedFinish(s: System, step: Step, c: Request) returns (paid: seq<Transfer>, payer: Option<nat>)
    requires Sound(s) && Enabled(s, step) && step.Finish? && c == s.pods[step.pod].watching[step.k]
    requires Bridge(c.info.bridgeTo, c.info.bridgeFrom, c.info.currency) == Some(Release) && !Native(c.info.currency)
    ensures var s' := Next(s, step);
      && PaysOut(s.db.accounts, c, s'.db.accounts, paid, payer)
      && s'.issued == s.issued && s'.transfers == s.transfers + paid && s.done <= s'.done
  {
    SettleIs(s.db, c, step.result, step.shimOk);
    paid := ReleaseNative(s.db, c, step.shimOk).transfers;
    payer := ReleasePaysOut(s.issued, s.db, c, step.shimOk);
  }

  /** A release, paid or not. */
  lemma ReleaseSolvent(issued: map<string, Request>, accounts: seq<Account>, transfers: seq<Transfer>, c: Request,
                       after: seq<Account>, paid: seq<Transfer>, payer: Option<nat>, g: Group)
    requires PaysOut(accounts, c, after, paid, payer) && c.amount >= 0
    requires Fair(issued, accounts) && Solvent(issued, accounts, transfers, g)
    ensures Solvent(issued, after, transfers + paid, g)
  {
    if payer.Some? {
      assert paid == [paid[0]];
      ReleaseBooks(issued, accounts, transfers, paid[0], payer.value, g);
    } else if paid != [] {
      assert paid == [paid[0]];
      UnpaidBooks(issued, accounts, transfers, paid[0], g);
    } else {
      assert transfers + paid == transfers;
    }
  }

  lemma ReleaseIsFair(issued: map<string, Request>, accounts: seq<Account>, c: Request,
                      after: seq<Account>, paid: seq<Transfer>, payer: Option<nat>)
    requires PaysOut(accounts, c, after, paid, payer) && c.amount >= 0 && Fair(issued, accounts)
    ensures Fair(issued, after)
  {}

  lemma ReleasesMintNothing(a: seq<Transfer>, b: seq<Transfer>)
    requires forall tr :: tr in b ==> tr.Released?
    ensures MintedIds(a + b) == MintedIds(a)
  {}

  lemma WrappedHeld(s: System, s': System, c: Request, paid: seq<Transfer>, payer: Option<nat>)
    requires MintsHeld(s) && PaysOut(s.db.accounts, c, s'.db.accounts, paid, payer)
    requires s'.transfers == s.transfers + paid && s.done <= s'.done
    ensures MintsHeld(s')
  {
    assert forall tr :: tr in paid ==> tr.Released?;
    ReleasesMintNothing(s.transfers, paid);
    if payer.Some? { RewriteIds(s.db.accounts, payer.value, s.db.accounts[payer.value].amount - c.amount); }
    HeldStays(s, s');
  }

  lemma WrappedBooks(s: System, step: Step)
    requires Sound(s) && Booked(s) && Enabled(s, step) && step.Finish?
    requires !Native(s.pods[step.pod].watching[step.k].info.currency)
    ensures BooksKept(s, Next(s, step))
  {
    var s' := Next(s, step);
    var c := WatchedCopy(s, step);
    var paid, payer := WrappedFinish(s, step, c);
    forall g ensures Solvent(s.issued, s'.db.accounts, s'.transfers, g) {
      ReleaseSolvent(s.issued, s.db.accounts, s.transfers, c, s'.db.accounts, paid, payer, g);
    }
    ReleaseIsFair(s.issued, s.db.accounts, c, s'.db.accounts, paid, payer);
    WrappedHeld(s, s', c, paid, payer);
  }

  lemma QuietStep(s: System, step: Step)
    requires Enabled(s, step) && !step.Finish?
    ensures var s' := Next(s, step);
      && s'.db.accounts == s.db.accounts && s'.transfers == s.transfers && s'.done == s.done
      && s'.issued == if step.Confirm? then s.issued[step.order.transactionId := step.order] else s.issued
  {}

  lemma IssueAllBooks(issued: map<string, Request>, more: map<string, Request>, accounts: seq<Account>,
                      transfers: seq<Transfer>)
    requires Fair(issued, accounts) && forall g :: Solvent(issued, accounts, transfers, g)
    requires forall t :: t in issued ==> t in more && more[t] == issued[t]
    ensures Fair(more, accounts) && forall g :: Solvent(more, accounts, transfers, g)
  {
    forall g ensures Solvent(more, accounts, transfers, g) {
      assert Solvent(issued, accounts, transfers, g);
      IssueBooks(issued, more, accounts, transfers, g);
    }
  }

  lemma QuietBooks(s: System, step: Step)
    requires Booked(s) && Enabled(s, step) && NonNegative(s, step) && !step.Finish?
    requires step.Confirm? ==> step.order.transactionId !in s.issued
    ensures Booked(Next(s, step))
  {
    QuietStep(s, step);
    HeldStays(s, Next(s, step));
    IssueAllBooks(s.issued, Next(s, step).issued, s.db.accounts, s.transfers);
  }

  // ---------------------------------------------------------------- exactly when a group is backed

  /** What the ledger holds under an ID. */
  function Held(accounts: seq<Account>, id: string): int {
    match Find(accounts, id)
    case None => 0
    case Some(a) => a.amount
  }

  /**
   * What a step adds to the slack of a group. A paid deposit adds its amount, in place of what its account holds by
   * then; a mint takes its amount, paid for or not; a release adds nothing, unless nobody pays for it. All other steps
   * move no money.
   */
  ghost function Change(s: System, step: Step, g: Group): int {
    if !step.Finish? || step.pod !in s.pods || step.k >= |s.pods[step.pod].watching| then 0
    else
      var c := s.pods[step.pod].watching[step.k];
      if Native(c.info.currency) then
        if g != Credited(c.info.bridgeTo, c.info.currency) then 0
        else
          var stored := if step.result == SUCCESS then c.amount - Held(s.db.accounts, c.transactionId) else 0;
          stored - if step.shimOk then c.amount else 0
      else if g == RequestGroup(c) && step.shimOk && s.db.accounts == [] then c.amount
      else 0
  }

  /** Storing a deposit's escrow. */
  lemma StoreTotal(issued: map<string, Request>, db: Db, c: Request, g: Group)
    requires WellIssued(issued) && LedgerOk(issued, db.accounts) && Known(issued, c) && Native(c.info.currency)
    ensures Total(StoreEscrow(db, c, SUCCESS).accounts, g) ==
            Total(db.accounts, g) +
            if g == Credited(c.info.bridgeTo, c.info.currency)
            then c.info.amount - Held(db.accounts, c.transactionId) else 0
  {
    var bs, out := EscrowAccount(c), StoreEscrow(db, c, SUCCESS).accounts;
    FindIs(db.accounts, c.transactionId);
    StoreEscrowIs(issued, db, c);
    if out == db.accounts + [bs] && forall a :: a in db.accounts ==> a.id != c.transactionId {
      SumAppend(db.accounts, bs, BalanceIn(g));
    } else {
      var k :| 0 <= k < |out| && db.accounts[k].id == c.transactionId && out == db.accounts[k := bs];
      assert EscrowOf(issued, db.accounts[k]);
      SumPatch(db.accounts, out, BalanceIn(g), BalanceIn(g), k);
    }
  }

  lemma NativeChange(s: System, step: Step, c: Request, g: Group)
    requires Sound(s) && Enabled(s, step) && step.Finish? && c == s.pods[step.pod].watching[step.k]
    requires Known(s.issued, c) && c.amount == c.info.amount && Native(c.info.currency) && Watched(c).Some?
    requires Bridge(c.info.bridgeTo, c.info.bridgeFrom, c.info.currency) == Some(Mint)
    requires MintShim(c.info.currency, c.info.bridgeTo).Some?
    ensures Slack(Next(s, step), g) == Slack(s, g) + Change(s, step, g)
  {
    if step.result == SUCCESS {
      NativeFinish(s, step, c);
      StoreTotal(s.issued, s.db, c, g);
    } else {
      TimedOutFinish(s, step, c);
    }
    var paid := MintWrapped(s.db, c, step.shimOk).transfers;
    TransfersConcat(s.transfers, paid, g);
    if step.shimOk {
      assert paid == [paid[0]];
      OneTransfer(paid[0], g);
    }
  }

  /** Releasing moves a group's total and what is in circulation together, but for a release from nobody. */
  lemma ReleaseChange(issued: map<string, Request>, db: Db, c: Request, shimOk: bool, g: Group)
    requires WellIssued(issued) && LedgerOk(issued, db.accounts)
    ensures var o := ReleaseNative(db, c, shimOk);
      && MintedTo(o.transfers, g) == 0
      && Total(o.db.accounts, g) + ReleasedFrom(o.transfers, g) ==
           Total(db.accounts, g) + if g == RequestGroup(c) && shimOk && db.accounts == [] then c.amount else 0
  {
    var o := ReleaseNative(db, c, shimOk);
    if o.transfers != [] {
      assert o.transfers == [o.transfers[0]];
      OneTransfer(o.transfers[0], g);
    }
    if Retrieve(db.accounts, c).Found? {
      IdLengths(issued, db.accounts);
      var k := ReleaseDebits(db.accounts, c, 36);
    }
  }

  lemma WrappedChange(s: System, step: Step, c: Request, g: Group)
    requires Sound(s) && Enabled(s, step) && step.Finish? && c == s.pods[step.pod].watching[step.k]
    requires Bridge(c.info.bridgeTo, c.info.bridgeFrom, c.info.currency) == Some(Release) && !Native(c.info.currency)
    ensures Slack(Next(s, step), g) == Slack(s, g) + Change(s, step, g)
  {
    SettleIs(s.db, c, step.result, step.shimOk);
    ReleaseChange(s.issued, s.db, c, step.shimOk, g);
    TransfersConcat(s.transfers, ReleaseNative(s.db, c, step.shimOk).transfers, g);
  }

  /** A step, whatever it is, leaves a group backed exactly when the group's slack covers what the step takes. */
  lemma BackedExactlyWhen(s: System, step: Step, g: Group)
    requires Sound(s) && Enabled(s, step)
    ensures Slack(Next(s, step), g) == Slack(s, g) + Change(s, step, g)
    ensures Backed(Next(s, step), g) <==> Slack(s, g) + Change(s, step, g) >= 0
  {
    if step.Finish? {
      var c := WatchedCopy(s, step);
      assert Watched(c).Some? && c.info.bridgeFrom == c.chain by {
        assert PodOk(s.issued, s.capacity, step.pod, s.pods[step.pod]) && c in s.pods[step.pod].watching;
      }
      WatchedIsBridged(c.chain, c.info.bridgeTo, c.info.currency);
      if Native(c.info.currency) {
        NativeChange(s, step, c, g);
      } else {
        WrappedChange(s, step, c, g);
      }
    } else {
      QuietStep(s, step);
    }
  }

  /** The slack a run leaves a group is what its steps add up to. */
  ghost function Changes(s: System, steps: seq<Step>, g: Group): int
    requires Run(s, steps)
    decreases |steps|
  {
    if steps == [] then 0 else Change(s, steps[0], g) + Changes(Next(s, steps[0]), steps[1..], g)
  }

  lemma {:induction false} SlackAfter(s: System, steps: seq<Step>, g: Group)
    requires Sound(s) && Run(s, steps)
    ensures Slack(After(s, steps), g) == Slack(s, g) + Changes(s, steps, g)
    decreases |steps|
  {
    if steps != [] {
      BackedExactlyWhen(s, steps[0], g);
      StepKeeps(s, steps[0]);
      SlackAfter(Next(s, steps[0]), steps[1..], g);
    }
  }

  /** The group can bear the step. */
  ghost predicate Bears(s: System, step: Step, g: Group) {
    Slack(s, g) + Change(s, step, g) >= 0
  }

  lemma {:induction false} BackedThroughout(s: System, steps: seq<Step>, g: Group)
    requires Sound(s) && Backed(s, g) && Run(s, steps)
    ensures Throughout(e => Backed(e, g), s, steps) <==> Each((e, step) => Bears(e, step, g), s, steps)
    decreases |steps|
  {
    if steps != [] {
      BackedExactlyWhen(s, steps[0], g);
      if Bears(s, steps[0], g) {
        StepKeeps(s, steps[0]);
        BackedThroughout(Next(s, steps[0]), steps[1..], g);
      }
    }
  }

  /**
   * In every run whatever, with stale claims, negative orders, time-outs and mints repeated: a group is backed all
   * along exactly when it can bear each step, and what it can bear is what the steps before have added up to.
   */
  lemma RunBackedExactlyWhen(s: System, steps: seq<Step>, g: Group)
    requires Init(s) && Run(s, steps)
    ensures Throughout(e => Backed(e, g), s, steps) <==> Each((e, step) => Bears(e, step, g), s, steps)
    ensures Slack(After(s, steps), g) == Changes(s, steps, g)
  {
    InitIsSound(s);
    BackedThroughout(s, steps, g);
    SlackAfter(s, steps, g);
  }

  /** A mint not paid for: its group stays backed exactly when it had that much to spare; others are not touched. */
  lemma UnpaidMintTakesSlack(s: System, step: Step, g: Group)
    requires Sound(s) && Enabled(s, step) && !PaidFor(s, step)
    ensures var c := s.pods[step.pod].watching[step.k];
      Backed(Next(s, step), g) <==>
      Slack(s, g) >= if g == Credited(c.info.bridgeTo, c.info.currency) then c.amount else 0
  {
    BackedExactlyWhen(s, step, g);
  }

  // ---------------------------------------------------------------- where the orders come from

  /**
   * What a session stores is an order a pod can confirm; outside dev mode, with no negative minimum and fee, it is not
   * negative.
   */
  lemma SessionsConfirm(messages: seq<Session.Message>, setup: Session.Setup, wallet: Session.Wallet, k: nat,
                        tid: string, awrid: string)
    requires k < |messages| && Session.IsConfirm(messages[k])
    requires forall i :: 0 <= i <= k ==> Session.Ends(messages, setup, i) == None
    requires Uuid.Canonical(tid) && Uuid.Canonical(awrid)
    ensures Session.OrderAt(messages, setup, wallet, k, tid, awrid).Some?
    ensures Orderly(Session.OrderAt(messages, setup, wallet, k, tid, awrid).value, setup.podName)
    ensures !setup.dev && setup.minimum + setup.fee >= 0 ==>
              Session.OrderAt(messages, setup, wallet, k, tid, awrid).value.amount >= 0
  {
    Session.OrderAmounts(messages, setup, wallet, k, tid, awrid);
  }

  // ---------------------------------------------------------------- exactly when

  lemma SafeFinishBooks(s: System, step: Step)
    requires Books(s) && Enabled(s, step) && step.Finish? && PaidFor(s, step)
    ensures BooksKept(s, Next(s, step))
  {
    NotMinted(s, step);
    if !Native(s.pods[step.pod].watching[step.k].info.currency) {
      WrappedBooks(s, step);
    } else if step.result == SUCCESS {
      NativeBooks(s, step);
    } else {
      TimedOutBooks(s, step);
    }
  }

  lemma SafeStepBooks(s: System, step: Step)
    requires Books(s) && Enabled(s, step) && Safe(s, step)
    ensures Books(Next(s, step))
  {
    StepConserves(s, step);
    if step.Finish? {
      SafeFinishBooks(s, step);
    } else {
      QuietBooks(s, step);
    }
  }

  /**
   * A step keeps the books exactly when it is safe: a claim is of an order that is listed and unwatched, a confirmed
   * order is not negative, and what a timed-out watch of a native coin mints has its account. All else is free.
   */
  lemma BooksExactlyWhen(s: System, step: Step)
    requires Books(s) && Enabled(s, step)
    ensures Books(Next(s, step)) <==> Safe(s, step)
  {
    if Safe(s, step) {
      SafeStepBooks(s, step);
    } else if !FreeClaim(s, step) {
      ClaimKeepsApartExactlyWhen(s, step);
    } else if !PaidFor(s, step) {
      UnpaidMintBreaks(s, step);
    } else {
      var t := step.order.transactionId;
      assert Next(s, step).issued[t].amount < 0;
    }
  }

  lemma InitIsBooked(s: System)
    requires Init(s)
    ensures Books(s)
  {}

  lemma {:induction false} BooksThroughout(s: System, steps: seq<Step>)
    requires Books(s) && Run(s, steps)
    ensures Throughout(Books, s, steps) <==> Each(Safe, s, steps)
    decreases |steps|
  {
    if steps != [] {
      BooksExactlyWhen(s, steps[0]);
      if Safe(s, steps[0]) {
        BooksThroughout(Next(s, steps[0]), steps[1..]);
      }
    }
  }

  /** Over whole runs: the books are kept all along exactly when every step is safe. */
  lemma KeptExactlyWhen(s: System, steps: seq<Step>)
    requires Init(s) && Run(s, steps)
    ensures Throughout(Books, s, steps) <==> Each(Safe, s, steps)
  {
    InitIsBooked(s);
    BooksThroughout(s, steps);
  }

  lemma {:induction false} BooksBackThroughout(s: System, steps: seq<Step>, g: Group)
    requires Run(s, steps) && Throughout(Books, s, steps)
    ensures Throughout(e => Backed(e, g), s, steps)
    decreases |steps|
  {
    BooksAreBacked(s, g);
    if steps != [] {
      BooksBackThroughout(Next(s, steps[0]), steps[1..], g);
    }
  }

  /**
   * Backing over whole runs: while the steps are safe, every group's ledger covers what was minted less what was
   * released, after failed mints, retries, timed-out releases, releases refused or paid, and pods going down at any
   * point, unlocking their records or not.
   */
  lemma AlwaysBacked(s: System, steps: seq<Step>, g: Group)
    requires Init(s) && Run(s, steps) && Each(Safe, s, steps)
    ensures Throughout(e => Backed(e, g), s, steps)
  {
    KeptExactlyWhen(s, steps);
    BooksBackThroughout(s, steps, g);
  }
}
