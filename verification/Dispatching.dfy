/** What dispatching a watched request does to the stored lists and on the shims. */
module Dispatching {
  import opened BridgeTypes
  import opened Routes
  import opened Ledger
  import Requests

  /** The three stored keys. */
  datatype Db = Db(requests: seq<Request>, failed: seq<Request>, accounts: seq<Account>)

  /** What a shim was asked for and did. */
  datatype Transfer =
    | Minted(tid: string, group: Group, amount: int, shim: Shim, to: string)
    | Released(
        tid: string,
        group: Group,
        amount: int,
        payer: Option<string>,
        fromKey: string,
        shim: Shim,
        endpoint: string,
        to: string)

  /** Panicked is a Go run-time panic, which takes the whole pod down. */
  datatype Status = Ok | Err | Panicked

  datatype Outcome = Outcome(status: Status, db: Db, transfers: seq<Transfer>)

  function EscrowAccount(r: Request): Account {
    var info := r.info;
    Account(r.chain, info.escrowKey, info.amount, info.currency, r.transactionId, info.bridgeFrom, info.bridgeTo)
  }

  /** shimOk: the shim was reached, did what it was asked, and did not answer 500. */
  function MintWrapped(db: Db, r: Request, shimOk: bool): Outcome {
    var shim := MintShim(r.info.currency, r.info.bridgeTo);
    if shim.None? || !shimOk then Outcome(Err, db, [])
    else
      var group := Credited(r.info.bridgeTo, r.info.currency);
      Outcome(Ok, db, [Minted(r.transactionId, group, r.amount, shim.value, r.info.shippingAddress)])
  }

  function Payout(r: Request, payer: Option<string>, fromKey: string): Transfer {
    var (shim, endpoint) := ReleaseShim(r.info.bridgeTo, r.info.bridgeFrom);
    Released(r.transactionId, RequestGroup(r), r.amount, payer, fromKey, shim, endpoint, r.info.shippingAddress)
  }

  /** With no account at all the shim still pays, and only then is the missing account's ID read. */
  function ReleaseNative(db: Db, r: Request, shimOk: bool): Outcome {
    match Retrieve(db.accounts, r)
    case IndexOutOfRange => Outcome(Panicked, db, [])
    case NoAccounts => if shimOk then Outcome(Panicked, db, [Payout(r, None, "")]) else Outcome(Err, db, [])
    case Found(a) =>
      if shimOk
      then Outcome(Ok, db.(accounts := Debit(db.accounts, a.id, r.amount)), [Payout(r, Some(a.id), a.privateKey)])
      else Outcome(Err, db, [])
  }

  function CreateBridge(db: Db, r: Request, shimOk: bool): Outcome {
    match Bridge(r.info.bridgeTo, r.info.bridgeFrom, r.info.currency)
    case None => Outcome(Err, db, [])
    case Some(Mint) => MintWrapped(db, r, shimOk)
    case Some(Release) => ReleaseNative(db, r, shimOk)
  }

  function StoreEscrow(db: Db, r: Request, result: string): Db {
    if result == SUCCESS && Native(r.info.currency)
    then db.(accounts := Store(db.accounts, EscrowAccount(r)))
    else db
  }

  function RemoveRequest(o: Outcome, tid: string): Outcome {
    match Requests.RemoveLoop(o.db.requests, tid)
    case Removed(list) => o.(db := o.db.(requests := list))
    case OutOfRange => o.(status := Panicked)
  }

  /** Store the escrow account of a success, bridge, and remove the request if bridging worked. */
  function Dispatch(db: Db, r: Request, result: string, shimOk: bool): Outcome {
    var o := CreateBridge(StoreEscrow(db, r, result), r, shimOk);
    if o.status.Ok? then RemoveRequest(o, r.transactionId) else o
  }

  /** The native-coin loop moves a success it could not bridge to the failed list; the other loops only log it. */
  predicate MovesToFailed(r: Request, result: string, o: Outcome) {
    && Watch(r.chain, r.info.bridgeTo, r.info.currency) == Some(EvmChain)
    && result == SUCCESS
    && o.status.Err?
  }

  /** A watcher's dispatch together with what its loop does when the dispatch reports an error. */
  function Settle(db: Db, r: Request, result: string, shimOk: bool): Outcome {
    var o := Dispatch(db, r, result, shimOk);
    if MovesToFailed(r, result, o)
    then RemoveRequest(o.(db := o.db.(failed := o.db.failed + [r])), r.transactionId)
    else o
  }

  /** The claimed copy that watchAccount writes back. */
  function Claimed(r: Request, pod: string, now: int): Request {
    r.(locked := true, lockedBy := pod, lockedTime := now)
  }

  /** An upsert that reports an error changes nothing. */
  function StoreRequest(db: Db, r: Request): Db {
    var updated := Requests.Upsert(db.requests, r);
    if updated.Some? then db.(requests := updated.value) else db
  }

  function Watched(r: Request): Option<Watcher> {
    Watch(r.chain, r.info.bridgeTo, r.info.currency)
  }

  /** Which loop watches the request, by its own fields. */
  lemma RequestWatchedExactly(r: Request)
    ensures Watched(r) == Some(EvmChain) <==>
            && r.info.currency == r.chain
            && ((r.chain == OCTA && r.info.bridgeTo == GRAMS) || (r.chain == GRAMS && r.info.bridgeTo == OCTA))
    ensures Watched(r) == Some(WgramsOnOcta) <==>
            r.chain == OCTA && r.info.bridgeTo == GRAMS && r.info.currency == WGRAMS
    ensures Watched(r) == Some(WoctaOnParty) <==>
            r.chain == GRAMS && r.info.bridgeTo == OCTA && r.info.currency == WOCTA
    ensures Watched(r) == Some(WbscusdtOnOcta) <==>
            r.chain == OCTA && r.info.bridgeTo == BSCUSDT && r.info.currency == WBSCUSDT
    ensures Watched(r) == Some(WbscusdtOnParty) <==>
            r.chain == GRAMS && r.info.bridgeTo == BSCUSDT && r.info.currency == WBSCUSDT
    ensures Watched(r) == Some(BscUsdt) <==>
            r.chain == BSCUSDT && r.info.currency == BSCUSDT && (r.info.bridgeTo == OCTA || r.info.bridgeTo == GRAMS)
  {
    WatcherExactly(r.chain, r.info.bridgeTo, r.info.currency);
  }

  /** The claimed copy is locked, by this pod, at this time, and is else what it was. */
  lemma ClaimedExactly(r: Request, pod: string, now: int)
    ensures var c := Claimed(r, pod, now);
      && c.locked && c.lockedBy == pod && c.lockedTime == now
      && c.(locked := r.locked, lockedBy := r.lockedBy, lockedTime := r.lockedTime) == r
  {}

  /** The escrow account a paid native deposit leaves on any ledger has the deposit's inner amount and wallet key. */
  lemma EscrowExactly(db: Db, r: Request, result: string)
    ensures result != SUCCESS || !Native(r.info.currency) ==> StoreEscrow(db, r, result) == db
    ensures result == SUCCESS && Native(r.info.currency) ==>
      var out := StoreEscrow(db, r, result);
      && out == db.(accounts := out.accounts)
      && (exists a :: a in out.accounts && a.id == r.transactionId)
      && forall a :: a in out.accounts && a.id == r.transactionId ==>
           && a.chain == r.chain && a.privateKey == r.info.escrowKey && a.amount == r.info.amount
           && a.asset == r.info.currency && a.bridgeFrom == r.info.bridgeFrom && a.bridgeTo == r.info.bridgeTo
  {
    var bs := EscrowAccount(r);
    StoreAnywhere(db.accounts, bs);
    var out := Store(db.accounts, bs);
    if i :| 0 <= i < |db.accounts| && db.accounts[i].id == bs.id {
      assert out[i] == bs;
    } else {
      assert out[|db.accounts|] == bs;
    }
  }

  /** A mint, for any request: made exactly when there is a shim for it that is willing, of the outer amount. */
  lemma MintStep(db: Db, r: Request, shimOk: bool)
    ensures var o := MintWrapped(db, r, shimOk);
      && o.db == db && !o.status.Panicked?
      && (o.status.Ok? <==> shimOk && MintShim(r.info.currency, r.info.bridgeTo).Some?)
      && (!o.status.Ok? ==> o.transfers == [])
      && (o.status.Ok? ==>
            && |o.transfers| == 1 && o.transfers[0].Minted?
            && var tr := o.transfers[0];
            && tr.tid == r.transactionId && tr.amount == r.amount && tr.to == r.info.shippingAddress
            && tr.group.asset == r.info.currency && tr.group.chain == r.info.bridgeTo
            && Some(tr.shim) == MintShim(r.info.currency, r.info.bridgeTo))
  {}

  /** A release that does not succeed moves nothing, but for one from an empty ledger: the shim pays, with no key. */
  lemma ReleaseElse(db: Db, r: Request, shimOk: bool)
    ensures var o := ReleaseNative(db, r, shimOk);
      && (o.status.Ok? ==> shimOk && Retrieve(db.accounts, r).Found?)
      && (!o.status.Ok? ==>
            && o.db == db
            && (o.transfers != [] <==> db.accounts == [] && shimOk)
            && (o.transfers != [] ==>
                  && |o.transfers| == 1 && o.transfers[0].Released?
                  && var tr := o.transfers[0];
                  && tr.tid == r.transactionId && tr.amount == r.amount && tr.to == r.info.shippingAddress
                  && tr.group == RequestGroup(r) && tr.payer.None? && tr.fromKey == ""
                  && (tr.shim, tr.endpoint) == ReleaseShim(r.info.bridgeTo, r.info.bridgeFrom)))
  {
    FoundExactlyWhen(db.accounts, r);
  }

  /** Which of the two a request is bridged by, by its own fields; otherwise by neither, and nothing happens. */
  lemma BridgesExactly(db: Db, r: Request, shimOk: bool)
    ensures var i := r.info;
      var mints := (i.bridgeTo == OCTA || i.bridgeTo == GRAMS) && Native(i.currency) && i.currency != i.bridgeTo;
      var releases :=
        || (i.bridgeTo == OCTA && i.currency == WOCTA) || (i.bridgeTo == GRAMS && i.currency == WGRAMS)
        || (i.bridgeTo == BSCUSDT && (i.bridgeFrom == OCTA || i.bridgeFrom == GRAMS));
      CreateBridge(db, r, shimOk) ==
        if mints then MintWrapped(db, r, shimOk)
        else if releases then ReleaseNative(db, r, shimOk)
        else Outcome(Err, db, [])
  {
    BridgedExactly(r.info.bridgeTo, r.info.bridgeFrom, r.info.currency);
    assert "w" + GRAMS == WGRAMS && "w" + OCTA == WOCTA;
  }

  /**
   * What a dispatch does in turn, on any lists: a panic of the removal comes after the money has moved, and after the
   * request has been added to the failed list.
   */
  lemma DispatchesInTurn(db: Db, r: Request, result: string, shimOk: bool)
    ensures var b := CreateBridge(StoreEscrow(db, r, result), r, shimOk);
      var d, o := Dispatch(db, r, result, shimOk), Settle(db, r, result, shimOk);
      var tidies := Watched(r) == Some(EvmChain) && result == SUCCESS && d.status.Err?;
      && d.db.accounts == o.db.accounts == b.db.accounts && d.transfers == o.transfers == b.transfers
      && d.db.failed == db.failed && o.db.failed == db.failed + (if tidies then [r] else [])
      && (!b.status.Ok? ==> d == b)
      && (!tidies ==> o == d)
      && (b.status.Ok? || tidies ==>
            match Requests.RemoveLoop(db.requests, r.transactionId)
            case Removed(list) => o.status == b.status && o.db.requests == list
            case OutOfRange => o.status.Panicked? && o.db.requests == db.requests)
  {}

  /**
   * A release paid right by account k: it is the one found, of the request's group; its key was sent to the shim of
   * the route, with the outer amount and the shipping address; it is debited by that amount and every other account
   * stands; the group's total falls by the amount, every other group's stands, and of candidates that ascend none was
   * nearer to the inner amount.
   */
  ghost predicate PaysRight(accounts: seq<Account>, r: Request, after: seq<Account>, paid: seq<Transfer>, k: nat) {
    && k < |accounts| && InGroup(accounts[k], RequestGroup(r)) && Retrieve(accounts, r) == Found(accounts[k])
    && |paid| == 1 && paid[0].Released?
    && paid[0].tid == r.transactionId && paid[0].group == RequestGroup(r)
    && paid[0].amount == r.amount && paid[0].to == r.info.shippingAddress
    && paid[0].payer == Some(accounts[k].id) && paid[0].fromKey == accounts[k].privateKey
    && (paid[0].shim, paid[0].endpoint) == ReleaseShim(r.info.bridgeTo, r.info.bridgeFrom)
    && after == accounts[k := accounts[k].(amount := accounts[k].amount - r.amount)]
    && (forall g :: Total(after, g) == Total(accounts, g) - if g == RequestGroup(r) then r.amount else 0)
    && (Ascending(Candidates(accounts, RequestGroup(r))) ==>
          forall a :: a in accounts && InGroup(a, RequestGroup(r)) ==>
            Abs(accounts[k].amount - r.info.amount) <= Abs(a.amount - r.info.amount))
  }

  /** A successful release is paid right. */
  lemma ReleaseStep(db: Db, r: Request, length: nat) returns (k: nat)
    requires DistinctIds(db.accounts) && LengthIds(db.accounts, length)
    requires ReleaseNative(db, r, true).status.Ok?
    ensures var o := ReleaseNative(db, r, true);
      o.db == db.(accounts := o.db.accounts) && PaysRight(db.accounts, r, o.db.accounts, o.transfers, k)
  {
    k := ReleaseDebits(db.accounts, r, length);
    if Ascending(Candidates(db.accounts, RequestGroup(r))) {
      forall a | a in db.accounts && InGroup(a, RequestGroup(r))
        ensures Abs(db.accounts[k].amount - r.info.amount) <= Abs(a.amount - r.info.amount)
      {
        ReleaseLeavesLeast(db.accounts, r, a);
      }
    }
  }

  /** A release panics exactly when its group has no account and it gets as far as needing one. */
  lemma ReleasePanicsExactlyWhen(db: Db, r: Request, shimOk: bool)
    ensures ReleaseNative(db, r, shimOk).status.Panicked? <==>
            !GroupHasAccount(db.accounts, RequestGroup(r)) && (db.accounts != [] || shimOk)
  {
    FoundExactlyWhen(db.accounts, r);
  }
}
