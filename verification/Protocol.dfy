/**
 * Many pods share the stored lists: sessions confirm, tickers snapshot, workers claim, watchers dispatch, pods go
 * down.
 */
module Protocol {
  import opened BridgeTypes
  import opened Routes
  import opened Ledger
  import opened Dispatching
  import Requests
  import Uuid

  /** pending: the rest of the snapshot Warren is passing on; started: copies whose watch has not locked yet. */
  datatype Pod = Pod(pending: seq<Request>, channel: seq<Request>, started: seq<Request>, watching: seq<Request>)

  const IDLE := Pod([], [], [], [])

  /**
   * done and issued are history: the copies dispatched without error, and every order ever confirmed, by
   * TransactionID.
   */
  datatype System = System(
    db: Db,
    done: seq<Request>,
    transfers: seq<Transfer>,
    issued: map<string, Request>,
    pods: map<string, Pod>,
    capacity: nat)

  /** The atomic steps. k picks one of the pod's goroutines. */
  datatype Step =
    | Confirm(pod: string, order: Request)                            // a session stores an order
    | Tick(pod: string)                                               // the ticker reads the stored list
    | Offer(pod: string)                                              // Warren passes on one record of the snapshot
    | Receive(pod: string)                                            // a worker takes one copy and starts its watch
    | Claim(pod: string, k: nat, now: int)                            // a watch locks its copy and writes it back
    | Quit(pod: string, k: nat)                                       // a watcher returns without dispatching
    | Finish(pod: string, k: nat, result: string, shimOk: bool)       // a watcher dispatches its result
    | Unlock(pod: string)                                             // the pod, shutting down, unlocks its records
    | Kill(pod: string)                                               // the pod is gone, after unlocking or without

  function Drop(xs: seq<Request>, k: nat): seq<Request>
    requires k < |xs|
  {
    xs[..k] + xs[k + 1..]
  }

  /** What a session's order looks like, with UUIDs drawn for it. */
  predicate Orderly(r: Request, pod: string) {
    && Uuid.Canonical(r.transactionId) && Uuid.Canonical(r.awrid)
    && !r.locked && r.lockedBy == pod
    && r.amount == r.info.amount && r.info.bridgeFrom == r.chain
  }

  ghost predicate Enabled(s: System, step: Step) {
    && step.pod in s.pods
    && var pod := s.pods[step.pod];
    match step
    case Confirm(p, order) =>
      && Orderly(order, p)
      && order.transactionId !in s.issued
      && forall t :: t in s.issued ==> s.issued[t].awrid != order.awrid
    case Tick(_) => pod.pending == []
    case Offer(_) => pod.pending != [] && (pod.pending[0].locked || |pod.channel| < s.capacity)
    case Receive(_) => pod.channel != []
    case Claim(_, k, _) => k < |pod.started|
    case Quit(_, k) => k < |pod.watching| && Watched(pod.watching[k]) != Some(BscUsdt)
    case Finish(_, k, result, _) => k < |pod.watching| && (result == SUCCESS || result == ERROR)
    case Unlock(_) => true
    case Kill(_) => true
  }

  function Next(s: System, step: Step): System
    requires Enabled(s, step)
  {
    var pod := s.pods[step.pod];
    match step
    case Confirm(p, order) =>
      s.(db := StoreRequest(s.db, order), issued := s.issued[order.transactionId := order])
    case Tick(p) =>
      s.(pods := s.pods[p := pod.(pending := s.db.requests)])
    case Offer(p) =>
      var head := pod.pending[0];
      s.(pods := s.pods[p := pod.(pending := pod.pending[1..],
                                  channel := pod.channel + if head.locked then [] else [head])])
    case Receive(p) =>
      var head := pod.channel[0];
      s.(pods := s.pods[p := pod.(channel := pod.channel[1..],
                                  started := pod.started + if head.locked then [] else [head])])
    case Claim(p, k, now) =>
      var c := Claimed(pod.started[k], p, now);
      s.(db := StoreRequest(s.db, c),
         pods := s.pods[p := pod.(started := Drop(pod.started, k),
                                  watching := pod.watching + if Watched(c).Some? then [c] else [])])
    case Quit(p, k) =>
      s.(pods := s.pods[p := pod.(watching := Drop(pod.watching, k))])
    case Finish(p, k, result, shimOk) =>
      var c := pod.watching[k];
      var o := Settle(s.db, c, result, shimOk);
      s.(db := o.db,
         transfers := s.transfers + o.transfers,
         done := s.done + (if o.status.Ok? then [c] else []),
         pods := s.pods[p := if o.status.Panicked? then IDLE else pod.(watching := Drop(pod.watching, k))])
    case Unlock(p) =>
      s.(db := s.db.(requests := Requests.UnlockPod(s.db.requests, p)))
    case Kill(p) =>
      s.(pods := s.pods[p := IDLE])
  }

  ghost predicate Init(s: System) {
    && s.db == Db([], [], []) && s.done == [] && s.transfers == [] && s.issued == map[]
    && (forall p :: p in s.pods ==> s.pods[p] == IDLE)
  }

  // ---------------------------------------------------------------- runs

  ghost predicate Run(s: System, steps: seq<Step>)
    decreases |steps|
  {
    steps == [] || (Enabled(s, steps[0]) && Run(Next(s, steps[0]), steps[1..]))
  }

  ghost function After(s: System, steps: seq<Step>): System
    requires Run(s, steps)
    decreases |steps|
  {
    if steps == [] then s else After(Next(s, steps[0]), steps[1..])
  }

  /** Every state the run goes through, the first and the last among them. */
  ghost predicate Throughout(holds: System -> bool, s: System, steps: seq<Step>)
    requires Run(s, steps)
    decreases |steps|
  {
    holds(s) && (steps == [] || Throughout(holds, Next(s, steps[0]), steps[1..]))
  }

  /** Every step, in the state it is taken in. */
  ghost predicate Each(ok: (System, Step) -> bool, s: System, steps: seq<Step>)
    requires Run(s, steps)
    decreases |steps|
  {
    steps == [] || (ok(s, steps[0]) && Each(ok, Next(s, steps[0]), steps[1..]))
  }

  // ---------------------------------------------------------------- what every step keeps

  ghost predicate Known(issued: map<string, Request>, c: Request) {
    c.transactionId in issued && SameOrder(c, issued[c.transactionId])
  }

  ghost predicate AllKnown(issued: map<string, Request>, cs: seq<Request>) {
    forall c :: c in cs ==> Known(issued, c)
  }

  ghost predicate WellIssued(issued: map<string, Request>) {
    && (forall t :: t in issued ==> issued[t].transactionId == t && Orderly(issued[t], issued[t].lockedBy))
    && (forall t, u :: t in issued && u in issued && issued[t].awrid == issued[u].awrid ==> t == u)
  }

  ghost predicate ListsOk(s: System) {
    && AllKnown(s.issued, s.db.requests) && Requests.Unique(s.db.requests)
    && AllKnown(s.issued, s.db.failed)
    && AllKnown(s.issued, s.done)
  }

  ghost predicate PodOk(issued: map<string, Request>, capacity: nat, p: string, pod: Pod) {
    && AllKnown(issued, pod.pending)
    && |pod.channel| <= capacity
    && (forall c :: c in pod.channel ==> Known(issued, c) && !c.locked)
    && (forall c :: c in pod.started ==> Known(issued, c) && !c.locked)
    && (forall c :: c in pod.watching ==> Known(issued, c) && c.locked && c.lockedBy == p && Watched(c).Some?)
  }

  ghost predicate PodsOk(s: System) {
    forall p :: p in s.pods ==> PodOk(s.issued, s.capacity, p, s.pods[p])
  }

  /** An account is the escrow of the issued order it is named after, whatever its amount has become. */
  ghost predicate EscrowOf(issued: map<string, Request>, a: Account) {
    && a.id in issued
    && Native(issued[a.id].info.currency)
    && a.(amount := issued[a.id].amount) == EscrowAccount(issued[a.id])
  }

  ghost predicate LedgerOk(issued: map<string, Request>, accounts: seq<Account>) {
    && DistinctIds(accounts)
    && forall a :: a in accounts ==> EscrowOf(issued, a)
  }

  ghost predicate Has(cs: seq<Request>, t: string) {
    exists c :: c in cs && c.transactionId == t
  }

  /** Every order is still listed, done, or failed. */
  ghost predicate Covered(s: System) {
    forall t :: t in s.issued ==> Has(s.db.requests, t) || Has(s.done, t) || Has(s.db.failed, t)
  }

  ghost predicate Sound(s: System) {
    WellIssued(s.issued) && ListsOk(s) && PodsOk(s) && LedgerOk(s.issued, s.db.accounts) && Covered(s)
  }

  // ---------------------------------------------------------------- the stored list, step by step

  lemma KnownAgree(issued: map<string, Request>, rs: seq<Request>, r: Request)
    requires WellIssued(issued) && AllKnown(issued, rs) && Known(issued, r)
    ensures Requests.AllCanonical(rs) && Uuid.Canonical(r.awrid) && Requests.Agrees(rs, r)
  {}

  /** Storing a known copy. */
  lemma StoreKeeps(issued: map<string, Request>, db: Db, r: Request)
    requires WellIssued(issued) && AllKnown(issued, db.requests) && Requests.Unique(db.requests) && Known(issued, r)
    ensures var out := StoreRequest(db, r).requests;
      && AllKnown(issued, out) && Requests.Unique(out)
      && (forall c :: c in out <==> c == r || (c in db.requests && c.transactionId != r.transactionId))
  {
    KnownAgree(issued, db.requests, r);
    Requests.UpsertMembers(db.requests, r);
  }

  lemma Removes(rs: seq<Request>, tid: string)
    requires Requests.Unique(rs)
    ensures Requests.RemoveLoop(rs, tid) == Requests.Removed(Requests.Without(rs, tid))
    ensures Requests.Unique(Requests.Without(rs, tid))
    ensures forall c :: c in Requests.Without(rs, tid) <==> c in rs && c.transactionId != tid
  {}

  lemma BridgeLeavesLists(db: Db, c: Request, shimOk: bool)
    ensures CreateBridge(db, c, shimOk).db == db.(accounts := CreateBridge(db, c, shimOk).db.accounts)
  {}

  /**
   * A settled watch, with the list unique: bridging decides, and the request leaves the list if it is done or moved.
   */
  lemma SettleIs(db: Db, c: Request, result: string, shimOk: bool)
    requires Requests.Unique(db.requests)
    ensures var b := CreateBridge(StoreEscrow(db, c, result), c, shimOk);
      var o := Settle(db, c, result, shimOk);
      var moved := MovesToFailed(c, result, b);
      && o.status == b.status && o.transfers == b.transfers && o.db.accounts == b.db.accounts
      && o.db.failed == db.failed + (if moved then [c] else [])
      && o.db.requests == if b.status.Ok? || moved then Requests.Without(db.requests, c.transactionId) else db.requests
  {
    var b := CreateBridge(StoreEscrow(db, c, result), c, shimOk);
    assert b.db.requests == db.requests && b.db.failed == db.failed by {
      BridgeLeavesLists(StoreEscrow(db, c, result), c, shimOk);
    }
    Removes(db.requests, c.transactionId);
  }

  /** A fresh order joins those issued; nothing known before becomes unknown. */
  lemma IssueKeeps(s: System, r: Request)
    requires Sound(s) && Orderly(r, r.lockedBy) && r.transactionId !in s.issued
    requires forall t :: t in s.issued ==> s.issued[t].awrid != r.awrid
    ensures var issued := s.issued[r.transactionId := r];
      && WellIssued(issued) && Known(issued, r)
      && AllKnown(issued, s.db.requests) && AllKnown(issued, s.db.failed) && AllKnown(issued, s.done)
      && (forall p :: p in s.pods ==> PodOk(issued, s.capacity, p, s.pods[p]))
      && LedgerOk(issued, s.db.accounts)
  {
    var issued := s.issued[r.transactionId := r];
    forall c | Known(s.issued, c) ensures Known(issued, c) {}
    forall a | EscrowOf(s.issued, a) ensures EscrowOf(issued, a) {}
    forall p | p in s.pods ensures PodOk(issued, s.capacity, p, s.pods[p]) {
      assert PodOk(s.issued, s.capacity, p, s.pods[p]);
    }
  }

  lemma ConfirmKeeps(s: System, step: Step)
    requires Sound(s) && Enabled(s, step) && step.Confirm?
    ensures Sound(Next(s, step))
    ensures forall d :: d in Next(s, step).db.requests <==>
              d == step.order || (d in s.db.requests && d.transactionId != step.order.transactionId)
  {
    var s' := Next(s, step);
    var r := step.order;
    IssueKeeps(s, r);
    StoreKeeps(s'.issued, s.db, r);
    forall t | t in s'.issued ensures Has(s'.db.requests, t) || Has(s'.done, t) || Has(s'.db.failed, t) {
      if t == r.transactionId {
        assert r in s'.db.requests;
      } else if Has(s.db.requests, t) {
        var c :| c in s.db.requests && c.transactionId == t;
        assert c in s'.db.requests;
      }
    }
  }

  lemma DropFrom(xs: seq<Request>, k: nat)
    requires k < |xs|
    ensures forall c :: c in Drop(xs, k) ==> c in xs
    ensures forall c :: c in xs && c != xs[k] ==> c in Drop(xs, k)
  {}

  lemma QueueStepKeeps(s: System, step: Step)
    requires Sound(s) && Enabled(s, step) && (step.Tick? || step.Offer? || step.Receive? || step.Quit? || step.Kill?)
    ensures Sound(Next(s, step))
  {
    var s' := Next(s, step);
    var pod := s.pods[step.pod];
    assert PodOk(s.issued, s.capacity, step.pod, pod);
    if step.Quit? { DropFrom(pod.watching, step.k); }
    assert PodOk(s'.issued, s'.capacity, step.pod, s'.pods[step.pod]);
    forall p | p in s'.pods && p != step.pod ensures PodOk(s'.issued, s'.capacity, p, s'.pods[p]) {
      assert PodOk(s.issued, s.capacity, p, s.pods[p]);
    }
  }

  lemma ClaimKeeps(s: System, step: Step)
    requires Sound(s) && Enabled(s, step) && step.Claim?
    ensures Sound(Next(s, step))
    ensures var c := Claimed(s.pods[step.pod].started[step.k], step.pod, step.now);
      forall d :: d in Next(s, step).db.requests <==>
                  d == c || (d in s.db.requests && d.transactionId != c.transactionId)
  {
    var s' := Next(s, step);
    var pod := s.pods[step.pod];
    assert PodOk(s.issued, s.capacity, step.pod, pod);
    assert pod.started[step.k] in pod.started;
    var c := Claimed(pod.started[step.k], step.pod, step.now);
    StoreKeeps(s.issued, s.db, c);
    DropFrom(pod.started, step.k);
    assert PodOk(s'.issued, s'.capacity, step.pod, s'.pods[step.pod]);
    forall p | p in s'.pods && p != step.pod ensures PodOk(s'.issued, s'.capacity, p, s'.pods[p]) {
      assert PodOk(s.issued, s.capacity, p, s.pods[p]);
    }
    forall t | t in s'.issued ensures Has(s'.db.requests, t) || Has(s'.done, t) || Has(s'.db.failed, t) {
      if Has(s.db.requests, t) {
        var d :| d in s.db.requests && d.transactionId == t;
        assert c in s'.db.requests && (t != c.transactionId ==> d in s'.db.requests);
      }
    }
  }

  lemma UnlockKeeps(s: System, step: Step)
    requires Sound(s) && Enabled(s, step) && step.Unlock?
    ensures Sound(Next(s, step))
  {
    var s' := Next(s, step);
    Requests.UnlockUnique(s.db.requests, step.pod);
    forall d | d in s'.db.requests ensures Known(s'.issued, d) {
      var c := Requests.UnlockFrom(s.db.requests, step.pod, d);
    }
    forall p | p in s'.pods ensures PodOk(s'.issued, s'.capacity, p, s'.pods[p]) {
      assert PodOk(s.issued, s.capacity, p, s.pods[p]);
    }
    forall t | t in s'.issued ensures Has(s'.db.requests, t) || Has(s'.done, t) || Has(s'.db.failed, t) {
      if Has(s.db.requests, t) {
        var c :| c in s.db.requests && c.transactionId == t;
        Requests.UnlockHas(s.db.requests, step.pod, c);
        assert Requests.Freed(c, step.pod).transactionId == t;
      }
    }
  }

  // ---------------------------------------------------------------- the ledger, step by step

  lemma IdLengths(issued: map<string, Request>, accounts: seq<Account>)
    requires WellIssued(issued) && LedgerOk(issued, accounts)
    ensures LengthIds(accounts, 36)
  {
    forall i | 0 <= i < |accounts| ensures |accounts[i].id| == 36 {
      assert EscrowOf(issued, accounts[i]);
    }
  }

  /** Storing an order's escrow either adds its account or resets the amount of the one there. */
  lemma StoreEscrowIs(issued: map<string, Request>, db: Db, c: Request)
    requires WellIssued(issued) && LedgerOk(issued, db.accounts) && Known(issued, c) && Native(c.info.currency)
    ensures var out := StoreEscrow(db, c, SUCCESS).accounts;
      && LedgerOk(issued, out)
      && (|| ((forall a :: a in db.accounts ==> a.id != c.transactionId) && out == db.accounts + [EscrowAccount(c)])
          || (exists k :: && 0 <= k < |out| && db.accounts[k].id == c.transactionId
                          && out == db.accounts[k := EscrowAccount(c)]))
  {
    var bs := EscrowAccount(c);
    StoreShape(db.accounts, bs);
    if k :| 0 <= k < |db.accounts| && db.accounts[k].id == bs.id {
      assert Store(db.accounts, bs) == db.accounts[k := bs];
    } else {
      forall a | a in db.accounts ensures a.id != c.transactionId {}
    }
  }

  lemma StoreEscrowKeeps(issued: map<string, Request>, db: Db, c: Request, result: string)
    requires WellIssued(issued) && LedgerOk(issued, db.accounts) && Known(issued, c)
    ensures LedgerOk(issued, StoreEscrow(db, c, result).accounts)
  {
    if result == SUCCESS && Native(c.info.currency) { StoreEscrowIs(issued, db, c); }
  }

  lemma BridgeKeeps(issued: map<string, Request>, db: Db, c: Request, shimOk: bool)
    requires WellIssued(issued) && LedgerOk(issued, db.accounts)
    ensures LedgerOk(issued, CreateBridge(db, c, shimOk).db.accounts)
  {
    var out := CreateBridge(db, c, shimOk).db.accounts;
    if out != db.accounts {
      IdLengths(issued, db.accounts);
      var k := ReleaseDebits(db.accounts, c, 36);
      assert out == db.accounts[k := db.accounts[k].(amount := db.accounts[k].amount - c.amount)];
      assert EscrowOf(issued, db.accounts[k]);
      forall a | a in out ensures EscrowOf(issued, a) {
        assert a in db.accounts || a == out[k];
      }
    }
  }

  lemma FinishCovers(s: System, step: Step)
    requires Sound(s) && Enabled(s, step) && step.Finish?
    ensures Covered(Next(s, step))
  {
    var s' := Next(s, step);
    var c := s.pods[step.pod].watching[step.k];
    SettleIs(s.db, c, step.result, step.shimOk);
    Removes(s.db.requests, c.transactionId);
    forall t | t in s'.issued ensures Has(s'.db.requests, t) || Has(s'.done, t) || Has(s'.db.failed, t) {
      if Has(s.done, t) {
        var d :| d in s.done && d.transactionId == t;
        assert d in s'.done;
      } else if Has(s.db.failed, t) {
        var d :| d in s.db.failed && d.transactionId == t;
        assert d in s'.db.failed;
      } else {
        var d :| d in s.db.requests && d.transactionId == t;
        assert d in s'.db.requests || c in s'.done || c in s'.db.failed;
      }
    }
  }

  lemma FinishKeeps(s: System, step: Step)
    requires Sound(s) && Enabled(s, step) && step.Finish?
    ensures Sound(Next(s, step))
  {
    var s' := Next(s, step);
    var pod := s.pods[step.pod];
    assert PodOk(s.issued, s.capacity, step.pod, pod);
    var c := pod.watching[step.k];
    assert c in pod.watching;
    SettleIs(s.db, c, step.result, step.shimOk);
    Removes(s.db.requests, c.transactionId);
    StoreEscrowKeeps(s.issued, s.db, c, step.result);
    BridgeKeeps(s.issued, StoreEscrow(s.db, c, step.result), c, step.shimOk);
    DropFrom(pod.watching, step.k);
    assert PodOk(s'.issued, s'.capacity, step.pod, s'.pods[step.pod]);
    forall p | p in s'.pods && p != step.pod ensures PodOk(s'.issued, s'.capacity, p, s'.pods[p]) {
      assert PodOk(s.issued, s.capacity, p, s.pods[p]);
    }
    FinishCovers(s, step);
  }

  /** A settled watch can only take its own order out of the list. */
  lemma FinishRequests(s: System, step: Step)
    requires Sound(s) && Enabled(s, step) && step.Finish?
    ensures var c := s.pods[step.pod].watching[step.k];
      && (forall d :: d in s.db.requests && d.transactionId != c.transactionId ==> d in Next(s, step).db.requests)
      && (forall d :: d in Next(s, step).db.requests ==> d in s.db.requests)
  {
    var c := s.pods[step.pod].watching[step.k];
    SettleIs(s.db, c, step.result, step.shimOk);
    Removes(s.db.requests, c.transactionId);
  }

  lemma StepKeeps(s: System, step: Step)
    requires Sound(s) && Enabled(s, step)
    ensures Sound(Next(s, step))
  {
    match step {
      case Confirm(_, _) => ConfirmKeeps(s, step);
      case Claim(_, _, _) => ClaimKeeps(s, step);
      case Finish(_, _, _, _) => FinishKeeps(s, step);
      case Unlock(_) => UnlockKeeps(s, step);
      case _ => QueueStepKeeps(s, step);
    }
  }

  lemma {:induction false} RunKeeps(s: System, steps: seq<Step>)
    requires Sound(s) && Run(s, steps)
    ensures Sound(After(s, steps))
    decreases |steps|
  {
    if steps != [] {
      StepKeeps(s, steps[0]);
      RunKeeps(Next(s, steps[0]), steps[1..]);
    }
  }

  lemma InitIsSound(s: System)
    requires Init(s)
    ensures Sound(s)
  {}
}
