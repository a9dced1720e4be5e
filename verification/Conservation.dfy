/** Where each confirmed order is: in the active list, done, or failed. */
module Conservation {
  import opened BridgeTypes
  import opened Dispatching
  import opened Protocol
  import Requests

  /** In every run whatever, no confirmed order is ever lost, and the removal loop always finds at most one match. */
  lemma NeverLost(s: System, steps: seq<Step>)
    requires Init(s) && Run(s, steps)
    ensures var e := After(s, steps);
      && (forall t :: t in e.issued ==> Has(e.db.requests, t) || Has(e.done, t) || Has(e.db.failed, t))
      && (forall t :: Requests.AtMostOne(e.db.requests, t))
      && Requests.Unique(e.db.requests)
  {
    RunKeeps(s, steps);
    var e := After(s, steps);
    forall t ensures Requests.AtMostOne(e.db.requests, t) { Requests.WithoutUnique(e.db.requests, t); }
  }

  // ---------------------------------------------------------------- one place for each order

  ghost predicate Exclusive(s: System) {
    forall t :: && !(Has(s.db.requests, t) && Has(s.done, t))
                && !(Has(s.db.requests, t) && Has(s.db.failed, t))
                && !(Has(s.done, t) && Has(s.db.failed, t))
  }

  /** Two watchers hold the same order. */
  ghost predicate Share(pods: map<string, Pod>, p: string, i: int, q: string, j: int) {
    && p in pods && 0 <= i < |pods[p].watching|
    && q in pods && 0 <= j < |pods[q].watching|
    && pods[p].watching[i].transactionId == pods[q].watching[j].transactionId
  }

  ghost predicate NoneShare(pods: map<string, Pod>) {
    forall p, q, i, j :: Share(pods, p, i, q, j) ==> p == q && i == j
  }

  /**
   * Each confirmed order is in exactly one of the active list, done, and failed; and no two watchers, on one pod or
   * on two, hold the same order.
   */
  ghost predicate OnePlace(s: System) {
    Covered(s) && Exclusive(s) && NoneShare(s.pods)
  }

  ghost predicate Unwatched(pods: map<string, Pod>, t: string) {
    forall p, c :: p in pods && c in pods[p].watching ==> c.transactionId != t
  }

  /** A claim is of an order that is in the active list and that nobody watches, from however old a snapshot. */
  ghost predicate FreeClaim(s: System, step: Step) {
    step.Claim? && step.pod in s.pods && step.k < |s.pods[step.pod].started| ==>
      var t := s.pods[step.pod].started[step.k].transactionId; Has(s.db.requests, t) && Unwatched(s.pods, t)
  }

  // ---------------------------------------------------------------- what free claims keep

  /** Watched orders are in the active list, locked or, while their pod is shutting down, unlocked. */
  ghost predicate Listed(requests: seq<Request>, pods: map<string, Pod>) {
    forall p, c :: p in pods && c in pods[p].watching ==> Has(requests, c.transactionId)
  }

  ghost predicate Conserved(s: System) {
    Sound(s) && OnePlace(s) && Listed(s.db.requests, s.pods)
  }

  lemma ConfirmLists(s: System, step: Step, t: string)
    requires Sound(s) && Enabled(s, step) && step.Confirm?
    ensures Has(Next(s, step).db.requests, t) <==> Has(s.db.requests, t) || t == step.order.transactionId
    ensures t == step.order.transactionId ==> !Has(s.db.requests, t) && !Has(s.done, t) && !Has(s.db.failed, t)
  {
    ConfirmKeeps(s, step);
    assert step.order in Next(s, step).db.requests;
    if d :| d in s.db.requests && d.transactionId == t { assert d in Next(s, step).db.requests; }
  }

  lemma ConfirmExclusive(s: System, step: Step)
    requires Sound(s) && Exclusive(s) && Enabled(s, step) && step.Confirm?
    ensures Exclusive(Next(s, step))
  {
    forall t { ConfirmLists(s, step, t); }
  }

  lemma ConfirmConserves(s: System, step: Step)
    requires Conserved(s) && Enabled(s, step) && step.Confirm?
    ensures Conserved(Next(s, step))
  {
    ConfirmKeeps(s, step);
    ConfirmExclusive(s, step);
    forall t { ConfirmLists(s, step, t); }
  }

  /** What a claim leaves listed: what was, and its own order. */
  lemma ClaimLists(s: System, step: Step, t: string)
    requires Sound(s) && Enabled(s, step) && step.Claim?
    ensures Has(Next(s, step).db.requests, t) <==>
            Has(s.db.requests, t) || t == s.pods[step.pod].started[step.k].transactionId
  {
    ClaimKeeps(s, step);
    var c := Claimed(s.pods[step.pod].started[step.k], step.pod, step.now);
    assert c in Next(s, step).db.requests;
    if d :| d in s.db.requests && d.transactionId == t {
      assert d in Next(s, step).db.requests || t == c.transactionId;
    }
  }

  lemma ClaimWatches(s: System, step: Step) returns (c: Request)
    requires Sound(s) && Enabled(s, step) && step.Claim?
    ensures c == Claimed(s.pods[step.pod].started[step.k], step.pod, step.now) && Known(s.issued, c)
    ensures Next(s, step).pods == s.pods[step.pod := Next(s, step).pods[step.pod]]
    ensures Next(s, step).pods[step.pod].watching == s.pods[step.pod].watching + if Watched(c).Some? then [c] else []
  {
    c := Claimed(s.pods[step.pod].started[step.k], step.pod, step.now);
    assert PodOk(s.issued, s.capacity, step.pod, s.pods[step.pod]);
    assert s.pods[step.pod].started[step.k] in s.pods[step.pod].started;
  }

  /** One more watcher, of an order nobody watched. */
  lemma AddWatcher(pods: map<string, Pod>, p: string, pod: Pod, c: Request)
    requires NoneShare(pods) && p in pods && Unwatched(pods, c.transactionId)
    requires pod.watching == pods[p].watching || pod.watching == pods[p].watching + [c]
    ensures NoneShare(pods[p := pod])
  {
    var more := pods[p := pod];
    forall a, b, i, j | Share(more, a, i, b, j) ensures a == b && i == j {
      var newA, newB := a == p && i == |pods[p].watching|, b == p && j == |pods[p].watching|;
      if !newA && !newB { assert Share(pods, a, i, b, j); }
    }
  }

  lemma ClaimKeepsListed(s: System, step: Step)
    requires Conserved(s) && Enabled(s, step) && step.Claim?
    ensures Listed(Next(s, step).db.requests, Next(s, step).pods)
  {
    var s' := Next(s, step);
    var c := ClaimWatches(s, step);
    forall p, d | p in s'.pods && d in s'.pods[p].watching ensures Has(s'.db.requests, d.transactionId) {
      ClaimLists(s, step, d.transactionId);
      assert d in s.pods[p].watching || d == c;
    }
  }

  lemma ClaimConserves(s: System, step: Step)
    requires Conserved(s) && Enabled(s, step) && step.Claim? && FreeClaim(s, step)
    ensures Conserved(Next(s, step))
  {
    StepKeeps(s, step);
    ClaimKeepsListed(s, step);
    var c := ClaimWatches(s, step);
    AddWatcher(s.pods, step.pod, Next(s, step).pods[step.pod], c);
    forall t ensures Has(Next(s, step).db.requests, t) ==> Has(s.db.requests, t) { ClaimLists(s, step, t); }
  }

  /** One watcher less: its order is no longer watched. */
  lemma DropWatcher(pods: map<string, Pod>, p: string, k: nat, pod: Pod)
    requires NoneShare(pods) && p in pods && k < |pods[p].watching| && pod.watching == Drop(pods[p].watching, k)
    ensures NoneShare(pods[p := pod]) && Unwatched(pods[p := pod], pods[p].watching[k].transactionId)
  {
    var less := pods[p := pod];
    forall a, b, i, j | Share(less, a, i, b, j) ensures a == b && i == j {
      assert Share(pods, a, if a == p && i >= k then i + 1 else i, b, if b == p && j >= k then j + 1 else j);
    }
    forall a, d | a in less && d in less[a].watching ensures d.transactionId != pods[p].watching[k].transactionId {
      var i :| 0 <= i < |less[a].watching| && less[a].watching[i] == d;
      if d.transactionId == pods[p].watching[k].transactionId {
        assert Share(pods, a, if a == p && i >= k then i + 1 else i, p, k);
      }
    }
  }

  /** A pod's watchers all gone. */
  lemma LosePod(pods: map<string, Pod>, p: string)
    requires NoneShare(pods) && p in pods
    ensures NoneShare(pods[p := IDLE])
    ensures forall c :: c in pods[p].watching ==> Unwatched(pods[p := IDLE], c.transactionId)
  {
    var less := pods[p := IDLE];
    forall a, b, i, j | Share(less, a, i, b, j) ensures a == b && i == j { assert Share(pods, a, i, b, j); }
    forall c, a, d | c in pods[p].watching && a in less && d in less[a].watching
      ensures d.transactionId != c.transactionId
    {
      var k :| 0 <= k < |pods[p].watching| && pods[p].watching[k] == c;
      var i :| 0 <= i < |pods[a].watching| && pods[a].watching[i] == d;
      if d.transactionId == c.transactionId { assert Share(pods, a, i, p, k); }
    }
  }

  /** After a dispatch its order is watched no more, and on a panic no order of the pod is. */
  lemma FinishWatches(s: System, step: Step)
    requires Conserved(s) && Enabled(s, step) && step.Finish?
    ensures NoneShare(Next(s, step).pods)
    ensures Unwatched(Next(s, step).pods, s.pods[step.pod].watching[step.k].transactionId)
    ensures forall p, d :: p in s.pods && d in Next(s, step).pods[p].watching ==> d in s.pods[p].watching
  {
    var pod := Next(s, step).pods[step.pod];
    assert Next(s, step).pods == s.pods[step.pod := pod];
    if Settle(s.db, s.pods[step.pod].watching[step.k], step.result, step.shimOk).status.Panicked? {
      LosePod(s.pods, step.pod);
      assert s.pods[step.pod].watching[step.k] in s.pods[step.pod].watching;
    } else {
      DropWatcher(s.pods, step.pod, step.k, pod);
      DropFrom(s.pods[step.pod].watching, step.k);
    }
  }

  lemma WatchedIsListed(s: System, p: string, k: nat)
    requires Conserved(s) && p in s.pods && k < |s.pods[p].watching|
    ensures var t := s.pods[p].watching[k].transactionId;
      Has(s.db.requests, t) && !Has(s.done, t) && !Has(s.db.failed, t)
  {}

  lemma FinishMoves(s: System, step: Step)
    requires Conserved(s) && Enabled(s, step) && step.Finish?
    ensures Exclusive(Next(s, step))
  {
    var s' := Next(s, step);
    var c := s.pods[step.pod].watching[step.k];
    SettleIs(s.db, c, step.result, step.shimOk);
    Removes(s.db.requests, c.transactionId);
    WatchedIsListed(s, step.pod, step.k);
    forall t | t != c.transactionId
      ensures Has(s'.db.requests, t) ==> Has(s.db.requests, t)
      ensures Has(s'.done, t) ==> Has(s.done, t)
      ensures Has(s'.db.failed, t) ==> Has(s.db.failed, t)
    {}
  }

  lemma FinishConserves(s: System, step: Step)
    requires Conserved(s) && Enabled(s, step) && step.Finish?
    ensures Conserved(Next(s, step))
  {
    var s' := Next(s, step);
    StepKeeps(s, step);
    FinishMoves(s, step);
    FinishWatches(s, step);
    FinishRequests(s, step);
    forall p, d | p in s'.pods && d in s'.pods[p].watching ensures Has(s'.db.requests, d.transactionId) {
      assert d in s.pods[p].watching;
      var r :| r in s.db.requests && r.transactionId == d.transactionId;
      assert r in s'.db.requests;
    }
  }

  lemma UnlockHasSame(requests: seq<Request>, p: string, t: string)
    ensures Has(Requests.UnlockPod(requests, p), t) <==> Has(requests, t)
  {
    if c :| c in requests && c.transactionId == t {
      Requests.UnlockHas(requests, p, c);
      assert Requests.Freed(c, p).transactionId == t;
    }
    if d :| d in Requests.UnlockPod(requests, p) && d.transactionId == t {
      var c := Requests.UnlockFrom(requests, p, d);
    }
  }

  lemma UnlockConserves(s: System, step: Step)
    requires Conserved(s) && Enabled(s, step) && step.Unlock?
    ensures Conserved(Next(s, step))
  {
    UnlockKeeps(s, step);
    forall t ensures Has(Next(s, step).db.requests, t) <==> Has(s.db.requests, t) {
      UnlockHasSame(s.db.requests, step.pod, t);
    }
  }

  lemma SameWatchers(pods: map<string, Pod>, p: string, pod: Pod)
    requires NoneShare(pods) && p in pods && pod.watching == pods[p].watching
    ensures NoneShare(pods[p := pod])
  {
    var same := pods[p := pod];
    forall a, b, i, j | Share(same, a, i, b, j) ensures a == b && i == j { assert Share(pods, a, i, b, j); }
  }

  lemma QueueStepConserves(s: System, step: Step)
    requires Conserved(s) && Enabled(s, step)
    requires step.Tick? || step.Offer? || step.Receive? || step.Quit? || step.Kill?
    ensures Conserved(Next(s, step))
  {
    var pod := Next(s, step).pods[step.pod];
    StepKeeps(s, step);
    assert Next(s, step).pods == s.pods[step.pod := pod];
    if step.Quit? {
      DropWatcher(s.pods, step.pod, step.k, pod);
      DropFrom(s.pods[step.pod].watching, step.k);
    } else if step.Kill? {
      LosePod(s.pods, step.pod);
    } else {
      SameWatchers(s.pods, step.pod, pod);
    }
  }

  lemma StepConserves(s: System, step: Step)
    requires Conserved(s) && Enabled(s, step) && FreeClaim(s, step)
    ensures Conserved(Next(s, step))
  {
    match step {
      case Confirm(_, _) => ConfirmConserves(s, step);
      case Claim(_, _, _) => ClaimConserves(s, step);
      case Finish(_, _, _, _) => FinishConserves(s, step);
      case Unlock(_) => UnlockConserves(s, step);
      case _ => QueueStepConserves(s, step);
    }
  }

  lemma InitIsConserved(s: System)
    requires Init(s)
    ensures Conserved(s)
  {}

  // ---------------------------------------------------------------- exactly when

  /** Claiming an order that p watches makes two watchers of it. */
  lemma SecondWatcher(s: System, step: Step, p: string, d: Request)
    requires Sound(s) && Enabled(s, step) && step.Claim? && p in s.pods && d in s.pods[p].watching
    requires d.transactionId == s.pods[step.pod].started[step.k].transactionId
    ensures !NoneShare(Next(s, step).pods)
  {
    var c := ClaimWatches(s, step);
    assert PodOk(s.issued, s.capacity, p, s.pods[p]);
    assert Watched(c) == Watched(d);
    var i :| 0 <= i < |s.pods[p].watching| && s.pods[p].watching[i] == d;
    assert Next(s, step).pods[p].watching[i] == d;
    assert Share(Next(s, step).pods, p, i, step.pod, |s.pods[step.pod].watching|);
  }

  /** A claim that is not free breaks it: it lists a settled order again, or watches an order a second time. */
  lemma OnlyFreeClaims(s: System, step: Step)
    requires Sound(s) && Enabled(s, step) && OnePlace(Next(s, step))
    ensures FreeClaim(s, step)
  {
    if step.Claim? {
      var c := ClaimWatches(s, step);
      ClaimLists(s, step, c.transactionId);
      forall p, d | p in s.pods && d in s.pods[p].watching ensures d.transactionId != c.transactionId {
        if d.transactionId == c.transactionId { SecondWatcher(s, step, p, d); }
      }
    }
  }

  /** A step keeps every order in one place exactly when it is not a claim of a settled or watched order. */
  lemma ClaimKeepsApartExactlyWhen(s: System, step: Step)
    requires Conserved(s) && Enabled(s, step)
    ensures Conserved(Next(s, step)) <==> FreeClaim(s, step)
    ensures OnePlace(Next(s, step)) <==> FreeClaim(s, step)
  {
    if FreeClaim(s, step) {
      StepConserves(s, step);
    } else if OnePlace(Next(s, step)) {
      OnlyFreeClaims(s, step);
    }
  }

  lemma {:induction false} OnePlaceThroughout(s: System, steps: seq<Step>)
    requires Conserved(s) && Run(s, steps)
    ensures Throughout(OnePlace, s, steps) <==> Each(FreeClaim, s, steps)
    decreases |steps|
  {
    if steps != [] {
      ClaimKeepsApartExactlyWhen(s, steps[0]);
      if FreeClaim(s, steps[0]) {
        OnePlaceThroughout(Next(s, steps[0]), steps[1..]);
      }
    }
  }

  /**
   * A run, from the start, has every order in one place all along exactly when every claim is free, through locking,
   * success, failed dispatch, read errors, shutdowns and pods killed.
   */
  lemma ExactlyOnePlace(s: System, steps: seq<Step>)
    requires Init(s) && Run(s, steps)
    ensures Throughout(OnePlace, s, steps) <==> Each(FreeClaim, s, steps)
  {
    InitIsConserved(s);
    OnePlaceThroughout(s, steps);
  }

  // ---------------------------------------------------------------- the three lists alone

  lemma HasMore(cs: seq<Request>, c: Request, t: string)
    ensures Has(cs + [c], t) <==> Has(cs, t) || t == c.transactionId
  {}

  /** A watch's dispatch and all its loop does about it report the same. */
  lemma DispatchStatus(db: Db, c: Request, result: string, shimOk: bool)
    requires Requests.Unique(db.requests)
    ensures var b, o := CreateBridge(StoreEscrow(db, c, result), c, shimOk), Dispatch(db, c, result, shimOk);
      o.status == b.status == Settle(db, c, result, shimOk).status
  {
    SettleIs(db, c, result, shimOk);
    Removes(db.requests, c.transactionId);
  }

  /**
   * The lists alone ask less: a claim of a listed order, watched or not; and a dispatch that does not make done an
   * order that has failed, nor move to the failed list one that is done.
   */
  ghost predicate KeepsApart(s: System, step: Step) {
    match step
    case Claim(p, k, _) =>
      p in s.pods && k < |s.pods[p].started| ==> Has(s.db.requests, s.pods[p].started[k].transactionId)
    case Finish(p, k, result, shimOk) =>
      p in s.pods && k < |s.pods[p].watching| ==>
        var c := s.pods[p].watching[k];
        var o := Dispatch(s.db, c, result, shimOk);
        && (o.status.Ok? ==> !Has(s.db.failed, c.transactionId))
        && (MovesToFailed(c, result, o) ==> !Has(s.done, c.transactionId))
    case _ => true
  }

  lemma ClaimApart(s: System, step: Step)
    requires Sound(s) && Exclusive(s) && Enabled(s, step) && step.Claim?
    ensures Exclusive(Next(s, step)) <==> KeepsApart(s, step)
  {
    var c := ClaimWatches(s, step);
    forall t ensures Has(Next(s, step).db.requests, t) <==> Has(s.db.requests, t) || t == c.transactionId {
      ClaimLists(s, step, t);
    }
  }

  /** Where a dispatch leaves its order and every other. */
  lemma FinishPlaces(s: System, step: Step, t: string)
    requires Sound(s) && Enabled(s, step) && step.Finish?
    ensures var c, s' := s.pods[step.pod].watching[step.k], Next(s, step);
      var o := Dispatch(s.db, c, step.result, step.shimOk);
      var moved := MovesToFailed(c, step.result, o);
      && (Has(s'.done, t) <==> Has(s.done, t) || (o.status.Ok? && t == c.transactionId))
      && (Has(s'.db.failed, t) <==> Has(s.db.failed, t) || (moved && t == c.transactionId))
      && (Has(s'.db.requests, t) <==> Has(s.db.requests, t) && !((o.status.Ok? || moved) && t == c.transactionId))
  {
    var c, s' := s.pods[step.pod].watching[step.k], Next(s, step);
    DispatchStatus(s.db, c, step.result, step.shimOk);
    SettleIs(s.db, c, step.result, step.shimOk);
    Removes(s.db.requests, c.transactionId);
    HasMore(s.done, c, t);
    HasMore(s.db.failed, c, t);
    assert s.done + [] == s.done && s.db.failed + [] == s.db.failed;
    if r :| r in s.db.requests && r.transactionId == t { assert t != c.transactionId ==> r in s'.db.requests; }
  }

  lemma FinishApart(s: System, step: Step)
    requires Sound(s) && Exclusive(s) && Enabled(s, step) && step.Finish?
    ensures Exclusive(Next(s, step)) <==> KeepsApart(s, step)
  {
    forall t { FinishPlaces(s, step, t); }
  }

  /** From any sound state, a step keeps the three lists apart exactly when it asks no more than that. */
  lemma ListsApartExactlyWhen(s: System, step: Step)
    requires Sound(s) && Exclusive(s) && Enabled(s, step)
    ensures Exclusive(Next(s, step)) <==> KeepsApart(s, step)
  {
    match step {
      case Confirm(_, _) => ConfirmExclusive(s, step);
      case Claim(_, _, _) => ClaimApart(s, step);
      case Finish(_, _, _, _) => FinishApart(s, step);
      case Unlock(p) => forall t { UnlockHasSame(s.db.requests, p, t); }
      case _ =>
    }
  }

  lemma {:induction false} ListsApartThroughout(s: System, steps: seq<Step>)
    requires Sound(s) && Exclusive(s) && Run(s, steps)
    ensures Throughout(Exclusive, s, steps) <==> Each(KeepsApart, s, steps)
    decreases |steps|
  {
    if steps != [] {
      ListsApartExactlyWhen(s, steps[0]);
      if KeepsApart(s, steps[0]) {
        StepKeeps(s, steps[0]);
        ListsApartThroughout(Next(s, steps[0]), steps[1..]);
      }
    }
  }

  // ---------------------------------------------------------------- abandoned watches

  /** A routed order stored locked that no watcher holds. */
  ghost predicate Stranded(s: System, r: Request) {
    r in s.db.requests && r.locked && Watched(r).Some? && Unwatched(s.pods, r.transactionId)
  }

  /** The step ends the watch of c, or the pod it is on, without settling or moving the order. */
  ghost predicate Abandons(s: System, step: Step, c: Request)
    requires Enabled(s, step)
  {
    var watching := s.pods[step.pod].watching;
    match step
    case Quit(_, k) => c == watching[k]
    case Finish(_, k, result, shimOk) =>
      var o := Dispatch(s.db, watching[k], result, shimOk);
      o.status.Panicked? || (c == watching[k] && o.status.Err? && !MovesToFailed(c, result, o))
    case Kill(_) => true
    case _ => false
  }

  /** A settled order's record stays in the list unless it is done or moved. */
  lemma SettledRecord(db: Db, c: Request, result: string, shimOk: bool)
    requires Requests.Unique(db.requests)
    ensures var o := Dispatch(db, c, result, shimOk);
      && Settle(db, c, result, shimOk).status == o.status
      && (c in Settle(db, c, result, shimOk).db.requests <==>
            c in db.requests && !o.status.Ok? && !MovesToFailed(c, result, o))
  {
    SettleIs(db, c, result, shimOk);
    Removes(db.requests, c.transactionId);
  }

  lemma Distinct(pods: map<string, Pod>, p: string, k: nat, c: Request)
    requires NoneShare(pods) && p in pods && k < |pods[p].watching| && c in pods[p].watching && c != pods[p].watching[k]
    ensures c.transactionId != pods[p].watching[k].transactionId
  {
    var i :| 0 <= i < |pods[p].watching| && pods[p].watching[i] == c;
    assert !Share(pods, p, i, p, k);
  }

  lemma FinishStrands(s: System, step: Step, c: Request)
    requires Conserved(s) && Enabled(s, step) && step.Finish? && c in s.pods[step.pod].watching
    requires c in s.db.requests && c.locked && Watched(c).Some?
    ensures Stranded(Next(s, step), c) <==> Abandons(s, step, c)
  {
    var pod := s.pods[step.pod];
    var w := pod.watching[step.k];
    SettledRecord(s.db, w, step.result, step.shimOk);
    FinishRequests(s, step);
    FinishWatches(s, step);
    if Settle(s.db, w, step.result, step.shimOk).status.Panicked? {
      LosePod(s.pods, step.pod);
      if c != w { Distinct(s.pods, step.pod, step.k, c); }
    } else if c != w {
      DropFrom(pod.watching, step.k);
      assert c in Next(s, step).pods[step.pod].watching;
    }
  }

  lemma QuitStrands(s: System, step: Step, c: Request)
    requires Conserved(s) && Enabled(s, step) && step.Quit? && c in s.pods[step.pod].watching
    requires c in s.db.requests && c.locked && Watched(c).Some?
    ensures Stranded(Next(s, step), c) <==> Abandons(s, step, c)
  {
    var pod := Next(s, step).pods[step.pod];
    assert Next(s, step).pods == s.pods[step.pod := pod];
    if c == s.pods[step.pod].watching[step.k] {
      DropWatcher(s.pods, step.pod, step.k, pod);
    } else {
      DropFrom(s.pods[step.pod].watching, step.k);
      assert c in pod.watching;
    }
  }

  lemma StillWatched(s: System, step: Step, c: Request)
    requires Enabled(s, step) && c in s.pods[step.pod].watching
    requires step.Confirm? || step.Tick? || step.Offer? || step.Receive? || step.Claim? || step.Unlock?
    ensures c in Next(s, step).pods[step.pod].watching
  {}

  /**
   * An order watched under its lock is stranded by a step exactly when the step abandons its watch: a failed or short
   * read, a dispatch refused outside the native-coin loop or after a time-out, a pod dead.
   */
  lemma StrandsExactlyWhen(s: System, step: Step, c: Request)
    requires Conserved(s) && Enabled(s, step) && c in s.pods[step.pod].watching && c in s.db.requests
    ensures Stranded(Next(s, step), c) <==> Abandons(s, step, c)
  {
    assert c.locked && Watched(c).Some? by { assert PodOk(s.issued, s.capacity, step.pod, s.pods[step.pod]); }
    match step {
      case Finish(_, _, _, _) => FinishStrands(s, step, c);
      case Quit(_, _) => QuitStrands(s, step, c);
      case Kill(_) => LosePod(s.pods, step.pod);
      case _ => StillWatched(s, step, c);
    }
  }

  /** The step unlocks a stranded record, or claims its order anew from a copy read before the record was locked. */
  ghost predicate Frees(s: System, step: Step, r: Request) {
    || step == Unlock(r.lockedBy)
    || (step.Claim? && step.pod in s.pods && step.k < |s.pods[step.pod].started|
        && s.pods[step.pod].started[step.k].transactionId == r.transactionId)
  }

  lemma StrandedRecordStays(s: System, step: Step, r: Request)
    requires Sound(s) && Stranded(s, r) && Enabled(s, step) && !Frees(s, step, r)
    ensures r in Next(s, step).db.requests
  {
    if step.Confirm? {
      ConfirmKeeps(s, step);
      assert Known(s.issued, r);
    } else if step.Claim? {
      ClaimKeeps(s, step);
    } else if step.Finish? {
      FinishRequests(s, step);
      assert s.pods[step.pod].watching[step.k] in s.pods[step.pod].watching;
    } else if step.Unlock? {
      Requests.UnlockHas(s.db.requests, step.pod, r);
    }
  }

  lemma FreedIsNotStranded(s: System, step: Step, r: Request)
    requires Sound(s) && Stranded(s, r) && Enabled(s, step) && Frees(s, step, r)
    ensures !Stranded(Next(s, step), r)
  {
    if step.Unlock? {
      if r in Next(s, step).db.requests { var d := Requests.UnlockFrom(s.db.requests, step.pod, r); }
    } else {
      var pod := s.pods[step.pod];
      assert PodOk(s.issued, s.capacity, step.pod, pod) && pod.started[step.k] in pod.started;
      var c := Claimed(pod.started[step.k], step.pod, step.now);
      assert Known(s.issued, r) && Watched(c) == Watched(r);
      assert c in Next(s, step).pods[step.pod].watching;
    }
  }

  lemma StrandedStays(s: System, step: Step, r: Request)
    requires Sound(s) && Stranded(s, r) && Enabled(s, step)
    ensures Stranded(Next(s, step), r) <==> !Frees(s, step, r)
  {
    if Frees(s, step, r) {
      FreedIsNotStranded(s, step, r);
    } else {
      StrandedRecordStays(s, step, r);
      if step.Finish? || step.Quit? { DropFrom(s.pods[step.pod].watching, step.k); }
    }
  }

  /** In any run at all, a stranded order stays as it is exactly as long as nothing frees it. */
  lemma {:induction false} StrandedUntilFreed(s: System, steps: seq<Step>, r: Request)
    requires Sound(s) && Stranded(s, r) && Run(s, steps)
    ensures Throughout(e => Stranded(e, r), s, steps) <==> Each((e, step) => !Frees(e, step, r), s, steps)
    decreases |steps|
  {
    if steps != [] {
      StrandedStays(s, steps[0], r);
      if !Frees(s, steps[0], r) {
        StepKeeps(s, steps[0]);
        StrandedUntilFreed(Next(s, steps[0]), steps[1..], r);
      }
    }
  }

  /**
   * A watch that a step abandons leaves its order locked and unwatched in the list all along the rest of the run
   * exactly when its own pod never unlocks and no older copy of it is claimed.
   */
  lemma AbandonedUntilFreed(s: System, step: Step, c: Request, rest: seq<Step>)
    requires Conserved(s) && Enabled(s, step) && c in s.pods[step.pod].watching && c in s.db.requests
    requires Abandons(s, step, c)
    requires Run(Next(s, step), rest)
    ensures Throughout(e => Stranded(e, c), Next(s, step), rest) <==>
            Each((e, later) => !Frees(e, later, c), Next(s, step), rest)
  {
    StrandsExactlyWhen(s, step, c);
    StepKeeps(s, step);
    StrandedUntilFreed(Next(s, step), rest, c);
  }
}
