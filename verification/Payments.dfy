/** Every transfer the shims ever make is what some confirmed order asks for. */
module Payments {
  import opened BridgeTypes
  import opened Routes
  import opened Ledger
  import opened Dispatching
  import opened Protocol
  import opened Conservation
  import opened Backing

  /** The group an order mints to, if it is of a native coin, or is released from. */
  function OrderGroup(r: Request): Group {
    if Native(r.info.currency) then Group(r.info.currency, r.info.bridgeTo)
    else Group(Unwrapped(r.info.currency), r.chain)
  }

  /**
   * A mint is of the ordered amount, to the ordered address, by the shim of the order's group. A release is too, and
   * the key it was sent is the escrow key of the deposit it debits, an order minted to that same group.
   */
  ghost predicate AsOrdered(issued: map<string, Request>, tr: Transfer) {
    && tr.tid in issued
    && var r := issued[tr.tid];
    && tr.amount == r.amount && tr.to == r.info.shippingAddress
    && tr.group == OrderGroup(r) && tr.shim == ShimOf(tr.group)
    && (tr.Minted? <==> Native(r.info.currency))
    && (tr.Released? && tr.payer.Some? ==>
          && tr.payer.value in issued
          && var deposit := issued[tr.payer.value];
          && Native(deposit.info.currency) && OrderGroup(deposit) == tr.group && tr.fromKey == deposit.info.escrowKey)
    && (tr.Released? && tr.payer.None? ==> tr.fromKey == "")
    && (tr.Released? ==> tr.endpoint == if tr.group.asset == BSCUSDT then "/transferBSCUSDT" else "/transfer")
  }

  ghost predicate AllAsOrdered(issued: map<string, Request>, transfers: seq<Transfer>) {
    forall tr :: tr in transfers ==> AsOrdered(issued, tr)
  }

  lemma MintAsOrdered(issued: map<string, Request>, db: Db, c: Request, shimOk: bool)
    requires Known(issued, c) && Watched(c).Some? && Native(c.info.currency)
    ensures AllAsOrdered(issued, MintWrapped(db, c, shimOk).transfers)
  {}

  lemma ReleaseAsOrdered(issued: map<string, Request>, db: Db, c: Request, shimOk: bool)
    requires Known(issued, c) && Watched(c).Some? && !Native(c.info.currency) && c.info.bridgeFrom == c.chain
    requires LedgerOk(issued, db.accounts)
    ensures AllAsOrdered(issued, ReleaseNative(db, c, shimOk).transfers)
  {
    WatchedIsBridged(c.chain, c.info.bridgeTo, c.info.currency);
    FoundExactlyWhen(db.accounts, c);
    match Retrieve(db.accounts, c) {
      case Found(a) =>
        assert EscrowOf(issued, a);
      case _ =>
    }
  }

  /** Whatever a watch's result, its copy is the order's, and so are the transfers of its dispatch. */
  lemma FinishAsOrdered(s: System, step: Step)
    requires Sound(s) && Enabled(s, step) && step.Finish?
    ensures var c := s.pods[step.pod].watching[step.k];
      AllAsOrdered(s.issued, Settle(s.db, c, step.result, step.shimOk).transfers)
  {
    var c := WatchedCopy(s, step);
    assert PodOk(s.issued, s.capacity, step.pod, s.pods[step.pod]) && c in s.pods[step.pod].watching;
    SettleIs(s.db, c, step.result, step.shimOk);
    var stored := StoreEscrow(s.db, c, step.result);
    if Native(c.info.currency) {
      MintAsOrdered(s.issued, stored, c, step.shimOk);
    } else {
      ReleaseAsOrdered(s.issued, stored, c, step.shimOk);
    }
  }

  lemma FinishTransfers(s: System, step: Step)
    requires Enabled(s, step) && step.Finish?
    ensures Next(s, step).issued == s.issued
    ensures Next(s, step).transfers ==
            s.transfers + Settle(s.db, s.pods[step.pod].watching[step.k], step.result, step.shimOk).transfers
  {}

  lemma MoreIssued(issued: map<string, Request>, more: map<string, Request>, transfers: seq<Transfer>)
    requires AllAsOrdered(issued, transfers)
    requires forall t :: t in issued ==> t in more && more[t] == issued[t]
    ensures AllAsOrdered(more, transfers)
  {}

  lemma StepAsOrdered(s: System, step: Step)
    requires Sound(s) && AllAsOrdered(s.issued, s.transfers) && Enabled(s, step)
    ensures AllAsOrdered(Next(s, step).issued, Next(s, step).transfers)
  {
    if step.Finish? {
      FinishAsOrdered(s, step);
      FinishTransfers(s, step);
    } else {
      QuietStep(s, step);
      MoreIssued(s.issued, Next(s, step).issued, s.transfers);
    }
  }

  lemma {:induction false} RunAsOrdered(s: System, steps: seq<Step>)
    requires Sound(s) && AllAsOrdered(s.issued, s.transfers) && Run(s, steps)
    ensures AllAsOrdered(After(s, steps).issued, After(s, steps).transfers)
    decreases |steps|
  {
    if steps != [] {
      StepKeeps(s, steps[0]);
      StepAsOrdered(s, steps[0]);
      RunAsOrdered(Next(s, steps[0]), steps[1..]);
    }
  }

  /** In every run whatever, from the start. */
  lemma EveryTransferAsOrdered(s: System, steps: seq<Step>)
    requires Init(s) && Run(s, steps)
    ensures AllAsOrdered(After(s, steps).issued, After(s, steps).transfers)
  {
    InitIsSound(s);
    RunAsOrdered(s, steps);
  }

  // ---------------------------------------------------------------- each order once

  /** A release that found the ledger empty: the shim has paid, no account has, and the pod has panicked. */
  predicate FromNobody(tr: Transfer) {
    tr.Released? && tr.payer.None?
  }

  /** Some account, or a mint, has paid what the order asks for. */
  ghost predicate Paid(transfers: seq<Transfer>, t: string) {
    exists tr :: tr in transfers && tr.tid == t && !FromNobody(tr)
  }

  /** An order is done exactly when it has been paid. */
  ghost predicate DoneIsPaid(done: seq<Request>, transfers: seq<Transfer>) {
    forall t :: Has(done, t) <==> Paid(transfers, t)
  }

  /** Of two transfers for one order the earlier was from nobody. */
  ghost predicate NonePaidTwice(s: System) {
    forall i, j :: 0 <= i < j < |s.transfers| && s.transfers[i].tid == s.transfers[j].tid ==> FromNobody(s.transfers[i])
  }

  /** The watch's dispatch makes its shim pay: the shim is willing, and it is asked. */
  ghost predicate Accepted(s: System, step: Step) {
    && step.Finish? && step.shimOk && step.pod in s.pods && step.k < |s.pods[step.pod].watching|
    && var c := s.pods[step.pod].watching[step.k];
    Native(c.info.currency) || s.db.accounts == [] || GroupHasAccount(s.db.accounts, RequestGroup(c))
  }

  /** The step does not make a shim pay for an order that is already done. */
  ghost predicate PaysAnew(s: System, step: Step) {
    Accepted(s, step) ==> !Has(s.done, s.pods[step.pod].watching[step.k].transactionId)
  }

  lemma PaidMore(transfers: seq<Transfer>, tr: Transfer, t: string)
    ensures Paid(transfers + [tr], t) <==> Paid(transfers, t) || (tr.tid == t && !FromNobody(tr))
  {}

  /** One dispatch's transfer, or none, and what it makes done. */
  lemma DoneMorePaid(done: seq<Request>, transfers: seq<Transfer>, c: Request, paid: seq<Transfer>)
    requires DoneIsPaid(done, transfers)
    requires |paid| <= 1 && (paid != [] ==> paid[0].tid == c.transactionId)
    ensures DoneIsPaid(done + (if paid != [] && !FromNobody(paid[0]) then [c] else []), transfers + paid)
  {
    if paid == [] {
      assert transfers + paid == transfers && done + [] == done;
    } else {
      assert paid == [paid[0]] && done + [] == done;
      forall t ensures Has(done + (if FromNobody(paid[0]) then [] else [c]), t) <==> Paid(transfers + paid, t) {
        PaidMore(transfers, paid[0], t);
        HasMore(done, c, t);
      }
    }
  }

  lemma BridgePays(db: Db, c: Request, shimOk: bool)
    requires Bridge(c.info.bridgeTo, c.info.bridgeFrom, c.info.currency) ==
             Some(if Native(c.info.currency) then Mint else Release)
    requires Native(c.info.currency) ==> MintShim(c.info.currency, c.info.bridgeTo).Some?
    ensures var o := CreateBridge(db, c, shimOk);
      && |o.transfers| <= 1
      && (o.status.Ok? <==> o.transfers != [] && !FromNobody(o.transfers[0]))
      && (o.transfers != [] ==> o.transfers[0].tid == c.transactionId)
      && (o.transfers != [] && FromNobody(o.transfers[0]) <==> !Native(c.info.currency) && db.accounts == [] && shimOk)
      && (o.transfers != [] <==>
            shimOk && (Native(c.info.currency) || db.accounts == [] || GroupHasAccount(db.accounts, RequestGroup(c))))
  {
    FoundExactlyWhen(db.accounts, c);
  }

  /**
   * What one dispatch makes the shims do: a transfer of its own order exactly when it is accepted, from nobody exactly
   * when the ledger is empty.
   */
  lemma FinishPays(s: System, step: Step)
    requires Sound(s) && Enabled(s, step) && step.Finish?
    ensures var c := s.pods[step.pod].watching[step.k]; var paid := Settle(s.db, c, step.result, step.shimOk).transfers;
      && Next(s, step).transfers == s.transfers + paid && |paid| <= 1 && (paid != [] <==> Accepted(s, step))
      && Next(s, step).done == s.done + (if paid != [] && !FromNobody(paid[0]) then [c] else [])
      && (paid != [] ==> paid[0].tid == c.transactionId)
      && (paid != [] && FromNobody(paid[0]) <==> !Native(c.info.currency) && s.db.accounts == [] && step.shimOk)
  {
    var c := WatchedCopy(s, step);
    assert PodOk(s.issued, s.capacity, step.pod, s.pods[step.pod]) && c in s.pods[step.pod].watching;
    WatchedIsBridged(c.chain, c.info.bridgeTo, c.info.currency);
    SettleIs(s.db, c, step.result, step.shimOk);
    BridgePays(StoreEscrow(s.db, c, step.result), c, step.shimOk);
  }

  lemma StepDoneIsPaid(s: System, step: Step)
    requires Sound(s) && Enabled(s, step) && DoneIsPaid(s.done, s.transfers)
    ensures DoneIsPaid(Next(s, step).done, Next(s, step).transfers)
  {
    if step.Finish? {
      var c := s.pods[step.pod].watching[step.k];
      FinishPays(s, step);
      DoneMorePaid(s.done, s.transfers, c, Settle(s.db, c, step.result, step.shimOk).transfers);
    } else {
      QuietStep(s, step);
    }
  }

  lemma {:induction false} RunDoneIsPaid(s: System, steps: seq<Step>)
    requires Sound(s) && Run(s, steps) && DoneIsPaid(s.done, s.transfers)
    ensures DoneIsPaid(After(s, steps).done, After(s, steps).transfers)
    decreases |steps|
  {
    if steps != [] {
      StepKeeps(s, steps[0]);
      StepDoneIsPaid(s, steps[0]);
      RunDoneIsPaid(Next(s, steps[0]), steps[1..]);
    }
  }

  /** In every run whatever, an order is done exactly when some account or a mint has paid it. */
  lemma DoneExactlyWhenPaid(s: System, steps: seq<Step>)
    requires Init(s) && Run(s, steps)
    ensures DoneIsPaid(After(s, steps).done, After(s, steps).transfers)
  {
    InitIsSound(s);
    RunDoneIsPaid(s, steps);
  }

  /** A step pays no order twice exactly when it does not make a shim pay for one that is done. */
  lemma StepPaysTwiceExactlyWhen(s: System, step: Step)
    requires Sound(s) && Enabled(s, step) && DoneIsPaid(s.done, s.transfers) && NonePaidTwice(s)
    ensures NonePaidTwice(Next(s, step)) <==> PaysAnew(s, step)
  {
    if step.Finish? {
      FinishPays(s, step);
      var s', t := Next(s, step), s.pods[step.pod].watching[step.k].transactionId;
      if Accepted(s, step) && Has(s.done, t) {
        assert Paid(s.transfers, t);
        var i :| 0 <= i < |s.transfers| && s.transfers[i].tid == t && !FromNobody(s.transfers[i]);
        assert s'.transfers[i] == s.transfers[i] && s'.transfers[|s.transfers|].tid == t;
      } else {
        forall i, j | 0 <= i < j < |s'.transfers| && s'.transfers[i].tid == s'.transfers[j].tid
          ensures FromNobody(s'.transfers[i])
        {
          assert s'.transfers[i] == s.transfers[i] && s.transfers[i] in s.transfers;
          if j == |s.transfers| { assert !Paid(s.transfers, t); }
        }
      }
    } else {
      QuietStep(s, step);
    }
  }

  lemma {:induction false} PaidTwiceThroughout(s: System, steps: seq<Step>)
    requires Sound(s) && Run(s, steps) && DoneIsPaid(s.done, s.transfers) && NonePaidTwice(s)
    ensures Throughout(NonePaidTwice, s, steps) <==> Each(PaysAnew, s, steps)
    decreases |steps|
  {
    if steps != [] {
      StepPaysTwiceExactlyWhen(s, steps[0]);
      if PaysAnew(s, steps[0]) {
        StepKeeps(s, steps[0]);
        StepDoneIsPaid(s, steps[0]);
        PaidTwiceThroughout(Next(s, steps[0]), steps[1..]);
      }
    }
  }

  /**
   * In every run whatever: no order is paid twice, of two transfers for one order the earlier being a release from an
   * empty ledger, exactly when no dispatch that a shim accepts is of an order already done.
   */
  lemma PaidTwiceExactlyWhen(s: System, steps: seq<Step>)
    requires Init(s) && Run(s, steps)
    ensures Throughout(NonePaidTwice, s, steps) <==> Each(PaysAnew, s, steps)
  {
    InitIsSound(s);
    PaidTwiceThroughout(s, steps);
  }

  lemma {:induction false} FreeClaimsPayAnew(s: System, steps: seq<Step>)
    requires Conserved(s) && Run(s, steps) && Each(FreeClaim, s, steps)
    ensures Each(PaysAnew, s, steps)
    decreases |steps|
  {
    if steps != [] {
      if steps[0].Finish? { WatchedIsListed(s, steps[0].pod, steps[0].k); }
      StepConserves(s, steps[0]);
      FreeClaimsPayAnew(Next(s, steps[0]), steps[1..]);
    }
  }

  /** So it is, among others, in every run of free claims, paid or timed out. */
  lemma NoOrderPaidTwice(s: System, steps: seq<Step>)
    requires Init(s) && Run(s, steps) && Each(FreeClaim, s, steps)
    ensures Throughout(NonePaidTwice, s, steps)
  {
    InitIsConserved(s);
    FreeClaimsPayAnew(s, steps);
    PaidTwiceExactlyWhen(s, steps);
  }
}
