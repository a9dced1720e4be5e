/** Accounts are never taken off the ledger, so a group that was ever paid into can always pay. */
module Stock {
  import opened BridgeTypes
  import opened Routes
  import opened Ledger
  import opened Dispatching
  import opened Protocol
  import opened Backing

  /** Every account is still in its place, with nothing but its amount changed. */
  ghost predicate Grows(accounts: seq<Account>, after: seq<Account>) {
    && |accounts| <= |after|
    && forall i :: 0 <= i < |accounts| ==> after[i].(amount := accounts[i].amount) == accounts[i]
  }

  lemma GrowsOnwards(a: seq<Account>, b: seq<Account>, c: seq<Account>)
    requires Grows(a, b) && Grows(b, c)
    ensures Grows(a, c)
  {}

  lemma StoreGrows(issued: map<string, Request>, db: Db, c: Request, result: string)
    requires WellIssued(issued) && LedgerOk(issued, db.accounts) && Known(issued, c)
    ensures Grows(db.accounts, StoreEscrow(db, c, result).accounts)
  {
    if result == SUCCESS && Native(c.info.currency) {
      var k := StoredAt(issued, db, c);
    }
  }

  lemma BridgeGrows(db: Db, c: Request, shimOk: bool)
    ensures Grows(db.accounts, CreateBridge(db, c, shimOk).db.accounts)
  {}

  /** In every run, whatever its steps. */
  lemma StepGrows(s: System, step: Step)
    requires Sound(s) && Enabled(s, step)
    ensures Grows(s.db.accounts, Next(s, step).db.accounts)
  {
    if step.Finish? {
      var c := s.pods[step.pod].watching[step.k];
      assert PodOk(s.issued, s.capacity, step.pod, s.pods[step.pod]) && c in s.pods[step.pod].watching;
      SettleIs(s.db, c, step.result, step.shimOk);
      var stored := StoreEscrow(s.db, c, step.result);
      StoreGrows(s.issued, s.db, c, step.result);
      BridgeGrows(stored, c, step.shimOk);
      GrowsOnwards(s.db.accounts, stored.accounts, Next(s, step).db.accounts);
    }
  }

  lemma {:induction false} LedgerOnlyGrows(s: System, steps: seq<Step>)
    requires Sound(s) && Run(s, steps)
    ensures Grows(s.db.accounts, After(s, steps).db.accounts)
    decreases |steps|
  {
    if steps != [] {
      StepKeeps(s, steps[0]);
      StepGrows(s, steps[0]);
      LedgerOnlyGrows(Next(s, steps[0]), steps[1..]);
      GrowsOnwards(s.db.accounts, Next(s, steps[0]).db.accounts, After(s, steps).db.accounts);
    }
  }

  lemma GroupStays(accounts: seq<Account>, after: seq<Account>, g: Group)
    requires Grows(accounts, after) && GroupHasAccount(accounts, g)
    ensures GroupHasAccount(after, g)
  {
    var a :| a in accounts && InGroup(a, g);
    var i :| 0 <= i < |accounts| && accounts[i] == a;
    assert after[i].(amount := accounts[i].amount) == accounts[i];
    assert after[i] in after && InGroup(after[i], g);
  }

  /** The step is a paid watch of a native coin that mints to the group, whether its shim mints or not. */
  ghost predicate PaysInto(s: System, step: Step, g: Group) {
    && step.Finish? && step.result == SUCCESS && step.pod in s.pods && step.k < |s.pods[step.pod].watching|
    && var c := s.pods[step.pod].watching[step.k];
    Native(c.info.currency) && Credited(c.info.bridgeTo, c.info.currency) == g
  }

  /** Some step of the run pays into the group. */
  ghost predicate PaidInto(s: System, steps: seq<Step>, g: Group)
    requires Run(s, steps)
    decreases |steps|
  {
    steps != [] && (PaysInto(s, steps[0], g) || PaidInto(Next(s, steps[0]), steps[1..], g))
  }

  ghost predicate AnyPaidInto(s: System, steps: seq<Step>)
    requires Run(s, steps)
  {
    exists g :: PaidInto(s, steps, g)
  }

  /** A stored escrow puts its group, and no other, on the ledger. */
  lemma StoredGroups(accounts: seq<Account>, out: seq<Account>, bs: Account, k: nat, g: Group)
    requires k < |out| && out[k] == bs
    requires out == accounts + [bs] || (k < |accounts| && out == accounts[k := accounts[k].(amount := bs.amount)])
    ensures GroupHasAccount(out, g) <==> GroupHasAccount(accounts, g) || InGroup(bs, g)
  {
    if InGroup(bs, g) { assert out[k] in out; }
    if a :| a in accounts && InGroup(a, g) {
      var i :| 0 <= i < |accounts| && accounts[i] == a;
      assert out[i] in out && InGroup(out[i], g);
    }
    if a :| a in out && InGroup(a, g) {
      var i :| 0 <= i < |out| && out[i] == a;
      if i < |accounts| { assert accounts[i] in accounts && InGroup(accounts[i], g); }
    }
  }

  /** A release adds no account to any group. */
  lemma ReleaseGroups(accounts: seq<Account>, c: Request, after: seq<Account>, paid: seq<Transfer>, payer: Option<nat>,
                      g: Group)
    requires PaysOut(accounts, c, after, paid, payer)
    ensures GroupHasAccount(after, g) ==> GroupHasAccount(accounts, g)
  {}

  lemma StepGroups(s: System, step: Step, g: Group)
    requires Sound(s) && Enabled(s, step)
    ensures GroupHasAccount(Next(s, step).db.accounts, g) <==> GroupHasAccount(s.db.accounts, g) || PaysInto(s, step, g)
  {
    StepGrows(s, step);
    if GroupHasAccount(s.db.accounts, g) { GroupStays(s.db.accounts, Next(s, step).db.accounts, g); }
    if step.Finish? {
      var c := WatchedCopy(s, step);
      if !Native(c.info.currency) {
        var paid, payer := WrappedFinish(s, step, c);
        ReleaseGroups(s.db.accounts, c, Next(s, step).db.accounts, paid, payer, g);
      } else if step.result == SUCCESS {
        NativeFinish(s, step, c);
        var k := StoredAt(s.issued, s.db, c);
        StoredGroups(s.db.accounts, Next(s, step).db.accounts, EscrowAccount(c), k, g);
      } else {
        TimedOutFinish(s, step, c);
      }
    } else {
      QuietStep(s, step);
    }
  }

  /** In every run whatever, a group has an account exactly when it had one to begin with or a step has paid into it. */
  lemma {:induction false} StockedExactlyWhen(s: System, steps: seq<Step>, g: Group)
    requires Sound(s) && Run(s, steps)
    ensures GroupHasAccount(After(s, steps).db.accounts, g) <==>
            GroupHasAccount(s.db.accounts, g) || PaidInto(s, steps, g)
    decreases |steps|
  {
    if steps != [] {
      StepKeeps(s, steps[0]);
      StepGroups(s, steps[0], g);
      StockedExactlyWhen(Next(s, steps[0]), steps[1..], g);
    }
  }

  lemma ReleaseStatus(e: System, step: Step, c: Request)
    requires Sound(e) && Enabled(e, step) && step.Finish? && c == e.pods[step.pod].watching[step.k]
    requires Bridge(c.info.bridgeTo, c.info.bridgeFrom, c.info.currency) == Some(Release) && !Native(c.info.currency)
    ensures Settle(e.db, c, step.result, step.shimOk).status == ReleaseNative(e.db, c, step.shimOk).status
    ensures ReleaseNative(e.db, c, step.shimOk).status == match Retrieve(e.db.accounts, c)
      case Found(_) => if step.shimOk then Ok else Err
      case NoAccounts => if step.shimOk then Panicked else Err
      case IndexOutOfRange => Panicked
  {}

  /** The ledger is empty exactly until something is paid into some group. */
  lemma LedgerEmptyExactlyWhen(s: System, steps: seq<Step>)
    requires Init(s) && Run(s, steps)
    ensures After(s, steps).db.accounts == [] <==> !AnyPaidInto(s, steps)
  {
    InitIsSound(s);
    var accounts := After(s, steps).db.accounts;
    forall g ensures GroupHasAccount(accounts, g) <==> PaidInto(s, steps, g) { StockedExactlyWhen(s, steps, g); }
    if accounts != [] {
      var g := Group(accounts[0].asset, accounts[0].bridgeTo);
      assert InGroup(accounts[0], g) && GroupHasAccount(accounts, g);
      assert PaidInto(s, steps, g);
    }
  }

  /**
   * Never allocating from nothing, in every run whatever, with stale claims, time-outs and all: a release finds an
   * account, and one of its group, exactly when some deposit has been paid into its group before, minted or not.
   * Then it settles as the shim answers; otherwise it panics, unless nothing at all was ever paid in and the shim
   * refuses.
   */
  lemma NeverFromNothing(s: System, steps: seq<Step>, step: Step)
    requires Init(s) && Run(s, steps) && Enabled(After(s, steps), step) && step.Finish?
    requires var e := After(s, steps); !Native(e.pods[step.pod].watching[step.k].info.currency)
    ensures var e := After(s, steps); var c := e.pods[step.pod].watching[step.k];
      && (Retrieve(e.db.accounts, c).Found? <==> PaidInto(s, steps, RequestGroup(c)))
      && (Retrieve(e.db.accounts, c).Found? ==> InGroup(Retrieve(e.db.accounts, c).account, RequestGroup(c)))
      && Settle(e.db, c, step.result, step.shimOk).status ==
           if PaidInto(s, steps, RequestGroup(c)) then (if step.shimOk then Ok else Err)
           else if step.shimOk || AnyPaidInto(s, steps) then Panicked
           else Err
  {
    InitIsSound(s);
    RunKeeps(s, steps);
    var e := After(s, steps);
    var c := WatchedCopy(e, step);
    StockedExactlyWhen(s, steps, RequestGroup(c));
    FoundExactlyWhen(e.db.accounts, c);
    LedgerEmptyExactlyWhen(s, steps);
    ReleaseStatus(e, step, c);
  }

  lemma BridgedRight(issued: map<string, Request>, db: Db, c: Request, result: string, shimOk: bool) returns (k: nat)
    requires WellIssued(issued) && LedgerOk(issued, db.accounts)
    requires !Native(c.info.currency)
    requires Bridge(c.info.bridgeTo, c.info.bridgeFrom, c.info.currency) == Some(Release)
    requires CreateBridge(StoreEscrow(db, c, result), c, shimOk).status.Ok?
    ensures var o := CreateBridge(StoreEscrow(db, c, result), c, shimOk);
      PaysRight(db.accounts, c, o.db.accounts, o.transfers, k)
  {
    IdLengths(issued, db.accounts);
    k := ReleaseStep(db, c, 36);
  }

  lemma SettledRight(e: System, step: Step) returns (paid: seq<Transfer>, k: nat)
    requires Sound(e) && Enabled(e, step) && step.Finish?
    requires var c := e.pods[step.pod].watching[step.k];
      !Native(c.info.currency) && Settle(e.db, c, step.result, step.shimOk).status.Ok?
    ensures Next(e, step).transfers == e.transfers + paid
    ensures PaysRight(e.db.accounts, e.pods[step.pod].watching[step.k], Next(e, step).db.accounts, paid, k)
  {
    var c := WatchedCopy(e, step);
    SettleIs(e.db, c, step.result, step.shimOk);
    paid := Settle(e.db, c, step.result, step.shimOk).transfers;
    k := BridgedRight(e.issued, e.db, c, step.result, step.shimOk);
  }

  /**
   * In every run whatever, a release that settles without error is paid right: what it searches for is what it debits.
   */
  lemma ReleasesPayRight(s: System, steps: seq<Step>, step: Step) returns (paid: seq<Transfer>, k: nat)
    requires Init(s) && Run(s, steps) && Enabled(After(s, steps), step) && step.Finish?
    requires var e := After(s, steps); var c := e.pods[step.pod].watching[step.k];
      !Native(c.info.currency) && Settle(e.db, c, step.result, step.shimOk).status.Ok?
    ensures var e := After(s, steps);
      && Next(e, step).transfers == e.transfers + paid
      && PaysRight(e.db.accounts, e.pods[step.pod].watching[step.k], Next(e, step).db.accounts, paid, k)
      && e.pods[step.pod].watching[step.k].amount == e.pods[step.pod].watching[step.k].info.amount
  {
    InitIsSound(s);
    RunKeeps(s, steps);
    var c := WatchedCopy(After(s, steps), step);
    paid, k := SettledRight(After(s, steps), step);
  }
}
