/**
 * Runs that show why free claims, paid deposits, and no negative amounts are asked for, and what an empty ledger does.
 */
module Limits {
  import opened BridgeTypes
  import opened Routes
  import opened Sums
  import opened Ledger
  import opened Dispatching
  import opened Protocol
  import opened Conservation
  import opened Backing
  import Polling
  import Requests
  import Session
  import Uuid
  import Watching

  // ---------------------------------------------------------------- leading a run somewhere

  /** A claim is of a listed order, whoever watches it. */
  ghost predicate ListedClaim(s: System, step: Step) {
    step.Claim? && step.pod in s.pods && step.k < |s.pods[step.pod].started| ==>
      Has(s.db.requests, s.pods[step.pod].started[step.k].transactionId)
  }

  /** A claim is of an order stored unlocked at that moment, whoever watches it. */
  ghost predicate UnlockedClaim(s: System, step: Step) {
    step.Claim? && step.pod in s.pods && step.k < |s.pods[step.pod].started| ==>
      exists r :: r in s.db.requests && r.transactionId == s.pods[step.pod].started[step.k].transactionId && !r.locked
  }

  datatype Claiming = AnyClaims | ListedClaims | UnlockedClaims | FreeClaims

  /** Which conditions a run is to meet. */
  datatype Ask = Ask(claims: Claiming, paid: bool, nonNegative: bool)

  ghost predicate Meets(ask: Ask, s: System, step: Step) {
    && (ask.claims == FreeClaims ==> FreeClaim(s, step))
    && (ask.claims == ListedClaims ==> ListedClaim(s, step))
    && (ask.claims == UnlockedClaims ==> UnlockedClaim(s, step))
    && (ask.paid ==> PaidFor(s, step))
    && (ask.nonNegative ==> NonNegative(s, step))
  }

  ghost predicate Leads(ask: Ask, s: System, steps: seq<Step>, e: System)
    decreases |steps|
  {
    if steps == [] then e == s
    else Enabled(s, steps[0]) && Meets(ask, s, steps[0]) && Leads(ask, Next(s, steps[0]), steps[1..], e)
  }

  lemma {:induction false} LeadsIs(ask: Ask, s: System, steps: seq<Step>, e: System)
    requires Leads(ask, s, steps, e)
    ensures Run(s, steps) && After(s, steps) == e
    ensures ask.claims == FreeClaims ==> Each(FreeClaim, s, steps)
    ensures ask.claims == ListedClaims ==> Each(ListedClaim, s, steps)
    ensures ask.claims == UnlockedClaims ==> Each(UnlockedClaim, s, steps)
    ensures ask.paid ==> Each(PaidFor, s, steps)
    ensures ask.nonNegative ==> Each(NonNegative, s, steps)
    ensures ask == Ask(FreeClaims, true, true) ==> Each(Safe, s, steps)
    decreases |steps|
  {
    if steps != [] {
      LeadsIs(ask, Next(s, steps[0]), steps[1..], e);
    }
  }

  lemma {:induction false} Onward(ask: Ask, s: System, steps: seq<Step>, e: System, step: Step)
    requires Leads(ask, s, steps, e) && Enabled(e, step) && Meets(ask, e, step)
    ensures Leads(ask, s, steps + [step], Next(e, step))
    decreases |steps|
  {
    if steps == [] {
      assert [step][1..] == [] && [] + [step] == [step];
      assert Leads(ask, Next(e, step), [], Next(e, step));
    } else {
      assert (steps + [step])[1..] == steps[1..] + [step];
      Onward(ask, Next(s, steps[0]), steps[1..], e, step);
    }
  }

  // ---------------------------------------------------------------- one order on its way

  lemma Confirms(s: System, p: string, r: Request)
    requires Init(s) && p in s.pods && Orderly(r, p)
    ensures Enabled(s, Confirm(p, r))
    ensures Next(s, Confirm(p, r)) == s.(db := Db([r], [], []), issued := map[r.transactionId := r])
  {}

  /** A tick, an offer and a receive bring a stored, unlocked record to a watch on an idle pod. */
  lemma Queues(e: System, p: string, r: Request)
    requires p in e.pods && e.pods[p] == IDLE && e.capacity > 0 && e.db.requests == [r] && !r.locked
    ensures Enabled(e, Tick(p)) && Enabled(Next(e, Tick(p)), Offer(p))
    ensures Enabled(Next(Next(e, Tick(p)), Offer(p)), Receive(p))
    ensures Next(Next(Next(e, Tick(p)), Offer(p)), Receive(p)) == e.(pods := e.pods[p := IDLE.(started := [r])])
  {
    var e1 := Next(e, Tick(p));
    assert e1 == e.(pods := e.pods[p := IDLE.(pending := [r])]);
    var e2 := Next(e1, Offer(p));
    assert [r][1..] == [] && [] + [r] == [r];
    assert e2.pods == e.pods[p := IDLE.(channel := [r])];
    assert Next(e2, Receive(p)).pods == e.pods[p := IDLE.(started := [r])];
  }

  lemma Begins(ask: Ask, s: System, steps: seq<Step>, e: System, p: string, r: Request)
    returns (more: seq<Step>, e': System)
    requires Leads(ask, s, steps, e)
    requires p in e.pods && e.pods[p] == IDLE && e.capacity > 0 && e.db.requests == [r] && !r.locked
    ensures Leads(ask, s, more, e') && e' == e.(pods := e.pods[p := IDLE.(started := [r])])
  {
    Queues(e, p, r);
    var e1 := Next(e, Tick(p));
    var e2 := Next(e1, Offer(p));
    Onward(ask, s, steps, e, Tick(p));
    Onward(ask, s, steps + [Tick(p)], e1, Offer(p));
    Onward(ask, s, steps + [Tick(p)] + [Offer(p)], e2, Receive(p));
    more, e' := steps + [Tick(p)] + [Offer(p)] + [Receive(p)], Next(e2, Receive(p));
  }

  /** The list is empty or has one copy of the order, locked or not. */
  predicate AtMostCopy(requests: seq<Request>, r: Request) {
    requests == [] || (|requests| == 1 && requests[0].awrid == r.awrid && requests[0].transactionId == r.transactionId)
  }

  /** The watch claims its copy, whether the record is still stored as it was, is locked, or is gone. */
  lemma Claims(e: System, p: string, r: Request, now: int)
    requires p in e.pods && e.pods[p] == IDLE.(started := [r]) && Watched(r).Some? && Uuid.Canonical(r.awrid)
    requires AtMostCopy(e.db.requests, r)
    ensures Enabled(e, Claim(p, 0, now))
    ensures var c := Claimed(r, p, now);
      Next(e, Claim(p, 0, now)) == e.(db := e.db.(requests := [c]), pods := e.pods[p := IDLE.(watching := [c])])
  {
    var c := Claimed(r, p, now);
    if e.db.requests != [] {
      Requests.UpsertShape(e.db.requests, c);
      assert e.db.requests[0 := c] == [c];
    } else {
      assert [] + [c] == [c];
      assert Requests.Upsert([], c).Some? && Requests.Upsert([], c).value == [c];
    }
    assert Next(e, Claim(p, 0, now)).pods[p] == IDLE.(watching := [c]);
  }

  /** With no other watch anywhere, the claim of the one stored record is free. */
  lemma ClaimsAlone(ask: Ask, s: System, steps: seq<Step>, e: System, p: string, r: Request)
    returns (more: seq<Step>, e': System)
    requires Leads(ask, s, steps, e)
    requires p in e.pods && e.pods[p] == IDLE.(started := [r]) && forall q :: q in e.pods ==> e.pods[q].watching == []
    requires e.db.requests == [r] && !r.locked && Watched(r).Some? && Uuid.Canonical(r.awrid)
    ensures Leads(ask, s, more, e')
    ensures var c := Claimed(r, p, 0);
      e' == e.(db := e.db.(requests := [c]), pods := e.pods[p := IDLE.(watching := [c])])
  {
    Claims(e, p, r, 0);
    assert FreeClaim(e, Claim(p, 0, 0)) by { assert r in e.db.requests; }
    Onward(ask, s, steps, e, Claim(p, 0, 0));
    more, e' := steps + [Claim(p, 0, 0)], Next(e, Claim(p, 0, 0));
  }

  /** A fresh order, confirmed when nothing is listed and all pods are idle, reaches its watcher on its own. */
  lemma NextAlone(ask: Ask, s: System, steps: seq<Step>, e: System, p: string, r: Request)
    returns (more: seq<Step>, e': System)
    requires Leads(ask, s, steps, e) && Enabled(e, Confirm(p, r)) && (ask.nonNegative ==> r.amount >= 0)
    requires e.db.requests == [] && e.capacity > 0 && Watched(r).Some?
    requires forall q :: q in e.pods ==> e.pods[q] == IDLE
    ensures Leads(ask, s, more, e')
    ensures var c := Claimed(r, p, 0);
      e' == e.(db := e.db.(requests := [c]), issued := e.issued[r.transactionId := r],
               pods := e.pods[p := IDLE.(watching := [c])])
  {
    Onward(ask, s, steps, e, Confirm(p, r));
    var e1 := Next(e, Confirm(p, r));
    assert [] + [r] == [r];
    assert e1 == e.(db := e.db.(requests := [r]), issued := e.issued[r.transactionId := r]);
    more, e' := Begins(ask, s, steps + [Confirm(p, r)], e1, p, r);
    more, e' := ClaimsAlone(ask, s, more, e', p, r);
    assert e'.pods == e.pods[p := IDLE.(watching := [Claimed(r, p, 0)])];
  }

  /** Any order a session can store reaches its watcher on its own. */
  lemma Alone(ask: Ask, s: System, p: string, r: Request) returns (steps: seq<Step>, e: System)
    requires Init(s) && p in s.pods && s.capacity > 0 && Orderly(r, p) && Watched(r).Some?
    requires ask.nonNegative ==> r.amount >= 0
    ensures Leads(ask, s, steps, e)
    ensures var c := Claimed(r, p, 0);
      e == s.(db := Db([c], [], []), issued := map[r.transactionId := r], pods := s.pods[p := IDLE.(watching := [c])])
  {
    Confirms(s, p, r);
    assert Leads(ask, s, [], s);
    steps, e := NextAlone(ask, s, [], s, p, r);
  }

  /** An order confirmed on p, and a watch for it begun on p and on q before either locks it. */
  lemma BothBegin(ask: Ask, s: System, p: string, q: string, r: Request) returns (steps: seq<Step>, e: System)
    requires Init(s) && p in s.pods && q in s.pods && p != q && s.capacity > 0 && Orderly(r, p)
    requires ask.nonNegative ==> r.amount >= 0
    ensures Leads(ask, s, steps, e)
    ensures e.db == Db([r], [], []) && e.transfers == [] && e.done == []
    ensures p in e.pods && q in e.pods && e.pods[p] == IDLE.(started := [r]) && e.pods[q] == IDLE.(started := [r])
  {
    Confirms(s, p, r);
    e := Next(s, Confirm(p, r));
    assert Leads(ask, s, [], s);
    Onward(ask, s, [], s, Confirm(p, r));
    steps, e := Begins(ask, s, [] + [Confirm(p, r)], e, p, r);
    steps, e := Begins(ask, s, steps, e, q, r);
  }

  ghost predicate MintedOnce(e: System, after: System, p: string, c: Request, result: string) {
    var m := MintWrapped(e.db, c, true).transfers;
    && |m| == 1 && m[0].Minted? && m[0].tid == c.transactionId && m[0].amount == c.amount
    && m[0].group == Credited(c.info.bridgeTo, c.info.currency)
    && p in e.pods
    && after == e.(db := Db([], e.db.failed, StoreEscrow(e.db, c, result).accounts),
                   transfers := e.transfers + m, done := e.done + [c], pods := e.pods[p := IDLE])
  }

  lemma WithoutCopy(requests: seq<Request>, c: Request)
    requires AtMostCopy(requests, c)
    ensures Requests.Unique(requests) && Requests.Without(requests, c.transactionId) == []
  {}

  /** A mint that the shim accepts. */
  lemma MintSettles(db: Db, c: Request, result: string)
    requires AtMostCopy(db.requests, c)
    requires Watched(c).Some? && Native(c.info.currency) && c.info.bridgeFrom == c.chain
    ensures var o := Settle(db, c, result, true);
      && o.status.Ok? && o.db == Db([], db.failed, StoreEscrow(db, c, result).accounts)
      && o.transfers == MintWrapped(db, c, true).transfers && |o.transfers| == 1
  {
    WatchedIsBridged(c.chain, c.info.bridgeTo, c.info.currency);
    WithoutCopy(db.requests, c);
    SettleIs(db, c, result, true);
  }

  /** A watcher of an order, whoever stored it last and even if it is gone, mints what it asks for. */
  lemma Mints(e: System, p: string, c: Request, result: string)
    requires p in e.pods && e.pods[p] == IDLE.(watching := [c]) && AtMostCopy(e.db.requests, c)
    requires Watched(c).Some? && Native(c.info.currency) && c.info.bridgeFrom == c.chain
    requires result == SUCCESS || result == ERROR
    ensures Enabled(e, Finish(p, 0, result, true))
    ensures MintedOnce(e, Next(e, Finish(p, 0, result, true)), p, c, result)
  {
    MintSettles(e.db, c, result);
    assert Drop([c], 0) == [];
  }

  // ---------------------------------------------------------------- sums of one

  lemma OneAccount(a: Account, g: Group)
    ensures Total([a], g) == if InGroup(a, g) then a.amount else 0
    ensures Total([], g) == 0
  {
    SumAppend([], a, BalanceIn(g));
    assert [] + [a] == [a];
  }

  lemma StoreOnce(a: Account)
    ensures Store([], a) == [a] && Store([a], a) == [a]
  {
    assert [] + [a] == [a];
    assert [a][0].id == a.id;
    assert Store([a], a)[0] == a;
  }

  lemma OneMint(m: seq<Transfer>, amount: int, g: Group)
    requires |m| == 1 && m[0].Minted? && m[0].group == g && m[0].amount == amount
    ensures MintedTo(m, g) == amount && ReleasedFrom(m, g) == 0
  {}

  // ---------------------------------------------------------------- runs that are not backed

  /**
   * Dispatching a timed-out deposit mints with nothing stored: all else is as backing asks. A session's own orders
   * would wait some 55 years for it, their TimeOut being a Unix time that is waited for as seconds.
   */
  lemma TimeoutIsNotBacked(s: System, p: string, r: Request) returns (steps: seq<Step>)
    requires Init(s) && p in s.pods && s.capacity > 0 && Orderly(r, p) && Watched(r).Some?
    requires Native(r.info.currency) && r.amount > 0
    ensures Run(s, steps) && Each(FreeClaim, s, steps) && Each(NonNegative, s, steps)
    ensures !Backed(After(s, steps), Credited(r.info.bridgeTo, r.info.currency))
  {
    var g, ask := Credited(r.info.bridgeTo, r.info.currency), Ask(FreeClaims, false, true);
    var lead, e := Alone(ask, s, p, r);
    var c, step := Claimed(r, p, 0), Finish(p, 0, ERROR, true);
    Mints(e, p, c, ERROR);
    Onward(ask, s, lead, e, step);
    steps := lead + [step];
    LeadsIs(ask, s, steps, Next(e, step));
    var m := MintWrapped(e.db, c, true).transfers;
    assert [] + m == m;
    OneMint(m, r.amount, g);
    OneAccount(EscrowAccount(r), g);
  }

  /** A paid native order whose shim refuses: its escrow is stored, nothing is minted. */
  lemma FailsToMint(e: System, p: string, c: Request)
    requires p in e.pods && e.pods[p] == IDLE.(watching := [c]) && e.db.requests == [c]
    requires Watched(c).Some? && Native(c.info.currency) && c.info.bridgeFrom == c.chain
    ensures var step := Finish(p, 0, SUCCESS, false);
      && Enabled(e, step)
      && Next(e, step).transfers == e.transfers && Next(e, step).db.accounts == Store(e.db.accounts, EscrowAccount(c))
  {}

  /** In dev mode an order can be negative; stored and then not minted, it leaves the ledger short. */
  lemma NegativeIsNotBacked(s: System, p: string, r: Request) returns (steps: seq<Step>)
    requires Init(s) && p in s.pods && s.capacity > 0 && Orderly(r, p) && Watched(r).Some?
    requires Native(r.info.currency) && r.amount < 0
    ensures Run(s, steps) && Each(FreeClaim, s, steps) && Each(PaidFor, s, steps)
    ensures !Backed(After(s, steps), Credited(r.info.bridgeTo, r.info.currency))
  {
    var ask, step := Ask(FreeClaims, true, false), Finish(p, 0, SUCCESS, false);
    var lead, e := Alone(ask, s, p, r);
    FailsToMint(e, p, Claimed(r, p, 0));
    Onward(ask, s, lead, e, step);
    steps := lead + [step];
    LeadsIs(ask, s, steps, Next(e, step));
    StoreOnce(EscrowAccount(r));
    OneAccount(EscrowAccount(r), Credited(r.info.bridgeTo, r.info.currency));
  }

  /** A claim and a paid dispatch by a watch that has begun, from wherever the run has got to. */
  lemma ClaimsAndMints(ask: Ask, s: System, steps: seq<Step>, e: System, p: string, r: Request)
    returns (more: seq<Step>, e': System)
    requires Leads(ask, s, steps, e) && ask.claims == AnyClaims
    requires Native(r.info.currency) && Orderly(r, r.lockedBy) && Watched(r).Some?
    requires p in e.pods && e.pods[p] == IDLE.(started := [r]) && AtMostCopy(e.db.requests, r)
    ensures Leads(ask, s, more, e')
    ensures var m := MintWrapped(e.db, Claimed(r, p, 0), true).transfers;
      && |m| == 1 && m[0].Minted? && m[0].amount == r.amount && m[0].group == Credited(r.info.bridgeTo, r.info.currency)
      && e'.transfers == e.transfers + m
      && e'.db == Db([], e.db.failed, Store(e.db.accounts, EscrowAccount(r)))
      && e'.pods == e.pods[p := IDLE] && e'.done == e.done + [Claimed(r, p, 0)]
  {
    Claims(e, p, r, 0);
    Onward(ask, s, steps, e, Claim(p, 0, 0));
    var e1 := Next(e, Claim(p, 0, 0));
    Mints(e1, p, Claimed(r, p, 0), SUCCESS);
    Onward(ask, s, steps + [Claim(p, 0, 0)], e1, Finish(p, 0, SUCCESS, true));
    more, e' := steps + [Claim(p, 0, 0)] + [Finish(p, 0, SUCCESS, true)], Next(e1, Finish(p, 0, SUCCESS, true));
    assert e1.pods[p := IDLE] == e.pods[p := IDLE];
  }

  /** The state once the first pod is through, with the second's copy now stale. */
  lemma OnceMinted(ask: Ask, s: System, p: string, q: string, r: Request) returns (steps: seq<Step>, e: System)
    requires Init(s) && p in s.pods && q in s.pods && p != q && s.capacity > 0 && Orderly(r, p) && Watched(r).Some?
    requires Native(r.info.currency) && r.amount > 0 && ask.claims == AnyClaims
    ensures Leads(ask, s, steps, e)
    ensures var g := Credited(r.info.bridgeTo, r.info.currency);
      && e.db == Db([], [], [EscrowAccount(r)]) && |e.done| == 1
      && MintedTo(e.transfers, g) == r.amount && ReleasedFrom(e.transfers, g) == 0
      && q in e.pods && e.pods[q] == IDLE.(started := [r])
  {
    var begun, e0 := BothBegin(ask, s, p, q, r);
    steps, e := ClaimsAndMints(ask, s, begun, e0, p, r);
    var m := MintWrapped(e0.db, Claimed(r, p, 0), true).transfers;
    assert [] + m == m;
    OneMint(m, r.amount, Credited(r.info.bridgeTo, r.info.currency));
    StoreOnce(EscrowAccount(r));
  }

  /**
   * Two pods snapshot one order. The first claims it, mints and removes it; the second then claims its stale copy,
   * which stores the order again, and mints again, while the ledger holds one deposit.
   */
  lemma StaleClaimIsNotBacked(s: System, p: string, q: string, r: Request) returns (steps: seq<Step>)
    requires Init(s) && p in s.pods && q in s.pods && p != q && s.capacity > 0 && Orderly(r, p) && Watched(r).Some?
    requires Native(r.info.currency) && r.amount > 0
    ensures Run(s, steps) && Each(PaidFor, s, steps) && Each(NonNegative, s, steps)
    ensures !Backed(After(s, steps), Credited(r.info.bridgeTo, r.info.currency))
    ensures |After(s, steps).done| == 2
  {
    var g, ask := Credited(r.info.bridgeTo, r.info.currency), Ask(AnyClaims, true, true);
    var once, e := OnceMinted(ask, s, p, q, r);
    var more, e' := ClaimsAndMints(ask, s, once, e, q, r);
    steps := more;
    LeadsIs(ask, s, steps, e');
    var m := MintWrapped(e.db, Claimed(r, q, 0), true).transfers;
    OneMint(m, r.amount, g);
    TransfersConcat(e.transfers, m, g);
    StoreOnce(EscrowAccount(r));
    OneAccount(EscrowAccount(r), g);
  }

  // ---------------------------------------------------------------- orders in two places, and paid twice

  /**
   * The second of two watchers, its order already minted and removed, cannot mint it again: it moves its copy to the
   * failed list.
   */
  lemma MovesCopy(e: System, q: string, c: Request)
    requires q in e.pods && e.pods[q] == IDLE.(watching := [c]) && e.db.requests == []
    requires Watched(c) == Some(EvmChain) && c.info.bridgeFrom == c.chain
    ensures var step := Finish(q, 0, SUCCESS, false);
      Enabled(e, step) && Next(e, step).db.failed == e.db.failed + [c] && Next(e, step).done == e.done
  {}

  /** Both pods claim the order while it is listed. */
  lemma BothClaim(ask: Ask, s: System, p: string, q: string, r: Request) returns (steps: seq<Step>, e: System)
    requires Init(s) && p in s.pods && q in s.pods && p != q && s.capacity > 0 && Orderly(r, p) && Watched(r).Some?
    requires (ask.claims == AnyClaims || ask.claims == ListedClaims) && (ask.nonNegative ==> r.amount >= 0)
    ensures Leads(ask, s, steps, e)
    ensures e.db == Db([Claimed(r, q, 0)], [], []) && e.done == []
    ensures p in e.pods && q in e.pods
    ensures e.pods[p] == IDLE.(watching := [Claimed(r, p, 0)]) && e.pods[q] == IDLE.(watching := [Claimed(r, q, 0)])
  {
    steps, e := BothBegin(ask, s, p, q, r);
    Claims(e, p, r, 0);
    assert r in e.db.requests;
    Onward(ask, s, steps, e, Claim(p, 0, 0));
    steps, e := steps + [Claim(p, 0, 0)], Next(e, Claim(p, 0, 0));
    Claims(e, q, r, 0);
    assert Claimed(r, p, 0) in e.db.requests;
    Onward(ask, s, steps, e, Claim(q, 0, 0));
    steps, e := steps + [Claim(q, 0, 0)], Next(e, Claim(q, 0, 0));
  }

  /**
   * Two pods snapshot one order and both claim it while it is listed. One mints it; the other's shim refuses, and the
   * order ends up both done and failed. That its order is listed is not enough for a claim.
   */
  lemma DoubleClaimIsTwoPlaces(s: System, p: string, q: string, r: Request) returns (steps: seq<Step>)
    requires Init(s) && p in s.pods && q in s.pods && p != q && s.capacity > 0 && Orderly(r, p)
    requires Watched(r) == Some(EvmChain) && r.amount >= 0
    ensures Run(s, steps) && Each(ListedClaim, s, steps) && Each(PaidFor, s, steps) && Each(NonNegative, s, steps)
    ensures Has(After(s, steps).done, r.transactionId) && Has(After(s, steps).db.failed, r.transactionId)
  {
    var ask, step, last := Ask(ListedClaims, true, true), Finish(p, 0, SUCCESS, true), Finish(q, 0, SUCCESS, false);
    var claimed, e := BothClaim(ask, s, p, q, r);
    WatchedIsBridged(r.chain, r.info.bridgeTo, r.info.currency);
    Mints(e, p, Claimed(r, p, 0), SUCCESS);
    Onward(ask, s, claimed, e, step);
    var e1 := Next(e, step);
    MovesCopy(e1, q, Claimed(r, q, 0));
    Onward(ask, s, claimed + [step], e1, last);
    steps := claimed + [step] + [last];
    LeadsIs(ask, s, steps, Next(e1, last));
    assert Claimed(r, p, 0) in Next(e1, last).done && Claimed(r, q, 0) in Next(e1, last).db.failed;
  }

  /** A release from an empty ledger: the shim pays, and the pod is gone with nothing recorded. */
  lemma PaysFromNobody(e: System, p: string, c: Request)
    requires p in e.pods && e.pods[p] == IDLE.(watching := [c]) && e.db == Db([c], [], [])
    requires Watched(c).Some? && !Native(c.info.currency) && c.info.bridgeFrom == c.chain
    ensures var step := Finish(p, 0, SUCCESS, true);
      && Enabled(e, step)
      && Next(e, step) == e.(transfers := e.transfers + [Payout(c, None, "")], pods := e.pods[p := IDLE])
  {}

  lemma Unlocks(e: System, p: string, c: Request)
    requires p in e.pods && e.db.requests == [c]
    ensures Enabled(e, Unlock(p)) && Next(e, Unlock(p)) == e.(db := e.db.(requests := [Requests.Freed(c, p)]))
  {}

  /** The pod comes back, unlocks its record when it next shuts down, and watches the order again. */
  lemma WatchesAgain(ask: Ask, s: System, steps: seq<Step>, e: System, p: string, c: Request)
    returns (more: seq<Step>, e': System)
    requires Leads(ask, s, steps, e) && e.capacity > 0 && p in e.pods && forall q :: q in e.pods ==> e.pods[q] == IDLE
    requires e.db.requests == [c] && c.lockedBy == p && c.locked && c.lockedTime == 0
    requires Watched(c).Some? && Uuid.Canonical(c.awrid)
    ensures Leads(ask, s, more, e') && e' == e.(pods := e.pods[p := IDLE.(watching := [c])])
  {
    var d := Requests.Freed(c, p);
    Unlocks(e, p, c);
    Onward(ask, s, steps, e, Unlock(p));
    var e1 := Next(e, Unlock(p));
    more, e' := Begins(ask, s, steps + [Unlock(p)], e1, p, d);
    more, e' := ClaimsAlone(ask, s, more, e', p, d);
    assert e'.pods == e.pods[p := IDLE.(watching := [c])];
  }

  /**
   * On an empty ledger even one pod alone pays an order twice: each time the shim pays and the pod panics before it
   * can record it.
   */
  lemma EmptyLedgerPaysTwice(s: System, p: string, r: Request) returns (steps: seq<Step>)
    requires Init(s) && p in s.pods && s.capacity > 0 && Orderly(r, p) && Watched(r).Some? && !Native(r.info.currency)
    requires r.amount >= 0
    ensures Run(s, steps) && Each(FreeClaim, s, steps) && Each(PaidFor, s, steps) && Each(NonNegative, s, steps)
    ensures var paid := Payout(Claimed(r, p, 0), None, ""); After(s, steps).transfers == [paid, paid]
  {
    var ask, c, step := Ask(FreeClaims, true, true), Claimed(r, p, 0), Finish(p, 0, SUCCESS, true);
    var lead, e := Alone(ask, s, p, r);
    PaysFromNobody(e, p, c);
    Onward(ask, s, lead, e, step);
    var again, e' := WatchesAgain(ask, s, lead + [step], Next(e, step), p, c);
    PaysFromNobody(e', p, c);
    Onward(ask, s, again, e', step);
    steps := again + [step];
    LeadsIs(ask, s, steps, Next(e', step));
  }

  // ---------------------------------------------------------------- the race of a shutdown

  /** A pod shutting down has unlocked the order it still watches; another pod's ticker finds it and claims it. */
  lemma WatchedTwice(ask: Ask, s: System, p: string, q: string, r: Request) returns (steps: seq<Step>, e: System)
    requires Init(s) && p in s.pods && q in s.pods && p != q && s.capacity > 0 && Orderly(r, p) && Watched(r).Some?
    requires ask.claims == UnlockedClaims && (ask.nonNegative ==> r.amount >= 0)
    ensures Leads(ask, s, steps, e) && p in e.pods && q in e.pods
    ensures var c := Claimed(r, p, 0); var d := Claimed(Requests.Freed(c, p), q, 0);
      && e.db == Db([d], [], []) && e.transfers == []
      && e.pods[p] == IDLE.(watching := [c]) && e.pods[q] == IDLE.(watching := [d])
  {
    steps, e := Alone(ask, s, p, r);
    var d := Requests.Freed(Claimed(r, p, 0), p);
    Unlocks(e, p, Claimed(r, p, 0));
    Onward(ask, s, steps, e, Unlock(p));
    steps, e := Begins(ask, s, steps + [Unlock(p)], Next(e, Unlock(p)), q, d);
    Claims(e, q, d, 0);
    assert d in e.db.requests;
    Onward(ask, s, steps, e, Claim(q, 0, 0));
    steps, e := steps + [Claim(q, 0, 0)], Next(e, Claim(q, 0, 0));
  }

  lemma MintedTwice(db: Db, db1: Db, c: Request, d: Request, g: Group)
    requires |MintWrapped(db, c, true).transfers| == |MintWrapped(db1, d, true).transfers| == 1
    requires g == Credited(c.info.bridgeTo, c.info.currency) && SameOrder(c, d)
    ensures var paid := [] + MintWrapped(db, c, true).transfers + MintWrapped(db1, d, true).transfers;
      MintedTo(paid, g) == c.amount + c.amount && ReleasedFrom(paid, g) == 0
  {
    var m, n := MintWrapped(db, c, true).transfers, MintWrapped(db1, d, true).transfers;
    assert [] + m == m;
    TransfersConcat(m, n, g);
    OneMint(m, c.amount, g);
    OneMint(n, c.amount, g);
  }

  /**
   * So an order can be minted twice with no stale snapshot at all: every claim is of a record stored unlocked at that
   * moment, and what is broken is that its old watcher is still there.
   */
  lemma ShutdownRaceIsNotBacked(s: System, p: string, q: string, r: Request) returns (steps: seq<Step>)
    requires Init(s) && p in s.pods && q in s.pods && p != q && s.capacity > 0 && Orderly(r, p) && Watched(r).Some?
    requires Native(r.info.currency) && r.amount > 0
    ensures Run(s, steps) && Each(UnlockedClaim, s, steps) && Each(PaidFor, s, steps) && Each(NonNegative, s, steps)
    ensures !Backed(After(s, steps), Credited(r.info.bridgeTo, r.info.currency))
  {
    var g, ask := Credited(r.info.bridgeTo, r.info.currency), Ask(UnlockedClaims, true, true);
    var lead, e := WatchedTwice(ask, s, p, q, r);
    var c, d := Claimed(r, p, 0), Claimed(Requests.Freed(Claimed(r, p, 0), p), q, 0);
    Mints(e, p, c, SUCCESS);
    Onward(ask, s, lead, e, Finish(p, 0, SUCCESS, true));
    var e1 := Next(e, Finish(p, 0, SUCCESS, true));
    StoreOnce(EscrowAccount(r));
    Mints(e1, q, d, SUCCESS);
    Onward(ask, s, lead + [Finish(p, 0, SUCCESS, true)], e1, Finish(q, 0, SUCCESS, true));
    var e2 := Next(e1, Finish(q, 0, SUCCESS, true));
    steps := lead + [Finish(p, 0, SUCCESS, true)] + [Finish(q, 0, SUCCESS, true)];
    LeadsIs(ask, s, steps, e2);
    MintedTwice(e.db, e1.db, c, d, g);
    OneAccount(EscrowAccount(r), g);
  }

  // ---------------------------------------------------------------- one deposit for two orders

  /** A paid order goes from its watcher to done, its escrow stored and its token minted. */
  lemma MintsNext(ask: Ask, s: System, steps: seq<Step>, e: System, p: string, c: Request)
    returns (more: seq<Step>, e': System)
    requires Leads(ask, s, steps, e) && p in e.pods && e.pods[p] == IDLE.(watching := [c]) && e.db.requests == [c]
    requires Watched(c).Some? && Native(c.info.currency) && c.info.bridgeFrom == c.chain
    ensures Leads(ask, s, more, e') && MintedOnce(e, e', p, c, SUCCESS)
  {
    Mints(e, p, c, SUCCESS);
    Onward(ask, s, steps, e, Finish(p, 0, SUCCESS, true));
    more, e' := steps + [Finish(p, 0, SUCCESS, true)], Next(e, Finish(p, 0, SUCCESS, true));
  }

  /** Escrows of two orders stored one after the other. */
  lemma StoreBoth(a: Account, b: Account)
    requires a.id != b.id
    ensures Store([], a) == [a] && Store([a], b) == [a, b]
  {
    StoreOnce(a);
    assert [a] + [b] == [a, b];
  }

  /** The state once one order, alone, is paid and minted. */
  lemma FirstMinted(ask: Ask, s: System, p: string, r: Request) returns (steps: seq<Step>, e: System)
    requires Init(s) && p in s.pods && s.capacity > 0 && Orderly(r, p) && Watched(r).Some? && Native(r.info.currency)
    requires ask.nonNegative ==> r.amount >= 0
    ensures Leads(ask, s, steps, e)
    ensures e.db == Db([], [], [EscrowAccount(r)]) && e.done == [Claimed(r, p, 0)]
    ensures |e.transfers| == 1 && e.transfers[0].Minted?
    ensures e.issued == map[r.transactionId := r] && e.pods == s.pods && e.capacity == s.capacity
  {
    var c := Claimed(r, p, 0);
    var lead, e0 := Alone(ask, s, p, r);
    steps, e := MintsNext(ask, s, lead, e0, p, c);
    StoreOnce(EscrowAccount(r));
    assert e.pods == s.pods;
    assert [] + MintWrapped(e0.db, c, true).transfers == MintWrapped(e0.db, c, true).transfers;
  }

  /** The state once a second one is. */
  lemma SecondMinted(ask: Ask, s: System, steps: seq<Step>, e: System, p: string, q: Request)
    returns (more: seq<Step>, e': System)
    requires Leads(ask, s, steps, e) && Enabled(e, Confirm(p, q)) && (ask.nonNegative ==> q.amount >= 0)
    requires e.db.requests == [] && e.capacity > 0 && (forall o :: o in e.pods ==> e.pods[o] == IDLE)
    requires Watched(q).Some? && Native(q.info.currency)
    ensures Leads(ask, s, more, e')
    ensures e'.db == Db([], e.db.failed, Store(e.db.accounts, EscrowAccount(q)))
    ensures e'.done == e.done + [Claimed(q, p, 0)]
    ensures |e'.transfers| == |e.transfers| + 1 && e.transfers <= e'.transfers && e'.transfers[|e.transfers|].Minted?
  {
    var lead, e0 := NextAlone(ask, s, steps, e, p, q);
    more, e' := MintsNext(ask, s, lead, e0, p, Claimed(q, p, 0));
  }

  lemma BothMinted(ask: Ask, s: System, p: string, r: Request, q: Request) returns (steps: seq<Step>, e: System)
    requires Init(s) && p in s.pods && s.capacity > 0 && Orderly(r, p) && Orderly(q, p)
    requires r.transactionId != q.transactionId && r.awrid != q.awrid && r.amount >= 0 && q.amount >= 0
    requires Watched(r).Some? && Watched(q).Some? && Native(r.info.currency) && Native(q.info.currency)
    ensures Leads(ask, s, steps, e)
    ensures Has(e.done, r.transactionId) && Has(e.done, q.transactionId)
    ensures e.db.accounts == [EscrowAccount(r), EscrowAccount(q)]
    ensures |e.transfers| == 2 && e.transfers[0].Minted? && e.transfers[1].Minted?
  {
    var first, e1 := FirstMinted(ask, s, p, r);
    StoreBoth(EscrowAccount(r), EscrowAccount(q));
    steps, e := SecondMinted(ask, s, first, e1, p, q);
    assert Claimed(r, p, 0) in e.done && Claimed(q, p, 0) in e.done;
  }

  /**
   * Two orders confirmed in one session have one wallet between them, and what a watch reads is that wallet's balance.
   * In a run of safe steps, in which the same reads pay for both, each is minted and each has its account on the
   * ledger; the two accounts hold one key. The books are kept, of a ledger that counts one deposit twice.
   */
  lemma OneDepositMintsTwice(s: System, p: string, r: Request, q: Request, events: seq<Polling.Event>)
    returns (steps: seq<Step>)
    requires Init(s) && p in s.pods && s.capacity > 0 && Orderly(r, p) && Orderly(q, p)
    requires r.transactionId != q.transactionId && r.awrid != q.awrid && Session.SameWallet(r, q)
    requires Watched(r).Some? && Watched(q) == Watched(r) && Native(r.info.currency) && Native(q.info.currency)
    requires r.amount >= q.amount >= 0
    requires Polling.Consistent(events) && Watching.Verdict(r, true, events) == Polling.Paid
    ensures Watching.Verdict(q, true, events) == Polling.Paid
    ensures Run(s, steps) && Each(Safe, s, steps)
    ensures Has(After(s, steps).done, r.transactionId) && Has(After(s, steps).done, q.transactionId)
    ensures var accounts := After(s, steps).db.accounts;
      accounts == [EscrowAccount(r), EscrowAccount(q)] && accounts[0].privateKey == accounts[1].privateKey
    ensures var made := After(s, steps).transfers; |made| == 2 && made[0].Minted? && made[1].Minted?
  {
    Watching.OneDepositPaysBoth(r, q, events);
    var ask := Ask(FreeClaims, true, true);
    var minted, e := BothMinted(ask, s, p, r, q);
    steps := minted;
    LeadsIs(ask, s, steps, e);
  }
}
