/** A watcher's steps in the protocol are what its polling loop can come to. */
module Watching {
  import opened BridgeTypes
  import opened Routes
  import opened Dispatching
  import opened Protocol
  import Polling
  import Requests

  /** What the loop that watches this copy makes of its events; without watching, every deposit counts as paid. */
  function Verdict(c: Request, watch: bool, events: seq<Polling.Event>): Polling.Verdict {
    if !watch then Polling.Paid
    else if Watched(c) == Some(BscUsdt) then Polling.Judge(Polling.Erase(events), c.amount)
    else Polling.Judge(events, c.amount)
  }

  /** The step by which goroutine k of the pod ends; None while it goes on. */
  function Ending(verdict: Polling.Verdict, p: string, k: nat, shimOk: bool): Option<Step> {
    match verdict
    case Paid => Some(Finish(p, k, SUCCESS, shimOk))
    case TimedOut => Some(Finish(p, k, ERROR, shimOk))
    case Abandoned => Some(Quit(p, k))
    case Waiting => None
  }

  /** The loop's effects are the step's: the same result dispatched, and the same order moved to the failed list. */
  ghost predicate Matches(s: System, step: Step, c: Request, effects: seq<Polling.Effect>) {
    && Enabled(s, step)
    && Polling.Dispatches(effects) == (if step.Finish? then [step.result] else [])
    && Next(s, step).db.failed == s.db.failed + (if Polling.StoredFailed in effects then [c] else [])
    && (Polling.StoredFailed in effects <==> Polling.RemovedRequest in effects)
    && (Polling.RemovedRequest in effects ==> !Has(Next(s, step).db.requests, c.transactionId))
  }

  ghost predicate DispatchOk(s: System, c: Request, step: Step) {
    step.Finish? && Settle(s.db, c, step.result, step.shimOk).status.Ok?
  }

  /** What a dispatch leaves of the lists is what the loop's tidying up leaves. */
  lemma SettleMatches(db: Db, c: Request, result: string, shimOk: bool)
    requires Requests.Unique(db.requests) && Watched(c).Some? && c.info.bridgeFrom == c.chain
    ensures var o := Settle(db, c, result, shimOk);
      var tidied := Watched(c) == Some(EvmChain) && result == SUCCESS && !o.status.Ok?;
      && o.db.failed == db.failed + (if tidied then [c] else [])
      && (tidied ==> !Has(o.db.requests, c.transactionId))
  {
    WatchedIsBridged(c.chain, c.info.bridgeTo, c.info.currency);
    SettleIs(db, c, result, shimOk);
    Removes(db.requests, c.transactionId);
  }

  lemma FinishMatches(s: System, step: Step, c: Request, effects: seq<Polling.Effect>)
    requires Sound(s) && Enabled(s, step) && step.Finish? && c == s.pods[step.pod].watching[step.k] && Watched(c).Some?
    requires effects == Polling.AfterDispatch(Watched(c).value, step.result, DispatchOk(s, c, step))
    requires Polling.Dispatches(effects) == [step.result]
    ensures Matches(s, step, c, effects)
  {
    assert c.info.bridgeFrom == c.chain by {
      assert PodOk(s.issued, s.capacity, step.pod, s.pods[step.pod]) && c in s.pods[step.pod].watching;
    }
    SettleMatches(s.db, c, step.result, step.shimOk);
  }

  /** Whatever the events, a loop that ends takes an enabled step of the protocol, to the same effect. */
  lemma VerdictsAreSteps(s: System, p: string, k: nat, watch: bool, events: seq<Polling.Event>, shimOk: bool)
    requires Sound(s) && p in s.pods && k < |s.pods[p].watching|
    ensures var c := s.pods[p].watching[k];
      var verdict := Verdict(c, watch, events);
      var step := Ending(verdict, p, k, shimOk);
      && Watched(c).Some?
      && (step.Some? ==>
            Matches(s, step.value, c, Polling.Effects(Watched(c).value, verdict, DispatchOk(s, c, step.value))))
  {
    var c := s.pods[p].watching[k];
    var verdict := Verdict(c, watch, events);
    assert Watched(c).Some? by {
      assert PodOk(s.issued, s.capacity, p, s.pods[p]) && c in s.pods[p].watching;
    }
    var step := Ending(verdict, p, k, shimOk);
    if step.Some? {
      var dispatchOk := DispatchOk(s, c, step.value);
      Polling.DispatchesOnce(Watched(c).value, verdict, dispatchOk);
      if verdict == Polling.Abandoned {
        Polling.ErasedIsNeverAbandoned(events, c.amount);
      } else {
        FinishMatches(s, step.value, c, Polling.Effects(Watched(c).value, verdict, dispatchOk));
      }
    }
  }

  /** Every verdict but one is some loop's on some events: a BSCUSDT watch is never abandoned. */
  lemma SomeEvents(c: Request, verdict: Polling.Verdict) returns (events: seq<Polling.Event>)
    requires Watched(c) == Some(BscUsdt) ==> verdict != Polling.Abandoned
    ensures Verdict(c, true, events) == verdict
  {
    match verdict {
      case Paid => events := [Polling.Tick(Polling.Balance(c.amount), Polling.Balance(c.amount))];
      case TimedOut => events := [Polling.Timer];
      case Abandoned => events := [Polling.Tick(Polling.Failed, Polling.Failed)];
      case Waiting => events := [];
    }
    if events != [] { assert events[1..] == []; }
  }

  /** And every step the protocol lets a watcher take is one its loop comes to on some events. */
  lemma StepsAreVerdicts(s: System, step: Step) returns (events: seq<Polling.Event>)
    requires Enabled(s, step) && (step.Quit? || step.Finish?)
    ensures var c := s.pods[step.pod].watching[step.k];
      Ending(Verdict(c, true, events), step.pod, step.k, step.Finish? && step.shimOk) == Some(step)
  {
    var c := s.pods[step.pod].watching[step.k];
    events := SomeEvents(c,
      if step.Quit? then Polling.Abandoned else if step.result == SUCCESS then Polling.Paid else Polling.TimedOut);
  }

  /**
   * Two orders with one deposit address have one balance to read: on reads that agree, whatever pays for the one pays
   * for the other, if it is of no greater amount.
   */
  lemma OneDepositPaysBoth(c: Request, d: Request, events: seq<Polling.Event>)
    requires c.account == d.account && Watched(c) == Watched(d) && d.amount <= c.amount
    requires Watched(c) == Some(BscUsdt) || Polling.Consistent(events)
    requires Verdict(c, true, events) == Polling.Paid
    ensures Verdict(d, true, events) == Polling.Paid
  {
    Polling.ErasedIsConsistent(events);
    Polling.PaysForLess(if Watched(c) == Some(BscUsdt) then Polling.Erase(events) else events, c.amount, d.amount);
  }
}
