/** The six polling loops, over a sequence of ticker and timer events. */
module Polling {
  import opened BridgeTypes
  import opened Routes

  datatype Read = Failed | Balance(value: int)

  /** A tick carries what the loop would read: its balance query, and the one it verifies with. */
  datatype Event = Tick(first: Read, second: Read) | Timer

  datatype Verdict = Waiting | Paid | TimedOut | Abandoned

  datatype Effect = Dispatched(result: string) | StoredFailed | RemovedRequest

  // ---------------------------------------------------------------- the common machine

  predicate KeepsWaiting(e: Event, amount: int) {
    e.Tick? && e.first.Balance? && e.first.value < amount
  }

  predicate Confirms(e: Event, amount: int) {
    e.Tick? && e.first.Balance? && e.first.value >= amount && e.second.Balance? && e.second.value >= amount
  }

  function Judge(events: seq<Event>, amount: int): Verdict {
    if events == [] then Waiting
    else if KeepsWaiting(events[0], amount) then Judge(events[1..], amount)
    else if events[0].Timer? then TimedOut
    else if Confirms(events[0], amount) then Paid
    else Abandoned
  }

  /** The event at k is the first that does not leave the loop waiting. */
  predicate EndsAt(events: seq<Event>, amount: int, k: int) {
    && 0 <= k < |events|
    && !KeepsWaiting(events[k], amount)
    && forall i :: 0 <= i < k ==> KeepsWaiting(events[i], amount)
  }

  /**
   * The verdict is decided by the one ending event: paid by a tick that confirms, timed out by the timer, else
   * abandoned.
   */
  lemma {:induction false} VerdictIsTheEndingEvent(events: seq<Event>, amount: int)
    ensures Judge(events, amount) == Waiting <==> forall i :: 0 <= i < |events| ==> KeepsWaiting(events[i], amount)
    ensures Judge(events, amount) == Paid <==> exists k :: EndsAt(events, amount, k) && Confirms(events[k], amount)
    ensures Judge(events, amount) == TimedOut <==> exists k :: EndsAt(events, amount, k) && events[k].Timer?
    ensures Judge(events, amount) == Abandoned <==>
            exists k :: EndsAt(events, amount, k) && events[k].Tick? && !Confirms(events[k], amount)
    ensures forall j, k :: EndsAt(events, amount, j) && EndsAt(events, amount, k) ==> j == k
  {
    if events != [] {
      var rest := events[1..];
      VerdictIsTheEndingEvent(rest, amount);
      if KeepsWaiting(events[0], amount) {
        forall i | 0 <= i < |rest| ensures rest[i] == events[i + 1] {}
        forall k | EndsAt(events, amount, k) ensures EndsAt(rest, amount, k - 1) && rest[k - 1] == events[k] {}
        forall k | EndsAt(rest, amount, k) ensures EndsAt(events, amount, k + 1) && events[k + 1] == rest[k] {}
      } else {
        assert EndsAt(events, amount, 0);
      }
    }
  }

  /** A tick whose first read works and is short of the amount. */
  ghost predicate ShortTick(e: Event, amount: int) {
    match e
    case Tick(Balance(value), _) => value < amount
    case _ => false
  }

  lemma EndOnReads(events: seq<Event>, amount: int, k: int)
    ensures EndsAt(events, amount, k) <==>
            && 0 <= k < |events| && !ShortTick(events[k], amount)
            && forall i :: 0 <= i < k ==> ShortTick(events[i], amount)
  {}

  /**
   * What the verdicts mean for the reads. A deposit is paid exactly when, after ticks that were all short, there is one
   * with both reads working and both enough; a watch is given up exactly when, after such ticks, a first read fails,
   * or is enough and the second fails or is short; it times out exactly when the timer comes after such ticks.
   */
  lemma VerdictOnReads(events: seq<Event>, amount: int)
    ensures Judge(events, amount) == Paid <==> exists k, a, b ::
              && 0 <= k < |events| && (forall i :: 0 <= i < k ==> ShortTick(events[i], amount))
              && events[k] == Tick(Balance(a), Balance(b)) && a >= amount && b >= amount
    ensures Judge(events, amount) == Abandoned <==> exists k ::
              && 0 <= k < |events| && (forall i :: 0 <= i < k ==> ShortTick(events[i], amount))
              && match events[k]
                 case Tick(Failed, _) => true
                 case Tick(Balance(a), Failed) => a >= amount
                 case Tick(Balance(a), Balance(b)) => a >= amount && b < amount
                 case Timer => false
    ensures Judge(events, amount) == TimedOut <==> exists k ::
              0 <= k < |events| && (forall i :: 0 <= i < k ==> ShortTick(events[i], amount)) && events[k] == Timer
    ensures Judge(events, amount) == Waiting <==> forall i :: 0 <= i < |events| ==> ShortTick(events[i], amount)
  {
    VerdictIsTheEndingEvent(events, amount);
    forall k | EndsAt(events, amount, k)
      ensures !ShortTick(events[k], amount) && forall i :: 0 <= i < k ==> ShortTick(events[i], amount)
    {
      EndOnReads(events, amount, k);
    }
    forall k | && 0 <= k < |events| && !ShortTick(events[k], amount)
               && forall i :: 0 <= i < k ==> ShortTick(events[i], amount)
      ensures EndsAt(events, amount, k)
    {
      EndOnReads(events, amount, k);
    }
    forall e: Event ensures KeepsWaiting(e, amount) <==> ShortTick(e, amount) {}
    forall e: Event | Confirms(e, amount) ensures e == Tick(Balance(e.first.value), Balance(e.second.value)) {}
  }

  /** Both reads of a tick see the same. */
  predicate Consistent(events: seq<Event>) {
    forall i :: 0 <= i < |events| && events[i].Tick? ==> events[i].second == events[i].first
  }

  /** Nothing marks a deposit as spent: while reads agree, what pays for one amount pays for any smaller one. */
  lemma {:induction false} PaysForLess(events: seq<Event>, amount: int, less: int)
    requires less <= amount && Consistent(events) && Judge(events, amount) == Paid
    ensures Judge(events, less) == Paid
  {
    if KeepsWaiting(events[0], amount) && KeepsWaiting(events[0], less) {
      assert Consistent(events[1..]) by {
        forall i | 0 <= i < |events[1..]| ensures events[1..][i] == events[i + 1] {}
      }
      PaysForLess(events[1..], amount, less);
    }
  }

  // ---------------------------------------------------------------- what each loop does about it

  /** Only the native-coin loop tidies up after a success it could not dispatch. */
  function AfterDispatch(watcher: Watcher, result: string, dispatchOk: bool): seq<Effect> {
    if watcher == EvmChain && result == SUCCESS && !dispatchOk
    then [Dispatched(result), StoredFailed, RemovedRequest]
    else [Dispatched(result)]
  }

  function Effects(watcher: Watcher, verdict: Verdict, dispatchOk: bool): seq<Effect> {
    match verdict
    case Paid => AfterDispatch(watcher, SUCCESS, dispatchOk)
    case TimedOut => AfterDispatch(watcher, ERROR, dispatchOk)
    case Waiting => []
    case Abandoned => []
  }

  function Dispatches(effects: seq<Effect>): seq<string> {
    if effects == [] then []
    else (if effects[0].Dispatched? then [effects[0].result] else []) + Dispatches(effects[1..])
  }

  /** Every loop dispatches at most once; a success exactly when paid and an error exactly when timed out. */
  lemma DispatchesOnce(watcher: Watcher, verdict: Verdict, dispatchOk: bool)
    ensures Dispatches(Effects(watcher, verdict, dispatchOk)) ==
            if verdict == Paid then [SUCCESS] else if verdict == TimedOut then [ERROR] else []
  {
    if verdict == Paid || verdict == TimedOut {
      var effects := Effects(watcher, verdict, dispatchOk);
      assert effects[1..] == [] || effects[1..] == [StoredFailed, RemovedRequest];
      assert [StoredFailed, RemovedRequest][1..] == [RemovedRequest];
    }
  }

  /** Only a paid native-coin watch whose dispatch failed is tidied up after: stored as failed, and then removed. */
  lemma TidiesUpExactlyWhen(watcher: Watcher, verdict: Verdict, dispatchOk: bool)
    ensures Effects(watcher, verdict, dispatchOk) ==
            if watcher == EvmChain && verdict == Paid && !dispatchOk
            then [Dispatched("success"), StoredFailed, RemovedRequest]
            else if verdict == Paid then [Dispatched("success")]
            else if verdict == TimedOut then [Dispatched("error")]
            else []
  {}

  // ---------------------------------------------------------------- the loops

  /** The loop for native coins, which verifies with the chain's second RPC server. */
  method WaitAndVerifyEVMChain(watch: bool, events: seq<Event>, amount: int, dispatchOk: bool)
    returns (effects: seq<Effect>)
    ensures effects == Effects(EvmChain, if watch then Judge(events, amount) else Paid, dispatchOk)
  {
    effects := [];
    if !watch {
      effects := effects + [Dispatched(SUCCESS)];
      if !dispatchOk {
        effects := effects + [StoredFailed];
        effects := effects + [RemovedRequest];
      }
      return;
    }
    var canILive := true;
    var next := 0;
    while canILive && next < |events|
      invariant canILive && next <= |events| && effects == []
      invariant Judge(events[next..], amount) == Judge(events, amount)
      decreases |events| - next
    {
      var event := events[next];
      assert events[next..][1..] == events[next + 1..];
      next := next + 1;
      match event {
        case Tick(balance, verifiedBalance) =>
          if balance.Failed? {
            return;
          }
          if balance.value == amount || balance.value > amount {
            if verifiedBalance.Failed? {
              return;
            }
            if verifiedBalance.value == amount || verifiedBalance.value > amount {
              effects := effects + [Dispatched(SUCCESS)];
              if !dispatchOk {
                effects := effects + [StoredFailed];
                effects := effects + [RemovedRequest];
              }
              canILive := false;
              return;
            } else {
              return;
            }
          }
        case Timer =>
          effects := effects + [Dispatched(ERROR)];
          canILive := false;
          return;
      }
    }
  }

  /** The four loops for wrapped tokens, alike but for the contract they query; they read the same RPC server twice. */
  method WaitAndVerifyBridgeToken(watcher: Watcher, watch: bool, events: seq<Event>, amount: int, dispatchOk: bool)
    returns (effects: seq<Effect>)
    requires watcher != EvmChain && watcher != BscUsdt
    ensures effects == Effects(watcher, if watch then Judge(events, amount) else Paid, dispatchOk)
  {
    effects := [];
    if !watch {
      return [Dispatched(SUCCESS)];
    }
    var canILive := true;
    var next := 0;
    while canILive && next < |events|
      invariant canILive && next <= |events| && effects == []
      invariant Judge(events[next..], amount) == Judge(events, amount)
      decreases |events| - next
    {
      var event := events[next];
      assert events[next..][1..] == events[next + 1..];
      next := next + 1;
      match event {
        case Tick(balance, verifiedBalance) =>
          if balance.Failed? {
            return;
          }
          if balance.value == amount || balance.value > amount {
            if verifiedBalance.Failed? {
              return;
            }
            if verifiedBalance.value == amount || verifiedBalance.value > amount {
              effects := effects + [Dispatched(SUCCESS)];
              canILive := false;
              return;
            } else {
              return;
            }
          }
        case Timer =>
          effects := effects + [Dispatched(ERROR)];
          canILive := false;
          return;
      }
    }
  }

  /** The events as the common machine would see them: failed reads left out, the read verified by itself. */
  function Erase(events: seq<Event>): seq<Event> {
    if events == [] then []
    else if events[0].Timer? then [Timer] + Erase(events[1..])
    else if events[0].first.Failed? then Erase(events[1..])
    else [Tick(events[0].first, events[0].first)] + Erase(events[1..])
  }

  lemma {:induction false} ErasedIsConsistent(events: seq<Event>)
    ensures Consistent(Erase(events))
  {
    if events != [] {
      ErasedIsConsistent(events[1..]);
    }
  }

  lemma EraseFrom(events: seq<Event>, k: nat, amount: int)
    requires k < |events|
    ensures var e := events[k];
      Judge(Erase(events[k..]), amount) ==
        if e.Timer? then TimedOut
        else if e.first.Balance? && e.first.value >= amount then Paid
        else Judge(Erase(events[k + 1..]), amount)
  {}

  /** Its loop never abandons a watch, whatever the reads. */
  lemma {:induction false} ErasedIsNeverAbandoned(events: seq<Event>, amount: int)
    ensures Judge(Erase(events), amount) != Abandoned
  {
    if events != [] {
      EraseFrom(events, 0, amount);
      assert events[0..] == events;
      ErasedIsNeverAbandoned(events[1..], amount);
    }
  }

  /** A tick that the BSCUSDT loop goes on after: its read failed, or is short of the amount. */
  ghost predicate FailedOrShort(e: Event, amount: int) {
    match e
    case Tick(Failed, _) => true
    case Tick(Balance(value), _) => value < amount
    case Timer => false
  }

  ghost predicate StopsAt(events: seq<Event>, amount: int, k: int) {
    && 0 <= k < |events|
    && !FailedOrShort(events[k], amount)
    && forall i :: 0 <= i < k ==> FailedOrShort(events[i], amount)
  }

  /** For that loop one read that works and is enough pays, and the timer ends it; nothing else does. */
  lemma {:induction false} ErasedVerdictOnReads(events: seq<Event>, amount: int)
    ensures Judge(Erase(events), amount) == Paid <==> exists k ::
              && StopsAt(events, amount, k)
              && events[k].Tick? && events[k].first.Balance? && events[k].first.value >= amount
    ensures Judge(Erase(events), amount) == TimedOut <==> exists k :: StopsAt(events, amount, k) && events[k] == Timer
    ensures Judge(Erase(events), amount) == Waiting <==>
            forall i :: 0 <= i < |events| ==> FailedOrShort(events[i], amount)
    ensures forall j, k :: StopsAt(events, amount, j) && StopsAt(events, amount, k) ==> j == k
  {
    if events != [] {
      var rest := events[1..];
      EraseFrom(events, 0, amount);
      assert events[0..] == events;
      ErasedVerdictOnReads(rest, amount);
      if FailedOrShort(events[0], amount) {
        forall i | 0 <= i < |rest| ensures rest[i] == events[i + 1] {}
        forall k | StopsAt(events, amount, k) ensures StopsAt(rest, amount, k - 1) && rest[k - 1] == events[k] {}
        forall k | StopsAt(rest, amount, k) ensures StopsAt(events, amount, k + 1) && events[k + 1] == rest[k] {}
      } else {
        assert StopsAt(events, amount, 0);
      }
    }
  }

  /** The BSCUSDT loop: one read a tick, and a failed one is retried. Its context never ends, being Background(). */
  method WaitAndVerifyBSCUSDT(watch: bool, events: seq<Event>, amount: int, dispatchOk: bool)
    returns (effects: seq<Effect>)
    ensures effects == Effects(BscUsdt, if watch then Judge(Erase(events), amount) else Paid, dispatchOk)
  {
    effects := [];
    if !watch {
      return [Dispatched(SUCCESS)];
    }
    var canILive := true;
    var next := 0;
    assert events[0..] == events;
    while canILive && next < |events|
      invariant canILive && next <= |events| && effects == []
      invariant Judge(Erase(events[next..]), amount) == Judge(Erase(events), amount)
      decreases |events| - next
    {
      EraseFrom(events, next, amount);
      var event := events[next];
      next := next + 1;
      match event {
        case Tick(balance, _) =>
          if balance.Failed? {
            continue;
          }
          if balance.value >= amount {
            effects := effects + [Dispatched(SUCCESS)];
            canILive := false;
            return;
          }
        case Timer =>
          effects := effects + [Dispatched(ERROR)];
          canILive := false;
          return;
      }
    }
  }
}
