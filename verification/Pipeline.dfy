/** From a stored record to its watch: what ticks read, Warren passes on and workers start, in the protocol's runs. */
module Pipeline {
  import opened BridgeTypes
  import opened Dispatching
  import opened Protocol
  import Requests
  import Warren

  /** The watches a pod has started, or will: of its workers, in its channel, and in what is left of its snapshot. */
  function Due(pod: Pod): seq<Request> {
    pod.started + pod.channel + Warren.Unlocked(pod.pending)
  }

  /** A pod goes down by being killed or by a panic of a dispatch. */
  ghost predicate GoesDown(s: System, step: Step)
    requires Enabled(s, step)
  {
    || step.Kill?
    || (step.Finish? && Settle(s.db, s.pods[step.pod].watching[step.k], step.result, step.shimOk).status.Panicked?)
  }

  lemma TickDue(s: System, p: string)
    requires Enabled(s, Tick(p))
    ensures Due(Next(s, Tick(p)).pods[p]) == Due(s.pods[p]) + Warren.Unlocked(s.db.requests)
  {
    assert Warren.Unlocked([]) == [];
  }

  lemma OfferDue(s: System, p: string)
    requires Enabled(s, Offer(p))
    ensures Due(Next(s, Offer(p)).pods[p]) == Due(s.pods[p])
  {}

  lemma ReceiveDue(s: System, p: string)
    requires Enabled(s, Receive(p)) && !s.pods[p].channel[0].locked
    ensures Due(Next(s, Receive(p)).pods[p]) == Due(s.pods[p])
  {
    assert s.pods[p].channel == [s.pods[p].channel[0]] + s.pods[p].channel[1..];
  }

  lemma ClaimDue(s: System, p: string, k: nat, now: int)
    requires Enabled(s, Claim(p, k, now))
    ensures Due(Next(s, Claim(p, k, now)).pods[p]) == Due(s.pods[p].(started := Drop(s.pods[p].started, k)))
  {}

  lemma FinishDue(s: System, step: Step)
    requires Enabled(s, step) && step.Finish?
    ensures Due(Next(s, step).pods[step.pod]) == if GoesDown(s, step) then [] else Due(s.pods[step.pod])
  {}

  lemma OtherDue(s: System, step: Step)
    requires Enabled(s, step) && (step.Confirm? || step.Quit? || step.Unlock? || step.Kill?)
    ensures Due(Next(s, step).pods[step.pod]) == if step.Kill? then [] else Due(s.pods[step.pod])
  {}

  ghost function DueAfter(s: System, step: Step): seq<Request>
    requires Enabled(s, step)
  {
    var pod := s.pods[step.pod];
    if step.Tick? then Due(pod) + Warren.Unlocked(s.db.requests)
    else if step.Claim? then Due(pod.(started := Drop(pod.started, step.k)))
    else if GoesDown(s, step) then []
    else Due(pod)
  }

  /**
   * What each step does to what its pod has due: a tick adds exactly the records stored unlocked, in their order,
   * passing on and starting lose nothing and change no order, a claim takes its own, and only going down takes the
   * rest. To what other pods have due it does nothing.
   */
  lemma DueExactly(s: System, step: Step)
    requires Sound(s) && Enabled(s, step)
    ensures step.pod in Next(s, step).pods && Due(Next(s, step).pods[step.pod]) == DueAfter(s, step)
    ensures forall p :: p in s.pods && p != step.pod ==> p in Next(s, step).pods && Next(s, step).pods[p] == s.pods[p]
  {
    match step {
      case Tick(p) => TickDue(s, p);
      case Offer(p) => OfferDue(s, p);
      case Receive(p) =>
        assert !s.pods[p].channel[0].locked by {
          assert PodOk(s.issued, s.capacity, p, s.pods[p]) && s.pods[p].channel[0] in s.pods[p].channel;
        }
        ReceiveDue(s, p);
      case Claim(p, k, now) => ClaimDue(s, p, k, now);
      case Finish(_, _, _, _) => FinishDue(s, step);
      case _ => OtherDue(s, step);
    }
  }

  /** A pod with nothing left of its snapshot and an empty channel has started all it had due. */
  ghost predicate Drained(s: System, e: System, p: string)
    requires p in s.pods
  {
    e == s.(pods := s.pods[p := Pod([], [], Due(s.pods[p]), s.pods[p].watching)])
  }

  lemma NothingLeft(s: System, p: string)
    requires p in s.pods && s.pods[p].pending == [] && s.pods[p].channel == []
    ensures Drained(s, s, p)
  {
    var pod := s.pods[p];
    assert Due(pod) == pod.started;
    assert pod == Pod([], [], Due(pod), pod.watching);
    assert s.pods[p := pod] == s.pods;
  }

  /** An offer or a receive of the pod changes the pod only, and not what it has due or watches. */
  lemma PassesOn(s: System, step: Step, e: System)
    requires Sound(s) && Enabled(s, step) && (step.Offer? || step.Receive?)
    requires step.pod in Next(s, step).pods && Drained(Next(s, step), e, step.pod)
    ensures Drained(s, e, step.pod)
  {
    DueExactly(s, step);
  }

  /** Whatever has been passed on or not, offers and receives of the pod alone drain it. */
  lemma {:induction false} Drains(s: System, p: string) returns (steps: seq<Step>)
    requires Sound(s) && p in s.pods && s.capacity > 0
    ensures Run(s, steps) && (forall step :: step in steps ==> step == Offer(p) || step == Receive(p))
    ensures Drained(s, After(s, steps), p)
    decreases 2 * |s.pods[p].pending| + |s.pods[p].channel|
  {
    var pod := s.pods[p];
    if pod.pending == [] && pod.channel == [] {
      steps := [];
      NothingLeft(s, p);
    } else {
      var step := if pod.channel != [] then Receive(p) else Offer(p);
      StepKeeps(s, step);
      var rest := Drains(Next(s, step), p);
      steps := [step] + rest;
      assert steps[1..] == rest;
      PassesOn(s, step, After(Next(s, step), rest));
    }
  }

  /** So after a tick every record that is stored unlocked is started, in order, and can be claimed. */
  lemma TicksAreStarted(s: System, p: string) returns (steps: seq<Step>)
    requires Sound(s) && p in s.pods && s.pods[p].pending == [] && s.capacity > 0
    ensures Run(s, [Tick(p)] + steps) && (forall step :: step in steps ==> step == Offer(p) || step == Receive(p))
    ensures var e := After(s, [Tick(p)] + steps);
      && p in e.pods && e.db == s.db
      && e.pods[p].started == s.pods[p].started + s.pods[p].channel + Warren.Unlocked(s.db.requests)
      && forall k, now :: 0 <= k < |e.pods[p].started| ==> Enabled(e, Claim(p, k, now))
  {
    StepKeeps(s, Tick(p));
    DueExactly(s, Tick(p));
    steps := Drains(Next(s, Tick(p)), p);
    assert ([Tick(p)] + steps)[1..] == steps;
    assert Warren.Unlocked([]) == [];
  }

  /** The claimed record is stored locked by its pod with the time of the claim, its order's only record. */
  lemma ClaimStamps(s: System, step: Step)
    requires Sound(s) && Enabled(s, step) && step.Claim?
    ensures var t := s.pods[step.pod].started[step.k].transactionId;
      && Has(Next(s, step).db.requests, t)
      && forall d :: d in Next(s, step).db.requests && d.transactionId == t ==>
           d.locked && d.lockedBy == step.pod && d.lockedTime == step.now
  {
    ClaimKeeps(s, step);
    assert Claimed(s.pods[step.pod].started[step.k], step.pod, step.now) in Next(s, step).db.requests;
  }
}
