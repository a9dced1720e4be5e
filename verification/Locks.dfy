/** The lock protocol between pods, in every run of the protocol. */
module Locks {
  import opened BridgeTypes
  import opened Protocol
  import Requests

  lemma OneRecord(s: System, r: Request)
    requires Sound(s) && r in s.db.requests
    ensures forall d :: d in s.db.requests && d.transactionId == r.transactionId ==> d == r
  {}

  /** Except for an unlocking, a step stores a fresh order or a locked copy, or adds nothing. */
  lemma NewRecords(s: System, step: Step)
    requires Sound(s) && Enabled(s, step) && !step.Unlock?
    ensures forall d :: d in Next(s, step).db.requests ==>
              d in s.db.requests || d.locked || (step.Confirm? && d == step.order)
  {
    if step.Confirm? {
      ConfirmKeeps(s, step);
    } else if step.Claim? {
      ClaimKeeps(s, step);
    } else if step.Finish? {
      FinishRequests(s, step);
    }
  }

  lemma OthersKeepLocks(s: System, step: Step, r: Request)
    requires Sound(s) && Enabled(s, step) && !step.Unlock?
    requires r in s.db.requests && r.locked
    ensures forall d :: d in Next(s, step).db.requests && d.transactionId == r.transactionId ==> d.locked
  {
    OneRecord(s, r);
    NewRecords(s, step);
    if step.Confirm? { assert Known(s.issued, r); }
  }

  lemma PodUnlocks(s: System, p: string, r: Request)
    requires Sound(s) && r in s.db.requests && r.locked
    ensures var out := Requests.UnlockPod(s.db.requests, p);
      (exists d :: d in out && d.transactionId == r.transactionId && !d.locked) <==> p == r.lockedBy
  {
    OneRecord(s, r);
    var out := Requests.UnlockPod(s.db.requests, p);
    if p == r.lockedBy {
      Requests.UnlockHas(s.db.requests, p, r);
      assert Requests.Freed(r, p).transactionId == r.transactionId && !Requests.Freed(r, p).locked;
    }
    if d :| d in out && d.transactionId == r.transactionId && !d.locked {
      var c := Requests.UnlockFrom(s.db.requests, p, d);
    }
  }

  /**
   * A locked record that is still listed after a step has been unlocked by it exactly when the step is the
   * unlocking of the pod named in LockedBy, as it shuts down.
   */
  lemma UnlockedExactlyBy(s: System, step: Step, r: Request)
    requires Sound(s) && Enabled(s, step)
    requires r in s.db.requests && r.locked
    ensures (exists d :: d in Next(s, step).db.requests && d.transactionId == r.transactionId && !d.locked) <==>
            step == Unlock(r.lockedBy)
  {
    if step.Unlock? {
      PodUnlocks(s, step.pod, r);
    } else {
      OthersKeepLocks(s, step, r);
    }
  }

  // ---------------------------------------------------------------- copies in flight

  /** The unlocked copies of one order. */
  function Copies(cs: seq<Request>, t: string): nat {
    if cs == [] then 0 else (if cs[0].transactionId == t && !cs[0].locked then 1 else 0) + Copies(cs[1..], t)
  }

  /** Those a pod holds in its snapshot, its channel, and its watches that have not locked yet. */
  function InFlight(pod: Pod, t: string): nat {
    Copies(pod.pending, t) + Copies(pod.channel, t) + Copies(pod.started, t)
  }

  lemma {:induction false} CopiesConcat(a: seq<Request>, b: seq<Request>, t: string)
    ensures Copies(a + b, t) == Copies(a, t) + Copies(b, t)
  {
    if a == [] {
      assert a + b == b;
    } else {
      assert (a + b)[1..] == a[1..] + b;
      CopiesConcat(a[1..], b, t);
    }
  }

  lemma {:induction false} NoCopies(cs: seq<Request>, t: string)
    requires forall c :: c in cs && c.transactionId == t ==> c.locked
    ensures Copies(cs, t) == 0
  {
    if cs != [] {
      NoCopies(cs[1..], t);
    }
  }

  lemma DropCopies(cs: seq<Request>, k: nat, t: string)
    requires k < |cs|
    ensures Copies(Drop(cs, k), t) == Copies(cs, t) - Copies([cs[k]], t)
  {
    CopiesConcat(cs[..k], cs[k + 1..], t);
    CopiesConcat(cs[..k], [cs[k]] + cs[k + 1..], t);
    CopiesConcat([cs[k]], cs[k + 1..], t);
    assert cs == cs[..k] + ([cs[k]] + cs[k + 1..]);
  }

  /** Handing the oldest copy on makes none. */
  lemma HandOnCopies(from: seq<Request>, to: seq<Request>, moved: seq<Request>, t: string)
    requires from != [] && moved == if from[0].locked then [] else [from[0]]
    ensures Copies(from[1..], t) + Copies(to + moved, t) == Copies(from, t) + Copies(to, t)
  {
    CopiesConcat(to, moved, t);
    var n := if from[0].transactionId == t && !from[0].locked then 1 else 0;
    assert Copies(from, t) == n + Copies(from[1..], t);
    assert Copies(moved, t) == n by {
      if moved == [] {
        assert n == 0;
      } else {
        assert moved[1..] == [];
        assert Copies([], t) == 0;
      }
    }
  }

  /** No step gives any pod another unlocked copy of an order that is stored locked: only a snapshot could. */
  lemma CopiesNeverGrow(s: System, step: Step, r: Request, p: string)
    requires Sound(s) && Enabled(s, step) && p in s.pods
    requires r in s.db.requests && r.locked
    ensures p in Next(s, step).pods
    ensures InFlight(Next(s, step).pods[p], r.transactionId) <= InFlight(s.pods[p], r.transactionId)
  {
    var t := r.transactionId;
    var pod := s.pods[step.pod];
    if step.Tick? {
      OneRecord(s, r);
      NoCopies(s.db.requests, t);
    } else if step.Offer? {
      HandOnCopies(pod.pending, pod.channel, if pod.pending[0].locked then [] else [pod.pending[0]], t);
    } else if step.Receive? {
      HandOnCopies(pod.channel, pod.started, if pod.channel[0].locked then [] else [pod.channel[0]], t);
    } else if step.Claim? {
      DropCopies(pod.started, step.k, t);
    }
  }

  ghost predicate LockedIn(s: System, t: string) {
    exists r :: r in s.db.requests && r.transactionId == t && r.locked
  }

  /** Before each of the steps the order is stored locked. */
  ghost predicate StaysLocked(s: System, steps: seq<Step>, t: string)
    requires Run(s, steps)
    decreases |steps|
  {
    steps == [] || (LockedIn(s, t) && StaysLocked(Next(s, steps[0]), steps[1..], t))
  }

  /**
   * Over any stretch of a run in which an order stays locked, no pod ends with more unlocked copies than it began
   * with.
   */
  lemma {:induction false} CopiesNeverGrowWhileLocked(s: System, steps: seq<Step>, t: string, p: string)
    requires Sound(s) && Run(s, steps) && StaysLocked(s, steps, t) && p in s.pods
    ensures p in After(s, steps).pods
    ensures InFlight(After(s, steps).pods[p], t) <= InFlight(s.pods[p], t)
    decreases |steps|
  {
    if steps != [] {
      var r :| r in s.db.requests && r.transactionId == t && r.locked;
      CopiesNeverGrow(s, steps[0], r, p);
      StepKeeps(s, steps[0]);
      CopiesNeverGrowWhileLocked(Next(s, steps[0]), steps[1..], t, p);
    }
  }
}
