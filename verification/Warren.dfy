/** The warren: each tick's snapshot goes through a bounded channel to the workers. */
module Warren {
  import opened BridgeTypes

  /** The unlocked records, in order. */
  function Unlocked(rs: seq<Request>): seq<Request> {
    if rs == [] then [] else (if rs[0].locked then [] else [rs[0]]) + Unlocked(rs[1..])
  }

  lemma UnlockedFrom(rs: seq<Request>, i: nat)
    requires i < |rs|
    ensures Unlocked(rs[i..]) == (if rs[i].locked then [] else [rs[i]]) + Unlocked(rs[i + 1..])
  {}

  /** The unlocked records of a list are those of its parts, in order, and of one record itself or nothing. */
  lemma {:induction false} UnlockedInOrder(front: seq<Request>, r: Request, back: seq<Request>)
    ensures Unlocked(front + [r] + back) == Unlocked(front) + (if r.locked then [] else [r]) + Unlocked(back)
    ensures Unlocked([]) == []
  {
    var one := if r.locked then [] else [r];
    if front == [] {
      assert front + [r] + back == [r] + back && ([r] + back)[1..] == back;
      assert Unlocked(front) + one + Unlocked(back) == one + Unlocked(back);
    } else {
      assert (front + [r] + back)[1..] == front[1..] + [r] + back;
      UnlockedInOrder(front[1..], r, back);
      var head := if front[0].locked then [] else [front[0]];
      assert head + (Unlocked(front[1..]) + one + Unlocked(back)) == head + Unlocked(front[1..]) + one + Unlocked(back);
    }
  }

  /** A ticker event with what the read of the stored list returns (None is an error), or the cancelled context. */
  datatype Event = Ticked(snapshot: Option<seq<Request>>) | Cancelled

  /** The records the ticks hand over until the context is cancelled. */
  function HandedOver(events: seq<Event>): seq<Request> {
    if events == [] || events[0].Cancelled? then []
    else (if events[0].snapshot.Some? then Unlocked(events[0].snapshot.value) else []) + HandedOver(events[1..])
  }

  lemma Regroup(a: seq<Request>, b: seq<Request>, c: seq<Request>)
    ensures a + (b + c) == a + b + c
  {}

  lemma HandedOverFrom(events: seq<Event>, k: nat)
    requires k < |events|
    ensures HandedOver(events[k..]) == match events[k]
      case Cancelled => []
      case Ticked(None) => HandedOver(events[k + 1..])
      case Ticked(Some(awr)) => Unlocked(awr) + HandedOver(events[k + 1..])
  {}

  /** Ticks hand over their snapshots' unlocked records in turn, failed reads nothing, and a cancellation ends it. */
  lemma {:induction false} HandedOverInTurn(before: seq<Event>, e: Event, after: seq<Event>)
    requires forall i :: 0 <= i < |before| ==> before[i].Ticked?
    ensures HandedOver(before + [e] + after) ==
            HandedOver(before) + match e
              case Cancelled => []
              case Ticked(None) => HandedOver(after)
              case Ticked(Some(awr)) => Unlocked(awr) + HandedOver(after)
    ensures HandedOver([]) == []
  {
    if before == [] {
      assert before + [e] + after == [e] + after && ([e] + after)[1..] == after;
    } else {
      assert (before + [e] + after)[1..] == before[1..] + [e] + after;
      HandedOverInTurn(before[1..], e, after);
      var head := if before[0].snapshot.Some? then Unlocked(before[0].snapshot.value) else [];
      var rest := match e
        case Cancelled => []
        case Ticked(None) => HandedOver(after)
        case Ticked(Some(awr)) => Unlocked(awr) + HandedOver(after);
      Regroup(head, HandedOver(before[1..]), rest);
    }
  }

  class WarrenQueue {
    const numWorkers: nat
    var channel: seq<Request>
    var started: seq<Request>  // the watches begun, in order

    ghost predicate Valid()
      reads this
    {
      0 < numWorkers && |channel| <= numWorkers && forall r :: r in channel ==> !r.locked
    }

    constructor (numWorkers: nat)
      requires numWorkers > 0
      ensures Valid() && this.numWorkers == numWorkers && channel == [] && started == []
    {
      this.numWorkers := numWorkers;
      channel, started := [], [];
    }

    /** A worker takes the oldest copy; what it finds is unlocked, so its check drops nothing. */
    method WorkerReceives()
      requires Valid() && channel != []
      modifies this`channel, this`started
      ensures Valid()
      ensures channel == old(channel)[1..] && started == old(started) + [old(channel)[0]]
    {
      var request := channel[0];
      channel := channel[1..];
      if !request.locked {
        started := started + [request];
      }
    }

    /** A send waits while the channel is full: a worker must receive first. Before that, eager of them may. */
    method Send(request: Request, eager: nat)
      requires Valid() && !request.locked
      modifies this`channel, this`started
      ensures Valid()
      ensures started + channel == old(started + channel) + [request]
    {
      var turns := eager;
      while channel != [] && (turns > 0 || |channel| == numWorkers)
        invariant Valid()
        invariant started + channel == old(started + channel)
        decreases |channel|
      {
        ghost var s, c := started, channel;
        WorkerReceives();
        assert started + channel == s + ([c[0]] + c[1..]) == s + c;
        turns := if turns > 0 then turns - 1 else 0;
      }
      channel := channel + [request];
      assert started + channel == old(started + channel) + [request];
    }

    /** One pass over a snapshot: exactly its unlocked records go in, in order, however the workers interleave. */
    method Pass(awr: seq<Request>, eager: nat -> nat)
      requires Valid()
      modifies this`channel, this`started
      ensures Valid()
      ensures started + channel == old(started + channel) + Unlocked(awr)
    {
      assert awr[0..] == awr;
      for i := 0 to |awr|
        invariant Valid()
        invariant started + channel + Unlocked(awr[i..]) == old(started + channel) + Unlocked(awr)
      {
        UnlockedFrom(awr, i);
        ghost var before := started + channel;
        if awr[i].locked {
          assert started + channel + Unlocked(awr[i + 1..]) == before + Unlocked(awr[i..]);
          continue;
        }
        Send(awr[i], eager(i));
        assert started + channel + Unlocked(awr[i + 1..]) == before + Unlocked(awr[i..]);
      }
    }

    /** StartWarren: what was handed over is what was started followed by what is still queued. */
    method StartWarren(events: seq<Event>, eager: (nat, nat) -> nat)
      requires Valid()
      modifies this`channel, this`started
      ensures Valid()
      ensures started + channel == old(started + channel) + HandedOver(events)
    {
      var canILive := true;
      var next := 0;
      ghost var goal := started + channel + HandedOver(events);
      ghost var left := HandedOver(events);  // what is still to be handed over
      assert events[0..] == events;
      while canILive && next < |events|
        invariant Valid() && next <= |events|
        invariant left == if canILive then HandedOver(events[next..]) else []
        invariant started + channel + left == goal
        decreases |events| - next
      {
        HandedOverFrom(events, next);
        match events[next] {
          case Ticked(None) =>
          case Ticked(Some(awr)) =>
            ghost var before := started + channel;
            var now := next;
            Pass(awr, i => eager(now, i));
            left := HandedOver(events[next + 1..]);
            Regroup(before, Unlocked(awr), left);
          case Cancelled =>
            canILive := false;
        }
        next := next + 1;
      }
      assert left == [] && started + channel + left == started + channel;
    }
  }
}
