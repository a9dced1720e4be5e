/** The stored list of watch requests: insert or update, unlock on crash, and removal while ranging. */
module Requests {
  import opened BridgeTypes
  import Uuid

  // ---------------------------------------------------------------- insert or update

  predicate SameId(a: Request, b: Request) {
    Uuid.Parse(a.awrid).Some? && Uuid.Parse(a.awrid) == Uuid.Parse(b.awrid)
  }

  /** Replaces every record with the request's AWRID. */
  function Replace(rs: seq<Request>, request: Request): seq<Request> {
    seq(|rs|, i requires 0 <= i < |rs| => if SameId(rs[i], request) then request else rs[i])
  }

  /** None is the parse error, on which nothing is written back. */
  function Upsert(rs: seq<Request>, request: Request): Option<seq<Request>> {
    if && rs != []
       && (Uuid.Parse(request.awrid).None? || exists i :: 0 <= i < |rs| && Uuid.Parse(rs[i].awrid).None?)
    then None
    else if exists i :: 0 <= i < |rs| && SameId(rs[i], request) then Some(Replace(rs, request))
    else Some(rs + [request])
  }

  /** On any list: an ID that cannot be parsed stops it, and otherwise every record read as the same ID is replaced. */
  lemma UpsertAnywhere(rs: seq<Request>, r: Request)
    ensures Upsert(rs, r).None? <==>
            rs != [] && (Uuid.Parse(r.awrid).None? || exists i :: 0 <= i < |rs| && Uuid.Parse(rs[i].awrid).None?)
    ensures Upsert(rs, r).Some? ==>
              var out := Upsert(rs, r).value;
              if exists i :: 0 <= i < |rs| && Uuid.Parse(rs[i].awrid) == Uuid.Parse(r.awrid)
              then |out| == |rs| && forall i :: 0 <= i < |rs| ==>
                     out[i] == if Uuid.Parse(rs[i].awrid) == Uuid.Parse(r.awrid) then r else rs[i]
              else out == rs + [r]
  {
    if i :| 0 <= i < |rs| && Uuid.Parse(rs[i].awrid) == Uuid.Parse(r.awrid) && Upsert(rs, r).Some? {
      assert SameId(rs[i], r);
    }
  }

  // ---------------------------------------------------------------- crash

  function Freed(r: Request, pod: string): Request {
    if r.lockedBy == pod then r.(locked := false, lockedBy := "") else r
  }

  function UnlockPod(rs: seq<Request>, pod: string): seq<Request> {
    seq(|rs|, i requires 0 <= i < |rs| => Freed(rs[i], pod))
  }

  /**
   * After it no record names a pod that has a name, and nothing but the two lock fields of that pod's own records has
   * changed.
   */
  lemma UnlockLeavesNone(rs: seq<Request>, pod: string)
    ensures |UnlockPod(rs, pod)| == |rs|
    ensures pod != "" ==> forall i :: 0 <= i < |rs| ==> UnlockPod(rs, pod)[i].lockedBy != pod
    ensures forall i :: 0 <= i < |rs| ==>
              var was, now := rs[i], UnlockPod(rs, pod)[i];
              if was.lockedBy != pod then now == was
              else !now.locked && now.lockedBy == "" && now.(locked := was.locked, lockedBy := was.lockedBy) == was
  {}

  // ---------------------------------------------------------------- removal

  /** What removal is for: the list without the records of one transaction. */
  function Without(rs: seq<Request>, tid: string): seq<Request> {
    if rs == [] then []
    else (if rs[0].transactionId == tid then [] else [rs[0]]) + Without(rs[1..], tid)
  }

  /** What the ranging loop leaves: after each removal the record that slid into its place is not looked at. */
  function Skipping(rs: seq<Request>, tid: string): seq<Request> {
    if rs == [] then []
    else if rs[0].transactionId != tid then [rs[0]] + Skipping(rs[1..], tid)
    else if |rs| == 1 then []
    else [rs[1]] + Skipping(rs[2..], tid)
  }

  datatype Removal = Removed(list: seq<Request>) | OutOfRange

  /** The loop slices out of range when the last record matches and an earlier one did too. */
  predicate LastMatchIsLate(rs: seq<Request>, tid: string) {
    && rs != []
    && rs[|rs| - 1].transactionId == tid
    && exists i :: 0 <= i < |rs| - 1 && rs[i].transactionId == tid
  }

  function RemoveLoop(rs: seq<Request>, tid: string): Removal {
    if LastMatchIsLate(rs, tid) then OutOfRange else Removed(Skipping(rs, tid))
  }

  predicate NeighboursMatch(rs: seq<Request>, tid: string) {
    exists i :: 0 <= i < |rs| - 1 && rs[i].transactionId == tid && rs[i + 1].transactionId == tid
  }

  lemma {:induction false} WithoutHas(rs: seq<Request>, tid: string, c: Request)
    ensures c in Without(rs, tid) <==> c in rs && c.transactionId != tid
  {
    if rs != [] {
      assert rs == [rs[0]] + rs[1..];
      WithoutHas(rs[1..], tid, c);
    }
  }

  lemma {:induction false} SkippingIsWithout(rs: seq<Request>, tid: string)
    requires !NeighboursMatch(rs, tid)
    ensures Skipping(rs, tid) == Without(rs, tid)
  {
    if rs == [] {
    } else if rs[0].transactionId != tid {
      SkippingIsWithout(rs[1..], tid);
    } else if |rs| > 1 {
      assert rs[0 + 1].transactionId != tid;
      assert rs[1..][1..] == rs[2..];
      forall i | 0 <= i < |rs[2..]| - 1
        ensures !(rs[2..][i].transactionId == tid && rs[2..][i + 1].transactionId == tid)
      {
        assert rs[2 + i].transactionId != tid || rs[2 + i + 1].transactionId != tid;
      }
      SkippingIsWithout(rs[2..], tid);
    }
  }

  /** Two matching neighbours always leave one of them behind. */
  lemma {:induction false} SkippingLeavesNeighbour(rs: seq<Request>, tid: string)
    requires NeighboursMatch(rs, tid)
    ensures exists c :: c in Skipping(rs, tid) && c.transactionId == tid
  {
    var i :| 0 <= i < |rs| - 1 && rs[i].transactionId == tid && rs[i + 1].transactionId == tid;
    if rs[0].transactionId != tid {
      assert rs[1..][i - 1].transactionId == tid && rs[1..][i - 1 + 1].transactionId == tid;
      SkippingLeavesNeighbour(rs[1..], tid);
      var c :| c in Skipping(rs[1..], tid) && c.transactionId == tid;
      assert c in Skipping(rs, tid);
    } else if rs[1].transactionId == tid {
      assert rs[1] in Skipping(rs, tid);
    } else {
      assert i >= 2;
      assert rs[2..][i - 2].transactionId == tid && rs[2..][i - 2 + 1].transactionId == tid;
      SkippingLeavesNeighbour(rs[2..], tid);
      var c :| c in Skipping(rs[2..], tid) && c.transactionId == tid;
      assert c in Skipping(rs, tid);
    }
  }

  /**
   * Exactly when the loop removes what it should: no two neighbours match, and a matching last record is the only one.
   */
  lemma RemovalExactlyWhen(rs: seq<Request>, tid: string)
    ensures RemoveLoop(rs, tid) == Removed(Without(rs, tid)) <==> !NeighboursMatch(rs, tid) && !LastMatchIsLate(rs, tid)
  {
    if NeighboursMatch(rs, tid) {
      SkippingLeavesNeighbour(rs, tid);
      var c :| c in Skipping(rs, tid) && c.transactionId == tid;
      WithoutHas(rs, tid, c);
    } else {
      SkippingIsWithout(rs, tid);
    }
  }

  lemma {:induction false} WithoutNone(rs: seq<Request>, tid: string)
    requires forall k :: 0 <= k < |rs| ==> rs[k].transactionId != tid
    ensures Without(rs, tid) == rs
  {
    if rs != [] {
      WithoutNone(rs[1..], tid);
    }
  }

  lemma {:induction false} WithoutConcat(a: seq<Request>, b: seq<Request>, tid: string)
    ensures Without(a + b, tid) == Without(a, tid) + Without(b, tid)
  {
    if a == [] {
      assert a + b == b;
    } else {
      assert (a + b)[1..] == a[1..] + b;
      WithoutConcat(a[1..], b, tid);
    }
  }

  lemma WithoutAt(rs: seq<Request>, k: nat, tid: string)
    requires k < |rs| && rs[k].transactionId == tid
    requires forall j :: 0 <= j < |rs| && j != k ==> rs[j].transactionId != tid
    ensures Without(rs, tid) == rs[..k] + rs[k + 1..]
  {
    var front, back := rs[..k], rs[k..];
    assert rs == front + back;
    WithoutConcat(front, back, tid);
    WithoutNone(front, tid);
    assert back[0] == rs[k] && back[1..] == rs[k + 1..];
    WithoutNone(back[1..], tid);
  }

  /** Exactly when the loop slices out of range: the last record matches and so does an earlier one. */
  lemma RemovalPanicsExactlyWhen(rs: seq<Request>, tid: string)
    ensures RemoveLoop(rs, tid).OutOfRange? <==>
            exists i :: 0 <= i < |rs| - 1 && rs[i].transactionId == tid && rs[|rs| - 1].transactionId == tid
  {
    if LastMatchIsLate(rs, tid) {
      var i :| 0 <= i < |rs| - 1 && rs[i].transactionId == tid;
    }
  }

  predicate AtMostOne(rs: seq<Request>, tid: string) {
    forall i, j :: 0 <= i < j < |rs| ==> rs[i].transactionId != tid || rs[j].transactionId != tid
  }

  /** With at most one match the loop stays in range and takes out just that record, keeping the order. */
  lemma RemovesOnlyMatch(rs: seq<Request>, tid: string)
    requires AtMostOne(rs, tid)
    ensures RemoveLoop(rs, tid) == Removed(Without(rs, tid))
    ensures forall k :: 0 <= k < |rs| && rs[k].transactionId == tid ==> Without(rs, tid) == rs[..k] + rs[k + 1..]
    ensures (forall k :: 0 <= k < |rs| ==> rs[k].transactionId != tid) ==> Without(rs, tid) == rs
  {
    RemovalExactlyWhen(rs, tid);
    forall k | 0 <= k < |rs| && rs[k].transactionId == tid ensures Without(rs, tid) == rs[..k] + rs[k + 1..] {
      WithoutAt(rs, k, tid);
    }
    if forall k :: 0 <= k < |rs| ==> rs[k].transactionId != tid {
      WithoutNone(rs, tid);
    }
  }

  // ---------------------------------------------------------------- the ranging loop

  /** append(slice[:i], slice[i+1:]...), as the array sees it. */
  function Slid(buf: seq<Request>, len: nat, i: nat): (after: seq<Request>)
    requires i < len <= |buf|
    ensures |after| == |buf|
  {
    buf[..i] + buf[i + 1..len] + buf[len - 1..]
  }

  /**
   * The loop itself, about to look at index i: buf is the array under the slice buf[..len]. The range was fixed
   * when the slice had buf's length, and buf[i] is read wherever earlier removals have moved records to.
   */
  function RangeLoop(buf: seq<Request>, len: nat, i: nat, tid: string): Removal
    requires len <= |buf| && i <= |buf|
    decreases |buf| - i
  {
    if i == |buf| then Removed(buf[..len])
    else if buf[i].transactionId != tid then RangeLoop(buf, len, i + 1, tid)
    else if i + 1 > len then OutOfRange
    else RangeLoop(Slid(buf, len, i), len - 1, i + 1, tid)
  }

  /** Past the slice the array holds copies of one record, and the first look at one that matches is out of range. */
  lemma {:induction false} PastTheSlice(buf: seq<Request>, len: nat, i: nat, tid: string)
    requires len <= i <= |buf|
    requires forall k :: len <= k < |buf| ==> buf[k] == buf[|buf| - 1]
    ensures RangeLoop(buf, len, i, tid) ==
            if i < |buf| && buf[|buf| - 1].transactionId == tid then OutOfRange else Removed(buf[..len])
    decreases |buf| - i
  {
    if i < |buf| && buf[i].transactionId != tid {
      PastTheSlice(buf, len, i + 1, tid);
    }
  }

  /**
   * s is the decoded list: up to i the array holds what Skipping keeps, then the rest, then copies of the last record.
   */
  ghost predicate Keeps(s: seq<Request>, buf: seq<Request>, len: nat, i: nat, tid: string) {
    && |buf| == |s| && i <= len <= |s|
    && buf[i..len] == s[i + |s| - len..]
    && buf[..i] + Skipping(s[i + |s| - len..], tid) == Skipping(s, tid)
    && (forall k :: len <= k < |s| ==> buf[k] == s[|s| - 1])
    && (len == |s| <==> forall k :: 0 <= k < i ==> s[k].transactionId != tid)
  }

  /** Where the record read is the next of the list. */
  lemma ReadsNext(s: seq<Request>, buf: seq<Request>, len: nat, i: nat, tid: string)
    requires Keeps(s, buf, len, i, tid) && i < len
    ensures buf[i] == s[i + |s| - len] && buf[len - 1] == s[|s| - 1]
  {}

  lemma PrefixGrows(front: seq<Request>, r: Request, back: seq<Request>)
    ensures front + ([r] + back) == front + [r] + back
  {}

  lemma Passes(s: seq<Request>, buf: seq<Request>, len: nat, i: nat, tid: string)
    requires Keeps(s, buf, len, i, tid) && i < len && buf[i].transactionId != tid
    ensures Keeps(s, buf, len, i + 1, tid)
  {
    ReadsNext(s, buf, len, i, tid);
    var p := i + |s| - len;
    var rest, next := s[p..], s[p + 1..];
    assert rest[1..] == next && rest[0] == s[p];
    assert buf[i + 1..len] == next by { assert buf[i + 1..len] == buf[i..len][1..]; }
    assert buf[..i + 1] == buf[..i] + [s[p]];
    PrefixGrows(buf[..i], s[p], Skipping(next, tid));
  }

  /** A removal slides the next record under the loop's index, where it is not looked at. */
  lemma Takes(s: seq<Request>, buf: seq<Request>, after: seq<Request>, len: nat, i: nat, tid: string)
    requires Keeps(s, buf, len, i, tid) && i + 1 < len && buf[i].transactionId == tid && after == Slid(buf, len, i)
    ensures Keeps(s, after, len - 1, i + 1, tid)
  {}

  /** At the end of the slice, or removing the record there. */
  lemma Ends(s: seq<Request>, buf: seq<Request>, len: nat, i: nat, tid: string)
    requires Keeps(s, buf, len, i, tid) && (i == len || (i + 1 == len && buf[i].transactionId == tid))
    ensures RangeLoop(buf, len, i, tid) == RemoveLoop(s, tid)
  {
    if i == len {
      PastTheSlice(buf, len, i, tid);
    } else {
      ReadsNext(s, buf, len, i, tid);
      assert Slid(buf, len, i) == buf;
      PastTheSlice(buf, i, i + 1, tid);
    }
  }

  /** A turn that passes a record by. */
  lemma TurnPasses(s: seq<Request>, buf: seq<Request>, len: nat, i: nat, tid: string)
    requires Keeps(s, buf, len, i, tid) && i < len && buf[i].transactionId != tid
    ensures Keeps(s, buf, len, i + 1, tid) && RangeLoop(buf, len, i, tid) == RangeLoop(buf, len, i + 1, tid)
  {
    Passes(s, buf, len, i, tid);
  }

  /** A turn that takes one out, with the slice going on after it. */
  lemma TurnTakes(s: seq<Request>, buf: seq<Request>, len: nat, i: nat, tid: string) returns (after: seq<Request>)
    requires Keeps(s, buf, len, i, tid) && i + 1 < len && buf[i].transactionId == tid
    ensures Keeps(s, after, len - 1, i + 1, tid) && RangeLoop(buf, len, i, tid) == RangeLoop(after, len - 1, i + 1, tid)
  {
    after := Slid(buf, len, i);
    Takes(s, buf, after, len, i, tid);
  }

  /** Turn by turn the loop comes to the end of the slice, or to a match in its last place. */
  lemma {:induction false} RangeLoopFrom(s: seq<Request>, buf: seq<Request>, len: nat, i: nat, tid: string)
    requires Keeps(s, buf, len, i, tid)
    ensures RangeLoop(buf, len, i, tid) == RemoveLoop(s, tid)
    decreases |s| - i
  {
    if i == len || (i + 1 == len && buf[i].transactionId == tid) {
      Ends(s, buf, len, i, tid);
    } else if buf[i].transactionId != tid {
      TurnPasses(s, buf, len, i, tid);
      RangeLoopFrom(s, buf, len, i + 1, tid);
    } else {
      var after := TurnTakes(s, buf, len, i, tid);
      RangeLoopFrom(s, after, len - 1, i + 1, tid);
    }
  }

  /** The loop leaves what Skipping keeps, and slices out of range exactly when a matching last record has company. */
  lemma RangeLoopFromStart(s: seq<Request>, tid: string)
    ensures RangeLoop(s, |s|, 0, tid) == RemoveLoop(s, tid)
  {
    assert s[0..] == s && s[..0] + Skipping(s, tid) == Skipping(s, tid);
    RangeLoopFrom(s, s, |s|, 0, tid);
  }

  // ---------------------------------------------------------------- the list as a map

  /** AWRIDs and TransactionIDs are each unique in the list. */
  ghost predicate Unique(rs: seq<Request>) {
    forall i, j :: 0 <= i < j < |rs| ==> rs[i].awrid != rs[j].awrid && rs[i].transactionId != rs[j].transactionId
  }

  ghost predicate AllCanonical(rs: seq<Request>) {
    forall c :: c in rs ==> Uuid.Canonical(c.awrid)
  }

  /** The request's two IDs either both belong to one record or are both new. */
  ghost predicate Agrees(rs: seq<Request>, r: Request) {
    forall c :: c in rs ==> (c.awrid == r.awrid <==> c.transactionId == r.transactionId)
  }

  /** The stored list seen as a map keyed by AWRID. */
  ghost function View(rs: seq<Request>): (m: map<string, Request>)
    requires Unique(rs)
    ensures forall c :: c in rs ==> c.awrid in m && m[c.awrid] == c
    ensures forall x :: x in m ==> m[x] in rs && m[x].awrid == x
  {
    map i | 0 <= i < |rs| :: rs[i].awrid := rs[i]
  }

  lemma ViewIs(rs: seq<Request>, m: map<string, Request>)
    requires Unique(rs)
    requires forall c :: c in rs ==> c.awrid in m && m[c.awrid] == c
    requires forall x :: x in m ==> m[x] in rs && m[x].awrid == x
    ensures View(rs) == m
  {}

  /** With unique, well-formed AWRIDs an insert or update touches one place. */
  lemma UpsertShape(rs: seq<Request>, r: Request)
    requires AllCanonical(rs) && Uuid.Canonical(r.awrid) && Unique(rs)
    ensures Upsert(rs, r).Some?
    ensures (forall i :: 0 <= i < |rs| ==> rs[i].awrid != r.awrid) ==> Upsert(rs, r).value == rs + [r]
    ensures forall k :: 0 <= k < |rs| && rs[k].awrid == r.awrid ==> Upsert(rs, r).value == rs[k := r]
  {}

  /** Storing a request puts it in and leaves every other transaction's record; both keys stay unique. */
  lemma UpsertMembers(rs: seq<Request>, r: Request)
    requires AllCanonical(rs) && Uuid.Canonical(r.awrid) && Unique(rs) && Agrees(rs, r)
    ensures Upsert(rs, r).Some? && Unique(Upsert(rs, r).value)
    ensures forall c :: c in Upsert(rs, r).value <==> c == r || (c in rs && c.transactionId != r.transactionId)
  {
    UpsertShape(rs, r);
    var out := Upsert(rs, r).value;
    if k :| 0 <= k < |rs| && rs[k].awrid == r.awrid {
      assert out == rs[k := r];
      assert rs[k] in rs;
      assert out[k] == r;
      forall c | c in rs && c.transactionId != r.transactionId ensures c in out {
        var i :| 0 <= i < |rs| && rs[i] == c;
        assert out[i] == c;
      }
    } else {
      assert out == rs + [r];
      forall i | 0 <= i < |rs| ensures rs[i].transactionId != r.transactionId { assert rs[i] in rs; }
    }
  }

  lemma SameMap(a: map<string, Request>, b: map<string, Request>)
    requires forall x :: x in a ==> x in b && b[x] == a[x]
    requires forall x :: x in b ==> x in a
    ensures a == b
  {}

  lemma UpsertIsMapUpdate(rs: seq<Request>, r: Request)
    requires AllCanonical(rs) && Uuid.Canonical(r.awrid) && Unique(rs) && Agrees(rs, r)
    ensures Upsert(rs, r).Some? && Unique(Upsert(rs, r).value)
    ensures View(Upsert(rs, r).value) == View(rs)[r.awrid := r]
  {
    UpsertMembers(rs, r);
    SameMap(View(Upsert(rs, r).value), View(rs)[r.awrid := r]);
  }

  lemma {:induction false} WithoutUnique(rs: seq<Request>, tid: string)
    requires Unique(rs)
    ensures AtMostOne(rs, tid)
    ensures Unique(Without(rs, tid))
  {
    if rs != [] {
      WithoutUnique(rs[1..], tid);
      forall c | c in Without(rs[1..], tid) ensures c.awrid != rs[0].awrid && c.transactionId != rs[0].transactionId {
        WithoutHas(rs[1..], tid, c);
        var j :| 0 <= j < |rs[1..]| && rs[1..][j] == c;
        assert rs[1 + j] == c;
      }
    }
  }

  /** Removing a transaction deletes its record's key and nothing else. */
  lemma RemoveIsMapDelete(rs: seq<Request>, tid: string)
    requires Unique(rs)
    ensures RemoveLoop(rs, tid) == Removed(Without(rs, tid)) && Unique(Without(rs, tid))
    ensures View(Without(rs, tid)) == map x | x in View(rs) && View(rs)[x].transactionId != tid :: View(rs)[x]
  {
    WithoutUnique(rs, tid);
    RemovesOnlyMatch(rs, tid);
    forall c ensures c in Without(rs, tid) <==> c in rs && c.transactionId != tid { WithoutHas(rs, tid, c); }
    SameMap(View(Without(rs, tid)), map x | x in View(rs) && View(rs)[x].transactionId != tid :: View(rs)[x]);
  }

  lemma UnlockUnique(rs: seq<Request>, pod: string)
    requires Unique(rs)
    ensures Unique(UnlockPod(rs, pod))
  {}

  lemma UnlockHas(rs: seq<Request>, pod: string, c: Request)
    requires c in rs
    ensures Freed(c, pod) in UnlockPod(rs, pod)
  {
    var i :| 0 <= i < |rs| && rs[i] == c;
    assert UnlockPod(rs, pod)[i] == Freed(c, pod);
  }

  lemma UnlockFrom(rs: seq<Request>, pod: string, d: Request) returns (c: Request)
    requires d in UnlockPod(rs, pod)
    ensures c in rs && d == Freed(c, pod)
  {
    var i :| 0 <= i < |rs| && UnlockPod(rs, pod)[i] == d;
    c := rs[i];
  }

  /** A crash rewrites exactly the records locked by that pod, each in place. */
  lemma UnlockIsPointwise(rs: seq<Request>, pod: string)
    requires Unique(rs)
    ensures Unique(UnlockPod(rs, pod))
    ensures View(UnlockPod(rs, pod)) == map x | x in View(rs) :: Freed(View(rs)[x], pod)
  {
    UnlockUnique(rs, pod);
    var m, out := View(rs), UnlockPod(rs, pod);
    var b := map x | x in m :: Freed(m[x], pod);
    forall d | d in out ensures d.awrid in b && b[d.awrid] == d {
      var c := UnlockFrom(rs, pod, d);
    }
    forall x | x in b ensures b[x] in out && b[x].awrid == x {
      UnlockHas(rs, pod, m[x]);
    }
    ViewIs(out, b);
  }
}
