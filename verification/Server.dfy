/** ExchangeServer: the loops over the stored lists, and the dispatch built from them. */
module Server {
  import opened BridgeTypes
  import opened Routes
  import opened Ledger
  import opened Dispatching
  import Requests
  import Uuid

  class ExchangeServer {
    const podName: string
    var requests: seq<Request>    // key "accountwatchrequests"
    var failed: seq<Request>      // key "failedaccountwatchrequests"
    var accounts: seq<Account>    // key "bridgeaccounts"
    var transfers: seq<Transfer>  // what the shims have done

    constructor (podName: string)
      ensures this.podName == podName
      ensures Stored() == Db([], [], []) && transfers == []
    {
      this.podName := podName;
      requests, failed, accounts, transfers := [], [], [], [];
    }

    ghost function Stored(): Db
      reads this
    {
      Db(requests, failed, accounts)
    }

    // -------------------------------------------------------------- watch requests

    method UpdateAccountWatchRequestInDB(request: Request) returns (ok: bool)
      modifies this`requests
      ensures ok == Requests.Upsert(old(requests), request).Some?
      ensures Stored() == StoreRequest(old(Stored()), request)
    {
      var current := requests;
      var found := false;
      for i := 0 to |current|
        invariant |current| == |requests| && requests == old(requests)
        invariant i > 0 ==> Uuid.Parse(request.awrid).Some?
        invariant forall k :: 0 <= k < i ==> Uuid.Parse(requests[k].awrid).Some?
        invariant forall k :: 0 <= k < i ==>
          current[k] == if Requests.SameId(requests[k], request) then request else requests[k]
        invariant forall k :: i <= k < |current| ==> current[k] == requests[k]
        invariant found <==> exists k :: 0 <= k < i && Requests.SameId(requests[k], request)
      {
        var u1 := Uuid.Parse(current[i].awrid);
        if u1.None? {
          return false;
        }
        var u2 := Uuid.Parse(request.awrid);
        if u2.None? {
          return false;
        }
        if u1 == u2 {
          current := current[i := request];
          found := true;
        }
      }
      if !found {
        assert current == requests;
        current := current + [request];
      } else {
        assert current == Requests.Replace(requests, request);
      }
      requests := current;
      ok := true;
    }

    method UpdateAccountWatchRequestsOnCrash()
      modifies this`requests
      ensures requests == Requests.UnlockPod(old(requests), podName)
    {
      var current := requests;
      for i := 0 to |current|
        invariant |current| == |requests| && requests == old(requests)
        invariant forall k :: 0 <= k < i ==> current[k] == Requests.Freed(requests[k], podName)
        invariant forall k :: i <= k < |current| ==> current[k] == requests[k]
      {
        if current[i].lockedBy == podName {
          current := current[i := current[i].(locked := false)];
          current := current[i := current[i].(lockedBy := "")];
        }
      }
      assert current == Requests.UnlockPod(requests, podName);
      requests := current;
    }

    /** append(slice[:i], slice[i+1:]...) inside the array the slice of length len is in. */
    static method RemoveAt(shared: array<Request>, i: nat, len: nat, ghost before: seq<Request>)
      requires i < len <= shared.Length && before == shared[..]
      modifies shared
      ensures shared[..] == Requests.Slid(before, len, i)
    {
      var k := i;
      while k < len - 1
        invariant i <= k <= len - 1
        invariant forall m :: 0 <= m < i ==> shared[m] == before[m]
        invariant forall m :: i <= m < k ==> shared[m] == before[m + 1]
        invariant forall m :: k <= m < shared.Length ==> shared[m] == before[m]
      {
        shared[k] := shared[k + 1];
        k := k + 1;
      }
    }

    static method RangeAndRemove(shared: array<Request>, requestId: string) returns (inRange: bool, len: nat)
      modifies shared
      ensures len <= shared.Length
      ensures inRange == Requests.RemoveLoop(old(shared[..]), requestId).Removed?
      ensures inRange ==> shared[..len] == Requests.RemoveLoop(old(shared[..]), requestId).list
    {
      ghost var s := shared[..];
      len := shared.Length;
      Requests.RangeLoopFromStart(s, requestId);
      for i := 0 to shared.Length
        invariant len <= shared.Length
        invariant Requests.RangeLoop(shared[..], len, i, requestId) == Requests.RemoveLoop(s, requestId)
      {
        ghost var before := shared[..];
        assert before[i] == shared[i];
        if shared[i].transactionId == requestId {
          if i + 1 > len {
            return false, len;
          }
          RemoveAt(shared, i, len, before);
          assert Requests.RangeLoop(before, len, i, requestId) ==
                 Requests.RangeLoop(shared[..], len - 1, i + 1, requestId);
          len := len - 1;
        }
      }
      assert Requests.RangeLoop(shared[..], len, shared.Length, requestId) == Requests.Removed(shared[..][..len]);
      assert shared[..][..len] == shared[..len];
      inRange := true;
    }

    /**
     * The loop ranges over the slice as decoded while it shortens it in place, so it goes on reading the shared
     * array where records have already slid down. It reports false where Go panics slicing out of range; then
     * nothing has been written back.
     */
    method RemoveAccountWatchRequestFromDB(requestId: string) returns (inRange: bool)
      modifies this`requests
      ensures inRange == Requests.RemoveLoop(old(requests), requestId).Removed?
      ensures inRange ==> requests == Requests.RemoveLoop(old(requests), requestId).list
      ensures !inRange ==> requests == old(requests)
    {
      var s := requests;
      var shared := new Request[|s|](i requires 0 <= i < |s| => s[i]);
      assert shared[..] == s;
      var len: nat;
      inRange, len := RangeAndRemove(shared, requestId);
      if inRange {
        requests := shared[..len];
      }
    }

    method StoreFailedAccountWatchRequest(awr: Request)
      modifies this`failed
      ensures failed == old(failed) + [awr]
    {
      var current := failed;
      current := current + [awr];
      failed := current;
    }

    // -------------------------------------------------------------- ledger

    method StoreBridgeAccount(awr: Request)
      modifies this`accounts
      ensures accounts == Store(old(accounts), EscrowAccount(awr))
    {
      var bs := Account(
        awr.chain, awr.info.escrowKey, awr.info.amount, awr.info.currency, awr.transactionId, awr.info.bridgeFrom,
        awr.info.bridgeTo);
      var current := accounts;
      var found := false;
      for i := 0 to |current|
        invariant |current| == |accounts| && accounts == old(accounts)
        invariant forall k :: 0 <= k < i ==> current[k] == if accounts[k].id == bs.id then bs else accounts[k]
        invariant forall k :: i <= k < |current| ==> current[k] == accounts[k]
        invariant found <==> exists k :: 0 <= k < i && accounts[k].id == bs.id
      {
        if current[i].id == bs.id {
          current := current[i := bs];
          found := true;
        }
      }
      if !found {
        assert current == accounts;
        current := current + [bs];
      } else {
        assert current == Store(accounts, bs);
      }
      accounts := current;
    }

    static method Filter(current: seq<Account>, g: Group) returns (filtered: seq<Account>)
      ensures filtered == Candidates(current, g)
    {
      filtered := [];
      for i := 0 to |current|
        invariant filtered + Candidates(current[i..], g) == Candidates(current, g)
      {
        CandidatesFrom(current, i, g);
        if current[i].asset == g.asset && current[i].bridgeTo == g.chain {
          filtered := filtered + [current[i]];
        }
      }
    }

    /** sort.Search for the first amount that is not below the target. */
    static method SearchIndex(fs: seq<Account>, target: int) returns (index: nat)
      ensures index == Search(fs, target, 0, |fs|)
    {
      var low, high := 0, |fs|;
      while low < high
        invariant 0 <= low <= high <= |fs|
        invariant Search(fs, target, low, high) == Search(fs, target, 0, |fs|)
      {
        var middle := (low + high) / 2;
        if !(fs[middle].amount >= target) {
          low := middle + 1;
        } else {
          high := middle;
        }
      }
      index := low;
    }

    static method ClosestTo(filtered: seq<Account>, target: int) returns (found: Lookup)
      ensures found == if filtered == [] then IndexOutOfRange else Found(Nearest(filtered, target))
    {
      var index := SearchIndex(filtered, target);
      if index == 0 {
        if |filtered| == 0 {
          return IndexOutOfRange;
        }
        return Found(filtered[index]);
      } else if index == |filtered| {
        return Found(filtered[index - 1]);
      }
      var left, right := filtered[index - 1], filtered[index];
      var leftDiff, rightDiff := target - left.amount, right.amount - target;
      if leftDiff <= rightDiff {
        return Found(left);
      }
      return Found(right);
    }

    method RetrieveBridgeAccount(awr: Request) returns (found: Lookup)
      ensures found == Retrieve(accounts, awr)
    {
      var current := accounts;
      if |current| == 0 {
        return NoAccounts;
      }
      var currency := awr.info.currency;
      if currency == WGRAMS {
        currency := GRAMS;
      } else if currency == WOCTA {
        currency := OCTA;
      } else if currency == WBSCUSDT {
        currency := BSCUSDT;
      }
      var filtered := Filter(current, Group(currency, awr.info.bridgeFrom));
      found := ClosestTo(filtered, awr.info.amount);
    }

    method UpdateBridgeAccountInDB(id: string, amount: int)
      modifies this`accounts
      ensures accounts == Debit(old(accounts), id, amount)
    {
      var current := accounts;
      for i := 0 to |current|
        invariant |current| == |accounts| && accounts == old(accounts)
        invariant forall k :: 0 <= k < i ==> current[k] == Debit(accounts, id, amount)[k]
        invariant forall k :: i <= k < |current| ==> current[k] == accounts[k]
      {
        if Uuid.Contains(current[i].id, id) {
          current := current[i := current[i].(amount := current[i].amount - amount)];
        }
      }
      assert current == Debit(accounts, id, amount);
      accounts := current;
    }

    // -------------------------------------------------------------- shims

    method RequestToMintWrappedCurrency(awr: Request, shimOk: bool) returns (status: Status)
      modifies this`transfers
      ensures var o := MintWrapped(Stored(), awr, shimOk);
        status == o.status && transfers == old(transfers) + o.transfers
    {
      var shim := NoAddress;
      if awr.info.currency == OCTA {
        shim := OctaShim;
      } else if awr.info.currency == GRAMS {
        shim := GramsShim;
      } else if awr.info.currency == BSCUSDT {
        if awr.info.bridgeTo == GRAMS {
          shim := UsdtOnPartyShim;
        } else if awr.info.bridgeTo == OCTA {
          shim := UsdtOnOctaShim;
        } else {
          return Err;
        }
      }
      if !shimOk {
        return Err;
      }
      var group, to := Group(awr.info.currency, awr.info.bridgeTo), awr.info.shippingAddress;
      transfers := transfers + [Minted(awr.transactionId, group, awr.amount, shim, to)];
      return Ok;
    }

    method RequestToTransferCoinOnChainFromShim(awr: Request, shimOk: bool) returns (status: Status)
      modifies this`transfers, this`accounts
      ensures var o := ReleaseNative(old(Stored()), awr, shimOk);
        status == o.status && Stored() == o.db && transfers == old(transfers) + o.transfers
    {
      var found := RetrieveBridgeAccount(awr);
      if found.IndexOutOfRange? {
        return Panicked;
      }
      var payer: Option<string> := None;
      var fromKey := "";
      if found.Found? {
        payer := Some(found.account.id);
        fromKey := found.account.privateKey;
      }
      var shim, endpoint := NoAddress, "";
      if awr.info.bridgeTo == GRAMS {
        shim, endpoint := GramsShim, "/transfer";
      } else if awr.info.bridgeTo == OCTA {
        shim, endpoint := OctaShim, "/transfer";
      } else if awr.info.bridgeTo == BSCUSDT {
        if awr.info.bridgeFrom == GRAMS {
          shim, endpoint := UsdtOnPartyShim, "/transferBSCUSDT";
        } else if awr.info.bridgeFrom == OCTA {
          shim, endpoint := UsdtOnOctaShim, "/transferBSCUSDT";
        }
      }
      if !shimOk {
        return Err;
      }
      var to := awr.info.shippingAddress;
      transfers := transfers +
        [Released(awr.transactionId, RequestGroup(awr), awr.amount, payer, fromKey, shim, endpoint, to)];
      if found.NoAccounts? {
        return Panicked;  // the ID of a nil account is read
      }
      UpdateBridgeAccountInDB(found.account.id, awr.amount);
      return Ok;
    }

    // -------------------------------------------------------------- dispatch

    method CreateBridgeRequest(awr: Request, shimOk: bool) returns (status: Status)
      modifies this`transfers, this`accounts
      ensures var o := CreateBridge(old(Stored()), awr, shimOk);
        status == o.status && Stored() == o.db && transfers == old(transfers) + o.transfers
    {
      if awr.info.bridgeTo == OCTA {
        if awr.info.currency == GRAMS {
          status := RequestToMintWrappedCurrency(awr, shimOk);
        } else if awr.info.currency == WOCTA {
          status := RequestToTransferCoinOnChainFromShim(awr, shimOk);
        } else if awr.info.currency == BSCUSDT {
          status := RequestToMintWrappedCurrency(awr, shimOk);
        } else {
          return Err;
        }
      } else if awr.info.bridgeTo == GRAMS {
        if awr.info.currency == OCTA {
          status := RequestToMintWrappedCurrency(awr, shimOk);
        } else if awr.info.currency == WGRAMS {
          status := RequestToTransferCoinOnChainFromShim(awr, shimOk);
        } else if awr.info.currency == BSCUSDT {
          status := RequestToMintWrappedCurrency(awr, shimOk);
        } else {
          return Err;
        }
      } else if awr.info.bridgeTo == BSCUSDT {
        if awr.info.bridgeFrom == OCTA {
          status := RequestToTransferCoinOnChainFromShim(awr, shimOk);
        } else if awr.info.bridgeFrom == GRAMS {
          status := RequestToTransferCoinOnChainFromShim(awr, shimOk);
        } else {
          return Err;
        }
      } else {
        return Err;
      }
    }

    method DispatchResult(awr: Request, result: string, shimOk: bool) returns (status: Status)
      modifies this`requests, this`transfers, this`accounts
      ensures var o := Dispatch(old(Stored()), awr, result, shimOk);
        status == o.status && Stored() == o.db && transfers == old(transfers) + o.transfers
    {
      if result == SUCCESS {
        if awr.info.currency == GRAMS || awr.info.currency == OCTA || awr.info.currency == BSCUSDT {
          StoreBridgeAccount(awr);
        }
      }
      status := CreateBridgeRequest(awr, shimOk);
      if status.Ok? {
        var inRange := RemoveAccountWatchRequestFromDB(awr.transactionId);
        if !inRange {
          status := Panicked;
        }
      }
    }

    /** The end of a watch: dispatch, and for the native-coin loop move a failed success to the failed list. */
    method SettleWatch(awr: Request, result: string, shimOk: bool) returns (status: Status)
      modifies this`requests, this`failed, this`transfers, this`accounts
      ensures var o := Settle(old(Stored()), awr, result, shimOk);
        status == o.status && Stored() == o.db && transfers == old(transfers) + o.transfers
    {
      status := DispatchResult(awr, result, shimOk);
      if status.Err? && result == SUCCESS && Watched(awr) == Some(EvmChain) {
        StoreFailedAccountWatchRequest(awr);
        var inRange := RemoveAccountWatchRequestFromDB(awr.transactionId);
        if !inRange {
          status := Panicked;
        }
      }
    }

    /** The switch of watchAccount on chain, target and currency. */
    static method Route(awr: Request) returns (watcher: Option<Watcher>)
      ensures watcher == Watched(awr)
    {
      watcher := None;
      if awr.info.bridgeTo != "" {
        if awr.chain == OCTA {
          if awr.info.bridgeTo == GRAMS {
            if awr.info.currency == OCTA {
              return Some(EvmChain);
            } else if awr.info.currency == WGRAMS {
              watcher := Some(WgramsOnOcta);
            } else {
              return;
            }
          } else if awr.info.bridgeTo == BSCUSDT {
            if awr.info.currency == WBSCUSDT {
              watcher := Some(WbscusdtOnOcta);
            } else {
              return;
            }
          }
        } else if awr.chain == GRAMS {
          if awr.info.bridgeTo == OCTA {
            if awr.info.currency == WOCTA {
              return Some(WoctaOnParty);
            } else if awr.info.currency == GRAMS {
              return Some(EvmChain);
            }
          } else if awr.info.bridgeTo == BSCUSDT {
            if awr.info.currency == WBSCUSDT {
              return Some(WbscusdtOnParty);
            }
          }
        } else if awr.chain == BSCUSDT {
          if awr.info.bridgeTo == OCTA {
            if awr.info.currency == BSCUSDT {
              watcher := Some(BscUsdt);
            }
          } else if awr.info.bridgeTo == GRAMS {
            if awr.info.currency == BSCUSDT {
              watcher := Some(BscUsdt);
            }
          }
        }
      }
    }

    /** Lock the copy, write it back, and pick the watcher. */
    method WatchAccount(awr: Request, now: int) returns (copy: Request, watcher: Option<Watcher>)
      modifies this`requests
      ensures copy == Claimed(awr, podName, now) && copy.locked && copy.lockedBy == podName && copy.lockedTime == now
      ensures watcher == Watched(copy)
      ensures Stored() == StoreRequest(old(Stored()), copy)
    {
      copy := awr.(locked := true);
      copy := copy.(lockedBy := podName);
      copy := copy.(lockedTime := now);
      var _ := UpdateAccountWatchRequestInDB(copy);
      watcher := Route(copy);
    }
  }
}
