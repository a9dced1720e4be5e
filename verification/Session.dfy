/** One client's session: quotes and confirmations over a WebSocket. */
module Session {
  import opened BridgeTypes

  /** big.Int, shared by reference and added to in place. */
  class BigInt {
    var value: int

    constructor (value: int)
      ensures this.value == value
    {
      this.value := value;
    }

    /** z.Add(x, y) sets z to x + y and returns z; z may be x. */
    method Add(x: BigInt, y: BigInt) returns (z: BigInt)
      modifies this
      ensures z == this && value == old(x.value) + old(y.value)
    {
      value := x.value + y.value;
      z := this;
    }
  }

  const WEI := 1_000_000_000_000_000_000

  method ToWei(v: int) returns (wei: BigInt)
    ensures fresh(wei) && wei.value == v * WEI
  {
    wei := new BigInt(v * WEI);
  }

  /** What a client sends. The amount is absent where the message has none. */
  datatype Message = Message(
    kind: string,
    currency: string,
    amount: Option<int>,
    fromChain: string,
    bridgeTo: string,
    shippingAddress: string)

  /** What the session keeps of the last request: the struct is copied, its amount is the same big.Int. */
  datatype BridgeRequest = BridgeRequest(
    currency: string,
    amount: BigInt?,
    fromChain: string,
    bridgeTo: string,
    shippingAddress: string)

  /** The server's settings, and this session's identity. */
  datatype Setup = Setup(dev: bool, minimum: int, fee: int, podName: string, sid: string)

  /** A generated account: what deposits are sent to, and the private key of it. */
  datatype Wallet = Wallet(key: string, address: string)

  datatype Ending = Closed | BelowMinimum | Panicked

  const REQUEST := "requestBridge"
  const CONFIRM := "confirmBridge"

  // ---------------------------------------------------------------- what a session amounts to

  predicate IsQuote(m: Message) { m.kind == REQUEST }

  predicate IsConfirm(m: Message) { m.kind == CONFIRM }

  /** One past the last request before k, or 0. */
  function LastQuote(messages: seq<Message>, k: nat): (q: nat)
    requires k <= |messages|
    ensures q <= k
    ensures q > 0 ==> IsQuote(messages[q - 1])
    ensures forall i :: q <= i < k ==> !IsQuote(messages[i])
  {
    if k == 0 then 0 else if IsQuote(messages[k - 1]) then k else LastQuote(messages, k - 1)
  }

  /** How the message at k ends the session, if it does. */
  function Ends(messages: seq<Message>, setup: Setup, k: nat): Option<Ending>
    requires k < |messages|
  {
    var m := messages[k];
    if IsQuote(m) && m.amount.None? then Some(Panicked)
    else if IsQuote(m) && m.amount.value < setup.minimum * WEI && !setup.dev then Some(BelowMinimum)
    else if IsConfirm(m) && LastQuote(messages, k) == 0 then Some(Panicked)
    else None
  }

  /** The confirmations below k, each by its position. */
  function Confirmed(messages: seq<Message>, k: nat): (ks: seq<nat>)
    requires k <= |messages|
    ensures forall n :: 0 <= n < |ks| ==> ks[n] < k && IsConfirm(messages[ks[n]])
  {
    if k == 0 then []
    else Confirmed(messages, k - 1) + if IsConfirm(messages[k - 1]) then [k - 1] else []
  }

  /** Every confirmation is there, once, in the order they came in. */
  lemma {:induction false} ConfirmedExactly(messages: seq<Message>, k: nat)
    requires k <= |messages|
    ensures forall i :: i in Confirmed(messages, k) <==> 0 <= i < k && messages[i].kind == CONFIRM
    ensures forall m, n :: 0 <= m < n < |Confirmed(messages, k)| ==>
              Confirmed(messages, k)[m] < Confirmed(messages, k)[n]
  {
    if k > 0 {
      ConfirmedExactly(messages, k - 1);
    }
  }

  /** The request a confirmation stores, for the message last quoted. */
  function Ordered(quoted: Message, amount: int, setup: Setup, wallet: Wallet, tid: string, awrid: string): Request {
    Request(wallet.address, quoted.fromChain, amount, tid, awrid, false, setup.podName, 0, setup.sid,
            OrderInfo(quoted.currency, amount, quoted.bridgeTo, quoted.fromChain, quoted.shippingAddress, wallet.key))
  }

  /** Its amounts are the quoted message's amount and one fee. */
  function OrderAt(messages: seq<Message>, setup: Setup, wallet: Wallet, k: nat, tid: string, awrid: string)
    : Option<Request>
    requires k <= |messages|
  {
    var q := LastQuote(messages, k);
    if q == 0 || messages[q - 1].amount.None? then None
    else Some(Ordered(messages[q - 1], messages[q - 1].amount.value + setup.fee * WEI, setup, wallet, tid, awrid))
  }

  /** Every stored order is the one its confirmation stands for. */
  ghost predicate StoredAre(stored: seq<Request>, messages: seq<Message>, setup: Setup, wallet: Wallet, k: nat,
                            tids: nat -> string, awrids: nat -> string)
    requires k <= |messages|
  {
    var ks := Confirmed(messages, k);
    && |stored| == |ks|
    && forall n :: 0 <= n < |ks| ==> Some(stored[n]) == OrderAt(messages, setup, wallet, ks[n], tids(n), awrids(n))
  }

  /** What is kept of an accepted message. */
  ghost predicate Kept(m: Message, setup: Setup, request: BridgeRequest, value: int) {
    && m.amount == Some(value - setup.fee * WEI)
    && request.amount != null
    && request == BridgeRequest(m.currency, request.amount, m.fromChain, m.bridgeTo, m.shippingAddress)
  }

  /** The session before message k, while it goes on; value is what its kept big.Int holds. */
  ghost predicate Going(messages: seq<Message>, setup: Setup, wallet: Wallet, k: nat, acc: Option<Wallet>,
                        request: BridgeRequest, value: int)
    requires k <= |messages|
  {
    var q := LastQuote(messages, k);
    if q == 0 then acc == None else acc == Some(wallet) && Kept(messages[q - 1], setup, request, value)
  }

  lemma GoesOn(messages: seq<Message>, setup: Setup, wallet: Wallet, k: nat, acc: Option<Wallet>,
               request: BridgeRequest, value: int)
    requires k < |messages|
    requires if IsQuote(messages[k]) then acc == Some(wallet) && Kept(messages[k], setup, request, value)
             else Going(messages, setup, wallet, k, acc, request, value)
    ensures Going(messages, setup, wallet, k + 1, acc, request, value)
  {}

  lemma KindsDiffer()
    ensures REQUEST != CONFIRM
  {}

  lemma StoredGrows(stored: seq<Request>, messages: seq<Message>, setup: Setup, wallet: Wallet, k: nat,
                    tids: nat -> string, awrids: nat -> string)
    requires k < |messages| && StoredAre(stored, messages, setup, wallet, k, tids, awrids)
    ensures !IsConfirm(messages[k]) ==> StoredAre(stored, messages, setup, wallet, k + 1, tids, awrids)
    ensures IsConfirm(messages[k]) ==> forall r ::
              Some(r) == OrderAt(messages, setup, wallet, k, tids(|stored|), awrids(|stored|)) ==>
                StoredAre(stored + [r], messages, setup, wallet, k + 1, tids, awrids)
  {}

  predicate SameWallet(r: Request, q: Request) {
    r.account == q.account && r.info.escrowKey == q.info.escrowKey
  }

  /** Some session with that wallet stores the order. */
  ghost predicate OfSession(r: Request, wallet: Wallet) {
    exists messages, setup, k, tid, awrid ::
      0 <= k <= |messages| && OrderAt(messages, setup, wallet, k, tid, awrid) == Some(r)
  }

  lemma StoredAreOfSession(stored: seq<Request>, messages: seq<Message>, setup: Setup, wallet: Wallet, k: nat,
                           tids: nat -> string, awrids: nat -> string)
    requires k <= |messages| && StoredAre(stored, messages, setup, wallet, k, tids, awrids)
    ensures forall r :: r in stored ==> OfSession(r, wallet)
  {
    var ks := Confirmed(messages, k);
    forall r | r in stored ensures OfSession(r, wallet) {
      var n :| 0 <= n < |stored| && stored[n] == r;
      assert OrderAt(messages, setup, wallet, ks[n], tids(n), awrids(n)) == Some(r);
    }
  }

  /** Stored orders share their deposit address and key exactly when their sessions' wallets are one. */
  lemma SharesWallet(r: Request, wallet: Wallet, q: Request, other: Wallet)
    requires OfSession(r, wallet) && OfSession(q, other)
    ensures SameWallet(r, q) <==> wallet == other
  {}

  /** Field by field, the order of a quoted message: paid to the wallet's address, kept with its key, under its IDs. */
  ghost predicate OrderOf(r: Request, quoted: Message, setup: Setup, wallet: Wallet, tid: string, awrid: string) {
    && r.account == wallet.address && r.info.escrowKey == wallet.key
    && r.transactionId == tid && r.awrid == awrid && r.wsClientId == setup.sid
    && r.chain == r.info.bridgeFrom == quoted.fromChain
    && r.info.bridgeTo == quoted.bridgeTo && r.info.currency == quoted.currency
    && r.info.shippingAddress == quoted.shippingAddress
    && quoted.amount == Some(r.amount - setup.fee * WEI) && r.info.amount == r.amount
    && !r.locked && r.lockedBy == setup.podName && r.lockedTime == 0
  }

  /** Every stored order, in turn, is of the message last quoted before its confirmation. */
  ghost predicate OrdersOf(stored: seq<Request>, messages: seq<Message>, setup: Setup, wallet: Wallet, ks: seq<nat>,
                           tids: nat -> string, awrids: nat -> string)
  {
    && |stored| == |ks|
    && forall n :: 0 <= n < |ks| ==>
         && 0 < ks[n] <= |messages|
         && LastQuote(messages, ks[n]) > 0
         && OrderOf(stored[n], messages[LastQuote(messages, ks[n]) - 1], setup, wallet, tids(n), awrids(n))
  }

  lemma StoredAreOrders(stored: seq<Request>, messages: seq<Message>, setup: Setup, wallet: Wallet, k: nat,
                        tids: nat -> string, awrids: nat -> string)
    requires k <= |messages| && StoredAre(stored, messages, setup, wallet, k, tids, awrids)
    ensures OrdersOf(stored, messages, setup, wallet, Confirmed(messages, k), tids, awrids)
  {
    var ks := Confirmed(messages, k);
    forall n | 0 <= n < |ks|
      ensures 0 < ks[n] <= |messages| && LastQuote(messages, ks[n]) > 0
      ensures OrderOf(stored[n], messages[LastQuote(messages, ks[n]) - 1], setup, wallet, tids(n), awrids(n))
    {
      assert Some(stored[n]) == OrderAt(messages, setup, wallet, ks[n], tids(n), awrids(n));
    }
  }

  /**
   * What ends a session: a request below the minimum outside dev mode; and, by a panic, one with no amount or a
   * confirmation before any.
   */
  lemma EndsExactlyWhen(messages: seq<Message>, setup: Setup, k: nat)
    requires k < |messages|
    ensures var m := messages[k];
      && (Ends(messages, setup, k) == Some(Panicked) <==>
            || (m.kind == "requestBridge" && m.amount.None?)
            || (m.kind == "confirmBridge" && forall i :: 0 <= i < k ==> messages[i].kind != "requestBridge"))
      && (Ends(messages, setup, k) == Some(BelowMinimum) <==>
            && m.kind == "requestBridge" && m.amount.Some? && !setup.dev
            && m.amount.value < setup.minimum * 1_000_000_000_000_000_000)
      && Ends(messages, setup, k) != Some(Closed)
  {
    KindsDiffer();
    if q :| 0 <= q < k && messages[q].kind == REQUEST { assert IsQuote(messages[q]); }
  }

  /**
   * Whatever came before, a confirmed order carries in both amounts the last quoted message's amount plus exactly
   * one fee; unless in dev mode that is at least minimum plus fee. It bridges from the chain it was deposited on.
   */
  lemma OrderAmounts(messages: seq<Message>, setup: Setup, wallet: Wallet, k: nat, tid: string, awrid: string)
    requires k < |messages| && IsConfirm(messages[k])
    requires forall i :: 0 <= i <= k ==> Ends(messages, setup, i) == None
    ensures OrderAt(messages, setup, wallet, k, tid, awrid).Some?
    ensures var r, q := OrderAt(messages, setup, wallet, k, tid, awrid).value, LastQuote(messages, k);
      && 0 < q && IsQuote(messages[q - 1])
      && messages[q - 1].amount == Some(r.amount - setup.fee * WEI) && r.info.amount == r.amount
      && (!setup.dev ==> r.amount >= (setup.minimum + setup.fee) * WEI)
      && r.info.bridgeFrom == r.chain && !r.locked && r.lockedBy == setup.podName
      && OrderOf(r, messages[q - 1], setup, wallet, tid, awrid)
  {
    var q := LastQuote(messages, k);
    assert Ends(messages, setup, k) == None && Ends(messages, setup, q - 1) == None;
  }

  // ---------------------------------------------------------------- the handler

  /** The message's own big.Int is kept in the session before the fee is added to it in place. */
  method Quote(req: Message, setup: Setup) returns (refused: Option<Ending>, kept: BridgeRequest)
    ensures refused == if req.amount.None? then Some(Panicked)
                       else if req.amount.value < setup.minimum * WEI && !setup.dev then Some(BelowMinimum)
                       else None
    ensures refused.None? ==> kept.amount != null && fresh(kept.amount) && Kept(req, setup, kept, kept.amount.value)
  {
    kept := BridgeRequest("", null, "", "", "");
    if req.amount.None? {
      return Some(Panicked), kept;  // a nil amount is compared
    }
    var amount := new BigInt(req.amount.value);
    var data := BridgeRequest(req.currency, amount, req.fromChain, req.bridgeTo, req.shippingAddress);
    var minimum := ToWei(setup.minimum);
    if data.amount.value < minimum.value && !setup.dev {
      return Some(BelowMinimum), kept;
    }
    kept := data;
    var fee := ToWei(setup.fee);
    var answered := amount.Add(amount, fee);
    refused := None;
  }

  method Confirm(request: BridgeRequest, acc: Wallet, setup: Setup, tid: string, awrid: string) returns (order: Request)
    requires request.amount != null
    ensures forall m :: Kept(m, setup, request, request.amount.value) ==>
      order == Ordered(m, request.amount.value, setup, acc, tid, awrid)
  {
    order := Request(
      acc.address, request.fromChain, request.amount.value, tid, awrid, false, setup.podName, 0, setup.sid,
      OrderInfo(
        request.currency, request.amount.value, request.bridgeTo, request.fromChain, request.shippingAddress, acc.key));
  }

  /** A confirmation while the session goes on stores the order it stands for. */
  lemma OrderIs(messages: seq<Message>, setup: Setup, wallet: Wallet, k: nat, request: BridgeRequest, value: int,
                order: Request, tid: string, awrid: string)
    requires k <= |messages| && Going(messages, setup, wallet, k, Some(wallet), request, value)
    requires forall m :: Kept(m, setup, request, value) ==> order == Ordered(m, value, setup, wallet, tid, awrid)
    ensures Some(order) == OrderAt(messages, setup, wallet, k, tid, awrid)
  {}

  /**
   * wallets, tids and awrids are the accounts and UUIDs that will be generated, in turn. It handles messages up to the
   * one that ends the session; whatever it quotes, only the first wallet is ever drawn.
   */
  method HandleClientRequests(messages: seq<Message>, setup: Setup, wallets: nat -> Wallet, tids: nat -> string,
                              awrids: nat -> string)
    returns (stored: seq<Request>, handled: nat, ending: Ending)
    ensures handled <= |messages|
    ensures forall i :: 0 <= i < handled ==> Ends(messages, setup, i) == None
    ensures ending == Closed <==> handled == |messages|
    ensures handled < |messages| ==> Ends(messages, setup, handled) == Some(ending)
    ensures StoredAre(stored, messages, setup, wallets(0), handled, tids, awrids)
  {
    stored := [];
    handled := 0;
    var acc: Option<Wallet> := None;
    var drawn := 0;
    var request := BridgeRequest("", null, "", "", "");
    ghost var value := 0;
    KindsDiffer();
    while handled < |messages|
      invariant handled <= |messages|
      invariant forall i :: 0 <= i < handled ==> Ends(messages, setup, i) == None
      invariant request.amount != null ==> fresh(request.amount) && request.amount.value == value
      invariant acc == None ==> drawn == 0
      invariant Going(messages, setup, wallets(0), handled, acc, request, value)
      invariant StoredAre(stored, messages, setup, wallets(0), handled, tids, awrids)
    {
      StoredGrows(stored, messages, setup, wallets(0), handled, tids, awrids);
      var req := messages[handled];
      if req.kind == REQUEST {
        var refused, quoted := Quote(req, setup);
        if refused.Some? {
          return stored, handled, refused.value;
        }
        if acc == None {
          acc := Some(wallets(drawn));
          drawn := drawn + 1;
        }
        request := quoted;
        value := request.amount.value;
      }
      if req.kind == CONFIRM {
        if acc == None {
          return stored, handled, Panicked;  // the key of a nil account is read
        }
        var order := Confirm(request, acc.value, setup, tids(|stored|), awrids(|stored|));
        OrderIs(messages, setup, acc.value, handled, request, value, order, tids(|stored|), awrids(|stored|));
        stored := stored + [order];
      }
      GoesOn(messages, setup, wallets(0), handled, acc, request, value);
      handled := handled + 1;
    }
    ending := Closed;
  }
}
