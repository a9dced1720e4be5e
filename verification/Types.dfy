/** The records PartyBridge keeps and passes around, and the currency names. */
module BridgeTypes {
  const GRAMS := "grams"
  const OCTA := "octa"
  const BSCUSDT := "bscusdt"
  const WGRAMS := "wgrams"
  const WOCTA := "wocta"
  const WBSCUSDT := "wbscusdt"

  const SUCCESS := "success"
  const ERROR := "error"

  datatype Option<+T> = None | Some(value: T)

  /** AssistedTradeOrderInformation; amount is its own ("inner") amount. */
  datatype OrderInfo = OrderInfo(
    currency: string,
    amount: int,
    bridgeTo: string,
    bridgeFrom: string,
    shippingAddress: string,
    escrowKey: string)

  /** AccountWatchRequest; amount is the "outer" amount. */
  datatype Request = Request(
    account: string,
    chain: string,
    amount: int,
    transactionId: string,
    awrid: string,
    locked: bool,
    lockedBy: string,
    lockedTime: int,
    wsClientId: string,
    info: OrderInfo)

  /** BridgeStorage: one escrow wallet of the ledger. */
  datatype Account = Account(
    chain: string,
    privateKey: string,
    amount: int,
    asset: string,
    id: string,
    bridgeFrom: string,
    bridgeTo: string)

  /** The wallets that back one wrapped token: a native asset and the chain that holds its wrapping. */
  datatype Group = Group(asset: string, chain: string)

  predicate Native(currency: string) {
    currency == GRAMS || currency == OCTA || currency == BSCUSDT
  }

  /** The native asset behind a wrapped currency; every other name stands for itself. */
  function Unwrapped(currency: string): string {
    if currency == WGRAMS then GRAMS
    else if currency == WOCTA then OCTA
    else if currency == WBSCUSDT then BSCUSDT
    else currency
  }

  /** A wrapped name is its native one with a "w" before it, and no other name is changed. */
  lemma UnwrappedExactly(currency: string, native: string)
    ensures Native(native) ==> Unwrapped("w" + native) == native
    ensures Unwrapped(currency) != currency <==> currency == "w" + Unwrapped(currency) && Native(Unwrapped(currency))
  {}

  /** Two copies of one request that differ at most in their lock. */
  predicate SameOrder(c: Request, d: Request) {
    c.(locked := d.locked, lockedBy := d.lockedBy, lockedTime := d.lockedTime) == d
  }
}
