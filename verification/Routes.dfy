/** The three switch tables: who watches a deposit, how it is bridged, and which shim is asked. */
module Routes {
  import opened BridgeTypes

  datatype Watcher =
    | EvmChain
    | WgramsOnOcta
    | WoctaOnParty
    | WbscusdtOnOcta
    | WbscusdtOnParty
    | BscUsdt

  datatype Action = Mint | Release

  datatype Shim = NoAddress | GramsShim | OctaShim | UsdtOnPartyShim | UsdtOnOctaShim

  /** The routing of watchAccount; None when no watch is started. */
  function Watch(chain: string, bridgeTo: string, currency: string): Option<Watcher> {
    if bridgeTo == "" then None
    else if chain == OCTA then
      if bridgeTo == GRAMS then
        if currency == OCTA then Some(EvmChain)
        else if currency == WGRAMS then Some(WgramsOnOcta)
        else None
      else if bridgeTo == BSCUSDT then
        if currency == WBSCUSDT then Some(WbscusdtOnOcta) else None
      else None
    else if chain == GRAMS then
      if bridgeTo == OCTA then
        if currency == WOCTA then Some(WoctaOnParty)
        else if currency == GRAMS then Some(EvmChain)
        else None
      else if bridgeTo == BSCUSDT then
        if currency == WBSCUSDT then Some(WbscusdtOnParty) else None
      else None
    else if chain == BSCUSDT then
      if (bridgeTo == OCTA || bridgeTo == GRAMS) && currency == BSCUSDT then Some(BscUsdt) else None
    else None
  }

  /** The routing of createBridgeRequest; None is its "unsupported" error. */
  function Bridge(bridgeTo: string, bridgeFrom: string, currency: string): Option<Action> {
    if bridgeTo == OCTA then
      if currency == GRAMS then Some(Mint)
      else if currency == WOCTA then Some(Release)
      else if currency == BSCUSDT then Some(Mint)
      else None
    else if bridgeTo == GRAMS then
      if currency == OCTA then Some(Mint)
      else if currency == WGRAMS then Some(Release)
      else if currency == BSCUSDT then Some(Mint)
      else None
    else if bridgeTo == BSCUSDT then
      if bridgeFrom == OCTA || bridgeFrom == GRAMS then Some(Release) else None
    else None
  }

  /** The shim asked to mint; None is the "does not support BSCUSDT" error. */
  function MintShim(currency: string, bridgeTo: string): Option<Shim> {
    if currency == OCTA then Some(OctaShim)
    else if currency == GRAMS then Some(GramsShim)
    else if currency == BSCUSDT then
      if bridgeTo == GRAMS then Some(UsdtOnPartyShim)
      else if bridgeTo == OCTA then Some(UsdtOnOctaShim)
      else None
    else Some(NoAddress)
  }

  /** The shim asked to release, and its endpoint. */
  function ReleaseShim(bridgeTo: string, bridgeFrom: string): (Shim, string) {
    if bridgeTo == GRAMS then (GramsShim, "/transfer")
    else if bridgeTo == OCTA then (OctaShim, "/transfer")
    else if bridgeTo == BSCUSDT && bridgeFrom == GRAMS then (UsdtOnPartyShim, "/transferBSCUSDT")
    else if bridgeTo == BSCUSDT && bridgeFrom == OCTA then (UsdtOnOctaShim, "/transferBSCUSDT")
    else (NoAddress, "")
  }

  predicate KnownChain(chain: string) {
    chain == GRAMS || chain == OCTA || chain == BSCUSDT
  }

  /** Literal names of one length that the solver must see to be different. */
  lemma NamesDiffer()
    ensures WOCTA != GRAMS
  {}

  /**
   * What the watch table means: a deposit is watched exactly when it moves between two different known
   * chains and is either the chain's own coin leaving for a chain that can wrap it, or the wrapping of the
   * target's coin coming back from a chain that can hold it.
   */
  lemma WatchedExactly(chain: string, bridgeTo: string, currency: string)
    ensures Watch(chain, bridgeTo, currency).Some? <==>
            && KnownChain(chain) && KnownChain(bridgeTo) && chain != bridgeTo
            && ( || (currency == chain && bridgeTo != BSCUSDT)
                 || (currency == "w" + bridgeTo && chain != BSCUSDT))
  {}

  /** Which loop watches: one for a chain's own coin, one for BSCUSDT, and one for each wrapped token on each chain. */
  lemma WatcherExactly(chain: string, bridgeTo: string, currency: string)
    ensures Watch(chain, bridgeTo, currency) == Some(EvmChain) <==>
            currency == chain && ((chain == "octa" && bridgeTo == "grams") || (chain == "grams" && bridgeTo == "octa"))
    ensures Watch(chain, bridgeTo, currency) == Some(WgramsOnOcta) <==>
            chain == "octa" && bridgeTo == "grams" && currency == "wgrams"
    ensures Watch(chain, bridgeTo, currency) == Some(WoctaOnParty) <==>
            chain == "grams" && bridgeTo == "octa" && currency == "wocta"
    ensures Watch(chain, bridgeTo, currency) == Some(WbscusdtOnOcta) <==>
            chain == "octa" && bridgeTo == "bscusdt" && currency == "wbscusdt"
    ensures Watch(chain, bridgeTo, currency) == Some(WbscusdtOnParty) <==>
            chain == "grams" && bridgeTo == "bscusdt" && currency == "wbscusdt"
    ensures Watch(chain, bridgeTo, currency) == Some(BscUsdt) <==>
            chain == "bscusdt" && currency == "bscusdt" && (bridgeTo == "octa" || bridgeTo == "grams")
  {}

  /** Which shim mints, for all strings; an unknown currency is sent to no address. */
  lemma MintShimExactly(currency: string, bridgeTo: string)
    ensures MintShim(currency, bridgeTo) == Some(OctaShim) <==> currency == "octa"
    ensures MintShim(currency, bridgeTo) == Some(GramsShim) <==> currency == "grams"
    ensures MintShim(currency, bridgeTo) == Some(UsdtOnPartyShim) <==> currency == "bscusdt" && bridgeTo == "grams"
    ensures MintShim(currency, bridgeTo) == Some(UsdtOnOctaShim) <==> currency == "bscusdt" && bridgeTo == "octa"
    ensures MintShim(currency, bridgeTo) == None <==> currency == "bscusdt" && bridgeTo != "grams" && bridgeTo != "octa"
  {}

  /** Which shim releases and at which of its endpoints, for all strings. */
  lemma ReleaseShimExactly(bridgeTo: string, bridgeFrom: string)
    ensures ReleaseShim(bridgeTo, bridgeFrom).0 == GramsShim <==> bridgeTo == "grams"
    ensures ReleaseShim(bridgeTo, bridgeFrom).0 == OctaShim <==> bridgeTo == "octa"
    ensures ReleaseShim(bridgeTo, bridgeFrom).0 == UsdtOnPartyShim <==> bridgeTo == "bscusdt" && bridgeFrom == "grams"
    ensures ReleaseShim(bridgeTo, bridgeFrom).0 == UsdtOnOctaShim <==> bridgeTo == "bscusdt" && bridgeFrom == "octa"
    ensures ReleaseShim(bridgeTo, bridgeFrom).1 == "/transfer" <==> bridgeTo == "grams" || bridgeTo == "octa"
    ensures ReleaseShim(bridgeTo, bridgeFrom).1 == "/transferBSCUSDT" <==>
            bridgeTo == "bscusdt" && (bridgeFrom == "grams" || bridgeFrom == "octa")
    ensures ReleaseShim(bridgeTo, bridgeFrom) == (NoAddress, "") <==>
            && bridgeTo != "grams" && bridgeTo != "octa"
            && (bridgeTo != "bscusdt" || (bridgeFrom != "grams" && bridgeFrom != "octa"))
  {}

  /**
   * What the bridge table means: a native coin other than the target's own is minted on a chain that wraps; the
   * target's wrapping is released there; and anything from a chain that wraps is released on BSC.
   */
  lemma BridgedExactly(bridgeTo: string, bridgeFrom: string, currency: string)
    ensures Bridge(bridgeTo, bridgeFrom, currency) == Some(Mint) <==>
            (bridgeTo == OCTA || bridgeTo == GRAMS) && Native(currency) && currency != bridgeTo
    ensures Bridge(bridgeTo, bridgeFrom, currency) == Some(Release) <==>
            || ((bridgeTo == OCTA || bridgeTo == GRAMS) && currency == "w" + bridgeTo)
            || (bridgeTo == BSCUSDT && (bridgeFrom == OCTA || bridgeFrom == GRAMS))
  {
    NamesDiffer();
    assert "w" + GRAMS == WGRAMS && "w" + OCTA == WOCTA;
  }

  /** The group a mint credits and the group a release searches. */
  function Credited(bridgeTo: string, currency: string): Group {
    Group(currency, bridgeTo)
  }

  function Searched(bridgeFrom: string, currency: string): Group {
    Group(Unwrapped(currency), bridgeFrom)
  }

  /** The shim that keeps a group: one for each coin, but for BSCUSDT one for each chain that wraps it. */
  function ShimOf(g: Group): Shim {
    if g.asset == GRAMS then GramsShim
    else if g.asset == OCTA then OctaShim
    else if g.asset == BSCUSDT && g.chain == GRAMS then UsdtOnPartyShim
    else if g.asset == BSCUSDT && g.chain == OCTA then UsdtOnOctaShim
    else NoAddress
  }

  /**
   * Whatever is watched is accepted for bridging: native coins mint and wrapped ones release, at their group's shim.
   */
  lemma WatchedIsBridged(chain: string, bridgeTo: string, currency: string)
    requires Watch(chain, bridgeTo, currency).Some?
    ensures Bridge(bridgeTo, chain, currency) == Some(if Native(currency) then Mint else Release)
    ensures Native(currency) ==>
      && ShimOf(Credited(bridgeTo, currency)) != NoAddress
      && MintShim(currency, bridgeTo) == Some(ShimOf(Credited(bridgeTo, currency)))
    ensures !Native(currency) ==>
      && ShimOf(Searched(chain, currency)) != NoAddress
      && ReleaseShim(bridgeTo, chain).0 == ShimOf(Searched(chain, currency))
      && ReleaseShim(bridgeTo, chain).1 == if bridgeTo == BSCUSDT then "/transferBSCUSDT" else "/transfer"
    ensures Watch(chain, bridgeTo, currency) == Some(EvmChain) ==> Native(currency)
  {}

  /** Every mint route can be travelled back: watched, released by the same shim, out of the group it credited. */
  lemma MintRouteReverses(chain: string, bridgeTo: string, currency: string)
    requires Watch(chain, bridgeTo, currency).Some? && Native(currency)
    ensures Watch(bridgeTo, chain, "w" + currency).Some?
    ensures Bridge(chain, bridgeTo, "w" + currency) == Some(Release)
    ensures MintShim(currency, bridgeTo) == Some(ReleaseShim(chain, bridgeTo).0)
    ensures Searched(bridgeTo, "w" + currency) == Credited(bridgeTo, currency)
  {}

  /** Every release route is the way back of exactly one mint route. */
  lemma ReleaseRouteReverses(chain: string, bridgeTo: string, currency: string)
    requires Watch(chain, bridgeTo, currency).Some? && !Native(currency)
    ensures Watch(bridgeTo, chain, Unwrapped(currency)).Some? && Native(Unwrapped(currency))
    ensures currency == "w" + Unwrapped(currency)
    ensures forall u :: Watch(bridgeTo, chain, u).Some? && Native(u) ==> u == Unwrapped(currency)
  {}
}
