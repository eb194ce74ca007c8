/** Resolution of the EIP-1193 provider used by the soil-moisture hook
    (ui/src/hooks/useSoilMoisture.tsx, `eip1193Provider`). */
module Provider {

  import opened Wrappers

  /** Chain id of the local Hardhat development node. */
  const LocalChainId := 31337

  /** Fixed endpoint of the local development node. */
  const LocalEndpoint := "http://localhost:8545"

  /** What the wallet client's transport offers: whether `transport.value` is set and
      has a `request` function, and whether the transport itself has one. */
  datatype Transport = Transport(valueHasRequest: bool, hasRequest: bool)

  /** The provider the hook hands to FHEVM. */
  datatype Choice =
    | Url(url: string)      // a fixed RPC endpoint
    | TransportValue        // `walletClient.transport.value`
    | TransportItself       // `walletClient.transport`
    | InjectedEthereum      // `window.ethereum`
    | NoProvider            // `undefined`

  /** The resolution order: the local chain id wins over everything, then the wallet
      transport's value, then the transport, then the browser-injected provider.
      `transport` is `None` when the wallet client or its transport is missing;
      `injected` says whether `window` exists and `window.ethereum` is truthy. */
  function Resolve(chainId: int, transport: Option<Transport>, injected: bool): (r: Choice)
    ensures r.Url? <==> chainId == LocalChainId
    ensures r.Url? ==> r.url == LocalEndpoint
    ensures r == TransportValue <==>
      chainId != LocalChainId && transport.Some? && transport.value.valueHasRequest
    ensures r == TransportItself <==>
      chainId != LocalChainId && transport.Some? && !transport.value.valueHasRequest
      && transport.value.hasRequest
    ensures r == InjectedEthereum <==>
      chainId != LocalChainId && !HasUsableTransport(transport) && injected
    ensures r == NoProvider <==>
      chainId != LocalChainId && !HasUsableTransport(transport) && !injected
  {
    if chainId == LocalChainId then Url(LocalEndpoint)
    else if transport.Some? && transport.value.valueHasRequest then TransportValue
    else if transport.Some? && transport.value.hasRequest then TransportItself
    else if injected then InjectedEthereum
    else NoProvider
  }

  /** Some part of the wallet transport can serve requests. */
  predicate HasUsableTransport(transport: Option<Transport>) {
    transport.Some? && (transport.value.valueHasRequest || transport.value.hasRequest)
  }

  /** On the local chain the wallet and the browser are ignored: every transport and
      every injected provider give the same answer. */
  lemma LocalChainIgnoresWallet(t1: Option<Transport>, i1: bool, t2: Option<Transport>, i2: bool)
    ensures Resolve(LocalChainId, t1, i1) == Resolve(LocalChainId, t2, i2) == Url(LocalEndpoint)
  {
  }

  /** Off the local chain a provider is found exactly when the wallet transport or the
      browser offers one; resolution never invents a provider. */
  lemma ProviderFoundIffOffered(chainId: int, transport: Option<Transport>, injected: bool)
    requires chainId != LocalChainId
    ensures Resolve(chainId, transport, injected) != NoProvider <==>
      HasUsableTransport(transport) || injected
  {
  }
}
