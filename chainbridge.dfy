/** The bridge transport as the handler sees it: a whitelist of destination
    chains and the sequence of outbound transfers it has accepted. Whether
    the transport accepts a transfer is decided inside the transport, which
    this model does not see; it is passed in as `accepted`. */
module ChainBridge {
  import opened Primitives

  datatype Bridge = Bridge(whitelist: set<ChainId>, messages: seq<Message>)

  /** `chain_whitelisted`. */
  predicate ChainWhitelisted(b: Bridge, c: ChainId) {
    c in b.whitelist
  }

  /** `transfer_fungible`: on acceptance the transfer is appended to the
      outbound messages; otherwise the bridge is left as it was. */
  function TransferFungible(b: Bridge, dest: ChainId, resourceId: ResourceId, recipient: seq<byte>,
                            amount: nat, accepted: bool): (r: Result<Bridge>)
    requires amount <= U256_MAX
    ensures r.Ok? <==> accepted
    ensures r.Err? ==> r.error == BridgeDispatchFailed
    ensures r.Ok? ==> r.value.whitelist == b.whitelist
    ensures r.Ok? ==> |r.value.messages| == |b.messages| + 1
    ensures r.Ok? ==> r.value.messages[..|b.messages|] == b.messages
    ensures r.Ok? ==> r.value.messages[|b.messages|] == FungibleTransfer(dest, resourceId, recipient, amount)
  {
    if accepted then Ok(b.(messages := b.messages + [FungibleTransfer(dest, resourceId, recipient, amount)]))
    else Err(BridgeDispatchFailed)
  }
}
