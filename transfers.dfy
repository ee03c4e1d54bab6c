/** The two transfer calls of the handler as single atomic steps over the
    registry, the ledger and the bridge: what a caller observes once the
    call has committed or rolled back. */
module Transfers {
  import opened Primitives
  import opened Assets
  import opened ChainBridge
  import opened ResourceRegistry

  /** `transfer_to_bridge` as one atomic step: the caller must be signed, the
      destination whitelisted and the asset registered; then the amount is
      burnt from the caller and a transfer of the saturated amount is
      dispatched. Any failure leaves ledger and bridge as they were, so only
      the success case carries a new ledger and bridge. */
  function TransferToBridge(resourceIds: map<AssetId, ResourceId>, l: Ledger, b: Bridge, origin: Origin,
                            a: AssetId, dest: ChainId, recipient: seq<byte>, amount: Balance,
                            accepted: bool): (r: Result<(Ledger, Bridge)>)
    requires Consistent(l)
    // the checks fail in this order, before any balance is touched
    ensures !origin.Signed? ==> r == Err(BadOrigin)
    ensures origin.Signed? && dest !in b.whitelist ==> r == Err(InvalidDestChainId)
    ensures origin.Signed? && dest in b.whitelist && a !in resourceIds ==> r == Err(ResourceIdNotRegistered)
    ensures origin.Signed? && dest in b.whitelist && a in resourceIds && Usable(l, a, origin.who) < amount ==>
              r == Err(InsufficientBalance)
    // a dispatch the bridge refuses surfaces the bridge's own error
    ensures origin.Signed? && dest in b.whitelist && a in resourceIds && amount <= Usable(l, a, origin.who) && !accepted ==>
              r == Err(BridgeDispatchFailed)
    ensures r.Ok? <==> && origin.Signed? && dest in b.whitelist && a in resourceIds
                       && amount <= Usable(l, a, origin.who) && accepted
    // success: burnt from the sender and from the issuance, one message out
    ensures r.Ok? ==>
              && Consistent(r.value.0)
              && Usable(r.value.0, a, origin.who) + amount == Usable(l, a, origin.who)
              && TotalIssuance(r.value.0, a) + amount == TotalIssuance(l, a)
              && SameElsewhere(l, r.value.0, a, origin.who)
              && r.value.1.whitelist == b.whitelist
              && r.value.1.messages == b.messages + [FungibleTransfer(dest, resourceIds[a], recipient, SaturateU128(amount))]
  {
    match EnsureSigned(origin)
    case Err(e) => Err(e)
    case Ok(from) =>
      if !ChainWhitelisted(b, dest) then Err(InvalidDestChainId)
      else if a !in resourceIds then Err(ResourceIdNotRegistered)
      else
        match DestroyUsable(l, a, from, amount)
        case Err(e) => Err(e)
        case Ok(l') =>
          match ChainBridge.TransferFungible(b, dest, resourceIds[a], recipient, SaturateU128(amount), accepted)
          case Err(e) => Err(e)
          case Ok(b') => Ok((l', b'))
  }

  /** `transfer_from_bridge` as one atomic step: whatever the origin, a
      registered resource has its amount issued to `to`; an unregistered one
      fails without effect. */
  function TransferFromBridge(currencyIds: map<ResourceId, AssetId>, l: Ledger, to: AccountId, amount: Balance,
                              r: ResourceId): (res: Result<Ledger>)
    requires Consistent(l)
    ensures res.Ok? <==> r in currencyIds
    ensures res.Err? ==> res.error == ResourceIdNotRegistered
    ensures res.Ok? ==>
              && Consistent(res.value)
              && Usable(res.value, currencyIds[r], to) == Usable(l, currencyIds[r], to) + amount
              && TotalIssuance(res.value, currencyIds[r]) == TotalIssuance(l, currencyIds[r]) + amount
              && SameElsewhere(l, res.value, currencyIds[r], to)
  {
    if r !in currencyIds then Err(ResourceIdNotRegistered)
    else Ok(Issue(l, currencyIds[r], to, amount))
  }

  /** Sending an amount out and receiving it back on the resource the asset
      is registered under restores every balance and every issuance. */
  lemma OutboundThenInboundRestores(reg: Registry, l: Ledger, b: Bridge, who: AccountId, a: AssetId,
                                    dest: ChainId, recipient: seq<byte>, amount: Balance, accepted: bool)
    requires Bijective(reg) && Consistent(l)
    requires TransferToBridge(reg.resourceIds, l, b, Signed(who), a, dest, recipient, amount, accepted).Ok?
    ensures var out := TransferToBridge(reg.resourceIds, l, b, Signed(who), a, dest, recipient, amount, accepted);
            var back := TransferFromBridge(reg.currencyIds, out.value.0, who, amount, reg.resourceIds[a]);
            back.Ok? && Equivalent(l, back.value)
  {
  }

  /** Receiving an amount and sending it straight back on the asset the
      resource is registered to restores every balance and every issuance,
      provided the destination is whitelisted and the transport accepts. */
  lemma InboundThenOutboundRestores(reg: Registry, l: Ledger, b: Bridge, who: AccountId, r: ResourceId,
                                    dest: ChainId, recipient: seq<byte>, amount: Balance)
    requires Bijective(reg) && Consistent(l)
    requires r in reg.currencyIds && dest in b.whitelist
    ensures var inb := TransferFromBridge(reg.currencyIds, l, who, amount, r);
            var out := TransferToBridge(reg.resourceIds, inb.value, b, Signed(who), reg.currencyIds[r],
                                        dest, recipient, amount, true);
            out.Ok? && Equivalent(l, out.value.0)
  {
  }
}
