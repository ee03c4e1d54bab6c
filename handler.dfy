/** The handler pallet as the runtime runs it: its two storage maps and event
    log, updated in place by its calls, next to the storage of the asset
    ledger and of the bridge transport, which the transfer calls change
    through those pallets' operations. */
module Handler {
  import opened Primitives
  import opened Assets
  import opened ChainBridge
  import opened ResourceRegistry
  import Transfers

  class Pallet {
    /** `ResourceIds`: asset to resource. */
    var resourceIds: map<AssetId, ResourceId>
    /** `CurrencyIds`: resource to asset. */
    var currencyIds: map<ResourceId, AssetId>
    /** The events this pallet has deposited, oldest first. */
    var events: seq<Event>
    /** Storage of the asset ledger. */
    var ledger: Ledger
    /** Storage of the bridge transport. */
    var bridge: Bridge
    /** The registrar origin check: which origins may change the registry. */
    const registrarOrigin: Origin -> bool

    /** The registry held in this pallet's storage. */
    function State(): Registry
      reads this
    {
      Registry(resourceIds, currencyIds, events)
    }

    ghost predicate Valid()
      reads this
    {
      Bijective(State()) && Consistent(ledger)
    }

    /** Genesis: no resource is registered and no event deposited. */
    constructor (registrarOrigin: Origin -> bool, ledger: Ledger, bridge: Bridge)
      requires Consistent(ledger)
      ensures Valid()
      ensures State() == Empty
      ensures this.ledger == ledger && this.bridge == bridge && this.registrarOrigin == registrarOrigin
    {
      this.resourceIds := map[];
      this.currencyIds := map[];
      this.events := [];
      this.ledger := ledger;
      this.bridge := bridge;
      this.registrarOrigin := registrarOrigin;
    }

    /** The getter `resource_ids`: the resource returned maps back to the asset. */
    function ResourceIds(a: AssetId): (o: Option<ResourceId>)
      reads this
      ensures o.Some? <==> a in resourceIds
      ensures Valid() && o.Some? ==> o.value in currencyIds && currencyIds[o.value] == a
    {
      ResourceIdOf(State(), a)
    }

    /** The getter `currency_ids`: the asset returned maps back to the resource. */
    function CurrencyIds(r: ResourceId): (o: Option<AssetId>)
      reads this
      ensures o.Some? <==> r in currencyIds
      ensures Valid() && o.Some? ==> o.value in resourceIds && resourceIds[o.value] == r
    {
      CurrencyIdOf(State(), r)
    }

    /** `register_resource_id`. */
    method RegisterResourceId(origin: Origin, r: ResourceId, a: AssetId) returns (res: DispatchResult)
      requires Valid()
      modifies this
      ensures Valid()
      ensures Step(State(), res) == Register(old(State()), registrarOrigin(origin), r, a)
      ensures ledger == old(ledger) && bridge == old(bridge)
    {
      if !registrarOrigin(origin) {
        return Err(BadOrigin);
      }
      if a in resourceIds || r in currencyIds {
        return Err(ResourceIdAlreadyRegistered);
      }
      resourceIds := resourceIds[a := r];
      currencyIds := currencyIds[r := a];
      events := events + [Event.RegisterResourceId(r, a)];
      res := Ok(());
    }

    /** `remove_resource_id`. */
    method RemoveResourceId(origin: Origin, r: ResourceId) returns (res: DispatchResult)
      requires Valid()
      modifies this
      ensures Valid()
      ensures Step(State(), res) == Remove(old(State()), registrarOrigin(origin), r)
      ensures ledger == old(ledger) && bridge == old(bridge)
    {
      if !registrarOrigin(origin) {
        return Err(BadOrigin);
      }
      if r in currencyIds {
        var a := currencyIds[r];
        currencyIds := currencyIds - {r};
        resourceIds := resourceIds - {a};
        events := events + [UnregisterResourceId(r, a)];
      }
      res := Ok(());
    }

    /** `do_transfer_to_bridge`, which is not transactional by itself: it
        returns what the atomic call returns, but when the bridge refuses the
        dispatch the burn it has already made stays behind. */
    method DoTransferToBridge(from: AccountId, a: AssetId, dest: ChainId, recipient: seq<byte>,
                              amount: Balance, accepted: bool) returns (res: DispatchResult)
      requires Valid()
      modifies this
      ensures Valid()
      ensures State() == old(State())
      ensures var spec := Transfers.TransferToBridge(old(resourceIds), old(ledger), old(bridge), Signed(from),
                                                     a, dest, recipient, amount, accepted);
              && (spec.Ok? ==> res == Ok(()) && ledger == spec.value.0 && bridge == spec.value.1)
              && (spec.Err? ==> res == Err(spec.error))
      ensures res.Err? && res.error != BridgeDispatchFailed ==> ledger == old(ledger) && bridge == old(bridge)
      ensures res == Err(BridgeDispatchFailed) ==>
                && bridge == old(bridge)
                && DestroyUsable(old(ledger), a, from, amount).Ok?
                && ledger == DestroyUsable(old(ledger), a, from, amount).value
    {
      if !ChainWhitelisted(bridge, dest) {
        return Err(InvalidDestChainId);
      }
      var rid := ResourceIds(a);
      if rid.None? {
        return Err(ResourceIdNotRegistered);
      }
      var burnt := DestroyUsable(ledger, a, from, amount);
      if burnt.Err? {
        return Err(burnt.error);
      }
      ledger := burnt.value;
      var sent := TransferFungible(bridge, dest, rid.value, recipient, SaturateU128(amount), accepted);
      if sent.Err? {
        return Err(sent.error);
      }
      bridge := sent.value;
      res := Ok(());
    }

    /** `transfer_to_bridge`: a signed caller sends `amount` of asset `a` to
        `recipient` on chain `dest`. The call is transactional: it keeps the
        storage it may change and puts it back when the transfer fails, so a
        refused dispatch leaves no burn behind. `accepted` is the bridge
        transport's verdict on the dispatch. */
    method TransferToBridge(origin: Origin, a: AssetId, dest: ChainId, recipient: seq<byte>,
                            amount: Balance, accepted: bool) returns (res: DispatchResult)
      requires Valid()
      modifies this
      ensures Valid()
      ensures State() == old(State())
      ensures var spec := Transfers.TransferToBridge(old(resourceIds), old(ledger), old(bridge), origin,
                                                     a, dest, recipient, amount, accepted);
              && (spec.Ok? ==> res == Ok(()) && ledger == spec.value.0 && bridge == spec.value.1)
              && (spec.Err? ==> res == Err(spec.error))
      ensures res.Err? ==> ledger == old(ledger) && bridge == old(bridge)
    {
      var signed := EnsureSigned(origin);
      if signed.Err? {
        return Err(signed.error);
      }
      var savedLedger, savedBridge := ledger, bridge;
      res := DoTransferToBridge(signed.value, a, dest, recipient, amount, accepted);
      if res.Err? {
        ledger, bridge := savedLedger, savedBridge;
      }
    }

    /** `transfer_from_bridge`: issue `amount` of the asset registered for
        `r` to `to`. The bridge-origin check is disabled in this version, so
        `origin` is not inspected and any origin may call it. */
    method TransferFromBridge(origin: Origin, to: AccountId, amount: Balance, r: ResourceId) returns (res: DispatchResult)
      requires Valid()
      modifies this
      ensures Valid()
      ensures State() == old(State()) && bridge == old(bridge)
      ensures var spec := Transfers.TransferFromBridge(old(currencyIds), old(ledger), to, amount, r);
              && (spec.Ok? ==> res == Ok(()) && ledger == spec.value)
              && (spec.Err? ==> res == Err(spec.error) && ledger == old(ledger))
    {
      var a := CurrencyIds(r);
      if a.None? {
        return Err(ResourceIdNotRegistered);
      }
      ledger := Issue(ledger, a.value, to, amount);
      res := Ok(());
    }
  }

  /** A client of the pallet: the WETH round of the pallet's own tests, on a
      chain whose registrar is root and whose bridge whitelists chain 0. The
      resource is registered, 500 WETH arrive for Alice from an unsigned
      origin, and Alice sends 20 back out, which burns them. */
  method WethScenario() {
    var alice: AccountId, weth: AssetId := 1, 7;
    var wethResource: ResourceId := seq(32, i => if i == 31 then 2 else 0);
    var empty := Ledger(map[], map[]);
    var p := new Pallet(o => o == Root, empty, Bridge({0}, []));

    var res := p.RegisterResourceId(Root, wethResource, weth);
    assert res == Ok(());
    assert p.ResourceIds(weth) == Some(wethResource);

    res := p.TransferFromBridge(Unsigned, alice, 500, wethResource);
    assert res == Ok(());
    assert Usable(p.ledger, weth, alice) == 500 && TotalIssuance(p.ledger, weth) == 500;

    res := p.TransferToBridge(Signed(alice), weth, 0, [1], 20, true);
    assert res == Ok(());
    assert Usable(p.ledger, weth, alice) == 480 && TotalIssuance(p.ledger, weth) == 480;
    assert p.bridge.messages == [FungibleTransfer(0, wethResource, [1], 20)];

    res := p.TransferToBridge(Signed(alice), weth, 1, [1], 20, true);
    assert res == Err(InvalidDestChainId);
    res := p.TransferToBridge(Signed(alice), weth, 0, [1], 20, false);
    assert res == Err(BridgeDispatchFailed);
    assert Usable(p.ledger, weth, alice) == 480;
  }
}
