# Bridge handler pallet: resource registry and transfer orchestration

This project models the `handler` pallet of a ChainX/chainbridge runtime
(`handler/src/lib.rs`). The pallet keeps two storage maps that bind local
assets to bridge resource identifiers, `ResourceIds` (asset to resource) and
`CurrencyIds` (resource to asset), and deposits an event for every change.
It also runs the two transfer calls. An outbound transfer checks the
destination chain against the bridge whitelist, looks up the asset's
resource, burns the amount from the sender's usable balance and dispatches a
fungible transfer of the amount saturated to u128. An inbound transfer looks
up the resource's asset and issues the amount to the recipient.

Modules:

- `Primitives` (`primitives.dfy`): identifiers, origins, errors, events,
  bridge messages and the u128 saturation of the wire amount.
- `Assets` (`assets.dfy`): the asset ledger as a value, with only the two
  operations the handler calls, `destroy_usable` and `issue`. The ledger
  keeps usable balances and a stored total issuance per asset. Its
  invariant `Consistent` says each issuance is the sum of that asset's
  balances.
- `ChainBridge` (`chainbridge.dfy`): the bridge transport as a whitelist of
  chains and the sequence of outbound transfers it has accepted.
- `ResourceRegistry` (`registry.dfy`): the registry as a value, the two
  registry calls as functions, and lemmas over any sequence of calls. These
  cover the bijection between the maps and the replay of the event log.
- `Transfers` (`transfers.dfy`): the two transfer calls as atomic steps,
  which is what a caller observes after commit or rollback, and the
  burn/mint round trips.
- `Handler` (`handler.dfy`): class `Pallet`, whose fields are the storage
  the calls update in place. Its methods are the pallet's calls, each proved
  against the functions above. `TransferToBridge` keeps a copy of the ledger
  and bridge storage and puts it back on failure, which is what
  `#[transactional]` does. `DoTransferToBridge`, which is not transactional
  by itself, is proved to leave the burn behind when the dispatch is
  refused. `WethScenario` is a client that replays the WETH steps of the
  pallet's tests against the contracts alone.

The pallet's tests (`handler/src/test.rs`) expect lock/unlock custody for
PCX, `ResourceIdCurrencyIdNotMatch` on registration and `BadOrigin` on
inbound transfers. None of these is in `handler/src/lib.rs`, and the model
follows `lib.rs`:

- Custody is always burn (`destroy_usable`) on the way out and mint (`issue`)
  on the way in. No lock/unlock path exists, and no chain-tag byte of a
  resource id is ever read.
- `transfer_from_bridge` does not check the bridge origin, because the check
  is commented out at `handler/src/lib.rs:119`. The model's
  `TransferFromBridge` takes an origin and ignores it, and `WethScenario`
  shows an unsigned origin minting.
- `ResourceIdCurrencyIdNotMatch` is declared but no call returns it. The
  contracts of `Register`, `Remove` and the transfer steps list every error
  each can return, and this one is not among them.
- Registration refuses when the asset already has a resource or the resource
  already has an asset. It checks one direction of each map, which under the
  bijection is the same as checking both.

## Model

| member | source | states |
|---|---|---|
| `Primitives.SaturateU128` | handler/src/lib.rs:153 | The wire amount is at most the amount and at most u128::MAX. It equals the amount exactly when the amount fits in u128 and is u128::MAX otherwise. It always fits the 256-bit wire integer. |
| `ResourceRegistry.ResourceIdOf` | handler/src/lib.rs:50-52 | The getter `resource_ids` returns a resource exactly when the asset is mapped. In a bijective registry that resource maps back to the asset. |
| `ResourceRegistry.CurrencyIdOf` | handler/src/lib.rs:54-56 | The getter `currency_ids` returns an asset exactly when the resource is mapped. In a bijective registry that asset maps back to the resource. |
| `ResourceRegistry.LookupsAgree` | handler/src/lib.rs:50-56 | In a bijective registry, `resource_ids(a) == Some(r)` holds if and only if `currency_ids(r) == Some(a)`. |
| `ResourceRegistry.Register` | handler/src/lib.rs:65-81 | An unauthorised caller gets BadOrigin and nothing changes. If either id is already bound, the call fails with ResourceIdAlreadyRegistered and nothing changes. Otherwise it succeeds: both lookups now return the new pair, exactly one RegisterResourceId event is appended, and every other entry stays as it was. The bijection is preserved. |
| `ResourceRegistry.Remove` | handler/src/lib.rs:85-95 | An unauthorised caller gets BadOrigin and nothing changes. An authorised call always succeeds. For an unmapped resource nothing changes and no event is logged. For a mapped resource both directions are removed, one UnregisterResourceId event with the old asset is appended, and every other entry stays as it was. The bijection is preserved. |
| `ResourceRegistry.RemoveIdempotent` | handler/src/lib.rs:90-94 | Removing a resource a second time changes nothing and returns the same result as the first removal. |
| `ResourceRegistry.RunPreservesBijection` | handler/src/lib.rs:65-95 | Any sequence of register and remove calls, authorised or not, keeps the two maps inverse to each other. |
| `ResourceRegistry.ReachableIsBijective` | handler/src/lib.rs:50-95 | Every registry reached from empty storage by any sequence of calls is a bijection. |
| `ResourceRegistry.StepReplays` | handler/src/lib.rs:77-92 | After one call, replaying the event log still rebuilds the registry. A registration event re-inserts both directions and an unregistration event removes both. |
| `ResourceRegistry.RunReplays` | handler/src/lib.rs:65-95 | If the event log rebuilds the registry before a sequence of calls, it still rebuilds it afterwards. |
| `ResourceRegistry.ReachableReplays` | handler/src/lib.rs:79-92 | For a registry reached from empty storage, replaying its event log yields exactly its two maps. The events are a complete record of the registry. |
| `Assets.DestroyUsable` | handler/src/lib.rs:147 | The burn succeeds exactly when the amount is at most the sender's usable balance. On success the balance and the asset's issuance each drop by the amount, no other balance or issuance changes, and the ledger stays consistent. On failure it returns InsufficientBalance. |
| `Assets.Issue` | handler/src/lib.rs:123 | The recipient's balance and the asset's issuance each rise by the amount. Nothing else changes and the ledger stays consistent. |
| `Assets.IssueUndoesDestroy` | handler/src/lib.rs:123-147 | Issuing to an account exactly what was just burnt from it restores every balance and every issuance. |
| `ChainBridge.TransferFungible` | handler/src/lib.rs:149-154 | The dispatch succeeds exactly when the transport accepts it. On success exactly one message, carrying the destination, resource, recipient and wire amount, is appended and the whitelist is unchanged. On failure it returns BridgeDispatchFailed. |
| `Transfers.TransferToBridge` | handler/src/lib.rs:97-155 | The checks fail in a fixed order: BadOrigin for an unsigned caller, then InvalidDestChainId for a chain not on the whitelist, then ResourceIdNotRegistered for an unmapped asset, then InsufficientBalance, then BridgeDispatchFailed when the bridge refuses the dispatch. The call succeeds exactly when every check passes and the bridge accepts. On success the sender's balance and the issuance drop by the amount, nothing else in the ledger changes, and exactly one message carrying `min(amount, 2^128-1)` to the asset's resource is appended. |
| `Transfers.TransferFromBridge` | handler/src/lib.rs:111-126 | The call succeeds exactly when the resource is registered, and otherwise fails with ResourceIdNotRegistered. On success the recipient's balance and the issuance of the mapped asset rise by the amount and nothing else changes. No origin enters the result. |
| `Transfers.OutboundThenInboundRestores` | handler/src/lib.rs:113-155 | Suppose an outbound transfer succeeds and the same amount then comes back on the asset's resource to the sender. With a bijective registry the inbound call succeeds, and every balance and issuance is what it was before. |
| `Transfers.InboundThenOutboundRestores` | handler/src/lib.rs:113-155 | Suppose an amount arrives on a registered resource and the recipient sends it straight back to a whitelisted chain that accepts it. The outbound call succeeds, and every balance and issuance is what it was before. |
| `Handler.Pallet.constructor` | handler/src/lib.rs:50-56 | Genesis storage holds no mapping and no event, and the invariant holds. |
| `Handler.Pallet.ResourceIds` | handler/src/lib.rs:50-52 | The getter over the pallet's storage returns a resource exactly when the asset is mapped. Under the invariant that resource maps back to the asset. |
| `Handler.Pallet.CurrencyIds` | handler/src/lib.rs:54-56 | The getter over the pallet's storage returns an asset exactly when the resource is mapped. Under the invariant that asset maps back to the resource. |
| `Handler.Pallet.RegisterResourceId` | handler/src/lib.rs:63-81 | The in-place update of both maps and the event log yields exactly the new registry and the result of `Register`. It keeps the bijection and does not touch the ledger or the bridge. |
| `Handler.Pallet.RemoveResourceId` | handler/src/lib.rs:83-95 | The in-place update yields exactly the new registry and the result of `Remove`. It keeps the bijection and does not touch the ledger or the bridge. |
| `Handler.Pallet.DoTransferToBridge` | handler/src/lib.rs:130-156 | The step-by-step helper returns the atomic step's result, and on success leaves its ledger and bridge behind. A failure before the burn leaves everything unchanged. A refused dispatch leaves the bridge unchanged but the burn in place, because the helper alone is not transactional. |
| `Handler.Pallet.TransferToBridge` | handler/src/lib.rs:97-109 | The signed-caller check followed by the transactional helper call gives the result and the new ledger and bridge of the atomic step. Every failure, including a refused dispatch, leaves ledger and bridge exactly as they were. The registry never changes. |
| `Handler.Pallet.TransferFromBridge` | handler/src/lib.rs:111-126 | With any origin, the call gives the result and ledger of the atomic inbound step. Failure leaves the ledger unchanged, and neither the registry nor the bridge ever changes. |

## Left out

- Runtime machinery is not modelled: call weights, hooks, storage hashers and the event plumbing of `deposit_event`. Events are a sequence the pallet appends to.
- The registrar origin check is an abstract predicate on the origin (`registrarOrigin`), and `ensure_signed` accepts exactly a signed origin. How origins are authenticated is not modelled.
- Assets.DestroyUsable: the only failure modelled is a usable balance below the amount. Asset validity, transfer restrictions and reserved balances belong to the ledger pallet, which is not part of this model.
- Assets.Issue: issuing never fails in the model. Failures inside the ledger pallet (an invalid or restricted asset, overflow) are not modelled, because that code is not part of this model.
- ChainBridge.TransferFungible: whether the transport accepts a dispatch is a parameter (`accepted`). The transport's deposit nonce, its own events, relayer voting and fees are not modelled.
- Balances are unbounded naturals rather than u128. The one place width matters, the saturation of the wire amount, is modelled. Asset ids are naturals, and account ids are opaque naturals.
- The test runtime (`handler/src/mock.rs`) and the tests (`handler/src/test.rs`) are not modelled. The tests expect behaviour the code does not have: ResourceIdCurrencyIdNotMatch, lock/unlock custody, and BadOrigin on inbound transfers. Only their WETH burn and mint steps agree with the code, and `WethScenario` replays those.
