/** Identifiers, origins, errors, events and bridge messages shared by the
    handler pallet and the two pallets it calls: the asset ledger
    (xpallet_assets) and the bridge transport (chainbridge). */
module Primitives {

  /** An unsigned 8-bit value. */
  newtype byte = b: int | 0 <= b < 256

  /** Local asset identifier of the ChainX ledger. */
  type AssetId = nat

  /** Bridge resource identifier: 32 opaque bytes. */
  type ResourceId = s: seq<byte> | |s| == 32 witness seq(32, _ => 0)

  /** Identifier of a chain taking part in the bridge (one byte). */
  type ChainId = byte

  /** An account of the local chain; its encoding plays no part here. */
  type AccountId = nat

  /** A ledger amount. */
  type Balance = nat

  const U128_MAX: nat := 0xffff_ffff_ffff_ffff_ffff_ffff_ffff_ffff
  const U256_MAX: nat := 0xffff_ffff_ffff_ffff_ffff_ffff_ffff_ffff_ffff_ffff_ffff_ffff_ffff_ffff_ffff_ffff

  /** The amount put on the wire by an outbound transfer: the balance
      saturated into a u128, which the 256-bit wire integer then holds
      without loss. The result is the largest value that is at most both the
      amount and u128::MAX. */
  function SaturateU128(amount: Balance): (wire: nat)
    ensures wire <= U128_MAX && wire <= amount
    ensures wire == amount || wire == U128_MAX
    ensures wire == amount <==> amount <= U128_MAX
    ensures wire <= U256_MAX
  {
    if amount <= U128_MAX then amount else U128_MAX
  }

  /** The origin of a dispatched call. */
  datatype Origin =
    | Root
    | Signed(who: AccountId)
    | Unsigned

  /** Every error a call of the handler can return, whichever pallet raises it. */
  datatype Error =
    | BadOrigin                     // the origin check of the call failed
    | InvalidDestChainId            // handler: destination chain not whitelisted
    | ResourceIdAlreadyRegistered   // handler: registration would overwrite
    | ResourceIdNotRegistered       // handler: no mapping for the id looked up
    | ResourceIdCurrencyIdNotMatch  // handler: declared, never raised
    | InsufficientBalance           // asset ledger: usable balance too small
    | BridgeDispatchFailed          // bridge transport refused the transfer

  datatype Option<T> = None | Some(value: T)

  datatype Result<T> = Ok(value: T) | Err(error: Error)

  /** The result of a dispatched call: success carries nothing. */
  type DispatchResult = Result<()>

  /** The events the handler pallet deposits. */
  datatype Event =
    | RegisterResourceId(resourceId: ResourceId, currencyId: AssetId)
    | UnregisterResourceId(resourceId: ResourceId, currencyId: AssetId)

  /** An outbound fungible transfer handed to the bridge transport. */
  datatype Message = FungibleTransfer(dest: ChainId, resourceId: ResourceId, recipient: seq<byte>, amount: nat)

  /** `ensure_signed`: only a signed origin names an account. */
  function EnsureSigned(origin: Origin): Result<AccountId> {
    match origin
    case Signed(who) => Ok(who)
    case _ => Err(BadOrigin)
  }
}
