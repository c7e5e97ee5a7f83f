/**
 Data model shared by every part of the business-registration handler: the
 registration asset, the transaction envelope fields the handler reads, and the
 wallet store with its optional `business` attribute.
 */
module Wallets {

  datatype Option<+T> = None | Some(value: T)

  type PublicKey = string

  /** The `businessRegistration` asset. Either field may be absent in the
      transaction data, so both are optional. */
  datatype BusinessAsset = BusinessAsset(name: Option<string>, website: Option<string>)

  /** The parts of a transaction the handler reads: its type tag, its sender
      and its business-registration asset. */
  datatype Transaction = Transaction(typ: nat, senderPublicKey: PublicKey, asset: BusinessAsset)

  /** A wallet. `balance` and `nonce` stand for the state owned by the
      framework; `business` is the attribute this handler sets and forgets. */
  datatype Wallet = Wallet(balance: int, nonce: nat, business: Option<BusinessAsset>)

  type Store = map<PublicKey, Wallet>

  /** The wallet assumed for a public key the store does not hold. */
  const NewWallet: Wallet := Wallet(0, 0, None)

  /** The wallet lookup, assumed to yield a new wallet for a key the store
      does not hold. */
  function FindByPublicKey(store: Store, key: PublicKey): Wallet
  {
    if key in store then store[key] else NewWallet
  }

  predicate HasBusiness(store: Store, key: PublicKey)
  {
    FindByPublicKey(store, key).business.Some?
  }

  /** JavaScript truthiness of an optional string: absent and "" are falsy. */
  predicate Truthy(s: Option<string>)
  {
    s.Some? && |s.value| > 0
  }

  /** Both fields present and non-empty. */
  predicate WellFormed(asset: BusinessAsset)
  {
    Truthy(asset.name) && Truthy(asset.website)
  }

  /** `setAttribute("business", asset)` on the wallet found for `key`. */
  function SetBusiness(store: Store, key: PublicKey, asset: BusinessAsset): Store
  {
    store[key := FindByPublicKey(store, key).(business := Some(asset))]
  }

  /** `forgetAttribute("business")` on the wallet found for `key`. */
  function ForgetBusiness(store: Store, key: PublicKey): Store
  {
    store[key := FindByPublicKey(store, key).(business := None)]
  }

  /** `r` agrees with `store` on every key other than `key`. */
  ghost predicate OthersUnchanged(store: Store, r: Store, key: PublicKey)
  {
    forall k :: k != key ==> (k in r <==> k in store) && (k in r ==> r[k] == store[k])
  }
}
