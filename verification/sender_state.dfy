/**
 Commit and rollback of a business registration: `applyToSender` sets the
 sender's `business` attribute, `revertForSender` forgets it, and both
 recipient hooks do nothing. The framework's own sender effects (fee, nonce)
 run before these and are the identity here.
 */
module SenderState {
  import opened Wallets
  import Admission

  function ApplyToSender(store: Store, tx: Transaction): (r: Store)
    ensures tx.senderPublicKey in r
    ensures r[tx.senderPublicKey].business == Some(tx.asset)
    ensures r[tx.senderPublicKey].balance == FindByPublicKey(store, tx.senderPublicKey).balance
    ensures r[tx.senderPublicKey].nonce == FindByPublicKey(store, tx.senderPublicKey).nonce
    ensures OthersUnchanged(store, r, tx.senderPublicKey)
  {
    SetBusiness(store, tx.senderPublicKey, tx.asset)
  }

  function RevertForSender(store: Store, tx: Transaction): (r: Store)
    ensures tx.senderPublicKey in r
    ensures r[tx.senderPublicKey].business == None
    ensures r[tx.senderPublicKey].balance == FindByPublicKey(store, tx.senderPublicKey).balance
    ensures r[tx.senderPublicKey].nonce == FindByPublicKey(store, tx.senderPublicKey).nonce
    ensures OthersUnchanged(store, r, tx.senderPublicKey)
  {
    ForgetBusiness(store, tx.senderPublicKey)
  }

  /** Registrations are self-directed: there is no recipient effect. */
  function ApplyToRecipient(store: Store, tx: Transaction): (r: Store)
    ensures r == store
  {
    store
  }

  function RevertForRecipient(store: Store, tx: Transaction): (r: Store)
    ensures r == store
  {
    store
  }

  /** The handler's part of a commit: its sender write, then the recipient
      hook. The framework's base-class effects are not included. */
  function ApplyTransaction(store: Store, tx: Transaction): Store
  {
    ApplyToRecipient(ApplyToSender(store, tx), tx)
  }

  /** The handler's part of a rollback: its sender write, then the recipient
      hook. The framework's base-class effects are not included. */
  function RevertTransaction(store: Store, tx: Transaction): Store
  {
    RevertForRecipient(RevertForSender(store, tx), tx)
  }

  /** The handler's revert write after its apply write, on a sender the
      admission check would let through, gives every wallet back the state
      it had; the store is unchanged outright when the
      sender's wallet already existed. */
  lemma RevertUndoesApply(store: Store, tx: Transaction)
    requires !HasBusiness(store, tx.senderPublicKey)
    ensures forall k :: FindByPublicKey(RevertTransaction(ApplyTransaction(store, tx), tx), k) == FindByPublicKey(store, k)
    ensures tx.senderPublicKey in store ==> RevertTransaction(ApplyTransaction(store, tx), tx) == store
    ensures tx.senderPublicKey !in store ==>
              RevertTransaction(ApplyTransaction(store, tx), tx) == store[tx.senderPublicKey := NewWallet]
  {
  }

  /** Under stack discipline the converse holds too: applying again the
      registration whose asset the sender holds restores the store. */
  lemma ApplyRedoesRevert(store: Store, tx: Transaction)
    requires FindByPublicKey(store, tx.senderPublicKey).business == Some(tx.asset)
    ensures ApplyTransaction(RevertTransaction(store, tx), tx) == store
  {
  }

  /** The handler's write for the same transaction, done twice, overwrites
      the attribute with the same asset. */
  lemma ApplyIsIdempotent(store: Store, tx: Transaction)
    ensures ApplyTransaction(ApplyTransaction(store, tx), tx) == ApplyTransaction(store, tx)
  {
  }

  /** One step of an account history: a commit or a rollback. */
  datatype Step = Commit(tx: Transaction) | Rollback(tx: Transaction)

  function StepSender(step: Step): PublicKey
  {
    step.tx.senderPublicKey
  }

  function Run(store: Store, steps: seq<Step>): Store
    decreases |steps|
  {
    if |steps| == 0 then store
    else
      var prev := Run(store, steps[..|steps| - 1]);
      match steps[|steps| - 1]
      case Commit(tx) => ApplyTransaction(prev, tx)
      case Rollback(tx) => RevertTransaction(prev, tx)
  }

  /** Every commit passed the admission check (with the framework's generic
      checks passing) and every rollback undoes a registration in force. */
  ghost predicate Disciplined(store: Store, steps: seq<Step>)
    decreases |steps|
  {
    if |steps| == 0 then true
    else
      var prev := Run(store, steps[..|steps| - 1]);
      && Disciplined(store, steps[..|steps| - 1])
      && match steps[|steps| - 1]
         case Commit(tx) => Admission.ThrowIfCannotBeApplied(tx, FindByPublicKey(prev, tx.senderPublicKey), Admission.Pass) == Admission.Pass
         case Rollback(tx) => HasBusiness(prev, tx.senderPublicKey)
  }

  /** Commits minus rollbacks for the wallet of `key`. */
  function NetRegistrations(steps: seq<Step>, key: PublicKey): int
    decreases |steps|
  {
    if |steps| == 0 then 0
    else
      var last := steps[|steps| - 1];
      NetRegistrations(steps[..|steps| - 1], key)
        + (if StepSender(last) != key then 0 else if last.Commit? then 1 else -1)
  }

  function Indicator(b: bool): int
  {
    if b then 1 else 0
  }

  /** A wallet holds a registration exactly when its initial registration
      count plus the commits minus the rollbacks of its transactions is one;
      that count never leaves {0, 1}. */
  lemma {:induction false} RegistrationCountInvariant(store: Store, steps: seq<Step>, key: PublicKey)
    requires Disciplined(store, steps)
    ensures Indicator(HasBusiness(store, key)) + NetRegistrations(steps, key)
              == Indicator(HasBusiness(Run(store, steps), key))
    ensures HasBusiness(Run(store, steps), key) <==> Indicator(HasBusiness(store, key)) + NetRegistrations(steps, key) == 1
  {
    if |steps| > 0 {
      var init := steps[..|steps| - 1];
      RegistrationCountInvariant(store, init, key);
      var prev := Run(store, init);
      var last := steps[|steps| - 1];
      if StepSender(last) == key && last.Commit? {
        var w := FindByPublicKey(prev, key);
        assert Admission.ThrowIfCannotBeApplied(last.tx, w, Admission.Pass) == Admission.Pass;
        assert !HasBusiness(prev, key);
      }
    }
  }

  /** From a store with no registrations, a disciplined history leaves a
      wallet registered exactly when its net count of registrations is one. */
  lemma RegisteredIffNetOne(store: Store, steps: seq<Step>, key: PublicKey)
    requires !HasBusiness(store, key)
    requires Disciplined(store, steps)
    ensures HasBusiness(Run(store, steps), key) <==> NetRegistrations(steps, key) == 1
    ensures 0 <= NetRegistrations(steps, key) <= 1
  {
    RegistrationCountInvariant(store, steps, key);
  }
}
