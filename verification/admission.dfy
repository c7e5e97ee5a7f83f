/**
 The admission check `throwIfCannotBeApplied`: a malformed asset is refused
 first, then a sender wallet that is already a business, then the framework's
 generic checks (fee, balance, nonce), whose verdict arrives as `baseCheck`.
 */
module Admission {
  import opened Wallets

  datatype AdmissionError =
    | BusinessRegistrationAssetError
    | WalletIsAlreadyABusiness
      /** a failure of the framework's generic checks, described by `reason` */
    | BaseCheckError(reason: string)

  datatype Verdict = Pass | Fail(error: AdmissionError)

  /** The check as written: the generic check is started but not awaited, so
      its verdict never reaches the caller. */
  function ThrowIfCannotBeAppliedAsWritten(tx: Transaction, wallet: Wallet, baseCheck: Verdict): (r: Verdict)
    ensures !WellFormed(tx.asset) ==> r == Fail(BusinessRegistrationAssetError)
    ensures WellFormed(tx.asset) && wallet.business.Some? ==> r == Fail(WalletIsAlreadyABusiness)
    ensures r == Pass <==> WellFormed(tx.asset) && wallet.business.None?
  {
    if !Truthy(tx.asset.name) || !Truthy(tx.asset.website) then
      Fail(BusinessRegistrationAssetError)
    else if wallet.business.Some? then
      Fail(WalletIsAlreadyABusiness)
    else
      Pass
  }

  /** The check as intended: the generic check's verdict is the result once
      the handler's own two checks pass. */
  function ThrowIfCannotBeApplied(tx: Transaction, wallet: Wallet, baseCheck: Verdict): (r: Verdict)
    ensures !WellFormed(tx.asset) ==> r == Fail(BusinessRegistrationAssetError)
    ensures WellFormed(tx.asset) && wallet.business.Some? ==> r == Fail(WalletIsAlreadyABusiness)
    ensures WellFormed(tx.asset) && wallet.business.None? ==> r == baseCheck
    ensures r == Pass <==> WellFormed(tx.asset) && wallet.business.None? && baseCheck == Pass
  {
    if !Truthy(tx.asset.name) || !Truthy(tx.asset.website) then
      Fail(BusinessRegistrationAssetError)
    else if wallet.business.Some? then
      Fail(WalletIsAlreadyABusiness)
    else
      baseCheck
  }

  /** The check order on a wallet that is already a business: the asset
      check comes first, so a malformed asset gives the asset error and only
      a well-formed one reaches the duplicate check, in both forms of the
      check and whatever the generic checks said. */
  lemma MalformedAssetWinsOverDuplicate(tx: Transaction, wallet: Wallet, baseCheck: Verdict)
    requires wallet.business.Some?
    ensures !WellFormed(tx.asset) ==>
              && ThrowIfCannotBeApplied(tx, wallet, baseCheck) == Fail(BusinessRegistrationAssetError)
              && ThrowIfCannotBeAppliedAsWritten(tx, wallet, baseCheck) == Fail(BusinessRegistrationAssetError)
    ensures WellFormed(tx.asset) ==>
              && ThrowIfCannotBeApplied(tx, wallet, baseCheck) == Fail(WalletIsAlreadyABusiness)
              && ThrowIfCannotBeAppliedAsWritten(tx, wallet, baseCheck) == Fail(WalletIsAlreadyABusiness)
  {
  }

  /** The scope of the lost verdict: on every input, the check as written
      behaves as the intended check does when the generic checks pass. */
  lemma AsWrittenIsIntendedWithPassingBase(tx: Transaction, wallet: Wallet, baseCheck: Verdict)
    ensures ThrowIfCannotBeAppliedAsWritten(tx, wallet, baseCheck) == ThrowIfCannotBeApplied(tx, wallet, Pass)
  {
  }

  /** The lost verdict: a well-formed registration from a fresh wallet whose
      generic check fails is admitted by the check as written and refused by
      the intended check. */
  lemma BaseCheckFailureIsLost()
    ensures var tx := Transaction(0, "sender", BusinessAsset(Some("Acme Corp"), Some("acme.example")));
            var failed := Fail(BaseCheckError("insufficient balance"));
            && ThrowIfCannotBeAppliedAsWritten(tx, NewWallet, failed) == Pass
            && ThrowIfCannotBeApplied(tx, NewWallet, failed) == failed
  {
  }
}
