/**
 The pool-entry decision `canEnterTransactionPool`. It reads three snapshots:
 whether the sender already has a pending transaction of this type (decided
 by the framework), the transactions of the batch being processed, and the
 transactions resident in the pool. Diagnostics the source pushes to the
 processor are returned in the verdict instead.
 */
module PoolEntry {
  import opened Wallets

  datatype ErrorCode = ErrConflict | ErrPending

  datatype PoolError = PoolError(code: ErrorCode, message: string)

  /** Whether the candidate may enter the pool, and the diagnostics pushed. */
  datatype PoolVerdict = PoolVerdict(accepted: bool, errors: seq<PoolError>)

  /** How a template literal renders an optional string. */
  function NameText(name: Option<string>): string
  {
    match name
    case Some(s) => s
    case None => "undefined"
  }

  const ConflictPrefix: string := "Multiple business registrations for \""
  const PendingPrefix: string := "Business registration for \""

  /** `message` holds `part` starting at index `at`. */
  predicate EmbedsAt(message: string, at: nat, part: string)
  {
    at + |part| <= |message| && message[at..at + |part|] == part
  }

  function ConflictMessage(name: Option<string>): (m: string)
    ensures |ConflictPrefix| <= |m| && m[..|ConflictPrefix|] == ConflictPrefix
    ensures EmbedsAt(m, |ConflictPrefix|, NameText(name))
  {
    var m := ConflictPrefix + NameText(name) + "\" in transaction payload";
    assert m[|ConflictPrefix|..|ConflictPrefix| + |NameText(name)|] == NameText(name);
    m
  }

  function PendingMessage(name: Option<string>): (m: string)
    ensures |PendingPrefix| <= |m| && m[..|PendingPrefix|] == PendingPrefix
    ensures EmbedsAt(m, |PendingPrefix|, NameText(name))
  {
    var m := PendingPrefix + NameText(name) + "\" already in the pool";
    assert m[|PendingPrefix|..|PendingPrefix| + |NameText(name)|] == NameText(name);
    m
  }

  /** A transaction of the handler's own type whose registered name is
      exactly `name`: no case folding, no trimming. */
  predicate SameName(tx: Transaction, ownType: nat, name: Option<string>)
  {
    tx.typ == ownType && tx.asset.name == name
  }

  /** The length of the batch filtered to same-type, same-name transactions. */
  function CountSameName(batch: seq<Transaction>, ownType: nat, name: Option<string>): (n: nat)
    ensures n <= |batch|
    ensures n == 0 <==> forall i :: 0 <= i < |batch| ==> !SameName(batch[i], ownType, name)
  {
    if |batch| == 0 then 0
    else (if SameName(batch[0], ownType, name) then 1 else 0) + CountSameName(batch[1..], ownType, name)
  }

  /** Two distinct batch positions hold a same-type, same-name transaction. */
  ghost predicate BatchConflict(batch: seq<Transaction>, ownType: nat, name: Option<string>)
  {
    exists i, j :: 0 <= i < j < |batch| && SameName(batch[i], ownType, name) && SameName(batch[j], ownType, name)
  }

  /** Some pool transaction of the handler's type carries the name. */
  ghost predicate PoolConflict(pool: seq<Transaction>, ownType: nat, name: Option<string>)
  {
    exists i :: 0 <= i < |pool| && SameName(pool[i], ownType, name)
  }

  /** `.some(...)` over the pool's transactions of the handler's type. */
  function InPoolWithName(pool: seq<Transaction>, ownType: nat, name: Option<string>): (found: bool)
    ensures found <==> PoolConflict(pool, ownType, name)
  {
    if |pool| == 0 then false
    else if SameName(pool[0], ownType, name) then true
    else
      var rest := InPoolWithName(pool[1..], ownType, name);
      assert forall i :: 1 <= i < |pool| ==> pool[i] == pool[1..][i - 1];
      assert PoolConflict(pool[1..], ownType, name) ==> PoolConflict(pool, ownType, name) by {
        if PoolConflict(pool[1..], ownType, name) {
          var i :| 0 <= i < |pool[1..]| && SameName(pool[1..][i], ownType, name);
          assert SameName(pool[i + 1], ownType, name);
        }
      }
      rest
  }

  /** Counting more than one match is the same as finding two positions. */
  lemma {:induction false} CountAboveOneIffTwoPositions(batch: seq<Transaction>, ownType: nat, name: Option<string>)
    ensures CountSameName(batch, ownType, name) > 1 <==> BatchConflict(batch, ownType, name)
  {
    if |batch| == 0 {
    } else {
      var tail := batch[1..];
      CountAboveOneIffTwoPositions(tail, ownType, name);
      if CountSameName(batch, ownType, name) > 1 {
        if SameName(batch[0], ownType, name) {
          var j :| 0 <= j < |tail| && SameName(tail[j], ownType, name);
          assert SameName(batch[j + 1], ownType, name);
        } else {
          var i, j :| 0 <= i < j < |tail| && SameName(tail[i], ownType, name) && SameName(tail[j], ownType, name);
          assert SameName(batch[i + 1], ownType, name) && SameName(batch[j + 1], ownType, name);
        }
      }
      if BatchConflict(batch, ownType, name) {
        var i, j :| 0 <= i < j < |batch| && SameName(batch[i], ownType, name) && SameName(batch[j], ownType, name);
        if i == 0 {
          assert SameName(tail[j - 1], ownType, name);
        } else {
          assert SameName(tail[i - 1], ownType, name) && SameName(tail[j - 1], ownType, name);
        }
      }
    }
  }

  /** The pool-entry decision. `ownType` is the handler's transaction type and
      `senderHasPendingOfType` the framework's verdict on whether the sender
      already has a transaction of this type in the pool. */
  function CanEnterTransactionPool(
    candidate: Transaction, ownType: nat, senderHasPendingOfType: bool,
    batch: seq<Transaction>, pool: seq<Transaction>): (v: PoolVerdict)
    ensures senderHasPendingOfType ==> v == PoolVerdict(false, [])
    ensures !senderHasPendingOfType && BatchConflict(batch, ownType, candidate.asset.name) ==>
              v == PoolVerdict(false, [PoolError(ErrConflict, ConflictMessage(candidate.asset.name))])
    ensures !senderHasPendingOfType && !BatchConflict(batch, ownType, candidate.asset.name)
              && PoolConflict(pool, ownType, candidate.asset.name) ==>
              v == PoolVerdict(false, [PoolError(ErrPending, PendingMessage(candidate.asset.name))])
    ensures v.accepted <==>
              && !senderHasPendingOfType
              && !BatchConflict(batch, ownType, candidate.asset.name)
              && !PoolConflict(pool, ownType, candidate.asset.name)
    ensures v.accepted ==> v.errors == []
  {
    var name := candidate.asset.name;
    CountAboveOneIffTwoPositions(batch, ownType, name);
    if senderHasPendingOfType then
      PoolVerdict(false, [])
    else if CountSameName(batch, ownType, name) > 1 then
      PoolVerdict(false, [PoolError(ErrConflict, ConflictMessage(name))])
    else if InPoolWithName(pool, ownType, name) then
      PoolVerdict(false, [PoolError(ErrPending, PendingMessage(name))])
    else
      PoolVerdict(true, [])
  }

  /** The batch count includes the candidate itself, so when two transactions
      of one batch register the same name, every one of them is refused with
      ERR_CONFLICT, the first as well as the second, provided its sender has
      no pending transaction of this type (otherwise the first check refuses
      it silently). */
  lemma BatchCollisionRefusesEveryCopy(
    batch: seq<Transaction>, pool: seq<Transaction>, ownType: nat, i: nat, j: nat)
    requires i < j < |batch|
    requires batch[i].typ == ownType && batch[j].typ == ownType
    requires batch[i].asset.name == batch[j].asset.name
    ensures forall k :: 0 <= k < |batch| && SameName(batch[k], ownType, batch[i].asset.name) ==>
              CanEnterTransactionPool(batch[k], ownType, false, batch, pool)
                == PoolVerdict(false, [PoolError(ErrConflict, ConflictMessage(batch[i].asset.name))])
  {
  }

  /** A candidate whose sender has no pending transaction of this type and
      whose name occurs at most once in its batch, but is already pending in
      the pool, is refused with ERR_PENDING naming it. */
  lemma PoolCollisionRefuses(
    candidate: Transaction, batch: seq<Transaction>, pool: seq<Transaction>, ownType: nat, p: nat)
    requires p < |pool| && SameName(pool[p], ownType, candidate.asset.name)
    requires CountSameName(batch, ownType, candidate.asset.name) <= 1
    ensures CanEnterTransactionPool(candidate, ownType, false, batch, pool)
              == PoolVerdict(false, [PoolError(ErrPending, PendingMessage(candidate.asset.name))])
  {
  }
}
