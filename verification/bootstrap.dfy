/**
 Start-up replay `bootstrap`: the transaction reader yields the logged
 business registrations page by page, and each one sets its sender's
 `business` attribute to the `{name, website}` of its asset, with no
 admission or pool check and no framework effect.
 */
module Bootstrap {
  import opened Wallets
  import SenderState

  /** The asset object the replay builds from a logged transaction. */
  function RecordedAsset(tx: Transaction): BusinessAsset
  {
    BusinessAsset(tx.asset.name, tx.asset.website)
  }

  /** The pages of the log, concatenated in reading order. */
  function Flatten(log: seq<seq<Transaction>>): seq<Transaction>
    decreases |log|
  {
    if |log| == 0 then [] else Flatten(log[..|log| - 1]) + log[|log| - 1]
  }

  /** Reading one more page appends exactly its transactions. */
  lemma FlattenAppend(log: seq<seq<Transaction>>, page: seq<Transaction>)
    ensures Flatten(log + [page]) == Flatten(log) + page
  {
  }

  /** The replay of `txs`, in order, on `store`. */
  function Replay(store: Store, txs: seq<Transaction>): Store
    decreases |txs|
  {
    if |txs| == 0 then store
    else
      var last := txs[|txs| - 1];
      SetBusiness(Replay(store, txs[..|txs| - 1]), last.senderPublicKey, RecordedAsset(last))
  }

  /** The asset of the last logged transaction sent by `key`, if any. */
  function LastRegistration(txs: seq<Transaction>, key: PublicKey): Option<BusinessAsset>
    decreases |txs|
  {
    if |txs| == 0 then None
    else if txs[|txs| - 1].senderPublicKey == key then Some(RecordedAsset(txs[|txs| - 1]))
    else LastRegistration(txs[..|txs| - 1], key)
  }

  /** The replay, as the source runs it: an outer loop over pages and an
      inner loop over each page's transactions. */
  method RunBootstrap(store: Store, log: seq<seq<Transaction>>) returns (r: Store)
    ensures r == Replay(store, Flatten(log))
    ensures forall k :: LastRegistration(Flatten(log), k).Some? ==>
              k in r && r[k] == FindByPublicKey(store, k).(business := LastRegistration(Flatten(log), k))
    ensures forall k :: LastRegistration(Flatten(log), k).None? ==>
              (k in r <==> k in store) && (k in r ==> r[k] == store[k])
  {
    r := store;
    var page := 0;
    while page < |log|
      invariant page <= |log|
      invariant r == Replay(store, Flatten(log[..page]))
    {
      var transactions := log[page];
      var done := Flatten(log[..page]);
      var t := 0;
      assert done + transactions[..t] == done;
      while t < |transactions|
        invariant t <= |transactions|
        invariant r == Replay(store, done + transactions[..t])
      {
        var tx := transactions[t];
        ReplayStep(store, done, transactions, t);
        r := SetBusiness(r, tx.senderPublicKey, RecordedAsset(tx));
        t := t + 1;
      }
      NextPage(log, page);
      assert transactions[..t] == transactions;
      page := page + 1;
    }
    assert log[..page] == log;
    forall k
      ensures LastRegistration(Flatten(log), k).Some? ==>
                k in r && r[k] == FindByPublicKey(store, k).(business := LastRegistration(Flatten(log), k))
      ensures LastRegistration(Flatten(log), k).None? ==>
                (k in r <==> k in store) && (k in r ==> r[k] == store[k])
    {
      ReplayWallet(store, Flatten(log), k);
    }
  }

  /** The inner loop's step: one more transaction of the page is one more write. */
  lemma ReplayStep(store: Store, done: seq<Transaction>, page: seq<Transaction>, t: nat)
    requires t < |page|
    ensures Replay(store, done + page[..t + 1])
              == SetBusiness(Replay(store, done + page[..t]), page[t].senderPublicKey, RecordedAsset(page[t]))
  {
    assert (done + page[..t + 1])[..|done| + t] == done + page[..t];
  }

  /** The outer loop's step: one more page read is that page appended. */
  lemma NextPage(log: seq<seq<Transaction>>, page: nat)
    requires page < |log|
    ensures Flatten(log[..page + 1]) == Flatten(log[..page]) + log[page]
  {
    assert log[..page + 1] == log[..page] + [log[page]];
    FlattenAppend(log[..page], log[page]);
  }

  /** What the replay leaves in the wallet of `key`: the wallet found for it
      with `business` set to its last registration, or the untouched wallet
      (or no wallet) when it sent none. */
  lemma {:induction false} ReplayWallet(store: Store, txs: seq<Transaction>, key: PublicKey)
    ensures LastRegistration(txs, key).Some? ==>
              key in Replay(store, txs)
              && Replay(store, txs)[key] == FindByPublicKey(store, key).(business := LastRegistration(txs, key))
    ensures LastRegistration(txs, key).None? ==>
              (key in Replay(store, txs) <==> key in store)
              && (key in store ==> Replay(store, txs)[key] == store[key])
    decreases |txs|
  {
    if |txs| > 0 {
      ReplayWallet(store, txs[..|txs| - 1], key);
    }
  }

  /** Replaying the same log a second time changes nothing; with `txs` the
      concatenated pages of a log, bootstrapping twice is bootstrapping once. */
  lemma ReplayIsIdempotent(store: Store, txs: seq<Transaction>)
    ensures Replay(Replay(store, txs), txs) == Replay(store, txs)
  {
    var once := Replay(store, txs);
    var twice := Replay(once, txs);
    forall k
      ensures (k in twice <==> k in once) && (k in once ==> twice[k] == once[k])
    {
      ReplayWallet(store, txs, k);
      ReplayWallet(once, txs, k);
    }
    assert twice.Keys == once.Keys;
  }

  /** A transaction followed by no other from its sender is that sender's
      last registration. */
  lemma {:induction false} LastRegistrationAt(txs: seq<Transaction>, i: nat)
    requires i < |txs|
    requires forall j :: i < j < |txs| ==> txs[j].senderPublicKey != txs[i].senderPublicKey
    ensures LastRegistration(txs, txs[i].senderPublicKey) == Some(RecordedAsset(txs[i]))
    decreases |txs|
  {
    if i < |txs| - 1 {
      var init := txs[..|txs| - 1];
      assert txs[|txs| - 1].senderPublicKey != txs[i].senderPublicKey;
      assert init[i] == txs[i];
      forall j | i < j < |init|
        ensures init[j].senderPublicKey != init[i].senderPublicKey
      {
        assert init[j] == txs[j];
      }
      LastRegistrationAt(init, i);
    }
  }

  /** A key that sent no logged transaction has no last registration. */
  lemma {:induction false} NoLastRegistration(txs: seq<Transaction>, key: PublicKey)
    requires forall i :: 0 <= i < |txs| ==> txs[i].senderPublicKey != key
    ensures LastRegistration(txs, key) == None
    decreases |txs|
  {
    if |txs| > 0 {
      var init := txs[..|txs| - 1];
      assert txs[|txs| - 1].senderPublicKey != key;
      forall i | 0 <= i < |init|
        ensures init[i].senderPublicKey != key
      {
        assert init[i] == txs[i];
      }
      NoLastRegistration(init, key);
    }
  }

  /** In terms of log positions: a transaction followed by no other from its
      sender decides that sender's attribute, and a key that sent nothing
      keeps its wallet. */
  lemma LastLoggedTransactionWins(store: Store, txs: seq<Transaction>)
    ensures forall i :: 0 <= i < |txs| && (forall j :: i < j < |txs| ==> txs[j].senderPublicKey != txs[i].senderPublicKey) ==>
              txs[i].senderPublicKey in Replay(store, txs)
              && Replay(store, txs)[txs[i].senderPublicKey].business == Some(RecordedAsset(txs[i]))
    ensures forall k :: (forall i :: 0 <= i < |txs| ==> txs[i].senderPublicKey != k) ==>
              (k in Replay(store, txs) <==> k in store) && (k in store ==> Replay(store, txs)[k] == store[k])
  {
    forall i | 0 <= i < |txs| && (forall j :: i < j < |txs| ==> txs[j].senderPublicKey != txs[i].senderPublicKey)
      ensures txs[i].senderPublicKey in Replay(store, txs)
              && Replay(store, txs)[txs[i].senderPublicKey].business == Some(RecordedAsset(txs[i]))
    {
      LastRegistrationAt(txs, i);
      ReplayWallet(store, txs, txs[i].senderPublicKey);
    }
    forall k | (forall i :: 0 <= i < |txs| ==> txs[i].senderPublicKey != k)
      ensures (k in Replay(store, txs) <==> k in store) && (k in store ==> Replay(store, txs)[k] == store[k])
    {
      NoLastRegistration(txs, k);
      ReplayWallet(store, txs, k);
    }
  }

  /** Page boundaries do not matter: replaying one log after another is
      replaying their concatenation. */
  lemma {:induction false} ReplayConcat(store: Store, a: seq<Transaction>, b: seq<Transaction>)
    ensures Replay(store, a + b) == Replay(Replay(store, a), b)
    decreases |b|
  {
    if |b| > 0 {
      assert (a + b)[..|a + b| - 1] == a + b[..|b| - 1];
      ReplayConcat(store, a, b[..|b| - 1]);
    } else {
      assert a + b == a;
    }
  }

  /** The replay's write for one logged registration equals the handler's own
      apply write: bootstrap redoes the attribute change, and nothing of the
      framework's base-class effects. */
  lemma ReplayOneIsApply(store: Store, tx: Transaction)
    ensures Replay(store, [tx]) == SenderState.ApplyTransaction(store, tx)
  {
  }
}
