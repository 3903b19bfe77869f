/**
 * The side-chain account monitor: a registry of listeners keyed by side-chain genesis
 * address, the burn filter that picks transactions paying the destroy address out of a
 * block, and the catch-up loop that scans blocks six confirmations deep while advancing
 * the persisted height. The dedup store it consults is a class of its own.
 */
module AccountMonitor {
  import opened Common
  import opened Serialization
  import opened Types

  /** The address burn outputs pay to (DESTROY_ADDRESS). */
  const DESTROY_ADDRESS: string

  /** Blocks closer than this to the chain tip are never scanned. */
  const ConfirmationDepth: nat := 6

  /** The height argument that makes CurrentSideHeight a query rather than an update. */
  const QueryHeightCode: uint32 := 0

  datatype MonitorError =
    | ListenerNotExist         // "Do not exist listener."
    | UnknownListener          // "Fired unknown listener."
    | ListenerFailed(reason: string)

  /** An account listener: the side chain's genesis address and its UTXO-changed handler. */
  datatype Listener = Listener(
    accountAddress: string,
    onUTXOChanged: (seq<TransactionInfo>, uint32) -> Option<string>)

  // ---------------------------------------------------------------------------
  // The dedup store
  // ---------------------------------------------------------------------------

  /**
   * The persisted side-chain store: the last synced height per side chain and the
   * side-chain transactions already handled, each with the chain it came from.
   */
  class SideChainStore {
    var sideHeights: map<string, uint32>
    var sideChainTxs: map<string, string>

    /** An empty store. */
    constructor ()
      ensures sideHeights == map[] && sideChainTxs == map[]
    {
      sideHeights := map[];
      sideChainTxs := map[];
    }

    /** The stored height of a side chain; a chain never synced is at height 0. */
    function StoredHeight(genesisAddress: string): (h: uint32)
      reads this
      ensures genesisAddress !in sideHeights ==> h == 0
      ensures genesisAddress in sideHeights ==> h == sideHeights[genesisAddress]
    {
      if genesisAddress in sideHeights then sideHeights[genesisAddress] else 0
    }

    /**
     * CurrentSideHeight: with QueryHeightCode, the stored height; with any other height,
     * stores it for that chain and returns it.
     */
    method CurrentSideHeight(genesisAddress: string, height: uint32) returns (h: uint32)
      modifies this`sideHeights
      ensures height == QueryHeightCode ==> h == old(StoredHeight(genesisAddress)) && sideHeights == old(sideHeights)
      ensures height != QueryHeightCode ==> h == height && sideHeights == old(sideHeights)[genesisAddress := height]
    {
      if height == QueryHeightCode {
        h := StoredHeight(genesisAddress);
      } else {
        sideHeights := sideHeights[genesisAddress := height];
        h := height;
      }
    }

    /** HasSideChainTx: the transaction hash has been recorded. */
    function HasSideChainTx(txHash: string): (r: bool)
      reads this
      ensures r <==> txHash in sideChainTxs
    {
      txHash in sideChainTxs
    }

    /** AddSideChainTx: records a transaction hash with the chain it came from. */
    method AddSideChainTx(txHash: string, genesisAddress: string)
      modifies this`sideChainTxs
      ensures sideChainTxs == old(sideChainTxs)[txHash := genesisAddress]
      ensures HasSideChainTx(txHash)
    {
      sideChainTxs := sideChainTxs[txHash := genesisAddress];
    }
  }

  /** The store's contract as its test states it: a hash is absent until it is added, and present after. */
  method StoreScenario(txHash: string, genesisAddress: string) returns (before: bool, after: bool)
    ensures !before && after
  {
    var store := new SideChainStore();
    before := store.HasSideChainTx(txHash);
    store.AddSideChainTx(txHash, genesisAddress);
    after := store.HasSideChainTx(txHash);
  }

  // ---------------------------------------------------------------------------
  // The listener registry
  // ---------------------------------------------------------------------------

  /** The listener map after registering `listener`, creating the map if it was nil. */
  function Registered(listeners: Option<map<string, Listener>>, listener: Listener): (m: map<string, Listener>)
    ensures listener.accountAddress in m && m[listener.accountAddress] == listener
    ensures m.Keys == listeners.GetOr(map[]).Keys + {listener.accountAddress}
    ensures forall k :: k in m && k != listener.accountAddress ==> m[k] == listeners.GetOr(map[])[k]
  {
    listeners.GetOr(map[])[listener.accountAddress := listener]
  }

  /** fireUTXOChanged on a listener map. */
  function Fire(listeners: Option<map<string, Listener>>, txInfos: seq<TransactionInfo>,
                genesisAddress: string, blockHeight: uint32): (r: Option<MonitorError>)
    ensures listeners.None? ==> r.None?
    ensures listeners.Some? && genesisAddress !in listeners.value ==> r == Some(UnknownListener)
    ensures listeners.Some? && genesisAddress in listeners.value ==>
              (r.None? <==> listeners.value[genesisAddress].onUTXOChanged(txInfos, blockHeight).None?)
  {
    match listeners
    case None => None
    case Some(m) =>
      if genesisAddress !in m then Some(UnknownListener)
      else
        match m[genesisAddress].onUTXOChanged(txInfos, blockHeight)
        case None => None
        case Some(reason) => Some(ListenerFailed(reason))
  }

  /** After registering a listener, firing its address reaches its handler. */
  lemma FireAfterAdd(listeners: Option<map<string, Listener>>, listener: Listener,
                     txInfos: seq<TransactionInfo>, blockHeight: uint32)
    ensures var r := Fire(Some(Registered(listeners, listener)), txInfos, listener.accountAddress, blockHeight);
            && (r.None? <==> listener.onUTXOChanged(txInfos, blockHeight).None?)
            && (r.Some? ==> r == Some(ListenerFailed(listener.onUTXOChanged(txInfos, blockHeight).value)))
  {
  }

  class SideChainAccountMonitor {
    /** accountListenerMap; None is a nil map, which reads as empty and is created on first insert. */
    var accountListenerMap: Option<map<string, Listener>>

    constructor ()
      ensures accountListenerMap.None?
    {
      accountListenerMap := None;
    }

    /** tryInit: creates an empty map when the map is nil, and otherwise leaves it alone. */
    method TryInit()
      modifies this
      ensures accountListenerMap == Some(old(accountListenerMap).GetOr(map[]))
    {
      if accountListenerMap.None? {
        accountListenerMap := Some(map[]);
      }
    }

    /** AddListener: stores the listener under its account address, replacing any earlier one. */
    method AddListener(listener: Listener)
      modifies this
      ensures accountListenerMap == Some(Registered(old(accountListenerMap), listener))
    {
      TryInit();
      accountListenerMap := Some(accountListenerMap.value[listener.accountAddress := listener]);
    }

    /**
     * RemoveListener: nothing to do on a nil map; an unregistered account is an error;
     * otherwise exactly that account's entry is deleted.
     */
    method RemoveListener(account: string) returns (err: Option<MonitorError>)
      modifies this
      ensures old(accountListenerMap).None? ==> err.None? && accountListenerMap.None?
      ensures old(accountListenerMap).Some? && account !in old(accountListenerMap).value ==>
                err == Some(ListenerNotExist) && accountListenerMap == old(accountListenerMap)
      ensures old(accountListenerMap).Some? && account in old(accountListenerMap).value ==>
                err.None? && accountListenerMap == Some(old(accountListenerMap).value - {account})
    {
      if accountListenerMap.None? {
        return None;
      }
      if account !in accountListenerMap.value {
        return Some(ListenerNotExist);
      }
      accountListenerMap := Some(accountListenerMap.value - {account});
      err := None;
    }

    /** fireUTXOChanged: hands a batch to the listener registered for the chain. */
    function FireUTXOChanged(txInfos: seq<TransactionInfo>, genesisAddress: string, blockHeight: uint32): (r: Option<MonitorError>)
      reads this
      ensures accountListenerMap.None? ==> r.None?
      ensures accountListenerMap.Some? && genesisAddress !in accountListenerMap.value ==> r == Some(UnknownListener)
      ensures accountListenerMap.Some? && genesisAddress in accountListenerMap.value ==>
                (r.None? <==> accountListenerMap.value[genesisAddress].onUTXOChanged(txInfos, blockHeight).None?)
    {
      Fire(accountListenerMap, txInfos, genesisAddress, blockHeight)
    }

    /**
     * needSyncBlocks: the chain height, the stored height and whether the stored height is
     * behind, or (0, 0, false) when the chain height cannot be fetched.
     */
    function NeedSyncBlocks(genesisAddress: string, chainHeight: Option<uint32>, store: SideChainStore): (r: (uint32, uint32, bool))
      reads store
      ensures chainHeight.None? ==> r == (0, 0, false)
      ensures chainHeight.Some? ==> r.0 == chainHeight.value && r.1 == store.StoredHeight(genesisAddress)
      ensures r.2 <==> chainHeight.Some? && store.StoredHeight(genesisAddress) < chainHeight.value
    {
      match chainHeight
      case None => (0, 0, false)
      case Some(h) =>
        var current := store.StoredHeight(genesisAddress);
        (h, current, current < h)
    }

    /**
     * processTransactions: scans a block's transactions, rewriting each hash in place as
     * the burn filter does, and fires the listener with the transactions that joined the
     * batch when there is at least one.
     */
    method ProcessTransactions(txs: array<TransactionInfo>, genesisAddress: string, blockHeight: uint32,
                               store: SideChainStore)
      returns (batch: seq<TransactionInfo>, fireResult: Option<Option<MonitorError>>)
      modifies txs
      ensures var known := store.sideChainTxs.Keys;
              && batch == Batch(old(txs[..]), known)
              && (forall i :: 0 <= i < txs.Length ==> txs[i] == Rescanned(old(txs[i]), known))
      ensures batch == [] ==> fireResult.None?
      ensures batch != [] ==> fireResult == Some(FireUTXOChanged(batch, genesisAddress, blockHeight))
    {
      ghost var original := txs[..];
      ghost var known := store.sideChainTxs.Keys;
      var txInfos: seq<TransactionInfo> := [];
      for i := 0 to txs.Length
        invariant txInfos == Batch(original[..i], known)
        invariant forall k :: 0 <= k < i ==> txs[k] == Rescanned(original[k], known)
        invariant forall k :: i <= k < txs.Length ==> txs[k] == original[k]
      {
        var joined := ScanTransaction(txs, i, store);
        if joined {
          txInfos := txInfos + [txs[i]];
        }
        assert original[..i + 1][..i] == original[..i];
      }
      assert original[..txs.Length] == original;
      batch := txInfos;
      if |txInfos| != 0 {
        fireResult := Some(FireUTXOChanged(txInfos, genesisAddress, blockHeight));
      } else {
        fireResult := None;
      }
    }

    /**
     * The output scan of processTransactions for the transaction at index i: at each
     * output paying the destroy address, a hexadecimal hash is replaced in place by the hex
     * of its reversed bytes, and the scan stops as soon as that hash is not in the store.
     * Reports whether the transaction joins the batch; no other transaction changes.
     */
    method ScanTransaction(txs: array<TransactionInfo>, i: nat, store: SideChainStore) returns (joined: bool)
      requires i < txs.Length
      modifies txs
      ensures txs[i] == Rescanned(old(txs[i]), store.sideChainTxs.Keys)
      ensures joined == Joins(old(txs[i]), store.sideChainTxs.Keys)
      ensures forall k :: 0 <= k < txs.Length && k != i ==> txs[k] == old(txs[k])
    {
      ghost var known := store.sideChainTxs.Keys;
      ghost var original := txs[i];
      var outputs := txs[i].outputs;
      var j := 0;
      joined := false;
      while j < |outputs| && !joined
        invariant 0 <= j <= |outputs|
        invariant outputs == original.outputs
        invariant txs[i] == original.(hash := txs[i].hash)
        invariant forall k :: 0 <= k < txs.Length && k != i ==> txs[k] == old(txs[k])
        invariant !joined ==> ScanOutputs(txs[i].hash, outputs[j..], known) == ScanOutputs(original.hash, outputs, known)
        invariant joined ==> ScanOutputs(original.hash, outputs, known) == (txs[i].hash, true)
      {
        if outputs[j].address == DESTROY_ADDRESS {
          var txnBytes := HexToBytes(txs[i].hash);
          if txnBytes.Some? {
            var reversedTxnHash := BytesToHex(Reverse(txnBytes.value));
            txs[i] := txs[i].(hash := reversedTxnHash);
            joined := !store.HasSideChainTx(txs[i].hash);
          }
        }
        assert outputs[j..][1..] == outputs[j + 1..];
        j := j + 1;
      }
      if !joined {
        assert outputs[j..] == [];
      }
    }

    /**
     * One step of the catch-up loop: fetches the block at `height` and runs
     * processTransactions on its transactions. Reports whether the fetch succeeded and
     * the batch handed to the listener.
     */
    method ScanBlock(genesisAddress: string, height: uint32, fetch: uint32 -> Option<seq<TransactionInfo>>,
                     store: SideChainStore)
      returns (fetched: bool, batch: seq<TransactionInfo>)
      ensures fetched <==> fetch(height).Some?
      ensures fetched ==> batch == Batch(fetch(height).value, store.sideChainTxs.Keys)
      ensures !fetched ==> batch == []
    {
      var transactions := fetch(height);
      if transactions.None? {
        return false, [];
      }
      var txs := new TransactionInfo[|transactions.value|](k requires 0 <= k < |transactions.value| => transactions.value[k]);
      assert txs[..] == transactions.value;
      var fireResult;
      batch, fireResult := ProcessTransactions(txs, genesisAddress, height, store);
      fetched := true;
    }

    /**
     * The inner catch-up loop of SyncChainData, from stored height `current` to chain height
     * `chainHeight`: at each height c, block c+1-6 is fetched and scanned when c >= 6, then
     * the stored height is advanced to c+1. A failed fetch stops the loop without advancing.
     * Returns the height reached and the batches handed to the listener, with their heights.
     */
    method CatchUp(genesisAddress: string, current: uint32, chainHeight: uint32,
                   fetch: uint32 -> Option<seq<TransactionInfo>>, store: SideChainStore)
      returns (reached: uint32, fired: seq<(uint32, seq<TransactionInfo>)>)
      modifies store`sideHeights
      ensures current <= chainHeight ==> current <= reached <= chainHeight
      ensures current > chainHeight ==> reached == current
      ensures reached < chainHeight ==> reached >= ConfirmationDepth && fetch(reached + 1 - ConfirmationDepth).None?
      ensures AllFetched(ScannedHeights(current, reached), fetch)
      ensures fired == Fired(ScannedHeights(current, reached), fetch, store.sideChainTxs.Keys)
      ensures store.sideChainTxs == old(store.sideChainTxs)
      ensures store.sideHeights == if reached == current then old(store.sideHeights)
                                   else old(store.sideHeights)[genesisAddress := reached]
    {
      reached := current;
      fired := [];
      ghost var known := store.sideChainTxs.Keys;
      while reached < chainHeight
        invariant current <= chainHeight ==> current <= reached <= chainHeight
        invariant current > chainHeight ==> reached == current
        invariant AllFetched(ScannedHeights(current, reached), fetch)
        invariant fired == Fired(ScannedHeights(current, reached), fetch, known)
        invariant store.sideChainTxs == old(store.sideChainTxs)
        invariant reached == current ==> store.sideHeights == old(store.sideHeights)
        invariant reached != current ==> store.sideHeights == old(store.sideHeights)[genesisAddress := reached]
        decreases chainHeight - reached
      {
        var next;
        next, fired := Round(genesisAddress, current, reached, fired, fetch, store, known);
        if next == reached {
          break;
        }
        var stored := store.CurrentSideHeight(genesisAddress, next);
        reached := next;
      }
    }

    /**
     * The scanning half of one round of the catch-up loop at stored height `reached`: when
     * reached >= 6, fetches block reached+1-6 and scans it, appending a non-empty batch to
     * those fired so far. Returns the height to store next, which stays at `reached` when
     * the block cannot be fetched.
     */
    method Round(genesisAddress: string, current: uint32, reached: uint32, fired: seq<(uint32, seq<TransactionInfo>)>,
                 fetch: uint32 -> Option<seq<TransactionInfo>>, store: SideChainStore, ghost known: set<string>)
      returns (next: uint32, firedNext: seq<(uint32, seq<TransactionInfo>)>)
      requires current <= reached < 0xFFFF_FFFF
      requires known == store.sideChainTxs.Keys
      requires AllFetched(ScannedHeights(current, reached), fetch)
      requires fired == Fired(ScannedHeights(current, reached), fetch, known)
      ensures next == reached + 1 <==> reached < ConfirmationDepth || fetch(reached + 1 - ConfirmationDepth).Some?
      ensures next == reached || next == reached + 1
      ensures AllFetched(ScannedHeights(current, next), fetch)
      ensures firedNext == Fired(ScannedHeights(current, next), fetch, known)
    {
      var height: uint32, fetched, batch := 0, true, [];
      if reached >= ConfirmationDepth as int {
        height := reached + 1 - ConfirmationDepth;
        fetched, batch := ScanBlock(genesisAddress, height, fetch, store);
      }
      next, firedNext := if fetched then reached + 1 else reached, if fetched && batch != [] then fired + [(height, batch)] else fired;
      RoundStep(current, reached, fetch, known, fired, height, fetched, batch, next, firedNext);
    }
  }

  // ---------------------------------------------------------------------------
  // The burn filter as functions
  // ---------------------------------------------------------------------------

  /** Some output pays the destroy address. */
  predicate PaysDestroy(outputs: seq<TxoutputInfo>)
  {
    exists k :: 0 <= k < |outputs| && outputs[k].address == DESTROY_ADDRESS
  }

  /**
   * One transaction's output scan: at each output paying the destroy address whose
   * current hash is hexadecimal, the hash is replaced by the hex of its reversed bytes,
   * and the scan stops with the transaction joining the batch as soon as that hash is
   * not in the store. Returns the final hash and whether the transaction joined.
   */
  function ScanOutputs(hash: string, outputs: seq<TxoutputInfo>, known: set<string>): (r: (string, bool))
    ensures r.1 ==> r.0 !in known
    decreases |outputs|
  {
    if outputs == [] then (hash, false)
    else if outputs[0].address != DESTROY_ADDRESS then ScanOutputs(hash, outputs[1..], known)
    else match HexToBytes(hash)
      case None => ScanOutputs(hash, outputs[1..], known)
      case Some(txnBytes) =>
        var reversed := BytesToHex(Reverse(txnBytes));
        if reversed !in known then (reversed, true) else ScanOutputs(reversed, outputs[1..], known)
  }

  /**
   * A transaction joins only with a hash that is not in the store and only when it pays
   * the destroy address; one that does not pay it keeps its hash and stays out.
   */
  lemma {:induction false} ScanOutputsMeaning(hash: string, outputs: seq<TxoutputInfo>, known: set<string>)
    ensures var r := ScanOutputs(hash, outputs, known);
            && (r.1 ==> r.0 !in known && PaysDestroy(outputs))
            && (!PaysDestroy(outputs) ==> r == (hash, false))
    decreases |outputs|
  {
    if outputs != [] {
      PaysDestroyTail(outputs);
      ScanOutputsMeaning(hash, outputs[1..], known);
      if outputs[0].address == DESTROY_ADDRESS && HexToBytes(hash).Some? {
        ScanOutputsMeaning(BytesToHex(Reverse(HexToBytes(hash).value)), outputs[1..], known);
      }
    }
  }

  /** Paying the destroy address: the first output does, or one of the rest does. */
  lemma PaysDestroyTail(outputs: seq<TxoutputInfo>)
    requires outputs != []
    ensures PaysDestroy(outputs) <==> outputs[0].address == DESTROY_ADDRESS || PaysDestroy(outputs[1..])
  {
    if PaysDestroy(outputs[1..]) {
      var k :| 0 <= k < |outputs[1..]| && outputs[1..][k].address == DESTROY_ADDRESS;
      assert outputs[k + 1].address == DESTROY_ADDRESS;
    }
    if PaysDestroy(outputs) && outputs[0].address != DESTROY_ADDRESS {
      var k :| 0 <= k < |outputs| && outputs[k].address == DESTROY_ADDRESS;
      assert outputs[1..][k - 1].address == DESTROY_ADDRESS;
    }
  }

  /** A transaction after the scan: only its hash may have changed. */
  function Rescanned(tx: TransactionInfo, known: set<string>): TransactionInfo
  {
    tx.(hash := ScanOutputs(tx.hash, tx.outputs, known).0)
  }

  predicate Joins(tx: TransactionInfo, known: set<string>)
  {
    ScanOutputs(tx.hash, tx.outputs, known).1
  }

  /** The transactions of a block that join the batch, rescanned, in block order. */
  function Batch(txs: seq<TransactionInfo>, known: set<string>): (b: seq<TransactionInfo>)
    ensures |b| <= |txs|
  {
    if txs == [] then []
    else
      var last := txs[|txs| - 1];
      Batch(txs[..|txs| - 1], known) + (if Joins(last, known) then [Rescanned(last, known)] else [])
  }

  /**
   * Each transaction of the block joins the batch at most once, in block order, and only
   * when it pays the destroy address and its rewritten hash is not in the store.
   */
  lemma {:induction false} BatchIsFilter(txs: seq<TransactionInfo>, known: set<string>)
    ensures AllNewBurns(Batch(txs, known), known)
  {
    if txs != [] {
      BatchIsFilter(txs[..|txs| - 1], known);
      var last := txs[|txs| - 1];
      ScanOutputsMeaning(last.hash, last.outputs, known);
    }
  }

  /** The batch keeps block order: it is the front-to-back filter of the joining transactions. */
  lemma {:induction false} BatchInBlockOrder(txs: seq<TransactionInfo>, known: set<string>)
    ensures Batch(txs, known) == FilterJoined(txs, known)
  {
    if txs != [] {
      BatchInBlockOrder(txs[..|txs| - 1], known);
      FilterJoinedSnoc(txs[..|txs| - 1], txs[|txs| - 1], known);
      assert txs[..|txs| - 1] + [txs[|txs| - 1]] == txs;
    }
  }

  /** The batch as a front-to-back filter: the same transactions the loop collects. */
  function FilterJoined(txs: seq<TransactionInfo>, known: set<string>): seq<TransactionInfo>
  {
    if txs == [] then []
    else (if Joins(txs[0], known) then [Rescanned(txs[0], known)] else []) + FilterJoined(txs[1..], known)
  }

  lemma {:induction false} FilterJoinedSnoc(txs: seq<TransactionInfo>, tx: TransactionInfo, known: set<string>)
    ensures FilterJoined(txs + [tx], known)
            == FilterJoined(txs, known) + (if Joins(tx, known) then [Rescanned(tx, known)] else [])
  {
    if txs != [] {
      assert (txs + [tx])[1..] == txs[1..] + [tx];
      FilterJoinedSnoc(txs[1..], tx, known);
    }
  }

  /**
   * A transaction paying the destroy address twice, whose reversed hash is already in
   * the store, is rewritten twice: the second reversal restores its original bytes, and
   * it joins the batch under that original hash when that is not in the store.
   */
  lemma {:induction false} DoubleBurnRestoresHash(hash: string, txnBytes: seq<byte>, burn: TxoutputInfo, known: set<string>)
    requires burn.address == DESTROY_ADDRESS
    requires HexToBytes(hash) == Some(txnBytes)
    requires BytesToHex(Reverse(txnBytes)) in known
    ensures ScanOutputs(hash, [burn, burn], known)
            == (BytesToHex(txnBytes), BytesToHex(txnBytes) !in known)
  {
    var reversed := BytesToHex(Reverse(txnBytes));
    HexRoundTrip(Reverse(txnBytes));
    ReverseInvolution(txnBytes);
    assert HexToBytes(reversed) == Some(Reverse(txnBytes));
    assert Reverse(Reverse(txnBytes)) == txnBytes;
    assert [burn, burn][1..] == [burn] && [burn][1..] == [];
    assert ScanOutputs(hash, [burn, burn], known) == ScanOutputs(reversed, [burn], known);
    assert ScanOutputs(BytesToHex(txnBytes), [], known) == (BytesToHex(txnBytes), false);
  }

  // ---------------------------------------------------------------------------
  // The catch-up loop as functions
  // ---------------------------------------------------------------------------

  /** The block heights scanned while the stored height moves from `from` up to `to`. */
  function ScannedHeights(from: uint32, to: uint32): (r: seq<uint32>)
    ensures from >= to ==> r == []
    decreases (to as int) - from
  {
    if from >= to then []
    else (if from >= ConfirmationDepth then [from + 1 - ConfirmationDepth] else []) + ScannedHeights(from + 1, to)
  }

  lemma {:induction false} ScannedHeightsStep(from: uint32, to: uint32)
    requires from <= to < 0xFFFF_FFFF
    ensures ScannedHeights(from, to + 1)
            == ScannedHeights(from, to) + (if to >= ConfirmationDepth then [to + 1 - ConfirmationDepth] else [])
    decreases (to as int) - from
  {
    var head: seq<uint32> := if from >= ConfirmationDepth then [from + 1 - ConfirmationDepth] else [];
    var last: seq<uint32> := if to >= ConfirmationDepth then [to + 1 - ConfirmationDepth] else [];
    assert ScannedHeights(from, to + 1) == head + ScannedHeights(from + 1, to + 1);
    if from < to {
      ScannedHeightsStep(from + 1, to);
      var middle := ScannedHeights(from + 1, to);
      assert ScannedHeights(from, to) == head + middle;
      assert head + (middle + last) == (head + middle) + last;
    } else {
      assert head == last && head + [] == head && [] + last == last;
    }
  }

  /**
   * One round of the catch-up loop: the stored height moves from `reached` to `reached + 1`,
   * which scans block reached+1-6 when reached >= 6 and nothing otherwise; a non-empty
   * batch from that block is fired after those fired so far.
   */
  lemma CatchUpStep(current: uint32, reached: uint32, fetch: uint32 -> Option<seq<TransactionInfo>>, known: set<string>,
                    fired: seq<(uint32, seq<TransactionInfo>)>, height: uint32, batch: seq<TransactionInfo>)
    requires current <= reached < 0xFFFF_FFFF
    requires reached >= ConfirmationDepth ==>
               && fetch(reached + 1 - ConfirmationDepth).Some?
               && height == reached + 1 - ConfirmationDepth
               && batch == Batch(fetch(height).value, known)
    requires reached < ConfirmationDepth ==> batch == []
    requires AllFetched(ScannedHeights(current, reached), fetch)
    requires fired == Fired(ScannedHeights(current, reached), fetch, known)
    ensures AllFetched(ScannedHeights(current, reached + 1), fetch)
    ensures (if batch == [] then fired else fired + [(height, batch)])
            == Fired(ScannedHeights(current, reached + 1), fetch, known)
  {
    ScannedHeightsStep(current, reached);
    if reached >= ConfirmationDepth {
      FiredAppend(ScannedHeights(current, reached), height, fetch, known);
    } else {
      assert ScannedHeights(current, reached + 1) == ScannedHeights(current, reached);
    }
  }

  /**
   * One round in full: the scan at reached+1-6 either fails, which keeps the height and the
   * batches, or succeeds and moves the height on by one with its batch appended when non-empty.
   */
  lemma RoundStep(current: uint32, reached: uint32, fetch: uint32 -> Option<seq<TransactionInfo>>, known: set<string>,
                  fired: seq<(uint32, seq<TransactionInfo>)>, height: uint32, fetched: bool, batch: seq<TransactionInfo>,
                  next: uint32, firedNext: seq<(uint32, seq<TransactionInfo>)>)
    requires current <= reached < 0xFFFF_FFFF
    requires reached >= ConfirmationDepth ==>
               && height == reached + 1 - ConfirmationDepth
               && (fetched <==> fetch(height).Some?)
               && (fetched ==> batch == Batch(fetch(height).value, known))
    requires reached < ConfirmationDepth ==> fetched && batch == []
    requires AllFetched(ScannedHeights(current, reached), fetch)
    requires fired == Fired(ScannedHeights(current, reached), fetch, known)
    requires next == (if fetched then reached + 1 else reached)
    requires firedNext == (if fetched && batch != [] then fired + [(height, batch)] else fired)
    ensures next == reached + 1 <==> reached < ConfirmationDepth || fetch(reached + 1 - ConfirmationDepth).Some?
    ensures next == reached || next == reached + 1
    ensures AllFetched(ScannedHeights(current, next), fetch)
    ensures firedNext == Fired(ScannedHeights(current, next), fetch, known)
  {
    if fetched {
      CatchUpStep(current, reached, fetch, known, fired, height, batch);
    }
  }

  /** Every block at the given heights can be fetched, checked from the last height back. */
  predicate AllFetched(heights: seq<uint32>, fetch: uint32 -> Option<seq<TransactionInfo>>)
  {
    heights == [] || (fetch(heights[|heights| - 1]).Some? && AllFetched(heights[..|heights| - 1], fetch))
  }

  /** AllFetched holds exactly when the block at each of the heights can be fetched. */
  lemma {:induction false} AllFetchedMeaning(heights: seq<uint32>, fetch: uint32 -> Option<seq<TransactionInfo>>)
    ensures AllFetched(heights, fetch) <==> forall h :: h in heights ==> fetch(h).Some?
    decreases |heights|
  {
    if heights != [] {
      var front := heights[..|heights| - 1];
      AllFetchedMeaning(front, fetch);
      assert heights == front + [heights[|heights| - 1]];
    }
  }

  /** The first stored height at which a block is scanned. */
  function FirstScanning(from: nat): nat
  {
    if from >= ConfirmationDepth then from else ConfirmationDepth
  }

  /**
   * The scanned heights are exactly the consecutive heights from max(from, 6) - 5 to to - 6,
   * each once and in increasing order: blocks within six of the tip are never scanned.
   */
  lemma {:induction false} ScannedHeightsRange(from: uint32, to: uint32)
    ensures |ScannedHeights(from, to)| == (if to > FirstScanning(from) then to - FirstScanning(from) else 0)
    ensures (forall k :: 0 <= k < |ScannedHeights(from, to)| ==>
               ScannedHeights(from, to)[k] == FirstScanning(from) + 1 - ConfirmationDepth + k)
    decreases (to as int) - from
  {
    if from < to {
      ScannedHeightsRange(from + 1, to);
    }
  }

  /** The batches a catch-up hands to the listener: one per scanned block with a non-empty batch. */
  function Fired(heights: seq<uint32>, fetch: uint32 -> Option<seq<TransactionInfo>>, known: set<string>)
    : (r: seq<(uint32, seq<TransactionInfo>)>)
    ensures |r| <= |heights|
  {
    if heights == [] then []
    else
      var h := heights[|heights| - 1];
      var previous := Fired(heights[..|heights| - 1], fetch, known);
      match fetch(h)
      case None => previous
      case Some(txs) =>
        var batch := Batch(txs, known);
        if batch == [] then previous else previous + [(h, batch)]
  }

  /** At most one batch per scanned height, each for a scanned height and none of them empty. */
  lemma {:induction false} FiredShape(heights: seq<uint32>, fetch: uint32 -> Option<seq<TransactionInfo>>, known: set<string>)
    ensures |Fired(heights, fetch, known)| <= |heights|
    ensures forall k :: 0 <= k < |Fired(heights, fetch, known)| ==>
              Fired(heights, fetch, known)[k].0 in heights && Fired(heights, fetch, known)[k].1 != []
    decreases |heights|
  {
    if heights != [] {
      var front := heights[..|heights| - 1];
      FiredShape(front, fetch, known);
      assert forall h :: h in front ==> h in heights;
    }
  }

  lemma FiredAppend(heights: seq<uint32>, h: uint32, fetch: uint32 -> Option<seq<TransactionInfo>>, known: set<string>)
    requires fetch(h).Some?
    ensures var batch := Batch(fetch(h).value, known);
            Fired(heights + [h], fetch, known)
            == Fired(heights, fetch, known) + (if batch == [] then [] else [(h, batch)])
  {
    assert (heights + [h])[..|heights|] == heights;
  }

  /** Every transaction pays the destroy address and carries a hash that is not in the store. */
  ghost predicate AllNewBurns(batch: seq<TransactionInfo>, known: set<string>)
  {
    forall e :: e in batch ==> e.hash !in known && PaysDestroy(e.outputs)
  }

  /**
   * Every transaction a catch-up fires pays the destroy address and carries a hash that
   * is not in the store: nothing already handled is handed to the listener again.
   */
  lemma {:induction false} FiredAreNew(heights: seq<uint32>, fetch: uint32 -> Option<seq<TransactionInfo>>, known: set<string>)
    ensures forall b :: b in Fired(heights, fetch, known) ==> AllNewBurns(b.1, known)
    decreases |heights|
  {
    if heights != [] {
      var h := heights[|heights| - 1];
      FiredAreNew(heights[..|heights| - 1], fetch, known);
      if fetch(h).Some? {
        BatchIsFilter(fetch(h).value, known);
      }
    }
  }
}
