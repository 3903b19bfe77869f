# Elastos ELA arbiter: a verified model of the arbitration core

This project models the core of the Elastos ELA arbiter in Dafny. The arbiter is the
service that moves value between the ELA main chain and its side chains. It has five parts.

- **Multi-signature envelope.** `DistributedItem` carries one withdraw transaction between
  arbiters. It holds the cross-chain multi-sign redeem script that names the signers, and
  the signed data collected so far. The signed data is nil at first. The proposer's
  signature makes it one length-prefixed record. The on-duty arbitrator's feedback
  signature makes it two.
- **Peer message.** `DistributedItemMessage` sends a serialized envelope as one var-bytes
  field (a CompactSize length prefix followed by the bytes). It is bounded by the
  peer-to-peer block-context limit.
- **Side-chain account monitor.** It keeps a registry of listeners keyed by side-chain
  genesis address. It also runs a catch-up loop, which does two things:
  - it scans each block that is six confirmations deep for transactions that burn coins
    to the destroy address;
  - it advances the persisted side-chain height one block at a time.
  Each burn is rewritten to its byte-reversed hash. It is checked against the dedup store,
  and only new ones go to the listener.
- **Side-chain helpers.**
  - configuration lookup with caching;
  - withdraw requests read from a `TransferCrossChainAsset` payload;
  - the integer amount conversion applied before a withdrawal is proposed;
  - the `IssueToken` deposit transaction sent to a side chain.
- **Main-chain helpers.**
  - the withdraw transaction that pays a user out of the side chain's bank account, with
    its UTXO selection loop and change output;
  - the deposits that a main-chain transaction announces through `TargetPublicKey`
    attributes.

Foreign code enters the model as function values gathered in datatypes:
- cryptography (`CryptoSuite`);
- the native transaction codec (`TxCodec`);
- the SPV wallet (`Wallet`);
- RPC fetches, listeners and the withdraw builder.

The protocol constants `SignatureScriptLength`, `PublicKeyScriptLength`,
`MinMultiSignCodeLength`, `CROSSCHAIN`, `STANDARD`, `MaxBlockContextSize`,
`DESTROY_ADDRESS` and `DistributeItemCommand` are symbolic. The proofs use only the bounds
their types state.

The modules follow the repository's layout:
- `DistributedItems` (distributeditem.dfy);
- `SignMessages` (signmessage.dfy);
- `AccountMonitor` (monitor.dfy);
- `SideChain` (sidechain.dfy);
- `MainChain` (mainchain.dfy).

Shared support lives in separate modules:
- `Common` and `Arithmetic` (common.dfy);
- `Serialization` (serialization.dfy): CompactSize var-bytes, hex and byte reversal;
- `Crypto` (crypto.dfy);
- `Types` (types.dfy): transactions and the RPC transaction info.

## Where the code and the design description differ

The model follows the code in each case.

- **Catch-up range.** The design description says the monitor processes blocks `[L+1, H-6]`
  and stops at height `H-6`. The loop at arbitration/sidechain/sidechain_account_moniter.go:66-80
  differs: it advances the stored height all the way to `H`, and it scans the blocks from
  `max(L, 6) - 5` to `H - 6`. `AccountMonitor.ScannedHeightsRange` states that range.
- **Order of hash reversal and dedup check.** The design description reverses the hash only
  for transactions that are not already stored. The code rewrites the hash in place at every
  destroy-address output before it checks the store. So a transaction with two burn outputs
  has its hash reversed twice, which gives back the original hash. It is then delivered
  under that original hash (`AccountMonitor.DoubleBurnRestoresHash`).
- **UTXO selection.** The design description describes greedy UTXO selection that covers the
  amount. The running remainder starts at 0 (arbitration/mainchain/main_chain_Impl.go:57), so
  the loop does this:
  - it takes at most the first UTXO;
  - it pays that UTXO's whole value back as change;
  - it never reports "Available token is not enough".
  `MainChain.WithdrawAsWritten` proves this for every wallet, and `MainChain.WithdrawBeyondFunds`
  shows a withdrawal of 500 built from a single input of 300. The general selection rule, from
  any starting remainder, is proved as `MainChain.SelectCovers`.

## Model

| member | source | states |
|---|---|---|
| DistributedItems.MultiSignPublicKeys | arbitration/cs/distributeditem.go:210-235 | "length not enough" exactly when the script is shorter than the minimum or its last byte is not CROSSCHAIN; "length not match" exactly when the body left after the marker, M and N bytes is not a whole number of key records; otherwise records of PublicKeyScriptLength-1 bytes, as many as the script's length less 3 holds, which concatenate to the script without its first byte and its last two |
| DistributedItems.Chunks | arbitration/cs/distributeditem.go:226-234 | every record cut from the body is exactly one key record long |
| DistributedItems.ChunksOfMultiple | arbitration/cs/distributeditem.go:226-234 | when the record length divides the body, the records cover the body exactly and their number is the body's length divided by the record length |
| DistributedItems.ChunksStep | arbitration/cs/distributeditem.go:228-233 | each pass of the record loop cuts the next record and leaves a whole number of records; the loop ends at the end of the body |
| DistributedItems.CutKeyRecords | arbitration/cs/distributeditem.go:226-234 | the record loop cuts a body of whole records into exactly the records Chunks defines, in order |
| DistributedItems.DistributedItem.GetMultiSignPublicKeys | arbitration/cs/distributeditem.go:210-235 | the three slices and the record loop compute exactly the key records MultiSignPublicKeys defines for the stored script, with the same two errors |
| DistributedItems.MultiSignSigners | arbitration/cs/distributeditem.go:200-205 | one program hash per key record, in record order, each the hash of that record with STANDARD appended |
| DistributedItems.CallerProgramHash | arbitration/cs/distributeditem.go:62-69 | the caller's hash, when there is one, is the program hash of its compressed key encoding; a key that cannot be encoded has none |
| DistributedItems.DistributedItem.GetMultiSignSigners | arbitration/cs/distributeditem.go:194-208 | a parser error is passed up unchanged; otherwise exactly one program hash per parsed key, in the same order |
| DistributedItems.FindSigner | arbitration/cs/distributeditem.go:70-77 | a signer hash that failed to derive is always reached (a nil dereference in Go); "Invalid multi sign signer" when the caller's hash matches no signer; success exactly when it matches one, returning the last matching index |
| DistributedItems.SignatureRecord | arbitration/cs/distributeditem.go:251-252 | a record is one length byte followed by the signature itself |
| DistributedItems.FeedbackAccepted | arbitration/cs/distributeditem.go:262-300 | a feedback can be accepted only on signed data that is present and exactly one record long |
| DistributedItems.AppendSignature | arbitration/cs/distributeditem.go:249-310 | a proposer signature succeeds exactly when the signed data is nil and otherwise gives "not-null"; a feedback signature succeeds exactly when FeedbackAccepted holds, gives "Invalid sign data." for any length but one record, OnDutyIndexOutOfRange when the on-duty index lies outside the arbitrator list, NilTargetKey when a readable on-duty key meets a nil target, and "without current arbitrator's signing" when the target is not the on-duty arbitrator; success appends exactly one record to the old data |
| DistributedItems.DistributedItem.AppendSignatureTo | arbitration/cs/distributeditem.go:249-310 | the single write of the signed data stores AppendSignature's result on success; on every failure the signed data is unchanged and the error is reported |
| DistributedItems.SignOutcome | arbitration/cs/distributeditem.go:54-96 | signing succeeds only for a key the redeem script names as a signer; a key that it does not name gets "Invalid multi sign signer"; a signer named in a script whose signer hashes all derive gets, whenever the unsigned serialization and the arbitrator's signature over it succeed, exactly the append of that signature, and every success is of that form |
| DistributedItems.DistributedItem.Sign | arbitration/cs/distributeditem.go:54-96 | the signed data becomes the outcome of signing on success, which appends the arbitrator's signature over the unsigned transaction; it is left unchanged on every failing path, with that path's error returned |
| DistributedItems.AppendKeepsWellFormed | arbitration/cs/distributeditem.go:256-307 | with record-sized signatures, appending moves nil to one record and one record to two, and accepts nothing more after two |
| DistributedItems.TwoPhaseSigning | arbitration/cs/distributeditem.go:256-307 | proposer then feedback gives two records; after that a proposer signature is refused as not-null and a feedback signature as invalid sign data |
| DistributedItems.IsFeedbackLength | arbitration/cs/distributeditem.go:237-239 | integer division of the length by the record length equals 2 exactly when the length lies in [2L, 3L) |
| DistributedItems.EncodeItem | arbitration/cs/distributeditem.go:123-142 | the wire form holds the five fields plus three CompactSize prefixes of 1 to 9 bytes each |
| DistributedItems.DistributedItem.IsFeedback | arbitration/cs/distributeditem.go:237-239 | true exactly when the signed data is between two and three records long |
| DistributedItems.DistributedItem.ParseFeedbackSignedData | arbitration/cs/distributeditem.go:102-121 | any length other than exactly two records is rejected; success exactly when the second record's signature verifies under the target key, and then the result is the second record (the data is the first record followed by it) |
| DistributedItems.DecodeItem | arbitration/cs/distributeditem.go:144-177 | decoding stops at the first unreadable field; a full decode has a redeem script of at most 1000 bytes and signed data of at most two records; the key is the decoding of the first var-bytes field |
| DistributedItems.DecodeFromHash | arbitration/cs/distributeditem.go:152-177 | after the key has been read, the key is kept whatever else fails, and a full decode respects both bounds |
| DistributedItems.DecodeTrailer | arbitration/cs/distributeditem.go:164-174 | after the transaction has been read, key, hash and transaction are kept, and the script and signed data obey their bounds |
| DistributedItems.TrailerDecode | arbitration/cs/distributeditem.go:134-174 | reading back the written redeem script and signed data gives them back, or stops at the first one over its bound |
| DistributedItems.FromHashStep | arbitration/cs/distributeditem.go:128-162 | reading the written program hash and transaction lands exactly on the trailer |
| DistributedItems.FromHashDecode | arbitration/cs/distributeditem.go:128-174 | everything written after the key decodes to what was written, up to the first field over its bound |
| DistributedItems.KeyStep | arbitration/cs/distributeditem.go:124-150 | reading the written key gives back the key and lands on the program hash |
| DistributedItems.ItemDecodesEncoding | arbitration/cs/distributeditem.go:123-177 | Deserialize inverts Serialize: every field comes back, and the decode is complete exactly when the redeem script is within 1000 bytes and the signed data within two records |
| DistributedItems.ItemRoundTripWithin | arbitration/cs/distributeditem.go:123-177 | within the bounds, decoding an encoded envelope gives back exactly its five fields |
| DistributedItems.DistributedItem.Serialize | arbitration/cs/distributeditem.go:123-142 | the envelope's encoding decodes back to its own key, hash, transaction, redeem script and signed data whenever they are within the decoding bounds |
| DistributedItems.DistributedItem.Deserialize | arbitration/cs/distributeditem.go:144-177 | each field is stored as soon as it is read, so a failure keeps the fields read before it; the error names the first unreadable field |
| DistributedItems.DistributedItem.ReadFromHash | arbitration/cs/distributeditem.go:152-177 | after the key, the program hash and the transaction are reset and then stored once read, and the trailer follows; a failure keeps the fields read before it and names the first unreadable one, as DecodeFromHash defines |
| DistributedItems.DistributedItem.ReadTrailer | arbitration/cs/distributeditem.go:164-174 | the redeem script is stored once read, then the signed data; a failure leaves the later field unchanged and names the first unreadable one, as DecodeTrailer defines |
| DistributedItems.DistributedItem.constructor | arbitration/cs/distributeditem.go:21-28 | a new envelope has no redeem script and nil signed data |
| DistributedItems.DistributedItem.InitScript | arbitration/cs/distributeditem.go:37-44 | stores the created redeem script, or reports the failure and leaves the script unchanged |
| DistributedItems.DistributedItem.GetRedeemScript | arbitration/cs/distributeditem.go:46-48 | returns the stored redeem script |
| DistributedItems.DistributedItem.SetRedeemScript | arbitration/cs/distributeditem.go:50-52 | replaces the redeem script and nothing else |
| DistributedItems.DistributedItem.GetSignedData | arbitration/cs/distributeditem.go:98-100 | returns the signed data, nil included |
| SignMessages.DistributedItemMessage.constructor | arbitration/cs/signmessage.go:10-12 | a message holds the given content |
| SignMessages.DistributedItemMessage.CMD | arbitration/cs/signmessage.go:14-16 | every message answers DistributeItemCommand |
| SignMessages.DistributedItemMessage.MaxLength | arbitration/cs/signmessage.go:18-20 | every message answers MaxBlockContextSize, which fits a uint32 |
| SignMessages.DistributedItemMessage.Serialize | arbitration/cs/signmessage.go:22-24 | the encoding is the content behind a prefix of 1 to 9 bytes, and reading it back within the limit gives the content whatever follows |
| SignMessages.DistributedItemMessage.Deserialize | arbitration/cs/signmessage.go:26-33 | the content becomes the var-bytes field read under the limit; on an error it is left unchanged |
| SignMessages.MessageRoundTrip | arbitration/cs/signmessage.go:22-33 | Deserialize after Serialize gives the same content whenever it is within MaxBlockContextSize |
| SignMessages.MessageRejectsOversize | arbitration/cs/signmessage.go:26-30 | content over the limit is refused when it is read back |
| Serialization.WriteVarBytes | arbitration/cs/signmessage.go:23 | the bytes follow a length prefix of 1 to 9 bytes |
| Serialization.ReadVarBytes | arbitration/cs/signmessage.go:27 | a truncated prefix is an error; an announced length over the bound is refused before the body is read; a success returns at most that many bytes, taken from the input just before the position it reports |
| Serialization.VarUintRoundTrip | arbitration/cs/signmessage.go:22-33 | reading a CompactSize prefix back gives the value and the position just after it, whatever surrounds it |
| Serialization.VarBytesRoundTrip | arbitration/cs/signmessage.go:22-33 | reading var bytes back at their position gives the bytes and the position after them, for any payload within the bound and whatever surrounds it |
| Serialization.VarBytesRejectsOverMax | arbitration/cs/signmessage.go:27-30 | a payload over the bound is refused with its announced length, whatever surrounds it |
| Serialization.HexRoundTrip | arbitration/sidechain/sidechain_account_moniter.go:117-123 | a hex string read back gives the bytes it encodes |
| Serialization.Reverse | arbitration/sidechain/sidechain_account_moniter.go:122 | the byte at i ends up at the mirrored position |
| Serialization.ReverseInvolution | arbitration/sidechain/sidechain_account_moniter.go:122 | reversing twice gives back the original bytes |
| Types.WrapInt64 | arbitration/mainchain/main_chain_Impl.go:85-97 | int64 arithmetic: the result lies in the int64 range, is the exact value when that fits, and is congruent to it modulo 2^64 |
| AccountMonitor.SideChainStore.constructor | store/data_store_test.go:20-34 | a newly opened store holds no heights and no transactions |
| AccountMonitor.SideChainStore.StoredHeight | arbitration/sidechain/sidechain_account_moniter.go:103 | the stored height of a chain, 0 for a chain never synced |
| AccountMonitor.SideChainStore.CurrentSideHeight | arbitration/sidechain/sidechain_account_moniter.go:78 | the query code reads the stored height without changing the store; any other height is stored for that chain alone and returned |
| AccountMonitor.SideChainStore.HasSideChainTx | arbitration/sidechain/sidechain_account_moniter.go:125 | true exactly when the hash has been recorded |
| AccountMonitor.SideChainStore.AddSideChainTx | store/data_store_test.go:36-46 | records the hash with its chain, after which it is present |
| AccountMonitor.StoreScenario | store/data_store_test.go:28-46 | in a fresh store a hash is absent before it is added and present after |
| AccountMonitor.Registered | arbitration/sidechain/sidechain_account_moniter.go:30-33 | after registering, the listener is stored under its account address, the keys gain exactly that address, and every other entry is unchanged |
| AccountMonitor.Fire | arbitration/sidechain/sidechain_account_moniter.go:47-58 | no error on a nil map; "Fired unknown listener." for an unregistered address; otherwise succeeds exactly when the listener does |
| AccountMonitor.FireAfterAdd | arbitration/sidechain/sidechain_account_moniter.go:30-58 | once a listener is added, firing its address reaches it and reports its own result |
| AccountMonitor.SideChainAccountMonitor.constructor | arbitration/sidechain/sidechain_account_moniter.go:17-22 | a new monitor starts with a nil listener map |
| AccountMonitor.SideChainAccountMonitor.TryInit | arbitration/sidechain/sidechain_account_moniter.go:24-28 | a nil map becomes empty; an existing map is left as it is |
| AccountMonitor.SideChainAccountMonitor.AddListener | arbitration/sidechain/sidechain_account_moniter.go:30-33 | creates the map if it is nil and stores the listener under its address, replacing any earlier entry |
| AccountMonitor.SideChainAccountMonitor.RemoveListener | arbitration/sidechain/sidechain_account_moniter.go:35-45 | nothing happens on a nil map; "Do not exist listener." and no change for an absent key; otherwise exactly that key is deleted |
| AccountMonitor.SideChainAccountMonitor.FireUTXOChanged | arbitration/sidechain/sidechain_account_moniter.go:47-58 | no error on a nil map, the unknown-listener error for an unregistered chain, otherwise the listener's own success or failure |
| AccountMonitor.SideChainAccountMonitor.NeedSyncBlocks | arbitration/sidechain/sidechain_account_moniter.go:96-110 | (0, 0, false) when the chain height cannot be fetched; otherwise the chain height, the stored height, and a flag that is set exactly when the stored height is behind |
| AccountMonitor.SideChainAccountMonitor.ProcessTransactions | arbitration/sidechain/sidechain_account_moniter.go:112-135 | the batch is the block's joining transactions in block order; every transaction's hash is rewritten as its output scan dictates; the listener is fired exactly when the batch is non-empty |
| AccountMonitor.SideChainAccountMonitor.ScanTransaction | arbitration/sidechain/sidechain_account_moniter.go:115-130 | only this transaction's hash changes, to the result of its output scan; it joins exactly when the scan finds a rewritten hash that is not in the store |
| AccountMonitor.SideChainAccountMonitor.ScanBlock | arbitration/sidechain/sidechain_account_moniter.go:67-75 | the fetch succeeds exactly when the block is available, and then the batch is that block's burn filter |
| AccountMonitor.SideChainAccountMonitor.CatchUp | arbitration/sidechain/sidechain_account_moniter.go:66-80 | stops at the chain height, or earlier only at a block it cannot fetch; every block scanned was fetched; the fired batches are those of the scanned heights; only this chain's stored height changes, and only to the height reached |
| AccountMonitor.SideChainAccountMonitor.Round | arbitration/sidechain/sidechain_account_moniter.go:67-78 | a round advances the height by one exactly when it is below 6 or block c+1-6 can be fetched, and then adds that block's batch if it is not empty |
| AccountMonitor.ScanOutputs | arbitration/sidechain/sidechain_account_moniter.go:115-128 | a transaction joins only under a rewritten hash that is not in the store |
| AccountMonitor.ScanOutputsMeaning | arbitration/sidechain/sidechain_account_moniter.go:115-128 | a transaction joins only with a hash that is not in the store, and only when it pays the destroy address; one that does not pay it keeps its hash and stays out |
| AccountMonitor.Batch | arbitration/sidechain/sidechain_account_moniter.go:113-131 | the batch has at most one entry per transaction of the block |
| AccountMonitor.BatchIsFilter | arbitration/sidechain/sidechain_account_moniter.go:115-128 | every batch entry pays the destroy address and carries a hash that is not in the store |
| AccountMonitor.BatchInBlockOrder | arbitration/sidechain/sidechain_account_moniter.go:113-131 | the batch is the front-to-back filter of the joining transactions: each joins at most once, in block order |
| AccountMonitor.DoubleBurnRestoresHash | arbitration/sidechain/sidechain_account_moniter.go:115-128 | two burn outputs with a stored reversed hash reverse the hash twice, and the transaction joins under its original hash |
| AccountMonitor.CatchUpStep | arbitration/sidechain/sidechain_account_moniter.go:66-80 | one round from height c scans block c+1-6 only when c >= 6, and appends its batch to the fired list when it is not empty |
| AccountMonitor.RoundStep | arbitration/sidechain/sidechain_account_moniter.go:67-78 | a round whose scan fails keeps the height and the batches; otherwise the height moves on by one, with the scanned block's batch appended when it is not empty, so every height scanned so far was fetched and fired in order |
| AccountMonitor.ScannedHeights | arbitration/sidechain/sidechain_account_moniter.go:66-80 | nothing is scanned when the stored height is already at the target; ScannedHeightsRange states the whole range |
| AccountMonitor.ScannedHeightsRange | arbitration/sidechain/sidechain_account_moniter.go:66-80 | the scanned heights are the consecutive heights from max(from, 6) - 5 to to - 6, each once and in order; blocks within six of the tip are never scanned |
| AccountMonitor.Fired | arbitration/sidechain/sidechain_account_moniter.go:132-134 | at most one fired batch per scanned height |
| AccountMonitor.FiredShape | arbitration/sidechain/sidechain_account_moniter.go:132-134 | at most one fired batch per scanned height, each for a scanned height and none empty |
| AccountMonitor.FiredAreNew | arbitration/sidechain/sidechain_account_moniter.go:115-134 | every transaction a catch-up fires pays the destroy address and carries a hash that is not in the store |
| SideChain.FirstConfig | arbitration/sidechain/side_chain_impl.go:32-42 | none exactly when no side node has the key; otherwise a side node of the list whose genesis address is the key |
| SideChain.FirstConfigAt | arbitration/sidechain/side_chain_impl.go:34-38 | the node found is the first one that matches |
| SideChain.SideChainImpl.constructor | arbitration/sidechain/side_chain_impl.go:21-26 | a new side chain has its key and nothing cached |
| SideChain.SideChainImpl.GetAccountAddress | arbitration/sidechain/side_chain_impl.go:73-75 | the account address is the key |
| SideChain.SideChainImpl.GetCurrentConfig | arbitration/sidechain/side_chain_impl.go:32-42 | with nothing cached, returns and caches the first side node whose genesis address is the key; a cached configuration is returned unchanged whatever the list now holds |
| SideChain.TruncDiv | arbitration/sidechain/side_chain_impl.go:95 | Go's int64 quotient: its magnitude is the number of whole times the divisor's magnitude fits in the dividend's, it is positive only when the signs agree, and it is the Euclidean quotient for non-negative operands |
| SideChain.ConvertAmount | arbitration/sidechain/side_chain_impl.go:93-95 | the converted amount is always an int64 value |
| SideChain.ConvertAmountFloor | arbitration/sidechain/side_chain_impl.go:93-95 | for a non-negative amount with no int64 overflow, the converted amount is the integer part of amount*10000/rate |
| SideChain.ConvertAmountTruncates | arbitration/sidechain/side_chain_impl.go:95 | for a negative amount with no int64 overflow and a positive rate, the result is minus the integer part of -amount*10000/rate, so it rounds toward zero, one above Euclidean division whenever the division is inexact |
| SideChain.NegativeTruncDiv | arbitration/sidechain/side_chain_impl.go:95 | a negative int64 divided by a positive divisor rounds toward zero and stays in the int64 range |
| SideChain.ListWithdraws | arbitration/sidechain/side_chain_impl.go:158-164 | one request per address-map entry, each with the value of the output its index names |
| SideChain.ListsEntriesMeaning | arbitration/sidechain/side_chain_impl.go:158-164 | a listing has as many requests as map entries, pairwise different targets that are exactly the map's addresses, and the amount of each entry's output |
| SideChain.ListingsAgree | arbitration/sidechain/side_chain_impl.go:158-164 | the map's iteration order does not matter: any two listings hold the same multiset of requests |
| SideChain.SideChainImpl.ParseUserWithdrawTransactionInfo | arbitration/sidechain/side_chain_impl.go:152-170 | "Invalid payload" for any payload but TransferCrossChainAsset; otherwise a listing of its address map |
| SideChain.ProposeAll | arbitration/sidechain/side_chain_impl.go:87-105 | a round that ends without error proposes once per request; one that ends with an error proposes fewer |
| SideChain.ProposeAllMeaning | arbitration/sidechain/side_chain_impl.go:87-105 | the proposals are the builder's transactions for the requests in order; the round fails exactly when some request's builder fails or builds nothing, and then with the first such error |
| SideChain.FailureOf | arbitration/sidechain/side_chain_impl.go:96-103 | a builder outcome stops the round exactly when it is an error or an empty transaction |
| SideChain.SideChainImpl.OnUTXOChanged | arbitration/sidechain/side_chain_impl.go:77-108 | conversion and parse errors stop it with nothing proposed; otherwise the requests list the transfer map, and the proposals and error are those of the round over the converted amounts |
| SideChain.FormatDecimal | arbitration/sidechain/side_chain_impl.go:134 | decimal digits with no leading zero |
| SideChain.DecimalRoundTrip | arbitration/sidechain/side_chain_impl.go:134 | the nonce's decimal text reads back as the nonce |
| SideChain.SideChainImpl.CreateDepositTransaction | arbitration/sidechain/side_chain_impl.go:110-150 | no transaction exactly when the proof cannot be serialized; otherwise an IssueToken transaction with one output paying the amount to the target with lock 0, no inputs, one empty program, lock time 0 and exactly one Nonce attribute |
| SideChain.DepositRoundTrip | arbitration/sidechain/side_chain_impl.go:123-136 | the payload proof decodes to the serialized proof and the Nonce attribute reads back as the nonce |
| MainChain.SelectTakesPrefix | arbitration/mainchain/main_chain_Impl.go:83-84 | the inputs spend a prefix of the UTXO list, in list order |
| MainChain.Select | arbitration/mainchain/main_chain_Impl.go:83-105 | the selection never takes more inputs than there are UTXOs; SelectTakesPrefix, SelectCovers and SelectConserves state its rule |
| MainChain.SelectCovers | arbitration/mainchain/main_chain_Impl.go:83-109 | from any non-negative remainder, the UTXOs taken cover it exactly plus the change, which is positive when owed; it falls short exactly when all UTXOs together are worth less, and then takes them all with no change; from a positive remainder it stops at the first UTXO that brings the total taken up to the remainder |
| MainChain.SelectMinimal | arbitration/mainchain/main_chain_Impl.go:85-104 | from a positive remainder, the UTXOs taken before the last one are together worth less than the remainder |
| MainChain.SelectConserves | arbitration/mainchain/main_chain_Impl.go:83-105 | the value taken equals the remainder plus the change, minus what is still owed |
| MainChain.SelectShortfall | arbitration/mainchain/main_chain_Impl.go:83-109 | something is still owed exactly when the UTXOs are worth less than the remainder in total |
| MainChain.SelectFromZero | arbitration/mainchain/main_chain_Impl.go:57-105 | from the remainder of 0, only the first UTXO is taken, its whole value is owed back as change, and nothing is still owed |
| MainChain.SelectLoop | arbitration/mainchain/main_chain_Impl.go:83-105 | the UTXO loop computes the selection rule from a remainder of 0 |
| MainChain.SelectInputs | arbitration/mainchain/main_chain_Impl.go:83-105 | the inputs, change output and remainder of the selection; an unparsable bank address is an error only when a change output is needed |
| MainChain.WithdrawTransaction | arbitration/mainchain/main_chain_Impl.go:49-128 | an unparsable bank address gives an error; a built transaction is TransferAsset with no attributes or balance inputs, one program holding the redeem script, lock time 0, and first output paying the amount to the target |
| MainChain.CreateWithdrawTransaction | arbitration/mainchain/main_chain_Impl.go:49-128 | the method builds exactly the transaction, or the error, that WithdrawTransaction defines |
| MainChain.WithdrawAsWritten | arbitration/mainchain/main_chain_Impl.go:57-109 | with non-negative UTXOs, "not enough" never happens; at most the first UTXO is spent, and its whole value is paid back as change |
| MainChain.WithdrawBeyondFunds | arbitration/mainchain/main_chain_Impl.go:57-109 | a withdrawal of 500 from one UTXO of 300 is built anyway, paying 500 plus 300 of change |
| MainChain.FirstIndexWithByte | arbitration/mainchain/main_chain_Impl.go:147-148 | the output found is the first whose index, truncated to a byte, equals the given byte; none is found only when no index of the outputs truncates to it |
| MainChain.FindOutput | arbitration/mainchain/main_chain_Impl.go:146-157 | finds the first output whose index, truncated to a byte, equals the attribute's last byte; that is the output at that index exactly when there are enough outputs |
| MainChain.DepositInfos | arbitration/mainchain/main_chain_Impl.go:130-162 | at most one deposit per attribute; DepositInfosMeaning states which deposits |
| MainChain.DepositInfosMeaning | arbitration/mainchain/main_chain_Impl.go:130-162 | the parse succeeds exactly when every TargetPublicKey key decodes and hashes; it then yields, in order, one deposit per TargetPublicKey attribute whose index byte names an output, paid by that output with its value and crediting the program hash of the attribute's key |
| MainChain.DepositInfosSucceeds | arbitration/mainchain/main_chain_Impl.go:134-145 | the parse fails exactly when some TargetPublicKey key does not decode or has no program hash |
| MainChain.DepositInfosContents | arbitration/mainchain/main_chain_Impl.go:134-157 | a successful parse pairs its deposits, in order, with the TargetPublicKey attributes whose index byte names an output, each the deposit that attribute announces |
| MainChain.IndexedAttributes | arbitration/mainchain/main_chain_Impl.go:135-157 | the attributes kept are the TargetPublicKey ones whose index byte names an output, in their order, never more than there are attributes |
| MainChain.ParseUserDepositTransactionInfo | arbitration/mainchain/main_chain_Impl.go:130-162 | the attribute loop computes exactly the deposits, or the abort, that DepositInfos defines |

## Left out

- arbitration/arbitratorgroup/arbitrator.go is not part of this model. Its methods are stubs. On-duty status reaches the envelope only through the group-info lookup, which is a parameter (`SignContext.groupInfoByHeight`).
- Cryptography (sign, verify, point encoding, program-hash derivation) is foreign code. It is passed in as function values.
- `CreateRedeemScript` is foreign code. It is passed in as its result.
- The native transaction codec (`Serialize`, `Deserialize`, `SerializeUnsigned`), `TransactionInfo.ToTransaction` and the SPV proof's serialization are foreign code. They are passed in as function values or results.
- `SelfDelimiting` is the one assumption made about the codec, and only the round-trip lemmas rely on it.
- `TxUTXOFromSpvUTXO` is not shown. It is modelled as taking the UTXO's outpoint.
- The RPC calls are passed in as their results: the chain height, the destroyed transactions at a height, `GetArbitratorGroupInfoByHeight` and the wallet's `GetAddressUTXOs`.
- `SendTransaction`, `GetCurrentHeight`, `GetBlockByHeight` and `GetRage` of side_chain_impl.go are RPC or configuration reads. They are not modelled.
- The store implementation is not shown. `SideChainStore` follows the test's contract. Two further assumptions about it:
  - height code 0 is a query;
  - any other height is stored and returned.
- Store lookups cannot fail in the model. In the code, a failed lookup makes the transaction join, the same as an absent hash.
- The outer polling loop of `SyncChainData`, its sleep, the unused mutex and the logging are left out. So are `SyncFromMainNode` and `StartSideChainMining` (lines 82-89), which are side effects on other components.
- The float rate is left out. `Fixed64(rateFloat * 10000)` is taken as an integer rate parameter that is not 0.
- The `rand.Int63` nonce is a parameter.
- `getSystemAssetId`, the package `init` wiring and `OnTransactionConfirmed` are left out. `getSystemAssetId` is a hash of a fixed transaction, and the asset id is passed in. `init` is global registration, and `OnTransactionConfirmed` is empty.
- `BroadcastWithdrawProposal` is network output. `OnUTXOChanged` returns the proposals it would broadcast instead.
- The check of `err` at side_chain_impl.go:89-91 always passes, because `err` is nil there. It is left out.
- `TxoutputInfo.Value` is kept as an integer. The `Fixed64.String` text it holds in the code is not modelled.
- `AccountMonitor.SideChainAccountMonitor.CatchUp` returns the batches it hands to the listener, but not the listener's results, which the code discards.
- `AccountMonitor.SideChainAccountMonitor.ProcessTransactions` works on an array of values. The batch holds copies of the rewritten transactions, not pointers to them. Nothing writes to a transaction after it joins, so the two agree.
- `AccountMonitor.SideChainAccountMonitor.ScanTransaction` is the inner output loop of `processTransactions`, taken out as its own method. The append happens after the scan, where the code appends just before its `break`.
- `AccountMonitor.SideChainAccountMonitor.Round` is the scanning half of one pass of the catch-up loop. `CatchUp` performs the height update.
- `MainChain.SelectLoop` and `MainChain.SelectInputs` split the UTXO loop of `CreateWithdrawTransaction` into the selection and the parse of the change address. The bank address is still parsed only when a change output is needed.
- `DistributedItems.AppendSignature` reports an on-duty index outside the arbitrator list as the error `OnDutyIndexOutOfRange`. In the code that index is a slice access, which panics.
- `DistributedItems.FindSigner` models the nil dereference that a failed signer hash causes in Go as the error `NilSignerProgramHash`.
- `DistributedItems.DistributedItem.Sign` requires a transaction to be present, because the code dereferences it. The requirement also excludes the signer errors that the code returns before that dereference: those of the redeem script, of the caller's key and "Invalid multi sign signer".
- `DistributedItems.AppendSignature` reports a nil target key as the error `NilTargetKey`. It does so at the point where the code compares the target with the on-duty key, which in Go dereferences the nil key. The three checks before that point return their ordinary errors.
- `DistributedItems.DistributedItem.ParseFeedbackSignedData` and `DistributedItems.DistributedItem.Serialize` require the target key and the transaction to be present, because the code dereferences them. For `ParseFeedbackSignedData` this also excludes the length error "ParseFeedbackSignedData invalid sign data.", which the code returns before it touches either one.
- `DistributedItems.DistributedItem.Serialize` does not model write errors, because writing to a byte buffer does not fail. A key that cannot be encoded is written as empty bytes.
- `DistributedItems.DistributedItem.Deserialize` reads from a byte sequence rather than a stream. Bytes after the signed data are ignored. Its reads after the key are split into `ReadFromHash` and `ReadTrailer`, which store the fields in the same order.
- `DistributedItems.CutKeyRecords` is the record loop of `getMultiSignPublicKeys`, taken out as its own method.
- A transaction that is nil or only partly decoded is modelled as `None`, and a nil content slice is modelled as empty.
- `SideChain.SideChainImpl.ParseUserWithdrawTransactionInfo` requires every map index to name an output, because the code indexes the outputs with it and panics otherwise.
- `SideChain.SideChainImpl.OnUTXOChanged` requires the same of the converted transaction, and a rate that is not 0, because integer division by zero panics.
- `MainChain.ParseUserDepositTransactionInfo` requires every `TargetPublicKey` attribute to have at least one data byte, because the code slices off the last byte.
- `SideChain.SideChainImpl.GetCurrentConfig` takes the configured side-node list as a parameter, where the code reads a global.
