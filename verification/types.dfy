/**
 * Transactions as the arbiter sees them: the native transaction (built for the main
 * chain, parsed from both chains, carried inside a DistributedItem) and the JSON
 * TransactionInfo exchanged with side-chain nodes over RPC.
 */
module Types {
  import opened Common
  import opened Crypto

  /** Go's Fixed64 amounts are int64 values; the model keeps them as integers. */
  type Fixed64 = int

  const INT64_MODULUS: int := 0x1_0000_0000_0000_0000
  const INT64_MAX: int := 0x7FFF_FFFF_FFFF_FFFF

  /** Two's-complement int64 wrap-around of an integer result. */
  function WrapInt64(x: int): (r: int)
    ensures -INT64_MAX - 1 <= r <= INT64_MAX
    ensures -INT64_MAX - 1 <= x <= INT64_MAX ==> r == x
    ensures (r - x) % INT64_MODULUS == 0
  {
    var m := x % INT64_MODULUS;
    if m > INT64_MAX then m - INT64_MODULUS else m
  }

  // ---------------------------------------------------------------------------
  // Native transactions
  // ---------------------------------------------------------------------------

  datatype TxType = TransferAsset | IssueToken | TransferCrossChainAsset | WithdrawFromSideChain | OtherTxType

  datatype Payload =
    | TransferAssetPayload
    /** Destination address of each cross-chain transfer, mapped to the index of the output carrying it. */
    | TransferCrossChainAssetPayload(addressesMap: map<string, nat>)
    /** The main-chain height at which a withdrawal was proposed. */
    | WithdrawFromSideChainPayload(blockHeight: uint32, genesisBlockAddress: string, sideChainTransactionHashes: seq<string>)
    | OtherPayload

  datatype AttributeUsage = TargetPublicKey | Nonce | OtherUsage(code: byte)

  datatype TxAttribute = TxAttribute(usage: AttributeUsage, data: seq<byte>)

  /** The outpoint a transaction input spends. */
  datatype UTXOTxInput = UTXOTxInput(referTxID: seq<byte>, referTxOutputIndex: nat)

  /** Balance inputs are always empty in the transactions the core builds. */
  datatype BalanceTxInput = BalanceTxInput(data: seq<byte>)

  datatype TxOutput = TxOutput(assetID: seq<byte>, programHash: Uint168, value: Fixed64, outputLock: uint32)

  /** A program: code (a redeem script) and its parameter (signatures), the latter nil until signed. */
  datatype Program = Program(code: seq<byte>, parameter: Option<seq<byte>>)

  datatype Transaction = Transaction(
    txType: TxType,
    payload: Payload,
    attributes: seq<TxAttribute>,
    utxoInputs: seq<UTXOTxInput>,
    balanceInputs: seq<BalanceTxInput>,
    outputs: seq<TxOutput>,
    programs: seq<Program>,
    lockTime: uint32)

  /**
   * The native transaction codec, foreign code: the full encoding, a self-delimiting
   * decoder returning the transaction and the position after it, and the unsigned
   * encoding that signatures cover.
   */
  datatype TxCodec = TxCodec(
    serialize: Transaction -> seq<byte>,
    deserialize: (seq<byte>, nat) -> Option<(Transaction, nat)>,
    serializeUnsigned: Transaction -> Option<seq<byte>>)

  /** The decoder reads back exactly what the encoder wrote, whatever precedes or follows it. */
  ghost predicate SelfDelimiting(codec: TxCodec)
  {
    forall tx, pre, rest {:trigger codec.deserialize(pre + codec.serialize(tx) + rest, |pre|)} ::
      codec.deserialize(pre + codec.serialize(tx) + rest, |pre|) == Some((tx, |pre| + |codec.serialize(tx)|))
  }

  // ---------------------------------------------------------------------------
  // RPC transaction info (base.TransactionInfo and friends)
  // ---------------------------------------------------------------------------

  datatype TxoutputInfo = TxoutputInfo(assetID: string, value: Fixed64, address: string, outputLock: uint32)

  datatype TxAttributeInfo = TxAttributeInfo(usage: AttributeUsage, data: string)

  datatype PayloadInfo = IssueTokenInfo(proof: string) | OtherPayloadInfo

  datatype UTXOTxInputInfo = UTXOTxInputInfo(referTxID: string, referTxOutputIndex: nat, sequence: uint32)

  datatype BalanceTxInputInfo = BalanceTxInputInfo(data: string)

  datatype ProgramInfo = ProgramInfo(code: string, parameter: string)

  datatype TransactionInfo = TransactionInfo(
    txType: TxType,
    payload: PayloadInfo,
    attributes: seq<TxAttributeInfo>,
    utxoInputs: seq<UTXOTxInputInfo>,
    balanceInputs: seq<BalanceTxInputInfo>,
    outputs: seq<TxoutputInfo>,
    programs: seq<ProgramInfo>,
    lockTime: uint32,
    hash: string)

  // ---------------------------------------------------------------------------
  // Arbitrator group information (rpc.ArbitratorGroupInfo)
  // ---------------------------------------------------------------------------

  /** The ordered arbitrator keys at some height and the index of the one on duty. */
  datatype ArbitratorGroupInfo = ArbitratorGroupInfo(arbitrators: seq<string>, onDutyArbitratorIndex: int)
}
