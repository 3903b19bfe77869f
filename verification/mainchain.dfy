/**
 * The main-chain half of the arbiter: the withdraw transaction built on the main chain
 * to pay a user out of the side chain's bank account, and the deposits a user's main-chain
 * transaction announces to side chains through TargetPublicKey attributes.
 */
module MainChain {
  import opened Common
  import opened Crypto
  import opened Types

  datatype MainChainError =
    | InvalidSpenderAddress(address: string)   // "Invalid spender address: ..."
    | GetDatabaseFailed                        // "[Wallet], Get db failed"
    | GetUTXOsFailed                           // "[Wallet], Get spender's UTXOs failed"
    | InvalidChangeAddress                     // the bank address does not parse for the change output
    | NotEnoughToken                           // "Available token is not enough"
    | RedeemScriptFailed                       // CreateRedeemScript failed
    | KeyDecodeFailed                          // a TargetPublicKey attribute's key does not decode
    | ProgramHashFailed                        // no program hash for a decoded key

  /** An unspent output of the bank account, as the SPV wallet lists it. */
  datatype SpvUTXO = SpvUTXO(txID: seq<byte>, index: nat, value: Fixed64)

  /** The transaction input spending a wallet UTXO (TxUTXOFromSpvUTXO): its outpoint. */
  function TxInputOf(utxo: SpvUTXO): UTXOTxInput
  {
    UTXOTxInput(utxo.txID, utxo.index)
  }

  /** The foreign services CreateWithdrawTransaction calls. */
  datatype Wallet = Wallet(
    /** spvCore.Uint168FromAddress: the program hash of the spender's address. */
    spvAddressToProgramHash: string -> Option<Uint168>,
    /** common.Uint168FromAddress: the program hash the change is paid to. */
    addressToProgramHash: string -> Option<Uint168>,
    /** spvWallet.GetDatabase, then GetAddressUTXOs; None where either fails. */
    database: Option<Uint168 -> Option<seq<SpvUTXO>>>,
    /** CreateRedeemScript: the arbiters' multi-sign redeem script. */
    redeemScript: Option<seq<byte>>,
    /** SystemAssetId: the hash of the ELA registration transaction. */
    systemAssetId: seq<byte>)

  // ---------------------------------------------------------------------------
  // UTXO selection
  // ---------------------------------------------------------------------------

  /** The inputs taken, the change owed back (if any) and the amount still to be covered. */
  datatype Selection = Selection(inputs: seq<UTXOTxInput>, change: Option<Fixed64>, remainder: Fixed64)

  /**
   * The selection loop of CreateWithdrawTransaction from a running remainder: each UTXO in
   * order is taken; a smaller one lowers the remainder, an equal one ends the selection, and
   * a larger one ends it with its excess as change. Arithmetic is int64.
   */
  function Select(utxos: seq<SpvUTXO>, remainder: Fixed64): (s: Selection)
    ensures |s.inputs| <= |utxos|
  {
    if utxos == [] then Selection([], None, remainder)
    else
      var utxo := utxos[0];
      if utxo.value < remainder then
        var rest := Select(utxos[1..], WrapInt64(remainder - utxo.value));
        Selection([TxInputOf(utxo)] + rest.inputs, rest.change, rest.remainder)
      else if utxo.value == remainder then
        Selection([TxInputOf(utxo)], None, 0)
      else
        Selection([TxInputOf(utxo)], Some(WrapInt64(utxo.value - remainder)), 0)
  }

  /** The inputs selected spend a prefix of the UTXOs, in list order. */
  lemma {:induction false} SelectTakesPrefix(utxos: seq<SpvUTXO>, remainder: Fixed64)
    ensures var s := Select(utxos, remainder);
            s.inputs == InputsOf(utxos[..|s.inputs|])
  {
    if utxos != [] {
      var utxo := utxos[0];
      if utxo.value < remainder {
        SelectTakesPrefix(utxos[1..], WrapInt64(remainder - utxo.value));
        var rest := Select(utxos[1..], WrapInt64(remainder - utxo.value));
        assert utxos[..|rest.inputs| + 1] == [utxo] + utxos[1..][..|rest.inputs|];
      } else {
        assert utxos[..1] == [utxo];
      }
    }
  }

  function InputsOf(utxos: seq<SpvUTXO>): (r: seq<UTXOTxInput>)
    ensures |r| == |utxos|
    ensures forall i :: 0 <= i < |utxos| ==> r[i] == TxInputOf(utxos[i])
  {
    if utxos == [] then [] else [TxInputOf(utxos[0])] + InputsOf(utxos[1..])
  }

  /** The total value of some UTXOs. */
  function Sum(utxos: seq<SpvUTXO>): int
  {
    if utxos == [] then 0 else utxos[0].value + Sum(utxos[1..])
  }

  function ChangeValue(s: Selection): int
  {
    if s.change.Some? then s.change.value else 0
  }

  /** Wallet UTXO values are int64 amounts that are never negative. */
  predicate NonNegativeValues(utxos: seq<SpvUTXO>)
  {
    utxos == [] || (0 <= utxos[0].value <= INT64_MAX && NonNegativeValues(utxos[1..]))
  }

  /** NonNegativeValues holds exactly when every UTXO's value is a non-negative int64. */
  lemma {:induction false} NonNegativeValuesMeaning(utxos: seq<SpvUTXO>)
    ensures NonNegativeValues(utxos) <==> forall i :: 0 <= i < |utxos| ==> 0 <= utxos[i].value <= INT64_MAX
    decreases |utxos|
  {
    if utxos != [] {
      NonNegativeValuesMeaning(utxos[1..]);
      assert forall i :: 1 <= i < |utxos| ==> utxos[i] == utxos[1..][i - 1];
    }
  }

  /**
   * The selection rule from any non-negative remainder R: the UTXOs taken cover R exactly
   * plus the change, the selection falls short exactly when all the UTXOs together are worth
   * less than R, and then it takes them all and owes no change.
   */
  lemma SelectCovers(utxos: seq<SpvUTXO>, remainder: Fixed64)
    requires NonNegativeValues(utxos) && 0 <= remainder <= INT64_MAX
    ensures var s := Select(utxos, remainder);
            && 0 <= s.remainder
            && Sum(utxos[..|s.inputs|]) + s.remainder == remainder + ChangeValue(s)
            && (s.change.Some? ==> s.change.value > 0)
            && (s.remainder > 0 <==> Sum(utxos) < remainder)
            && (s.remainder > 0 ==> |s.inputs| == |utxos| && s.change.None? && s.remainder == remainder - Sum(utxos))
            && (0 < remainder && |s.inputs| > 0 ==> Sum(utxos[..|s.inputs| - 1]) < remainder)
  {
    SelectConserves(utxos, remainder);
    SelectShortfall(utxos, remainder);
    SelectMinimal(utxos, remainder);
  }

  /**
   * The selection stops as early as it may: from a positive remainder, the UTXOs taken before
   * the last one are together worth less than the remainder, so each of them was taken while
   * something was still owed.
   */
  lemma {:induction false} SelectMinimal(utxos: seq<SpvUTXO>, remainder: Fixed64)
    requires NonNegativeValues(utxos) && 0 <= remainder <= INT64_MAX
    ensures var s := Select(utxos, remainder);
            0 < remainder && |s.inputs| > 0 ==> Sum(utxos[..|s.inputs| - 1]) < remainder
  {
    if utxos != [] && utxos[0].value < remainder {
      var utxo := utxos[0];
      SelectMinimal(utxos[1..], remainder - utxo.value);
      var rest := Select(utxos[1..], remainder - utxo.value);
      var before := utxos[..|rest.inputs|];
      if |rest.inputs| > 0 {
        assert before[0] == utxo && before[1..] == utxos[1..][..|rest.inputs| - 1];
      }
    }
  }

  /** The UTXOs taken cover the remainder exactly plus the change, which is positive when owed. */
  lemma {:induction false} SelectConserves(utxos: seq<SpvUTXO>, remainder: Fixed64)
    requires NonNegativeValues(utxos) && 0 <= remainder <= INT64_MAX
    ensures var s := Select(utxos, remainder);
            && 0 <= s.remainder
            && Sum(utxos[..|s.inputs|]) + s.remainder == remainder + ChangeValue(s)
            && (s.change.Some? ==> s.change.value > 0)
  {
    if utxos != [] {
      var utxo := utxos[0];
      if utxo.value < remainder {
        SelectConserves(utxos[1..], remainder - utxo.value);
        var rest := Select(utxos[1..], remainder - utxo.value);
        assert utxos[..|rest.inputs| + 1][1..] == utxos[1..][..|rest.inputs|];
      } else {
        assert utxos[..1][1..] == [];
      }
    }
  }

  /** The selection falls short exactly when all the UTXOs are worth less, and then takes them all. */
  lemma {:induction false} SelectShortfall(utxos: seq<SpvUTXO>, remainder: Fixed64)
    requires NonNegativeValues(utxos) && 0 <= remainder <= INT64_MAX
    ensures var s := Select(utxos, remainder);
            && (s.remainder > 0 <==> Sum(utxos) < remainder)
            && (s.remainder > 0 ==> |s.inputs| == |utxos| && s.change.None? && s.remainder == remainder - Sum(utxos))
  {
    if utxos != [] {
      var utxo := utxos[0];
      SumNonNegative(utxos[1..]);
      if utxo.value < remainder {
        SelectShortfall(utxos[1..], remainder - utxo.value);
      }
    }
  }

  lemma {:induction false} SumNonNegative(utxos: seq<SpvUTXO>)
    requires NonNegativeValues(utxos)
    ensures Sum(utxos) >= 0
  {
    if utxos != [] {
      SumNonNegative(utxos[1..]);
    }
  }

  /**
   * The selection as CreateWithdrawTransaction runs it, from a remainder of 0: with
   * non-negative values it takes the first UTXO alone, owes its whole value back as change,
   * and never falls short.
   */
  lemma SelectFromZero(utxos: seq<SpvUTXO>)
    requires NonNegativeValues(utxos)
    ensures var s := Select(utxos, 0);
            && s.remainder == 0
            && s.inputs == (if utxos == [] then [] else [TxInputOf(utxos[0])])
            && s.change == (if utxos != [] && utxos[0].value > 0 then Some(utxos[0].value) else None)
  {
  }

  // ---------------------------------------------------------------------------
  // The withdraw transaction
  // ---------------------------------------------------------------------------

  /** The change output of a selection, paid back to the bank's program hash. */
  function ChangeOutputs(s: Selection, systemAssetId: seq<byte>, bank: Uint168): (r: seq<TxOutput>)
    ensures |r| == if s.change.Some? then 1 else 0
  {
    if s.change.Some? then [TxOutput(systemAssetId, bank, s.change.value, 0)] else []
  }

  /**
   * CreateWithdrawTransaction as a function of its inputs: a TransferAsset transaction
   * paying `amount` to `target`, funded by the bank's UTXOs selected from a remainder
   * of 0, with one unsigned program holding the redeem script.
   */
  function WithdrawTransaction(withdrawBank: string, target: Uint168, amount: Fixed64, wallet: Wallet)
    : (r: Result<Transaction, MainChainError>)
    ensures wallet.spvAddressToProgramHash(withdrawBank).None? ==> r == Err(InvalidSpenderAddress(withdrawBank))
    ensures r.Ok? ==>
              && wallet.redeemScript.Some?
              && r.value.txType == TransferAsset && r.value.payload == TransferAssetPayload
              && r.value.attributes == [] && r.value.balanceInputs == [] && r.value.lockTime == 0
              && r.value.programs == [Program(wallet.redeemScript.value, None)]
              && 1 <= |r.value.outputs| <= 2
              && r.value.outputs[0] == TxOutput(wallet.systemAssetId, target, amount, 0)
  {
    match wallet.spvAddressToProgramHash(withdrawBank)
    case None => Err(InvalidSpenderAddress(withdrawBank))
    case Some(spender) =>
      match wallet.database
      case None => Err(GetDatabaseFailed)
      case Some(addressUTXOs) =>
        match addressUTXOs(spender)
        case None => Err(GetUTXOsFailed)
        case Some(utxos) =>
          var s := Select(utxos, 0);
          if s.change.Some? && wallet.addressToProgramHash(withdrawBank).None? then Err(InvalidChangeAddress)
          else if s.remainder > 0 then Err(NotEnoughToken)
          else if wallet.redeemScript.None? then Err(RedeemScriptFailed)
          else
            Ok(Transaction(TransferAsset, TransferAssetPayload, [], s.inputs, [],
                           [TxOutput(wallet.systemAssetId, target, amount, 0)] + ChangeOf(s, wallet, withdrawBank),
                           [Program(wallet.redeemScript.value, None)], 0))
  }

  /**
   * What CreateWithdrawTransaction does with a wallet of non-negative UTXOs: it never
   * reports that the available tokens are not enough, spends at most the first UTXO and
   * pays that UTXO's whole value back as change, whatever the amount withdrawn.
   */
  lemma WithdrawAsWritten(withdrawBank: string, target: Uint168, amount: Fixed64, wallet: Wallet, utxos: seq<SpvUTXO>)
    requires wallet.spvAddressToProgramHash(withdrawBank).Some? && wallet.database.Some?
    requires wallet.database.value(wallet.spvAddressToProgramHash(withdrawBank).value) == Some(utxos)
    requires NonNegativeValues(utxos)
    ensures var r := WithdrawTransaction(withdrawBank, target, amount, wallet);
            && r != Err(NotEnoughToken)
            && (r.Ok? ==>
                  && r.value.utxoInputs == (if utxos == [] then [] else [TxInputOf(utxos[0])])
                  && r.value.outputs[1..] == (if utxos != [] && utxos[0].value > 0
                                              then [TxOutput(wallet.systemAssetId, wallet.addressToProgramHash(withdrawBank).value, utxos[0].value, 0)]
                                              else []))
  {
    SelectFromZero(utxos);
  }

  /**
   * A bank holding one UTXO of 300 asked to withdraw 500: the transaction is built anyway,
   * paying 500 and 300 of change out of an input worth 300.
   */
  lemma WithdrawBeyondFunds(withdrawBank: string, target: Uint168, wallet: Wallet, utxo: SpvUTXO)
    requires wallet.spvAddressToProgramHash(withdrawBank).Some? && wallet.database.Some?
    requires wallet.database.value(wallet.spvAddressToProgramHash(withdrawBank).value) == Some([utxo])
    requires wallet.addressToProgramHash(withdrawBank).Some? && wallet.redeemScript.Some?
    requires utxo.value == 300
    ensures var r := WithdrawTransaction(withdrawBank, target, 500, wallet);
            && r.Ok?
            && r.value.utxoInputs == [TxInputOf(utxo)]
            && |r.value.outputs| == 2 && r.value.outputs[0].value == 500 && r.value.outputs[1].value == 300
  {
  }

  /**
   * CreateWithdrawTransaction: parses the bank address, lists the bank's UTXOs and takes
   * them in order while the running remainder (starting at 0) exceeds their value, adding a
   * change output when one is worth more; then wraps inputs and outputs with the redeem script.
   */
  method CreateWithdrawTransaction(withdrawBank: string, target: Uint168, amount: Fixed64, wallet: Wallet)
    returns (r: Result<Transaction, MainChainError>)
    ensures r == WithdrawTransaction(withdrawBank, target, amount, wallet)
  {
    var spender := wallet.spvAddressToProgramHash(withdrawBank);
    if spender.None? {
      return Err(InvalidSpenderAddress(withdrawBank));
    }
    var txOutputs := [TxOutput(wallet.systemAssetId, target, amount, 0)];
    if wallet.database.None? {
      return Err(GetDatabaseFailed);
    }
    var utxos := wallet.database.value(spender.value);
    if utxos.None? {
      return Err(GetUTXOsFailed);
    }
    var selected := SelectInputs(utxos.value, withdrawBank, wallet);
    if selected.Err? {
      return Err(selected.error);
    }
    var (txInputs, changeOutputs, totalOutputAmount) := selected.value;
    if totalOutputAmount > 0 {
      return Err(NotEnoughToken);
    }
    if wallet.redeemScript.None? {
      return Err(RedeemScriptFailed);
    }
    r := Ok(Transaction(TransferAsset, TransferAssetPayload, [], txInputs, [], txOutputs + changeOutputs,
                        [Program(wallet.redeemScript.value, None)], 0));
  }

  /**
   * The UTXO handling of CreateWithdrawTransaction, with the remainder starting at 0: the
   * inputs taken, the change output (if any) and the remainder left; the bank address is
   * parsed again only when a change output is needed.
   */
  method SelectInputs(utxos: seq<SpvUTXO>, withdrawBank: string, wallet: Wallet)
    returns (r: Result<(seq<UTXOTxInput>, seq<TxOutput>, Fixed64), MainChainError>)
    ensures var s := Select(utxos, 0);
            if s.change.Some? && wallet.addressToProgramHash(withdrawBank).None? then r == Err(InvalidChangeAddress)
            else r == Ok((s.inputs, ChangeOf(s, wallet, withdrawBank), s.remainder))
  {
    var s := SelectLoop(utxos);
    var changeOutputs: seq<TxOutput> := [];
    if s.change.Some? {
      var programHash := wallet.addressToProgramHash(withdrawBank);
      if programHash.None? {
        return Err(InvalidChangeAddress);
      }
      changeOutputs := [TxOutput(wallet.systemAssetId, programHash.value, s.change.value, 0)];
    }
    r := Ok((s.inputs, changeOutputs, s.remainder));
  }

  /**
   * The UTXO loop of CreateWithdrawTransaction: takes each UTXO in order, lowering the
   * running remainder (starting at 0) while the UTXO is worth less, and stops at the first
   * one worth as much, noting the excess owed back as change.
   */
  method SelectLoop(utxos: seq<SpvUTXO>) returns (s: Selection)
    ensures s == Select(utxos, 0)
  {
    var totalOutputAmount: Fixed64 := 0;
    var txInputs: seq<UTXOTxInput> := [];
    var i := 0;
    while i < |utxos|
      invariant 0 <= i <= |utxos|
      invariant Select(utxos, 0) == Continued(txInputs, Select(utxos[i..], totalOutputAmount))
    {
      var utxo := utxos[i];
      SelectAt(utxos, i, totalOutputAmount);
      ghost var taken := txInputs;
      txInputs := txInputs + [TxInputOf(utxo)];
      if utxo.value < totalOutputAmount {
        ContinuedTwice(taken, [TxInputOf(utxo)], Select(utxos[i + 1..], WrapInt64(totalOutputAmount - utxo.value)));
        totalOutputAmount := WrapInt64(totalOutputAmount - utxo.value);
      } else if utxo.value == totalOutputAmount {
        return Selection(txInputs, None, 0);
      } else {
        return Selection(txInputs, Some(WrapInt64(utxo.value - totalOutputAmount)), 0);
      }
      i := i + 1;
    }
    assert utxos[i..] == [];
    assert txInputs + [] == txInputs;
    s := Selection(txInputs, None, totalOutputAmount);
  }

  /** The change output a selection adds, paid to the bank's program hash. */
  function ChangeOf(s: Selection, wallet: Wallet, withdrawBank: string): (r: seq<TxOutput>)
    requires s.change.Some? ==> wallet.addressToProgramHash(withdrawBank).Some?
    ensures |r| == if s.change.Some? then 1 else 0
  {
    if s.change.Some? then ChangeOutputs(s, wallet.systemAssetId, wallet.addressToProgramHash(withdrawBank).value) else []
  }

  /** A selection continued after the inputs already taken. */
  function Continued(taken: seq<UTXOTxInput>, s: Selection): Selection
  {
    s.(inputs := taken + s.inputs)
  }

  /** Continuing after `a` and then `b` is continuing after `a + b`. */
  lemma ContinuedTwice(a: seq<UTXOTxInput>, b: seq<UTXOTxInput>, s: Selection)
    ensures Continued(a + b, s) == Continued(a, Continued(b, s))
  {
    assert (a + b) + s.inputs == a + (b + s.inputs);
  }

  /** One step of the selection loop at UTXO i with the running remainder. */
  lemma SelectAt(utxos: seq<SpvUTXO>, i: nat, remainder: Fixed64)
    requires i < |utxos|
    ensures var utxo := utxos[i];
            Select(utxos[i..], remainder)
            == if utxo.value < remainder then Continued([TxInputOf(utxo)], Select(utxos[i + 1..], WrapInt64(remainder - utxo.value)))
               else if utxo.value == remainder then Selection([TxInputOf(utxo)], None, 0)
               else Selection([TxInputOf(utxo)], Some(WrapInt64(utxo.value - remainder)), 0)
  {
    assert utxos[i..][0] == utxos[i] && utxos[i..][1..] == utxos[i + 1..];
  }

  // ---------------------------------------------------------------------------
  // Deposits
  // ---------------------------------------------------------------------------

  /** A deposit to a side chain: the main-chain output that pays it and the side-chain account credited. */
  datatype DepositInfo = DepositInfo(mainChainProgramHash: Uint168, targetProgramHash: Uint168, amount: Fixed64)

  /**
   * The first output whose index, truncated to a byte, equals `b`: that is output b itself
   * when there are more than b outputs, and none otherwise.
   */
  function FirstIndexWithByte(outputs: seq<TxOutput>, b: byte): (r: Option<nat>)
    ensures r.Some? ==> r.value < |outputs| && r.value % 256 == b && forall j :: 0 <= j < r.value ==> j % 256 != b
    ensures r.None? ==> forall j :: 0 <= j < |outputs| ==> j % 256 != b
  {
    if b < |outputs| then Some(b) else None
  }

  /** Every TargetPublicKey attribute has a data byte to strip, as the code's slicing demands. */
  predicate TargetKeysHaveIndex(attributes: seq<TxAttribute>)
  {
    attributes == [] ||
    ((attributes[0].usage == TargetPublicKey ==> |attributes[0].data| >= 1) && TargetKeysHaveIndex(attributes[1..]))
  }

  /** TargetKeysHaveIndex holds exactly when no TargetPublicKey attribute has empty data. */
  lemma {:induction false} TargetKeysHaveIndexMeaning(attributes: seq<TxAttribute>)
    ensures TargetKeysHaveIndex(attributes) <==>
            forall i :: 0 <= i < |attributes| && attributes[i].usage == TargetPublicKey ==> |attributes[i].data| >= 1
    decreases |attributes|
  {
    if attributes != [] {
      TargetKeysHaveIndexMeaning(attributes[1..]);
      assert forall i :: 1 <= i < |attributes| ==> attributes[i] == attributes[1..][i - 1];
    }
  }

  /** The key and the output-index byte of a TargetPublicKey attribute. */
  function KeyBytes(attr: TxAttribute): seq<byte>
    requires |attr.data| >= 1
  {
    attr.data[..|attr.data| - 1]
  }

  function IndexByte(attr: TxAttribute): byte
    requires |attr.data| >= 1
  {
    attr.data[|attr.data| - 1]
  }

  /**
   * ParseUserDepositTransactionInfo as a function: for each TargetPublicKey attribute in
   * order, the deposit it announces, if its index byte names an output; the first key that
   * does not decode or hash aborts the whole parse.
   */
  function DepositInfos(attributes: seq<TxAttribute>, outputs: seq<TxOutput>, crypto: CryptoSuite)
    : (r: Result<seq<DepositInfo>, MainChainError>)
    requires TargetKeysHaveIndex(attributes)
    ensures r.Ok? ==> |r.value| <= |attributes|
  {
    if attributes == [] then Ok([])
    else
      var attr := attributes[0];
      var rest := DepositInfos(attributes[1..], outputs, crypto);
      if attr.usage != TargetPublicKey then rest
      else
        match crypto.decodePoint(KeyBytes(attr))
        case None => Err(KeyDecodeFailed)
        case Some(key) =>
          match crypto.keyToProgramHash(key)
          case None => Err(ProgramHashFailed)
          case Some(targetProgramHash) =>
            match FirstIndexWithByte(outputs, IndexByte(attr))
            case None => rest
            case Some(k) =>
              PrefixedDeposits([DepositInfo(outputs[k].programHash, targetProgramHash, outputs[k].value)], rest)
  }

  /** A parse's outcome after the deposits already found. */
  function PrefixedDeposits(found: seq<DepositInfo>, r: Result<seq<DepositInfo>, MainChainError>): Result<seq<DepositInfo>, MainChainError>
  {
    match r
    case Ok(deposits) => Ok(found + deposits)
    case Err(e) => Err(e)
  }

  /** Every TargetPublicKey attribute's key decodes and has a program hash. */
  ghost predicate AllKeysResolve(attributes: seq<TxAttribute>, crypto: CryptoSuite)
  {
    forall i :: 0 <= i < |attributes| && attributes[i].usage == TargetPublicKey ==>
      KeyResolves(attributes[i], crypto)
  }

  ghost predicate KeyResolves(attr: TxAttribute, crypto: CryptoSuite)
  {
    && |attr.data| >= 1
    && crypto.decodePoint(KeyBytes(attr)).Some? && crypto.keyToProgramHash(crypto.decodePoint(KeyBytes(attr)).value).Some?
  }

  /** The TargetPublicKey attributes whose index byte names an output, in their order. */
  function IndexedAttributes(attributes: seq<TxAttribute>, outputs: seq<TxOutput>): (r: seq<TxAttribute>)
    requires TargetKeysHaveIndex(attributes)
    ensures |r| <= |attributes|
    ensures forall i :: 0 <= i < |r| ==> r[i].usage == TargetPublicKey && |r[i].data| >= 1 && IndexByte(r[i]) < |outputs|
  {
    if attributes == [] then []
    else if attributes[0].usage == TargetPublicKey && IndexByte(attributes[0]) < |outputs| then
      [attributes[0]] + IndexedAttributes(attributes[1..], outputs)
    else IndexedAttributes(attributes[1..], outputs)
  }

  /**
   * `d` is the deposit `attr` announces: paid by the output its index byte names, of that
   * output's value, crediting the program hash of the key in the attribute's other bytes.
   */
  ghost predicate Announces(d: DepositInfo, attr: TxAttribute, outputs: seq<TxOutput>, crypto: CryptoSuite)
  {
    && |attr.data| >= 1 && IndexByte(attr) < |outputs|
    && d.mainChainProgramHash == outputs[IndexByte(attr)].programHash
    && d.amount == outputs[IndexByte(attr)].value
    && crypto.decodePoint(KeyBytes(attr)).Some?
    && crypto.keyToProgramHash(crypto.decodePoint(KeyBytes(attr)).value) == Some(d.targetProgramHash)
  }

  /**
   * The parse succeeds exactly when every TargetPublicKey key resolves; it then yields, in
   * order, one deposit per TargetPublicKey attribute whose index byte names an output, the
   * deposit that attribute announces.
   */
  lemma DepositInfosMeaning(attributes: seq<TxAttribute>, outputs: seq<TxOutput>, crypto: CryptoSuite)
    requires TargetKeysHaveIndex(attributes)
    ensures var r := DepositInfos(attributes, outputs, crypto);
            var indexed := IndexedAttributes(attributes, outputs);
            && (r.Ok? <==> AllKeysResolve(attributes, crypto))
            && (r.Ok? ==> |r.value| == |indexed|)
            && (r.Ok? ==> forall i :: 0 <= i < |indexed| ==> Announces(r.value[i], indexed[i], outputs, crypto))
  {
    DepositInfosSucceeds(attributes, outputs, crypto);
    DepositInfosContents(attributes, outputs, crypto);
  }

  /** The parse fails exactly when some TargetPublicKey key does not resolve. */
  lemma {:induction false} DepositInfosSucceeds(attributes: seq<TxAttribute>, outputs: seq<TxOutput>, crypto: CryptoSuite)
    requires TargetKeysHaveIndex(attributes)
    ensures DepositInfos(attributes, outputs, crypto).Ok? <==> AllKeysResolve(attributes, crypto)
  {
    if attributes != [] {
      var rest := attributes[1..];
      DepositInfosSucceeds(rest, outputs, crypto);
      assert AllKeysResolve(attributes, crypto) <==>
             (attributes[0].usage == TargetPublicKey ==> KeyResolves(attributes[0], crypto)) && AllKeysResolve(rest, crypto) by {
        assert forall i :: 1 <= i < |attributes| ==> attributes[i] == rest[i - 1];
      }
    }
  }

  /** A successful parse pairs its deposits, in order, with the indexed TargetPublicKey attributes. */
  lemma {:induction false} DepositInfosContents(attributes: seq<TxAttribute>, outputs: seq<TxOutput>, crypto: CryptoSuite)
    requires TargetKeysHaveIndex(attributes)
    ensures var r := DepositInfos(attributes, outputs, crypto);
            var indexed := IndexedAttributes(attributes, outputs);
            r.Ok? ==> |r.value| == |indexed| && forall i :: 0 <= i < |indexed| ==> Announces(r.value[i], indexed[i], outputs, crypto)
  {
    if attributes != [] {
      var rest := attributes[1..];
      DepositInfosContents(rest, outputs, crypto);
      var r := DepositInfos(attributes, outputs, crypto);
      if r.Ok? && attributes[0].usage == TargetPublicKey && IndexByte(attributes[0]) < |outputs| {
        var tail := DepositInfos(rest, outputs, crypto).value;
        var indexed := IndexedAttributes(attributes, outputs);
        var tailIndexed := IndexedAttributes(rest, outputs);
        assert r.value == [r.value[0]] + tail;
        assert indexed == [attributes[0]] + tailIndexed;
        assert Announces(r.value[0], attributes[0], outputs, crypto);
        assert forall i :: 1 <= i < |indexed| ==> r.value[i] == tail[i - 1] && indexed[i] == tailIndexed[i - 1];
      }
    }
  }

  /**
   * ParseUserDepositTransactionInfo: walks the attributes; for each TargetPublicKey one,
   * decodes the key in all but its last byte and looks for the output whose index, as a
   * byte, equals that last byte.
   */
  method ParseUserDepositTransactionInfo(txn: Transaction, crypto: CryptoSuite)
    returns (r: Result<seq<DepositInfo>, MainChainError>)
    requires TargetKeysHaveIndex(txn.attributes)
    ensures r == DepositInfos(txn.attributes, txn.outputs, crypto)
  {
    var result: seq<DepositInfo> := [];
    var attributes := txn.attributes;
    assert attributes[0..] == attributes;
    PrefixedNothing(DepositInfos(attributes, txn.outputs, crypto));
    for i := 0 to |attributes|
      invariant TargetKeysHaveIndex(attributes[i..])
      invariant DepositInfos(attributes, txn.outputs, crypto)
                == PrefixedDeposits(result, DepositInfos(attributes[i..], txn.outputs, crypto))
    {
      var attr := attributes[i];
      DepositInfosAt(attributes, i, txn.outputs, crypto, result);
      if attr.usage == TargetPublicKey {
        var keyBytes := attr.data[..|attr.data| - 1];
        var key := crypto.decodePoint(keyBytes);
        if key.None? {
          return Err(KeyDecodeFailed);
        }
        var targetProgramHash := crypto.keyToProgramHash(key.value);
        if targetProgramHash.None? {
          return Err(ProgramHashFailed);
        }
        var attrIndex := attr.data[|attr.data| - 1];
        var found := FindOutput(txn.outputs, attrIndex);
        if found.Some? {
          var output := txn.outputs[found.value];
          result := result + [DepositInfo(output.programHash, targetProgramHash.value, output.value)];
        }
      }
    }
    assert attributes[|attributes|..] == [];
    assert result + [] == result;
    r := Ok(result);
  }

  /** The search over the outputs for the one whose index, truncated to a byte, is `attrIndex`. */
  method FindOutput(outputs: seq<TxOutput>, attrIndex: byte) returns (found: Option<nat>)
    ensures found == FirstIndexWithByte(outputs, attrIndex)
    ensures found.Some? ==> found.value < |outputs| && found.value % 256 == attrIndex
  {
    for index := 0 to |outputs|
      invariant index <= attrIndex
    {
      if index % 256 == attrIndex {
        return Some(index);
      }
    }
    found := None;
  }

  lemma PrefixedNothing(r: Result<seq<DepositInfo>, MainChainError>)
    ensures PrefixedDeposits([], r) == r
  {
    if r.Ok? {
      assert [] + r.value == r.value;
    }
  }

  /** One attribute of the parse, after the deposits `found` for the attributes before it. */
  lemma DepositInfosAt(attributes: seq<TxAttribute>, i: nat, outputs: seq<TxOutput>, crypto: CryptoSuite,
                       found: seq<DepositInfo>)
    requires i < |attributes| && TargetKeysHaveIndex(attributes[i..])
    ensures TargetKeysHaveIndex(attributes[i + 1..])
    ensures var attr := attributes[i];
            var outcome := PrefixedDeposits(found, DepositInfos(attributes[i..], outputs, crypto));
            var rest := DepositInfos(attributes[i + 1..], outputs, crypto);
            && (attr.usage != TargetPublicKey ==> outcome == PrefixedDeposits(found, rest))
            && (attr.usage == TargetPublicKey ==>
                  |attr.data| >= 1 &&
                  match crypto.decodePoint(KeyBytes(attr))
                  case None => outcome == Err(KeyDecodeFailed)
                  case Some(key) =>
                    match crypto.keyToProgramHash(key)
                    case None => outcome == Err(ProgramHashFailed)
                    case Some(targetProgramHash) =>
                      if IndexByte(attr) < |outputs| then
                        outcome == PrefixedDeposits(found + [DepositInfo(outputs[IndexByte(attr)].programHash, targetProgramHash,
                                                                 outputs[IndexByte(attr)].value)], rest)
                      else outcome == PrefixedDeposits(found, rest))
  {
    assert attributes[i..][0] == attributes[i] && attributes[i..][1..] == attributes[i + 1..];
    var rest := DepositInfos(attributes[i + 1..], outputs, crypto);
    if rest.Ok? {
      forall d: DepositInfo ensures found + ([d] + rest.value) == (found + [d]) + rest.value {
      }
    }
  }
}
