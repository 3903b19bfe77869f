/**
 * The side-chain half of the arbiter: the side chain's configuration lookup, the
 * withdraw requests found in a side-chain TransferCrossChainAsset transaction, the
 * integer amount conversion applied before a withdrawal is proposed, and the
 * IssueToken deposit transaction sent to a side chain.
 */
module SideChain {
  import opened Common
  import opened Arithmetic
  import opened Serialization
  import opened Types

  /** One side node of the configuration (config.SideNodeConfig); its float rate is not modelled. */
  datatype SideNodeConfig = SideNodeConfig(genesisBlockAddress: string, rpc: string)

  /** A user's withdraw request: the main-chain address to pay and the side-chain amount burnt. */
  datatype WithdrawInfo = WithdrawInfo(targetAddress: string, amount: Fixed64)

  datatype SideChainError =
    | InvalidPayload              // "Invalid payload"
    | EmptyWithdrawTransaction    // "Created an empty withdraw transaction."
    | ProofSerializeFailed        // the SPV proof could not be serialized
    | Failed(reason: string)      // an error passed up from foreign code

  // ---------------------------------------------------------------------------
  // Configuration lookup
  // ---------------------------------------------------------------------------

  /** The first side node of the list whose genesis address is `key`, if there is one. */
  function FirstConfig(sideNodeList: seq<SideNodeConfig>, key: string): (r: Option<SideNodeConfig>)
    ensures r.None? <==> forall i :: 0 <= i < |sideNodeList| ==> sideNodeList[i].genesisBlockAddress != key
    ensures r.Some? ==> r.value in sideNodeList && r.value.genesisBlockAddress == key
  {
    if sideNodeList == [] then None
    else if sideNodeList[0].genesisBlockAddress == key then Some(sideNodeList[0])
    else FirstConfig(sideNodeList[1..], key)
  }

  /** Index i holds the first side node whose genesis address is `key`. */
  predicate IsFirstFor(sideNodeList: seq<SideNodeConfig>, key: string, i: nat)
  {
    i < |sideNodeList| && sideNodeList[i].genesisBlockAddress == key
    && forall j :: 0 <= j < i ==> sideNodeList[j].genesisBlockAddress != key
  }

  /** The side node at the first matching index is the one FirstConfig picks. */
  lemma {:induction false} FirstConfigAt(sideNodeList: seq<SideNodeConfig>, key: string, i: nat)
    requires IsFirstFor(sideNodeList, key, i)
    ensures FirstConfig(sideNodeList, key) == Some(sideNodeList[i])
  {
    if i > 0 {
      assert IsFirstFor(sideNodeList[1..], key, i - 1);
      FirstConfigAt(sideNodeList[1..], key, i - 1);
    }
  }

  // ---------------------------------------------------------------------------
  // Amount conversion
  // ---------------------------------------------------------------------------

  /**
   * Go's int64 division: the quotient truncated toward zero. Its magnitude is the whole
   * number of times |b| fits in |a|, and it is positive exactly when a and b have the
   * same sign and |a| >= |b|.
   */
  function TruncDiv(a: int, b: int): (q: int)
    requires b != 0
    ensures Abs(q) == Abs(a) / Abs(b)
    ensures Abs(q) * Abs(b) <= Abs(a) < Abs(q) * Abs(b) + Abs(b)
    ensures q != 0 ==> (q > 0 <==> (a > 0) == (b > 0))
    ensures (a >= 0) == (b > 0) || a == 0 ==> q >= 0
    ensures a >= 0 && b > 0 ==> q == a / b
  {
    var x := Abs(a);
    var k := Abs(b);
    var m := x / k;
    NatQuotient(x, k);
    if (a < 0) != (b < 0) then
      assert Abs(-m) == m;
      -m
    else
      assert Abs(m) == m;
      m
  }

  /** The quotient of naturals times the divisor is within one divisor below the dividend. */
  lemma NatQuotient(x: nat, k: Pos)
    ensures x / k >= 0
    ensures x / k * k <= x < x / k * k + k
    ensures x / k > 0 ==> x > 0
  {
    DivRange(x, k, x / k);
    if x / k > 0 {
      MulAtLeast(x / k, k);
    }
  }

  function Abs(x: int): nat
  {
    if x < 0 then -x else x
  }

  /**
   * The side-chain amount converted with the rate (already scaled by 10000):
   * Amount * 10000 / rate in int64 arithmetic, the product wrapping and the quotient
   * truncated toward zero (an int64 quotient can itself wrap, for MinInt64 / -1).
   */
  function ConvertAmount(amount: Fixed64, rate: Fixed64): (r: Fixed64)
    requires rate != 0
    ensures -INT64_MAX - 1 <= r <= INT64_MAX
  {
    WrapInt64(TruncDiv(WrapInt64(amount * 10000), rate))
  }

  /**
   * For a non-negative amount whose scaled value fits an int64 and a positive rate, the
   * converted amount is the integer part of amount * 10000 / rate.
   */
  lemma ConvertAmountFloor(amount: Fixed64, rate: Fixed64)
    requires rate > 0 && 0 <= amount * 10000 <= INT64_MAX
    ensures var r := ConvertAmount(amount, rate);
            r >= 0 && r * rate <= amount * 10000 < r * rate + rate
  {
    var q := (amount * 10000) / rate;
    DivRange(amount * 10000, rate, q);
    assert 0 <= q <= amount * 10000 by {
      if q > amount * 10000 {
        MulAtLeast(rate, q);
      }
    }
  }

  /**
   * A negative amount whose scaled value fits an int64, at a positive rate, is rounded
   * toward zero: the converted amount is minus the integer part of -amount * 10000 / rate,
   * one more than Euclidean division gives whenever the division is inexact.
   */
  lemma ConvertAmountTruncates(amount: Fixed64, rate: Fixed64)
    requires rate > 0 && -INT64_MAX - 1 <= amount * 10000 < 0
    ensures var r := ConvertAmount(amount, rate);
            && r == -((-amount * 10000) / rate)
            && r <= 0 && r * rate - rate < amount * 10000 <= r * rate
            && ((amount * 10000) % rate != 0 ==> r == (amount * 10000) / rate + 1)
  {
    var a := amount * 10000;
    assert -amount * 10000 == -a;
    NegativeTruncDiv(a, rate);
  }

  /** Truncating division of a negative int64 by a positive divisor. */
  lemma NegativeTruncDiv(a: int, k: Pos)
    requires -INT64_MAX - 1 <= a < 0
    ensures var r := TruncDiv(a, k);
            && r == -((-a) / k) && -INT64_MAX - 1 <= r <= 0
            && r * k - k < a <= r * k
            && (a % k != 0 ==> r == a / k + 1)
  {
    var q := (-a) / k;
    NatQuotient(-a, k);
    assert q <= -a by {
      if q > -a {
        MulAtLeast(k, q);
      }
    }
    assert -q * k == -(q * k);
    if a % k != 0 {
      RoundedUpQuotient(a, k, -q);
    }
  }

  /** A dividend strictly inside (r * k - k, r * k] has Euclidean quotient r - 1. */
  lemma RoundedUpQuotient(a: int, k: Pos, r: int)
    requires r * k - k < a <= r * k && a % k != 0
    ensures a / k == r - 1
  {
    assert a < r * k by {
      if a == r * k {
        DivRemUnique(a, k, r, 0);
      }
    }
    assert (r - 1) * k == r * k - k;
    DivRange(a, k, r - 1);
  }

  // ---------------------------------------------------------------------------
  // Withdraw requests
  // ---------------------------------------------------------------------------

  /** Every output index the transfer map names exists, as the code's indexing demands. */
  predicate IndicesInRange(txn: Transaction)
  {
    txn.payload.TransferCrossChainAssetPayload? ==>
      forall a :: a in txn.payload.addressesMap ==> txn.payload.addressesMap[a] < |txn.outputs|
  }

  /** The target addresses of a list of withdraw requests. */
  function Targets(infos: seq<WithdrawInfo>): set<string>
  {
    set i | 0 <= i < |infos| :: infos[i].targetAddress
  }

  /**
   * The requests list every entry of the transfer map once, in some order, each with
   * the value of the output its index names.
   */
  ghost predicate ListsTransfers(infos: seq<WithdrawInfo>, addressesMap: map<string, nat>, outputs: seq<TxOutput>)
  {
    ListsEntries(infos, addressesMap, outputs, addressesMap.Keys)
  }

  /**
   * The requests list the entries of the transfer map at the addresses in `listed`, each
   * once: the last request is for one of them, with the value of the output its index
   * names, and the requests before it list the others.
   */
  ghost predicate ListsEntries(infos: seq<WithdrawInfo>, addressesMap: map<string, nat>, outputs: seq<TxOutput>,
                               listed: set<string>)
    decreases |infos|
  {
    if infos == [] then listed == {}
    else
      var last := infos[|infos| - 1];
      && last.targetAddress in listed
      && last.targetAddress in addressesMap && addressesMap[last.targetAddress] < |outputs|
      && last.amount == outputs[addressesMap[last.targetAddress]].value
      && ListsEntries(infos[..|infos| - 1], addressesMap, outputs, listed - {last.targetAddress})
  }

  /**
   * The requests have pairwise different targets, exactly the addresses in `listed`, and
   * each carries the value of the output its map entry names.
   */
  ghost predicate ListsEachOnce(infos: seq<WithdrawInfo>, addressesMap: map<string, nat>, outputs: seq<TxOutput>,
                                listed: set<string>)
  {
    && |infos| == |listed|
    && Targets(infos) == listed
    && (forall i, j :: 0 <= i < j < |infos| ==> infos[i].targetAddress != infos[j].targetAddress)
    && (forall i :: 0 <= i < |infos| ==>
          infos[i].targetAddress in addressesMap && addressesMap[infos[i].targetAddress] < |outputs|
          && infos[i].amount == outputs[addressesMap[infos[i].targetAddress]].value)
  }

  /** What listing the entries means: each address once, with its output's value. */
  lemma ListsEntriesMeaning(infos: seq<WithdrawInfo>, addressesMap: map<string, nat>,
                            outputs: seq<TxOutput>, listed: set<string>)
    requires ListsEntries(infos, addressesMap, outputs, listed)
    ensures ListsEachOnce(infos, addressesMap, outputs, listed)
  {
    ListedTargets(infos, addressesMap, outputs, listed);
    ListedDistinct(infos, addressesMap, outputs, listed);
    ListedAmounts(infos, addressesMap, outputs, listed);
  }

  /** There are as many requests as listed addresses, and their targets are those addresses. */
  lemma {:induction false} ListedTargets(infos: seq<WithdrawInfo>, addressesMap: map<string, nat>,
                                         outputs: seq<TxOutput>, listed: set<string>)
    requires ListsEntries(infos, addressesMap, outputs, listed)
    ensures |infos| == |listed| && Targets(infos) == listed
    decreases |infos|
  {
    if infos != [] {
      var front, last := infos[..|infos| - 1], infos[|infos| - 1];
      var others := listed - {last.targetAddress};
      ListedTargets(front, addressesMap, outputs, others);
      assert listed == others + {last.targetAddress};
      assert Targets(infos) == Targets(front) + {last.targetAddress} by {
        assert forall i :: 0 <= i < |front| ==> infos[i] == front[i];
      }
    }
  }

  /** No two requests share a target. */
  lemma {:induction false} ListedDistinct(infos: seq<WithdrawInfo>, addressesMap: map<string, nat>,
                                          outputs: seq<TxOutput>, listed: set<string>)
    requires ListsEntries(infos, addressesMap, outputs, listed)
    ensures forall i, j :: 0 <= i < j < |infos| ==> infos[i].targetAddress != infos[j].targetAddress
    decreases |infos|
  {
    if infos != [] {
      var front, last := infos[..|infos| - 1], infos[|infos| - 1];
      var others := listed - {last.targetAddress};
      ListedDistinct(front, addressesMap, outputs, others);
      ListedTargets(front, addressesMap, outputs, others);
      forall i, j | 0 <= i < j < |infos|
        ensures infos[i].targetAddress != infos[j].targetAddress
      {
        assert infos[i] == front[i];
        if j == |infos| - 1 {
          assert infos[i].targetAddress in Targets(front);
        } else {
          assert infos[j] == front[j];
        }
      }
    }
  }

  /** Every request is for a map entry and carries the value of the output that entry names. */
  lemma {:induction false} ListedAmounts(infos: seq<WithdrawInfo>, addressesMap: map<string, nat>,
                                         outputs: seq<TxOutput>, listed: set<string>)
    requires ListsEntries(infos, addressesMap, outputs, listed)
    ensures forall i :: 0 <= i < |infos| ==>
              infos[i].targetAddress in addressesMap && addressesMap[infos[i].targetAddress] < |outputs|
              && infos[i].amount == outputs[addressesMap[infos[i].targetAddress]].value
    decreases |infos|
  {
    if infos != [] {
      var front, last := infos[..|infos| - 1], infos[|infos| - 1];
      ListedAmounts(front, addressesMap, outputs, listed - {last.targetAddress});
      assert forall i :: 0 <= i < |front| ==> infos[i] == front[i];
    }
  }

  /** Listing one more entry of the map, one not listed yet. */
  lemma ListsEntriesStep(infos: seq<WithdrawInfo>, addressesMap: map<string, nat>, outputs: seq<TxOutput>,
                         listed: set<string>, remaining: set<string>, address: string)
    requires ListsEntries(infos, addressesMap, outputs, listed)
    requires listed <= addressesMap.Keys && remaining == addressesMap.Keys - listed && address in remaining
    requires addressesMap[address] < |outputs|
    ensures listed + {address} <= addressesMap.Keys
    ensures remaining - {address} == addressesMap.Keys - (listed + {address})
    ensures ListsEntries(infos + [WithdrawInfo(address, outputs[addressesMap[address]].value)],
                         addressesMap, outputs, listed + {address})
  {
    var next := infos + [WithdrawInfo(address, outputs[addressesMap[address]].value)];
    assert next[..|infos|] == infos;
    assert listed + {address} - {address} == listed;
  }

  /** The loop of ParseUserWithdrawTransactionInfo: one request per map entry, in map order. */
  method ListWithdraws(addressesMap: map<string, nat>, outputs: seq<TxOutput>) returns (result: seq<WithdrawInfo>)
    requires forall a :: a in addressesMap ==> addressesMap[a] < |outputs|
    ensures ListsTransfers(result, addressesMap, outputs)
  {
    result := [];
    var remaining := addressesMap.Keys;
    ghost var listed: set<string> := {};
    while remaining != {}
      invariant listed <= addressesMap.Keys && remaining == addressesMap.Keys - listed
      invariant ListsEntries(result, addressesMap, outputs, listed)
      decreases remaining
    {
      var address :| address in remaining;
      ListsEntriesStep(result, addressesMap, outputs, listed, remaining, address);
      result := result + [WithdrawInfo(address, outputs[addressesMap[address]].value)];
      listed := listed + {address};
      remaining := remaining - {address};
    }
    assert listed == addressesMap.Keys;
  }

  /** Two listings of the same transfers hold the same requests, whatever their order. */
  lemma ListingsAgree(a: seq<WithdrawInfo>, b: seq<WithdrawInfo>, addressesMap: map<string, nat>,
                      outputs: seq<TxOutput>)
    requires ListsTransfers(a, addressesMap, outputs) && ListsTransfers(b, addressesMap, outputs)
    ensures multiset(a) == multiset(b)
  {
    ListsEntriesMeaning(a, addressesMap, outputs, addressesMap.Keys);
    ListsEntriesMeaning(b, addressesMap, outputs, addressesMap.Keys);
    DistinctCounts(a);
    DistinctCounts(b);
    forall x ensures multiset(a)[x] == multiset(b)[x] {
      if x in a {
        var i :| 0 <= i < |a| && a[i] == x;
        assert x.targetAddress in Targets(b);
        var j :| 0 <= j < |b| && b[j].targetAddress == x.targetAddress;
        assert b[j] == x;
      }
      if x in b {
        var j :| 0 <= j < |b| && b[j] == x;
        assert x.targetAddress in Targets(a);
        var i :| 0 <= i < |a| && a[i].targetAddress == x.targetAddress;
        assert a[i] == x;
      }
    }
  }

  /** A list whose requests have pairwise different targets holds each request at most once. */
  lemma {:induction false} DistinctCounts(infos: seq<WithdrawInfo>)
    requires forall i, j :: 0 <= i < j < |infos| ==> infos[i].targetAddress != infos[j].targetAddress
    ensures forall x :: multiset(infos)[x] == if x in infos then 1 else 0
  {
    if infos != [] {
      var rest := infos[1..];
      DistinctCounts(rest);
      assert infos == [infos[0]] + rest;
      assert infos[0] !in rest;
    }
  }

  /** The builder's outcome for one request: its target, the converted amount and the burn's hash. */
  function Proposal(info: WithdrawInfo, sideKey: string, txHash: string, rate: Fixed64,
                    createWithdraw: (string, string, Fixed64, string) -> Result<Option<Transaction>, string>)
    : Result<Option<Transaction>, string>
    requires rate != 0
  {
    createWithdraw(sideKey, info.targetAddress, ConvertAmount(info.amount, rate), txHash)
  }

  /** One withdraw proposal round: the transactions proposed so far, and the error that stopped the round. */
  function ProposeAll(infos: seq<WithdrawInfo>, sideKey: string, txHash: string, rate: Fixed64,
                      createWithdraw: (string, string, Fixed64, string) -> Result<Option<Transaction>, string>)
    : (r: (seq<Transaction>, Option<SideChainError>))
    requires rate != 0
    ensures r.1.None? ==> |r.0| == |infos|
    ensures r.1.Some? ==> |r.0| < |infos|
  {
    if infos == [] then ([], None)
    else
      match Proposal(infos[0], sideKey, txHash, rate, createWithdraw)
      case Err(reason) => ([], Some(Failed(reason)))
      case Ok(None) => ([], Some(EmptyWithdrawTransaction))
      case Ok(Some(withdrawTransaction)) =>
        var rest := ProposeAll(infos[1..], sideKey, txHash, rate, createWithdraw);
        ([withdrawTransaction] + rest.0, rest.1)
  }

  /**
   * A proposal round proposes, in order, the transaction built for each request up to the
   * first whose builder fails or builds nothing, and stops there with that builder's error;
   * it fails exactly when such a request exists.
   */
  lemma {:induction false} ProposeAllMeaning(infos: seq<WithdrawInfo>, sideKey: string, txHash: string, rate: Fixed64,
                                             createWithdraw: (string, string, Fixed64, string) -> Result<Option<Transaction>, string>)
    requires rate != 0
    ensures var r := ProposeAll(infos, sideKey, txHash, rate, createWithdraw);
            && (forall i :: 0 <= i < |r.0| ==> Proposal(infos[i], sideKey, txHash, rate, createWithdraw) == Ok(Some(r.0[i])))
            && (r.1.Some? <==> exists i :: 0 <= i < |infos| && !Builds(Proposal(infos[i], sideKey, txHash, rate, createWithdraw)))
            && (r.1.Some? ==> r.1 == FailureOf(Proposal(infos[|r.0|], sideKey, txHash, rate, createWithdraw)))
  {
    if infos != [] {
      ProposeAllMeaning(infos[1..], sideKey, txHash, rate, createWithdraw);
      var rest := infos[1..];
      if Builds(Proposal(infos[0], sideKey, txHash, rate, createWithdraw)) {
        forall i | 1 <= i < |infos|
          ensures infos[i] == rest[i - 1]
        {
        }
      }
    }
  }

  /** A round's outcome after the proposals already made. */
  function Prefixed(made: seq<Transaction>, r: (seq<Transaction>, Option<SideChainError>)): (seq<Transaction>, Option<SideChainError>)
  {
    (made + r.0, r.1)
  }

  /** One request of a round, after the proposals `made` for the requests before it. */
  lemma ProposeAllAt(infos: seq<WithdrawInfo>, i: nat, sideKey: string, txHash: string, rate: Fixed64,
                     createWithdraw: (string, string, Fixed64, string) -> Result<Option<Transaction>, string>,
                     made: seq<Transaction>)
    requires rate != 0 && i < |infos|
    ensures var built := Proposal(infos[i], sideKey, txHash, rate, createWithdraw);
            var outcome := Prefixed(made, ProposeAll(infos[i..], sideKey, txHash, rate, createWithdraw));
            && (built.Err? ==> outcome == (made, Some(Failed(built.error))))
            && (built == Ok(None) ==> outcome == (made, Some(EmptyWithdrawTransaction)))
            && (built.Ok? && built.value.Some? ==>
                  outcome == Prefixed(made + [built.value.value], ProposeAll(infos[i + 1..], sideKey, txHash, rate, createWithdraw)))
  {
    assert infos[i..][0] == infos[i] && infos[i..][1..] == infos[i + 1..];
    assert made + [] == made;
    var rest := ProposeAll(infos[i + 1..], sideKey, txHash, rate, createWithdraw);
    var built := Proposal(infos[i], sideKey, txHash, rate, createWithdraw);
    if built.Ok? && built.value.Some? {
      assert made + ([built.value.value] + rest.0) == (made + [built.value.value]) + rest.0;
    }
  }

  /** The builder produced a transaction. */
  predicate Builds(built: Result<Option<Transaction>, string>)
  {
    built.Ok? && built.value.Some?
  }

  /** The error a builder outcome that produced no transaction stops the round with. */
  function FailureOf(built: Result<Option<Transaction>, string>): (r: Option<SideChainError>)
    ensures r.None? <==> Builds(built)
  {
    match built
    case Err(reason) => Some(Failed(reason))
    case Ok(None) => Some(EmptyWithdrawTransaction)
    case Ok(Some(_)) => None
  }

  // ---------------------------------------------------------------------------
  // Decimal formatting of the nonce
  // ---------------------------------------------------------------------------

  function DecimalDigit(d: nat): char
    requires d < 10
  {
    ('0' as int + d) as char
  }

  /** strconv.FormatInt(n, 10) for a non-negative n: its decimal digits, without leading zeros. */
  function FormatDecimal(n: nat): (s: string)
    ensures |s| >= 1
    ensures forall i :: 0 <= i < |s| ==> '0' <= s[i] <= '9'
    ensures |s| > 1 ==> s[0] != '0'
  {
    if n < 10 then [DecimalDigit(n)] else FormatDecimal(n / 10) + [DecimalDigit(n % 10)]
  }

  /** Reads a decimal string back; None for an empty string or a non-digit. */
  function ParseDecimal(s: string): (r: Option<nat>)
  {
    if s == [] || !('0' <= s[|s| - 1] <= '9') then None
    else
      var last := s[|s| - 1] as int - '0' as int;
      if |s| == 1 then Some(last)
      else
        match ParseDecimal(s[..|s| - 1])
        case None => None
        case Some(prefix) => Some(prefix * 10 + last)
  }

  lemma {:induction false} DecimalRoundTrip(n: nat)
    ensures ParseDecimal(FormatDecimal(n)) == Some(n)
  {
    if n >= 10 {
      DecimalRoundTrip(n / 10);
      var s := FormatDecimal(n);
      assert s[..|s| - 1] == FormatDecimal(n / 10);
    }
  }

  // ---------------------------------------------------------------------------
  // The side chain
  // ---------------------------------------------------------------------------

  class SideChainImpl {
    /** The side chain's genesis block address. */
    const key: string
    /** The configuration found for the key, cached after the first successful lookup. */
    var currentConfig: Option<SideNodeConfig>

    constructor (key: string)
      ensures this.key == key && currentConfig.None?
    {
      this.key := key;
      currentConfig := None;
    }

    /** GetAccountAddress: the account a side chain is monitored under is its key. */
    function GetAccountAddress(): (r: string)
      ensures r == key
    {
      key
    }

    /**
     * getCurrentConfig: when nothing is cached, looks up the first side node whose genesis
     * address is the key and caches it (a miss caches nothing); a cached configuration is
     * returned as it is, whatever the list now holds.
     */
    method GetCurrentConfig(sideNodeList: seq<SideNodeConfig>) returns (r: Option<SideNodeConfig>)
      modifies this`currentConfig
      ensures old(currentConfig).Some? ==> r == old(currentConfig) && currentConfig == r
      ensures old(currentConfig).None? ==> r == FirstConfig(sideNodeList, key) && currentConfig == r
    {
      if currentConfig.None? {
        for i := 0 to |sideNodeList|
          invariant currentConfig.None?
          invariant forall j :: 0 <= j < i ==> sideNodeList[j].genesisBlockAddress != key
        {
          if key == sideNodeList[i].genesisBlockAddress {
            currentConfig := Some(sideNodeList[i]);
            FirstConfigAt(sideNodeList, key, i);
            break;
          }
        }
      }
      r := currentConfig;
    }

    /**
     * ParseUserWithdrawTransactionInfo: one request per entry of a TransferCrossChainAsset
     * payload's address map, in map order; any other payload is refused.
     */
    method ParseUserWithdrawTransactionInfo(txn: Transaction) returns (r: Result<seq<WithdrawInfo>, SideChainError>)
      requires IndicesInRange(txn)
      ensures !txn.payload.TransferCrossChainAssetPayload? ==> r == Err(InvalidPayload)
      ensures txn.payload.TransferCrossChainAssetPayload? ==>
                r.Ok? && ListsTransfers(r.value, txn.payload.addressesMap, txn.outputs)
    {
      if !txn.payload.TransferCrossChainAssetPayload? {
        return Err(InvalidPayload);
      }
      var result := ListWithdraws(txn.payload.addressesMap, txn.outputs);
      r := Ok(result);
    }

    /**
     * OnUTXOChanged: converts the transaction, lists its withdraw requests and proposes one
     * withdraw transaction per request, with the converted amount, stopping at the first
     * request whose builder fails or builds nothing. Returns the requests, the proposals
     * broadcast and the error.
     */
    method OnUTXOChanged(txinfo: TransactionInfo, toTransaction: TransactionInfo -> Result<Transaction, string>,
                         rate: Fixed64,
                         createWithdraw: (string, string, Fixed64, string) -> Result<Option<Transaction>, string>)
      returns (withdraws: seq<WithdrawInfo>, proposals: seq<Transaction>, err: Option<SideChainError>)
      requires rate != 0
      requires toTransaction(txinfo).Ok? ==> IndicesInRange(toTransaction(txinfo).value)
      ensures toTransaction(txinfo).Err? ==> proposals == [] && err == Some(Failed(toTransaction(txinfo).error))
      ensures toTransaction(txinfo).Ok? && !toTransaction(txinfo).value.payload.TransferCrossChainAssetPayload? ==>
                proposals == [] && err == Some(InvalidPayload)
      ensures toTransaction(txinfo).Ok? && toTransaction(txinfo).value.payload.TransferCrossChainAssetPayload? ==>
                var txn := toTransaction(txinfo).value;
                && ListsTransfers(withdraws, txn.payload.addressesMap, txn.outputs)
                && (proposals, err) == ProposeAll(withdraws, key, txinfo.hash, rate, createWithdraw)
    {
      withdraws, proposals := [], [];
      var converted := toTransaction(txinfo);
      if converted.Err? {
        return withdraws, proposals, Some(Failed(converted.error));
      }
      var parsed := ParseUserWithdrawTransactionInfo(converted.value);
      if parsed.Err? {
        return withdraws, proposals, Some(parsed.error);
      }
      withdraws := parsed.value;
      err := None;
      var i := 0;
      assert withdraws[i..] == withdraws;
      assert [] + ProposeAll(withdraws, key, txinfo.hash, rate, createWithdraw).0
             == ProposeAll(withdraws, key, txinfo.hash, rate, createWithdraw).0;
      while i < |withdraws|
        invariant 0 <= i <= |withdraws|
        invariant ProposeAll(withdraws, key, txinfo.hash, rate, createWithdraw)
                  == Prefixed(proposals, ProposeAll(withdraws[i..], key, txinfo.hash, rate, createWithdraw))
      {
        var withdrawTransaction := createWithdraw(key, withdraws[i].targetAddress, ConvertAmount(withdraws[i].amount, rate), txinfo.hash);
        ProposeAllAt(withdraws, i, key, txinfo.hash, rate, createWithdraw, proposals);
        if withdrawTransaction.Err? {
          return withdraws, proposals, Some(Failed(withdrawTransaction.error));
        }
        if withdrawTransaction.value.None? {
          return withdraws, proposals, Some(EmptyWithdrawTransaction);
        }
        proposals := proposals + [withdrawTransaction.value.value];
        i := i + 1;
      }
      assert withdraws[i..] == [];
      assert proposals + [] == proposals;
    }

    /**
     * CreateDepositTransaction: an IssueToken transaction paying `amount` of the system
     * asset to `target`, carrying the hex of the serialized SPV proof and a Nonce attribute;
     * a proof that cannot be serialized gives no transaction.
     */
    function CreateDepositTransaction(target: string, serializedProof: Option<seq<byte>>, amount: Fixed64,
                                      nonce: nat, systemAssetId: string): (r: Result<TransactionInfo, SideChainError>)
      ensures serializedProof.None? <==> r == Err(ProofSerializeFailed)
      ensures r.Ok? ==>
                var tx := r.value;
                && tx.txType == IssueToken && tx.lockTime == 0
                && tx.outputs == [TxoutputInfo(systemAssetId, amount, target, 0)]
                && tx.utxoInputs == [] && tx.balanceInputs == []
                && tx.programs == [ProgramInfo("", "")]
                && |tx.attributes| == 1 && tx.attributes[0].usage == Nonce
                && tx.payload.IssueTokenInfo?
    {
      match serializedProof
      case None => Err(ProofSerializeFailed)
      case Some(proofBytes) =>
        Ok(TransactionInfo(
          IssueToken,
          IssueTokenInfo(BytesToHex(proofBytes)),
          [TxAttributeInfo(Nonce, FormatDecimal(nonce))],
          [],
          [],
          [TxoutputInfo(systemAssetId, amount, target, 0)],
          [ProgramInfo("", "")],
          0,
          ""))
    }
  }

  /**
   * A deposit transaction gives back what went into it: the payload proof decodes to the
   * serialized proof, and the Nonce attribute reads back as the nonce.
   */
  lemma DepositRoundTrip(side: SideChainImpl, target: string, proofBytes: seq<byte>, amount: Fixed64,
                         nonce: nat, systemAssetId: string)
    ensures var r := side.CreateDepositTransaction(target, Some(proofBytes), amount, nonce, systemAssetId);
            && r.Ok?
            && HexToBytes(r.value.payload.proof) == Some(proofBytes)
            && ParseDecimal(r.value.attributes[0].data) == Some(nonce)
  {
    HexRoundTrip(proofBytes);
    DecimalRoundTrip(nonce);
  }
}
