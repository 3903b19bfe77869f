/**
 * The multi-signature envelope (DistributedItem): a transaction to be signed by the
 * arbitrators, the cross-chain multi-sign redeem script naming the signers, and the
 * signed data collected so far, a nil slice, one length-prefixed signature record
 * (the proposer's) or two (the proposer's and the on-duty arbitrator's feedback).
 */
module DistributedItems {
  import opened Common
  import opened Arithmetic
  import opened Serialization
  import opened Crypto
  import opened Types

  /** Largest redeem script Deserialize accepts. */
  const MaxReedemScriptDataSize: nat := 1000

  /** Length of one public-key record inside a multi-sign redeem script. */
  const KeyRecordLength: Pos := PublicKeyScriptLength - 1

  /** Largest signed data Deserialize accepts: two signature records. */
  const MaxSignedDataSize: nat := 2 * SignatureScriptLength

  datatype SignError =
    | ScriptTooShort             // "not a valid multi sign transaction item.redeemScript, length not enough"
    | ScriptKeysMisaligned       // "not a valid multi sign transaction item.redeemScript, length not match"
    | NilSignerProgramHash       // a signer hash that failed to derive is dereferenced (a Go panic)
    | PublicKeyEncodingFailed    // EncodePoint of the caller's key failed
    | ProgramHashFailed          // PublicKeyToStandardProgramHash of the caller's key failed
    | InvalidSigner              // "Invalid multi sign signer"
    | SerializeUnsignedFailed    // SerializeUnsigned of the content failed
    | SigningFailed              // the arbitrator's Sign failed
    | NotNullTransaction         // "Can not sign a not-null trasaction."
    | InvalidSignData            // "Invalid sign data."
    | InvalidPayloadType         // "Invalid payload type."
    | GroupInfoUnavailable       // GetArbitratorGroupInfoByHeight failed
    | OnDutyIndexOutOfRange      // OnDutyArbitratorIndex outside Arbitrators (an index panic in Go)
    | OnDutyKeyUnreadable        // PublicKeyFromString of the on-duty arbitrator failed
    | NilTargetKey               // a nil target key is compared with the on-duty key (a Go panic)
    | NotOnDutySigning           // "Can not sign without current arbitrator's signing." (target is not on duty)
    | FirstSignatureInvalid      // "Can not sign without current arbitrator's signing." (verification failed)
    | RedeemScriptCreationFailed // CreateRedeemScript failed

  datatype FeedbackError =
    | InvalidFeedbackSignedData  // "ParseFeedbackSignedData invalid sign data."
    | FeedbackSerializeFailed    // SerializeUnsigned of the content failed

  /** The field whose decoding failed, in the order Deserialize reads them. */
  datatype DecodeError = KeyUnreadable | ProgramHashUnreadable | ContentUnreadable | RedeemScriptUnreadable | SignedDataUnreadable

  /** An arbitrator as the envelope sees it: its public key and its signing operation. */
  datatype Arbitrator = Arbitrator(publicKey: PublicKey, sign: seq<byte> -> Option<seq<byte>>)

  /** The collaborators signing depends on: crypto, the transaction codec and the group-info lookup by height. */
  datatype SignContext = SignContext(
    crypto: CryptoSuite,
    codec: TxCodec,
    groupInfoByHeight: uint32 -> Option<ArbitratorGroupInfo>)

  // ---------------------------------------------------------------------------
  // Redeem-script parsing
  // ---------------------------------------------------------------------------

  function Flatten(chunks: seq<seq<byte>>): seq<byte>
  {
    if chunks == [] then [] else chunks[0] + Flatten(chunks[1..])
  }

  /** Consecutive k-byte records of s, as far as whole records go. */
  function Chunks(s: seq<byte>, k: Pos): (r: seq<seq<byte>>)
    ensures forall i :: 0 <= i < |r| ==> |r[i]| == k
    decreases |s|
  {
    if |s| < k then [] else [s[..k]] + Chunks(s[k..], k)
  }

  /** When k divides |s|, the records cover s exactly and there are |s| / k of them. */
  lemma {:induction false} ChunksOfMultiple(s: seq<byte>, k: Pos)
    requires |s| % k == 0
    ensures Flatten(Chunks(s, k)) == s
    ensures |Chunks(s, k)| == |s| / k
  {
    MultipleFacts(|s|, k);
    if |s| >= k {
      ChunksOfMultiple(s[k..], k);
      assert Chunks(s, k)[1..] == Chunks(s[k..], k);
      assert s[..k] + s[k..] == s;
    }
  }

  /** One step of cutting records: the first record at i, then the records after it; none at the end. */
  lemma ChunksStep(s: seq<byte>, i: nat, k: Pos)
    requires i <= |s| && (|s| - i) % k == 0
    ensures i == |s| ==> Chunks(s[i..], k) == []
    ensures i < |s| ==> i + k <= |s| && (|s| - (i + k)) % k == 0
                        && Chunks(s[i..], k) == [s[i .. i + k]] + Chunks(s[i + k..], k)
  {
    MultipleFacts(|s| - i, k);
    if i < |s| {
      assert s[i..][k..] == s[i + k..];
      assert s[i..][..k] == s[i .. i + k];
    }
  }

  /** The record loop of getMultiSignPublicKeys: cuts a body of whole records into its records, in order. */
  method CutKeyRecords(script: seq<byte>) returns (publicKeys: seq<seq<byte>>)
    requires |script| % KeyRecordLength == 0
    ensures publicKeys == Chunks(script, KeyRecordLength)
  {
    publicKeys := [];
    var i := 0;
    CutStart(script, KeyRecordLength);
    while i < |script|
      invariant 0 <= i <= |script|
      invariant (|script| - i) % KeyRecordLength == 0
      invariant publicKeys + Chunks(script[i..], KeyRecordLength) == Chunks(script, KeyRecordLength)
    {
      CutStep(script, i, KeyRecordLength, publicKeys);
      var key := script[i .. i + KeyRecordLength];
      i := i + KeyRecordLength;
      publicKeys := publicKeys + [key];
    }
    CutDone(script, i, KeyRecordLength, publicKeys);
  }

  /** Before the first record nothing has been found, and all the records lie ahead. */
  lemma CutStart(s: seq<byte>, k: Pos)
    ensures [] + Chunks(s[0..], k) == Chunks(s, k)
  {
    assert s[0..] == s;
  }

  /** At the end of a body of whole records, the records found are all the records. */
  lemma CutDone(s: seq<byte>, i: nat, k: Pos, found: seq<seq<byte>>)
    requires i == |s|
    requires found + Chunks(s[i..], k) == Chunks(s, k)
    ensures found == Chunks(s, k)
  {
    assert s[i..] == [];
    assert found + [] == found;
  }

  /** Cutting the record at i keeps the records found so far a prefix of all the records. */
  lemma CutStep(s: seq<byte>, i: nat, k: Pos, found: seq<seq<byte>>)
    requires i < |s| && (|s| - i) % k == 0
    requires found + Chunks(s[i..], k) == Chunks(s, k)
    ensures i + k <= |s| && (|s| - (i + k)) % k == 0
    ensures (found + [s[i .. i + k]]) + Chunks(s[i + k..], k) == Chunks(s, k)
  {
    ChunksStep(s, i, k);
    var after := Chunks(s[i + k..], k);
    assert (found + [s[i .. i + k]]) + after == found + ([s[i .. i + k]] + after);
  }

  /**
   * getMultiSignPublicKeys: the key records of a cross-chain multi-sign redeem script.
   * The script must be long enough and end in the CROSSCHAIN marker; with the marker,
   * the M byte and the N byte stripped, the rest must split into whole key records.
   */
  function MultiSignPublicKeys(script: seq<byte>): (r: Result<seq<seq<byte>>, SignError>)
    ensures r == Err(ScriptTooShort) <==>
              |script| < MinMultiSignCodeLength || script[|script| - 1] != CROSSCHAIN
    ensures r == Err(ScriptKeysMisaligned) <==>
              |script| >= MinMultiSignCodeLength && script[|script| - 1] == CROSSCHAIN
              && (|script| - 3) % KeyRecordLength != 0
    ensures r.Ok? || r == Err(ScriptTooShort) || r == Err(ScriptKeysMisaligned)
    ensures r.Ok? ==> |r.value| == (|script| - 3) / KeyRecordLength
    ensures r.Ok? ==> forall i :: 0 <= i < |r.value| ==> |r.value[i]| == KeyRecordLength
    ensures r.Ok? ==> Flatten(r.value) == script[1 .. |script| - 2]
  {
    if |script| < MinMultiSignCodeLength || script[|script| - 1] != CROSSCHAIN then Err(ScriptTooShort)
    else
      var body := script[1 .. |script| - 2];
      if |body| % KeyRecordLength != 0 then Err(ScriptKeysMisaligned)
      else
        ChunksOfMultiple(body, KeyRecordLength);
        Ok(Chunks(body, KeyRecordLength))
  }

  /** getMultiSignSigners: the program hash of each key record, in order, with the STANDARD marker appended. */
  function MultiSignSigners(keys: seq<seq<byte>>, crypto: CryptoSuite): (r: seq<Option<Uint168>>)
    ensures |r| == |keys|
    ensures forall i :: 0 <= i < |keys| ==> r[i] == crypto.toProgramHash(keys[i] + [STANDARD])
  {
    seq(|keys|, i requires 0 <= i < |keys| => crypto.toProgramHash(keys[i] + [STANDARD]))
  }

  /** The caller's program hash, derived from its compressed public key. */
  function CallerProgramHash(key: PublicKey, crypto: CryptoSuite): (r: Option<Uint168>)
    ensures r.Some? ==> crypto.encodePoint(key).Some? && r == crypto.toProgramHash(crypto.encodePoint(key).value)
    ensures crypto.encodePoint(key).None? ==> r.None?
  {
    match crypto.encodePoint(key)
    case None => None
    case Some(pk) => crypto.toProgramHash(pk)
  }

  /** The holder of `key` is one of the signers the redeem script names. */
  ghost predicate IsSigner(script: seq<byte>, key: PublicKey, crypto: CryptoSuite)
  {
    && MultiSignPublicKeys(script).Ok?
    && CallerProgramHash(key, crypto).Some?
    && CallerProgramHash(key, crypto) in MultiSignSigners(MultiSignPublicKeys(script).value, crypto)
  }

  /**
   * The signer loop of Sign: the last position whose program hash equals the caller's.
   * Every entry is compared, so a hash that failed to derive is always reached (a nil
   * dereference in Go) before the loop can end.
   */
  method FindSigner(signers: seq<Option<Uint168>>, user: Uint168) returns (r: Result<nat, SignError>)
    ensures None in signers ==> r == Err(NilSignerProgramHash)
    ensures None !in signers && Some(user) !in signers ==> r == Err(InvalidSigner)
    ensures r.Ok? <==> None !in signers && Some(user) in signers
    ensures r.Ok? ==> r.value < |signers| && signers[r.value] == Some(user)
                      && forall j :: r.value < j < |signers| ==> signers[j] != Some(user)
  {
    var signerIndex := -1;
    for i := 0 to |signers|
      invariant None !in signers[..i]
      invariant -1 <= signerIndex < i
      invariant signerIndex >= 0 ==> signers[signerIndex] == Some(user)
      invariant forall j :: signerIndex < j < i ==> signers[j] != Some(user)
    {
      if signers[i].None? {
        assert signers[i] == None;
        return Err(NilSignerProgramHash);
      }
      if signers[i] == Some(user) {
        signerIndex := i;
      }
    }
    assert signers[..|signers|] == signers;
    if signerIndex == -1 {
      return Err(InvalidSigner);
    }
    r := Ok(signerIndex);
  }

  // ---------------------------------------------------------------------------
  // Signature collection
  // ---------------------------------------------------------------------------

  /** One signature record: the signature's length as a byte (truncated, as Go's byte() does), then the signature. */
  function SignatureRecord(signature: seq<byte>): (r: seq<byte>)
    ensures |r| == 1 + |signature| && r[1..] == signature
  {
    [|signature| % 256] + signature
  }

  /**
   * The conditions a feedback signature needs: exactly one record present, a withdraw
   * payload, group information at the payload's height whose on-duty index names one of
   * its arbitrators, the envelope's target being that on-duty arbitrator, and the first
   * signature verifying under the target.
   */
  ghost predicate FeedbackAccepted(signedData: Option<seq<byte>>, target: PublicKey, content: Transaction, ctx: SignContext)
    : (r: bool)
    ensures r ==> signedData.Some? && |signedData.value| == SignatureScriptLength
  {
    var data := Bytes(signedData);
    && |data| == SignatureScriptLength
    && content.payload.WithdrawFromSideChainPayload?
    && ctx.groupInfoByHeight(content.payload.blockHeight).Some?
    && var g := ctx.groupInfoByHeight(content.payload.blockHeight).value;
    && 0 <= g.onDutyArbitratorIndex < |g.arbitrators|
    && ctx.crypto.publicKeyFromString(g.arbitrators[g.onDutyArbitratorIndex]) == Some(target)
    && ctx.codec.serializeUnsigned(content).Some?
    && ctx.crypto.verify(target, ctx.codec.serializeUnsigned(content).value, data[1..])
  }

  /**
   * appendSignature: the signed data after adding `signature`, or the reason it is refused.
   * A proposer signature needs nil signed data; a feedback signature needs FeedbackAccepted.
   */
  function AppendSignature(signedData: Option<seq<byte>>, signature: seq<byte>, isFeedback: bool,
                           target: Option<PublicKey>, content: Transaction, ctx: SignContext): (r: Result<seq<byte>, SignError>)
    ensures !isFeedback ==> (r.Ok? <==> signedData.None?)
    ensures !isFeedback && signedData.Some? ==> r == Err(NotNullTransaction)
    ensures isFeedback ==> (r.Ok? <==> target.Some? && FeedbackAccepted(signedData, target.value, content, ctx))
    ensures isFeedback && |Bytes(signedData)| != SignatureScriptLength ==> r == Err(InvalidSignData)
    ensures isFeedback && |Bytes(signedData)| == SignatureScriptLength && content.payload.WithdrawFromSideChainPayload?
            && ctx.groupInfoByHeight(content.payload.blockHeight).Some?
            && (var g := ctx.groupInfoByHeight(content.payload.blockHeight).value;
                0 <= g.onDutyArbitratorIndex < |g.arbitrators| &&
                var onDuty := ctx.crypto.publicKeyFromString(g.arbitrators[g.onDutyArbitratorIndex]);
                onDuty.Some? && target.Some? && onDuty != target)
            ==> r == Err(NotOnDutySigning)
    ensures isFeedback && |Bytes(signedData)| == SignatureScriptLength && content.payload.WithdrawFromSideChainPayload?
            && ctx.groupInfoByHeight(content.payload.blockHeight).Some?
            && (var g := ctx.groupInfoByHeight(content.payload.blockHeight).value;
                0 <= g.onDutyArbitratorIndex < |g.arbitrators| &&
                ctx.crypto.publicKeyFromString(g.arbitrators[g.onDutyArbitratorIndex]).Some?)
            && target.None?
            ==> r == Err(NilTargetKey)
    ensures isFeedback && |Bytes(signedData)| == SignatureScriptLength && content.payload.WithdrawFromSideChainPayload?
            && ctx.groupInfoByHeight(content.payload.blockHeight).Some?
            && (var g := ctx.groupInfoByHeight(content.payload.blockHeight).value;
                !(0 <= g.onDutyArbitratorIndex < |g.arbitrators|))
            ==> r == Err(OnDutyIndexOutOfRange)
    ensures r.Ok? ==> r.value == Bytes(signedData) + SignatureRecord(signature)
  {
    var record := SignatureRecord(signature);
    if !isFeedback then
      if signedData.None? then Ok(record) else Err(NotNullTransaction)
    else
      var data := Bytes(signedData);
      if |data| != SignatureScriptLength then Err(InvalidSignData)
      else if !content.payload.WithdrawFromSideChainPayload? then Err(InvalidPayloadType)
      else
        match ctx.groupInfoByHeight(content.payload.blockHeight)
        case None => Err(GroupInfoUnavailable)
        case Some(g) =>
          if !(0 <= g.onDutyArbitratorIndex < |g.arbitrators|) then Err(OnDutyIndexOutOfRange)
          else
            match ctx.crypto.publicKeyFromString(g.arbitrators[g.onDutyArbitratorIndex])
            case None => Err(OnDutyKeyUnreadable)
            case Some(onDuty) =>
              if target.None? then Err(NilTargetKey)
              else if target.value != onDuty then Err(NotOnDutySigning)
              else
                match ctx.codec.serializeUnsigned(content)
                case None => Err(SerializeUnsignedFailed)
                case Some(unsigned) =>
                  if !ctx.crypto.verify(target.value, unsigned, data[1..]) then Err(FirstSignatureInvalid)
                  else Ok(data + record)
  }

  /**
   * Sign: the signed data after `arbitrator` signs, or the reason it cannot. It checks the
   * signer list first, then signs the unsigned transaction and appends the signature.
   */
  function SignOutcome(script: seq<byte>, signedData: Option<seq<byte>>, target: Option<PublicKey>,
                       content: Transaction, arbitrator: Arbitrator, isFeedback: bool, ctx: SignContext): (r: Result<seq<byte>, SignError>)
    ensures r.Ok? ==> IsSigner(script, arbitrator.publicKey, ctx.crypto)
    ensures MultiSignPublicKeys(script).Ok? && CallerProgramHash(arbitrator.publicKey, ctx.crypto).Some?
            && None !in MultiSignSigners(MultiSignPublicKeys(script).value, ctx.crypto)
            && !IsSigner(script, arbitrator.publicKey, ctx.crypto)
            ==> r == Err(InvalidSigner)
    ensures r.Ok? ==> && ctx.codec.serializeUnsigned(content).Some?
                      && arbitrator.sign(ctx.codec.serializeUnsigned(content).value).Some?
                      && r == AppendSignature(signedData, arbitrator.sign(ctx.codec.serializeUnsigned(content).value).value,
                                              isFeedback, target, content, ctx)
    ensures && IsSigner(script, arbitrator.publicKey, ctx.crypto)
            && None !in MultiSignSigners(MultiSignPublicKeys(script).value, ctx.crypto)
            && ctx.codec.serializeUnsigned(content).Some?
            && arbitrator.sign(ctx.codec.serializeUnsigned(content).value).Some?
            ==> r == AppendSignature(signedData, arbitrator.sign(ctx.codec.serializeUnsigned(content).value).value,
                                     isFeedback, target, content, ctx)
  {
    match MultiSignPublicKeys(script)
    case Err(e) => Err(e)
    case Ok(keys) =>
      var signers := MultiSignSigners(keys, ctx.crypto);
      match ctx.crypto.encodePoint(arbitrator.publicKey)
      case None => Err(PublicKeyEncodingFailed)
      case Some(pk) =>
        match ctx.crypto.toProgramHash(pk)
        case None => Err(ProgramHashFailed)
        case Some(user) =>
          if None in signers then Err(NilSignerProgramHash)
          else if Some(user) !in signers then Err(InvalidSigner)
          else
            match ctx.codec.serializeUnsigned(content)
            case None => Err(SerializeUnsignedFailed)
            case Some(unsigned) =>
              match arbitrator.sign(unsigned)
              case None => Err(SigningFailed)
              case Some(signature) => AppendSignature(signedData, signature, isFeedback, target, content, ctx)
  }

  /** Signed data of zero, one or two records: the only lengths Sign produces from signatures of record size. */
  ghost predicate WellFormedSignedData(signedData: Option<seq<byte>>)
  {
    signedData.None? || |signedData.value| == SignatureScriptLength || |signedData.value| == 2 * SignatureScriptLength
  }

  /**
   * With record-sized signatures, appending keeps the signed data well formed and adds
   * exactly one record: nil becomes one record, one record becomes two, and two records
   * accept nothing more.
   */
  lemma AppendKeepsWellFormed(signedData: Option<seq<byte>>, signature: seq<byte>, isFeedback: bool,
                              target: Option<PublicKey>, content: Transaction, ctx: SignContext)
    requires WellFormedSignedData(signedData)
    requires |signature| == SignatureScriptLength - 1
    ensures var r := AppendSignature(signedData, signature, isFeedback, target, content, ctx);
            r.Ok? ==> WellFormedSignedData(Some(r.value))
                      && |r.value| == |Bytes(signedData)| + SignatureScriptLength
                      && (signedData.None? || |signedData.value| == SignatureScriptLength)
  {
  }

  /**
   * Scenario: a proposer signature on fresh data gives one record, the feedback gives a
   * second, after which a proposer signature is refused as not-null and a feedback as invalid.
   */
  lemma TwoPhaseSigning(sig1: seq<byte>, sig2: seq<byte>, sig3: seq<byte>,
                                           target: PublicKey, content: Transaction, ctx: SignContext)
    requires |sig1| == SignatureScriptLength - 1
    requires FeedbackAccepted(Some(SignatureRecord(sig1)), target, content, ctx)
    ensures AppendSignature(None, sig1, false, Some(target), content, ctx) == Ok(SignatureRecord(sig1))
    ensures var two := SignatureRecord(sig1) + SignatureRecord(sig2);
            && AppendSignature(Some(SignatureRecord(sig1)), sig2, true, Some(target), content, ctx) == Ok(two)
            && AppendSignature(Some(SignatureRecord(sig1)), sig3, false, Some(target), content, ctx) == Err(NotNullTransaction)
            && AppendSignature(Some(two), sig3, false, Some(target), content, ctx) == Err(NotNullTransaction)
            && (|sig2| == SignatureScriptLength - 1 ==>
                  AppendSignature(Some(two), sig3, true, Some(target), content, ctx) == Err(InvalidSignData))
  {
  }

  // ---------------------------------------------------------------------------
  // Completion predicates
  // ---------------------------------------------------------------------------

  /** IsFeedback on a signed-data length: integer division by the record length gives 2. */
  function IsFeedbackLength(n: nat): (r: bool)
    ensures r <==> 2 * SignatureScriptLength <= n < 3 * SignatureScriptLength
  {
    DivRange(n, SignatureScriptLength, 2);
    n / SignatureScriptLength == 2
  }

  // ---------------------------------------------------------------------------
  // Wire encoding
  // ---------------------------------------------------------------------------

  /**
   * The wire form of an envelope: var-bytes target key, the 21-byte target program hash,
   * the native transaction, var-bytes redeem script and var-bytes signed data.
   */
  function EncodeItem(keyBytes: seq<byte>, programHash: Uint168, content: Transaction,
                      redeemScript: seq<byte>, signedData: seq<byte>, codec: TxCodec): (r: seq<byte>)
    ensures var fields := |keyBytes| + 21 + |codec.serialize(content)| + |redeemScript| + |signedData|;
            fields + 3 <= |r| <= fields + 27
  {
    WriteVarBytes(keyBytes) + programHash + codec.serialize(content)
    + (WriteVarBytes(redeemScript) + WriteVarBytes(signedData))
  }

  /**
   * What Deserialize assigns, field by field: `stage` counts the fields read before the
   * first failure; fields past a failure hold placeholders that Deserialize never stores.
   */
  datatype Decoded = Decoded(stage: nat, key: Option<PublicKey>, programHash: Uint168,
                             content: Option<Transaction>, redeemScript: seq<byte>, signedData: seq<byte>)

  /** The error Deserialize reports when it stops after `stage` fields. */
  function StageError(stage: nat): DecodeError
    requires stage < 5
  {
    [KeyUnreadable, ProgramHashUnreadable, ContentUnreadable, RedeemScriptUnreadable, SignedDataUnreadable][stage]
  }

  /**
   * Deserialize as a function of its input. A redeem script over 1000 bytes or signed data
   * over two records stops decoding at that field.
   */
  function DecodeItem(data: seq<byte>, crypto: CryptoSuite, codec: TxCodec): (d: Decoded)
    ensures d.stage <= 5
    ensures d.stage == 5 ==> |d.redeemScript| <= MaxReedemScriptDataSize && |d.signedData| <= MaxSignedDataSize
    ensures d.stage >= 1 ==> ReadVarBytes(data, 0, PublicKeyScriptLength).Ok?
                             && d.key == crypto.decodePoint(ReadVarBytes(data, 0, PublicKeyScriptLength).value.0)
  {
    match ReadVarBytes(data, 0, PublicKeyScriptLength)
    case Err(_) => Decoded(0, None, ZeroUint168, None, [], [])
    case Ok((keyBytes, afterKey)) => DecodeFromHash(data, afterKey, crypto.decodePoint(keyBytes), codec)
  }

  /** Deserialize after the key: the program hash, the transaction, then the trailer. */
  function DecodeFromHash(data: seq<byte>, pos: nat, key: Option<PublicKey>, codec: TxCodec): (d: Decoded)
    ensures 1 <= d.stage <= 5 && d.key == key
    ensures d.stage == 5 ==> |d.redeemScript| <= MaxReedemScriptDataSize && |d.signedData| <= MaxSignedDataSize
  {
    if pos + 21 > |data| then Decoded(1, key, ZeroUint168, None, [], [])
    else
      var programHash := data[pos .. pos + 21];
      match codec.deserialize(data, pos + 21)
      case None => Decoded(2, key, programHash, None, [], [])
      case Some((content, afterContent)) => DecodeTrailer(data, afterContent, key, programHash, content)
  }

  /** Deserialize after the transaction: the redeem script, then the signed data, each bounded. */
  function DecodeTrailer(data: seq<byte>, pos: nat, key: Option<PublicKey>, programHash: Uint168,
                         content: Transaction): (d: Decoded)
    ensures 3 <= d.stage <= 5
    ensures d.key == key && d.programHash == programHash && d.content == Some(content)
    ensures d.stage == 5 ==> |d.redeemScript| <= MaxReedemScriptDataSize && |d.signedData| <= MaxSignedDataSize
  {
    match ReadVarBytes(data, pos, MaxReedemScriptDataSize)
    case Err(_) => Decoded(3, key, programHash, Some(content), [], [])
    case Ok((script, afterScript)) =>
      match ReadVarBytes(data, afterScript, MaxSignedDataSize)
      case Err(_) => Decoded(4, key, programHash, Some(content), script, [])
      case Ok((signed, _)) => Decoded(5, key, programHash, Some(content), script, signed)
  }

  /** How far decoding an encoded envelope gets: it stops at the first field over its bound. */
  function ExpectedStage(redeemScript: seq<byte>, signedData: seq<byte>): nat
  {
    if |redeemScript| > MaxReedemScriptDataSize then 3
    else if |signedData| > MaxSignedDataSize then 4
    else 5
  }

  /** The decoder's view of an encoded envelope whose key encodes and decodes faithfully. */
  ghost predicate KeyRoundTrips(key: PublicKey, crypto: CryptoSuite)
  {
    && crypto.encodePoint(key).Some?
    && |crypto.encodePoint(key).value| <= PublicKeyScriptLength
    && crypto.decodePoint(crypto.encodePoint(key).value) == Some(key)
  }

  /** The trailer decodes to what was written, or stops at the first field over its bound. */
  lemma TrailerDecode(pre: seq<byte>, key: Option<PublicKey>, programHash: Uint168, content: Transaction,
                      redeemScript: seq<byte>, signedData: seq<byte>)
    requires |redeemScript| < UINT64_LIMIT && |signedData| < UINT64_LIMIT
    ensures var d := DecodeTrailer(pre + (WriteVarBytes(redeemScript) + WriteVarBytes(signedData)), |pre|, key, programHash, content);
            && d.stage == ExpectedStage(redeemScript, signedData)
            && (d.stage >= 4 ==> d.redeemScript == redeemScript)
            && (d.stage == 5 ==> d.signedData == signedData)
  {
    var d, e := WriteVarBytes(redeemScript), WriteVarBytes(signedData);
    assert pre + (d + e) == pre + d + e == (pre + d) + e + [];
    if |redeemScript| > MaxReedemScriptDataSize {
      VarBytesRejectsOverMax(redeemScript, pre, e, MaxReedemScriptDataSize);
    } else {
      VarBytesRoundTrip(redeemScript, pre, e, MaxReedemScriptDataSize);
      if |signedData| > MaxSignedDataSize {
        VarBytesRejectsOverMax(signedData, pre + d, [], MaxSignedDataSize);
      } else {
        VarBytesRoundTrip(signedData, pre + d, [], MaxSignedDataSize);
      }
    }
  }

  /** Reading the hash and the transaction of an encoded envelope lands on its trailer. */
  lemma FromHashStep(pre: seq<byte>, key: Option<PublicKey>, programHash: Uint168, content: Transaction,
                     trailer: seq<byte>, codec: TxCodec)
    requires codec.deserialize(pre + programHash + codec.serialize(content) + trailer, |pre + programHash|)
             == Some((content, |pre + programHash| + |codec.serialize(content)|))
    ensures var s := pre + programHash + codec.serialize(content) + trailer;
            DecodeFromHash(s, |pre|, key, codec)
            == DecodeTrailer(s, |pre + programHash + codec.serialize(content)|, key, programHash, content)
  {
    var s := pre + programHash + codec.serialize(content) + trailer;
    assert s[|pre| .. |pre| + 21] == programHash by {
      assert s == pre + (programHash + (codec.serialize(content) + trailer));
    }
  }

  /** Everything after the key decodes to what was written, up to the first field over its bound. */
  lemma FromHashDecode(pre: seq<byte>, key: Option<PublicKey>, programHash: Uint168, content: Transaction,
                       redeemScript: seq<byte>, signedData: seq<byte>, codec: TxCodec)
    requires SelfDelimiting(codec)
    requires |redeemScript| < UINT64_LIMIT && |signedData| < UINT64_LIMIT
    ensures var s := pre + programHash + codec.serialize(content) + (WriteVarBytes(redeemScript) + WriteVarBytes(signedData));
            var d := DecodeFromHash(s, |pre|, key, codec);
            && d.stage == ExpectedStage(redeemScript, signedData)
            && d.key == key && d.programHash == programHash && d.content == Some(content)
            && (d.stage >= 4 ==> d.redeemScript == redeemScript)
            && (d.stage == 5 ==> d.signedData == signedData)
  {
    var trailer := WriteVarBytes(redeemScript) + WriteVarBytes(signedData);
    assert codec.deserialize(pre + programHash + codec.serialize(content) + trailer, |pre + programHash|)
           == Some((content, |pre + programHash| + |codec.serialize(content)|));
    FromHashStep(pre, key, programHash, content, trailer, codec);
    TrailerDecode(pre + programHash + codec.serialize(content), key, programHash, content, redeemScript, signedData);
  }

  /** Reading the key of an encoded envelope lands on its program hash. */
  lemma KeyStep(key: PublicKey, programHash: Uint168, c: seq<byte>, trailer: seq<byte>, crypto: CryptoSuite, codec: TxCodec)
    requires KeyRoundTrips(key, crypto)
    ensures var a := WriteVarBytes(crypto.encodePoint(key).value);
            var s := a + programHash + c + trailer;
            DecodeItem(s, crypto, codec) == DecodeFromHash(s, |a|, Some(key), codec)
  {
    var keyBytes := crypto.encodePoint(key).value;
    var a := WriteVarBytes(keyBytes);
    var rest := programHash + c + trailer;
    var s := a + programHash + c + trailer;
    assert s == a + rest;
    assert [] + a == a;
    VarBytesRoundTrip(keyBytes, [], rest, PublicKeyScriptLength);
    assert ReadVarBytes(s, 0, PublicKeyScriptLength) == Ok((keyBytes, |a|));
  }

  /**
   * Deserialize inverts Serialize: when the key round-trips and the transaction codec is
   * self-delimiting, decoding an encoded envelope gives every field back, except that a
   * redeem script over 1000 bytes or signed data over two records is refused.
   */
  lemma ItemDecodesEncoding(key: PublicKey, programHash: Uint168, content: Transaction,
                            redeemScript: seq<byte>, signedData: seq<byte>, crypto: CryptoSuite, codec: TxCodec)
    requires KeyRoundTrips(key, crypto)
    requires SelfDelimiting(codec)
    requires |redeemScript| < UINT64_LIMIT && |signedData| < UINT64_LIMIT
    ensures var d := DecodeItem(EncodeItem(crypto.encodePoint(key).value, programHash, content, redeemScript, signedData, codec), crypto, codec);
            && d.stage == ExpectedStage(redeemScript, signedData)
            && d.key == Some(key) && d.programHash == programHash && d.content == Some(content)
            && (d.stage == 5 <==> |redeemScript| <= MaxReedemScriptDataSize && |signedData| <= MaxSignedDataSize)
            && (d.stage == 5 ==> d == Decoded(5, Some(key), programHash, Some(content), redeemScript, signedData))
  {
    var a := WriteVarBytes(crypto.encodePoint(key).value);
    KeyStep(key, programHash, codec.serialize(content), WriteVarBytes(redeemScript) + WriteVarBytes(signedData), crypto, codec);
    FromHashDecode(a, Some(key), programHash, content, redeemScript, signedData, codec);
  }

  /** ItemDecodesEncoding with its conditions as a premise, for use inside Serialize. */
  lemma ItemRoundTripWithin(key: PublicKey, programHash: Uint168, content: Transaction,
                            redeemScript: seq<byte>, signedData: seq<byte>, crypto: CryptoSuite, codec: TxCodec)
    ensures KeyRoundTrips(key, crypto) && SelfDelimiting(codec)
            && |redeemScript| <= MaxReedemScriptDataSize && |signedData| <= MaxSignedDataSize
            ==> DecodeItem(EncodeItem(crypto.encodePoint(key).value, programHash, content, redeemScript, signedData, codec), crypto, codec)
                == Decoded(5, Some(key), programHash, Some(content), redeemScript, signedData)
  {
    if KeyRoundTrips(key, crypto) && SelfDelimiting(codec)
       && |redeemScript| <= MaxReedemScriptDataSize && |signedData| <= MaxSignedDataSize {
      ItemDecodesEncoding(key, programHash, content, redeemScript, signedData, crypto, codec);
    }
  }

  // ---------------------------------------------------------------------------
  // The envelope
  // ---------------------------------------------------------------------------

  class DistributedItem {
    /** The arbitrator the feedback is for; nil after decoding an unreadable key. */
    var targetArbitratorPublicKey: Option<PublicKey>
    var targetArbitratorProgramHash: Uint168
    /** The transaction to be signed; None stands for a nil or partly decoded transaction. */
    var itemContent: Option<Transaction>
    var redeemScript: seq<byte>
    /** The collected signature records; None is a nil slice, distinct from an empty one. */
    var signedData: Option<seq<byte>>

    /** A fresh envelope for a transaction: no redeem script and nil signed data. */
    constructor (target: PublicKey, targetProgramHash: Uint168, content: Transaction)
      ensures targetArbitratorPublicKey == Some(target) && targetArbitratorProgramHash == targetProgramHash
      ensures itemContent == Some(content) && redeemScript == [] && signedData == None
    {
      targetArbitratorPublicKey := Some(target);
      targetArbitratorProgramHash := targetProgramHash;
      itemContent := Some(content);
      redeemScript := [];
      signedData := None;
    }

    function GetRedeemScript(): (r: seq<byte>)
      reads this
      ensures r == redeemScript
    {
      redeemScript
    }

    method SetRedeemScript(script: seq<byte>)
      modifies this`redeemScript
      ensures redeemScript == script
    {
      redeemScript := script;
    }

    /** InitScript: stores the redeem script CreateRedeemScript built, or reports its failure. */
    method InitScript(created: Option<seq<byte>>) returns (err: Option<SignError>)
      modifies this`redeemScript
      ensures created.Some? ==> err.None? && redeemScript == created.value
      ensures created.None? ==> err == Some(RedeemScriptCreationFailed) && redeemScript == old(redeemScript)
    {
      if created.None? {
        return Some(RedeemScriptCreationFailed);
      }
      SetRedeemScript(created.value);
      err := None;
    }

    function GetSignedData(): (r: Option<seq<byte>>)
      reads this
      ensures r == signedData
    {
      signedData
    }

    /** getMultiSignPublicKeys: strips the marker, M and N bytes and cuts the rest into key records. */
    method GetMultiSignPublicKeys() returns (r: Result<seq<seq<byte>>, SignError>)
      ensures r == MultiSignPublicKeys(redeemScript)
    {
      if |redeemScript| < MinMultiSignCodeLength || redeemScript[|redeemScript| - 1] != CROSSCHAIN {
        return Err(ScriptTooShort);
      }
      var script := redeemScript;
      script := script[..|script| - 1]; // the closing marker
      script := script[1..];            // M
      script := script[..|script| - 1]; // N
      assert script == redeemScript[1 .. |redeemScript| - 2];
      if |script| % KeyRecordLength != 0 {
        return Err(ScriptKeysMisaligned);
      }
      var publicKeys := CutKeyRecords(script);
      r := Ok(publicKeys);
    }

    /** getMultiSignSigners: one program hash per key record, in the records' order. */
    method GetMultiSignSigners(crypto: CryptoSuite) returns (r: Result<seq<Option<Uint168>>, SignError>)
      ensures MultiSignPublicKeys(redeemScript).Err? ==> r == Err(MultiSignPublicKeys(redeemScript).error)
      ensures MultiSignPublicKeys(redeemScript).Ok? ==>
                var keys := MultiSignPublicKeys(redeemScript).value;
                && r.Ok? && |r.value| == |keys|
                && forall i :: 0 <= i < |keys| ==> r.value[i] == crypto.toProgramHash(keys[i] + [STANDARD])
    {
      var scripts := GetMultiSignPublicKeys();
      if scripts.Err? {
        return Err(scripts.error);
      }
      var keys := scripts.value;
      var signers: seq<Option<Uint168>> := [];
      for i := 0 to |keys|
        invariant |signers| == i
        invariant forall j :: 0 <= j < i ==> signers[j] == crypto.toProgramHash(keys[j] + [STANDARD])
      {
        var script := keys[i] + [STANDARD];
        signers := signers + [crypto.toProgramHash(script)];
      }
      r := Ok(signers);
    }

    /**
     * Sign: checks that the arbitrator is one of the script's signers, signs the unsigned
     * transaction and appends the signature. On any failure the signed data is unchanged.
     */
    method Sign(arbitrator: Arbitrator, isFeedback: bool, ctx: SignContext) returns (err: Option<SignError>)
      requires itemContent.Some?
      modifies this`signedData
      ensures var r := SignOutcome(redeemScript, old(signedData), targetArbitratorPublicKey, itemContent.value,
                                   arbitrator, isFeedback, ctx);
              && (r.Ok? ==> err.None? && signedData == Some(r.value))
              && (r.Err? ==> err == Some(r.error) && signedData == old(signedData))
    {
      var programHashes := GetMultiSignSigners(ctx.crypto);
      if programHashes.Err? {
        return Some(programHashes.error);
      }
      var signers := programHashes.value;
      assert signers == MultiSignSigners(MultiSignPublicKeys(redeemScript).value, ctx.crypto);
      var pkBuf := ctx.crypto.encodePoint(arbitrator.publicKey);
      if pkBuf.None? {
        return Some(PublicKeyEncodingFailed);
      }
      var userProgramHash := ctx.crypto.toProgramHash(pkBuf.value);
      if userProgramHash.None? {
        return Some(ProgramHashFailed);
      }
      var found := FindSigner(signers, userProgramHash.value);
      if found.Err? {
        return Some(found.error);
      }
      var signerIndex := found.value;
      var buf := ctx.codec.serializeUnsigned(itemContent.value);
      if buf.None? {
        return Some(SerializeUnsignedFailed);
      }
      var newSign := arbitrator.sign(buf.value);
      if newSign.None? {
        return Some(SigningFailed);
      }
      err := AppendSignatureTo(signerIndex, newSign.value, isFeedback, ctx);
    }

    /**
     * appendSignature: the only write to the signed data. It stores
     * AppendSignature's result on success and leaves the signed data alone otherwise.
     */
    method AppendSignatureTo(signerIndex: int, signature: seq<byte>, isFeedback: bool, ctx: SignContext)
      returns (err: Option<SignError>)
      requires itemContent.Some?
      modifies this`signedData
      ensures var r := AppendSignature(old(signedData), signature, isFeedback, targetArbitratorPublicKey,
                                       itemContent.value, ctx);
              && (r.Ok? ==> err.None? && signedData == Some(r.value))
              && (r.Err? ==> err == Some(r.error) && signedData == old(signedData))
    {
      var newSign := SignatureRecord(signature);
      var data := signedData;
      if !isFeedback {
        if data.None? {
          data := Some([]);
        } else {
          return Some(NotNullTransaction);
        }
      } else {
        if |Bytes(data)| != SignatureScriptLength {
          return Some(InvalidSignData);
        }
        var sign := Bytes(data)[1..];
        var targetPk := targetArbitratorPublicKey;
        var content := itemContent.value;
        // isForComplain always answers false, so the on-duty check always runs
        if !content.payload.WithdrawFromSideChainPayload? {
          return Some(InvalidPayloadType);
        }
        var groupInfo := ctx.groupInfoByHeight(content.payload.blockHeight);
        if groupInfo.None? {
          return Some(GroupInfoUnavailable);
        }
        var g := groupInfo.value;
        if !(0 <= g.onDutyArbitratorIndex < |g.arbitrators|) {
          return Some(OnDutyIndexOutOfRange);
        }
        var onDutyArbitratorPk := ctx.crypto.publicKeyFromString(g.arbitrators[g.onDutyArbitratorIndex]);
        if onDutyArbitratorPk.None? {
          return Some(OnDutyKeyUnreadable);
        }
        if targetPk.None? {
          return Some(NilTargetKey);
        }
        if targetPk.value != onDutyArbitratorPk.value {
          return Some(NotOnDutySigning);
        }
        var buf := ctx.codec.serializeUnsigned(content);
        if buf.None? {
          return Some(SerializeUnsignedFailed);
        }
        if !ctx.crypto.verify(targetPk.value, buf.value, sign) {
          return Some(FirstSignatureInvalid);
        }
      }
      signedData := Some(Bytes(data) + newSign);
      err := None;
    }

    /** IsFeedback: the signed data holds two records, by integer division of its length. */
    function IsFeedback(): (r: bool)
      reads this
      ensures r <==> 2 * SignatureScriptLength <= |Bytes(signedData)| < 3 * SignatureScriptLength
    {
      IsFeedbackLength(|Bytes(signedData)|)
    }

    /**
     * ParseFeedbackSignedData: the second record, when the signed data is exactly two
     * records long and the second one's signature verifies under the target key.
     */
    function ParseFeedbackSignedData(ctx: SignContext): (r: Result<seq<byte>, FeedbackError>)
      reads this
      requires targetArbitratorPublicKey.Some? && itemContent.Some?
      ensures |Bytes(signedData)| != 2 * SignatureScriptLength ==> r == Err(InvalidFeedbackSignedData)
      ensures r.Ok? ==> IsFeedback()
      ensures r.Ok? ==> Bytes(signedData) == Bytes(signedData)[..SignatureScriptLength] + r.value
                        && |r.value| == SignatureScriptLength
      ensures r.Ok? <==> |Bytes(signedData)| == 2 * SignatureScriptLength
                         && ctx.codec.serializeUnsigned(itemContent.value).Some?
                         && ctx.crypto.verify(targetArbitratorPublicKey.value,
                                              ctx.codec.serializeUnsigned(itemContent.value).value,
                                              Bytes(signedData)[SignatureScriptLength + 1..])
    {
      var data := Bytes(signedData);
      if |data| != 2 * SignatureScriptLength then Err(InvalidFeedbackSignedData)
      else
        var sign := data[SignatureScriptLength..];
        match ctx.codec.serializeUnsigned(itemContent.value)
        case None => Err(FeedbackSerializeFailed)
        case Some(buf) =>
          if !ctx.crypto.verify(targetArbitratorPublicKey.value, buf, sign[1..]) then Err(InvalidFeedbackSignedData)
          else Ok(sign)
    }

    /**
     * Serialize: the wire form of the envelope. An unencodable key is written as empty bytes.
     * Within the decoding bounds, decoding the output gives every field back.
     */
    function Serialize(crypto: CryptoSuite, codec: TxCodec): (r: seq<byte>)
      reads this
      requires targetArbitratorPublicKey.Some? && itemContent.Some?
      ensures KeyRoundTrips(targetArbitratorPublicKey.value, crypto) && SelfDelimiting(codec)
              && |redeemScript| <= MaxReedemScriptDataSize && |Bytes(signedData)| <= MaxSignedDataSize
              ==> DecodeItem(r, crypto, codec)
                  == Decoded(5, targetArbitratorPublicKey, targetArbitratorProgramHash, itemContent,
                             redeemScript, Bytes(signedData))
    {
      var keyBytes := crypto.encodePoint(targetArbitratorPublicKey.value).GetOr([]);
      ItemRoundTripWithin(targetArbitratorPublicKey.value, targetArbitratorProgramHash, itemContent.value,
                          redeemScript, Bytes(signedData), crypto, codec);
      EncodeItem(keyBytes, targetArbitratorProgramHash, itemContent.value, redeemScript, Bytes(signedData), codec)
    }

    /**
     * Deserialize: reads the fields in wire order and stores each one as soon as it is read,
     * so a failure leaves the fields read before it updated. The program hash and the
     * content are reset before they are read.
     */
    method Deserialize(data: seq<byte>, crypto: CryptoSuite, codec: TxCodec) returns (err: Option<DecodeError>)
      modifies this
      ensures var d := DecodeItem(data, crypto, codec);
              && err == (if d.stage == 5 then None else Some(StageError(d.stage)))
              && targetArbitratorPublicKey == (if d.stage >= 1 then d.key else old(targetArbitratorPublicKey))
              && targetArbitratorProgramHash == (if d.stage >= 1 then d.programHash else old(targetArbitratorProgramHash))
              && itemContent == (if d.stage >= 2 then d.content else old(itemContent))
              && redeemScript == (if d.stage >= 4 then d.redeemScript else old(redeemScript))
              && signedData == (if d.stage == 5 then Some(d.signedData) else old(signedData))
    {
      var keyRead := ReadVarBytes(data, 0, PublicKeyScriptLength);
      if keyRead.Err? {
        return Some(KeyUnreadable);
      }
      var (publickeyBytes, afterKey) := keyRead.value;
      targetArbitratorPublicKey := crypto.decodePoint(publickeyBytes);
      err := ReadFromHash(data, afterKey, codec);
    }

    /** Deserialize after the key: the program hash, the transaction, then the trailer. */
    method ReadFromHash(data: seq<byte>, pos: nat, codec: TxCodec) returns (err: Option<DecodeError>)
      modifies this`targetArbitratorProgramHash, this`itemContent, this`redeemScript, this`signedData
      ensures var d := DecodeFromHash(data, pos, targetArbitratorPublicKey, codec);
              && err == (if d.stage == 5 then None else Some(StageError(d.stage)))
              && targetArbitratorProgramHash == d.programHash
              && itemContent == (if d.stage >= 2 then d.content else old(itemContent))
              && redeemScript == (if d.stage >= 4 then d.redeemScript else old(redeemScript))
              && signedData == (if d.stage == 5 then Some(d.signedData) else old(signedData))
    {
      targetArbitratorProgramHash := ZeroUint168;
      if pos + 21 > |data| {
        return Some(ProgramHashUnreadable);
      }
      targetArbitratorProgramHash := data[pos .. pos + 21];

      itemContent := None;
      var contentRead := codec.deserialize(data, pos + 21);
      if contentRead.None? {
        return Some(ContentUnreadable);
      }
      var (content, afterContent) := contentRead.value;
      itemContent := Some(content);
      err := ReadTrailer(data, afterContent);
    }

    /** Deserialize's last two fields: the redeem script, then the signed data. */
    method ReadTrailer(data: seq<byte>, pos: nat) returns (err: Option<DecodeError>)
      requires itemContent.Some?
      modifies this`redeemScript, this`signedData
      ensures var d := DecodeTrailer(data, pos, targetArbitratorPublicKey, targetArbitratorProgramHash, itemContent.value);
              && err == (if d.stage == 5 then None else Some(StageError(d.stage)))
              && redeemScript == (if d.stage >= 4 then d.redeemScript else old(redeemScript))
              && signedData == (if d.stage == 5 then Some(d.signedData) else old(signedData))
    {
      var scriptRead := ReadVarBytes(data, pos, MaxReedemScriptDataSize);
      if scriptRead.Err? {
        return Some(RedeemScriptUnreadable);
      }
      redeemScript := scriptRead.value.0;

      var signedRead := ReadVarBytes(data, scriptRead.value.1, MaxSignedDataSize);
      if signedRead.Err? {
        return Some(SignedDataUnreadable);
      }
      signedData := Some(signedRead.value.0);
      err := None;
    }
  }
}
