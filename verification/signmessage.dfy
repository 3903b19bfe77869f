/**
 * The peer-to-peer message that carries a serialized DistributedItem between arbiters:
 * an opaque var-bytes payload under a fixed command name and length limit.
 */
module SignMessages {
  import opened Common
  import opened Serialization

  /** The command name the message is sent under (DistributeItemCommand). */
  const DistributeItemCommand: string

  /** The largest message the peer-to-peer layer accepts (pact.MaxBlockContextSize). */
  const MaxBlockContextSize: MessageLimit
  type MessageLimit = n: nat | 0 < n < 0x1_0000_0000 witness 1

  class DistributedItemMessage {
    /** The serialized DistributedItem; a nil slice is modelled as empty. */
    var content: seq<byte>

    constructor (content: seq<byte>)
      ensures this.content == content
    {
      this.content := content;
    }

    /** The same command for every message. */
    function CMD(): (r: string)
      ensures r == DistributeItemCommand
    {
      DistributeItemCommand
    }

    /** The same length limit for every message; it fits a uint32. */
    function MaxLength(): (r: uint32)
      ensures r == MaxBlockContextSize
    {
      MaxBlockContextSize
    }

    /**
     * Serialize: the content as var bytes, which any reader positioned at its start reads
     * back whole when it is within the message limit.
     */
    function Serialize(): (r: seq<byte>)
      reads this
      ensures |content| < |r| <= |content| + 9
      ensures r[|r| - |content|..] == content
      ensures |content| <= MaxBlockContextSize ==>
                forall rest :: ReadVarBytes(r + rest, 0, MaxBlockContextSize) == Ok((content, |r|))
    {
      var r := WriteVarBytes(content);
      if |content| <= MaxBlockContextSize then
        MessageRoundTrip(content);
        r
      else r
    }

    /**
     * Deserialize: reads one var-bytes field bounded by the message limit and replaces
     * the content with it; on an error the content is left as it was.
     */
    method Deserialize(data: seq<byte>) returns (err: Option<ReadError>)
      modifies this
      ensures var r := ReadVarBytes(data, 0, MaxBlockContextSize);
              && (r.Ok? ==> err.None? && content == r.value.0)
              && (r.Err? ==> err == Some(r.error) && content == old(content))
    {
      var read := ReadVarBytes(data, 0, MaxBlockContextSize);
      if read.Err? {
        return Some(read.error);
      }
      content := read.value.0;
      err := None;
    }
  }

  /** Reading a message's encoding back gives its content, whatever follows it. */
  lemma MessageRoundTrip(content: seq<byte>)
    requires |content| <= MaxBlockContextSize
    ensures forall rest :: ReadVarBytes(WriteVarBytes(content) + rest, 0, MaxBlockContextSize)
                           == Ok((content, |WriteVarBytes(content)|))
  {
    forall rest
      ensures ReadVarBytes(WriteVarBytes(content) + rest, 0, MaxBlockContextSize)
              == Ok((content, |WriteVarBytes(content)|))
    {
      var enc := WriteVarBytes(content);
      assert [] + enc == enc;
      VarBytesRoundTrip(content, [], rest, MaxBlockContextSize);
    }
  }

  /** Content over the message limit does not come back: reading its encoding is refused. */
  lemma MessageRejectsOversize(content: seq<byte>, rest: seq<byte>)
    requires MaxBlockContextSize < |content| < UINT64_LIMIT
    ensures ReadVarBytes(WriteVarBytes(content) + rest, 0, MaxBlockContextSize)
            == Err(ExceedsMax(|content|, MaxBlockContextSize))
  {
    var enc := WriteVarBytes(content);
    assert [] + enc == enc;
    VarBytesRejectsOverMax(content, [], rest, MaxBlockContextSize);
  }
}
