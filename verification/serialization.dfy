/**
 * Byte-level helpers shared by the wire formats of the arbiter:
 * the CompactSize-prefixed "var bytes" encoding, hexadecimal strings and byte reversal.
 */
module Serialization {
  import opened Common

  const UINT64_LIMIT: nat := 0x1_0000_0000_0000_0000

  function Pow256(k: nat): (r: nat)
    ensures r > 0
  {
    if k == 0 then 1 else 256 * Pow256(k - 1)
  }

  /** The k-byte little-endian encoding of n, keeping n modulo 256^k. */
  function LittleEndian(n: nat, k: nat): (r: seq<byte>)
    ensures |r| == k
  {
    if k == 0 then [] else [n % 256] + LittleEndian(n / 256, k - 1)
  }

  function FromLittleEndian(s: seq<byte>): nat
  {
    if s == [] then 0 else s[0] + 256 * FromLittleEndian(s[1..])
  }

  /** Little-endian decoding inverts little-endian encoding for values that fit. */
  lemma {:induction false} LittleEndianRoundTrip(n: nat, k: nat)
    requires n < Pow256(k)
    ensures FromLittleEndian(LittleEndian(n, k)) == n
  {
    if k > 0 {
      LittleEndianRoundTrip(n / 256, k - 1);
      assert LittleEndian(n, k)[1..] == LittleEndian(n / 256, k - 1);
    }
  }

  // ---------------------------------------------------------------------------
  // CompactSize unsigned integers (common.WriteVarUint / common.ReadVarUint)
  // ---------------------------------------------------------------------------

  /**
   * The CompactSize encoding of `value` converted to uint64: one byte below 0xFD,
   * otherwise a marker byte 0xFD, 0xFE or 0xFF followed by 2, 4 or 8 little-endian bytes.
   */
  function WriteVarUint(value: nat): (r: seq<byte>)
    ensures 1 <= |r| <= 9
  {
    var v := value % UINT64_LIMIT;
    if v < 0xFD then [v]
    else if v <= 0xFFFF then [0xFD] + LittleEndian(v, 2)
    else if v <= 0xFFFF_FFFF then [0xFE] + LittleEndian(v, 4)
    else [0xFF] + LittleEndian(v, 8)
  }

  /** Width of the little-endian body announced by a CompactSize marker byte. */
  function MarkerWidth(marker: byte): nat
  {
    if marker == 0xFD then 2 else if marker == 0xFE then 4 else if marker == 0xFF then 8 else 0
  }

  /**
   * Reads a CompactSize integer at `pos`; returns the value and the position after it,
   * or None when the input ends first. Non-minimal encodings are accepted.
   */
  function ReadVarUint(s: seq<byte>, pos: nat): (r: Option<(nat, nat)>)
    ensures r.Some? ==> pos < r.value.1 <= |s|
    ensures r.Some? ==> r.value.0 < UINT64_LIMIT
    ensures r.None? <==> pos + 1 + (if pos < |s| then MarkerWidth(s[pos]) else 0) > |s|
  {
    if pos >= |s| then None
    else
      var width := MarkerWidth(s[pos]);
      if width == 0 then Some((s[pos], pos + 1))
      else if pos + 1 + width > |s| then None
      else
        var body := s[pos + 1 .. pos + 1 + width];
        FromLittleEndianBound(body);
        Some((FromLittleEndian(body), pos + 1 + width))
  }

  lemma {:induction false} FromLittleEndianBound(s: seq<byte>)
    ensures FromLittleEndian(s) < Pow256(|s|)
    ensures |s| <= 8 ==> FromLittleEndian(s) < UINT64_LIMIT
  {
    if s != [] {
      FromLittleEndianBound(s[1..]);
    }
    if |s| <= 8 {
      PowMonotone(|s|, 8);
    }
  }

  lemma {:induction false} PowMonotone(j: nat, k: nat)
    requires j <= k
    ensures Pow256(j) <= Pow256(k)
  {
    if j < k {
      PowMonotone(j, k - 1);
    }
  }

  /** Reading back what WriteVarUint wrote yields the value and the position just after it. */
  lemma VarUintRoundTrip(n: nat, pre: seq<byte>, rest: seq<byte>)
    requires n < UINT64_LIMIT
    ensures ReadVarUint(pre + WriteVarUint(n) + rest, |pre|) == Some((n, |pre| + |WriteVarUint(n)|))
  {
    var enc := WriteVarUint(n);
    var s := pre + enc + rest;
    assert s[|pre| .. |pre| + |enc|] == enc;
    ReadsEncoding(n, s, |pre|);
  }

  /** ReadVarUint at a position where the encoding of n starts reads n back. */
  lemma ReadsEncoding(n: nat, s: seq<byte>, pos: nat)
    requires n < UINT64_LIMIT
    requires pos + |WriteVarUint(n)| <= |s| && s[pos .. pos + |WriteVarUint(n)|] == WriteVarUint(n)
    ensures ReadVarUint(s, pos) == Some((n, pos + |WriteVarUint(n)|))
  {
    var enc := WriteVarUint(n);
    assert s[pos] == enc[0];
    if n < 0xFD {
      assert enc == [n];
    } else {
      var k := |enc| - 1;
      WideEncoding(n);
      assert s[pos + 1 .. pos + 1 + k] == enc[1..];
      LittleEndianRoundTrip(n, k);
    }
  }

  /** From 0xFD on, the encoding is a marker announcing the width of the little-endian body that follows. */
  lemma WideEncoding(n: nat)
    requires 0xFD <= n < UINT64_LIMIT
    ensures var enc := WriteVarUint(n);
            && MarkerWidth(enc[0]) == |enc| - 1 > 0
            && enc[1..] == LittleEndian(n, |enc| - 1)
            && n < Pow256(|enc| - 1)
  {
    var enc := WriteVarUint(n);
    assert n % UINT64_LIMIT == n;
    Pow256Widths();
    if n <= 0xFFFF {
      assert enc == [0xFD] + LittleEndian(n, 2);
    } else if n <= 0xFFFF_FFFF {
      assert enc == [0xFE] + LittleEndian(n, 4);
    } else {
      assert enc == [0xFF] + LittleEndian(n, 8);
    }
  }

  /** The value bounds of the three CompactSize body widths. */
  lemma Pow256Widths()
    ensures Pow256(2) == 0x1_0000 && Pow256(4) == 0x1_0000_0000 && Pow256(8) == UINT64_LIMIT
  {
    assert Pow256(2) == 0x1_0000;
    assert Pow256(4) == 0x1_0000_0000;
    assert Pow256(8) == UINT64_LIMIT;
  }

  // ---------------------------------------------------------------------------
  // Var bytes (common.WriteVarBytes / common.ReadVarBytes)
  // ---------------------------------------------------------------------------

  datatype ReadError =
    | Truncated                       // the input ended inside the prefix or the body
    | ExceedsMax(count: nat, max: nat) // the announced length is above the caller's bound

  /** A CompactSize length prefix followed by the bytes themselves. */
  function WriteVarBytes(b: seq<byte>): (r: seq<byte>)
    ensures |b| < |r| <= |b| + 9
    ensures r[|r| - |b|..] == b
  {
    WriteVarUint(|b|) + b
  }

  /**
   * Reads var bytes at `pos`, refusing any announced length above `max` before
   * reading the body; returns the bytes and the position after them.
   */
  function ReadVarBytes(s: seq<byte>, pos: nat, max: nat): (r: Result<(seq<byte>, nat), ReadError>)
    ensures r.Ok? ==> |r.value.0| <= max && pos + |r.value.0| < r.value.1 <= |s|
    ensures r.Ok? ==> r.value.0 == s[r.value.1 - |r.value.0| .. r.value.1]
    ensures ReadVarUint(s, pos).None? ==> r == Err(Truncated)
    ensures ReadVarUint(s, pos).Some? && ReadVarUint(s, pos).value.0 > max ==>
              r == Err(ExceedsMax(ReadVarUint(s, pos).value.0, max))
  {
    match ReadVarUint(s, pos)
    case None => Err(Truncated)
    case Some((count, next)) =>
      if count > max then Err(ExceedsMax(count, max))
      else if next + count > |s| then Err(Truncated)
      else Ok((s[next .. next + count], next + count))
  }

  /** ReadVarBytes inverts WriteVarBytes for every payload within the bound, whatever surrounds it. */
  lemma VarBytesRoundTrip(b: seq<byte>, pre: seq<byte>, rest: seq<byte>, max: nat)
    requires |b| <= max && |b| < UINT64_LIMIT
    ensures ReadVarBytes(pre + WriteVarBytes(b) + rest, |pre|, max)
            == Ok((b, |pre| + |WriteVarBytes(b)|))
  {
    var prefix := WriteVarUint(|b|);
    var s := pre + WriteVarBytes(b) + rest;
    assert s == pre + prefix + (b + rest);
    VarUintRoundTrip(|b|, pre, b + rest);
    assert s[|pre| + |prefix| .. |pre| + |prefix| + |b|] == b;
  }

  /** A payload longer than the bound is refused on reading, whatever surrounds it. */
  lemma VarBytesRejectsOverMax(b: seq<byte>, pre: seq<byte>, rest: seq<byte>, max: nat)
    requires max < |b| < UINT64_LIMIT
    ensures ReadVarBytes(pre + WriteVarBytes(b) + rest, |pre|, max) == Err(ExceedsMax(|b|, max))
  {
    var s := pre + WriteVarBytes(b) + rest;
    assert s == pre + WriteVarUint(|b|) + (b + rest);
    VarUintRoundTrip(|b|, pre, b + rest);
  }

  // ---------------------------------------------------------------------------
  // Hexadecimal strings (common.BytesToHexString / common.HexStringToBytes)
  // ---------------------------------------------------------------------------

  function HexDigit(n: nat): (c: char)
    requires n < 16
  {
    if n < 10 then ('0' as int + n) as char else ('a' as int + n - 10) as char
  }

  /** The value of one hexadecimal digit in either case, or None for any other character. */
  function HexValue(c: char): (r: Option<nat>)
    ensures r.Some? ==> r.value < 16
  {
    if '0' <= c <= '9' then Some(c as int - '0' as int)
    else if 'a' <= c <= 'f' then Some(c as int - 'a' as int + 10)
    else if 'A' <= c <= 'F' then Some(c as int - 'A' as int + 10)
    else None
  }

  /** Lower-case hexadecimal, two digits per byte, most significant digit first. */
  function BytesToHex(b: seq<byte>): (r: string)
    ensures |r| == 2 * |b|
  {
    if b == [] then "" else [HexDigit(b[0] / 16), HexDigit(b[0] % 16)] + BytesToHex(b[1..])
  }

  /** Decodes a hexadecimal string; None for an odd length or a non-hex character. */
  function HexToBytes(s: string): (r: Option<seq<byte>>)
    ensures r.Some? ==> 2 * |r.value| == |s|
  {
    if |s| % 2 == 1 then None else HexPairs(s)
  }

  function HexPairs(s: string): (r: Option<seq<byte>>)
    requires |s| % 2 == 0
    ensures r.Some? ==> 2 * |r.value| == |s|
  {
    if s == [] then Some([])
    else
      match (HexValue(s[0]), HexValue(s[1]), HexPairs(s[2..]))
      case (Some(hi), Some(lo), Some(tail)) => Some([hi * 16 + lo] + tail)
      case _ => None
  }

  /** Decoding the hexadecimal form of any byte string gives the bytes back. */
  lemma {:induction false} HexRoundTrip(b: seq<byte>)
    ensures HexToBytes(BytesToHex(b)) == Some(b)
  {
    if b != [] {
      var s := BytesToHex(b);
      assert s[2..] == BytesToHex(b[1..]);
      HexRoundTrip(b[1..]);
      assert HexValue(HexDigit(b[0] / 16)) == Some(b[0] / 16);
      assert HexValue(HexDigit(b[0] % 16)) == Some(b[0] % 16);
      assert [b[0]] + b[1..] == b;
    }
  }

  // ---------------------------------------------------------------------------
  // Byte reversal (common.BytesReverse)
  // ---------------------------------------------------------------------------

  function Reverse(s: seq<byte>): (r: seq<byte>)
    ensures |r| == |s|
    ensures forall i :: 0 <= i < |s| ==> r[i] == s[|s| - 1 - i]
  {
    if s == [] then [] else Reverse(s[1..]) + [s[0]]
  }

  /** Reversing twice restores the bytes. */
  lemma ReverseInvolution(s: seq<byte>)
    ensures Reverse(Reverse(s)) == s
  {
    assert forall i :: 0 <= i < |s| ==> Reverse(Reverse(s))[i] == s[i];
  }
}
