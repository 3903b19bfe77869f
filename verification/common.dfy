/** Basic value types shared by every module of the arbiter model. */
module Common {

  /** An 8-bit byte. */
  type byte = b: int | 0 <= b < 256

  /** Go's uint32, used for block heights and protocol limits. */
  type uint32 = n: int | 0 <= n < 0x1_0000_0000

  /** A Go pointer or slice that may be nil, or a lookup that may miss. */
  datatype Option<+T> = None | Some(value: T) {
    function GetOr(default: T): T {
      match this
      case Some(v) => v
      case None => default
    }
  }

  /** A Go `(value, error)` pair: either the value or the error. */
  datatype Result<+T, +E> = Ok(value: T) | Err(error: E)

  /** The bytes of a Go byte slice; a nil slice has length zero. */
  function Bytes(s: Option<seq<byte>>): (r: seq<byte>)
    ensures s.Some? ==> r == s.value
    ensures s.None? ==> r == []
  {
    s.GetOr([])
  }
}

/** Facts about division by a positive, symbolic divisor, proved without nonlinear automation. */
module Arithmetic {

  type Pos = n: nat | n > 0 witness 1

  lemma {:induction false} MulAtLeast(a: int, k: nat)
    requires a >= 1
    ensures a * k >= k
  {
    if a > 1 {
      MulAtLeast(a - 1, k);
      assert a * k == (a - 1) * k + k;
    }
  }

  /** Quotient and remainder are the unique q, r with x == q * k + r and 0 <= r < k. */
  lemma DivRemUnique(x: int, k: Pos, q: int, r: int)
    requires x == q * k + r && 0 <= r < k
    ensures x / k == q && x % k == r
  {
    var d := q - x / k;
    assert d * k == x % k - r by {
      assert x == (x / k) * k + x % k;
    }
    if d >= 1 {
      MulAtLeast(d, k);
    } else if d <= -1 {
      MulAtLeast(-d, k);
    }
  }

  /** x / k == q exactly when x lies in [q * k, (q + 1) * k). */
  lemma DivRange(x: int, k: Pos, q: int)
    ensures x / k == q <==> q * k <= x < q * k + k
  {
    assert x == (x / k) * k + x % k;
    if q * k <= x < q * k + k {
      DivRemUnique(x, k, q, x - q * k);
    }
  }

  /** Removing one divisor from a non-negative multiple leaves a multiple with quotient one less. */
  lemma MultipleFacts(n: nat, k: Pos)
    requires n % k == 0
    ensures n > 0 ==> n >= k
    ensures n >= k ==> (n - k) % k == 0 && (n - k) / k == n / k - 1
  {
    var q := n / k;
    assert n == q * k;
    if q >= 1 {
      MulAtLeast(q, k);
    }
    if n >= k {
      assert n - k == (q - 1) * k;
      DivRemUnique(n - k, k, q - 1, 0);
    }
  }
}
