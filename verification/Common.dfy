/** Types every module of the model shares. */
module Common {

  datatype Option<+T> = None | Some(value: T) {
    function GetOr(fallback: T): T {
      match this
      case Some(v) => v
      case None => fallback
    }
  }

  /** One octet, as an element of a JavaScript Uint8Array. */
  type Byte = x: int | 0 <= x < 256

  /** One UTF-16 code unit, as an element of a JavaScript string. */
  type Unit = x: int | 0 <= x < 0x1_0000

  /** Quotient and remainder are the only ones that fit. */
  lemma Remainder(x: int, q: int, r: int, m: int)
    requires m > 0 && 0 <= r < m && x == m * q + r
    ensures x / m == q && x % m == r
  {
    var d := x / m - q;
    assert m * d == r - x % m;
  }
}
