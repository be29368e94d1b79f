/** Bytes, optional values and the network-order integers that both ends of the link share. */
module Bytes {
  type Byte = b: int | 0 <= b < 256
  type Data = seq<Byte>

  const TWO_32 := 0x1_0000_0000
  const TWO_64 := 0x1_0000_0000_0000_0000

  datatype Option<+T> = None | Some(value: T)

  datatype Result<+T, +E> = Ok(value: T) | Err(error: E)

  function Min(a: int, b: int): int {
    if a < b then a else b
  }

  function Max(a: int, b: int): int {
    if a < b then b else a
  }

  /** The four-byte network-order prefix; each byte is cut to eight bits as the C++ casts do. */
  function Header(n: nat): (s: Data)
    ensures |s| == 4
  {
    [n / 0x100_0000 % 256, n / 0x1_0000 % 256, n / 256 % 256, n % 256]
  }

  function U32(s: Data): nat
    requires |s| >= 4
  {
    s[0] as int * 0x100_0000 + s[1] as int * 0x1_0000 + s[2] as int * 256 + s[3] as int
  }

  lemma {:induction false} HeaderRoundTrip(n: nat)
    requires n < TWO_32
    ensures U32(Header(n)) == n
  {
    var q3, q2, q1 := n / 0x100_0000, n / 0x1_0000, n / 256;
    assert q1 / 256 == q2 && q2 / 256 == q3;
    assert n == q1 * 256 + n % 256 && q1 == q2 * 256 + q1 % 256 && q2 == q3 * 256 + q2 % 256;
  }

  lemma {:induction false} U32RoundTrip(s: Data)
    requires |s| == 4
    ensures U32(s) < TWO_32
    ensures Header(U32(s)) == s
  {
    var n := U32(s);
    var q2 := s[0] as int * 256 + s[1] as int;
    var q1 := q2 * 256 + s[2] as int;
    assert n == q1 * 256 + s[3] as int;
    assert n / 256 == q1 && n % 256 == s[3];
    assert n / 0x1_0000 == q1 / 256 == q2 && q1 % 256 == s[2];
    assert n / 0x100_0000 == q2 / 256 == s[0] && q2 % 256 == s[1];
    assert s == [s[0], s[1], s[2], s[3]];
  }

  /** n written in base 256 over `width` digits, most significant first; higher digits are cut. */
  function BigEndian(n: nat, width: nat): (s: Data)
    ensures |s| == width
  {
    if width == 0 then [] else BigEndian(n / 256, width - 1) + [n % 256]
  }

  function Pow256(k: nat): (p: nat)
    ensures p >= 1
  {
    if k == 0 then 1 else 256 * Pow256(k - 1)
  }

  lemma {:induction false} BigEndianInjective(m: nat, n: nat, width: nat)
    requires m < Pow256(width) && n < Pow256(width)
    requires BigEndian(m, width) == BigEndian(n, width)
    ensures m == n
  {
    if width > 0 {
      var a, b := BigEndian(m / 256, width - 1), BigEndian(n / 256, width - 1);
      assert (a + [m % 256])[..width - 1] == a && (b + [n % 256])[..width - 1] == b;
      assert (a + [m % 256])[width - 1] == (b + [n % 256])[width - 1];
      BigEndianInjective(m / 256, n / 256, width - 1);
    }
  }

  lemma {:induction false} DivDiv(n: nat, k: nat)
    ensures n / 256 / Pow256(k) == n / Pow256(k + 1)
  {
    var p := Pow256(k);
    var q := n / 256 / p;
    var r := n / 256 % p;
    assert n == (q * p + r) * 256 + n % 256;
    assert r * 256 + n % 256 < 256 * p;
    assert n == q * (256 * p) + (r * 256 + n % 256);
    QuotientIs(n, 256 * p, q, r * 256 + n % 256);
  }

  lemma {:induction false} QuotientIs(n: nat, d: nat, q: nat, r: nat)
    requires d > 0 && r < d && n == q * d + r
    ensures n / d == q && n % d == r
  {
    var k: int := n / d - q;
    assert k * d == r - n % d;
    assert k >= 1 ==> k * d >= d;
    assert k <= -1 ==> k * d + d <= 0;
  }

  /** Digit i, counted from the left, is the shift-and-truncate the C++ loops perform. */
  lemma {:induction false} BigEndianDigit(n: nat, width: nat, i: nat)
    requires i < width
    ensures BigEndian(n, width)[i] == n / Pow256(width - 1 - i) % 256
  {
    if i < width - 1 {
      BigEndianDigit(n / 256, width - 1, i);
      DivDiv(n, width - 2 - i);
    }
  }
}
