/** Little-endian byte strings. */
module Bytes {
  type Byte = b: int | 0 <= b < 256

  function Pow256(n: nat): (r: nat)
    ensures r > 0
  {
    if n == 0 then 1 else 256 * Pow256(n - 1)
  }

  /** The low `width` bytes of v's two's complement representation, lowest byte first. */
  function LittleEndian(width: nat, v: int): (r: seq<Byte>)
    ensures |r| == width
  {
    if width == 0 then [] else [v % 256] + LittleEndian(width - 1, v / 256)
  }

  function Unsigned(bytes: seq<Byte>): nat {
    if bytes == [] then 0 else bytes[0] + 256 * Unsigned(bytes[1..])
  }

  /** Reading the bytes back gives v truncated to the width. */
  lemma {:induction false} LittleEndianTruncates(width: nat, v: int)
    ensures Unsigned(LittleEndian(width, v)) == v % Pow256(width)
    decreases width
  {
    if width > 0 {
      LittleEndianTruncates(width - 1, v / 256);
      var p := Pow256(width - 1);
      assert LittleEndian(width, v)[1..] == LittleEndian(width - 1, v / 256);
      ModStep(v, p);
    }
  }

  lemma ModStep(v: int, p: nat)
    requires p > 0
    ensures v % (256 * p) == v % 256 + 256 * ((v / 256) % p)
  {
    var q, r := v / 256, v % 256;
    var q1, r1 := q / p, q % p;
    assert q == p * q1 + r1;
    var low := r + 256 * r1;
    assert v == 256 * p * q1 + low by {
      assert 256 * q == 256 * (p * q1) + 256 * r1;
      assert 256 * (p * q1) == 256 * p * q1;
    }
    assert 0 <= low < 256 * p;
    ModUnique(v, 256 * p, q1, low);
  }

  lemma DivStep(v: int, p: nat)
    requires p > 0
    ensures v / (256 * p) == v / 256 / p
  {
    var q := v / 256;
    ModStep(v, p);
    var m, d := 256 * p, v / (256 * p) - q / p;
    assert q == p * (q / p) + q % p;
    assert v == m * (v / m) + v % m;
    assert m * (q / p) == 256 * (p * (q / p));
    assert m * d == 0 by {
      assert m * (v / m) - m * (q / p) == m * (v / m - q / p);
    }
    MultipleBounds(m, d);
  }

  /** Byte i is the i-th base-256 digit, the lowest first. */
  lemma {:induction false} LittleEndianDigit(width: nat, v: int, i: nat)
    requires i < width
    ensures LittleEndian(width, v)[i] == v / Pow256(i) % 256
    decreases i
  {
    if i > 0 {
      LittleEndianDigit(width - 1, v / 256, i - 1);
      DivStep(v, Pow256(i - 1));
    }
  }

  lemma ModUnique(v: int, m: nat, q: int, r: int)
    requires m > 0 && v == m * q + r && 0 <= r < m
    ensures v % m == r
  {
    var d := v / m - q;
    assert v == m * (v / m) + v % m;
    assert m * d == r - v % m by {
      assert m * (v / m) - m * q == m * (v / m - q);
    }
    MultipleBounds(m, d);
  }

  lemma MultipleBounds(m: int, d: int)
    requires m >= 0
    ensures d >= 1 ==> m * d >= m
    ensures d <= -1 ==> m * d <= -m
  {
    if d <= -1 {
      assert m * d == -(m * -d);
      assert m * -d >= m;
    }
  }

  /** Adding a multiple of 256^n does not show in the first n bytes. */
  lemma {:induction false} LittleEndianWraps(width: nat, v: int, k: int, n: nat)
    requires width <= n
    ensures LittleEndian(width, v + k * Pow256(n)) == LittleEndian(width, v)
    decreases width
  {
    if width > 0 {
      var p := Pow256(n - 1);
      assert k * Pow256(n) == 256 * (k * p);
      LittleEndianWraps(width - 1, v / 256, k, n - 1);
    }
  }

  /** `bytes` written over b at `off`. */
  function Splice<T>(b: seq<T>, off: nat, bytes: seq<T>): (r: seq<T>)
    requires off + |bytes| <= |b|
    ensures |r| == |b|
    ensures r[off..off + |bytes|] == bytes
  {
    b[..off] + bytes + b[off + |bytes|..]
  }

  lemma SpliceElsewhere<T>(b: seq<T>, off: nat, bytes: seq<T>, i: nat, j: nat)
    requires off + |bytes| <= |b| && i <= j <= |b|
    requires j <= off || off + |bytes| <= i
    ensures Splice(b, off, bytes)[i..j] == b[i..j]
  {
    var r := Splice(b, off, bytes);
    forall k | i <= k < j ensures r[k] == b[k] {
    }
  }

  /** Writes v at dst[off..off+width] in little-endian order. */
  method PutLittleEndian(dst: array<Byte>, off: nat, width: nat, v: int)
    requires off + width <= dst.Length
    modifies dst
    ensures dst[..] == Splice(old(dst[..]), off, LittleEndian(width, v))
  {
    ghost var was := dst[..];
    var rest := v;
    var k := 0;
    while k < width
      invariant k <= width
      invariant dst[..off] == was[..off] && dst[off + width..] == was[off + width..]
      invariant dst[off..off + k] + LittleEndian(width - k, rest) == LittleEndian(width, v)
    {
      ghost var done := dst[off..off + k];
      dst[off + k] := rest % 256;
      assert dst[off..off + k + 1] == done + [rest % 256];
      rest := rest / 256;
      k := k + 1;
    }
    assert dst[..] == dst[..off] + dst[off..off + width] + dst[off + width..];
  }
}
