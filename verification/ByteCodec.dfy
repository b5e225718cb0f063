/** Bytes, fixed-width integers in both byte orders, and concatenation of byte strings. */
module ByteCodec {
  type byte = x: int | 0 <= x < 256

  type Bytes = seq<byte>

  type uint16 = x: int | 0 <= x < 0x1_0000

  const TWO_63: int := 0x8000_0000_0000_0000
  const TWO_64: int := 0x1_0000_0000_0000_0000

  type int64 = x: int | -0x8000_0000_0000_0000 <= x < 0x8000_0000_0000_0000

  /** Go's `uint64(x)`. */
  function U64(x: int): nat {
    x % TWO_64
  }

  /** Go's `int64(x)` and, on the platforms the program is built for, `int(x)`. */
  function Int64(x: int): int64 {
    if -TWO_63 <= x < TWO_63 then x else Wrapped(x)
  }

  function Wrapped(x: int): int64 {
    if U64(x) < TWO_63 then U64(x) else U64(x) - TWO_64
  }

  function Zeros(n: nat): Bytes {
    seq(n, _ => 0)
  }

  function Pow256(w: nat): (p: nat)
    ensures p > 0
  {
    if w == 0 then 1 else 256 * Pow256(w - 1)
  }

  /** Little-endian, `w` bytes; the value is truncated to that width as Go's `PutUintN` does. */
  function LE(n: nat, w: nat): (b: Bytes)
    ensures |b| == w
  {
    if w == 0 then [] else [n % 256] + LE(n / 256, w - 1)
  }

  function FromLE(b: Bytes): nat {
    if b == [] then 0 else b[0] + 256 * FromLE(b[1..])
  }

  lemma {:induction false} LERoundTrip(n: nat, w: nat)
    requires n < Pow256(w)
    ensures FromLE(LE(n, w)) == n
  {
    if w == 0 {
    } else {
      LERoundTrip(n / 256, w - 1);
      assert LE(n, w)[1..] == LE(n / 256, w - 1);
    }
  }

  /** Big-endian, `w` bytes. */
  function BE(n: nat, w: nat): (b: Bytes)
    ensures |b| == w
  {
    if w == 0 then [] else BE(n / 256, w - 1) + [n % 256]
  }

  function FromBE(b: Bytes): nat {
    if b == [] then 0 else 256 * FromBE(b[..|b| - 1]) + b[|b| - 1]
  }

  lemma {:induction false} BERoundTrip(n: nat, w: nat)
    requires n < Pow256(w)
    ensures FromBE(BE(n, w)) == n
  {
    if w == 0 {
    } else {
      BERoundTrip(n / 256, w - 1);
      assert BE(n, w)[..w - 1] == BE(n / 256, w - 1);
    }
  }

  /** Every byte string is the encoding of its value. */
  lemma {:induction false} BEOfFromBE(b: Bytes)
    ensures BE(FromBE(b), |b|) == b
  {
    if b != [] {
      BEOfFromBE(b[..|b| - 1]);
      assert b == b[..|b| - 1] + [b[|b| - 1]];
    }
  }

  lemma {:induction false} FromBEBound(b: Bytes)
    ensures FromBE(b) < Pow256(|b|)
  {
    if b != [] {
      FromBEBound(b[..|b| - 1]);
    }
  }

  function U16(b: Bytes): uint16
    requires |b| == 2
  {
    FromBEBound(b);
    Pow256Values();
    FromBE(b)
  }

  lemma U16RoundTrip(n: uint16)
    ensures U16(BE(n, 2)) == n
  {
    Pow256Values();
    BERoundTrip(n, 2);
  }

  lemma Pow256Values()
    ensures Pow256(2) == 0x1_0000
    ensures Pow256(4) == 0x1_0000_0000
    ensures Pow256(8) == TWO_64
  {
    assert Pow256(1) == 256;
    assert Pow256(3) == 256 * Pow256(2);
    assert Pow256(5) == 256 * Pow256(4);
    assert Pow256(6) == 256 * Pow256(5);
    assert Pow256(7) == 256 * Pow256(6);
  }

  function Concat(parts: seq<Bytes>): Bytes {
    if parts == [] then [] else parts[0] + Concat(parts[1..])
  }

  lemma Associates(a: Bytes, b: Bytes, c: Bytes)
    ensures a + (b + c) == a + b + c
  {
  }

  lemma {:induction false} ConcatSplit(a: seq<Bytes>, b: seq<Bytes>)
    ensures Concat(a + b) == Concat(a) + Concat(b)
  {
    if a == [] {
      assert a + b == b;
    } else {
      ConcatSplit(a[1..], b);
      assert (a + b)[1..] == a[1..] + b;
      Associates(a[0], Concat(a[1..]), Concat(b));
    }
  }

  lemma ConcatSnoc(a: seq<Bytes>, x: Bytes)
    ensures Concat(a + [x]) == Concat(a) + x
  {
    ConcatSplit(a, [x]);
    assert Concat([x]) == x;
  }

  /** Equal-width records: the k-th record starts at k times the width. */
  lemma {:induction false} ConcatUniform(parts: seq<Bytes>, w: nat, k: nat)
    requires forall i | 0 <= i < |parts| :: |parts[i]| == w
    requires k < |parts|
    ensures |Concat(parts)| == |parts| * w
    ensures 0 <= k * w <= (k + 1) * w <= |parts| * w
    ensures Concat(parts)[k * w..(k + 1) * w] == parts[k]
  {
    if |parts| == 1 {
      assert Concat(parts) == parts[0];
    } else {
      ConcatUniform(parts[1..], w, if k == 0 then 0 else k - 1);
      assert |parts| * w == w + (|parts| - 1) * w;
      if k > 0 {
        assert k * w == w + (k - 1) * w;
        assert (k + 1) * w == w + k * w;
      }
    }
  }
}
