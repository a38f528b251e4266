/** The value codecs of ByteArray as byte strings: varints, zigzag, and fixed-width integers in
    either byte order on a host of either byte order. */
module Codec {
  import opened Common
  import opened Flat

  // ---------- varints ----------

  const TwoTo32: nat := 0x1_0000_0000

  function Pow128(n: nat): nat { if n == 0 then 1 else 128 * Pow128(n - 1) }

  /** Seven bits a byte, low bits first, the high bit saying that more follow. */
  function Varint(v: nat): (s: seq<byte>)
    ensures s != []
  {
    if v < 128 then [v] else [v % 128 + 128] + Varint(v / 128)
  }

  /** Reading at most `limit` bytes: the value and how many bytes it took; None when the
      bytes run out first. */
  function Unvarint(s: seq<byte>, limit: nat): Option<(nat, nat)>
    decreases limit
  {
    if limit == 0 then Some((0, 0))
    else if s == [] then None
    else if s[0] < 128 then Some((s[0] as nat, 1))
    else
      match Unvarint(s[1..], limit - 1)
      case None => None
      case Some(r) => Some((s[0] - 128 + 128 * r.0, r.1 + 1))
  }

  lemma {:induction false} VarintLength(v: nat, n: nat)
    requires 0 < n && v < Pow128(n)
    ensures |Varint(v)| <= n
    decreases n
  {
    if v >= 128 { VarintLength(v / 128, n - 1); }
  }

  /** At most five bytes for 32 bits and ten for 64: the local buffer is never overrun. */
  lemma VarintFits(v: nat)
    ensures v < TwoTo32 ==> 1 <= |Varint(v)| <= 5
    ensures v < TwoTo64 ==> 1 <= |Varint(v)| <= 10
  {
    Pow128Values();
    if v < TwoTo32 { VarintLength(v, 5); }
    if v < TwoTo64 { VarintLength(v, 10); }
  }

  lemma Pow128Values()
    ensures Pow128(5) == 0x8_0000_0000 && Pow128(10) == 0x40_0000_0000_0000_0000
  {
    assert Pow128(5) == 128 * Pow128(4) == 128 * (128 * Pow128(3)) == 128 * (128 * (128 * Pow128(2)));
    assert Pow128(2) == 128 * Pow128(1) == 16384;
    assert Pow128(10) == 128 * Pow128(9) == 128 * (128 * Pow128(8)) == 128 * (128 * (128 * Pow128(7)));
    assert Pow128(7) == 128 * Pow128(6) == 128 * (128 * Pow128(5));
  }

  /** Decoding takes exactly the encoding, whatever follows it, and gives the value back. */
  lemma {:induction false} VarintRoundTrip(v: nat, limit: nat, rest: seq<byte>)
    requires |Varint(v)| <= limit
    ensures Unvarint(Varint(v) + rest, limit) == Some((v, |Varint(v)|))
    decreases v
  {
    if v >= 128 {
      VarintRoundTrip(v / 128, limit - 1, rest);
      assert (Varint(v) + rest)[1..] == Varint(v / 128) + rest;
    }
  }

  /** No encoding is a proper prefix of another. */
  lemma PrefixFree(u: nat, v: nat)
    requires Varint(u) <= Varint(v)
    ensures u == v
  {
    var n := |Varint(v)|;
    assert Varint(v) == Varint(u) + Varint(v)[|Varint(u)|..];
    VarintRoundTrip(u, n, Varint(v)[|Varint(u)|..]);
    VarintRoundTrip(v, n, []);
    assert Varint(v) + [] == Varint(v);
  }

  // ---------- zigzag ----------

  /** Signed to unsigned, in arithmetic modulo m = 2 * half (32 or 64 bits wide). */
  function Zigzag(v: int, half: int): (u: int)
    requires half > 0
  {
    if v < 0 then ((-v) % (2 * half) * 2 - 1) % (2 * half) else v * 2 % (2 * half)
  }

  /** (u >> 1) ^ -(u & 1): exclusive or with all ones is subtraction from all ones, and the
      upper half of the unsigned range stands for the negative numbers. */
  function Unzigzag(u: int, half: int): (v: int)
    requires half > 0
  {
    var x := if u % 2 == 0 then u / 2 else 2 * half - 1 - u / 2;
    if x < half then x else x - 2 * half
  }

  const Half32: nat := 0x8000_0000
  const Half64: nat := 0x8000_0000_0000_0000

  lemma ModSmall(x: int, m: int)
    requires 0 <= x < m
    ensures x % m == x
  {
  }

  /** Both codes without the reductions, which are never needed in range. */
  lemma ZigzagValue(v: int, half: int)
    requires 0 < half && -half <= v < half
    ensures Zigzag(v, half) == if v < 0 then -v * 2 - 1 else v * 2
  {
    if v < 0 {
      ModSmall(-v, 2 * half);
      ModSmall(-v * 2 - 1, 2 * half);
    } else {
      ModSmall(v * 2, 2 * half);
    }
  }

  /** Zigzag is a bijection of the whole signed range, the smallest number included, with the
      whole unsigned range, at every width. */
  lemma ZigzagBijection(v: int, u: int, half: int)
    requires 0 < half && -half <= v < half && 0 <= u < 2 * half
    ensures 0 <= Zigzag(v, half) < 2 * half && Unzigzag(Zigzag(v, half), half) == v
    ensures -half <= Unzigzag(u, half) < half && Zigzag(Unzigzag(u, half), half) == u
  {
    ZigzagValue(v, half);
    ZigzagValue(Unzigzag(u, half), half);
  }

  /** Smaller magnitudes get smaller codes. */
  lemma ZigzagOrder(v: int, w: int, half: int)
    requires 0 < half && -half <= v < half && -half <= w < half
    requires (if v < 0 then -v else v) < (if w < 0 then -w else w)
    ensures Zigzag(v, half) < Zigzag(w, half)
  {
    ZigzagValue(v, half);
    ZigzagValue(w, half);
  }

  // ---------- fixed-width integers ----------

  function Pow256(n: nat): nat { if n == 0 then 1 else 256 * Pow256(n - 1) }

  /** The w low bytes of v, lowest first. */
  function LowFirst(w: nat, v: nat): (s: seq<byte>)
    ensures |s| == w
  {
    if w == 0 then [] else [v % 256] + LowFirst(w - 1, v / 256)
  }

  function FromLowFirst(s: seq<byte>): nat { if s == [] then 0 else s[0] + 256 * FromLowFirst(s[1..]) }

  lemma {:induction false} LowFirstInverse(w: nat, v: nat)
    requires v < Pow256(w)
    ensures FromLowFirst(LowFirst(w, v)) == v
    decreases w
  {
    if w > 0 {
      LowFirstInverse(w - 1, v / 256);
      assert LowFirst(w, v)[1..] == LowFirst(w - 1, v / 256);
    }
  }

  lemma {:induction false} FromLowFirstInverse(s: seq<byte>)
    ensures FromLowFirst(s) < Pow256(|s|) && LowFirst(|s|, FromLowFirst(s)) == s
    decreases |s|
  {
    if s != [] {
      FromLowFirstInverse(s[1..]);
      LowByte(s[0], FromLowFirst(s[1..]));
      assert s == [s[0]] + s[1..];
    }
  }

  lemma LowByte(b: byte, r: nat)
    ensures (b + 256 * r) % 256 == b && (b + 256 * r) / 256 == r
  {
  }

  function Reversed(s: seq<byte>): (r: seq<byte>)
    ensures |r| == |s|
    ensures forall i :: 0 <= i < |s| ==> r[i] == s[|s| - 1 - i]
  {
    seq(|s|, i requires 0 <= i < |s| => s[|s| - 1 - i])
  }

  lemma ReversedTwice(s: seq<byte>)
    ensures Reversed(Reversed(s)) == s
  {
  }

  /** byteswap at width w. */
  function Swap(w: nat, v: nat): nat { FromLowFirst(Reversed(LowFirst(w, v))) }

  lemma SwapTwice(w: nat, v: nat)
    requires v < Pow256(w)
    ensures Swap(w, v) < Pow256(w) && Swap(w, Swap(w, v)) == v
  {
    var r := Reversed(LowFirst(w, v));
    FromLowFirstInverse(r);
    ReversedTwice(LowFirst(w, v));
    LowFirstInverse(w, v);
  }

  /** An integer as it lies in memory in the given byte order. */
  function Image(little: bool, w: nat, v: nat): (s: seq<byte>)
    ensures |s| == w
  {
    if little then LowFirst(w, v) else Reversed(LowFirst(w, v))
  }

  function FromImage(little: bool, s: seq<byte>): nat {
    FromLowFirst(if little then s else Reversed(s))
  }

  lemma ImageInverse(little: bool, w: nat, v: nat)
    requires v < Pow256(w)
    ensures FromImage(little, Image(little, w, v)) == v
  {
    LowFirstInverse(w, v);
    ReversedTwice(LowFirst(w, v));
  }

  /** What a host of byte order `host` stores when the array's order is `little`. */
  function Stored(host: bool, little: bool, w: nat, v: nat): (s: seq<byte>)
    ensures |s| == w
  {
    Image(host, w, if little != host then Swap(w, v) else v)
  }

  function Loaded(host: bool, little: bool, s: seq<byte>): nat {
    var v := FromImage(host, s);
    if little != host then Swap(|s|, v) else v
  }

  /** The bytes written are those of the array's own order, on every host. */
  lemma WireOrder(host: bool, little: bool, w: nat, v: nat)
    requires v < Pow256(w)
    ensures Stored(host, little, w, v) == Image(little, w, v)
  {
    var r := Reversed(LowFirst(w, v));
    FromLowFirstInverse(r);
    ReversedTwice(LowFirst(w, v));
  }

  /** And so are the bytes read. */
  lemma WireRead(host: bool, little: bool, s: seq<byte>)
    ensures Loaded(host, little, s) == FromImage(little, s) < Pow256(|s|)
  {
    FromLowFirstInverse(s);
    FromLowFirstInverse(Reversed(s));
    ReversedTwice(s);
  }

  /** Writing on one host and reading on another, of whatever byte orders, gives the value back. */
  lemma FixedRoundTrip(writer: bool, reader: bool, little: bool, w: nat, v: nat)
    requires v < Pow256(w)
    ensures Loaded(reader, little, Stored(writer, little, w, v)) == v
  {
    WireOrder(writer, little, w, v);
    WireRead(reader, little, Image(little, w, v));
    ImageInverse(little, w, v);
  }

  /** Two's complement at width w. */
  function Unsigned(w: nat, v: int): nat
    requires InRange(w, v)
  {
    if v < 0 then v + Pow256(w) else v
  }

  /** The integers of w bytes, signed and unsigned ones together. */
  predicate InRange(w: nat, v: int) { 0 <= 2 * v + Pow256(w) && v < Pow256(w) }

  function Signed(w: nat, u: nat): int { if 2 * u < Pow256(w) then u else u - Pow256(w) }

  lemma SignedInverse(w: nat, v: int)
    requires InRange(w, v)
    ensures Unsigned(w, v) < Pow256(w)
    ensures 2 * v < Pow256(w) ==> Signed(w, Unsigned(w, v)) == v
    ensures 0 <= v ==> Unsigned(w, v) == v
  {
  }

  // ---------- the bytes themselves ----------

  /** The varint of v has the fewest digits in base 128 that v needs. */
  lemma {:induction false} VarintShortest(v: nat)
    ensures v < Pow128(|Varint(v)|) && (|Varint(v)| > 1 ==> Pow128(|Varint(v)| - 1) <= v)
    decreases v
  {
    if v >= 128 {
      VarintShortest(v / 128);
      assert Varint(v)[1..] == Varint(v / 128);
    }
  }

  /** v without its k low digits. */
  function Digits128(v: nat, k: nat): nat { if k == 0 then v else Digits128(v / 128, k - 1) }

  function Digits256(v: nat, k: nat): nat { if k == 0 then v else Digits256(v / 256, k - 1) }

  /** Each byte of a varint: a digit, low digits first, and the mark that more follow. */
  lemma {:induction false} VarintByte(v: nat, i: nat)
    requires i < |Varint(v)|
    ensures Varint(v)[i] == Digits128(v, i) % 128 + (if i < |Varint(v)| - 1 then 128 else 0)
    decreases i
  {
    if i > 0 { VarintByte(v / 128, i - 1); }
  }

  lemma {:induction false} LowFirstByte(w: nat, v: nat, i: nat)
    requires i < w
    ensures LowFirst(w, v)[i] == Digits256(v, i) % 256
    decreases i
  {
    if i > 0 { LowFirstByte(w - 1, v / 256, i - 1); }
  }

  /** Each byte of an integer on the wire: lowest first in a little-endian array, highest first otherwise. */
  lemma ImageByte(little: bool, w: nat, v: nat, i: nat)
    requires i < w
    ensures Image(little, w, v)[i] == Digits256(v, if little then i else w - 1 - i) % 256
  {
    LowFirstByte(w, v, if little then i else w - 1 - i);
  }

  /** Leaving out k digits is division by the power. */
  lemma {:induction false} DigitsMean(v: nat, k: nat)
    ensures Pow256(k) > 0 && Digits256(v, k) == v / Pow256(k)
    ensures Pow128(k) > 0 && Digits128(v, k) == v / Pow128(k)
    decreases k
  {
    if k > 0 {
      DigitsMean(v / 256, k - 1);
      DigitsMean(v / 128, k - 1);
      DivDiv(v, 256, Pow256(k - 1));
      DivDiv(v, 128, Pow128(k - 1));
    }
  }

  lemma DivDiv(v: nat, a: nat, b: nat)
    requires a > 0 && b > 0
    ensures a * b > 0 && v / a / b == v / (a * b)
  {
    var x := v / a;
    TwoSteps(v, a, b, x, x / b, x % b, v % a);
    DivModUnique(v, a * b, x / b, (x % b) * a + v % a);
  }

  lemma TwoSteps(v: nat, a: nat, b: nat, x: nat, q: nat, r: nat, s: nat)
    requires v == x * a + s && x == q * b + r && r < b && s < a
    ensures v == q * (a * b) + (r * a + s) && r * a + s < a * b
  {
    MulLe(r + 1, b, a);
    assert (q * b + r) * a == q * (a * b) + r * a;
    assert (r + 1) * a == r * a + a;
  }

  /** Two's complement: stored and loaded numbers are congruent modulo 256^w, each in its own range. */
  lemma TwosComplement(w: nat, v: int, u: nat)
    requires InRange(w, v) && u < Pow256(w)
    ensures 0 <= Unsigned(w, v) < Pow256(w) && (Unsigned(w, v) == v || Unsigned(w, v) == v + Pow256(w))
    ensures 0 <= 2 * Signed(w, u) + Pow256(w) && 2 * Signed(w, u) < Pow256(w) && (Signed(w, u) == u || Signed(w, u) == u - Pow256(w))
  {
  }
}
