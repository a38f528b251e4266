/** The flat byte buffer that ByteArray is meant to behave as, and the block arithmetic
    that connects the two. */
module Flat {
  type byte = x: int | 0 <= x < 256

  // ---------- blocks laid end to end ----------

  function Flatten(bs: seq<seq<byte>>): seq<byte> {
    if bs == [] then [] else bs[0] + Flatten(bs[1..])
  }

  predicate Uniform(bs: seq<seq<byte>>, base: nat) { forall i :: 0 <= i < |bs| ==> |bs[i]| == base }

  lemma {:induction false} FlattenLength(bs: seq<seq<byte>>, base: nat)
    requires Uniform(bs, base)
    ensures |Flatten(bs)| == Times(|bs|, base)
    decreases |bs|
  {
    if bs != [] { FlattenLength(bs[1..], base); }
  }

  lemma {:induction false} FlattenConcat(xs: seq<seq<byte>>, ys: seq<seq<byte>>)
    ensures Flatten(xs + ys) == Flatten(xs) + Flatten(ys)
    decreases |xs|
  {
    if xs == [] {
      assert xs + ys == ys;
    } else {
      assert (xs + ys)[1..] == xs[1..] + ys;
      FlattenConcat(xs[1..], ys);
    }
  }

  lemma FlattenOne(b: seq<byte>)
    ensures Flatten([b]) == b
  {
    assert Flatten([b]) == b + Flatten([b][1..]);
  }

  /** Block i occupies the bytes from Times(i, base) on. */
  lemma FlattenAround(bs: seq<seq<byte>>, base: nat, i: nat)
    requires Uniform(bs, base) && i < |bs|
    ensures |Flatten(bs[..i])| == Times(i, base)
    ensures Flatten(bs) == Flatten(bs[..i]) + bs[i] + Flatten(bs[i + 1..])
  {
    assert bs == bs[..i] + ([bs[i]] + bs[i + 1..]);
    FlattenConcat(bs[..i], [bs[i]] + bs[i + 1..]);
    FlattenConcat([bs[i]], bs[i + 1..]);
    FlattenOne(bs[i]);
    FlattenLength(bs[..i], base);
  }

  /** A buffer with part of it overwritten. */
  function Put(s: seq<byte>, p: nat, d: seq<byte>): (r: seq<byte>)
    requires p + |d| <= |s|
    ensures |r| == |s|
  {
    s[..p] + d + s[p + |d|..]
  }

  /** Overwriting inside one block overwrites the flat buffer at the block's offset. */
  lemma {:induction false} PutInBlock(bs: seq<seq<byte>>, base: nat, i: nat, off: nat, d: seq<byte>)
    requires Uniform(bs, base) && i < |bs| && off + |d| <= base
    ensures Times(i, base) + off + |d| <= |Flatten(bs)|
    ensures Flatten(bs[i := Put(bs[i], off, d)]) == Put(Flatten(bs), Times(i, base) + off, d)
    decreases i
  {
    var rest := bs[1..];
    if i == 0 {
      PutAppend(bs[0], off, d, Flatten(rest));
      assert bs[0 := Put(bs[0], off, d)][1..] == rest;
    } else {
      PutInBlock(rest, base, i - 1, off, d);
      PutPrepend(bs[0], Flatten(rest), Times(i - 1, base) + off, d);
      assert bs[i := Put(bs[i], off, d)][1..] == rest[i - 1 := Put(rest[i - 1], off, d)];
    }
  }

  lemma PutPrepend(b: seq<byte>, s: seq<byte>, p: nat, d: seq<byte>)
    requires p + |d| <= |s|
    ensures b + Put(s, p, d) == Put(b + s, |b| + p, d)
  {
    assert (b + s)[..|b| + p] == b + s[..p] && (b + s)[|b| + p + |d|..] == s[p + |d|..];
  }

  lemma PutAppend(s: seq<byte>, p: nat, d: seq<byte>, y: seq<byte>)
    requires p + |d| <= |s|
    ensures Put(s, p, d) + y == Put(s + y, p, d)
  {
    assert (s + y)[..p] == s[..p] && (s + y)[p + |d|..] == s[p + |d|..] + y;
  }

  lemma GetInBlock(bs: seq<seq<byte>>, base: nat, i: nat, off: nat, n: nat)
    requires Uniform(bs, base) && i < |bs| && off + n <= base
    ensures Times(i, base) + off + n <= |Flatten(bs)|
    ensures Flatten(bs)[Times(i, base) + off..Times(i, base) + off + n] == bs[i][off..off + n]
  {
    FlattenAround(bs, base, i);
  }

  /** Two adjacent overwrites are one. */
  lemma PutPut(s: seq<byte>, p: nat, d: seq<byte>, e: seq<byte>)
    requires p + |d| + |e| <= |s|
    ensures Put(Put(s, p, d), p + |d|, e) == Put(s, p, d + e)
  {
  }

  // ---------- positions ----------
  // Products, quotients and remainders by the block size, defined by repeated addition and
  // subtraction; ArithmeticMeaning says that they are the usual ones.

  function Times(q: nat, base: nat): nat { if q == 0 then 0 else Times(q - 1, base) + base }

  function Index(p: nat, base: nat): nat
    requires base > 0
  {
    if p < base then 0 else Index(p - base, base) + 1
  }

  function Offset(p: nat, base: nat): nat
    requires base > 0
  {
    if p < base then p else Offset(p - base, base)
  }

  lemma {:induction false} ArithmeticMeaning(p: nat, base: nat)
    requires base > 0
    ensures Times(p, base) == p * base
    ensures Index(p, base) == p / base && Offset(p, base) == p % base
  {
    TimesIs(p, base);
    Decompose(p, base);
    var q := Index(p, base);
    TimesIs(q, base);
    DivModUnique(p, base, q, Offset(p, base));
  }

  lemma {:induction false} TimesIs(q: nat, base: nat)
    ensures Times(q, base) == q * base
  {
    if q > 0 {
      TimesIs(q - 1, base);
      assert q * base == (q - 1) * base + base;
    }
  }

  lemma DivModUnique(p: nat, base: nat, q: nat, r: nat)
    requires base > 0 && p == q * base + r && r < base
    ensures p / base == q && p % base == r
  {
    var k := p / base;
    if q < k {
      MulLe(q + 1, k, base);
    } else if k < q {
      MulLe(k + 1, q, base);
    }
  }

  lemma MulLe(a: nat, b: nat, c: nat)
    requires a <= b
    ensures a * c <= b * c
  {
  }

  lemma {:induction false} Distribute(a: nat, b: nat, base: nat)
    ensures Times(a + b, base) == Times(a, base) + Times(b, base)
    decreases b
  {
    if b > 0 { Distribute(a, b - 1, base); }
  }

  lemma TimesOrder(a: nat, b: nat, base: nat)
    requires base > 0
    ensures a <= b <==> Times(a, base) <= Times(b, base)
    ensures a < b ==> Times(a, base) + base <= Times(b, base)
  {
    if a <= b {
      Distribute(a, b - a, base);
    } else {
      Distribute(b, a - b, base);
    }
  }

  /** Every position is an offset inside a block. */
  lemma {:induction false} Decompose(p: nat, base: nat)
    requires base > 0
    ensures p == Times(Index(p, base), base) + Offset(p, base) && Offset(p, base) < base
  {
    if p >= base { Decompose(p - base, base); }
  }

  /** And only one. */
  lemma {:induction false} Locate(q: nat, r: nat, base: nat)
    requires base > 0 && r < base
    ensures Index(Times(q, base) + r, base) == q && Offset(Times(q, base) + r, base) == r
    decreases q
  {
    if q > 0 { Locate(q - 1, r, base); }
  }

  lemma Inside(p: nat, base: nat, n: nat)
    requires base > 0 && p < Times(n, base)
    ensures Index(p, base) < n && p == Times(Index(p, base), base) + Offset(p, base) && Offset(p, base) < base
  {
    Decompose(p, base);
    TimesOrder(n, Index(p, base), base);
  }

  /** Moving inside a block stays in it; moving to its end reaches the next block, or the end. */
  lemma StepBlock(p: nat, base: nat, n: nat, k: nat)
    requires base > 0 && p < Times(n, base) && 0 < k <= base - Offset(p, base)
    ensures Index(p, base) < n && p + k <= Times(n, base)
    ensures k < base - Offset(p, base) ==>
              p + k < Times(n, base) && Index(p + k, base) == Index(p, base) && Offset(p + k, base) == Offset(p, base) + k
    ensures k == base - Offset(p, base) ==>
              && (p + k == Times(n, base) <==> Index(p, base) + 1 == n)
              && Index(p + k, base) == Index(p, base) + 1 && Offset(p + k, base) == 0
  {
    Inside(p, base, n);
    var q := Index(p, base);
    TimesOrder(q, n, base);
    if k < base - Offset(p, base) {
      Locate(q, Offset(p, base) + k, base);
    } else {
      Locate(q + 1, 0, base);
      TimesOrder(n, q + 1, base);
    }
  }

  // ---------- the flat buffer ----------

  datatype Buffer = Buffer(store: seq<byte>, pos: nat, size: nat) {
    predicate Ok() { pos <= size <= |store| }
    function Readable(): int { size - pos }
  }

  function Max(a: nat, b: nat): nat { if a < b then b else a }

  /** write: put the data at the position, growing by `grown` bytes of arbitrary content. */
  function Write(f: Buffer, d: seq<byte>, grown: seq<byte>): (g: Buffer)
    requires f.Ok() && f.pos + |d| <= |f.store| + |grown|
    ensures g.Ok()
  {
    Buffer(Put(f.store + grown, f.pos, d), f.pos + |d|, Max(f.size, f.pos + |d|))
  }

  /** How many blocks addCapacity appends: the missing bytes by the block size, rounded up. */
  function BlocksNeeded(room: nat, n: nat, base: nat): nat
    requires base > 0
  {
    if n <= room then 0 else Index(n - room + base - 1, base)
  }

  /** Growth is enough, and one block less would not be. */
  lemma GrowthIsLeast(room: nat, n: nat, base: nat, k: nat)
    requires base > 0
    ensures k >= BlocksNeeded(room, n, base) <==> room + Times(k, base) >= n
  {
    if n > room {
      var c := Index(n - room + base - 1, base);
      Decompose(n - room + base - 1, base);
      TimesOrder(c, k, base);
      TimesOrder(k, c, base);
    }
  }

  /** Room for `end` by the fewest blocks, as capacities. */
  predicate LeastGrowth(before: nat, after: nat, end: nat, base: nat) {
    before <= after && end <= after && (before < after ==> after < end + base)
  }

  lemma GrowthInBlocks(n: nat, room: nat, pos: nat, k: nat, base: nat)
    requires base > 0 && pos + room == Times(n, base)
    ensures LeastGrowth(Times(n, base), Times(n + BlocksNeeded(room, k, base), base), pos + k, base)
  {
    var b := BlocksNeeded(room, k, base);
    GrowthIsLeast(room, k, base, b);
    Distribute(n, b, base);
    if b > 0 { GrowthIsLeast(room, k, base, b - 1); }
  }

  /** Writing ends at the end of the blocks exactly when it reaches a block boundary at or past the
      old capacity. */
  lemma EndsFull(n: nat, m: nat, end: nat, base: nat)
    requires base > 0 && LeastGrowth(Times(n, base), Times(m, base), end, base)
    ensures end == Times(m, base) <==> end >= Times(n, base) && Offset(end, base) == 0
  {
    Locate(m, 0, base);
    Decompose(end, base);
    var q := Index(end, base);
    TimesOrder(q, m, base);
    TimesOrder(m, q, base);
  }

  /** setPosition: refused past the capacity; past the size, it raises the size. */
  function SetPosition(f: Buffer, v: nat): (g: Buffer)
    requires f.Ok()
    ensures g.Ok()
  {
    if v > |f.store| then f else f.(pos := v, size := Max(f.size, v))
  }

  datatype ReadResult = Bytes(data: seq<byte>) | OutOfRange | NullBlock

  /** read: out of range when too little is readable; a zero-length read at the very end of
      the blocks dereferences a null block pointer. */
  function Read(f: Buffer, n: nat): ReadResult
    requires f.Ok()
  {
    if n > f.Readable() then OutOfRange
    else if f.pos == |f.store| then NullBlock
    else Bytes(f.store[f.pos..f.pos + n])
  }

  function AfterRead(f: Buffer, n: nat): Buffer
    requires f.Ok()
  {
    if Read(f, n).Bytes? then f.(pos := f.pos + n) else f
  }

  // ---------- reading at another position ----------

  const TwoTo64: nat := 0x1_0000_0000_0000_0000

  /** Where the positional read really starts: in the current block, at p's offset. */
  function StartAt(pos: nat, p: nat, base: nat): nat
    requires base > 0
  {
    Times(Index(pos, base), base) + Offset(p, base)
  }

  /** The positional read. Its range test is an unsigned 64-bit subtraction. */
  function ReadAt(f: Buffer, base: nat, n: nat, p: nat): ReadResult
    requires f.Ok() && base > 0
  {
    if n > (f.size - p) % TwoTo64 then OutOfRange
    else if f.pos == |f.store| || StartAt(f.pos, p, base) + n > |f.store| then NullBlock
    else Bytes(f.store[StartAt(f.pos, p, base)..StartAt(f.pos, p, base) + n])
  }

  lemma StartsRight(pos: nat, p: nat, base: nat)
    requires base > 0
    ensures StartAt(pos, p, base) == p <==> Index(pos, base) == Index(p, base)
  {
    Decompose(p, base);
    TimesOrder(Index(pos, base), Index(p, base), base);
    TimesOrder(Index(p, base), Index(pos, base), base);
  }

  /** The positional read returns the bytes asked for, whatever the buffer holds, exactly when
      they start in the current block. */
  lemma PositionalReadExact(base: nat, capacity: nat, size: nat, pos: nat, p: nat, n: nat)
    requires base > 0 && pos <= size <= capacity < TwoTo64 && pos < capacity && p + n <= size && n > 0
    ensures (forall s: seq<byte> | |s| == capacity :: ReadAt(Buffer(s, pos, size), base, n, p) == Bytes(s[p..p + n]))
       <==> Index(pos, base) == Index(p, base)
  {
    StartsRight(pos, p, base);
    if Index(pos, base) != Index(p, base) {
      var s := Marked(capacity, p);
      WrongStart(s, base, size, pos, p, n);
    }
  }

  function Marked(n: nat, p: nat): seq<byte> { seq(n, i => if i == p then 1 else 0) }

  lemma WrongStart(s: seq<byte>, base: nat, size: nat, pos: nat, p: nat, n: nat)
    requires base > 0 && pos <= size <= |s| && p + n <= |s| && n > 0 && s == Marked(|s|, p)
    requires StartAt(pos, p, base) != p
    ensures ReadAt(Buffer(s, pos, size), base, n, p) != Bytes(s[p..p + n])
  {
    var r := ReadAt(Buffer(s, pos, size), base, n, p);
    assert s[p..p + n][0] == 1;
    if r.Bytes? { assert r.data[0] == s[StartAt(pos, p, base)] == 0; }
  }

  // ---------- files ----------

  predicate FileWritable(f: Buffer, base: nat)
    requires base > 0
  {
    Offset(f.pos, base) == 0 || f.Readable() >= base || f.Readable() == 0
  }

  // ---------- what a write means, byte by byte ----------

  /** The bytes from p on are d, and those of f outside them are as they were. */
  predicate Overwritten(f: seq<byte>, g: seq<byte>, p: nat, d: seq<byte>) {
    && |f| <= |g| && p + |d| <= |g|
    && (forall i :: 0 <= i < |d| ==> g[p + i] == d[i])
    && (forall i :: 0 <= i < |f| && !(p <= i < p + |d|) ==> g[i] == f[i])
  }

  /** A buffer has been written exactly when its position has moved past the data, its size is at least
      that, the data is there, and nothing else has changed. */
  lemma WroteMeans(f: Buffer, d: seq<byte>, g: Buffer)
    requires f.Ok()
    ensures Wrote(f, d, g) <==>
      && g.pos == f.pos + |d| && g.size == (if f.size < f.pos + |d| then f.pos + |d| else f.size)
      && Overwritten(f.store, g.store, f.pos, d)
  {
    if |f.store| <= |g.store| && f.pos + |d| <= |g.store| {
      var grown := g.store[|f.store|..];
      PutMeans(f.store + grown, f.pos, d, g.store);
      assert forall i :: 0 <= i < |f.store| ==> (f.store + grown)[i] == f.store[i];
      assert forall i :: |f.store| <= i < |g.store| ==> (f.store + grown)[i] == g.store[i];
    }
  }

  lemma PutMeans(s: seq<byte>, p: nat, d: seq<byte>, g: seq<byte>)
    requires p + |d| <= |s| == |g|
    ensures g == Put(s, p, d) <==>
      (forall i :: 0 <= i < |d| ==> g[p + i] == d[i]) && (forall i :: 0 <= i < |s| && !(p <= i < p + |d|) ==> g[i] == s[i])
  {
    var r := Put(s, p, d);
    forall i | 0 <= i < |s| ensures r[i] == if p <= i < p + |d| then d[i - p] else s[i] {}
    if (forall i :: 0 <= i < |d| ==> g[p + i] == d[i]) && (forall i :: 0 <= i < |s| && !(p <= i < p + |d|) ==> g[i] == s[i]) {
      forall i | 0 <= i < |s| ensures g[i] == r[i] { if p <= i < p + |d| { assert g[p + (i - p)] == d[i - p]; } }
    }
  }

  /** The positional read starts in the current block, at the offset that p has in its own. */
  lemma StartMeans(pos: nat, p: nat, base: nat)
    requires base > 0
    ensures StartAt(pos, p, base) == pos / base * base + p % base
  {
    ArithmeticMeaning(pos, base);
    ArithmeticMeaning(p, base);
    TimesIs(Index(pos, base), base);
  }

  /** And what it gives. */
  lemma ReadAtMeans(f: Buffer, base: nat, n: nat, p: nat)
    requires f.Ok() && base > 0
    ensures var r := ReadAt(f, base, n, p);
      && (r.OutOfRange? <==> (f.size - p) % 0x1_0000_0000_0000_0000 < n)
      && (r.Bytes? ==> f.pos < |f.store| && StartAt(f.pos, p, base) + n <= |f.store|
                       && r.data == f.store[StartAt(f.pos, p, base)..StartAt(f.pos, p, base) + n])
      && (r.NullBlock? ==> f.pos == |f.store| || StartAt(f.pos, p, base) + n > |f.store|)
  {
  }

  // ---------- successive writes ----------

  /** g is f after writing d, whatever the fresh bytes hold. */
  predicate Wrote(f: Buffer, d: seq<byte>, g: Buffer)
    requires f.Ok()
  {
    && |f.store| <= |g.store| && f.pos + |d| <= |g.store|
    && g == Write(f, d, g.store[|f.store|..])
  }

  lemma WroteNothing(f: Buffer, d: seq<byte>)
    requires f.Ok()
    ensures Wrote(f, [], f) && Wrote(f, d[..0], f)
  {
    assert Put(f.store + f.store[|f.store|..], f.pos, []) == f.store;
  }

  lemma WroteWhole(f: Buffer, d: seq<byte>, g: Buffer)
    requires f.Ok() && Wrote(f, d[..|d|], g)
    ensures Wrote(f, d, g)
  {
    assert d[..|d|] == d;
  }

  /** Writing twice is writing once. */
  lemma WroteTwice(f: Buffer, d: seq<byte>, g: Buffer, e: seq<byte>, h: Buffer)
    requires f.Ok() && Wrote(f, d, g) && Wrote(g, e, h)
    ensures Wrote(f, d + e, h)
  {
    var x, y := g.store[|f.store|..], h.store[|g.store|..];
    StoreTwice(f.store, x, y, f.pos, d, e);
    Refill(f.store, x + y, f.pos, d + e);
  }

  lemma StoreTwice(s: seq<byte>, x: seq<byte>, y: seq<byte>, p: nat, d: seq<byte>, e: seq<byte>)
    requires p + |d| <= |s| + |x| && p + |d| + |e| <= |s| + |x| + |y|
    ensures Put(Put(s + x, p, d) + y, p + |d|, e) == Put(s + (x + y), p, d + e)
  {
    PutAppend(s + x, p, d, y);
    assert s + x + y == s + (x + y);
    PutPut(s + (x + y), p, d, e);
  }

  lemma WroteNext(f: Buffer, d: seq<byte>, done: nat, k: nat, g: Buffer, h: Buffer)
    requires f.Ok() && done + k <= |d| && Wrote(f, d[..done], g) && Wrote(g, d[done..done + k], h)
    ensures Wrote(f, d[..done + k], h)
  {
    WroteTwice(f, d[..done], g, d[done..done + k], h);
    assert d[..done] + d[done..done + k] == d[..done + k];
  }

  /** Growing first and then overwriting is a write. */
  lemma GrownBy(f: Buffer, grown: seq<byte>, d: seq<byte>, g: Buffer)
    requires f.Ok() && f.store <= grown && f.pos + |d| <= |grown|
    requires g == Buffer(Put(grown, f.pos, d), f.pos + |d|, Max(f.size, f.pos + |d|))
    ensures Wrote(f, d, g)
  {
    assert Put(grown, f.pos, d) == Put(f.store + Put(grown, f.pos, d)[|f.store|..], f.pos, d);
  }

  /** The fresh bytes under the written window do not matter. */
  lemma Refill(s: seq<byte>, x: seq<byte>, p: nat, d: seq<byte>)
    requires p + |d| <= |s| + |x|
    ensures Put(s + x, p, d) == Put(s + Put(s + x, p, d)[|s|..], p, d)
  {
    var g := Put(s + x, p, d);
    assert |s + g[|s|..]| == |g|;
    assert (s + g[|s|..])[..p] == (s + x)[..p];
    assert (s + g[|s|..])[p + |d|..] == (s + x)[p + |d|..];
  }
}
