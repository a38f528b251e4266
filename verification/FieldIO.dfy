/** The typed reads and writes of ByteArray, each proved to write, or to fetch, what Message says. */
module FieldIO {
  import opened Common
  import opened Flat
  import opened Codec
  import opened Message
  import BA = ByteArray

  /** A value, or the exception (or null block) met on the way. */
  datatype Outcome<T> = Value(value: T) | Raised(error: ReadResult)

  ghost predicate Agrees<T(!new)>(r: Outcome<T>, after: Buffer, f: Fetch<T>) {
    && after == f.rest
    && r == if f.Got? then Value(f.value) else Raised(f.error)
  }

  // ---------- writing ----------

  /** The array has grown by the fewest blocks that hold what was written. */
  ghost predicate Grew(before: nat, ba: BA.ByteArray)
    reads ba
  {
    LeastGrowth(before, ba.capacity, ba.position, ba.base)
  }

  method WriteFixed(ba: BA.ByteArray, w: nat, v: nat, little: bool, host: bool)
    requires ba.Valid() && v < Pow256(w)
    modifies ba, ba.repr
    ensures ba.Valid() && fresh(ba.repr - old(ba.repr))
    ensures Wrote(old(ba.View()), Image(little, w, v), ba.View()) && Grew(old(ba.capacity), ba)
  {
    var x := v;
    if little != host {
      x := Swap(w, v);
    }
    WireOrder(host, little, w, v);
    ba.Write(Image(host, w, x));
  }

  /** The varint loop, filling a local buffer of five or ten bytes. */
  method VarintBytes(v: nat, wide: bool) returns (s: seq<byte>)
    requires v < Modulus(wide)
    ensures s == Varint(v)
  {
    VarintFits(v);
    var tmp := new byte[if wide then 10 else 5];
    var value, i := v, 0;
    while value >= 0x80
      invariant 0 <= i && 0 <= value && i + |Varint(value)| <= tmp.Length
      invariant tmp[..i] + Varint(value) == Varint(v)
    {
      NextByte(tmp[..i], value, Varint(v));
      tmp[i] := value % 128 + 128;
      assert tmp[..i + 1] == tmp[..i] + [value % 128 + 128];
      value := value / 128;
      i := i + 1;
    }
    tmp[i] := value;
    return tmp[..i + 1];
  }

  lemma NextByte(done: seq<byte>, value: nat, all: seq<byte>)
    requires value >= 128 && done + Varint(value) == all
    ensures done + [value % 128 + 128] + Varint(value / 128) == all
    ensures |Varint(value)| == 1 + |Varint(value / 128)|
  {
  }

  method WriteUint(ba: BA.ByteArray, v: nat, wide: bool)
    requires ba.Valid() && v < Modulus(wide)
    modifies ba, ba.repr
    ensures ba.Valid() && fresh(ba.repr - old(ba.repr))
    ensures Wrote(old(ba.View()), Varint(v), ba.View()) && Grew(old(ba.capacity), ba)
  {
    var s := VarintBytes(v, wide);
    ba.Write(s);
  }

  method WriteLength(ba: BA.ByteArray, p: Prefix, n: nat, little: bool, host: bool)
    requires ba.Valid()
    modifies ba, ba.repr
    ensures ba.Valid() && fresh(ba.repr - old(ba.repr))
    ensures Wrote(old(ba.View()), LengthBytes(p, n, little), ba.View()) && Grew(old(ba.capacity), ba)
  {
    PowValues();
    if p == Vint {
      WriteUint(ba, CutLength(p, n), true);
    } else {
      WriteFixed(ba, PrefixWidth(p), CutLength(p, n), little, host);
    }
  }

  method WriteField(ba: BA.ByteArray, x: Field, little: bool, host: bool)
    requires ba.Valid() && WellTyped(x)
    modifies ba, ba.repr
    ensures ba.Valid() && fresh(ba.repr - old(ba.repr))
    ensures Wrote(old(ba.View()), Encode(x, little), ba.View()) && Grew(old(ba.capacity), ba)
  {
    match x
    case Fixed(w, _, v) =>
      WriteFixed(ba, w, Unsigned(w, v), little, host);
    case Var(wide, v) =>
      WriteUint(ba, v, wide);
    case Zig(wide, v) =>
      ZigzagBijection(v, 0, Half(wide));
      WriteUint(ba, Zigzag(v, Half(wide)), wide);
    case Text(p, s) =>
      ghost var f := ba.View();
      WriteLength(ba, p, |s|, little, host);
      ghost var g := ba.View();
      ba.Write(s);
      WroteTwice(f, LengthBytes(p, |s|, little), g, s, ba.View());
  }

  // ---------- reading ----------

  method ReadBytes(ba: BA.ByteArray, n: nat) returns (r: Outcome<seq<byte>>)
    requires ba.Valid()
    modifies ba`position, ba`cur
    ensures ba.Valid() && Agrees(r, ba.View(), FetchBytes(old(ba.View()), n))
  {
    var d := ba.Read(n);
    return if d.Bytes? then Value(d.data) else Raised(d);
  }

  method ReadByte(ba: BA.ByteArray) returns (r: Outcome<nat>)
    requires ba.Valid()
    modifies ba`position, ba`cur
    ensures ba.Valid() && Agrees(r, ba.View(), FetchByte(old(ba.View())))
  {
    var d := ReadBytes(ba, 1);
    return if d.Value? then Value(d.value[0]) else Raised(d.error);
  }

  method ReadFixed(ba: BA.ByteArray, w: nat, little: bool, host: bool) returns (r: Outcome<nat>)
    requires ba.Valid()
    modifies ba`position, ba`cur
    ensures ba.Valid() && Agrees(r, ba.View(), FetchFixed(old(ba.View()), w, little))
  {
    var d := ReadBytes(ba, w);
    if d.Raised? {
      return Raised(d.error);
    }
    WireRead(host, little, d.value);
    var v := FromImage(host, d.value);
    return Value(if little == host then v else Swap(w, v));
  }

  method ReadUint(ba: BA.ByteArray, wide: bool) returns (r: Outcome<nat>)
    requires ba.Valid()
    modifies ba`position, ba`cur
    ensures ba.Valid() && Agrees(r, ba.View(), FetchUint(old(ba.View()), wide))
  {
    VarintStarts(ba.View(), wide);
    r := ReadVarint(ba, wide, Limit(wide), FetchUint(ba.View(), wide));
  }

  /** The loop, for at most `limit` bytes. */
  method ReadVarint(ba: BA.ByteArray, wide: bool, limit: nat, ghost all: Fetch<nat>) returns (r: Outcome<nat>)
    requires ba.Valid() && Reading(all, wide, 0, 0, ba.View(), limit)
    modifies ba`position, ba`cur
    ensures ba.Valid() && Agrees(r, ba.View(), all)
  {
    var result: nat, left: nat, j: nat := 0, limit, 0;
    while left > 0
      invariant ba.Valid()
      invariant Reading(all, wide, result, j, ba.View(), left)
    {
      var stop;
      stop, result := TakeByte(ba, wide, result, j, left, all);
      if stop.Some? {
        return stop.value;
      }
      j, left := j + 1, left - 1;
    }
    VarintEnds(all, wide, result, j, ba.View());
    return Value(result);
  }

  /** One round of the loop: the end of the varint (or an exception), or its next seven bits. */
  method TakeByte(ba: BA.ByteArray, wide: bool, result: nat, j: nat, ghost left: nat, ghost all: Fetch<nat>)
    returns (stop: Option<Outcome<nat>>, more: nat)
    requires ba.Valid() && left > 0 && Reading(all, wide, result, j, ba.View(), left)
    modifies ba`position, ba`cur
    ensures ba.Valid()
    ensures stop.Some? ==> Agrees(stop.value, ba.View(), all)
    ensures stop.None? ==> Reading(all, wide, more, j + 1, ba.View(), left - 1)
  {
    ghost var f := ba.View();
    var b := ReadByte(ba);
    VarintStep(all, wide, result, j, f, left, b, ba.View());
    if b.Raised? {
      return Some(Raised(b.error)), 0;
    } else if b.value < 0x80 {
      return Some(Value(Cut(result + Shifted(b.value, j), wide))), 0;
    } else {
      return None, Cut(result + Shifted(b.value - 0x80, j), wide);
    }
  }

  /** The whole value is what remains to be fetched, shifted past the j bytes already taken and
      added to their sum (which is cut to the width at every step), and cut to the width. */
  ghost predicate Continues(all: Fetch<nat>, wide: bool, sum: nat, j: nat, rest: Fetch<nat>) {
    && Cut(sum, wide) == sum
    && all == if rest.Got? then Got(Cut(sum + Shifted(rest.value, j), wide), rest.rest) else rest
  }

  ghost predicate Reading(all: Fetch<nat>, wide: bool, sum: nat, j: nat, f: Buffer, limit: nat) {
    f.Ok() && Continues(all, wide, sum, j, FetchVarint(f, limit))
  }

  lemma VarintStarts(f: Buffer, wide: bool)
    requires f.Ok()
    ensures Reading(FetchUint(f, wide), wide, 0, 0, f, Limit(wide))
  {
    var rest := FetchVarint(f, Limit(wide));
    if rest.Got? { assert 0 + Shifted(rest.value, 0) == rest.value; }
  }

  lemma VarintEnds(all: Fetch<nat>, wide: bool, sum: nat, j: nat, f: Buffer)
    requires Reading(all, wide, sum, j, f, 0)
    ensures all == Got(sum, f)
  {
    ShiftedAdds(0, 0, j);
  }

  lemma VarintStep(all: Fetch<nat>, wide: bool, sum: nat, j: nat, f: Buffer, limit: nat, b: Outcome<nat>, after: Buffer)
    requires Reading(all, wide, sum, j, f, limit) && limit > 0 && Agrees(b, after, FetchByte(f))
    ensures b.Raised? ==> all == Threw(b.error, after)
    ensures b.Value? && b.value < 128 ==> all == Got(Cut(sum + Shifted(b.value, j), wide), after)
    ensures b.Value? && b.value >= 128 ==>
              Reading(all, wide, Cut(sum + Shifted(b.value - 128, j), wide), j + 1, after, limit - 1)
  {
    if b.Value? && b.value >= 128 {
      var t := FetchVarint(after, limit - 1);
      CutTwice(sum + Shifted(b.value - 128, j), wide);
      if t.Got? { CarryOn(sum, b.value - 128, t.value, j, wide); }
    }
  }

  lemma CarryOn(sum: nat, b: nat, v: nat, j: nat, wide: bool)
    ensures Cut(sum + Shifted(b + 128 * v, j), wide) == Cut(Cut(sum + Shifted(b, j), wide) + Shifted(v, j + 1), wide)
  {
    ShiftedAdds(b, 128 * v, j);
    CutAdd(sum + Shifted(b, j), Shifted(v, j + 1), wide);
  }

  lemma CutTwice(v: nat, wide: bool)
    ensures Cut(Cut(v, wide), wide) == Cut(v, wide)
  {
  }

  /** v << 7 * j. */
  function Shifted(v: nat, j: nat): nat
    decreases j
  {
    if j == 0 then v else Shifted(128 * v, j - 1)
  }

  lemma {:induction false} ShiftedAdds(u: nat, v: nat, j: nat)
    ensures Shifted(u + v, j) == Shifted(u, j) + Shifted(v, j)
    decreases j
  {
    if j > 0 { ShiftedAdds(128 * u, 128 * v, j - 1); }
  }

  lemma CutAdd(a: nat, x: nat, wide: bool)
    ensures Cut(Cut(a, wide) + x, wide) == Cut(a + x, wide)
  {
  }

  method ReadLength(ba: BA.ByteArray, p: Prefix, little: bool, host: bool) returns (r: Outcome<nat>)
    requires ba.Valid()
    modifies ba`position, ba`cur
    ensures ba.Valid() && Agrees(r, ba.View(), FetchLength(old(ba.View()), p, little))
  {
    if p == Vint {
      r := ReadUint(ba, true);
    } else {
      r := ReadFixed(ba, PrefixWidth(p), little, host);
    }
  }

  method ReadField(ba: BA.ByteArray, k: Kind, little: bool, host: bool) returns (r: Outcome<Field>)
    requires ba.Valid()
    modifies ba`position, ba`cur
    ensures ba.Valid() && Agrees(r, ba.View(), FetchField(old(ba.View()), k, little))
  {
    match k
    case FixedKind(w, signed) =>
      var u := ReadFixed(ba, w, little, host);
      return if u.Value? then Value(Fixed(w, signed, if signed then Signed(w, u.value) else u.value)) else Raised(u.error);
    case VarKind(wide) =>
      var u := ReadUint(ba, wide);
      return if u.Value? then Value(Var(wide, u.value)) else Raised(u.error);
    case ZigKind(wide) =>
      var u := ReadUint(ba, wide);
      return if u.Value? then Value(Zig(wide, Unzigzag(u.value, Half(wide)))) else Raised(u.error);
    case TextKind(p) =>
      var n := ReadLength(ba, p, little, host);
      if n.Raised? {
        return Raised(n.error);
      }
      var d := ReadBytes(ba, n.value);
      return if d.Value? then Value(Text(p, d.value)) else Raised(d.error);
  }

  // ---------- whole messages ----------

  lemma WroteField(f: Buffer, g: Buffer, h: Buffer, m: seq<Field>, i: nat, little: bool)
    requires f.Ok() && AllTyped(m) && i < |m|
    requires Wrote(f, EncodeAll(m[..i], little), g) && Wrote(g, Encode(m[i], little), h)
    ensures Wrote(f, EncodeAll(m[..i + 1], little), h)
  {
    WroteTwice(f, EncodeAll(m[..i], little), g, Encode(m[i], little), h);
    EncodeSnoc(m, i, little);
  }

  /** After writing, the message lies readable at the old position. */
  lemma MessageThere(f: Buffer, g: Buffer, m: seq<Field>, little: bool)
    requires f.Ok() && AllTyped(m) && Wrote(f, EncodeAll(m, little), g)
    ensures g.Ok() && g.pos == f.pos + |EncodeAll(m, little)| && SetPosition(g, f.pos) == g.(pos := f.pos)
    ensures Holds(SetPosition(g, f.pos), EncodeAll(m, little))
  {
    var d := EncodeAll(m, little);
    assert g.store[f.pos..f.pos + |d|] == d;
  }

  /** Writing the fields one after another. */
  method WriteMessage(ba: BA.ByteArray, m: seq<Field>, little: bool, host: bool)
    requires ba.Valid() && AllTyped(m)
    modifies ba, ba.repr
    ensures ba.Valid() && fresh(ba.repr - old(ba.repr))
    ensures Wrote(old(ba.View()), EncodeAll(m, little), ba.View()) && Grew(old(ba.capacity), ba)
  {
    ghost var f := ba.View();
    WroteNothing(f, []);
    var i := 0;
    while i < |m|
      invariant 0 <= i <= |m| && ba.Valid() && fresh(ba.repr - old(ba.repr))
      invariant Wrote(f, EncodeAll(m[..i], little), ba.View()) && Grew(old(ba.capacity), ba)
    {
      WriteNext(ba, m, i, little, host, f, old(ba.capacity));
      i := i + 1;
    }
    assert m[..i] == m;
  }

  method WriteNext(ba: BA.ByteArray, m: seq<Field>, i: nat, little: bool, host: bool, ghost f: Buffer, ghost before: nat)
    requires ba.Valid() && AllTyped(m) && i < |m| && f.Ok()
    requires Wrote(f, EncodeAll(m[..i], little), ba.View()) && Grew(before, ba)
    modifies ba, ba.repr
    ensures ba.Valid() && fresh(ba.repr - old(ba.repr))
    ensures Wrote(f, EncodeAll(m[..i + 1], little), ba.View()) && Grew(before, ba)
  {
    ghost var g := ba.View();
    WriteField(ba, m[i], little, host);
    WroteField(f, g, ba.View(), m, i, little);
  }

  lemma {:induction false} EncodeSnoc(m: seq<Field>, i: nat, little: bool)
    requires AllTyped(m) && i < |m|
    ensures EncodeAll(m[..i + 1], little) == EncodeAll(m[..i], little) + Encode(m[i], little)
    decreases i
  {
    if i == 0 {
      assert m[..1][1..] == [];
    } else {
      var t := m[1..];
      EncodeSnoc(t, i - 1, little);
      assert m[..i + 1][1..] == t[..i] && m[..i][1..] == t[..i - 1] && t[i - 1] == m[i];
      Joined(EncodeAll(m[..i + 1], little), Encode(m[0], little), EncodeAll(t[..i - 1], little), Encode(m[i], little));
    }
  }

  lemma Joined(all: seq<byte>, a: seq<byte>, b: seq<byte>, c: seq<byte>)
    requires all == a + (b + c)
    ensures all == a + b + c
  {
  }

  /** Reading fields of the given kinds, until one fails. */
  method ReadMessage(ba: BA.ByteArray, ks: seq<Kind>, little: bool, host: bool) returns (r: Outcome<seq<Field>>)
    requires ba.Valid()
    modifies ba`position, ba`cur
    ensures ba.Valid() && Agrees(r, ba.View(), FetchAll(old(ba.View()), ks, little))
  {
    ghost var all := FetchAll(ba.View(), ks, little);
    FetchStarts(ba.View(), ks, little);
    var out: seq<Field> := [];
    var i := 0;
    while i < |ks|
      invariant 0 <= i <= |ks| && ba.Valid()
      invariant Resumes(all, out, FetchAll(ba.View(), ks[i..], little))
    {
      ghost var f := ba.View();
      var x := ReadField(ba, ks[i], little, host);
      FetchNext(all, out, f, ks, i, little);
      if x.Raised? {
        return Raised(x.error);
      }
      out := out + [x.value];
      i := i + 1;
    }
    FetchEnds(all, out, ba.View(), ks, little);
    return Value(out);
  }

  /** The whole fetch is the fields already read and then the rest. */
  ghost predicate Resumes(all: Fetch<seq<Field>>, out: seq<Field>, rest: Fetch<seq<Field>>) {
    all == if rest.Got? then Got(out + rest.value, rest.rest) else rest
  }

  lemma FetchStarts(f: Buffer, ks: seq<Kind>, little: bool)
    requires f.Ok()
    ensures Resumes(FetchAll(f, ks, little), [], FetchAll(f, ks[0..], little))
  {
    assert ks[0..] == ks;
    var r := FetchAll(f, ks, little);
    if r.Got? { assert [] + r.value == r.value; }
  }

  lemma FetchEnds(all: Fetch<seq<Field>>, out: seq<Field>, f: Buffer, ks: seq<Kind>, little: bool)
    requires f.Ok() && Resumes(all, out, FetchAll(f, ks[|ks|..], little))
    ensures all == Got(out, f)
  {
    assert out + [] == out;
  }

  lemma FetchNext(all: Fetch<seq<Field>>, out: seq<Field>, f: Buffer, ks: seq<Kind>, i: nat, little: bool)
    requires f.Ok() && i < |ks| && Resumes(all, out, FetchAll(f, ks[i..], little))
    ensures var x := FetchField(f, ks[i], little);
      if x.Threw? then all == Threw(x.error, x.rest)
      else Resumes(all, out + [x.value], FetchAll(x.rest, ks[i + 1..], little))
  {
    assert ks[i..][1..] == ks[i + 1..];
    var x := FetchField(f, ks[i], little);
    if x.Got? {
      var t := FetchAll(x.rest, ks[i + 1..], little);
      if t.Got? { assert out + ([x.value] + t.value) == out + [x.value] + t.value; }
    }
  }

  /** No length is cut by its prefix, and the message does not end in an empty string on a block
      boundary at or past the capacity. */
  ghost predicate Survives(m: seq<Field>, little: bool, start: nat, capacity: nat, base: nat)
    requires AllTyped(m) && base > 0
  {
    && (forall i :: 0 <= i < |m| ==> Fits(m[i]))
    && var end := start + |EncodeAll(m, little)|;
    !(m != [] && EmptyText(m[|m| - 1]) && end >= capacity && Offset(end, base) == 0)
  }

  /** The whole round trip on one array of any block size, with any contents, written on a host of
      one byte order and read on one of another: write the fields, go back, read with matching
      calls. The same values come back, and the position ends where writing ended, exactly when
      the message survives there. */
  method RoundTrip(ba: BA.ByteArray, m: seq<Field>, little: bool, writer: bool, reader: bool) returns (r: Outcome<seq<Field>>)
    requires ba.Valid() && AllTyped(m)
    modifies ba, ba.repr
    ensures ba.Valid()
    ensures r == Value(m) <==> Survives(m, little, old(ba.position), old(ba.capacity), ba.base)
    ensures r == Value(m) ==> ba.position == old(ba.position) + |EncodeAll(m, little)|
  {
    WriteAndRewind(ba, m, little, writer);
    r := ReadMessage(ba, Kinds(m), little, reader);
  }

  method WriteAndRewind(ba: BA.ByteArray, m: seq<Field>, little: bool, host: bool)
    requires ba.Valid() && AllTyped(m)
    modifies ba, ba.repr
    ensures ba.Valid() && fresh(ba.repr - old(ba.repr))
    ensures var all := FetchAll(ba.View(), Kinds(m), little);
      && (all.Got? && all.value == m <==> Survives(m, little, old(ba.position), old(ba.capacity), ba.base))
      && (all.Got? && all.value == m ==> all.rest.pos == old(ba.position) + |EncodeAll(m, little)|)
  {
    var start := ba.position;
    ghost var f := ba.View();
    WriteMessage(ba, m, little, host);
    TripExact(f, ba.View(), m, little, |old(ba.nodes)|, |ba.nodes|, ba.base);
    SurvivesAt(m, little, f.pos, ba.position, old(ba.capacity), ba.base);
    var ok := ba.SetPosition(start);
  }

  lemma SurvivesAt(m: seq<Field>, little: bool, start: nat, end: nat, capacity: nat, base: nat)
    requires AllTyped(m) && base > 0 && end == start + |EncodeAll(m, little)|
    ensures Survives(m, little, start, capacity, base) <==>
      && (forall i :: 0 <= i < |m| ==> Fits(m[i]))
      && !(m != [] && EmptyText(m[|m| - 1]) && end >= capacity && Offset(end, base) == 0)
  {
  }

  lemma TripExact(f: Buffer, g: Buffer, m: seq<Field>, little: bool, before: nat, after: nat, base: nat)
    requires f.Ok() && AllTyped(m) && Wrote(f, EncodeAll(m, little), g) && base > 0
    requires |f.store| == Times(before, base) && |g.store| == Times(after, base) && LeastGrowth(|f.store|, |g.store|, g.pos, base)
    ensures g.Ok()
    ensures var r := FetchAll(SetPosition(g, f.pos), Kinds(m), little);
      && (r.Got? && r.value == m <==>
          && (forall i :: 0 <= i < |m| ==> Fits(m[i]))
          && !(m != [] && EmptyText(m[|m| - 1]) && g.pos >= |f.store| && Offset(g.pos, base) == 0))
      && (r.Got? && r.value == m ==> r.rest.pos == g.pos)
    ensures g.pos == f.pos + |EncodeAll(m, little)|
  {
    MessageThere(f, g, m, little);
    EndsFull(before, after, g.pos, base);
    MessageRoundTrip(SetPosition(g, f.pos), m, little);
  }
}
