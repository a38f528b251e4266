/** Typed messages over a flat buffer: lists of fixed-width, varint, zigzag and length-prefixed
    string fields, and exactly when reading them back returns what was written. */
module Message {
  import opened Flat
  import opened Codec

  datatype Prefix = F16 | F32 | F64 | Vint

  datatype Kind = FixedKind(width: nat, signed: bool) | VarKind(wide: bool) | ZigKind(wide: bool) | TextKind(prefix: Prefix)

  datatype Field =
    | Fixed(width: nat, signed: bool, number: int)
    | Var(wide: bool, count: nat)
    | Zig(wide: bool, number: int)
    | Text(prefix: Prefix, text: seq<byte>)
  {
    function Kind(): Kind {
      match this
      case Fixed(w, signed, _) => FixedKind(w, signed)
      case Var(wide, _) => VarKind(wide)
      case Zig(wide, _) => ZigKind(wide)
      case Text(prefix, _) => TextKind(prefix)
    }
  }

  function Modulus(wide: bool): nat { if wide then TwoTo64 else TwoTo32 }
  /** Reduction to 32 or 64 bits. */
  function Cut(v: nat, wide: bool): nat { if wide then v % TwoTo64 else v % TwoTo32 }
  function Half(wide: bool): nat { if wide then Half64 else Half32 }
  function Limit(wide: bool): nat { if wide then 10 else 5 }

  /** What the C++ argument types allow. */
  predicate WellTyped(x: Field) {
    match x
    case Fixed(w, signed, v) =>
      && (w == 1 || w == 2 || w == 4 || w == 8) && InRange(w, v)
      && (if signed then 2 * v < Pow256(w) else 0 <= v)
    case Var(wide, v) => v < Modulus(wide)
    case Zig(wide, v) => 0 <= v + Half(wide) && v < Half(wide)
    case Text(_, _) => true
  }

  // ---------- writing ----------

  function PrefixWidth(p: Prefix): nat { if p == F16 then 2 else if p == F32 then 4 else 8 }

  /** The length as its prefix carries it: cut to the prefix's width. */
  function CutLength(p: Prefix, n: nat): nat { if p == F16 then n % 65536 else if p == F32 then n % TwoTo32 else n % TwoTo64 }

  function LengthBytes(p: Prefix, n: nat, little: bool): seq<byte> {
    if p == Vint then Varint(CutLength(p, n)) else Image(little, PrefixWidth(p), CutLength(p, n))
  }

  function Encode(x: Field, little: bool): seq<byte>
    requires WellTyped(x)
  {
    match x
    case Fixed(w, _, v) => Image(little, w, Unsigned(w, v))
    case Var(_, v) => Varint(v)
    case Zig(wide, v) => ZigzagValue(v, Half(wide)); Varint(Zigzag(v, Half(wide)))
    case Text(p, s) => LengthBytes(p, |s|, little) + s
  }

  ghost predicate AllTyped(m: seq<Field>) { forall i :: 0 <= i < |m| ==> WellTyped(m[i]) }

  function EncodeAll(m: seq<Field>, little: bool): seq<byte>
    requires AllTyped(m)
  {
    if m == [] then [] else Encode(m[0], little) + EncodeAll(m[1..], little)
  }

  // ---------- reading ----------

  datatype Fetch<T> = Got(value: T, rest: Buffer) | Threw(error: ReadResult, rest: Buffer)

  function FetchBytes(f: Buffer, n: nat): (r: Fetch<seq<byte>>)
    requires f.Ok()
    ensures r.rest.Ok()
  {
    var r := Read(f, n);
    if r.Bytes? then Got(r.data, f.(pos := f.pos + n)) else Threw(r, f)
  }

  function FetchFixed(f: Buffer, w: nat, little: bool): (r: Fetch<nat>)
    requires f.Ok()
    ensures r.rest.Ok()
  {
    match FetchBytes(f, w)
    case Got(d, g) => Got(FromImage(little, d), g)
    case Threw(e, g) => Threw(e, g)
  }

  function FetchByte(f: Buffer): (r: Fetch<nat>)
    requires f.Ok()
    ensures r.rest.Ok()
  {
    match FetchBytes(f, 1)
    case Got(d, g) => Got(d[0], g)
    case Threw(e, g) => Threw(e, g)
  }

  /** Byte by byte, at most `limit` of them. */
  function FetchVarint(f: Buffer, limit: nat): (r: Fetch<nat>)
    requires f.Ok()
    ensures r.rest.Ok()
    decreases limit
  {
    if limit == 0 then Got(0, f)
    else
      match FetchByte(f)
      case Threw(e, g) => Threw(e, g)
      case Got(b, g) =>
        if b < 128 then Got(b, g)
        else
          match FetchVarint(g, limit - 1)
          case Threw(e, h) => Threw(e, h)
          case Got(v, h) => Got(b - 128 + 128 * v, h)
  }

  function FetchUint(f: Buffer, wide: bool): (r: Fetch<nat>)
    requires f.Ok()
    ensures r.rest.Ok()
  {
    match FetchVarint(f, Limit(wide))
    case Got(v, g) => Got(Cut(v, wide), g)
    case Threw(e, g) => Threw(e, g)
  }

  function FetchLength(f: Buffer, p: Prefix, little: bool): (r: Fetch<nat>)
    requires f.Ok()
    ensures r.rest.Ok()
  {
    if p == Vint then FetchUint(f, true) else FetchFixed(f, PrefixWidth(p), little)
  }

  function FetchField(f: Buffer, k: Kind, little: bool): (r: Fetch<Field>)
    requires f.Ok()
    ensures r.rest.Ok()
  {
    match k
    case FixedKind(w, signed) => (
      match FetchFixed(f, w, little)
      case Got(u, g) => Got(Fixed(w, signed, if signed then Signed(w, u) else u), g)
      case Threw(e, g) => Threw(e, g))
    case VarKind(wide) => (
      match FetchUint(f, wide)
      case Got(v, g) => Got(Var(wide, v), g)
      case Threw(e, g) => Threw(e, g))
    case ZigKind(wide) => (
      match FetchUint(f, wide)
      case Got(v, g) => Got(Zig(wide, Unzigzag(v, Half(wide))), g)
      case Threw(e, g) => Threw(e, g))
    case TextKind(p) => (
      match FetchLength(f, p, little)
      case Threw(e, g) => Threw(e, g)
      case Got(n, g) =>
        match FetchBytes(g, n)
        case Got(d, h) => Got(Text(p, d), h)
        case Threw(e, h) => Threw(e, h))
  }

  function Kinds(m: seq<Field>): (ks: seq<Kind>)
    ensures |ks| == |m|
  {
    if m == [] then [] else [m[0].Kind()] + Kinds(m[1..])
  }

  function FetchAll(f: Buffer, ks: seq<Kind>, little: bool): Fetch<seq<Field>>
    requires f.Ok()
    decreases |ks|
  {
    if ks == [] then Got([], f)
    else
      match FetchField(f, ks[0], little)
      case Threw(e, g) => Threw(e, g)
      case Got(x, g) =>
        match FetchAll(g, ks[1..], little)
        case Threw(e, h) => Threw(e, h)
        case Got(xs, h) => Got([x] + xs, h)
  }

  // ---------- round trips ----------

  /** The bytes d lie readable at the position. */
  ghost predicate Holds(f: Buffer, d: seq<byte>) {
    && f.Ok() && f.pos + |d| <= f.size
    && f.store[f.pos..f.pos + |d|] == d
  }

  function Past(f: Buffer, n: nat): Buffer { f.(pos := f.pos + n) }

  lemma HoldsSplit(f: Buffer, d: seq<byte>, e: seq<byte>)
    requires Holds(f, d + e)
    ensures Holds(f, d) && Holds(Past(f, |d|), e)
  {
    assert f.store[f.pos..f.pos + |d| + |e|][..|d|] == d;
    assert f.store[f.pos..f.pos + |d| + |e|][|d|..] == e;
  }

  lemma BytesBack(f: Buffer, d: seq<byte>)
    requires d != [] && Holds(f, d)
    ensures FetchBytes(f, |d|) == Got(d, Past(f, |d|))
  {
  }

  lemma FixedBack(f: Buffer, w: nat, v: nat, little: bool)
    requires 0 < w && v < Pow256(w) && Holds(f, Image(little, w, v))
    ensures FetchFixed(f, w, little) == Got(v, Past(f, w))
  {
    BytesBack(f, Image(little, w, v));
    ImageInverse(little, w, v);
  }

  lemma {:induction false} VarintBack(f: Buffer, v: nat, limit: nat)
    requires |Varint(v)| <= limit && Holds(f, Varint(v))
    ensures FetchVarint(f, limit) == Got(v, Past(f, |Varint(v)|))
    decreases limit
  {
    ByteBack(f);
    assert f.store[f.pos] == Varint(v)[0];
    if v >= 128 {
      HoldsSplit(f, [v % 128 + 128], Varint(v / 128));
      VarintBack(Past(f, 1), v / 128, limit - 1);
    }
  }

  lemma ByteBack(f: Buffer)
    requires f.Ok() && f.pos < f.size
    ensures FetchByte(f) == Got(f.store[f.pos], Past(f, 1))
  {
  }

  lemma CutSmall(v: nat, wide: bool)
    requires v < Modulus(wide)
    ensures Cut(v, wide) == v
  {
  }

  lemma UintBack(f: Buffer, v: nat, wide: bool)
    requires v < Modulus(wide) && Holds(f, Varint(v))
    ensures FetchUint(f, wide) == Got(v, Past(f, |Varint(v)|))
  {
    VarintFits(v);
    VarintBack(f, v, Limit(wide));
    CutSmall(v, wide);
  }

  lemma PowValues()
    ensures Pow256(1) == 256 && Pow256(2) == 65536 && Pow256(4) == TwoTo32 && Pow256(8) == TwoTo64
  {
    assert Pow256(4) == 256 * Pow256(3) == 256 * (256 * Pow256(2));
    assert Pow256(8) == 256 * Pow256(7) == 256 * (256 * Pow256(6));
    assert Pow256(6) == 256 * Pow256(5) == 256 * (256 * Pow256(4));
  }

  lemma LengthBack(f: Buffer, p: Prefix, n: nat, little: bool)
    requires Holds(f, LengthBytes(p, n, little))
    ensures FetchLength(f, p, little) == Got(CutLength(p, n), Past(f, |LengthBytes(p, n, little)|))
    ensures LengthBytes(p, n, little) != []
  {
    PowValues();
    if p == Vint {
      UintBack(f, CutLength(p, n), true);
    } else {
      FixedBack(f, PrefixWidth(p), CutLength(p, n), little);
    }
  }

  /** The prefix can carry the length. */
  predicate Fits(x: Field) { x.Text? ==> CutLength(x.prefix, |x.text|) == |x.text| }

  predicate EmptyText(x: Field) { x.Text? && x.text == [] }

  lemma NumberBack(f: Buffer, x: Field, little: bool)
    requires !x.Text? && WellTyped(x) && Holds(f, Encode(x, little))
    ensures FetchField(f, x.Kind(), little) == Got(x, Past(f, |Encode(x, little)|))
  {
    match x
    case Fixed(w, signed, v) =>
      SignedInverse(w, v);
      FixedBack(f, w, Unsigned(w, v), little);
    case Var(wide, v) =>
      UintBack(f, v, wide);
    case Zig(wide, v) =>
      ZigzagBijection(v, 0, Half(wide));
      UintBack(f, Zigzag(v, Half(wide)), wide);
    case Text(_, _) =>
  }

  /** The prefix can carry the length, and this is not an empty string at the very end of the blocks. */
  predicate FieldReadable(f: Buffer, x: Field, little: bool)
    requires WellTyped(x)
  {
    Fits(x) && !(EmptyText(x) && f.pos + |Encode(x, little)| == |f.store|)
  }

  /** A field comes back exactly when it is readable there. */
  ghost predicate ComesBack(r: Fetch<Field>, f: Buffer, x: Field, little: bool)
    requires WellTyped(x)
  {
    if FieldReadable(f, x, little) then r == Got(x, Past(f, |Encode(x, little)|)) else r.Threw? || r.value != x
  }

  lemma TextBack(f: Buffer, x: Field, little: bool)
    requires x.Text? && Holds(f, Encode(x, little))
    ensures ComesBack(FetchField(f, x.Kind(), little), f, x, little)
  {
    var m := LengthBytes(x.prefix, |x.text|, little);
    HoldsSplit(f, m, x.text);
    LengthBack(f, x.prefix, |x.text|, little);
  }

  lemma FieldBack(f: Buffer, x: Field, little: bool)
    requires WellTyped(x) && Holds(f, Encode(x, little))
    ensures ComesBack(FetchField(f, x.Kind(), little), f, x, little)
  {
    if x.Text? { TextBack(f, x, little); } else { NumberBack(f, x, little); }
  }

  /** Every field takes at least a byte. */
  lemma EncodeSome(x: Field, little: bool)
    requires WellTyped(x)
    ensures Encode(x, little) != []
  {
    if x.Text? && x.prefix != Vint {
      assert |LengthBytes(x.prefix, |x.text|, little)| == PrefixWidth(x.prefix);
    }
  }

  /** All lengths fit their prefixes, and the message does not end in an empty string at the
      very end of the blocks. */
  ghost predicate Readable(f: Buffer, m: seq<Field>, little: bool)
    requires AllTyped(m)
  {
    && (forall i :: 0 <= i < |m| ==> Fits(m[i]))
    && !(m != [] && EmptyText(m[|m| - 1]) && f.pos + |EncodeAll(m, little)| == |f.store|)
  }

  /** Reading a written message back from its start returns the fields exactly when the message
      is Readable there, and then ends where writing ended. */
  lemma {:induction false} MessageRoundTrip(f: Buffer, m: seq<Field>, little: bool)
    requires AllTyped(m) && Holds(f, EncodeAll(m, little))
    ensures var r := FetchAll(f, Kinds(m), little);
            && (r.Got? && r.value == m <==> Readable(f, m, little))
            && (Readable(f, m, little) ==> r.rest == Past(f, |EncodeAll(m, little)|))
    decreases |m|
  {
    if m != [] {
      var d := Encode(m[0], little);
      HoldsSplit(f, d, EncodeAll(m[1..], little));
      FieldBack(f, m[0], little);
      ReadableSplit(f, m, little);
      FetchFirst(f, m, little);
      if FieldReadable(f, m[0], little) {
        MessageRoundTrip(Past(f, |d|), m[1..], little);
      }
    }
  }

  /** A message is fetched by fetching its first field and then the others. */
  lemma FetchFirst(f: Buffer, m: seq<Field>, little: bool)
    requires m != [] && f.Ok()
    ensures var r := FetchAll(f, Kinds(m), little);
            var x := FetchField(f, m[0].Kind(), little);
            if x.Threw? then r.Threw?
            else
              var t := FetchAll(x.rest, Kinds(m[1..]), little);
              && r.rest == t.rest
              && (r.Got? && r.value == m <==> x.value == m[0] && t.Got? && t.value == m[1..])
  {
    assert Kinds(m)[1..] == Kinds(m[1..]);
    var x := FetchField(f, m[0].Kind(), little);
    if x.Got? {
      var t := FetchAll(x.rest, Kinds(m[1..]), little);
      if t.Got? {
        assert ([x.value] + t.value)[1..] == t.value;
        assert m == [m[0]] + m[1..];
      }
    }
  }

  lemma ReadableSplit(f: Buffer, m: seq<Field>, little: bool)
    requires m != [] && AllTyped(m) && Holds(f, EncodeAll(m, little))
    ensures Readable(f, m, little) <==>
            FieldReadable(f, m[0], little) && Readable(Past(f, |Encode(m[0], little)|), m[1..], little)
  {
    FitsSplit(m);
    var d, e := Encode(m[0], little), EncodeAll(m[1..], little);
    assert |EncodeAll(m, little)| == |d| + |e|;
    if |m| > 1 {
      EncodeAllSome(m[1..], little);
      assert FieldReadable(f, m[0], little) <==> Fits(m[0]);
    } else {
      assert m[1..] == [] && m[|m| - 1] == m[0];
    }
  }

  lemma FitsSplit(m: seq<Field>)
    requires m != []
    ensures (forall i :: 0 <= i < |m| ==> Fits(m[i])) <==> Fits(m[0]) && forall i :: 0 <= i < |m[1..]| ==> Fits(m[1..][i])
    ensures |m| > 1 ==> m[1..][|m| - 2] == m[|m| - 1]
  {
    var t := m[1..];
    assert forall i :: 0 < i < |m| ==> m[i] == t[i - 1];
  }

  lemma EncodeAllSome(m: seq<Field>, little: bool)
    requires m != [] && AllTyped(m)
    ensures EncodeAll(m, little) != []
  {
    EncodeSome(m[0], little);
  }

  // ---------- the bytes of each field ----------

  /** A length prefix of w bytes, or a varint, and then the text. */
  lemma TextOnWire(p: Prefix, text: seq<byte>, little: bool)
    ensures var d := Encode(Text(p, text), little);
      match p
      case F16 => |d| == 2 + |text| && d[2..] == text && d[..2] == Image(little, 2, |text| % 65536)
      case F32 => |d| == 4 + |text| && d[4..] == text && d[..4] == Image(little, 4, |text| % 4294967296)
      case F64 => |d| == 8 + |text| && d[8..] == text && d[..8] == Image(little, 8, |text| % 18446744073709551616)
      case Vint => d == Varint(|text| % 18446744073709551616) + text && 1 <= |d| - |text| <= 10
  {
    var d := LengthBytes(p, |text|, little);
    assert (d + text)[..|d|] == d && (d + text)[|d|..] == text;
    VarintFits(|text| % TwoTo64);
  }

  /** A number takes its width, or as few bytes as its varint needs. */
  lemma NumberOnWire(x: Field, little: bool)
    requires !x.Text? && WellTyped(x)
    ensures match x
      case Fixed(w, _, v) => |Encode(x, little)| == w && Encode(x, little) == Image(little, w, if v < 0 then v + Pow256(w) else v)
      case Var(wide, v) => Encode(x, little) == Varint(v) && |Encode(x, little)| <= (if wide then 10 else 5)
      case Zig(wide, v) => Encode(x, little) == Varint(if v < 0 then -2 * v - 1 else 2 * v) && |Encode(x, little)| <= (if wide then 10 else 5)
      case Text(_, _) => true
  {
    match x
    case Fixed(w, _, v) =>
    case Var(wide, v) => VarintFits(v);
    case Zig(wide, v) =>
      ZigzagValue(v, Half(wide));
      VarintFits(Zigzag(v, Half(wide)));
    case Text(_, _) =>
  }

  // ---------- any bytes at all ----------

  /** How many bytes a varint read takes from s at p, when it looks at no more than n: up to the first one
      without the mark, or all n. */
  function TakesBytes(s: seq<byte>, p: nat, n: nat): (k: nat)
    requires p + n <= |s|
    ensures k <= n && (n > 0 ==> k > 0)
    decreases n
  {
    if n == 0 then 0 else if s[p] < 128 then 1 else TakesBytes(s, p + 1, n - 1) + 1
  }

  lemma {:induction false} TakesBytesIs(s: seq<byte>, p: nat, n: nat)
    requires p + n <= |s|
    ensures var k := TakesBytes(s, p, n);
      (forall i :: p <= i < p + k - 1 ==> s[i] >= 128) && (k < n ==> s[p + k - 1] < 128)
    decreases n
  {
    if n > 0 && s[p] >= 128 { TakesBytesIs(s, p + 1, n - 1); }
  }

  /** The low seven bits of each byte, lowest first. */
  function LowSevens(s: seq<byte>): nat { if s == [] then 0 else s[0] % 128 + 128 * LowSevens(s[1..]) }

  /** The same, byte by byte. */
  function Sevens(s: seq<byte>, p: nat, n: nat): nat
    requires p + n <= |s|
    decreases n
  {
    if n == 0 then 0 else if s[p] < 128 then s[p] else s[p] - 128 + 128 * Sevens(s, p + 1, n - 1)
  }

  lemma {:induction false} SevensTogether(s: seq<byte>, p: nat, n: nat)
    requires p + n <= |s|
    ensures Sevens(s, p, n) == LowSevens(s[p..p + TakesBytes(s, p, n)])
    decreases n
  {
    if n > 0 {
      var d := s[p..p + TakesBytes(s, p, n)];
      if s[p] < 128 {
        assert d[1..] == [];
      } else {
        SevensTogether(s, p + 1, n - 1);
        assert d[1..] == s[p + 1..p + 1 + TakesBytes(s, p + 1, n - 1)];
      }
    }
  }

  /** The first of at most n bytes without the mark is among them. */
  predicate Stops(s: seq<byte>, p: nat, n: nat)
    requires p + n <= |s|
  {
    n > 0 && s[p + TakesBytes(s, p, n) - 1] < 128
  }

  function AtMost(f: Buffer, limit: nat): nat
    requires f.Ok()
  {
    if limit < f.size - f.pos then limit else f.size - f.pos
  }

  lemma FetchStep(f: Buffer, limit: nat)
    requires f.Ok() && 0 < limit
    ensures f.pos == f.size ==> FetchVarint(f, limit) == Threw(OutOfRange, f)
    ensures f.pos < f.size ==>
      var b, r := f.store[f.pos], FetchVarint(Past(f, 1), limit - 1);
      FetchVarint(f, limit) ==
        if b < 128 then Got(b, Past(f, 1))
        else if r.Got? then Got(b - 128 + 128 * r.value, r.rest)
        else r
  {
    if f.pos < f.size { ByteBack(f); }
  }

  /** What a varint read of at most `limit` bytes gives. It raises, with the position at the end of the
      data, when the data ends before the varint does. */
  function AnyVarint(f: Buffer, limit: nat): Fetch<nat>
    requires f.Ok()
  {
    var n := AtMost(f, limit);
    if n == limit || Stops(f.store, f.pos, n)
    then Got(Sevens(f.store, f.pos, n), Past(f, TakesBytes(f.store, f.pos, n)))
    else Threw(OutOfRange, Past(f, f.size - f.pos))
  }

  lemma AnyStep(f: Buffer, limit: nat)
    requires f.Ok() && 0 < limit
    ensures f.pos == f.size ==> AnyVarint(f, limit) == Threw(OutOfRange, f)
    ensures f.pos < f.size ==>
      var b, r := f.store[f.pos], AnyVarint(Past(f, 1), limit - 1);
      AnyVarint(f, limit) ==
        if b < 128 then Got(b, Past(f, 1))
        else if r.Got? then Got(b - 128 + 128 * r.value, r.rest)
        else r
  {
  }

  lemma {:induction false} FetchVarintMeans(f: Buffer, limit: nat)
    requires f.Ok()
    ensures FetchVarint(f, limit) == AnyVarint(f, limit)
    decreases limit
  {
    if limit > 0 {
      FetchStep(f, limit);
      AnyStep(f, limit);
      if f.pos < f.size { FetchVarintMeans(Past(f, 1), limit - 1); }
    }
  }

  /** Reading an unsigned varint, whatever the bytes are. It looks at no more than five bytes, or ten, up
      to the first without the mark, and what their low seven bits make is cut to 32 bits, or 64. */
  lemma UintFromAnyBytes(f: Buffer, wide: bool)
    requires f.Ok()
    ensures var r := AnyVarint(f, if wide then 10 else 5);
      FetchUint(f, wide) ==
        if r.Threw? then r
        else Got(if wide then r.value % 18446744073709551616 else r.value % 4294967296, r.rest)
  {
    FetchVarintMeans(f, if wide then 10 else 5);
  }

  /** Reading a fixed-width integer, whatever the bytes are: it raises, taking nothing, when they are too
      few; otherwise it takes exactly its width. */
  lemma FixedFromAnyBytes(f: Buffer, w: nat, little: bool)
    requires f.Ok() && w > 0
    ensures FetchFixed(f, w, little) ==
      if f.size - f.pos < w then Threw(OutOfRange, f)
      else Got(FromImage(little, f.store[f.pos..f.pos + w]), Past(f, w))
  {
    var r := FetchBytes(f, w);
    if f.size - f.pos < w {
      assert r == Threw(OutOfRange, f);
    } else {
      var d := f.store[f.pos..f.pos + w];
      assert r == Got(d, Past(f, w));
      assert FetchFixed(f, w, little) == Got(FromImage(little, d), Past(f, w));
    }
  }

  /** Reading a string, whatever the bytes are. Its length is taken even when the text is not all there;
      an empty text at the very end of the blocks is not read. */
  lemma TextFromAnyBytes(f: Buffer, p: Prefix, little: bool)
    requires f.Ok()
    ensures var r, n := FetchField(f, TextKind(p), little), FetchLength(f, p, little);
      if n.Threw? then r == Threw(n.error, n.rest)
      else if n.rest.size - n.rest.pos < n.value then r == Threw(OutOfRange, n.rest)
      else if n.rest.pos == |f.store| then r == Threw(NullBlock, n.rest)
      else r == Got(Text(p, n.rest.store[n.rest.pos..n.rest.pos + n.value]), Past(n.rest, n.value))
  {
    LengthKeeps(f, p, little);
  }

  lemma LengthKeeps(f: Buffer, p: Prefix, little: bool)
    requires f.Ok()
    ensures var n := FetchLength(f, p, little); n.rest.store == f.store && n.rest.size == f.size
    ensures p != Vint ==>
      FetchLength(f, p, little) == FetchFixed(f, if p == F16 then 2 else if p == F32 then 4 else 8, little)
  {
    if p == Vint { FetchVarintMeans(f, 10); }
  }
}
