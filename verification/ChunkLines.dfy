/** The chunk-size line as the response parser scans it, and the chunked coding of section 7.1 of
    RFC 9112 that the decoder undoes. */
module ChunkLines {
  import opened Common
  import opened Flat

  const CR: byte := 13
  const LF: byte := 10
  const Semicolon: byte := 59
  const Equals: byte := 61

  predicate IsHex(b: byte) { 48 <= b <= 57 || 65 <= b <= 70 || 97 <= b <= 102 }

  function HexDigit(b: byte): nat
    requires IsHex(b)
  {
    if b <= 57 then b - 48 else if b <= 70 then b - 55 else b - 87
  }

  predicate IsToken(b: byte) {
    || b == 33 || 35 <= b <= 39 || b == 42 || b == 43 || b == 45 || b == 46
    || 48 <= b <= 57 || 65 <= b <= 90 || 94 <= b <= 122 || b == 124 || b == 126
  }

  // ---------- the scanner ----------

  datatype LineState = Start | Size | NeedLF | ExtStart | ExtName | ValueStart | Value

  /** The states in which a line feed completes the line. */
  predicate MayEnd(st: LineState) { st != Start && st != ExtStart && st != ValueStart }

  function Next(st: LineState, b: byte): Option<LineState> {
    match st
    case Start => if IsHex(b) then Some(Size) else None
    case Size => if b == CR then Some(NeedLF) else if b == Semicolon then Some(ExtStart) else if IsHex(b) then Some(Size) else None
    case NeedLF => None
    case ExtStart => if IsToken(b) then Some(ExtName) else None
    case ExtName =>
      if b == CR then Some(NeedLF) else if b == Semicolon then Some(ExtStart)
      else if b == Equals then Some(ValueStart) else if IsToken(b) then Some(ExtName) else None
    case ValueStart => if IsToken(b) then Some(Value) else None
    case Value =>
      if b == CR then Some(NeedLF) else if b == Semicolon then Some(ExtStart) else if IsToken(b) then Some(Value) else None
  }

  /** A whole line and its length, a line that goes on past the data, or an error. */
  datatype Scan = Line(n: nat) | More | Bad

  function ScanFrom(st: LineState, s: seq<byte>): (r: Scan)
    ensures r.Line? ==> 0 < r.n <= |s|
    decreases |s|
  {
    if s == [] then More
    else if s[0] == LF && MayEnd(st) then Line(1)
    else
      match Next(st, s[0])
      case None => Bad
      case Some(t) =>
        match ScanFrom(t, s[1..])
        case Line(n) => Line(n + 1)
        case More => More
        case Bad => Bad
  }

  /** strtol in base 16: the digits in front. */
  function HexFrom(acc: nat, s: seq<byte>): nat
    decreases |s|
  {
    if s == [] || !IsHex(s[0]) then acc else HexFrom(16 * acc + HexDigit(s[0]), s[1..])
  }

  /** `line` is one whole size line for n bytes. */
  predicate LineOf(line: seq<byte>, n: nat) { ScanFrom(Start, line) == Line(|line|) && HexFrom(0, line) == n }

  /** A line is recognised whatever follows it... */
  lemma {:induction false} ScanWhole(st: LineState, line: seq<byte>, rest: seq<byte>)
    requires ScanFrom(st, line) == Line(|line|)
    ensures ScanFrom(st, line + rest) == Line(|line|)
    decreases |line|
  {
    if !(line[0] == LF && MayEnd(st)) {
      ScanWhole(Next(st, line[0]).value, line[1..], rest);
      assert (line + rest)[1..] == line[1..] + rest;
    }
  }

  /** ...and so is its number. */
  lemma {:induction false} HexWhole(st: LineState, acc: nat, line: seq<byte>, rest: seq<byte>)
    requires ScanFrom(st, line) == Line(|line|)
    ensures HexFrom(acc, line + rest) == HexFrom(acc, line)
    decreases |line|
  {
    if IsHex(line[0]) {
      HexWhole(Next(st, line[0]).value, 16 * acc + HexDigit(line[0]), line[1..], rest);
      assert (line + rest)[1..] == line[1..] + rest;
    }
  }

  /** A proper prefix of a line is not a line: the scanner asks for more. */
  lemma {:induction false} ScanPart(st: LineState, line: seq<byte>, k: nat)
    requires ScanFrom(st, line) == Line(|line|) && k < |line|
    ensures ScanFrom(st, line[..k]) == More
    decreases k
  {
    if k > 0 {
      ScanPart(Next(st, line[0]).value, line[1..], k - 1);
      assert line[..k][1..] == line[1..][..k - 1];
    }
  }

  /** Scanning a buffer that begins with a line of n. */
  lemma ScanLine(line: seq<byte>, n: nat, buffer: seq<byte>)
    requires LineOf(line, n) && line <= buffer
    ensures ScanFrom(Start, buffer) == Line(|line|) && HexFrom(0, buffer) == n
  {
    var rest := buffer[|line|..];
    assert buffer == line + rest;
    ScanWhole(Start, line, rest);
    HexWhole(Start, 0, line, rest);
  }

  // ---------- every size has a line ----------

  function HexChar(d: nat): byte
    requires d < 16
  {
    if d < 10 then 48 + d else 87 + d
  }

  function HexDigits(n: nat): (s: seq<byte>)
    ensures s != []
    ensures forall i :: 0 <= i < |s| ==> IsHex(s[i])
  {
    if n < 16 then [HexChar(n)] else HexDigits(n / 16) + [HexChar(n % 16)]
  }

  lemma {:induction false} HexAppend(acc: nat, s: seq<byte>, rest: seq<byte>)
    requires forall i :: 0 <= i < |s| ==> IsHex(s[i])
    ensures HexFrom(acc, s + rest) == HexFrom(HexFrom(acc, s), rest)
    decreases |s|
  {
    if s == [] {
      assert s + rest == rest;
    } else {
      assert (s + rest)[1..] == s[1..] + rest;
      HexAppend(16 * acc + HexDigit(s[0]), s[1..], rest);
    }
  }

  lemma {:induction false} HexDigitsValue(n: nat)
    ensures HexFrom(0, HexDigits(n)) == n
    decreases n
  {
    if n < 16 {
      HexOne(0, HexChar(n));
    } else {
      HexDigitsValue(n / 16);
      HexAppend(0, HexDigits(n / 16), [HexChar(n % 16)]);
      HexOne(n / 16, HexChar(n % 16));
    }
  }

  lemma HexOne(acc: nat, b: byte)
    requires IsHex(b)
    ensures HexFrom(acc, [b]) == 16 * acc + HexDigit(b)
  {
    assert [b][1..] == [];
  }

  lemma {:induction false} ScanDigits(s: seq<byte>, st: LineState)
    requires st == Size || (st == Start && s != [])
    requires forall i :: 0 <= i < |s| ==> IsHex(s[i])
    ensures ScanFrom(st, s + [CR, LF]) == Line(|s| + 2)
    decreases |s|
  {
    if s == [] {
      assert s + [CR, LF] == [CR, LF];
      assert [CR, LF][1..] == [LF];
    } else {
      assert (s + [CR, LF])[1..] == s[1..] + [CR, LF];
      ScanDigits(s[1..], Size);
    }
  }

  /** The hexadecimal form of any size, with its line end, is a size line for it. */
  lemma EverySizeHasALine(n: nat)
    ensures LineOf(HexDigits(n) + [CR, LF], n)
  {
    var s := HexDigits(n);
    ScanDigits(s, Start);
    HexDigitsValue(n);
    HexAppend(0, s, [CR, LF]);
  }

  // ---------- what a size line is ----------

  /** A digit is written as itself; ten to fifteen as a letter of either case. */
  predicate Shows(b: byte, d: nat) {
    if d < 10 then b == 48 + d else d < 16 && (b == 65 + (d - 10) || b == 97 + (d - 10))
  }

  /** s is a way to write n in base 16: any case for each digit, and any number of zeros in front. */
  predicate Spelling(s: seq<byte>, n: nat)
    decreases |s|
  {
    && s != [] && Shows(s[|s| - 1], n % 16)
    && if |s| == 1 then n < 16 else Spelling(s[..|s| - 1], n / 16)
  }

  /** The token characters of the parser's grammar: what is printable and not a separator. */
  lemma TokensAre(b: byte)
    ensures IsToken(b) <==>
      32 < b < 127 && b !in {40, 41, 60, 62, 64, 44, 59, 58, 92, 34, 47, 91, 93, 63, 61, 123, 125}
  {
  }

  lemma DigitsAre(b: byte)
    ensures IsHex(b) <==> exists d :: 0 <= d < 16 && Shows(b, d)
    ensures forall d :: 0 <= d < 16 ==> (Shows(b, d) <==> IsHex(b) && HexDigit(b) == d)
  {
    if IsHex(b) { assert Shows(b, HexDigit(b)); }
  }

  /** s without the token characters it begins with. */
  function AfterToken(s: seq<byte>): (r: seq<byte>)
    ensures |r| <= |s|
    decreases |s|
  {
    if s == [] || !IsToken(s[0]) then s else AfterToken(s[1..])
  }

  function AfterDigits(s: seq<byte>): (r: seq<byte>)
    ensures |r| <= |s|
    decreases |s|
  {
    if s == [] || !IsHex(s[0]) then s else AfterDigits(s[1..])
  }

  predicate OpensToken(s: seq<byte>) { s != [] && IsToken(s[0]) }

  /** The rest of a line after its digits: the line end, or an extension and the rest after that. An
      extension is a semicolon and a name, or that with an equals sign and a value. */
  predicate Tail(t: seq<byte>)
    decreases |t|, 0
  {
    t == [10] || t == [13, 10] || (t != [] && t[0] == 59 && OpensToken(t[1..]) && AfterName(AfterToken(t[1..])))
  }

  predicate AfterName(t: seq<byte>)
    decreases |t|, 1
  {
    Tail(t) || (t != [] && t[0] == 61 && OpensToken(t[1..]) && Tail(AfterToken(t[1..])))
  }

  /** What completes a line from each state of the scanner. */
  predicate Accepts(st: LineState, t: seq<byte>) {
    match st
    case Start => t != [] && IsHex(t[0]) && Tail(AfterDigits(t))
    case Size => Tail(AfterDigits(t))
    case NeedLF => t == [10]
    case ExtStart => OpensToken(t) && AfterName(AfterToken(t))
    case ExtName => AfterName(AfterToken(t))
    case ValueStart => OpensToken(t) && Tail(AfterToken(t))
    case Value => Tail(AfterToken(t))
  }

  /** One byte of a completing string: the line feed that ends it, or a step of the scanner. */
  lemma AcceptsStep(st: LineState, t: seq<byte>)
    requires t != []
    ensures Accepts(st, t) <==>
      if t[0] == LF && MayEnd(st) then |t| == 1
      else Next(st, t[0]).Some? && Accepts(Next(st, t[0]).value, t[1..])
  {
    TailStep(t);
  }

  lemma TailStep(t: seq<byte>)
    requires t != []
    ensures Tail(t) <==> (t[0] == LF && |t| == 1) || (t[0] == CR && Accepts(NeedLF, t[1..])) || (t[0] == Semicolon && Accepts(ExtStart, t[1..]))
  {
  }

  lemma {:induction false} ScanGrammar(st: LineState, t: seq<byte>)
    ensures ScanFrom(st, t) == Line(|t|) <==> Accepts(st, t)
    decreases |t|
  {
    if t == [] {
      assert AfterToken(t) == AfterDigits(t) == t && !Tail(t) && !AfterName(t);
    } else {
      AcceptsStep(st, t);
      if Next(st, t[0]).Some? { ScanGrammar(Next(st, t[0]).value, t[1..]); }
    }
  }

  lemma {:induction false} SpellingHex(s: seq<byte>, n: nat)
    requires Spelling(s, n)
    ensures (forall i :: 0 <= i < |s| ==> IsHex(s[i])) && HexFrom(0, s) == n
    decreases |s|
  {
    var last := |s| - 1;
    DigitsAre(s[last]);
    HexOne(n / 16, s[last]);
    if last > 0 {
      SpellingHex(s[..last], n / 16);
      assert s == s[..last] + [s[last]];
      HexAppend(0, s[..last], [s[last]]);
    } else {
      assert s == [s[0]];
      HexOne(0, s[0]);
    }
  }

  lemma {:induction false} HexSpelling(s: seq<byte>)
    requires s != [] && forall i :: 0 <= i < |s| ==> IsHex(s[i])
    ensures Spelling(s, HexFrom(0, s))
    decreases |s|
  {
    var last := |s| - 1;
    DigitsAre(s[last]);
    if last > 0 {
      HexSpelling(s[..last]);
      assert s == s[..last] + [s[last]];
      HexAppend(0, s[..last], [s[last]]);
      HexOne(HexFrom(0, s[..last]), s[last]);
      LastDigit(HexFrom(0, s[..last]), HexDigit(s[last]));
    } else {
      assert s == [s[0]];
      HexOne(0, s[0]);
      LastDigit(0, HexDigit(s[0]));
    }
  }

  lemma LastDigit(a: nat, d: nat)
    requires d < 16
    ensures (16 * a + d) / 16 == a && (16 * a + d) % 16 == d
  {
  }

  lemma {:induction false} RunIsHex(s: seq<byte>)
    ensures forall i :: 0 <= i < HexRun(s) ==> IsHex(s[i])
    decreases |s|
  {
    if s != [] && IsHex(s[0]) {
      RunIsHex(s[1..]);
      assert forall i :: 1 <= i < HexRun(s) ==> s[i] == s[1..][i - 1];
    }
  }

  lemma {:induction false} RunCut(s: seq<byte>)
    ensures s[HexRun(s)..] == AfterDigits(s)
    decreases |s|
  {
    if s != [] && IsHex(s[0]) { RunCut(s[1..]); }
  }

  lemma {:induction false} DigitsThen(digits: seq<byte>, rest: seq<byte>)
    requires (forall i :: 0 <= i < |digits| ==> IsHex(digits[i])) && (rest != [] ==> !IsHex(rest[0]))
    ensures AfterDigits(digits + rest) == rest
    decreases |digits|
  {
    if digits == [] {
      assert digits + rest == rest;
    } else {
      assert (digits + rest)[1..] == digits[1..] + rest;
      DigitsThen(digits[1..], rest);
    }
  }

  /** Every spelling of n with a line end, extensions before it or not, is a size line for n. */
  lemma EverySpelling(digits: seq<byte>, n: nat, tail: seq<byte>)
    requires Spelling(digits, n) && Tail(tail)
    ensures LineOf(digits + tail, n)
  {
    SpellingHex(digits, n);
    DigitsThen(digits, tail);
    ScanGrammar(Start, digits + tail);
    HexAppend(0, digits, tail);
  }

  /** And there are no other size lines for n. */
  lemma OnlySpellings(line: seq<byte>, n: nat)
    requires LineOf(line, n)
    ensures Spelling(line[..HexRun(line)], n) && Tail(line[HexRun(line)..])
  {
    var h := HexRun(line);
    ScanGrammar(Start, line);
    RunIsHex(line);
    RunCut(line);
    assert line == line[..h] + line[h..];
    HexAppend(0, line[..h], line[h..]);
    HexSpelling(line[..h]);
  }

  // ---------- chunk lists ----------

  datatype Chunk = Chunk(line: seq<byte>, payload: seq<byte>)

  function ChunkBytes(c: Chunk): seq<byte> { c.line + c.payload + [13, 10] }

  /** The first k chunks on the wire, and their payloads. */
  function EncodedUpTo(cs: seq<Chunk>, k: nat): seq<byte>
    requires k <= |cs|
  {
    if k == 0 then [] else EncodedUpTo(cs, k - 1) + ChunkBytes(cs[k - 1])
  }

  function PayloadsUpTo(cs: seq<Chunk>, k: nat): seq<byte>
    requires k <= |cs|
  {
    if k == 0 then [] else PayloadsUpTo(cs, k - 1) + cs[k - 1].payload
  }

  function Encoded(cs: seq<Chunk>): seq<byte> { EncodedUpTo(cs, |cs|) }

  function Payloads(cs: seq<Chunk>): seq<byte> { PayloadsUpTo(cs, |cs|) }

  /** Chunks with their size lines, none empty but the last, and none so large that its size and
      line end overflow an int. */
  ghost predicate WellFormed(cs: seq<Chunk>) {
    && cs != []
    && (forall i :: 0 <= i < |cs| ==> LineOf(cs[i].line, |cs[i].payload|) && |cs[i].payload| <= 0x7fff_fffd)
    && (forall i :: 0 <= i < |cs| ==> (cs[i].payload == [] <==> i == |cs| - 1))
  }

  lemma {:induction false} EncodedPrefix(cs: seq<Chunk>, k: nat, n: nat)
    requires k <= n <= |cs|
    ensures EncodedUpTo(cs, k) <= EncodedUpTo(cs, n)
    decreases n
  {
    if k < n { EncodedPrefix(cs, k, n - 1); }
  }

  /** Where chunk k begins in the stream. */
  function StartOf(cs: seq<Chunk>, k: nat): nat
    requires k <= |cs|
  {
    |EncodedUpTo(cs, k)|
  }

  // ---------- the rest of a line ----------

  /** How many digits a line begins with. */
  function HexRun(s: seq<byte>): (h: nat)
    ensures h <= |s| && (h < |s| ==> !IsHex(s[h]))
    decreases |s|
  {
    if s == [] || !IsHex(s[0]) then 0 else HexRun(s[1..]) + 1
  }

  predicate EndsNumber(b: byte) { b == Semicolon || b == CR || b == LF }

  /** s begins with a number: digits, and then an extension or the line end. */
  predicate Numbered(s: seq<byte>) { 0 < HexRun(s) < |s| && EndsNumber(s[HexRun(s)]) }

  /** Reading on from inside a number, an extension's name or its value. */
  lemma {:induction false} ScanAlike(st: LineState, s: seq<byte>)
    requires (st == Size || st == ExtName || st == Value) && ScanFrom(st, s) == Line(|s|)
    ensures HexRun(s) < |s|
    ensures ScanFrom(Size, s) == if EndsNumber(s[HexRun(s)]) then Line(|s|) else Bad
    decreases |s|
  {
    if IsHex(s[0]) { ScanAlike(Next(st, s[0]).value, s[1..]); }
  }

  /** What the parser makes of the rest of a line when it is restarted there. */
  lemma ScanTail(st: LineState, s: seq<byte>)
    requires st != Start && ScanFrom(st, s) == Line(|s|)
    ensures ScanFrom(Start, s) == if Numbered(s) then Line(|s|) else Bad
  {
    if IsHex(s[0]) { ScanAlike(Next(st, s[0]).value, s[1..]); }
  }

  /** The scanner after some bytes. */
  function StateAfter(st: LineState, s: seq<byte>): Option<LineState>
    decreases |s|
  {
    if s == [] then Some(st) else match Next(st, s[0]) case None => None case Some(t) => StateAfter(t, s[1..])
  }

  /** Inside a line the scanner is in some state from which the rest completes it. */
  lemma {:induction false} Midway(st: LineState, line: seq<byte>, j: nat)
    requires ScanFrom(st, line) == Line(|line|) && j < |line|
    ensures var mid := StateAfter(st, line[..j]);
      mid.Some? && ScanFrom(mid.value, line[j..]) == Line(|line| - j) && (j > 0 ==> mid.value != Start)
    decreases j
  {
    if j == 0 {
      assert line[0..] == line;
    } else {
      Midway(Next(st, line[0]).value, line[1..], j - 1);
      assert line[j..] == line[1..][j - 1..] && line[..j][1..] == line[1..][..j - 1];
    }
  }
}
