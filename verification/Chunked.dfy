/** The chunked-body loop of the HTTP client: a bounded buffer with leftovers over a socket whose
    reads may be as short as they like. */
module Chunked {
  import opened Common
  import opened Flat
  import opened ChunkLines
  import opened Streams
  import BA = ByteArray

  /** What the parser makes of the buffer. */
  datatype Parsed = Finished(size: int) | Unfinished | Failed

  /** The decoded body; the connection closed after a failed read or a bad line; or a size (2 GiB
      or so) whose int arithmetic goes wrong. */
  datatype Decoded = Body(body: seq<byte>) | Closed | Broken

  const LongMax: nat := 0x7fff_ffff_ffff_ffff

  /** The parser's int content_len: strtol saturates, the assignment truncates. */
  function ContentLen(n: nat): int { Int32(if n > LongMax then LongMax else n) }

  lemma ContentSmall(n: nat)
    requires n <= 0x7fff_fffd
    ensures ContentLen(n) == n
  {
  }

  /** Sizes below 2 GiB are taken as they are; larger ones as the int congruent to them modulo 2^32; and
      those past the range of a long as -1. */
  lemma ContentMeans(n: nat)
    ensures n < 2147483648 ==> ContentLen(n) == n
    ensures n <= 9223372036854775807 ==> (n - ContentLen(n)) % 4294967296 == 0
    ensures n >= 9223372036854775807 ==> ContentLen(n) == -1
    ensures -2147483648 <= ContentLen(n) < 2147483648
  {
    Int32Is(if n > LongMax then LongMax else n);
  }

  function Parse(w: seq<byte>): Parsed {
    match ScanFrom(Start, w)
    case Line(_) => Finished(ContentLen(HexFrom(0, w)))
    case More => Unfinished
    case Bad => Failed
  }

  function Consumed(w: seq<byte>): (n: nat)
    ensures n <= |w|
    ensures w != [] && !Parse(w).Failed? ==> n > 0
  {
    match ScanFrom(Start, w)
    case Line(n) => n
    case More => |w|
    case Bad => 0
  }

  /** `line` is one whole size line, and the parser takes its number for n. */
  predicate SizeLine(line: seq<byte>, n: int) { ScanFrom(Start, line) == Line(|line|) && ContentLen(HexFrom(0, line)) == n }

  /** A stream position inside chunk k's size line, the rest of which does not read as the same size. */
  predicate CutsBadly(cs: seq<Chunk>, k: nat, e: nat) {
    && k < |cs| && StartOf(cs, k) < e < StartOf(cs, k) + |cs[k].line|
    && !SizeLine(cs[k].line[e - StartOf(cs, k)..], |cs[k].payload|)
  }

  ghost predicate BadCut(cs: seq<Chunk>, e: nat) { exists k: nat :: CutsBadly(cs, k, e) }

  /** The stream begins with the chunks, and no refill ended in a bad place inside a size line. */
  ghost predicate CleanCuts(cs: seq<Chunk>, stream: seq<byte>, ends: seq<nat>) {
    WellFormed(cs) && Encoded(cs) <= stream && forall i :: 0 <= i < |ends| ==> !BadCut(cs, ends[i])
  }

  /** Some of chunk k's line, read from `start` on, has been given to the parser; the rest of it
      still reads as the chunk's size. */
  ghost predicate MidLine(cs: seq<Chunk>, stream: seq<byte>, ends: seq<nat>, k: nat, start: nat, at: nat) {
    CleanCuts(cs, stream, ends) && k < |cs| && start == StartOf(cs, k) ==>
      start <= at < start + |cs[k].line| && SizeLine(cs[k].line[at - start..], |cs[k].payload|)
  }

  /** What reading chunk k's line from `start` on must give. */
  ghost predicate LineRead(cs: seq<Chunk>, stream: seq<byte>, ends: seq<nat>, k: nat, start: nat, at: nat, p: Parsed) {
    CleanCuts(cs, stream, ends) && k < |cs| && start == StartOf(cs, k) ==>
      p == Finished(|cs[k].payload|) && at == start + |cs[k].line|
  }

  /** k chunks have been decoded, the last of them iff `done`. */
  ghost predicate Decoding(cs: seq<Chunk>, stream: seq<byte>, ends: seq<nat>, at: nat, k: nat, body: seq<byte>, done: bool) {
    CleanCuts(cs, stream, ends) ==>
      k <= |cs| && at == StartOf(cs, k) && body == PayloadsUpTo(cs, k) && (done <==> k == |cs|)
  }

  /** A size line and its payload are one more chunk. */
  lemma DecodeStep(cs: seq<Chunk>, stream: seq<byte>, ends: seq<nat>, more: seq<nat>, start: nat, at: nat,
                   k: nat, body: seq<byte>, p: Parsed)
    requires ends <= more && Decoding(cs, stream, ends, start, k, body, false)
    requires LineRead(cs, stream, more, k, start, at, p) && p.Finished? && 0 <= p.size && at + p.size + 2 <= |stream|
    ensures Decoding(cs, stream, more, at + p.size + 2, k + 1, body + stream[at..at + p.size], p.size <= 0)
  {
    if CleanCuts(cs, stream, more) {
      assert CleanCuts(cs, stream, ends);
      ChunkPlace(stream, cs, k);
    }
  }

  lemma WindowGrows(s: seq<byte>, a: nat, b: nat, d: seq<byte>)
    requires a <= b <= |s| && d <= s[b..]
    ensures s[a..b] + d == s[a..b + |d|] && s[b..][|d|..] == s[b + |d|..] && d == s[b..b + |d|]
  {
  }

  lemma BodyGrows(body: seq<byte>, s: seq<byte>, a: nat, b: nat, n: nat)
    requires a <= b && b + n <= |s|
    ensures body + s[a..b] + s[b..b + n] == body + s[a..b + n]
  {
  }

  /** memmove: what lies from n to len moves to the front. */
  method MoveDown(a: array<byte>, n: nat, len: nat)
    requires n <= len <= a.Length
    modifies a
    ensures a[..len - n] == old(a[..len])[n..]
  {
    PutFront(a[..], 0, a[n..len]);
    BA.MemCpy(a, 0, a[n..len]);
    assert a[..len - n] == a[..][..len - n];
  }

  lemma PutFront(s: seq<byte>, p: nat, d: seq<byte>)
    requires p + |d| <= |s|
    ensures Put(s, p, d)[..p + |d|] == s[..p] + d
  {
  }

  lemma WindowShrinks(s: seq<byte>, a: nat, b: nat, n: nat)
    requires a <= a + n <= b <= |s|
    ensures s[a..b][n..] == s[a + n..b] && s[a..b][..n] == s[a..a + n]
  {
  }

  class Reader {
    const sock: Socket
    const buffSize: nat
    const data: array<byte>
    var len: nat
    ghost const stream: seq<byte>   // all that follows the header, read or not
    ghost var at: nat               // how much of it has been taken out of the buffer
    ghost var ends: seq<nat>        // the stream positions at which refills ended
    ghost var failed: bool          // some read has failed

    ghost predicate Valid()
      reads this, sock, data
    {
      && data.Length == buffSize + 1 && len <= buffSize && at + len <= |stream|
      && data[..len] == stream[at..at + len] && sock.incoming == stream[at + len..]
      && (len > 0 ==> at + len in ends)
    }

    /** The body loop takes over the header loop's buffer, with `offset` bytes left in it. */
    constructor (sock: Socket, data: array<byte>, offset: nat)
      requires offset < data.Length
      ensures Valid() && this.sock == sock && this.data == data && buffSize == data.Length - 1
      ensures stream == data[..offset] + sock.incoming && len == offset && at == 0 && !failed && ends == [offset]
    {
      this.sock, this.data, this.buffSize, len := sock, data, data.Length - 1, offset;
      stream := data[..offset] + sock.incoming;
      at, ends, failed := 0, [offset], false;
    }

    ghost predicate Clean(cs: seq<Chunk>)
      reads this`ends
    {
      CleanCuts(cs, stream, ends)
    }

    /** A read of at most n bytes behind those in the buffer. */
    method Pull(n: nat) returns (rt: int, d: seq<byte>)
      requires Valid() && len + n <= buffSize
      modifies sock`incoming, data
      ensures rt <= n && |d| == Count(rt) && at + len + |d| <= |stream| && d == stream[at + len..at + len + |d|]
      ensures data[..len + |d|] == stream[at..at + len + |d|] && sock.incoming == stream[at + len + |d|..]
    {
      rt, d := sock.Recv(n);
      WindowGrows(stream, at, at + len, d);
      PutFront(data[..], len, d);
      assert data[..len] == data[..][..len];
      BA.MemCpy(data, len, d);
      assert data[..len + |d|] == data[..][..len + |d|];
    }

    /** Filling up the buffer. */
    method Refill() returns (ok: bool)
      requires Valid() && len < buffSize
      modifies this`len, this`ends, this`failed, sock`incoming, data
      ensures Valid() && old(ends) <= ends && len >= old(len)
      ensures if ok then failed == old(failed) && len > old(len) else failed && len == old(len)
    {
      var rt, d := Pull(buffSize - len);
      if rt <= 0 {
        failed := true;
        return false;
      }
      ends := ends + [at + len + rt];
      len := len + rt;
      return true;
    }

    /** The parser, restarted, on the buffer; what it took is moved out. */
    method Execute() returns (p: Parsed)
      requires Valid()
      modifies this`len, this`at, data
      ensures Valid() && p == Parse(old(data[..len]))
      ensures at == old(at) + Consumed(old(data[..len])) && at + len == old(at + len)
    {
      data[len] := 0;
      var w := data[..len];
      p := Parse(w);
      Drop(Consumed(w));
    }

    /** memmove: the first n bytes leave the buffer. */
    method Drop(n: nat)
      requires Valid() && n <= len
      modifies this`len, this`at, data
      ensures Valid() && at == old(at) + n && len == old(len) - n
    {
      WindowShrinks(stream, at, at + len, n);
      MoveDown(data, n, len);
      at := at + n;
      len := len - n;
    }

    /** The size line of the next chunk. */
    method ReadLine(ghost cs: seq<Chunk>, ghost k: nat) returns (p: Parsed)
      requires Valid() && buffSize > 0 && !failed
      modifies this`len, this`at, this`ends, this`failed, sock`incoming, data
      ensures Valid() && old(ends) <= ends && !p.Unfinished?
      ensures p.Finished? ==> at > old(at) && !failed
      ensures failed ==> p.Failed?
      ensures !failed ==> LineRead(cs, stream, ends, k, old(at), at, p)
    {
      p := Unfinished;
      var begin := true;
      LineStarts(cs, stream, ends, k, at);
      while p.Unfinished?
        invariant Valid() && old(ends) <= ends && !failed && at >= old(at)
        invariant !begin ==> at > old(at) && len < buffSize
        invariant if p.Unfinished? then MidLine(cs, stream, ends, k, old(at), at) else !begin && LineRead(cs, stream, ends, k, old(at), at, p)
        decreases |stream| - at, if p.Unfinished? then 1 else 0
      {
        if !begin || len == 0 {
          var ok := Refill();
          if !ok {
            return Failed;
          }
        }
        p := Round(cs, k, old(at));
        if p.Failed? {
          return Failed;
        }
        begin := false;
      }
    }

    /** One run of the parser. */
    method Round(ghost cs: seq<Chunk>, ghost k: nat, ghost start: nat) returns (p: Parsed)
      requires Valid() && len > 0 && MidLine(cs, stream, ends, k, start, at)
      modifies this`len, this`at, data
      ensures Valid() && at + len == old(at + len)
      ensures if p.Unfinished? then MidLine(cs, stream, ends, k, start, at) else LineRead(cs, stream, ends, k, start, at, p)
      ensures !p.Failed? ==> at > old(at)
    {
      RoundMoves(cs, stream, ends, k, start, at, len, data[..len]);
      p := Execute();
    }

    /** The payload and its line end. All of it may be in the buffer already; otherwise the buffer
        is emptied into the body and the rest is read, never past the chunk. */
    method TakePayload(body: seq<byte>, size: nat) returns (ok: bool, more: seq<byte>)
      requires Valid() && buffSize > 0 && !failed && size <= 0x7fff_fffd
      modifies this`len, this`at, this`failed, sock`incoming, data
      ensures Valid() && ok == !failed && at >= old(at)
      ensures ok ==> at == old(at) + size + 2 && more == body + stream[old(at)..old(at) + size]
    {
      if size + 2 <= len {
        WindowShrinks(stream, at, at + len, size);
        more := body + data[..size];
        assert data[..size] == data[..len][..size];
        Drop(size + 2);
        return true, more;
      } else {
        ghost var start := at;
        more := body + data[..len];
        var left := size - len + 2;
        at := at + len;
        len := 0;
        ok := true;
        ok, more := Drain(more, left, body, start);
        if ok {
          assert stream[start..start + size + 2][..size] == stream[start..start + size];
          more := more[..|more| - 2];
        }
      }
    }

    /** `more` is the body and what has been read of the chunk that begins at `start`. */
    ghost predicate Drained(more: seq<byte>, body: seq<byte>, start: nat)
      reads this`at
    {
      start <= at <= |stream| && more == body + stream[start..at]
    }

    /** Reading the rest of a chunk straight into the body. */
    method Drain(sofar: seq<byte>, rest: nat, ghost body: seq<byte>, ghost start: nat) returns (ok: bool, more: seq<byte>)
      requires Valid() && buffSize > 0 && !failed && len == 0 && Drained(sofar, body, start)
      modifies this`at, this`failed, sock`incoming, data
      ensures Valid() && ok == !failed && at >= old(at)
      ensures ok ==> at == old(at) + rest && Drained(more, body, start)
    {
      more := sofar;
      var left := rest;
      while left > 0
        invariant 0 <= left && Valid() && !failed && at + left == old(at) + rest && Drained(more, body, start)
        decreases left
      {
        var rt;
        rt, more := DrainSome(more, if left > buffSize then buffSize else left, body, start);
        if rt <= 0 {
          failed := true;
          return false, more;
        }
        left := left - rt;
      }
      return true, more;
    }

    /** One read of it. */
    method DrainSome(sofar: seq<byte>, n: nat, ghost body: seq<byte>, ghost start: nat) returns (rt: int, more: seq<byte>)
      requires Valid() && n <= buffSize && len == 0 && Drained(sofar, body, start)
      modifies this`at, sock`incoming, data
      ensures Valid() && rt <= n && at == old(at) + Count(rt) && Drained(more, body, start)
    {
      var d;
      rt, d := Pull(n);
      BodyGrows(body, stream, start, at, Count(rt));
      more := sofar + data[..Count(rt)];
      at := at + Count(rt);
    }

    /** The whole body. Whatever the chunks, and however the stream is cut into reads, as long as
        no refill ends inside a size line, unless what is left of the line still reads as the size: the
        payloads, joined. */
    method Receive(ghost cs: seq<Chunk>) returns (r: Decoded)
      requires Valid() && buffSize > 0 && at == 0 && !failed
      modifies this`len, this`at, this`ends, this`failed, sock`incoming, data
      ensures Valid() && (r.Body? ==> !failed)
      ensures Clean(cs) ==> r == if failed then Closed else Body(Payloads(cs))
      ensures Clean(cs) && !failed ==> at == |Encoded(cs)|
    {
      var body: seq<byte> := [];
      var done := false;
      ghost var k: nat := 0;
      while !done
        invariant Valid() && !failed && Decoding(cs, stream, ends, at, k, body, done)
        decreases |stream| - at, if done then 0 else 1
      {
        var stop;
        stop, body, done := NextChunk(cs, k, body);
        if stop.Some? {
          return stop.value;
        }
        k := k + 1;
      }
      return Body(body);
    }

    /** One chunk: its size line, its payload and its line end. */
    method NextChunk(ghost cs: seq<Chunk>, ghost k: nat, body: seq<byte>)
      returns (stop: Option<Decoded>, more: seq<byte>, done: bool)
      requires Valid() && buffSize > 0 && !failed && Decoding(cs, stream, ends, at, k, body, false)
      modifies this`len, this`at, this`ends, this`failed, sock`incoming, data
      ensures Valid() && (stop.Some? ==> !stop.value.Body?) && (stop.Some? && Clean(cs) ==> failed && stop.value == Closed)
      ensures stop.None? ==> !failed && at > old(at) && Decoding(cs, stream, ends, at, k + 1, more, done)
    {
      ghost var cuts, start := ends, at;
      var p := ReadLine(cs, k);
      if p.Failed? {
        return Some(Closed), [], true;
      }
      if p.size < 0 || p.size > 0x7fff_fffd {
        return Some(Broken), [], true;
      }
      stop, more := TakeChunk(cs, k, body, p, start, cuts);
      done := p.size <= 0;
    }

    /** The rest of a chunk whose line has been read. */
    method TakeChunk(ghost cs: seq<Chunk>, ghost k: nat, body: seq<byte>, p: Parsed, ghost start: nat, ghost cuts: seq<nat>)
      returns (stop: Option<Decoded>, more: seq<byte>)
      requires Valid() && buffSize > 0 && !failed && p.Finished? && 0 <= p.size <= 0x7fff_fffd
      requires cuts <= ends && Decoding(cs, stream, cuts, start, k, body, false) && LineRead(cs, stream, ends, k, start, at, p)
      modifies this`len, this`at, this`failed, sock`incoming, data
      ensures Valid() && at >= old(at)
      ensures if failed then stop == Some(Closed) else stop.None? && Decoding(cs, stream, ends, at, k + 1, more, p.size <= 0)
    {
      ghost var here := at;
      var ok;
      ok, more := TakePayload(body, p.size);
      if !ok {
        return Some(Closed), [];
      }
      DecodeStep(cs, stream, cuts, ends, start, here, k, body, p);
      return None, more;
    }
  }

  /** At its start the whole line is ahead. */
  lemma LineStarts(cs: seq<Chunk>, stream: seq<byte>, ends: seq<nat>, k: nat, start: nat)
    ensures MidLine(cs, stream, ends, k, start, start)
  {
    if CleanCuts(cs, stream, ends) && k < |cs| && start == StartOf(cs, k) {
      assert LineOf(cs[k].line, |cs[k].payload|) && cs[k].line[0..] == cs[k].line;
      ContentSmall(|cs[k].payload|);
    }
  }

  /** On a clean run the buffer holds the rest of the size line, or ends in it at a harmless place. */
  lemma RoundMoves(cs: seq<Chunk>, stream: seq<byte>, ends: seq<nat>, k: nat, start: nat, at: nat, len: nat, w: seq<byte>)
    requires MidLine(cs, stream, ends, k, start, at) && len > 0 && at + len <= |stream| && at + len in ends
    requires w == stream[at..at + len]
    ensures Parse(w).Unfinished? ==> MidLine(cs, stream, ends, k, start, at + Consumed(w))
    ensures !Parse(w).Unfinished? ==> LineRead(cs, stream, ends, k, start, at + Consumed(w), Parse(w))
  {
    if CleanCuts(cs, stream, ends) && k < |cs| && start == StartOf(cs, k) {
      LineFacts(cs, stream, ends, k, at + len);
      LineRound(cs[k].line, |cs[k].payload|, stream, start, at, len, w);
    }
  }

  /** Where the line of chunk k lies in the stream, and what is left of it after a refill that ends in it. */
  lemma LineFacts(cs: seq<Chunk>, stream: seq<byte>, ends: seq<nat>, k: nat, e: nat)
    requires CleanCuts(cs, stream, ends) && k < |cs| && e in ends
    ensures var start, line := StartOf(cs, k), cs[k].line;
      && start + |line| <= |stream| && stream[start..start + |line|] == line
      && (start < e < start + |line| ==> SizeLine(line[e - start..], |cs[k].payload|))
  {
    ChunkPlace(stream, cs, k);
    if StartOf(cs, k) < e < StartOf(cs, k) + |cs[k].line| { GoodCut(cs, ends, e, k); }
  }

  lemma LineRound(line: seq<byte>, n: nat, stream: seq<byte>, start: nat, at: nat, len: nat, w: seq<byte>)
    requires start <= at < start + |line| <= |stream| && 0 < len && at + len <= |stream| && w == stream[at..at + len]
    requires SizeLine(line[at - start..], n) && stream[start..start + |line|] == line
    requires at + len < start + |line| ==> SizeLine(line[at + len - start..], n)
    ensures Parse(w).Unfinished? ==>
      var next := at + Consumed(w); start <= next < start + |line| && SizeLine(line[next - start..], n)
    ensures !Parse(w).Unfinished? ==> Parse(w) == Finished(n) && at + Consumed(w) == start + |line|
  {
    CleanRound(line, n, stream, start, at, len, w);
  }

  lemma CleanRound(line: seq<byte>, n: nat, stream: seq<byte>, start: nat, at: nat, len: nat, w: seq<byte>)
    requires start <= at < start + |line| <= |stream| && at + len <= |stream| && w == stream[at..at + len]
    requires SizeLine(line[at - start..], n) && stream[start..start + |line|] == line
    ensures len >= start + |line| - at ==> Parse(w) == Finished(n) && at + Consumed(w) == start + |line|
    ensures len < start + |line| - at ==> Parse(w) == Unfinished && Consumed(w) == len
  {
    RestOfLine(line, at - start, n, stream, start, at, len);
  }

  lemma GoodCut(cs: seq<Chunk>, ends: seq<nat>, e: nat, k: nat)
    requires e in ends && (forall i :: 0 <= i < |ends| ==> !BadCut(cs, ends[i]))
    requires k < |cs| && StartOf(cs, k) < e < StartOf(cs, k) + |cs[k].line|
    ensures SizeLine(cs[k].line[e - StartOf(cs, k)..], |cs[k].payload|)
  {
    var i :| 0 <= i < |ends| && ends[i] == e;
    assert !BadCut(cs, ends[i]);
    assert !CutsBadly(cs, k, e);
  }

  /** The rest of a line that reads as n, in a buffer that may end before it does. */
  lemma RestOfLine(line: seq<byte>, j: nat, n: int, stream: seq<byte>, start: nat, at: nat, len: nat)
    requires j < |line| && SizeLine(line[j..], n) && at == start + j && start + |line| <= |stream|
    requires stream[start..start + |line|] == line && at + len <= |stream|
    ensures var w := stream[at..at + len];
      if len >= |line| - j then Parse(w) == Finished(n) && Consumed(w) == |line| - j else Parse(w) == Unfinished && Consumed(w) == len
  {
    var rest := line[j..];
    var w := stream[at..at + len];
    WindowShrinks(stream, start, start + |line|, j);
    if len >= |rest| {
      WindowShrinks(stream, at, at + len, |rest|);
      assert rest <= w;
      ScanLine(rest, HexFrom(0, rest), w);
    } else {
      assert w == rest[..len];
      ScanPart(Start, rest, len);
    }
  }

  /** Where the parts of chunk k lie in a stream that begins with the chunks. */
  lemma ChunkPlace(s: seq<byte>, cs: seq<Chunk>, k: nat)
    requires Encoded(cs) <= s && k < |cs|
    ensures var a := StartOf(cs, k);
            var b := a + |cs[k].line|;
            && StartOf(cs, k + 1) == b + |cs[k].payload| + 2 <= |s|
            && s[a..b] == cs[k].line && s[b..b + |cs[k].payload|] == cs[k].payload
  {
    EncodedPrefix(cs, k + 1, |cs|);
    Layout(s, EncodedUpTo(cs, k + 1), EncodedUpTo(cs, k), cs[k].line, cs[k].payload);
  }

  lemma Layout(s: seq<byte>, head: seq<byte>, e: seq<byte>, x: seq<byte>, y: seq<byte>)
    requires head <= s && head == e + (x + y + [CR, LF])
    ensures |head| == |e| + |x| + |y| + 2 <= |s|
    ensures s[|e|..|e| + |x|] == x && s[|e| + |x|..|e| + |x| + |y|] == y
  {
    assert s[..|head|] == head;
    assert head[|e|..|e| + |x|] == x && head[|e| + |x|..|e| + |x| + |y|] == y;
    assert s[|e|..|e| + |x|] == s[..|head|][|e|..|e| + |x|];
    assert s[|e| + |x|..|e| + |x| + |y|] == s[..|head|][|e| + |x|..|e| + |x| + |y|];
  }

  // ---------- bodies with a length ----------

  /** The Content-Length branch: what the header loop left over, then exactly the rest. */
  method ReceiveSized(sock: Socket, data: array<byte>, offset: nat, length: nat) returns (r: Decoded, ghost done: nat)
    requires offset <= data.Length
    modifies sock`incoming
    ensures done <= |old(sock.incoming)| && sock.incoming == old(sock.incoming)[done..]
    ensures r == Closed || r == Body((data[..offset] + old(sock.incoming))[..if length < offset + done then length else offset + done])
    ensures r.Body? <==> length <= offset || (done == length - offset && Int32(length - offset) > 0)
    ensures length <= offset ==> done == 0
  {
    if length <= offset {
      assert (data[..offset] + sock.incoming)[..length] == data[..length];
      return Body(data[..length]), 0;
    }
    ghost var stream := data[..offset] + sock.incoming;
    var body := new byte[length](i => 0);
    BA.MemCpy(body, 0, data[..offset]);
    ghost var before := body[..];
    var rt;
    rt, done := ReadFixSizeRaw(sock, body, offset, length - offset);
    if rt <= 0 {
      return Closed, done;
    }
    assert body[..] == stream[..length];
    return Body(body[..]), done;
  }

  // ---------- a refill that ends inside a size line ----------

  lemma {:induction false} HexGrows(a: nat, b: nat, s: seq<byte>)
    requires a < b
    ensures HexFrom(a, s) < HexFrom(b, s)
    decreases |s|
  {
    if s != [] && IsHex(s[0]) { HexGrows(16 * a + HexDigit(s[0]), 16 * b + HexDigit(s[0]), s[1..]); }
  }

  lemma CutValue(digits: seq<byte>, j: nat)
    requires (forall i :: 0 <= i < |digits| ==> IsHex(digits[i])) && j < |digits|
    ensures HexFrom(0, digits[j..]) <= HexFrom(0, digits)
    ensures HexFrom(0, digits[j..]) == HexFrom(0, digits) <==> HexFrom(0, digits[..j]) == 0
  {
    var d := digits[j..];
    assert digits == digits[..j] + d;
    HexAppend(0, digits[..j], d);
    if HexFrom(0, digits[..j]) > 0 { HexGrows(0, HexFrom(0, digits[..j]), d); }
  }

  /** The remainder of the line that a cut inside the digits leaves. */
  lemma CutDigits(d: seq<byte>, rest: seq<byte>)
    requires d != [] && (forall i :: 0 <= i < |d| ==> IsHex(d[i])) && HexFrom(0, d) <= 0x7fff_fffd
    ensures Parse(d + [CR, LF] + rest) == Finished(HexFrom(0, d))
  {
    var line := d + [CR, LF];
    ScanDigits(d, Start);
    HexAppend(0, d, [CR, LF]);
    assert HexFrom(HexFrom(0, d), [CR, LF]) == HexFrom(0, d);
    ScanWhole(Start, line, rest);
    HexWhole(Start, 0, line, rest);
    ContentSmall(HexFrom(0, d));
  }

  /** The parser is restarted on every refill, so a line cut after j bytes is read from there on.
      The size then comes out right exactly when the cut left at least one digit and lost only
      zeros. */
  lemma CutLine(digits: seq<byte>, n: nat, j: nat, rest: seq<byte>)
    requires digits != [] && (forall i :: 0 <= i < |digits| ==> IsHex(digits[i]))
    requires HexFrom(0, digits) == n <= 0x7fff_fffd && 0 < j < |digits| + 2
    ensures var line := digits + [CR, LF];
            && Parse(line[..j]) == Unfinished && Consumed(line[..j]) == j
            && (Parse(line[j..] + rest) == Finished(n) <==> j < |digits| && HexFrom(0, digits[..j]) == 0)
  {
    var line := digits + [CR, LF];
    CutFront(digits, j);
    if j < |digits| {
      CutValue(digits, j);
      CutDigits(digits[j..], rest);
      DropDigits(digits, j);
    } else {
      DropDigits(digits, j);
      NoDigits(line[j..] + rest);
    }
  }

  lemma DropDigits(digits: seq<byte>, j: nat)
    requires j < |digits| + 2
    ensures j < |digits| ==> (digits + [CR, LF])[j..] == digits[j..] + [CR, LF]
    ensures j >= |digits| ==> (digits + [CR, LF])[j..][0] in {CR, LF}
  {
  }

  lemma CutFront(digits: seq<byte>, j: nat)
    requires digits != [] && (forall i :: 0 <= i < |digits| ==> IsHex(digits[i])) && j < |digits| + 2
    ensures Parse((digits + [CR, LF])[..j]) == Unfinished && Consumed((digits + [CR, LF])[..j]) == j
  {
    ScanDigits(digits, Start);
    ScanPart(Start, digits + [CR, LF], j);
  }

  lemma NoDigits(w: seq<byte>)
    requires w != [] && !IsHex(w[0])
    ensures Parse(w) == Failed
  {
  }

  /** The same for any line, extensions included: after a cut the size comes out right exactly when
      what is left begins with a number, whole or the end of one or of an extension's name or
      value, that the parser takes for it. */
  lemma CutAnyLine(line: seq<byte>, n: nat, j: nat, rest: seq<byte>)
    requires LineOf(line, n) && 0 < j < |line|
    ensures Parse(line[..j]) == Unfinished && Consumed(line[..j]) == j
    ensures Parse(line[j..] + rest) == Finished(n) <==> Numbered(line[j..]) && ContentLen(HexFrom(0, line[j..])) == n
    ensures Parse(line[j..] + rest) == Finished(n) <==> SizeLine(line[j..], n)
  {
    ScanPart(Start, line, j);
    Midway(Start, line, j);
    ScanTail(StateAfter(Start, line[..j]).value, line[j..]);
    if Numbered(line[j..]) {
      ScanLine(line[j..], HexFrom(0, line[j..]), line[j..] + rest);
    } else {
      ScanBad(Start, line[j..], rest);
    }
  }

  lemma {:induction false} ScanBad(st: LineState, s: seq<byte>, rest: seq<byte>)
    requires ScanFrom(st, s) == Bad
    ensures ScanFrom(st, s + rest) == Bad
    decreases |s|
  {
    if Next(st, s[0]).Some? { ScanBad(Next(st, s[0]).value, s[1..], rest); }
    assert (s + rest)[1..] == s[1..] + rest;
  }

  /** For one: a chunk of 26 bytes read as one of 10. */
  lemma CutMisreads()
    ensures LineOf([49, 97, CR, LF], 26) && Parse([49]) == Unfinished && Parse([97, CR, LF]) == Finished(10)
  {
    assert HexDigits(26) == HexDigits(1) + [97] == [49, 97];
    EverySizeHasALine(26);
    assert HexDigits(26) + [CR, LF] == [49, 97, CR, LF];
    assert HexDigits(10) == [97];
    EverySizeHasALine(10);
    assert HexDigits(10) + [CR, LF] == [97, CR, LF];
    ScanPart(Start, [49, 97, CR, LF], 1);
    assert [49, 97, CR, LF][..1] == [49];
  }
}
