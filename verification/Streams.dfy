/** Fixed-size transfers between a socket and a ByteArray or a plain buffer. The socket answers
    every call with as much or as little as it likes, or with an error. */
module Streams {
  import opened Flat
  import BA = ByteArray

  /** One end of a connection: what the peer will still deliver and what it has been sent. */
  class Socket {
    var incoming: seq<byte>
    var sent: seq<byte>

    constructor (incoming: seq<byte>)
      ensures this.incoming == incoming && sent == []
    {
      this.incoming := incoming;
      sent := [];
    }

    /** recv: any prefix of what is coming, up to n bytes, or nothing and a result of at most 0. */
    method Recv(n: nat) returns (rt: int, d: seq<byte>)
      modifies this`incoming
      ensures rt <= n && |d| == Count(rt)
      ensures d <= old(incoming) && incoming == old(incoming)[|d|..]
    {
      rt := *;
      var most := if n < |incoming| then n else |incoming|;
      if rt > most {
        rt := most;
      }
      d := incoming[..Count(rt)];
      incoming := incoming[Count(rt)..];
    }

    /** send: any prefix of the data, or nothing and a result of at most 0. */
    method Send(d: seq<byte>) returns (rt: int)
      modifies this`sent
      ensures rt <= |d| && sent == old(sent) + d[..Count(rt)]
    {
      rt := *;
      if rt > |d| {
        rt := |d|;
      }
      sent := sent + d[..Count(rt)];
    }
  }

  /** How many bytes a result stands for. */
  function Count(rt: int): nat { if rt > 0 then rt else 0 }

  /** The conversion of a length to a 32-bit int. */
  function Int32(n: nat): int { (n + 0x8000_0000) % 0x1_0000_0000 - 0x8000_0000 }

  /** It is the length itself below 2 GiB, and always the int congruent to it modulo 2^32. */
  lemma Int32Is(n: nat)
    ensures -2147483648 <= Int32(n) < 2147483648 && (n < 2147483648 ==> Int32(n) == n)
    ensures (n - Int32(n)) % 4294967296 == 0
  {
    var q := (n + 0x8000_0000) / 0x1_0000_0000;
    assert n - Int32(n) == q * 0x1_0000_0000;
  }

  /** Everything was moved, or the call that failed is reported. */
  predicate Reported(r: int, length: nat, done: nat) {
    if done == length then r == Int32(length) else done < length && r <= 0
  }

  // ---------- through a ByteArray ----------

  /** SocketStream::read into a ByteArray, by scattering. */
  method Read(sock: Socket, ba: BA.ByteArray, length: nat) returns (rt: int)
    requires ba.Valid() && sock !in ba.repr && length > 0
    modifies sock`incoming, ba, ba.repr
    ensures ba.Valid() && sock !in ba.repr && fresh(ba.repr - old(ba.repr))
    ensures rt <= length && Count(rt) <= |old(sock.incoming)|
    ensures sock.incoming == old(sock.incoming)[Count(rt)..]
    ensures Wrote(old(ba.View()), old(sock.incoming)[..Count(rt)], ba.View())
  {
    ghost var f := ba.View();
    var vs := ba.GetWriteBuffers(length);
    var d;
    rt, d := sock.Recv(length);
    assert d == old(sock.incoming)[..Count(rt)];
    Deliver(ba, vs, rt, d, length, f);
  }

  /** What was received, scattered into the buffers that were offered, and the position moved past it. */
  method Deliver(ba: BA.ByteArray, vs: seq<BA.IoVec>, rt: int, d: seq<byte>, ghost length: nat, ghost f: Buffer)
    requires ba.Valid() && |d| == Count(rt) <= length && ba.position + length <= ba.capacity
    requires vs == BA.Segments(ba.nodes, ba.base, ba.position, length)
    requires f.Ok() && f.pos == ba.position && f.size == ba.size && f.store <= ba.View().store
    modifies ba`blocks, ba`position, ba`size, ba`cur, ba.repr
    ensures ba.Valid() && Wrote(f, d, ba.View())
  {
    ghost var store := ba.View().store;
    if rt > 0 {
      ba.Scatter(vs, d, ba.position, length);
      var ok := ba.SetPosition(ba.position + rt);
    } else {
      assert Put(store, f.pos, d) == store;
    }
    GrownBy(f, store, d, ba.View());
  }

  /** SocketStream::write from a ByteArray, by gathering. */
  method Write(sock: Socket, ba: BA.ByteArray, length: nat) returns (rt: int)
    requires ba.Valid() && sock !in ba.repr
    modifies sock`sent, ba`position, ba`size, ba`cur
    ensures ba.Valid() && rt <= length && Count(rt) <= old(ba.View()).Readable()
    ensures ba.View() == old(ba.View()).(pos := old(ba.View()).pos + Count(rt))
    ensures sock.sent == old(sock.sent) + old(ba.View()).store[old(ba.View()).pos..][..Count(rt)]
  {
    ghost var f := ba.View();
    var len, vs := ba.GetReadBuffers(length);
    var d := ba.Gather(vs, ba.position, len);
    rt := sock.Send(d);
    assert d[..Count(rt)] == f.store[f.pos..][..Count(rt)];
    if rt > 0 {
      var ok := ba.SetPosition(ba.position + rt);
    }
  }

  lemma StoredNext(f: Buffer, stream: seq<byte>, done: nat, k: nat, g: Buffer, h: Buffer)
    requires f.Ok() && done + k <= |stream| && Wrote(f, stream[..done], g) && Wrote(g, stream[done..][..k], h)
    ensures Wrote(f, stream[..done + k], h) && stream[done..][k..] == stream[done + k..]
  {
    assert stream[done..][..k] == stream[done..done + k];
    WroteNext(f, stream, done, k, g, h);
  }

  /** A read that continues earlier ones. */
  method ReadNext(sock: Socket, ba: BA.ByteArray, left: nat, ghost stream: seq<byte>, ghost done: nat, ghost f: Buffer) returns (rt: int)
    requires ba.Valid() && sock !in ba.repr && left > 0
    requires f.Ok() && done <= |stream| && sock.incoming == stream[done..] && Wrote(f, stream[..done], ba.View())
    modifies sock`incoming, ba, ba.repr
    ensures ba.Valid() && sock !in ba.repr && fresh(ba.repr - old(ba.repr))
    ensures rt <= left && done + Count(rt) <= |stream|
    ensures sock.incoming == stream[done + Count(rt)..] && Wrote(f, stream[..done + Count(rt)], ba.View())
  {
    ghost var g := ba.View();
    rt := Read(sock, ba, left);
    StoredNext(f, stream, done, Count(rt), g, ba.View());
  }

  /** readFixSize into a ByteArray: the next bytes of the stream are stored at the old position,
      all `length` of them on success. */
  method ReadFixSize(sock: Socket, ba: BA.ByteArray, length: nat) returns (r: int, ghost done: nat)
    requires ba.Valid() && sock !in ba.repr
    modifies sock`incoming, ba, ba.repr
    ensures ba.Valid() && sock !in ba.repr && fresh(ba.repr - old(ba.repr))
    ensures done <= |old(sock.incoming)| && Reported(r, length, done)
    ensures sock.incoming == old(sock.incoming)[done..]
    ensures Wrote(old(ba.View()), old(sock.incoming)[..done], ba.View())
  {
    ghost var f := ba.View();
    ghost var stream := sock.incoming;
    WroteNothing(f, stream);
    done := 0;
    var left := length;
    while left > 0
      invariant 0 <= left && done + left == length && done <= |stream|
      invariant ba.Valid() && sock !in ba.repr && fresh(ba.repr - old(ba.repr))
      invariant sock.incoming == stream[done..] && Wrote(f, stream[..done], ba.View())
      decreases left
    {
      var len := ReadNext(sock, ba, left, stream, done, f);
      if len <= 0 {
        return len, done;
      }
      done := done + len;
      left := left - len;
    }
    return Int32(length), done;
  }

  lemma SentNext(s: seq<byte>, p: nat, done: nat, k: nat)
    requires p + done + k <= |s|
    ensures s[p..][..done] + s[p + done..][..k] == s[p..][..done + k]
  {
  }

  /** writeFixSize from a ByteArray: a prefix of the window is sent in order, all `length` bytes of
      it on success, which more than the readable size never is. */
  method WriteFixSize(sock: Socket, ba: BA.ByteArray, length: nat) returns (r: int, ghost done: nat)
    requires ba.Valid() && sock !in ba.repr
    modifies sock`sent, ba`position, ba`size, ba`cur
    ensures ba.Valid() && done <= old(ba.View()).Readable() && Reported(r, length, done)
    ensures ba.View() == old(ba.View()).(pos := old(ba.View()).pos + done)
    ensures sock.sent == old(sock.sent) + old(ba.View()).store[old(ba.View()).pos..][..done]
  {
    ghost var f := ba.View();
    done := 0;
    var left := length;
    while left > 0
      invariant 0 <= left && done + left == length && done <= f.Readable()
      invariant ba.Valid() && ba.View() == f.(pos := f.pos + done)
      invariant sock.sent == old(sock.sent) + f.store[f.pos..][..done]
      decreases left
    {
      var len := Write(sock, ba, left);
      SentNext(f.store, f.pos, done, Count(len));
      if len <= 0 {
        return len, done;
      }
      done := done + len;
      left := left - len;
    }
    return Int32(length), done;
  }

  // ---------- through a plain buffer ----------

  lemma CopiedNext(before: seq<byte>, start: nat, stream: seq<byte>, done: nat, d: seq<byte>)
    requires done <= |stream| && d <= stream[done..] && start + done + |d| <= |before|
    ensures Put(Put(before, start, stream[..done]), start + done, d) == Put(before, start, stream[..done + |d|])
    ensures stream[done..][|d|..] == stream[done + |d|..]
  {
    PutPut(before, start, stream[..done], d);
    assert stream[..done] + d == stream[..done + |d|];
  }

  /** A read into memory behind what earlier ones have stored. */
  method RecvInto(sock: Socket, buffer: array<byte>, start: nat, offset: nat, left: nat, ghost before: seq<byte>, ghost stream: seq<byte>)
    returns (len: int)
    requires start + offset + left <= buffer.Length == |before| && offset <= |stream| && sock.incoming == stream[offset..]
    requires buffer[..] == Put(before, start, stream[..offset])
    modifies sock`incoming, buffer
    ensures len <= left && offset + Count(len) <= |stream| && sock.incoming == stream[offset + Count(len)..]
    ensures buffer[..] == Put(before, start, stream[..offset + Count(len)])
  {
    var d;
    len, d := sock.Recv(left);
    CopiedNext(before, start, stream, offset, d);
    BA.MemCpy(buffer, start + offset, d);
  }

  /** readFixSize into memory, from an offset on. */
  method ReadFixSizeRaw(sock: Socket, buffer: array<byte>, start: nat, length: nat) returns (r: int, ghost done: nat)
    requires start + length <= buffer.Length
    modifies sock`incoming, buffer
    ensures done <= |old(sock.incoming)| && Reported(r, length, done)
    ensures sock.incoming == old(sock.incoming)[done..]
    ensures buffer[..] == Put(old(buffer[..]), start, old(sock.incoming)[..done])
  {
    ghost var stream := sock.incoming;
    ghost var before := buffer[..];
    done := 0;
    var offset, left := 0, length;
    while left > 0
      invariant 0 <= left && offset == done && done + left == length && done <= |stream|
      invariant sock.incoming == stream[done..]
      invariant buffer[..] == Put(before, start, stream[..done])
      decreases left
    {
      var len := RecvInto(sock, buffer, start, offset, left, before, stream);
      if len <= 0 {
        return len, done;
      }
      done := done + len;
      offset := offset + len;
      left := left - len;
    }
    return Int32(length), done;
  }

  /** writeFixSize from memory. */
  method WriteFixSizeRaw(sock: Socket, data: seq<byte>) returns (r: int, ghost done: nat)
    modifies sock`sent
    ensures done <= |data| && Reported(r, |data|, done)
    ensures sock.sent == old(sock.sent) + data[..done]
  {
    done := 0;
    var offset, left := 0, |data|;
    while left > 0
      invariant 0 <= left && 0 <= offset == done && offset + left == |data|
      invariant sock.sent == old(sock.sent) + data[..offset]
      decreases left
    {
      var len := sock.Send(data[offset..offset + left]);
      assert data[..offset] + data[offset..offset + left][..Count(len)] == data[..offset + Count(len)];
      if len <= 0 {
        return len, done;
      }
      done := done + len;
      offset := offset + len;
      left := left - len;
    }
    return Int32(|data|), done;
  }
}
