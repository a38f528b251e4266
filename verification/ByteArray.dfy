/** ByteArray: a linked list of fixed-size blocks with a cached current block. Every method is
    proved to act on the blocks as the flat buffer operation of the same name. */
module ByteArray {
  import opened Common
  import opened Flat

  class Node {
    const data: array<byte>
    var next: Node?

    constructor (size: nat)
      ensures fresh(data) && data.Length == size && next == null
    {
      data := new byte[size](i => 0);
      next := null;
    }
  }

  /** Blocks of the base size, none shared. */
  ghost predicate Separate(ns: seq<Node>, base: nat) {
    && (forall i :: 0 <= i < |ns| ==> ns[i].data.Length == base)
    && (forall i, j :: 0 <= i < j < |ns| ==> ns[i] != ns[j] && ns[i].data != ns[j].data)
  }

  lemma SeparateAppend(ns: seq<Node>, base: nat, node: Node)
    requires Separate(ns, base) && node.data.Length == base
    requires forall i :: 0 <= i < |ns| ==> ns[i] != node && ns[i].data != node.data
    ensures Separate(ns + [node], base)
  {
  }

  /** One iovec: a run of bytes inside a block. */
  datatype IoVec = IoVec(data: array<byte>, off: nat, len: nat)

  /** The block runs that make up n bytes from flat position p, in order. */
  ghost function Segments(ns: seq<Node>, base: nat, p: nat, n: nat): seq<IoVec>
    requires base > 0 && p + n <= Times(|ns|, base)
    decreases n
  {
    if n == 0 then []
    else
      Inside(p, base, |ns|);
      var room := base - Offset(p, base);
      var k := if room >= n then n else room;
      [IoVec(ns[Index(p, base)].data, Offset(p, base), k)] + Segments(ns, base, p + k, n - k)
  }

  ghost predicate Runs(vs: seq<IoVec>, ns: seq<Node>, base: nat, p: nat, n: nat) {
    base > 0 && p + n <= Times(|ns|, base) && vs == Segments(ns, base, p, n)
  }

  /** Collecting one run: `before` and what is still to come make up `all`. */
  lemma FirstSegment(ns: seq<Node>, base: nat, i: nat, off: nat, p: nat, n: nat, k: nat, before: seq<IoVec>, all: seq<IoVec>)
    requires off < base && 0 < n && p == Times(i, base) + off && p + n <= Times(|ns|, base) && i < |ns|
    requires before + Segments(ns, base, p, n) == all
    requires k == if base - off >= n then n else base - off
    ensures before + [IoVec(ns[i].data, off, k)] + Segments(ns, base, p + k, n - k) == all
    ensures n > k ==> i + 1 < |ns| && p + k == Times(i + 1, base)
  {
    Locate(i, off, base);
    TimesOrder(i + 1, |ns|, base);
    Regroup(before, [IoVec(ns[i].data, off, k)], Segments(ns, base, p + k, n - k));
  }

  lemma Regroup<T>(a: seq<T>, b: seq<T>, c: seq<T>)
    ensures a + (b + c) == a + b + c
  {
  }

  class ByteArray {
    const base: nat
    var position: nat
    var size: nat
    var capacity: nat
    var root: Node
    var cur: Node?
    ghost var nodes: seq<Node>
    ghost var blocks: seq<seq<byte>>
    ghost var repr: set<object>

    ghost function After(i: nat): Node?
      reads this`nodes
    {
      if i + 1 < |nodes| then nodes[i + 1] else null
    }

    /** The block list: linked in order, all blocks of the base size, none shared, holding `blocks`. */
    ghost predicate Linked()
      reads this`nodes, this`blocks, this`root, this`repr, repr
    {
      && this !in repr && (forall i :: 0 <= i < |nodes| ==> nodes[i] in repr && nodes[i].data in repr)
      && base > 0 && nodes != [] && root == nodes[0] && |blocks| == |nodes| && Uniform(blocks, base)
      && Separate(nodes, base)
      && (forall i :: 0 <= i < |nodes| ==> nodes[i].data[..] == blocks[i])
      && (forall i {:trigger nodes[i].next} :: 0 <= i < |nodes| ==> nodes[i].next == After(i))
    }

    ghost predicate Sized()
      reads this
    {
      capacity == Times(|nodes|, base)
    }

    /** The current block is block number position / base, null exactly at the end. */
    ghost predicate Placed()
      reads this
      requires base > 0
    {
      if position == capacity then cur == null
      else position < capacity && Index(position, base) < |nodes| && cur == nodes[Index(position, base)]
    }

    ghost predicate Valid()
      reads this, repr
    {
      Linked() && Sized() && position <= size <= capacity && Placed()
    }

    ghost function View(): (f: Buffer)
      reads this, repr
      requires Linked() && Sized() && position <= size <= capacity
      ensures f.Ok() && |f.store| == capacity
    {
      FlattenLength(blocks, base);
      Buffer(Flatten(blocks), position, size)
    }

    constructor (base: nat)
      requires base > 0
      ensures Valid() && fresh(repr) && this.base == base
      ensures View().pos == View().size == 0 && capacity == base
    {
      this.base := base;
      position, size, capacity := 0, 0, base;
      var node := new Node(base);
      root, cur := node, node;
      nodes := [node];
      repr := {node, node.data};
      blocks := [node.data[..]];
    }

    /** Stepping along the list: the block after number q. */
    lemma NextNode(q: nat)
      requires Linked() && Sized() && q < |nodes|
      ensures nodes[q] in nodes && nodes[q].data.Length == base
      ensures nodes[q].next == (if q + 1 < |nodes| then nodes[q + 1] else null)
      ensures Times(q + 1, base) == Times(q, base) + base
      ensures Times(q + 1, base) == capacity <==> q + 1 == |nodes|
    {
      TimesOrder(|nodes|, q + 1, base);
    }

    /** memcpy into one block. */
    method CopyIn(a: array<byte>, off: nat, src: seq<byte>, ghost q: nat)
      requires Linked() && q < |nodes| && a == nodes[q].data && off + |src| <= base
      modifies a, this`blocks
      ensures Linked() && blocks == old(blocks)[q := Put(old(blocks)[q], off, src)]
    {
      MemCpy(a, off, src);
      ghost var bs := blocks;
      blocks := blocks[q := Put(blocks[q], off, src)];
      forall i | 0 <= i < |nodes|
        ensures nodes[i].data[..] == blocks[i]
      {
        if i != q { assert nodes[i].data != a && blocks[i] == bs[i]; }
      }
    }

    /** A position inside block q names that block. */
    lemma InBlock(p: nat, q: nat, r: nat)
      requires Linked() && Sized() && q < |nodes| && r < base && p == Times(q, base) + r
      ensures p < capacity && Index(p, base) == q && Offset(p, base) == r
    {
      Locate(q, r, base);
      TimesOrder(q, |nodes|, base);
    }

    /** One more block at the tail of the list. */
    method AppendNode(tail: Node)
      requires Linked() && tail == nodes[|nodes| - 1]
      modifies this`nodes, this`blocks, this`capacity, this`repr, tail`next
      ensures Linked() && |nodes| == |old(nodes)| + 1 && nodes[..|old(nodes)|] == old(nodes)
      ensures |blocks| == |old(blocks)| + 1 && blocks[..|old(blocks)|] == old(blocks)
      ensures fresh(repr - old(repr)) && old(repr) <= repr
      ensures capacity == old(capacity) + base && tail.next == nodes[|nodes| - 1]
    {
      var node := new Node(base);
      SeparateAppend(nodes, base, node);
      tail.next := node;
      nodes := nodes + [node];
      repr := repr + {node, node.data};
      blocks := blocks + [node.data[..]];
      capacity := capacity + base;
      forall i | 0 <= i < |nodes|
        ensures nodes[i].data[..] == blocks[i] && nodes[i].next == After(i)
      {
        assert i < |old(nodes)| ==> nodes[i] == old(nodes)[i];
      }
    }

    /** addCapacity: room for n more bytes at the position, by appending the fewest blocks. */
    method AddCapacity(n: nat)
      requires Valid()
      modifies this, repr
      ensures Valid() && position == old(position) && size == old(size)
      ensures fresh(repr - old(repr)) && old(nodes) <= nodes && old(blocks) <= blocks
      ensures |nodes| == |old(nodes)| + BlocksNeeded(old(capacity) - position, n, base)
      ensures capacity - position >= n && LeastGrowth(old(capacity), capacity, position + n, base)
    {
      var room := capacity - position;
      GrowthInBlocks(|nodes|, room, position, n, base);
      if n == 0 || room >= n {
        return;
      }
      var tail := Tail();
      Distribute(|nodes|, Index(n - room + base - 1, base), base);
      AppendNodes(tail, Index(n - room + base - 1, base), room == 0);
    }

    method Tail() returns (tail: Node)
      requires Linked()
      ensures tail == nodes[|nodes| - 1]
    {
      tail := root;
      ghost var q := 0;
      while tail.next != null
        invariant q < |nodes| && tail == nodes[q]
        decreases |nodes| - q
      {
        tail := tail.next;
        q := q + 1;
      }
    }

    method AppendNodes(tail: Node, count: nat, moveCur: bool)
      requires Valid() && tail == nodes[|nodes| - 1] && moveCur == (position == capacity)
      requires moveCur ==> count > 0
      modifies this, repr
      ensures Valid() && position == old(position) && size == old(size)
      ensures fresh(repr - old(repr)) && old(nodes) <= nodes && old(blocks) <= blocks
      ensures |nodes| == |old(nodes)| + count
    {
      var tmp := tail;
      var first: Node? := null;
      var i := 0;
      while i < count
        invariant i <= count && Linked() && Sized() && position == old(position) && size == old(size) && cur == old(cur)
        invariant |nodes| == |old(nodes)| + i && old(nodes) <= nodes && old(blocks) <= blocks
        invariant tmp == nodes[|nodes| - 1]
        invariant fresh(repr - old(repr))
        invariant if i == 0 then first == null else first == nodes[|old(nodes)|]
      {
        Distribute(|nodes|, 1, base);
        AppendNode(tmp);
        tmp := tmp.next;
        if first == null {
          first := tmp;
        }
        i := i + 1;
      }
      TimesOrder(|old(nodes)|, |nodes|, base);
      if moveCur {
        cur := first;
        InBlock(position, |old(nodes)|, 0);
      } else {
        Inside(position, base, |old(nodes)|);
      }
    }

    /** Moving the position k bytes on, inside the current block or to its end. */
    method Advance(k: nat, npos: nat)
      requires Linked() && Sized() && Placed() && position < capacity
      requires npos == Offset(position, base) && 0 < k <= base - npos
      modifies this`position, this`cur
      ensures Linked() && Sized() && Placed() && position == old(position) + k
      ensures npos + k == base && position < capacity ==> Offset(position, base) == 0
    {
      StepBlock(position, base, |nodes|, k);
      if base == npos + k {
        cur := cur.next;
      }
      position := position + k;
    }

    /** memcpy the next k bytes of d at the position, then moving past them. */
    method PutRun(d: seq<byte>, bpos: nat, k: nat, npos: nat, ghost g: seq<byte>, ghost p: nat)
      requires Linked() && Sized() && Placed() && position < capacity
      requires npos == Offset(position, base) && 0 < k <= base - npos && bpos + k <= |d|
      requires position == p + bpos && p + |d| <= |g| && Flatten(blocks) == Put(g, p, d[..bpos])
      modifies cur.data, this`blocks, this`position, this`cur
      ensures Linked() && Sized() && Placed() && position == old(position) + k <= capacity
      ensures npos + k == base && position < capacity ==> Offset(position, base) == 0
      ensures Flatten(blocks) == Put(g, p, d[..bpos + k])
    {
      ghost var q := Index(position, base);
      Inside(position, base, |nodes|);
      PutNextInBlock(blocks, base, q, npos, g, p, d, bpos, k);
      CopyIn(cur.data, npos, d[bpos..bpos + k], q);
      Advance(k, npos);
    }

    /** write: put d at the position, growing by the fewest blocks. */
    method Write(d: seq<byte>)
      requires Valid()
      modifies this, repr
      ensures Valid() && fresh(repr - old(repr))
      ensures |nodes| == |old(nodes)| + BlocksNeeded(old(capacity - position), |d|, base)
      ensures LeastGrowth(old(capacity), capacity, position, base) && Wrote(old(View()), d, View())
      ensures position == old(position) + |d| && size == (if old(size) < position then position else old(size))
      ensures Overwritten(old(View().store), View().store, old(position), d)
    {
      ghost var before := View();
      ghost var f := View();
      if |d| == 0 {
        WroteNothing(f, d);
        return;
      }
      AddCapacity(|d|);
      GrowthKeeps(old(blocks), blocks, base);
      Fill(d, f);
      WroteMeans(before, d, View());
    }

    /** Writing where there is room. */
    method Fill(d: seq<byte>, ghost f: Buffer)
      requires Valid() && 0 < |d| <= capacity - position
      requires f.Ok() && f.pos == position && f.size == size && f.store <= View().store
      modifies this`blocks, this`position, this`cur, this`size, repr
      ensures Valid() && Wrote(f, d, View())
    {
      ghost var g := View().store;
      WriteLoop(d);
      if position > size {
        size := position;
      }
      GrownBy(f, g, d, View());
    }

    method WriteLoop(d: seq<byte>)
      requires Linked() && Sized() && Placed() && 0 < |d| <= capacity - position
      modifies this`blocks, this`position, this`cur, repr
      ensures Linked() && Sized() && Placed() && position == old(position) + |d| <= capacity
      ensures |Flatten(old(blocks))| == capacity && Flatten(blocks) == Put(Flatten(old(blocks)), old(position), d)
    {
      FlattenLength(blocks, base);
      ghost var g := Flatten(blocks);
      ghost var p := position;
      PutNone(g, p, d);
      Decompose(position, base);
      var npos := Offset(position, base);
      var ncap := base - npos;
      var bpos := 0;
      var left := |d|;
      while left > 0
        invariant 0 <= bpos && 0 <= left && bpos + left == |d| && position == p + bpos
        invariant Linked() && Sized() && Placed()
        invariant left > 0 ==> 0 <= npos < base && npos == Offset(position, base) && ncap == base - npos
        invariant Flatten(blocks) == Put(g, p, d[..bpos])
      {
        bpos := WriteRun(d, bpos, left, npos, ncap, g, p);
        left := |d| - bpos;
        npos, ncap := 0, base;
      }
      PutAll(g, p, d);
    }

    /** As much of the rest of d as the current block holds. */
    method WriteRun(d: seq<byte>, bpos: nat, left: nat, npos: nat, ncap: nat, ghost g: seq<byte>, ghost p: nat) returns (more: nat)
      requires Linked() && Sized() && Placed() && 0 < left == |d| - bpos && position == p + bpos && p + |d| <= |g| == capacity
      requires npos < base && npos == Offset(position, base) && ncap == base - npos && Flatten(blocks) == Put(g, p, d[..bpos])
      modifies cur.data, this`blocks, this`position, this`cur
      ensures Linked() && Sized() && Placed() && bpos < more <= |d| && position == p + more
      ensures more < |d| ==> Offset(position, base) == 0
      ensures Flatten(blocks) == Put(g, p, d[..more])
    {
      if ncap >= left {
        PutRun(d, bpos, left, npos, g, p);
        return |d|;
      } else {
        PutRun(d, bpos, ncap, npos, g, p);
        return bpos + ncap;
      }
    }

    /** memcpy out of the block at the position, then moving past it. */
    method GetRun(out: seq<byte>, k: nat, npos: nat, ghost p: nat) returns (more: seq<byte>)
      requires Linked() && Sized() && Placed() && p <= position < capacity == |Flatten(blocks)|
      requires out == Flatten(blocks)[p..position]
      requires npos == Offset(position, base) && 0 < k <= base - npos
      modifies this`position, this`cur
      ensures Linked() && Sized() && Placed() && position == old(position) + k <= capacity
      ensures npos + k == base && position < capacity ==> Offset(position, base) == 0
      ensures more == Flatten(blocks)[p..position]
    {
      GetHere(npos, k);
      more := out + cur.data[npos..npos + k];
      SliceNext(Flatten(blocks), p, position, position + k);
      Advance(k, npos);
    }

    /** read: the next n bytes, or why there are none. */
    method Read(n: nat) returns (r: ReadResult)
      requires Valid()
      modifies this`position, this`cur
      ensures Valid()
      ensures r == Flat.Read(old(View()), n) && View() == AfterRead(old(View()), n)
      ensures r.OutOfRange? <==> n > size - old(position)
      ensures r.NullBlock? <==> n <= size - old(position) && old(position) == capacity
      ensures r.Bytes? ==> r.data == View().store[old(position)..old(position) + n]
      ensures position == old(position) + (if r.Bytes? then n else 0)
    {
      FlattenLength(blocks, base);
      if n > size - position {
        return OutOfRange;
      }
      if cur == null {
        return NullBlock;
      }
      ghost var p := position;
      var npos := Offset(position, base);
      var ncap := base - npos;
      var left := n;
      var out: seq<byte> := [];
      Decompose(position, base);
      while left > 0
        invariant 0 <= left && position + left == p + n
        invariant Linked() && Sized() && Placed()
        invariant left > 0 ==> 0 <= npos < base && npos == Offset(position, base) && ncap == base - npos
        invariant position <= capacity == |Flatten(blocks)| && out == Flatten(blocks)[p..position]
      {
        var k := if ncap >= left then left else ncap;
        out := GetRun(out, k, npos, p);
        left := left - k;
        npos, ncap := 0, base;
      }
      return Bytes(out);
    }

    /** setPosition, walking the list from its root. */
    method SetPosition(v: nat) returns (ok: bool)
      requires Valid()
      modifies this`position, this`size, this`cur
      ensures Valid() && ok == (v <= capacity)
      ensures View() == Flat.SetPosition(old(View()), v)
      ensures position == (if ok then v else old(position)) && size == (if ok && old(size) < v then v else old(size))
      ensures View().store == old(View().store)
    {
      FlattenLength(blocks, base);
      if v > capacity {
        return false;
      }
      position := v;
      if position > size {
        size := position;
      }
      cur := Find(v);
      return true;
    }

    /** The block holding flat position v, counted off from the root; null at the very end. */
    method Find(v: nat) returns (c: Node?)
      requires Linked() && Sized() && v <= capacity
      ensures if v == capacity then c == null else Index(v, base) < |nodes| && c == nodes[Index(v, base)]
    {
      var left := v;
      c := root;
      ghost var q: nat := 0;
      while left > base
        invariant q < |nodes| && c == nodes[q] && 0 <= left && Times(q, base) + left == v
        decreases left
      {
        left := left - base;
        TimesOrder(q + 1, |nodes|, base);
        c := c.next;
        q := q + 1;
      }
      NextNode(q);
      if left == base {
        c := c.next;
        if q + 1 < |nodes| { InBlock(v, q + 1, 0); }
      } else {
        InBlock(v, q, left);
      }
    }

    /** clear: back to the first block alone. */
    method Clear()
      requires Valid()
      modifies this, repr
      ensures Valid() && fresh(repr - old(repr)) && capacity == base
      ensures View() == Buffer(old(View()).store[..base], 0, 0)
    {
      GrowthKeeps(blocks[..1], blocks, base);
      position, size, capacity := 0, 0, base;
      cur := root;
      root.next := null;
      nodes := nodes[..1];
      blocks := blocks[..1];
    }

    /** The runs from offset npos of a block on, as all three scatter/gather views collect them. */
    method Collect(start: Node, npos: nat, n: nat, ghost q: nat) returns (vs: seq<IoVec>)
      requires Linked() && Sized() && q < |nodes| && start == nodes[q] && npos < base
      requires 0 < n && Times(q, base) + npos + n <= capacity
      ensures vs == Segments(nodes, base, Times(q, base) + npos, n)
    {
      vs := [];
      var c: Node? := start;
      var off, left, ncap := npos, n, base - npos;
      ghost var i: nat := q;
      ghost var p: nat := Times(q, base) + npos;
      ghost var todo := Segments(nodes, base, p, n);
      ghost var all := todo;
      while left > 0
        invariant 0 <= left && p + left == Times(q, base) + npos + n && vs + todo == all
        invariant left > 0 ==> i < |nodes| && c == nodes[i] && 0 <= off < base && ncap == base - off && p == Times(i, base) + off
        invariant if left > 0 then Runs(todo, nodes, base, p, left) else todo == []
        decreases left
      {
        var k, next;
        vs, next, k, todo := CollectRun(c, off, left, ncap, vs, i, p, todo, all);
        p := p + k;
        left := left - k;
        if left > 0 {
          c := next;
          i := i + 1;
          off, ncap := 0, base;
        }
      }
      assert vs + [] == vs;
    }

    /** One run, and the block after it. */
    method CollectRun(c: Node, off: nat, left: nat, ncap: nat, vs: seq<IoVec>,
                      ghost i: nat, ghost p: nat, ghost todo: seq<IoVec>, ghost all: seq<IoVec>)
      returns (more: seq<IoVec>, next: Node?, k: nat, ghost rest: seq<IoVec>)
      requires Linked() && Sized() && i < |nodes| && c == nodes[i] && off < base && ncap == base - off && 0 < left
      requires p == Times(i, base) + off && p + left <= capacity && Runs(todo, nodes, base, p, left) && vs + todo == all
      ensures 0 < k <= left && more + rest == all
      ensures if k < left then Runs(rest, nodes, base, p + k, left - k) else rest == []
      ensures k < left ==> i + 1 < |nodes| && next == nodes[i + 1] && p + k == Times(i + 1, base)
    {
      k := if ncap >= left then left else ncap;
      FirstSegment(nodes, base, i, off, p, left, k, vs, all);
      more := vs + [IoVec(c.data, off, k)];
      next := c.next;
      rest := Segments(nodes, base, p + k, left - k);
    }

    /** getReadBuffers: the readable window, at most n bytes of it. */
    method GetReadBuffers(n: nat) returns (len: nat, vs: seq<IoVec>)
      requires Valid()
      ensures len == (if n > View().Readable() then View().Readable() else n)
      ensures vs == Segments(nodes, base, position, len)
    {
      len := if n > size - position then size - position else n;
      if len == 0 {
        return len, [];
      }
      Inside(position, base, |nodes|);
      vs := Collect(cur, Offset(position, base), len, Index(position, base));
    }

    /** getWriteBuffers: room for n bytes at the position, moving neither position nor size. */
    method GetWriteBuffers(n: nat) returns (vs: seq<IoVec>)
      requires Valid()
      modifies this, repr
      ensures Valid() && position == old(position) && size == old(size) && fresh(repr - old(repr))
      ensures |nodes| == |old(nodes)| + BlocksNeeded(old(capacity - position), n, base)
      ensures position + n <= capacity && vs == Segments(nodes, base, position, n)
      ensures View().store[..old(capacity)] == old(View().store)
    {
      if n == 0 {
        return [];
      }
      AddCapacity(n);
      GrowthKeeps(old(blocks), blocks, base);
      Inside(position, base, |nodes|);
      vs := Collect(cur, Offset(position, base), n, Index(position, base));
    }

    /** sendmsg: the bytes that the runs describe, in order. */
    method Gather(vs: seq<IoVec>, ghost p: nat, ghost n: nat) returns (out: seq<byte>)
      requires Linked() && Sized() && p + n <= capacity == |Flatten(blocks)|
      requires vs == Segments(nodes, base, p, n)
      ensures out == Flatten(blocks)[p..p + n]
    {
      out := [];
      var rest := vs;
      ghost var done: nat := 0;
      while rest != []
        invariant done <= n && rest == Segments(nodes, base, p + done, n - done)
        invariant out == Flatten(blocks)[p..p + done]
        decreases |rest|
      {
        GatherRun(p, n, done, rest);
        out := out + rest[0].data[rest[0].off..rest[0].off + rest[0].len];
        done := done + rest[0].len;
        rest := rest[1..];
      }
    }

    lemma GatherRun(p: nat, n: nat, done: nat, vs: seq<IoVec>)
      requires Linked() && Sized() && p + n <= capacity && done <= n
      requires vs == Segments(nodes, base, p + done, n - done) && vs != []
      ensures done + vs[0].len <= n && vs[0].off + vs[0].len <= vs[0].data.Length && p + n <= |Flatten(blocks)|
      ensures vs[1..] == Segments(nodes, base, p + (done + vs[0].len), n - (done + vs[0].len))
      ensures Flatten(blocks)[p..p + done] + vs[0].data[vs[0].off..vs[0].off + vs[0].len]
           == Flatten(blocks)[p..p + (done + vs[0].len)]
    {
      SegmentHolds(p + done, n - done, vs);
      SliceNext(Flatten(blocks), p, p + done, p + done + vs[0].len);
    }

    /** Where the first run of a window is. */
    lemma SegmentFirst(p: nat, n: nat, vs: seq<IoVec>)
      requires Linked() && Sized() && p + n <= capacity
      requires vs == Segments(nodes, base, p, n) && vs != []
      ensures Index(p, base) < |nodes| && vs[0].data == nodes[Index(p, base)].data
      ensures 0 < vs[0].len <= n && vs[0].off + vs[0].len <= base == vs[0].data.Length && p == Times(Index(p, base), base) + vs[0].off
      ensures vs[1..] == Segments(nodes, base, p + vs[0].len, n - vs[0].len)
    {
      Inside(p, base, |nodes|);
    }

    lemma SegmentNext(p: nat, n: nat, done: nat, vs: seq<IoVec>)
      requires Linked() && Sized() && p + n <= capacity && done <= n
      requires vs == Segments(nodes, base, p + done, n - done) && vs != []
      ensures done + vs[0].len <= n && vs[1..] == Segments(nodes, base, p + (done + vs[0].len), n - (done + vs[0].len))
    {
      SegmentFirst(p + done, n - done, vs);
    }

    /** It holds the window's first bytes. */
    lemma SegmentHolds(p: nat, n: nat, vs: seq<IoVec>)
      requires Linked() && Sized() && p + n <= capacity
      requires vs == Segments(nodes, base, p, n) && vs != []
      ensures 0 < vs[0].len <= n && vs[0].off + vs[0].len <= base == vs[0].data.Length
      ensures vs[1..] == Segments(nodes, base, p + vs[0].len, n - vs[0].len)
      ensures |Flatten(blocks)| == capacity
      ensures vs[0].data[vs[0].off..vs[0].off + vs[0].len] == Flatten(blocks)[p..p + vs[0].len]
    {
      SegmentFirst(p, n, vs);
      BlockHolds(Index(p, base), vs[0].off, vs[0].len);
    }

    /** recvmsg: storing bytes through the runs, in order, as far as they go. */
    method Scatter(vs: seq<IoVec>, d: seq<byte>, ghost p: nat, ghost n: nat)
      requires Linked() && Sized() && p + n <= capacity == |Flatten(blocks)|
      requires vs == Segments(nodes, base, p, n) && |d| <= n
      modifies this`blocks, repr
      ensures Linked() && Flatten(blocks) == Put(Flatten(old(blocks)), p, d)
    {
      ghost var g := Flatten(blocks);
      PutNone(g, p, d);
      var done: nat := 0;
      var rest := vs;
      while done < |d|
        invariant done <= |d| && Linked()
        invariant done < |d| ==> rest == Segments(nodes, base, p + done, n - done)
        invariant Flatten(blocks) == Put(g, p, d[..done])
        decreases |d| - done
      {
        done, rest := StoreNext(rest, d, done, g, p, n);
      }
      PutAll(g, p, d);
    }

    method StoreNext(vs: seq<IoVec>, d: seq<byte>, done: nat, ghost g: seq<byte>, ghost p: nat, ghost n: nat)
      returns (more: nat, rest: seq<IoVec>)
      requires Linked() && Sized() && p + n <= |g| == capacity && done < |d| <= n
      requires vs == Segments(nodes, base, p + done, n - done) && Flatten(blocks) == Put(g, p, d[..done])
      modifies this`blocks, repr
      ensures Linked() && done < more <= |d| && Flatten(blocks) == Put(g, p, d[..more])
      ensures more < |d| ==> rest == Segments(nodes, base, p + more, n - more)
    {
      SegmentNext(p, n, done, vs);
      more := StoreRun(vs[0], vs, d, done, g, p, n);
      rest := vs[1..];
    }

    /** Filling one run. */
    method StoreRun(v: IoVec, ghost vs: seq<IoVec>, d: seq<byte>, done: nat, ghost g: seq<byte>, ghost p: nat, ghost n: nat)
      returns (more: nat)
      requires Linked() && Sized() && p + n <= |g| == capacity && done < |d| <= n && vs != [] && v == vs[0]
      requires vs == Segments(nodes, base, p + done, n - done) && Flatten(blocks) == Put(g, p, d[..done])
      modifies this`blocks, repr
      ensures done < more == (if v.len <= |d| - done then done + v.len else |d|)
      ensures Linked() && Flatten(blocks) == Put(g, p, d[..more])
    {
      SegmentFirst(p + done, n - done, vs);
      var k := if v.len <= |d| - done then v.len else |d| - done;
      Store(v.data, v.off, d, done, k, Index(p + done, base), g, p);
      more := done + k;
    }

    method Store(a: array<byte>, off: nat, d: seq<byte>, done: nat, k: nat, ghost q: nat, ghost g: seq<byte>, ghost p: nat)
      requires Linked() && q < |nodes| && a == nodes[q].data && off + k <= base && p + done == Times(q, base) + off
      requires done + k <= |d| && p + |d| <= |g| && Flatten(blocks) == Put(g, p, d[..done])
      modifies a, this`blocks
      ensures Linked() && Flatten(blocks) == Put(g, p, d[..done + k])
    {
      PutNextInBlock(blocks, base, q, off, g, p, d, done, k);
      CopyIn(a, off, d[done..done + k], q);
    }

    /** What a run of block i holds. */
    lemma BlockHolds(i: nat, off: nat, k: nat)
      requires Linked() && Sized() && i < |nodes| && off + k <= base
      ensures nodes[i].data.Length == base && Times(i, base) + off + k <= |Flatten(blocks)| == capacity
      ensures nodes[i].data[off..off + k] == Flatten(blocks)[Times(i, base) + off..Times(i, base) + off + k]
    {
      FlattenLength(blocks, base);
      GetInBlock(blocks, base, i, off, k);
      assert nodes[i].data[..] == blocks[i];
      assert nodes[i].data[off..off + k] == nodes[i].data[..][off..off + k];
    }

    /** The flat bytes are those of the blocks, one block after another. */
    lemma ByteAt(i: nat)
      requires Linked() && Sized() && i < capacity
      ensures i / base < |nodes| && nodes[i / base].data.Length == base && |Flatten(blocks)| == capacity
      ensures Flatten(blocks)[i] == nodes[i / base].data[i % base]
    {
      ArithmeticMeaning(i, base);
      Inside(i, base, |nodes|);
      BlockHolds(Index(i, base), Offset(i, base), 1);
      assert nodes[i / base].data[i % base..i % base + 1][0] == nodes[i / base].data[i % base];
    }

    /** The read that takes a position, leaving the cursor alone. */
    method ReadAt(n: nat, p: nat) returns (r: ReadResult)
      requires Valid()
      ensures r == Flat.ReadAt(View(), base, n, p)
    {
      if n > (size - p) % TwoTo64 {
        return OutOfRange;
      }
      if cur == null {
        return NullBlock;
      }
      Inside(position, base, |nodes|);
      Decompose(p, base);
      var out := CopyOut(cur, Offset(p, base), n, Index(position, base));
      return if out.None? then NullBlock else Bytes(out.value);
    }

    /** Copying n bytes from offset npos of block q on; none when the list ends first. */
    method CopyOut(start: Node, npos: nat, n: nat, ghost q: nat) returns (r: Option<seq<byte>>)
      requires Linked() && Sized() && q < |nodes| && start == nodes[q] && npos < base
      ensures |Flatten(blocks)| == capacity
      ensures var p := Times(q, base) + npos;
              r == if p + n > capacity then None else Some(Flatten(blocks)[p..p + n])
    {
      var c := start;
      var off, left, ncap := npos, n, base - npos;
      var out := [];
      ghost var i: nat := q;
      ghost var p: nat := Times(q, base) + npos;
      BlockHolds(q, npos, 0);
      while left > 0
        invariant 0 <= left && |out| + left == n
        invariant left > 0 ==> i < |nodes| && c == nodes[i] && 0 <= off < base && ncap == base - off && p + |out| == Times(i, base) + off
        invariant p + |out| <= capacity && out == Flatten(blocks)[p..p + |out|]
        decreases left
      {
        var k := if ncap >= left then left else ncap;
        CopyRun(i, off, k, p, out);
        out := out + c.data[off..off + k];
        left := left - k;
        if left > 0 {
          if c.next == null {
            return None;
          }
          c := c.next;
          i := i + 1;
          off, ncap := 0, base;
        }
      }
      return Some(out);
    }

    lemma CopyRun(i: nat, off: nat, k: nat, p: nat, out: seq<byte>)
      requires Linked() && Sized() && i < |nodes| && off + k <= base && p + |out| == Times(i, base) + off
      requires |Flatten(blocks)| == capacity && p + |out| <= capacity && out == Flatten(blocks)[p..p + |out|]
      ensures nodes[i].data.Length == base && p + |out| + k <= capacity
      ensures out + nodes[i].data[off..off + k] == Flatten(blocks)[p..p + |out| + k]
      ensures off + k == base ==> p + |out| + k == Times(i + 1, base) && (i + 1 == |nodes| <==> p + |out| + k == capacity)
    {
      BlockHolds(i, off, k);
      SliceNext(Flatten(blocks), p, p + |out|, p + |out| + k);
      TimesOrder(i + 1, |nodes|, base);
      TimesOrder(|nodes|, i + 1, base);
    }

    /** toString: the readable window. */
    method ToString() returns (s: seq<byte>)
      requires Valid() && size < TwoTo64
      ensures s == View().store[position..size]
    {
      if size - position == 0 {
        return [];
      }
      StartsRight(position, position, base);
      var r := ReadAt(size - position, position);
      s := r.data;
    }

    /** readFromFile: a block at a time until a read comes up short. */
    method ReadFromFile(content: seq<byte>)
      requires Valid()
      modifies this, repr
      ensures Valid() && fresh(repr - old(repr))
      ensures Wrote(old(View()), content, View())
    {
      ghost var f := View();
      WroteNothing(f, content);
      var done: nat := 0;
      var eof := false;
      while !eof
        invariant done <= |content| && Valid() && fresh(repr - old(repr))
        invariant Wrote(f, content[..done], View()) && (eof ==> done == |content|)
        decreases |content| - done, if eof then 0 else 1
      {
        var count := if |content| - done < base then |content| - done else base;
        eof := count < base;
        WriteNext(content, done, count, f);
        done := done + count;
      }
      WroteWhole(f, content, View());
    }

    /** Writing the next part of some data. */
    method WriteNext(d: seq<byte>, done: nat, k: nat, ghost f: Buffer)
      requires Valid() && f.Ok() && done + k <= |d| && Wrote(f, d[..done], View())
      modifies this, repr
      ensures Valid() && fresh(repr - old(repr))
      ensures Wrote(f, d[..done + k], View())
    {
      ghost var g := View();
      Write(d[done..done + k]);
      WroteNext(f, d, done, k, g, View());
    }

    /** writeToFile: the whole window, or nothing sensible (None) once a count is not positive or
        the list has ended. It works exactly when the position is at the start of a block, or at
        least a block's worth is readable, or nothing is. */
    method WriteToFile() returns (r: Option<seq<byte>>)
      requires Valid()
      ensures r == if FileWritable(View(), base) then Some(View().store[position..size]) else None
    {
      WritingStarts();
      var left, pos, c := size - position, position, cur;
      var out := [];
      while left > 0
        invariant 0 <= left && 0 <= pos && Writing(c, pos, left, out)
        decreases left
      {
        var diff := Offset(pos, base);
        var len := (if left > base then base else left) - diff;
        FileStep(c, pos, left, out, len);
        if c == null || len <= 0 {
          return None;
        }
        out := out + c.data[diff..diff + len];
        c := c.next;
        pos := pos + len;
        left := left - len;
      }
      return Some(out);
    }

    /** What holds between the runs that writeToFile copies. */
    ghost predicate Writing(c: Node?, pos: nat, left: nat, out: seq<byte>)
      reads this, repr
      requires Valid()
    {
      && position <= pos && pos + left == size
      && if FileWritable(View(), base) then
           && out == View().store[position..pos]
           && (left > 0 ==> BlockAt(c, pos) && (Offset(pos, base) == 0 || left >= base))
         else
           && 0 < left < base
           && ((pos == position && c == cur) || left < Offset(pos, base))
    }

    lemma WritingStarts()
      requires Valid()
      ensures Writing(cur, position, size - position, [])
    {
      if position < capacity { Inside(position, base, |nodes|); }
    }

    lemma FileStep(c: Node?, pos: nat, left: nat, out: seq<byte>, len: int)
      requires Valid() && Writing(c, pos, left, out) && left > 0
      requires len == (if left > base then base else left) - Offset(pos, base)
      ensures FileWritable(View(), base) ==> c != null && len > 0
      ensures c != null && len > 0 ==>
                && len <= left && Offset(pos, base) + len <= base == c.data.Length
                && Writing(c.next, pos + len, left - len, out + c.data[Offset(pos, base)..Offset(pos, base) + len])
    {
      if FileWritable(View(), base) {
        WholeRun(c, pos, left, len);
        SliceNext(View().store, position, pos, pos + len);
      } else {
        ShortRun(c, pos, left, len);
      }
    }

    /** A run that ends with its block or with the window is copied whole. */
    lemma WholeRun(c: Node?, pos: nat, left: nat, len: int)
      requires Linked() && Sized() && position <= pos && 0 < left <= capacity - pos && BlockAt(c, pos)
      requires Offset(pos, base) == 0 || left >= base
      requires len == (if left > base then base else left) - Offset(pos, base)
      ensures c != null && 0 < len <= left && Offset(pos, base) + len <= base == c.data.Length && pos + len <= |Flatten(blocks)|
      ensures c.data[Offset(pos, base)..Offset(pos, base) + len] == Flatten(blocks)[pos..pos + len]
      ensures len < left ==> Offset(pos + len, base) == 0 && BlockAt(c.next, pos + len)
    {
      Inside(pos, base, |nodes|);
      StepBlock(pos, base, |nodes|, len);
      BlockHolds(Index(pos, base), Offset(pos, base), len);
    }

    /** A window shorter than a block, begun inside one, goes wrong after its first run. */
    lemma ShortRun(c: Node?, pos: nat, left: nat, len: int)
      requires Valid() && !FileWritable(View(), base) && 0 < left < base && len == left - Offset(pos, base)
      requires (pos == position && c == cur && left == size - position) || left < Offset(pos, base)
      ensures len > 0 ==> c != null && c.data.Length == base && 0 < left - len < Offset(pos + len, base) < base
    {
      if len > 0 {
        Inside(position, base, |nodes|);
        Locate(Index(pos, base), left, base);
      }
    }

    /** c is the block of position p. */
    ghost predicate BlockAt(c: Node?, p: nat)
      reads this
      requires base > 0
    {
      if Index(p, base) < |nodes| then c == nodes[Index(p, base)] else c == null
    }

    /** What the current block holds at the position. */
    lemma GetHere(npos: nat, k: nat)
      requires Linked() && Sized() && Placed() && position < capacity && npos == Offset(position, base) && k <= base - npos
      ensures cur != null && cur.data.Length == base && position + k <= |Flatten(blocks)| == capacity
      ensures cur.data[npos..npos + k] == Flatten(blocks)[position..position + k]
    {
      Inside(position, base, |nodes|);
      FlattenLength(blocks, base);
      GetInBlock(blocks, base, Index(position, base), npos, k);
      assert cur.data[..] == blocks[Index(position, base)];
      assert cur.data[npos..npos + k] == cur.data[..][npos..npos + k];
    }
  }

  /** Growth leaves the old bytes where they were. */
  lemma GrowthKeeps(old_: seq<seq<byte>>, bs: seq<seq<byte>>, base: nat)
    requires base > 0 && Uniform(bs, base) && old_ <= bs
    ensures |Flatten(old_)| == Times(|old_|, base) <= |Flatten(bs)| == Times(|bs|, base)
    ensures Flatten(old_) <= Flatten(bs)
  {
    FlattenLength(old_, base);
    FlattenLength(bs, base);
    TimesOrder(|old_|, |bs|, base);
    assert bs == old_ + bs[|old_|..];
    FlattenConcat(old_, bs[|old_|..]);
  }

  lemma PutNext(g: seq<byte>, p: nat, d: seq<byte>, done: nat, k: nat)
    requires done + k <= |d| && p + |d| <= |g|
    ensures Put(Put(g, p, d[..done]), p + done, d[done..done + k]) == Put(g, p, d[..done + k])
  {
    PutPut(g, p, d[..done], d[done..done + k]);
    assert d[..done] + d[done..done + k] == d[..done + k];
  }

  lemma PutNone(g: seq<byte>, p: nat, d: seq<byte>)
    requires p <= |g|
    ensures Put(g, p, d[..0]) == g
  {
  }

  lemma PutAll(g: seq<byte>, p: nat, d: seq<byte>)
    requires p + |d| <= |g|
    ensures Put(g, p, d[..|d|]) == Put(g, p, d)
  {
    assert d[..|d|] == d;
  }

  lemma PutNextInBlock(bs: seq<seq<byte>>, base: nat, q: nat, off: nat,
                       g: seq<byte>, p: nat, d: seq<byte>, done: nat, k: nat)
    requires Uniform(bs, base) && q < |bs| && off + k <= base && Times(q, base) + off == p + done
    requires done + k <= |d| && p + |d| <= |g| && Flatten(bs) == Put(g, p, d[..done])
    ensures Flatten(bs[q := Put(bs[q], off, d[done..done + k])]) == Put(g, p, d[..done + k])
  {
    PutInBlock(bs, base, q, off, d[done..done + k]);
    PutNext(g, p, d, done, k);
  }

  lemma SliceNext(s: seq<byte>, p: nat, a: nat, b: nat)
    requires p <= a <= b <= |s|
    ensures s[p..a] + s[a..b] == s[p..b]
  {
  }

  method MemCpy(a: array<byte>, off: nat, src: seq<byte>)
    requires off + |src| <= a.Length
    modifies a
    ensures a[..] == Put(old(a[..]), off, src)
  {
    forall i | 0 <= i < |src| { a[off + i] := src[i]; }
  }
}
