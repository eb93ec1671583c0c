/**
 ByteSliceReader over the pool's blocks: positions are kept relative to the current block, and
 a reader of a stream delivers that stream's bytes whichever of its methods is used.
 */
module ByteSliceReaders {
  import opened ByteSlices
  import opened ByteSliceRuns
  import opened ByteBlockPools

  /** A stream with the pool it lives in, standing still while it is read. */
  datatype Source = Source(p: Pool, owner: seq<int>, k: int, s: Stream)

  predicate Open(src: Source) { StreamOk(src.p, src.owner, src.k, src.s) && Sized(src.p) }

  class ByteSliceReader {
    const pool: ByteBlockPool
    var buffer: array<int>
    var bufferUpto: int
    var upto: int
    var limit: int
    var level: nat
    var bufferOffset: int
    const endIndex: int

    ghost function Abs(): Reader
      reads this
    {
      Reader(upto + bufferOffset, limit + bufferOffset, level, endIndex)
    }

    ghost predicate InBlock()
      reads this, pool, pool.buffers, pool.recycled
    {
      && pool.Valid() && 0 <= bufferUpto < |pool.buffers| && buffer == pool.buffers[bufferUpto]
      && bufferOffset == bufferUpto * BLOCK && 0 <= upto <= limit < BLOCK
    }

    /** The reader stands `c` bytes into the source, in its slice `i`. */
    ghost predicate At(src: Source, i: nat, c: nat)
      reads this, pool, pool.buffers, pool.recycled
    {
      InBlock() && Open(src) && pool.Abs() == src.p && StandsAt(src.p, src.owner, src.k, src.s, Abs(), i, c)
    }

    constructor (pool: ByteBlockPool, startIndex: nat, endIndex: nat, ghost src: Source)
      requires pool.Valid() && Open(src) && pool.Abs() == src.p
      requires startIndex == src.s.slices[0].addr && endIndex == src.s.wp
      ensures this.pool == pool && At(src, 0, 0)
    {
      InitStands(src.p, src.owner, src.k, src.s);
      SliceBlock(src, 0);
      this.pool, this.endIndex, level := pool, endIndex, 0;
      bufferUpto := startIndex / BLOCK;
      bufferOffset := startIndex / BLOCK * BLOCK;
      buffer := pool.buffers[startIndex / BLOCK];
      upto := startIndex % BLOCK;
      if startIndex + FIRST_LEVEL_SIZE >= endIndex {
        limit := endIndex % BLOCK;
      } else {
        limit := startIndex % BLOCK + FIRST_LEVEL_SIZE - 4;
      }
    }

    method AtEof(ghost src: Source, ghost i: nat, ghost c: nat) returns (eof: bool)
      requires At(src, i, c)
      ensures eof <==> c == |src.s.data|
    {
      AtEnd(src.p, src.owner, src.k, src.s, Abs(), i, c);
      eof := upto + bufferOffset == endIndex;
    }

    /** Follows the forwarding address at the end of a slice. */
    method NextSlice(ghost src: Source, ghost i: nat, ghost c: nat)
      requires At(src, i, c) && upto == limit && i < |src.s.slices| - 1
      modifies this
      ensures At(src, i + 1, c) && upto < limit
    {
      hide StandsAt, Open;
      NextStands(src.p, src.owner, src.k, src.s, Abs(), i, c);
      NextFacts(src, Abs(), i, c);
      Follow(src.p.mem);
    }

    method Follow(ghost mem: seq<int>)
      requires InBlock() && pool.Mem() == mem && CanFollow(mem, Abs()) && limit + 4 <= BLOCK
      requires var next := Get4(mem, Abs().limit); var size := LEVEL_SIZE[NEXT_LEVEL[level]];
        && 14 <= size && 0 <= next < |mem| && next < endIndex != next + size
           && next / BLOCK == (next + size - 1) / BLOCK
      modifies this
      ensures InBlock() && pool.Abs() == old(pool.Abs()) && Abs() == ByteSliceRuns.NextSlice(mem, old(Abs()))
    {
      hide Get4;
      var nextIndex := ReadLink();
      var newLevel := NEXT_LEVEL[level];
      MoveTo(nextIndex, newLevel, LEVEL_SIZE[newLevel]);
    }

    method ReadLink() returns (nextIndex: int)
      requires InBlock() && limit + 4 <= BLOCK
      ensures nextIndex == Get4(pool.Mem(), limit + bufferOffset)
    {
      ReadFour(limit);
      nextIndex := buffer[limit] * 0x1000000 + buffer[limit + 1] * 0x10000 + buffer[limit + 2] * 0x100
          + buffer[limit + 3];
    }

    method MoveTo(nextIndex: nat, newLevel: nat, newSize: nat)
      requires pool.Valid() && nextIndex < |pool.Mem()| && nextIndex / BLOCK == (nextIndex + newSize - 1) / BLOCK
               && newSize >= 14
      requires nextIndex < endIndex != nextIndex + newSize
      modifies this
      ensures pool.Valid() && pool.Abs() == old(pool.Abs()) && InBlock()
      ensures Abs() == Reader(nextIndex, if nextIndex + newSize >= endIndex then endIndex
                else nextIndex + newSize - 4, newLevel, endIndex)
    {
      assert forall i :: 0 <= i < |pool.buffers| ==> pool.buffers[i] as object != this;
      assert forall i :: 0 <= i < |pool.recycled| ==> pool.recycled[i] as object != this;
      level := newLevel;
      bufferUpto := nextIndex / BLOCK;
      bufferOffset := bufferUpto * BLOCK;
      buffer := pool.buffers[bufferUpto];
      upto := nextIndex % BLOCK;
      if nextIndex + newSize >= endIndex {
        limit := endIndex - bufferOffset;
      } else {
        limit := upto + newSize - 4;
      }
    }

    /** The next byte of the stream. */
    method ReadByte(ghost src: Source, ghost i: nat, ghost c: nat) returns (b: int, ghost i': nat)
      requires At(src, i, c) && c < |src.s.data|
      modifies this
      ensures b == src.s.data[c] && At(src, i', c + 1)
    {
      i' := ToUnread(src, i, c);
      StandsData(src, Abs(), i', c);
      pool.ReadAt(buffer, upto, bufferUpto);
      b := buffer[upto];
      Skip(1, src, i', c);
    }

    /** Leaves an exhausted slice, so that the next byte lies in the current one. */
    method ToUnread(ghost src: Source, ghost i: nat, ghost c: nat) returns (ghost i': nat)
      requires At(src, i, c) && c < |src.s.data|
      modifies this
      ensures At(src, i', c) && upto < limit
    {
      AtEnd(src.p, src.owner, src.k, src.s, Abs(), i, c);
      i' := i;
      if upto == limit {
        NextSlice(src, i, c);
        i' := i + 1;
      }
    }

    method Skip(n: nat, ghost src: Source, ghost i: nat, ghost c: nat)
      requires At(src, i, c) && upto + n <= limit
      modifies this
      ensures At(src, i, c + n) && upto == old(upto) + n && limit == old(limit) && bufferOffset == old(bufferOffset)
    {
      hide StreamOk, Offset, Open;
      Bump(n);
    }

    method Bump(n: nat)
      requires InBlock() && upto + n <= limit
      modifies this`upto
      ensures InBlock() && pool.Abs() == old(pool.Abs()) && Abs() == old(Abs()).(pos := old(upto) + n + bufferOffset)
      ensures upto == old(upto) + n
    {
      assert forall i :: 0 <= i < |pool.buffers| ==> pool.buffers[i] as object != this;
      assert forall i :: 0 <= i < |pool.recycled| ==> pool.recycled[i] as object != this;
      upto := upto + n;
    }

    /** Copies out `n` bytes of the current slice in one go. */
    method Take(n: nat, ghost src: Source, ghost i: nat, ghost c: nat) returns (bytes: seq<int>)
      requires At(src, i, c) && upto + n <= limit
      modifies this
      ensures c + n <= |src.s.data| && bytes == src.s.data[c..c + n]
      ensures At(src, i, c + n) && upto == old(upto) + n && limit == old(limit) && bufferOffset == old(bufferOffset)
    {
      hide StandsAt, Open;
      StandsRange(src, Abs(), i, c, n);
      bytes := buffer[upto..upto + n];
      assert bytes == pool.Mem()[upto + bufferOffset..upto + bufferOffset + n] by {
        forall j | 0 <= j < n ensures bytes[j] == pool.Mem()[upto + bufferOffset + j] {
          pool.ReadAt(buffer, upto + j, bufferUpto);
        }
      }
      Skip(n, src, i, c);
    }

    /** Goes on to the next slice; there is one, since the stream has not ended. */
    method Continue(ghost src: Source, ghost i: nat, ghost c: nat)
      requires At(src, i, c) && upto == limit && c < |src.s.data|
      modifies this
      ensures At(src, i + 1, c) && i + 1 < |src.s.slices|
    {
      AtEnd(src.p, src.owner, src.k, src.s, Abs(), i, c);
      NextSlice(src, i, c);
    }

    /** readBytes: whole slices while they do not suffice, then part of the last one. */
    method ReadBytes(length: nat, ghost src: Source, ghost i0: nat, ghost c0: nat) returns (bytes: seq<int>,
                     ghost i: nat)
      requires At(src, i0, c0) && c0 + length <= |src.s.data|
      modifies this
      ensures bytes == src.s.data[c0..c0 + length] && At(src, i, c0 + length)
    {
      hide StandsAt, Open;
      bytes, i := [], i0;
      var left := length;
      while left > 0
        invariant 0 <= left <= length
        invariant bytes == src.s.data[c0..c0 + length - left] && At(src, i, c0 + length - left)
        decreases left, |src.s.slices| - i
      {
        var numLeft := limit - upto;
        if numLeft < left {
          var chunk := Take(numLeft, src, i, c0 + length - left);
          bytes := bytes + chunk;
          left := left - numLeft;
          Continue(src, i, c0 + length - left);
          i := i + 1;
        } else {
          var chunk := Take(left, src, i, c0 + length - left);
          bytes := bytes + chunk;
          left := 0;
        }
      }
    }

    /** writeTo: everything from the position to the end of the stream. */
    method WriteTo(ghost src: Source, ghost i0: nat, ghost c0: nat) returns (out: seq<int>, size: nat)
      requires At(src, i0, c0)
      modifies this
      ensures c0 <= |src.s.data| && out == src.s.data[c0..] && size == |src.s.data| - c0
    {
      hide StandsAt, Open;
      AtEnd(src.p, src.owner, src.k, src.s, Abs(), i0, c0);
      out, size := [], 0;
      ghost var i := i0;
      while true
        invariant c0 + size <= |src.s.data| && At(src, i, c0 + size) && out == src.s.data[c0..c0 + size]
        decreases |src.s.slices| - i
      {
        var left := limit - upto;
        var chunk := Take(left, src, i, c0 + size);
        out := out + chunk;
        size := size + left;
        AtEnd(src.p, src.owner, src.k, src.s, Abs(), i, c0 + size);
        if limit + bufferOffset == endIndex {
          break;
        }
        Continue(src, i, c0 + size);
        i := i + 1;
      }
    }

    lemma ReadFour(at: int)
      requires InBlock() && 0 <= at && at + 4 <= BLOCK
      ensures Get4(pool.Mem(), at + bufferOffset) ==
                buffer[at] * 0x1000000 + buffer[at + 1] * 0x10000 + buffer[at + 2] * 0x100 + buffer[at + 3]
    {
      pool.ReadAt(buffer, at, bufferUpto);
      pool.ReadAt(buffer, at + 1, bufferUpto);
      pool.ReadAt(buffer, at + 2, bufferUpto);
      pool.ReadAt(buffer, at + 3, bufferUpto);
    }
  }

  /** A slice, and what it holds of its stream, lie in one block of the pool. */
  lemma SliceBlock(src: Source, i: nat)
    requires Open(src) && i < |src.s.slices|
    ensures var x := src.s.slices[i];
      && x.Ok() && x.End() <= src.p.top <= |src.p.mem| && x.addr / BLOCK == (x.End() - 1) / BLOCK
      && x.addr <= HeldEnd(src.s, i) <= x.End() - 1
      && (i < |src.s.slices| - 1 ==> HeldEnd(src.s, i) + 4 == x.End())
      && x.level < |LEVEL_SIZE|
  {
    var x := src.s.slices[i];
    assert x.Ok() && x.End() <= src.p.top;
  }

  /** Where slice `i` ends and where its successor lies. */
  lemma SuccessorFacts(src: Source, i: nat)
    requires Open(src) && i < |src.s.slices| - 1
    ensures var x, y := src.s.slices[i], src.s.slices[i + 1];
      && x.Ok() && y.Ok() && 4 <= x.End() <= |src.p.mem| && Get4(src.p.mem, x.End() - 4) == y.addr < |src.p.mem|
      && (x.End() - 4) % BLOCK + 4 <= BLOCK && y.level == NEXT_LEVEL[x.level]
         && y.Size() == LEVEL_SIZE[NEXT_LEVEL[x.level]]
      && 14 <= y.Size() && y.addr < src.s.wp != y.End() && y.addr / BLOCK == (y.End() - 1) / BLOCK
  {
    hide StreamOk;
    LinkLeads(src.p, src.owner, src.k, src.s, i);
    BeforeWriter(src.p, src.owner, src.k, src.s, i);
    SliceBlock(src, i);
    SliceBlock(src, i + 1);
    TailInBlock(src.s.slices[i].addr, src.s.slices[i].End());
  }

  lemma TailInBlock(a: nat, e: nat)
    requires a + 5 <= e && a / BLOCK == (e - 1) / BLOCK
    ensures (e - 4) % BLOCK + 4 <= BLOCK
  {
  }

  /** What the link at the end of slice `i` leads to. */
  lemma NextFacts(src: Source, r: Reader, i: nat, c: nat)
    requires Open(src) && StandsAt(src.p, src.owner, src.k, src.s, r, i, c) && r.pos == r.limit
             && i < |src.s.slices| - 1
    ensures var mem := src.p.mem; var next := src.s.slices[i + 1].addr;
      && CanFollow(mem, r) && next == Get4(mem, r.limit) && 0 <= next < |mem|
      && r.limit % BLOCK + 4 <= BLOCK && r.level < |NEXT_LEVEL|
      && var size := LEVEL_SIZE[NEXT_LEVEL[r.level]];
      && 14 <= size && next < r.end != next + size && next / BLOCK == (next + size - 1) / BLOCK
      && ByteSliceRuns.NextSlice(mem, r) == Reader(next,
         if next + size >= r.end then r.end else next + size - 4, NEXT_LEVEL[r.level], r.end)
  {
    hide StreamOk, Offset, Get4;
    SuccessorFacts(src, i);
  }

  lemma StandsData(src: Source, r: Reader, i: nat, c: nat)
    requires Open(src) && StandsAt(src.p, src.owner, src.k, src.s, r, i, c) && r.pos < r.limit
    ensures c < |src.s.data| && 0 <= r.pos < |src.p.mem| && src.s.data[c] == src.p.mem[r.pos]
  {
    hide StreamOk, Offset;
    SliceBlock(src, i);
    DataAt(src.p, src.owner, src.k, src.s, i, r.pos);
  }

  lemma StandsRange(src: Source, r: Reader, i: nat, c: nat, n: nat)
    requires Open(src) && StandsAt(src.p, src.owner, src.k, src.s, r, i, c) && r.pos + n <= r.limit
    ensures c + n <= |src.s.data| && 0 <= r.pos && r.limit <= |src.p.mem|
    ensures src.s.data[c..c + n] == src.p.mem[r.pos..r.pos + n]
  {
    hide StreamOk;
    SliceBlock(src, i);
    AtEnd(src.p, src.owner, src.k, src.s, r.(pos := r.pos + n), i, c + n);
    var a, b := src.s.data[c..c + n], src.p.mem[r.pos..r.pos + n];
    forall j | 0 <= j < n ensures a[j] == b[j] {
      DataAt(src.p, src.owner, src.k, src.s, i, r.pos + j);
    }
  }
}
