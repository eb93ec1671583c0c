/**
 ByteBlockPool, ByteSliceWriter and ByteSliceReader: shared arrays written in place, proved
 against the flat-address functions of ByteSlices and ByteSliceRuns.
 */
module ByteBlockPools {
  import opened ByteSlices
  import opened ByteSliceRuns

  class ByteBlockPool {
    var buffers: seq<array<int>>
    var recycled: seq<array<int>>
    var bufferUpto: int
    var byteUpto: nat
    var byteOffset: int

    ghost predicate Blocks()
      reads this
    {
      && (forall i :: 0 <= i < |buffers| ==> buffers[i].Length == BLOCK)
      && (forall i, j :: 0 <= i < j < |buffers| ==> buffers[i] != buffers[j])
      && (forall i :: 0 <= i < |recycled| ==> recycled[i].Length == BLOCK)
      && (forall i, j :: 0 <= i < j < |recycled| ==> recycled[i] != recycled[j])
      && (forall i, j :: 0 <= i < |buffers| && 0 <= j < |recycled| ==> buffers[i] != recycled[j])
    }

    ghost predicate Clean(a: array<int>)
      reads a
    {
      forall i :: 0 <= i < a.Length ==> a[i] == 0
    }

    ghost predicate Valid()
      reads this, buffers, recycled
    {
      && Blocks()
      && (forall i :: 0 <= i < |recycled| ==> Clean(recycled[i]))
      && bufferUpto == |buffers| - 1 && byteOffset == bufferUpto * BLOCK && byteUpto <= BLOCK
      && (buffers == [] ==> byteUpto == BLOCK)
    }

    ghost function Mem(): seq<int>
      reads this, buffers
      requires Blocks()
    {
      seq(|buffers| * BLOCK, a requires 0 <= a < |buffers| * BLOCK reads this, buffers requires Blocks() =>
        buffers[a / BLOCK][a % BLOCK])
    }

    ghost function Abs(): Pool
      reads this, buffers, recycled
      requires Valid()
    {
      Pool(Mem(), byteOffset + byteUpto)
    }

    constructor ()
      ensures Valid() && Abs() == EMPTY
    {
      buffers, recycled, bufferUpto, byteUpto, byteOffset := [], [], -1, BLOCK, -BLOCK;
    }

    method Poke(b: nat, i: nat, v: int)
      requires Valid() && b < |buffers| && i < BLOCK
      modifies buffers[b]
      ensures Valid() && Mem() == old(Mem())[b * BLOCK + i := v]
    {
      buffers[b][i] := v;
      forall a | 0 <= a < |Mem()| ensures Mem()[a] == old(Mem())[b * BLOCK + i := v][a] {
        if a / BLOCK == b {
          assert a == b * BLOCK + a % BLOCK;
        } else {
          assert a != b * BLOCK + i;
        }
      }
    }

    /** A recycled block if there is one, else a new one; both are zeroed. */
    method GetByteBlock() returns (block: array<int>)
      requires Valid()
      modifies this`recycled
      ensures block.Length == BLOCK && Clean(block) && recycled <= old(recycled) && Valid() && Mem() == old(Mem())
      ensures forall i :: 0 <= i < |buffers| ==> buffers[i] != block
      ensures forall i :: 0 <= i < |recycled| ==> recycled[i] != block
      ensures fresh(block) || block in old(recycled)
    {
      if |recycled| == 0 {
        block := new int[BLOCK](_ => 0);
      } else {
        block := recycled[|recycled| - 1];
        recycled := recycled[..|recycled| - 1];
      }
    }

    method AddBuffer()
      requires Valid()
      modifies this
      ensures Valid() && Abs() == NextBuffer(old(Abs()))
      ensures old(buffers) <= buffers && recycled <= old(recycled)
      ensures forall i :: |old(buffers)| <= i < |buffers| ==> fresh(buffers[i]) || buffers[i] in old(recycled)
    {
      var block := GetByteBlock();
      buffers := buffers + [block];
      bufferUpto := bufferUpto + 1;
      byteUpto := 0;
      byteOffset := byteOffset + BLOCK;
      forall a | 0 <= a < |Mem()| ensures Mem()[a] == NextBuffer(old(Abs())).mem[a] {
        if a < |old(buffers)| * BLOCK {
          assert a / BLOCK < |old(buffers)|;
        } else {
          assert a / BLOCK == |old(buffers)|;
        }
      }
    }

    /** What allocation may touch afterwards: what was there, or what is new. */
    twostate predicate Grown()
      reads this, buffers
    {
      && old(buffers) <= buffers && recycled <= old(recycled)
      && forall i :: |old(buffers)| <= i < |buffers| ==> fresh(buffers[i]) || buffers[i] in old(recycled)
    }

    method NewSliceAt() returns (upto: nat)
      requires Valid()
      modifies this, buffers, recycled
      ensures Valid() && Grown()
      ensures (Abs(), upto + byteOffset) == NewSlice(old(Abs()))
    {
      MakeRoom(FIRST_LEVEL_SIZE);
      ghost var q := Abs();
      upto := byteUpto;
      byteUpto := byteUpto + FIRST_LEVEL_SIZE;
      Poke(bufferUpto, byteUpto - 1, 16);
      assert Mem() == q.mem[q.top + FIRST_LEVEL_SIZE - 1 := 16];
    }

    /** `slice` is block number `b`; its end marker at `upto` has been reached. */
    method AllocSliceAt(slice: array<int>, upto: nat, ghost b: nat) returns (newUpto: nat)
      requires Valid() && b < |buffers| && slice == buffers[b] && 3 <= upto < BLOCK
      requires AtMarker(Abs(), b * BLOCK + upto) && |Abs().mem| <= 0x8000_0000 - BLOCK
      modifies this, buffers, recycled
      ensures Valid() && Grown()
      ensures (Abs(), newUpto + byteOffset) == AllocSlice(old(Abs()), b * BLOCK + upto)
      ensures newUpto + 1 < BLOCK && buffers != []
    {
      hide Forward, Room, Mem;
      ReadAt(slice, upto, b);
      AllocSpec(Abs(), b * BLOCK + upto);
      var newLevel := NEXT_LEVEL[slice[upto] % 16];
      newUpto := ForwardTo(slice, upto, newLevel, LEVEL_SIZE[newLevel], b);
    }

    method ForwardTo(slice: array<int>, upto: nat, newLevel: nat, newSize: nat, ghost b: nat) returns (newUpto: nat)
      requires Valid() && b < |buffers| && slice == buffers[b] && 3 <= upto < BLOCK && 14 <= newSize <= BLOCK
      requires b * BLOCK + upto < Room(Abs(), newSize).top
      requires Room(Abs(), newSize).top + newSize <= |Room(Abs(), newSize).mem|
      modifies this, buffers, recycled
      ensures Valid() && Grown()
      ensures var q := Room(old(Abs()), newSize);
        && Abs() == Pool(Forward(q.mem, b * BLOCK + upto, q.top, newSize, 16 + newLevel), q.top + newSize)
        && newUpto + byteOffset == q.top + 3
      ensures newUpto + 1 < BLOCK && buffers != []
    {
      hide Forward;
      MakeRoom(newSize);
      ghost var q := Abs();
      var start := byteUpto;
      byteUpto := byteUpto + newSize;
      ForwardInto(slice, upto, start, newSize, 16 + newLevel, b, q.mem);
      newUpto := start + 3;
    }

    method MakeRoom(size: nat)
      requires Valid() && 0 < size <= BLOCK
      modifies this
      ensures Valid() && Grown() && Abs() == Room(old(Abs()), size) && byteUpto + size <= BLOCK && buffers != []
    {
      if byteUpto > BLOCK - size {
        AddBuffer();
      }
    }

    method ForwardInto(slice: array<int>, upto: nat, start: nat, size: nat, marker: int, ghost b: nat,
                       ghost mem: seq<int>)
      requires Valid() && b < |buffers| && slice == buffers[b] && 3 <= upto < BLOCK && mem == Mem()
      requires 14 <= size && start + size <= BLOCK && b * BLOCK + upto < bufferUpto * BLOCK + start
      modifies buffers
      ensures Valid()
      ensures Mem() == Forward(mem, b * BLOCK + upto, bufferUpto * BLOCK + start, size, marker)
    {
      hide Put4, Mem;
      CopyForward(slice, upto, start, b, mem);
      Link(slice, upto, start + byteOffset, b, Mem());
      Poke(bufferUpto, start + size - 1, marker);
    }

    /** The three data bytes about to be overwritten move to the head of the new slice. */
    method CopyForward(slice: array<int>, upto: nat, start: nat, ghost b: nat, ghost mem: seq<int>)
      requires Valid() && b < |buffers| && slice == buffers[b] && 3 <= upto < BLOCK && mem == Mem()
      requires start + 3 <= BLOCK && b * BLOCK + upto < bufferUpto * BLOCK + start
      modifies buffers
      ensures Valid()
      ensures var at, n := b * BLOCK + upto, bufferUpto * BLOCK + start;
        Mem() == mem[n := mem[at - 3]][n + 1 := mem[at - 2]][n + 2 := mem[at - 1]]
    {
      MemSize();
      hide Mem;
      MoveByte(slice, upto - 3, start, b);
      MoveTwo(slice, upto - 2, start + 1, b);
    }

    method MoveTwo(slice: array<int>, from: nat, to: nat, ghost b: nat)
      requires Valid() && b < |buffers| && slice == buffers[b] && from + 1 < BLOCK && to + 1 < BLOCK
      requires b * BLOCK + from + 1 < bufferUpto * BLOCK + to
      modifies buffers
      ensures Valid() && 0 <= b * BLOCK + from && bufferUpto * BLOCK + to + 1 < |old(Mem())|
      ensures var at, n := b * BLOCK + from, bufferUpto * BLOCK + to;
        Mem() == old(Mem())[n := old(Mem())[at]][n + 1 := old(Mem())[at + 1]]
    {
      hide Mem;
      MoveByte(slice, from, to, b);
      MoveByte(slice, from + 1, to + 1, b);
    }

    method MoveByte(slice: array<int>, from: nat, to: nat, ghost b: nat)
      requires Valid() && b < |buffers| && slice == buffers[b] && from < BLOCK && to < BLOCK
      modifies buffers
      ensures Valid() && 0 <= b * BLOCK + from < |old(Mem())| && 0 <= bufferUpto * BLOCK + to < |old(Mem())|
      ensures Mem() == old(Mem())[bufferUpto * BLOCK + to := old(Mem())[b * BLOCK + from]]
    {
      MemSize();
      hide Mem;
      ReadAt(slice, from, b);
      Poke(bufferUpto, to, slice[from]);
    }

    lemma MemSize()
      requires Blocks()
      ensures |Mem()| == |buffers| * BLOCK
    {
    }

    lemma ReadAt(slice: array<int>, i: nat, b: nat)
      requires Valid() && b < |buffers| && slice == buffers[b] && i < BLOCK
      ensures Mem()[b * BLOCK + i] == slice[i]
    {
    }

    /** The forwarding address over the last four bytes of the slice. */
    method Link(slice: array<int>, upto: nat, offset: nat, ghost b: nat, ghost mem: seq<int>)
      requires Valid() && b < |buffers| && slice == buffers[b] && 3 <= upto < BLOCK && mem == Mem()
      modifies buffers
      ensures Valid() && Mem() == Put4(mem, b * BLOCK + upto - 3, offset)
    {
      SetByte(slice, upto - 3, offset / 0x1000000 % 256, b);
      SetByte(slice, upto - 2, offset / 0x10000 % 256, b);
      SetByte(slice, upto - 1, offset / 0x100 % 256, b);
      SetByte(slice, upto, offset % 256, b);
    }

    method SetByte(slice: array<int>, i: nat, v: int, ghost b: nat)
      requires Valid() && b < |buffers| && slice == buffers[b] && i < BLOCK
      modifies slice
      ensures Valid() && Mem() == old(Mem())[b * BLOCK + i := v]
    {
      slice[i] := v;
      forall a | 0 <= a < |Mem()| ensures Mem()[a] == old(Mem())[b * BLOCK + i := v][a] {
        if a / BLOCK == b {
          assert a == b * BLOCK + a % BLOCK;
        } else {
          assert a != b * BLOCK + i;
        }
      }
    }

    method Wipe(a: array<int>, n: nat)
      requires n <= a.Length
      modifies a
      ensures forall i :: 0 <= i < a.Length ==> a[i] == if i < n then 0 else old(a[i])
    {
      for i := 0 to n
        invariant forall j :: 0 <= j < a.Length ==> a[j] == if j < i then 0 else old(a[j])
      {
        a[i] := 0;
      }
    }

    /** Zeroes what was used. */
    method WipeUsed()
      requires Valid() && bufferUpto != -1 && forall a :: Abs().top <= a < |Mem()| ==> Mem()[a] == 0
      modifies buffers
      ensures Valid() && forall j :: 0 <= j < |buffers| ==> Clean(buffers[j])
    {
      ghost var last := buffers[bufferUpto];
      forall j | byteUpto <= j < BLOCK ensures last[j] == 0 {
        assert Mem()[bufferUpto * BLOCK + j] == 0;
      }
      hide Mem;
      for i := 0 to bufferUpto
        invariant Valid() && forall j :: 0 <= j < i ==> Clean(buffers[j])
        invariant forall j :: byteUpto <= j < BLOCK ==> last[j] == 0
      {
        Wipe(buffers[i], BLOCK);
      }
      Wipe(buffers[bufferUpto], byteUpto);
    }

    /** Zeroes what was used, recycles all blocks but the first, and starts over on that one. */
    method Reset()
      requires Valid() && forall a :: Abs().top <= a < |Mem()| ==> Mem()[a] == 0
      modifies this, buffers
      ensures Valid() && Abs() == if old(buffers) == [] then EMPTY else Pool(Zeroes(BLOCK), 0)
      ensures recycled == old(recycled) + if old(buffers) == [] then [] else old(buffers[1..])
    {
      if bufferUpto != -1 {
        WipeUsed();
        recycled := recycled + buffers[1..];
        buffers := buffers[..1];
        bufferUpto, byteUpto, byteOffset := 0, 0, 0;
      }
    }
  }

  class ByteSliceWriter {
    const pool: ByteBlockPool
    var slice: array<int>
    var upto: nat
    var offset0: int

    /** The writer's address: getAddress(). */
    ghost function Address(): int
      reads this
    {
      upto + offset0 / BLOCK * BLOCK
    }

    ghost predicate Valid()
      reads this, pool, pool.buffers, pool.recycled
    {
      && pool.Valid() && 0 <= offset0 / BLOCK < |pool.buffers| && slice == pool.buffers[offset0 / BLOCK]
      && upto < BLOCK
    }

    /** The writer stands where stream `k` of the world is written. */
    ghost predicate Writes(w: World, k: nat)
      reads this, pool, pool.buffers, pool.recycled
    {
      Valid() && Inv(w) && k < |w.streams| && pool.Abs() == w.pool && Address() == w.streams[k].wp
    }

    constructor (pool: ByteBlockPool, address: nat)
      requires pool.Valid() && address < |pool.Mem()|
      ensures Valid() && this.pool == pool && Address() == address
    {
      this.pool := pool;
      slice := pool.buffers[address / BLOCK];
      upto := address % BLOCK;
      offset0 := address;
    }

    method GetAddress() returns (address: int)
      requires Valid()
      ensures address == Address()
    {
      address := upto + offset0 / BLOCK * BLOCK;
    }

    /** The writer's fields follow it into the pool's last block. */
    method MoveTo(newUpto: nat)
      requires pool.Valid() && pool.buffers != [] && newUpto < BLOCK
      modifies this
      ensures Valid() && pool.Abs() == old(pool.Abs()) && upto == newUpto && Address() == newUpto + pool.byteOffset
    {
      assert forall i :: 0 <= i < |pool.buffers| ==> pool.buffers[i] as object != this;
      assert forall i :: 0 <= i < |pool.recycled| ==> pool.recycled[i] as object != this;
      upto := newUpto;
      slice := pool.buffers[pool.bufferUpto];
      offset0 := pool.byteOffset;
      BlockNumber(pool.bufferUpto);
    }

    /** Moves to a new slice: the writer has met an end marker. */
    method Advance()
      requires Valid() && 3 <= upto && AtMarker(pool.Abs(), Address()) && |pool.Abs().mem| <= 0x8000_0000 - BLOCK
      modifies this, pool, pool.buffers, pool.recycled
      ensures Valid() && pool.Grown() && upto + 1 < BLOCK
      ensures (pool.Abs(), Address()) == AllocSlice(old(pool.Abs()), old(Address()))
    {
      hide AllocSlice, AtMarker;
      var newUpto := pool.AllocSliceAt(slice, upto, offset0 / BLOCK);
      MoveTo(newUpto);
    }

    method Store(b: byte)
      requires Valid() && upto + 1 < BLOCK
      modifies this, slice
      ensures Valid() && pool.Abs() == old(pool.Abs()).(mem := old(pool.Mem())[old(Address()) := b])
      ensures Address() == old(Address()) + 1
    {
      pool.SetByte(slice, upto, b, offset0 / BLOCK);
      assert forall i :: 0 <= i < |pool.buffers| ==> pool.buffers[i] as object != this;
      assert forall i :: 0 <= i < |pool.recycled| ==> pool.recycled[i] as object != this;
      upto := upto + 1;
    }

    /** writeByte: stores at the writer's address, allocating first when that is an end marker. */
    method WriteByte(b: byte)
      requires Valid() && Sized(pool.Abs()) && Address() < pool.Abs().top && |pool.Abs().mem| <= 0x8000_0000 - BLOCK
      requires pool.Abs().mem[Address()] == 0 ==> upto + 1 < BLOCK
      requires pool.Abs().mem[Address()] != 0 ==> 3 <= upto && AtMarker(pool.Abs(), Address())
      modifies this, pool, pool.buffers, pool.recycled
      ensures Valid() && pool.Grown()
      ensures (pool.Abs(), Address()) == ByteSlices.WriteByte(old(pool.Abs()), old(Address()), b)
    {
      hide AllocSlice, AtMarker;
      pool.ReadAt(slice, upto, offset0 / BLOCK);
      if slice[upto] != 0 {
        Advance();
      }
      Store(b);
    }

    /** Writing through the object is appending to the stream. */
    method Append(b: byte, ghost w: World, ghost k: nat)
      requires Writes(w, k) && Space(w)
      modifies this, pool, pool.buffers, pool.recycled
      ensures Writable(w, k) && Writes(ByteSlices.Append(w, k, b), k) && pool.Grown()
    {
      hide Inv, ByteSlices.WriteByte, ByteSlices.Append, AtMarker;
      WriterReady(w, k, b);
      WriteByte(b);
    }

    /** writeBytes. */
    method WriteBytes(b: seq<byte>, offset: nat, length: nat, ghost w: World, ghost k: nat)
      requires Writes(w, k) && offset + length <= |b| && SpaceForAll(w, k, b[offset..offset + length])
      modifies this, pool, pool.buffers, pool.recycled
      ensures Writes(AppendAll(w, k, b[offset..offset + length]), k) && pool.Grown()
    {
      hide Inv, ByteSlices.WriteByte, ByteSlices.Append, AtMarker, Valid;
      ghost var bytes := b[offset..offset + length];
      for i := 0 to length
        invariant Writes(AppendAll(w, k, bytes[..i]), k) && pool.Grown()
      {
        AppendAllNext(w, k, bytes, i);
        ghost var now := AppendAll(w, k, bytes[..i]);
        Append(b[offset + i], now, k);
      }
      assert bytes[..length] == bytes;
    }

    /** writeVInt, of the bits of the int. */
    method WriteVInt(i: nat, ghost w: World, ghost k: nat)
      requires Writes(w, k) && i < 0x1_0000_0000 && SpaceForAll(w, k, VInt(i))
      modifies this, pool, pool.buffers, pool.recycled
      ensures Writes(AppendAll(w, k, VInt(i)), k) && pool.Grown()
    {
      hide Inv, ByteSlices.WriteByte, ByteSlices.Append, AtMarker, Valid, AppendAll;
      assert VInt(i)[0..] == VInt(i) && AppendAll(w, k, VInt(i)[..0]) == w by { NothingAppended(w, k, VInt(i)); }
      var rest := i;
      ghost var n := 0;
      while rest >= 0x80
        invariant n < |VInt(i)| && VInt(i)[n..] == VInt(rest) && Writes(AppendAll(w, k, VInt(i)[..n]), k)
                  && pool.Grown()
        decreases rest
      {
        VIntNext(i, n, rest);
        AppendAllNext(w, k, VInt(i), n);
        ghost var now := AppendAll(w, k, VInt(i)[..n]);
        Append(rest % 0x80 + 0x80, now, k);
        rest := rest / 0x80;
        n := n + 1;
      }
      VIntNext(i, n, rest);
      AppendAllNext(w, k, VInt(i), n);
      ghost var last := AppendAll(w, k, VInt(i)[..n]);
      Append(rest, last, k);
      assert VInt(i)[..n + 1] == VInt(i);
    }
  }

  lemma WriterReady(w: World, k: nat, b: byte)
    requires Inv(w) && k < |w.streams| && Space(w)
    ensures Writable(w, k) && Inv(ByteSlices.Append(w, k, b))
    ensures var wp := w.streams[k].wp;
      && (w.pool.mem[wp] == 0 ==> wp % BLOCK + 1 < BLOCK)
      && (w.pool.mem[wp] != 0 ==> wp % BLOCK >= 3 && AtMarker(w.pool, wp))
    ensures (ByteSlices.Append(w, k, b).pool, ByteSlices.Append(w, k, b).streams[k].wp)
              == ByteSlices.WriteByte(w.pool, w.streams[k].wp, b)
    ensures |ByteSlices.Append(w, k, b).streams| == |w.streams|
  {
    StreamsWritable(w, k);
    RunnableStep(w, k, b);
    WriterRoom(w.pool, w.owner, k, w.streams[k]);
  }

  lemma BlockNumber(b: int)
    ensures b * BLOCK / BLOCK == b
  {
  }

  lemma RunnableStep(w: World, k: nat, b: byte)
    requires Inv(w) && Writable(w, k) && Space(w)
    ensures Inv(ByteSlices.Append(w, k, b))
  {
    StepKeeps(w, EAppend(k, b));
  }

  /** A writer never stands at the last position of a block without an end marker there, and has
      three bytes of its slice behind it when it meets one. */
  lemma WriterRoom(p: Pool, owner: seq<int>, k: int, s: Stream)
    requires StreamOk(p, owner, k, s)
    ensures p.mem[s.wp] == 0 ==> s.wp % BLOCK + 1 < BLOCK
    ensures p.mem[s.wp] != 0 ==> s.wp % BLOCK >= 3
  {
    hide Payloads, Linked, Owns, Get4;
    WriterSpot(p, owner, k, s);
    var x := s.slices[|s.slices| - 1];
    assert x.Ok();
    InOneBlock(x.addr, x.End(), s.wp);
  }

  lemma InOneBlock(addr: nat, end: nat, wp: nat)
    requires addr / BLOCK == (end - 1) / BLOCK && addr + 5 <= end && addr <= wp < end
    ensures wp < end - 1 ==> wp % BLOCK + 1 < BLOCK
    ensures wp == end - 1 ==> wp % BLOCK >= 3
  {
  }
}
