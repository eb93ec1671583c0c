/**
 Byte streams interleaved in one pool of zeroed blocks.  A stream is a chain of slices of
 growing size; the last byte of a slice is a non-zero end marker holding its level, and when
 the writer meets it the last four bytes of the slice become the address of the next one.
 Addresses are flat: block number times the block size plus the position in the block.
 */
module ByteSlices {

  type byte = x: int | 0 <= x < 256

  const BLOCK := 0x8000

  const NEXT_LEVEL: seq<nat> := [1, 2, 3, 4, 5, 6, 7, 8, 9, 9]
  const LEVEL_SIZE: seq<nat> := [5, 14, 20, 30, 40, 40, 80, 80, 120, 200]
  const FIRST_LEVEL_SIZE := LEVEL_SIZE[0]

  /** `top` is byteOffset + byteUpto: the next address to hand out. */
  datatype Pool = Pool(mem: seq<int>, top: nat)

  const EMPTY := Pool([], 0)

  // ---------- allocation ----------

  function Zeroes(n: nat): seq<int> { seq(n, _ => 0) }

  function NextBuffer(p: Pool): Pool { Pool(p.mem + Zeroes(BLOCK), |p.mem|) }

  function Room(p: Pool, size: nat): Pool {
    if p.top > |p.mem| - size then NextBuffer(p) else p
  }

  predicate Sized(p: Pool) { |p.mem| - BLOCK <= p.top <= |p.mem| && |p.mem| % BLOCK == 0 }

  function NewSlice(p: Pool): (r: (Pool, nat))
    requires Sized(p)
  {
    var q := Room(p, FIRST_LEVEL_SIZE);
    (Pool(q.mem[q.top + FIRST_LEVEL_SIZE - 1 := 16], q.top + FIRST_LEVEL_SIZE), q.top)
  }

  /** The four bytes of an address, most significant first. */
  function Put4(mem: seq<int>, at: nat, x: nat): (r: seq<int>)
    requires at + 4 <= |mem|
    ensures |r| == |mem|
  {
    mem[at := x / 0x1000000 % 256][at + 1 := x / 0x10000 % 256][at + 2 := x / 0x100 % 256][at + 3 := x % 256]
  }

  function Get4(mem: seq<int>, at: nat): int
    requires at + 4 <= |mem|
  {
    mem[at] * 0x1000000 + mem[at + 1] * 0x10000 + mem[at + 2] * 0x100 + mem[at + 3]
  }

  /** `at` is the address of the end marker the writer ran into. */
  predicate AtMarker(p: Pool, at: nat) {
    Sized(p) && 3 <= at < p.top && p.mem[at] % 16 < |NEXT_LEVEL|
  }

  function AllocSlice(p: Pool, at: nat): (r: (Pool, nat))
    requires AtMarker(p, at)
  {
    var newLevel := NEXT_LEVEL[p.mem[at] % 16];
    var newSize := LEVEL_SIZE[newLevel];
    var q := Room(p, newSize);
    var n := q.top;
    var copied := q.mem[n := q.mem[at - 3]][n + 1 := q.mem[at - 2]][n + 2 := q.mem[at - 1]];
    var linked := Put4(copied, at - 3, n);
    (Pool(linked[n + newSize - 1 := 16 + newLevel], n + newSize), n + 3)
  }

  /** ByteSliceWriter::writeByte with the writer at address `wp`. */
  function WriteByte(p: Pool, wp: nat, b: byte): (r: (Pool, nat))
    requires Sized(p) && wp < p.top
    requires p.mem[wp] != 0 ==> AtMarker(p, wp)
  {
    if p.mem[wp] != 0 then
      var (q, at) := AllocSlice(p, wp);
      (q.(mem := q.mem[at := b]), at + 1)
    else (p.(mem := p.mem[wp := b]), wp + 1)
  }

  // ---------- streams ----------

  datatype Slice = Slice(addr: nat, level: nat) {
    predicate Ok() { level < |LEVEL_SIZE| }

    function Size(): (n: nat)
      requires Ok()
      ensures 5 <= n <= 200 && (level > 0 ==> 14 <= n)
    {
      LEVEL_SIZE[level]
    }

    function End(): (e: nat)
      requires Ok()
      ensures addr + 5 <= e <= addr + 200
    {
      addr + Size()
    }
  }

  /** A stream: its slices, where its writer stands, and everything written to it. */
  datatype Stream = Stream(slices: seq<Slice>, wp: nat, data: seq<int>)

  /** The streams, and for every address the stream it belongs to (-1 for none). */
  datatype World = World(pool: Pool, owner: seq<int>, streams: seq<Stream>)

  function Last(s: Stream): Slice
    requires s.slices != []
  {
    s.slices[|s.slices| - 1]
  }

  predicate Chained(slices: seq<Slice>, top: nat) {
    && slices != [] && slices[0].level == 0
    && (forall i :: 0 <= i < |slices| ==>
          slices[i].Ok() && slices[i].End() <= top && slices[i].addr / BLOCK == (slices[i].End() - 1) / BLOCK)
    && (forall i :: 0 < i < |slices| ==> slices[i].level == NEXT_LEVEL[slices[i - 1].level])
    && (forall i, j :: 0 <= i < j < |slices| ==> slices[i].End() <= slices[j].addr)
  }

  predicate Owns(owner: seq<int>, slices: seq<Slice>, k: int) {
    forall i, a :: 0 <= i < |slices| && slices[i].Ok() && slices[i].addr <= a < slices[i].End() && a < |owner| ==>
        owner[a] == k
  }

  /** What the full slices hold once their last four bytes are an address. */
  function Payloads(mem: seq<int>, slices: seq<Slice>): seq<int>
    requires forall i :: 0 <= i < |slices| ==> slices[i].Ok() && slices[i].End() <= |mem|
  {
    if slices == [] then []
    else
      var n := |slices| - 1;
      assert slices[n].Ok() && slices[n].End() <= |mem| && slices[n].addr <= slices[n].End() - 4;
      Payloads(mem, slices[..n]) + mem[slices[n].addr..slices[n].End() - 4]
  }

  predicate Linked(mem: seq<int>, slices: seq<Slice>)
    requires forall i :: 0 <= i < |slices| ==> slices[i].Ok() && slices[i].End() <= |mem|
  {
    forall i :: 0 < i < |slices| ==> Get4(mem, slices[i - 1].End() - 4) == slices[i].addr
  }

  /** The last slice: written up to the writer, zero from there to its end marker. */
  predicate Tail(mem: seq<int>, s: Stream)
    requires s.slices != [] && Last(s).Ok() && Last(s).End() <= |mem|
  {
    && Last(s).addr <= s.wp < Last(s).End()
    && (|s.slices| > 1 ==> Last(s).addr + 4 <= s.wp)
    && mem[Last(s).End() - 1] == 16 + Last(s).level
    && forall a :: s.wp <= a < Last(s).End() - 1 ==> mem[a] == 0
  }

  predicate StreamOk(p: Pool, owner: seq<int>, k: int, s: Stream) {
    && p.top <= |p.mem| == |owner|
    && Chained(s.slices, p.top) && Owns(owner, s.slices, k)
    && Linked(p.mem, s.slices) && Tail(p.mem, s)
    && s.data == Payloads(p.mem, s.slices[..|s.slices| - 1]) + p.mem[Last(s).addr..s.wp]
  }

  predicate Inv(w: World) {
    && Sized(w.pool) && |w.owner| == |w.pool.mem|
    && (forall a :: w.pool.top <= a < |w.pool.mem| ==> w.pool.mem[a] == 0 && w.owner[a] == -1)
    && forall k :: 0 <= k < |w.streams| ==> StreamOk(w.pool, w.owner, k, w.streams[k])
  }

  // ---------- steps ----------

  function Own(owner: seq<int>, n: nat, lo: nat, hi: nat, k: int): seq<int>
    requires |owner| <= n
  {
    seq(n, a requires 0 <= a < n => if lo <= a < hi then k else if a < |owner| then owner[a] else -1)
  }

  function OpenStream(w: World): World
    requires Sized(w.pool) && |w.owner| == |w.pool.mem|
  {
    var (p, addr) := NewSlice(w.pool);
    World(p, Own(w.owner, |p.mem|, addr, p.top, |w.streams|), w.streams + [Stream([Slice(addr, 0)], addr, [])])
  }

  /** The rest of the current block stays unused. */
  function SkipBlock(w: World): World
    requires |w.owner| == |w.pool.mem|
  {
    var p := NextBuffer(w.pool);
    World(p, Own(w.owner, |p.mem|, 0, 0, -1), w.streams)
  }

  /** The writer of stream `k` stands on a free byte or on an end marker. */
  predicate Writable(w: World, k: nat) {
    && Sized(w.pool) && |w.owner| == |w.pool.mem| && k < |w.streams| && w.streams[k].wp < w.pool.top
    && (w.pool.mem[w.streams[k].wp] != 0 ==> AtMarker(w.pool, w.streams[k].wp))
  }

  function Append(w: World, k: nat, b: byte): World
    requires Writable(w, k)
  {
    var s := w.streams[k];
    if w.pool.mem[s.wp] != 0 then
      var level := NEXT_LEVEL[w.pool.mem[s.wp] % 16];
      var (p, wp) := WriteByte(w.pool, s.wp, b);
      World(p, Own(w.owner, |p.mem|, wp - 4, p.top, k),
            w.streams[k := Stream(s.slices + [Slice(wp - 4, level)], wp, s.data + [b])])
    else
      var (p, wp) := WriteByte(w.pool, s.wp, b);
      World(p, w.owner, w.streams[k := Stream(s.slices, wp, s.data + [b])])
  }

  // ---------- what a step leaves alone ----------

  /** `mem'` extends `mem` and agrees with it inside the slices. */
  ghost predicate Agree(mem: seq<int>, mem': seq<int>, slices: seq<Slice>) {
    && |mem| <= |mem'|
    && forall i, a :: 0 <= i < |slices| && slices[i].Ok() && slices[i].addr <= a < slices[i].End() && a < |mem| ==>
         mem'[a] == mem[a]
  }

  ghost predicate Fit(mem: seq<int>, slices: seq<Slice>) {
    forall i :: 0 <= i < |slices| ==> slices[i].Ok() && slices[i].End() <= |mem|
  }

  lemma {:induction false} PayloadsSame(mem: seq<int>, mem': seq<int>, slices: seq<Slice>)
    requires Agree(mem, mem', slices) && Fit(mem, slices)
    ensures Payloads(mem', slices) == Payloads(mem, slices)
  {
    if slices != [] {
      var n := |slices| - 1;
      assert forall i :: 0 <= i < n ==> slices[..n][i] == slices[i];
      PayloadsSame(mem, mem', slices[..n]);
      assert mem'[slices[n].addr..slices[n].End() - 4] == mem[slices[n].addr..slices[n].End() - 4];
    }
  }

  lemma LinksSame(mem: seq<int>, mem': seq<int>, slices: seq<Slice>)
    requires slices != [] && Agree(mem, mem', slices[..|slices| - 1]) && Fit(mem, slices) && Linked(mem, slices)
    ensures Linked(mem', slices)
  {
    forall i | 0 < i < |slices| ensures Get4(mem', slices[i - 1].End() - 4) == slices[i].addr {
      var x := slices[i - 1];
      assert slices[..|slices| - 1][i - 1] == x;
      assert forall a :: x.addr <= a < x.End() ==> mem'[a] == mem[a];
    }
  }

  lemma TailSame(mem: seq<int>, mem': seq<int>, s: Stream)
    requires Agree(mem, mem', s.slices) && s.slices != [] && Fit(mem, s.slices) && Tail(mem, s)
    ensures Tail(mem', s) && mem'[Last(s).addr..s.wp] == mem[Last(s).addr..s.wp]
  {
    var last := Last(s);
    assert forall a :: last.addr <= a < last.End() ==> mem'[a] == mem[a];
  }

  lemma AgreePrefix(mem: seq<int>, mem': seq<int>, slices: seq<Slice>, n: nat)
    requires Agree(mem, mem', slices) && n <= |slices|
    ensures Agree(mem, mem', slices[..n])
  {
    assert forall i :: 0 <= i < n ==> slices[..n][i] == slices[i];
  }

  /** `k`'s addresses keep their owner and their contents. */
  ghost predicate Same(mem: seq<int>, owner: seq<int>, mem': seq<int>, owner': seq<int>, k: int) {
    && |mem| == |owner| <= |mem'| == |owner'|
    && forall a :: 0 <= a < |mem| && owner[a] == k ==> mem'[a] == mem[a] && owner'[a] == k
  }

  lemma SameAgree(mem: seq<int>, owner: seq<int>, mem': seq<int>, owner': seq<int>, k: int, slices: seq<Slice>)
    requires Same(mem, owner, mem', owner', k) && Owns(owner, slices, k) && Fit(mem, slices)
    ensures Agree(mem, mem', slices) && Owns(owner', slices, k)
  {
  }

  lemma FitPrefix(mem: seq<int>, slices: seq<Slice>, n: nat)
    requires Fit(mem, slices) && n <= |slices|
    ensures Fit(mem, slices[..n])
  {
    assert forall i :: 0 <= i < n ==> slices[..n][i] == slices[i];
  }

  /** A step of another stream leaves this one as it was. */
  lemma OthersKeep(p: Pool, owner: seq<int>, p': Pool, owner': seq<int>, k: int, s: Stream)
    requires StreamOk(p, owner, k, s) && Same(p.mem, owner, p'.mem, owner', k) && p.top <= p'.top <= |p'.mem|
    ensures StreamOk(p', owner', k, s)
  {
    hide Payloads, Get4, Owns;
    var n := |s.slices| - 1;
    assert Fit(p.mem, s.slices);
    SameAgree(p.mem, owner, p'.mem, owner', k, s.slices);
    AgreePrefix(p.mem, p'.mem, s.slices, n);
    FitPrefix(p.mem, s.slices, n);
    PayloadsSame(p.mem, p'.mem, s.slices[..n]);
    LinksSame(p.mem, p'.mem, s.slices);
    TailSame(p.mem, p'.mem, s);
  }

  // ---------- opening and appending ----------

  lemma RoomSpec(p: Pool, size: nat)
    requires Sized(p) && size <= BLOCK
    ensures var q := Room(p, size);
      && Sized(q) && p.top <= q.top && q.top + size <= |q.mem| && |p.mem| <= |q.mem|
      && (forall a :: 0 <= a < |p.mem| ==> q.mem[a] == p.mem[a])
      && (forall a :: |p.mem| <= a < |q.mem| ==> q.mem[a] == 0)
      && (size > 0 ==> q.top / BLOCK == (q.top + size - 1) / BLOCK)
  {
  }

  lemma OpenKeeps(w: World)
    requires Inv(w)
    ensures Inv(OpenStream(w))
  {
    var w' := OpenStream(w);
    RoomSpec(w.pool, FIRST_LEVEL_SIZE);
    var n := |w.streams|;
    forall k | 0 <= k < n ensures StreamOk(w'.pool, w'.owner, k, w'.streams[k]) {
      OthersKeep(w.pool, w.owner, w'.pool, w'.owner, k, w.streams[k]);
    }
    var s := w'.streams[n];
    assert s.slices[..0] == [] && w'.pool.mem[s.wp..s.wp] == [];
    assert s.slices[0].Size() == 5;
  }

  lemma SkipKeeps(w: World)
    requires Inv(w)
    ensures Inv(SkipBlock(w))
  {
    var w' := SkipBlock(w);
    forall k | 0 <= k < |w.streams| ensures StreamOk(w'.pool, w'.owner, k, w'.streams[k]) {
      OthersKeep(w.pool, w.owner, w'.pool, w'.owner, k, w.streams[k]);
    }
  }

  lemma Put4Get4(mem: seq<int>, at: nat, x: nat)
    requires at + 4 <= |mem| && x < 0x1_0000_0000
    ensures Get4(Put4(mem, at, x), at) == x
    ensures forall a :: 0 <= a < |mem| && !(at <= a < at + 4) ==> Put4(mem, at, x)[a] == mem[a]
  {
  }

  /** The link over the last four bytes of a slice, the three bytes carried over, the new marker. */
  function Forward(mem: seq<int>, at: nat, n: nat, size: nat, marker: int): seq<int>
    requires 3 <= at < n && 14 <= size && n + size <= |mem|
  {
    Put4(mem[n := mem[at - 3]][n + 1 := mem[at - 2]][n + 2 := mem[at - 1]], at - 3, n)[n + size - 1 := marker]
  }

  lemma ForwardSpec(mem: seq<int>, at: nat, n: nat, size: nat, marker: int)
    requires 3 <= at < n < 0x1_0000_0000 && 14 <= size && n + size <= |mem|
    ensures var r := Forward(mem, at, n, size, marker);
      && |r| == |mem| && Get4(r, at - 3) == n && r[n + size - 1] == marker
      && r[n] == mem[at - 3] && r[n + 1] == mem[at - 2] && r[n + 2] == mem[at - 1]
      && (forall a :: 0 <= a < |mem| && !(at - 3 <= a <= at) && !(n <= a < n + 3) && a != n + size - 1 ==>
         r[a] == mem[a])
  {
    Put4Get4(mem[n := mem[at - 3]][n + 1 := mem[at - 2]][n + 2 := mem[at - 1]], at - 3, n);
  }

  /** The pool after a slice was allocated: where it lies and what its memory holds. */
  lemma AllocSpec(p: Pool, at: nat)
    requires AtMarker(p, at) && |p.mem| <= 0x8000_0000 - BLOCK
    ensures var (r, next) := AllocSlice(p, at);
      var newLevel := NEXT_LEVEL[p.mem[at] % 16]; var newSize := LEVEL_SIZE[newLevel];
      var q := Room(p, newSize);
      && 14 <= newSize <= 200 && 1 <= newLevel < 10 && next == q.top + 3
      && q.top + newSize <= |q.mem| && at < q.top < 0x1_0000_0000
      && r == Pool(Forward(q.mem, at, q.top, newSize, 16 + newLevel), q.top + newSize)
  {
    RoomSpec(p, LEVEL_SIZE[NEXT_LEVEL[p.mem[at] % 16]]);
  }

  /** Where the writer stands tells a full slice from one with room. */
  lemma WriterSpot(p: Pool, owner: seq<int>, k: int, s: Stream)
    requires StreamOk(p, owner, k, s)
    ensures s.wp < p.top && owner[s.wp] == k
    ensures p.mem[s.wp] == 0 <==> s.wp < Last(s).End() - 1
    ensures p.mem[s.wp] != 0 ==> p.mem[s.wp] % 16 == Last(s).level && (Sized(p) ==> AtMarker(p, s.wp))
  {
    var last := s.slices[|s.slices| - 1];
    assert last.Ok() && last.End() <= p.top;
  }

  /** Memory that changes only from the last slice on leaves the full slices and the links alone. */
  lemma FrontSame(mem: seq<int>, mem': seq<int>, slices: seq<Slice>, top: nat)
    requires Chained(slices, top) && top <= |mem| <= |mem'| && Linked(mem, slices)
    requires forall a :: 0 <= a < slices[|slices| - 1].addr ==> mem'[a] == mem[a]
    ensures Linked(mem', slices)
    ensures Payloads(mem', slices[..|slices| - 1]) == Payloads(mem, slices[..|slices| - 1])
  {
    var m := |slices| - 1;
    var front := slices[..m];
    forall i, a | 0 <= i < m && front[i].Ok() && front[i].addr <= a < front[i].End() && a < |mem|
      ensures mem'[a] == mem[a]
    {
      assert front[i] == slices[i] && slices[i].End() <= slices[m].addr;
    }
    assert Fit(mem, slices);
    FitPrefix(mem, slices, m);
    PayloadsSame(mem, mem', front);
    LinksSame(mem, mem', slices);
  }

  lemma InPlaceTail(mem: seq<int>, s: Stream, b: byte)
    requires s.slices != [] && Last(s).Ok() && Last(s).End() <= |mem| && Tail(mem, s) && s.wp < Last(s).End() - 1
    ensures var mem' := mem[s.wp := b];
      && Tail(mem', Stream(s.slices, s.wp + 1, s.data + [b]))
      && mem'[Last(s).addr..s.wp + 1] == mem[Last(s).addr..s.wp] + [b]
  {
  }

  lemma InPlaceStream(p: Pool, owner: seq<int>, k: int, s: Stream, b: byte)
    requires StreamOk(p, owner, k, s) && p.mem[s.wp] == 0
    ensures StreamOk(p.(mem := p.mem[s.wp := b]), owner, k, Stream(s.slices, s.wp + 1, s.data + [b]))
  {
    hide Payloads, Linked, Owns, Get4;
    WriterSpot(p, owner, k, s);
    FrontSame(p.mem, p.mem[s.wp := b], s.slices, p.top);
    InPlaceTail(p.mem, s, b);
  }

  lemma InPlaceSame(p: Pool, owner: seq<int>, wp: nat, k: int, b: byte, j: int)
    requires |owner| == |p.mem| && wp < |p.mem| && owner[wp] == k && j != k
    ensures Same(p.mem, owner, p.mem[wp := b], owner, j)
  {
  }

  /** One stream moved on; the others kept their bytes. */
  lemma StreamsKeep(w: World, w': World, k: nat)
    requires Inv(w) && k < |w.streams| == |w'.streams| && w.pool.top <= w'.pool.top <= |w'.pool.mem|
    requires forall j :: 0 <= j < |w.streams| && j != k ==> w'.streams[j] == w.streams[j]
    requires StreamOk(w'.pool, w'.owner, k, w'.streams[k])
    requires forall j :: j != k && j != -1 ==> Same(w.pool.mem, w.owner, w'.pool.mem, w'.owner, j)
    ensures forall j :: 0 <= j < |w'.streams| ==> StreamOk(w'.pool, w'.owner, j, w'.streams[j])
  {
    forall j | 0 <= j < |w'.streams| ensures StreamOk(w'.pool, w'.owner, j, w'.streams[j]) {
      if j != k {
        assert StreamOk(w.pool, w.owner, j, w.streams[j]);
        OthersKeep(w.pool, w.owner, w'.pool, w'.owner, j, w.streams[j]);
      }
    }
  }

  lemma AppendInPlace(w: World, k: nat, b: byte)
    requires Inv(w) && Writable(w, k) && w.pool.mem[w.streams[k].wp] == 0
    ensures Inv(Append(w, k, b))
  {
    var s := w.streams[k];
    assert StreamOk(w.pool, w.owner, k, s);
    WriterSpot(w.pool, w.owner, k, s);
    InPlaceStream(w.pool, w.owner, k, s, b);
    forall j | j != k && j != -1
      ensures Same(w.pool.mem, w.owner, Append(w, k, b).pool.mem, Append(w, k, b).owner, j)
    {
      InPlaceSame(w.pool, w.owner, s.wp, k, b, j);
    }
    StreamsKeep(w, Append(w, k, b), k);
    InPlaceRest(w, k, b);
  }

  lemma InPlaceRest(w: World, k: nat, b: byte)
    requires Inv(w) && Writable(w, k) && w.pool.mem[w.streams[k].wp] == 0
    ensures var w' := Append(w, k, b);
      && Sized(w'.pool) && |w'.owner| == |w'.pool.mem| && w'.pool.top == w.pool.top
      && forall a :: w'.pool.top <= a < |w'.pool.mem| ==> w'.pool.mem[a] == 0 && w'.owner[a] == -1
  {
    WriterSpot(w.pool, w.owner, k, w.streams[k]);
  }

  lemma ForwardWrite(mem: seq<int>, at: nat, n: nat, size: nat, marker: int, b: byte)
    requires 3 <= at < n < 0x1_0000_0000 && 14 <= size && n + size <= |mem|
    ensures |Forward(mem, at, n, size, marker)| == |mem|
    ensures var r := Forward(mem, at, n, size, marker)[n + 3 := b];
      && Get4(r, at - 3) == n && r[n + size - 1] == marker && r[n..n + 4] == mem[at - 3..at] + [b]
      && (forall a :: 0 <= a < |mem| && !(at - 3 <= a <= at) && !(n <= a < n + 4) && a != n + size - 1 ==>
         r[a] == mem[a])
  {
    ForwardSpec(mem, at, n, size, marker);
  }

  /** What allocating and then writing the byte leaves: `n` is where the new slice lies. */
  ghost predicate Extended(p: Pool, at: nat, b: byte, r: Pool, n: nat, level: nat) {
    && AtMarker(p, at) && Sized(r) && level == NEXT_LEVEL[p.mem[at] % 16]
    && Slice(n, level).Ok() && p.top <= n && |p.mem| <= |r.mem| && r.top == Slice(n, level).End() <= |r.mem|
    && n + 14 <= r.top && n / BLOCK == (r.top - 1) / BLOCK
    && Get4(r.mem, at - 3) == n && r.mem[r.top - 1] == 16 + level
    && r.mem[n..n + 4] == p.mem[at - 3..at] + [b]
    && (forall a :: 0 <= a < |r.mem| && !(at - 3 <= a <= at) && !(n <= a < n + 4) && a != r.top - 1 ==>
          r.mem[a] == if a < |p.mem| then p.mem[a] else 0)
  }

  lemma WriteByteForm(p: Pool, at: nat, b: byte)
    requires AtMarker(p, at) && p.mem[at] != 0 && |p.mem| <= 0x8000_0000 - BLOCK
    ensures var level := NEXT_LEVEL[p.mem[at] % 16]; var size := LEVEL_SIZE[level];
      var q := Room(p, size);
      && 14 <= size <= 200 && level < 10 && at < q.top < 0x1_0000_0000 && q.top + size <= |q.mem|
      && WriteByte(p, at, b) ==
           (Pool(Forward(q.mem, at, q.top, size, 16 + level)[q.top + 3 := b], q.top + size), q.top + 4)
  {
    AllocSpec(p, at);
  }

  lemma WriteAllocSpec(p: Pool, at: nat, b: byte)
    requires AtMarker(p, at) && p.mem[at] != 0 && |p.mem| <= 0x8000_0000 - BLOCK
    ensures var (r, wp) := WriteByte(p, at, b);
      wp >= 4 && Extended(p, at, b, r, wp - 4, NEXT_LEVEL[p.mem[at] % 16])
  {
    hide Forward, Get4, WriteByte, Room, Extended;
    var level := NEXT_LEVEL[p.mem[at] % 16];
    var size := LEVEL_SIZE[level];
    WriteByteForm(p, at, b);
    RoomSpec(p, size);
    var q := Room(p, size);
    ForwardWrite(q.mem, at, q.top, size, 16 + level, b);
    var r := Pool(Forward(q.mem, at, q.top, size, 16 + level)[q.top + 3 := b], q.top + size);
    assert q.mem[at - 3..at] == p.mem[at - 3..at];
    ExtendedFrom(p, at, b, q, size, level, r);
  }

  lemma ExtendedFrom(p: Pool, at: nat, b: byte, q: Pool, size: nat, level: nat, r: Pool)
    requires AtMarker(p, at) && Sized(q) && level == NEXT_LEVEL[p.mem[at] % 16] < 10 && size == LEVEL_SIZE[level]
             && 14 <= size
    requires p.top <= q.top && q.top + size <= |q.mem| == |r.mem| && |p.mem| <= |q.mem| && r.top == q.top + size
    requires q.top / BLOCK == (q.top + size - 1) / BLOCK
    requires Get4(r.mem, at - 3) == q.top && r.mem[r.top - 1] == 16 + level
             && r.mem[q.top..q.top + 4] == p.mem[at - 3..at] + [b]
    requires forall a :: 0 <= a < |q.mem| && !(at - 3 <= a <= at) && !(q.top <= a < q.top + 4) && a != r.top - 1 ==>
               r.mem[a] == q.mem[a]
    requires forall a :: 0 <= a < |q.mem| ==> q.mem[a] == if a < |p.mem| then p.mem[a] else 0
    ensures Extended(p, at, b, r, q.top, level)
  {
  }

  lemma PayloadsSnoc(mem: seq<int>, slices: seq<Slice>, x: Slice)
    requires Fit(mem, slices) && x.Ok() && x.End() <= |mem|
    requires Fit(mem, slices + [x])
    ensures Payloads(mem, slices + [x]) == Payloads(mem, slices) + mem[x.addr..x.End() - 4]
  {
    assert (slices + [x])[..|slices|] == slices;
  }

  lemma ChainedSnoc(slices: seq<Slice>, top: nat, x: Slice, top': nat)
    requires Chained(slices, top) && x.Ok() && top <= x.addr && x.End() <= top'
    requires x.addr / BLOCK == (x.End() - 1) / BLOCK && x.level == NEXT_LEVEL[slices[|slices| - 1].level]
    ensures Chained(slices + [x], top')
  {
    var all := slices + [x];
    forall i | 0 <= i < |all|
      ensures all[i].Ok() && all[i].End() <= top' && all[i].addr / BLOCK == (all[i].End() - 1) / BLOCK {
      if i < |slices| { assert all[i] == slices[i]; }
    }
    forall i | 0 < i < |all| ensures all[i].level == NEXT_LEVEL[all[i - 1].level] {
      assert all[i - 1] == slices[i - 1];
      if i < |slices| { assert all[i] == slices[i]; }
    }
    forall i, j | 0 <= i < j < |all| ensures all[i].End() <= all[j].addr {
      assert all[i] == slices[i];
      if j < |slices| { assert all[j] == slices[j]; }
    }
  }

  lemma OwnsSnoc(owner: seq<int>, slices: seq<Slice>, owner': seq<int>, x: Slice, k: int)
    requires Owns(owner, slices, k) && |owner| <= |owner'| && x.Ok()
    requires forall a :: 0 <= a < |owner| && owner[a] == k ==> owner'[a] == k
    requires forall a :: x.addr <= a < x.End() && a < |owner'| ==> owner'[a] == k
    requires forall i :: 0 <= i < |slices| && slices[i].Ok() ==> slices[i].End() <= |owner|
    ensures Owns(owner', slices + [x], k)
  {
    var all := slices + [x];
    assert forall i :: 0 <= i < |slices| ==> all[i] == slices[i];
  }

  lemma ExtendedChain(p: Pool, owner: seq<int>, k: int, s: Stream, b: byte, r: Pool, n: nat, level: nat)
    requires StreamOk(p, owner, k, s) && p.mem[s.wp] != 0 && Extended(p, s.wp, b, r, n, level)
    ensures Chained(s.slices + [Slice(n, level)], r.top)
    ensures Owns(Own(owner, |r.mem|, n, r.top, k), s.slices + [Slice(n, level)], k)
  {
    WriterSpot(p, owner, k, s);
    ChainedSnoc(s.slices, p.top, Slice(n, level), r.top);
    OwnsSnoc(owner, s.slices, Own(owner, |r.mem|, n, r.top, k), Slice(n, level), k);
  }

  lemma ExtendedTail(p: Pool, s: Stream, b: byte, r: Pool, n: nat, level: nat)
    requires Extended(p, s.wp, b, r, n, level) && s.slices != []
    requires forall a :: p.top <= a < |p.mem| ==> p.mem[a] == 0
    ensures Tail(r.mem, Stream(s.slices + [Slice(n, level)], n + 4, s.data + [b]))
  {
  }

  /** What the earlier slices hold survives the new allocation. */
  lemma ExtendedFront(p: Pool, owner: seq<int>, k: int, s: Stream, b: byte, r: Pool, n: nat, level: nat)
    requires StreamOk(p, owner, k, s) && p.mem[s.wp] != 0 && Extended(p, s.wp, b, r, n, level)
    ensures s.slices != [] && s.wp == Last(s).End() - 1 && Fit(p.mem, s.slices) && Fit(r.mem, s.slices)
    ensures Linked(r.mem, s.slices)
    ensures Fit(r.mem, s.slices[..|s.slices| - 1]) && Fit(p.mem, s.slices[..|s.slices| - 1])
    ensures Payloads(r.mem, s.slices[..|s.slices| - 1]) == Payloads(p.mem, s.slices[..|s.slices| - 1])
  {
    hide Payloads, Get4, Owns;
    WriterSpot(p, owner, k, s);
    var last := s.slices[|s.slices| - 1];
    assert last.Ok() && last.End() <= p.top && s.wp == last.End() - 1;
    FrontSame(p.mem, r.mem, s.slices, p.top);
    FitPrefix(p.mem, s.slices, |s.slices| - 1);
    FitPrefix(r.mem, s.slices, |s.slices| - 1);
  }

  /** The full slice keeps all but its last three bytes, which open the new slice. */
  lemma ExtendedData(p: Pool, owner: seq<int>, k: int, s: Stream, b: byte, r: Pool, n: nat, level: nat)
    requires StreamOk(p, owner, k, s) && p.mem[s.wp] != 0 && Extended(p, s.wp, b, r, n, level)
    ensures Fit(r.mem, s.slices) && s.data + [b] == Payloads(r.mem, s.slices) + r.mem[n..n + 4]
  {
    ExtendedFront(p, owner, k, s, b, r, n, level);
    var m := |s.slices| - 1;
    PayloadSplit(p.mem, r.mem, s.slices[..m], s.slices[m], s.wp, s.slices);
    Associate(s.data, Payloads(r.mem, s.slices), p.mem[s.wp - 3..s.wp], b);
  }

  lemma ExtendedLinks(p: Pool, owner: seq<int>, k: int, s: Stream, b: byte, r: Pool, n: nat, level: nat)
    requires StreamOk(p, owner, k, s) && p.mem[s.wp] != 0 && Extended(p, s.wp, b, r, n, level)
    ensures Fit(r.mem, s.slices + [Slice(n, level)]) && Linked(r.mem, s.slices + [Slice(n, level)])
  {
    hide StreamOk, Linked, Get4;
    ExtendedFront(p, owner, k, s, b, r, n, level);
    LinkedSnoc(r.mem, s.slices, Slice(n, level));
  }

  lemma Associate(data: seq<int>, front: seq<int>, back: seq<int>, b: byte)
    requires data == front + back
    ensures data + [b] == front + (back + [b])
  {
  }

  lemma ExtendedStream(p: Pool, owner: seq<int>, k: int, s: Stream, b: byte, r: Pool, n: nat, level: nat)
    requires StreamOk(p, owner, k, s) && p.mem[s.wp] != 0 && Extended(p, s.wp, b, r, n, level)
    requires forall a :: p.top <= a < |p.mem| ==> p.mem[a] == 0
    ensures StreamOk(r, Own(owner, |r.mem|, n, r.top, k), k, Stream(s.slices + [Slice(n, level)], n + 4, s.data + [b]))
  {
    hide Payloads, Linked, Get4, Tail, Chained, Owns;
    ExtendedChain(p, owner, k, s, b, r, n, level);
    ExtendedTail(p, s, b, r, n, level);
    ExtendedLinks(p, owner, k, s, b, r, n, level);
    ExtendedData(p, owner, k, s, b, r, n, level);
    assert (s.slices + [Slice(n, level)])[..|s.slices|] == s.slices;
  }

  lemma Joined(a: seq<int>, b: seq<int>, c: seq<int>, d: seq<int>)
    requires d == b + c
    ensures a + d == a + b + c
  {
  }

  lemma PayloadSplit(mem: seq<int>, mem': seq<int>, front: seq<Slice>, last: Slice, wp: nat, slices: seq<Slice>)
    requires Fit(mem, front) && last.Ok() && last.End() <= |mem| <= |mem'| && wp == last.End() - 1
    requires slices == front + [last] && Fit(mem', slices)
    requires Payloads(mem', front) == Payloads(mem, front)
    requires forall a :: last.addr <= a < last.End() - 4 ==> mem'[a] == mem[a]
    ensures Payloads(mem, front) + mem[last.addr..wp] == Payloads(mem', slices) + mem[wp - 3..wp]
  {
    hide Payloads;
    PayloadsSnoc(mem', front, last);
    assert mem'[last.addr..last.End() - 4] == mem[last.addr..last.End() - 4];
    Joined(Payloads(mem, front), mem[last.addr..last.End() - 4], mem[wp - 3..wp], mem[last.addr..wp]);
  }

  lemma LinkedSnoc(mem: seq<int>, slices: seq<Slice>, x: Slice)
    requires slices != [] && Fit(mem, slices) && Linked(mem, slices) && x.Ok() && x.End() <= |mem|
    requires Get4(mem, slices[|slices| - 1].End() - 4) == x.addr
    ensures Fit(mem, slices + [x]) && Linked(mem, slices + [x])
  {
    var all := slices + [x];
    forall i | 0 < i < |all| ensures Get4(mem, all[i - 1].End() - 4) == all[i].addr {
      assert all[i - 1] == slices[i - 1];
      if i < |slices| { assert all[i] == slices[i]; }
    }
  }

  /** Only the forwarded slice's last four bytes and unowned bytes change. */
  lemma ExtendedSame(p: Pool, owner: seq<int>, k: int, s: Stream, b: byte, r: Pool, n: nat, level: nat, j: int)
    requires StreamOk(p, owner, k, s) && p.mem[s.wp] != 0 && Extended(p, s.wp, b, r, n, level)
    requires forall a :: p.top <= a < |owner| ==> owner[a] == -1
    requires j != k && j != -1
    ensures Same(p.mem, owner, r.mem, Own(owner, |r.mem|, n, r.top, k), j)
  {
    WriterSpot(p, owner, k, s);
    var last := s.slices[|s.slices| - 1];
    assert last.Ok() && forall a :: last.addr <= a < last.End() ==> owner[a] == k;
  }

  lemma AppendAllocates(w: World, k: nat, b: byte)
    requires Inv(w) && Writable(w, k) && w.pool.mem[w.streams[k].wp] != 0 && |w.pool.mem| <= 0x8000_0000 - BLOCK
    ensures Inv(Append(w, k, b))
  {
    var w' := Append(w, k, b);
    var s := w.streams[k];
    assert StreamOk(w.pool, w.owner, k, s);
    WriteAllocSpec(w.pool, s.wp, b);
    var n, level := w'.streams[k].wp - 4, NEXT_LEVEL[w.pool.mem[s.wp] % 16];
    ExtendedStream(w.pool, w.owner, k, s, b, w'.pool, n, level);
    forall j | j != k && j != -1 ensures Same(w.pool.mem, w.owner, w'.pool.mem, w'.owner, j) {
      ExtendedSame(w.pool, w.owner, k, s, b, w'.pool, n, level, j);
    }
    StreamsKeep(w, w', k);
    AllocatesRest(w, w', k, n, level, b);
  }

  lemma AllocatesRest(w: World, w': World, k: nat, n: nat, level: nat, b: byte)
    requires Inv(w) && k < |w.streams| && Extended(w.pool, w.streams[k].wp, b, w'.pool, n, level)
    requires w'.owner == Own(w.owner, |w'.pool.mem|, n, w'.pool.top, k)
    ensures Sized(w'.pool) && |w'.owner| == |w'.pool.mem|
    ensures forall a :: w'.pool.top <= a < |w'.pool.mem| ==> w'.pool.mem[a] == 0 && w'.owner[a] == -1
  {
  }
}
