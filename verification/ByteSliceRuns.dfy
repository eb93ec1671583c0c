/**
 Any interleaving of writers on one pool, and what a reader of one of the streams gets back.
 */
module ByteSliceRuns {
  import opened ByteSlices

  // ---------- runs ----------

  /** `ESkip` is the nextBuffer that makes room for the first slices of a term's streams to lie together. */
  datatype Event = EOpen | EAppend(k: nat, b: byte) | ESkip

  const EMPTY_WORLD := World(EMPTY, [], [])

  /** Addresses are 32-bit: the pool is flushed before another block could pass that limit. */
  predicate Space(w: World) { |w.pool.mem| <= 0x8000_0000 - BLOCK }

  predicate Enabled(w: World, e: Event) {
    Space(w) && (e.EAppend? ==> Writable(w, e.k)) && (!e.EAppend? ==> Sized(w.pool) && |w.owner| == |w.pool.mem|)
  }

  function Do(w: World, e: Event): World {
    if !Enabled(w, e) then w
    else match e
      case EOpen => OpenStream(w)
      case EAppend(k, b) => Append(w, k, b)
      case ESkip => SkipBlock(w)
  }

  function Run(es: seq<Event>): World {
    if es == [] then EMPTY_WORLD else Do(Run(es[..|es| - 1]), es[|es| - 1])
  }

  /** The bytes are appended to one stream, one after the other. */
  function AppendAll(w: World, k: nat, bytes: seq<byte>): World {
    if bytes == [] then w else Do(AppendAll(w, k, bytes[..|bytes| - 1]), EAppend(k, bytes[|bytes| - 1]))
  }

  /** There is room for every one of them. */
  ghost predicate SpaceForAll(w: World, k: nat, bytes: seq<byte>) {
    forall i :: 0 <= i < |bytes| ==> Space(AppendAll(w, k, bytes[..i]))
  }

  /** The bytes the events sent to stream `k`, in order. */
  function Sent(es: seq<Event>, k: nat): seq<int> {
    if es == [] then []
    else
      var n := |es| - 1;
      var e := es[n];
      if e.EAppend? && e.k == k && Enabled(Run(es[..n]), e) then Sent(es[..n], k) + [e.b as int] else Sent(es[..n], k)
  }

  lemma StreamsWritable(w: World, k: nat)
    requires Inv(w) && k < |w.streams|
    ensures Writable(w, k)
  {
    WriterSpot(w.pool, w.owner, k, w.streams[k]);
  }

  lemma StepKeeps(w: World, e: Event)
    requires Inv(w)
    ensures Inv(Do(w, e))
  {
    if Enabled(w, e) {
      match e
      case EOpen => OpenKeeps(w);
      case EAppend(k, b) =>
        if w.pool.mem[w.streams[k].wp] != 0 { AppendAllocates(w, k, b); } else { AppendInPlace(w, k, b); }
      case ESkip => SkipKeeps(w);
    }
  }

  lemma {:induction false} RunKeeps(es: seq<Event>)
    ensures Inv(Run(es))
  {
    if es != [] {
      RunKeeps(es[..|es| - 1]);
      StepKeeps(Run(es[..|es| - 1]), es[|es| - 1]);
    }
  }

  lemma NothingAppended(w: World, k: nat, bytes: seq<byte>)
    ensures AppendAll(w, k, bytes[..0]) == w
  {
  }

  lemma AppendAllNext(w: World, k: nat, bytes: seq<byte>, i: nat)
    requires i < |bytes|
    ensures AppendAll(w, k, bytes[..i + 1]) == Do(AppendAll(w, k, bytes[..i]), EAppend(k, bytes[i]))
  {
    assert bytes[..i + 1][..i] == bytes[..i];
  }

  lemma {:induction false} AppendAllKeeps(w: World, k: nat, bytes: seq<byte>)
    requires Inv(w)
    ensures Inv(AppendAll(w, k, bytes)) && |AppendAll(w, k, bytes).streams| == |w.streams|
  {
    if bytes != [] {
      AppendAllKeeps(w, k, bytes[..|bytes| - 1]);
      StepKeeps(AppendAll(w, k, bytes[..|bytes| - 1]), EAppend(k, bytes[|bytes| - 1]));
    }
  }

  // ---------- numbers of variable length ----------

  /** writeVInt: seven bits a byte, the lowest first, all but the last marked. */
  function VInt(i: nat): seq<byte> { if i < 0x80 then [i] else [i % 0x80 + 0x80] + VInt(i / 0x80) }

  /** readVInt: the number, and how many bytes it took. */
  function VIntAt(bytes: seq<byte>): (nat, nat) {
    if bytes == [] then (0, 0)
    else if bytes[0] < 0x80 then (bytes[0], 1)
    else
      var (rest, n) := VIntAt(bytes[1..]);
      (bytes[0] - 0x80 + 0x80 * rest, n + 1)
  }

  /** What is read is what was written, whatever follows. */
  lemma {:induction false} VIntRoundTrip(i: nat, more: seq<byte>)
    ensures VIntAt(VInt(i) + more) == (i, |VInt(i)|)
  {
    if i >= 0x80 {
      VIntRoundTrip(i / 0x80, more);
      assert (VInt(i) + more)[1..] == VInt(i / 0x80) + more;
    }
  }

  /** The bytes of a number go on with those of what is left of it. */
  lemma VIntNext(i: nat, n: nat, rest: nat)
    requires n < |VInt(i)| && VInt(i)[n..] == VInt(rest)
    ensures if rest >= 0x80 then n + 1 < |VInt(i)| && VInt(i)[n] == rest % 0x80 + 0x80
                && VInt(i)[n + 1..] == VInt(rest / 0x80)
            else n + 1 == |VInt(i)| && VInt(i)[n] == rest
  {
    assert VInt(i)[n + 1..] == VInt(i)[n..][1..] && VInt(i)[n] == VInt(i)[n..][0];
  }

  /** A 32-bit number takes at most five bytes. */
  lemma VIntSize(i: nat)
    requires i < 0x1_0000_0000
    ensures 1 <= |VInt(i)| <= 5
  {
    assert i / 0x80 / 0x80 / 0x80 / 0x80 < 0x80;
    assert |VInt(i / 0x80 / 0x80 / 0x80)| <= 2;
    assert |VInt(i / 0x80 / 0x80)| <= 3;
  }

  lemma StepData(w: World, e: Event, k: nat)
    ensures var w' := Do(w, e);
      && |w'.streams| == |w.streams| + (if Enabled(w, e) && e.EOpen? then 1 else 0)
      && (k < |w.streams| ==>
            w'.streams[k].data == w.streams[k].data + if Enabled(w, e) && e.EAppend? && e.k == k then [e.b as int]
                else [])
      && (|w.streams| <= k < |w'.streams| ==> w'.streams[k].data == [])
  {
  }

  /** Every stream holds exactly what was sent to it. */
  lemma {:induction false} RunData(es: seq<Event>, k: nat)
    ensures if k < |Run(es).streams| then Run(es).streams[k].data == Sent(es, k) else Sent(es, k) == []
  {
    if es != [] {
      RunData(es[..|es| - 1], k);
      StepData(Run(es[..|es| - 1]), es[|es| - 1], k);
    }
  }

  // ---------- the reader ----------

  /** ByteSliceReader with flat addresses: `limit` ends the current slice's payload. */
  datatype Reader = Reader(pos: int, limit: int, level: nat, end: int)

  function InitReader(start: nat, end: nat): Reader {
    var bufferOffset := start / BLOCK * BLOCK;
    if start + FIRST_LEVEL_SIZE >= end then Reader(start, bufferOffset + end % BLOCK, 0, end)
    else Reader(start, start + FIRST_LEVEL_SIZE - 4, 0, end)
  }

  predicate CanFollow(mem: seq<int>, r: Reader) { 0 <= r.limit && r.limit + 4 <= |mem| && r.level < |NEXT_LEVEL| }

  function NextSlice(mem: seq<int>, r: Reader): Reader
    requires CanFollow(mem, r)
  {
    var nextIndex := Get4(mem, r.limit);
    var level := NEXT_LEVEL[r.level];
    var newSize := LEVEL_SIZE[level];
    Reader(nextIndex, if nextIndex + newSize >= r.end then r.end else nextIndex + newSize - 4, level, r.end)
  }

  function Eof(r: Reader): bool { r.pos == r.end }

  predicate CanRead(mem: seq<int>, r: Reader) {
    && (r.pos == r.limit ==> CanFollow(mem, r))
    && 0 <= (if r.pos == r.limit then NextSlice(mem, r).pos else r.pos) < |mem|
  }

  function ReadByte(mem: seq<int>, r: Reader): (int, Reader)
    requires CanRead(mem, r)
  {
    var s := if r.pos == r.limit then NextSlice(mem, r) else r;
    (mem[s.pos], s.(pos := s.pos + 1))
  }

  /** Reads until the end of the stream, at most `fuel` bytes. */
  function ReadToEnd(mem: seq<int>, r: Reader, fuel: nat): seq<int>
    decreases fuel
  {
    if Eof(r) || fuel == 0 || !CanRead(mem, r) then []
    else var (b, s) := ReadByte(mem, r); [b] + ReadToEnd(mem, s, fuel - 1)
  }

  // ---------- where a reader stands ----------

  lemma {:induction false} PayloadsPrefix(mem: seq<int>, slices: seq<Slice>, i: nat, m: nat)
    requires Fit(mem, slices) && i <= m <= |slices|
    ensures Fit(mem, slices[..i]) && Fit(mem, slices[..m])
    ensures |Payloads(mem, slices[..i])| <= |Payloads(mem, slices[..m])|
    ensures Payloads(mem, slices[..i]) == Payloads(mem, slices[..m])[..|Payloads(mem, slices[..i])|]
    decreases m
  {
    FitPrefix(mem, slices, i);
    FitPrefix(mem, slices, m);
    if i < m {
      PayloadsPrefix(mem, slices, i, m - 1);
      assert slices[..m][..m - 1] == slices[..m - 1];
    }
  }

  function Offset(mem: seq<int>, slices: seq<Slice>, i: nat): nat
    requires Fit(mem, slices) && i <= |slices|
  {
    FitPrefix(mem, slices, i);
    |Payloads(mem, slices[..i])|
  }

  lemma OffsetStep(mem: seq<int>, slices: seq<Slice>, i: nat)
    requires Fit(mem, slices) && i < |slices|
    ensures Offset(mem, slices, i + 1) == Offset(mem, slices, i) + (slices[i].Size() - 4)
  {
    FitPrefix(mem, slices, i + 1);
    FitPrefix(mem, slices, i);
    assert slices[..i + 1][..i] == slices[..i];
  }

  /** The end of what slice `i` holds of its stream. */
  function HeldEnd(s: Stream, i: nat): int
    requires i < |s.slices| && s.slices[i].Ok()
  {
    if i == |s.slices| - 1 then s.wp else s.slices[i].End() - 4
  }

  lemma PayloadAt(mem: seq<int>, slices: seq<Slice>, i: nat, m: nat, a: int)
    requires Fit(mem, slices) && i < m <= |slices| && slices[i].addr <= a < slices[i].End() - 4
    ensures Fit(mem, slices[..m])
    ensures var x := Offset(mem, slices, i) + (a - slices[i].addr);
      x < |Payloads(mem, slices[..m])| && Payloads(mem, slices[..m])[x] == mem[a]
  {
    PayloadsPrefix(mem, slices, i + 1, m);
    FitPrefix(mem, slices, i);
    assert slices[..i + 1][..i] == slices[..i];
    var x := Offset(mem, slices, i) + (a - slices[i].addr);
    assert Payloads(mem, slices[..i + 1])[x] == mem[a];
  }

  lemma DataAt(p: Pool, owner: seq<int>, k: int, s: Stream, i: nat, a: int)
    requires StreamOk(p, owner, k, s) && i < |s.slices| && s.slices[i].addr <= a < HeldEnd(s, i)
    requires Fit(p.mem, s.slices)
    ensures Offset(p.mem, s.slices, i) + (a - s.slices[i].addr) < |s.data|
    ensures s.data[Offset(p.mem, s.slices, i) + (a - s.slices[i].addr)] == p.mem[a]
  {
    hide Payloads, Linked, Owns, Chained;
    var m := |s.slices| - 1;
    FitPrefix(p.mem, s.slices, m);
    if i < m { PayloadAt(p.mem, s.slices, i, m, a); }
  }

  /** The reader stands in slice `i`, `c` bytes into the stream. */
  ghost predicate StandsAt(p: Pool, owner: seq<int>, k: int, s: Stream, r: Reader, i: nat, c: nat) {
    && StreamOk(p, owner, k, s) && i < |s.slices| && Fit(p.mem, s.slices)
    && r.level == s.slices[i].level && r.end == s.wp
    && s.slices[i].addr <= r.pos <= r.limit == HeldEnd(s, i)
    && c == Offset(p.mem, s.slices, i) + (r.pos - s.slices[i].addr)
  }

  lemma DataSize(p: Pool, owner: seq<int>, k: int, s: Stream)
    requires StreamOk(p, owner, k, s)
    ensures Fit(p.mem, s.slices)
    ensures |s.data| == Offset(p.mem, s.slices, |s.slices| - 1) + (s.wp - Last(s).addr)
  {
    FitPrefix(p.mem, s.slices, |s.slices| - 1);
  }

  /** An earlier slice is exhausted well before the writer. */
  lemma BeforeWriter(p: Pool, owner: seq<int>, k: int, s: Stream, i: nat)
    requires StreamOk(p, owner, k, s) && i < |s.slices| - 1
    ensures s.slices[i].End() < s.wp && s.slices[i].End() <= s.slices[i + 1].addr
    ensures i < |s.slices| - 2 ==> s.slices[i + 1].End() < s.wp
  {
    var m := |s.slices| - 1;
    assert s.slices[i].End() <= s.slices[m].addr;
    if i + 1 < m { assert s.slices[i + 1].End() <= s.slices[m].addr; }
  }

  lemma AtEnd(p: Pool, owner: seq<int>, k: int, s: Stream, r: Reader, i: nat, c: nat)
    requires StandsAt(p, owner, k, s, r, i, c)
    ensures c <= |s.data| && (Eof(r) <==> c == |s.data|)
    ensures c < |s.data| && r.pos == r.limit ==> i < |s.slices| - 1
  {
    hide Payloads, Linked, Owns, Get4;
    var m := |s.slices| - 1;
    DataSize(p, owner, k, s);
    if i < m {
      BeforeWriter(p, owner, k, s, i);
      OffsetStep(p.mem, s.slices, i);
      PayloadsPrefix(p.mem, s.slices, i + 1, m);
    }
  }

  lemma NoPayload(mem: seq<int>, slices: seq<Slice>)
    requires Fit(mem, slices)
    ensures Offset(mem, slices, 0) == 0
  {
  }

  lemma InitStands(p: Pool, owner: seq<int>, k: int, s: Stream)
    requires StreamOk(p, owner, k, s)
    ensures StandsAt(p, owner, k, s, InitReader(s.slices[0].addr, s.wp), 0, 0)
  {
    hide Linked, Owns, Payloads;
    DataSize(p, owner, k, s);
    var first := s.slices[0];
    assert first.Ok() && first.Size() == 5;
    assert s.slices[..0] == [];
    NoPayload(p.mem, s.slices);
    if |s.slices| > 1 { BeforeWriter(p, owner, k, s, 0); }
  }

  /** The link of slice `i` leads to slice `i + 1`. */
  lemma LinkLeads(p: Pool, owner: seq<int>, k: int, s: Stream, i: nat)
    requires StreamOk(p, owner, k, s) && i < |s.slices| - 1
    ensures s.slices[i].Ok() && s.slices[i + 1].Ok() && 4 <= s.slices[i].End() <= |p.mem|
    ensures Get4(p.mem, s.slices[i].End() - 4) == s.slices[i + 1].addr
    ensures s.slices[i + 1].level == NEXT_LEVEL[s.slices[i].level]
    ensures i + 1 == |s.slices| - 1 ==> s.slices[i + 1].addr + 4 <= s.wp < s.slices[i + 1].End()
  {
    hide Payloads, Owns, Get4;
    var j := i + 1;
    assert s.slices[i].Ok() && s.slices[j].Ok();
    assert Get4(p.mem, s.slices[j - 1].End() - 4) == s.slices[j].addr;
  }

  lemma NextStands(p: Pool, owner: seq<int>, k: int, s: Stream, r: Reader, i: nat, c: nat)
    requires StandsAt(p, owner, k, s, r, i, c) && r.pos == r.limit && i < |s.slices| - 1
    ensures CanFollow(p.mem, r) && StandsAt(p, owner, k, s, NextSlice(p.mem, r), i + 1, c)
    ensures NextSlice(p.mem, r).pos < NextSlice(p.mem, r).limit
  {
    LinkLeads(p, owner, k, s, i);
    BeforeWriter(p, owner, k, s, i);
    OffsetStep(p.mem, s.slices, i);
    var x := s.slices[i + 1];
    var last := i + 1 == |s.slices| - 1;
    assert NextSlice(p.mem, r) == Reader(x.addr, if last then s.wp else x.End() - 4, x.level, s.wp);
  }

  /** Before the end, the next byte read is the next byte written. */
  lemma ReadStands(p: Pool, owner: seq<int>, k: int, s: Stream, r: Reader, i: nat, c: nat) returns (i': nat)
    requires StandsAt(p, owner, k, s, r, i, c) && c < |s.data|
    ensures CanRead(p.mem, r) && ReadByte(p.mem, r).0 == s.data[c]
    ensures StandsAt(p, owner, k, s, ReadByte(p.mem, r).1, i', c + 1)
  {
    hide Payloads, Linked, Chained, Owns, Offset;
    AtEnd(p, owner, k, s, r, i, c);
    var q := r;
    i' := i;
    if r.pos == r.limit {
      NextStands(p, owner, k, s, r, i, c);
      i', q := i + 1, NextSlice(p.mem, r);
    }
    assert s.slices[i'].Ok();
    DataAt(p, owner, k, s, i', q.pos);
  }

  lemma {:induction false} ReadRest(p: Pool, owner: seq<int>, k: int, s: Stream, r: Reader, i: nat, c: nat, fuel: nat)
    requires StandsAt(p, owner, k, s, r, i, c) && |s.data| <= c + fuel
    ensures c <= |s.data| && ReadToEnd(p.mem, r, fuel) == s.data[c..]
    decreases fuel
  {
    hide StandsAt, StreamOk, ReadToEnd, ReadByte, CanRead;
    AtEnd(p, owner, k, s, r, i, c);
    ReadDone(p.mem, r, fuel);
    if c < |s.data| {
      var i' := ReadStands(p, owner, k, s, r, i, c);
      var next := ReadByte(p.mem, r).1;
      ReadRest(p, owner, k, s, next, i', c + 1, fuel - 1);
      ReadOne(p.mem, r, fuel);
      assert s.data[c..] == [s.data[c]] + s.data[c + 1..];
    }
  }

  lemma ReadDone(mem: seq<int>, r: Reader, fuel: nat)
    ensures Eof(r) ==> ReadToEnd(mem, r, fuel) == []
  {
  }

  lemma ReadOne(mem: seq<int>, r: Reader, fuel: nat)
    requires !Eof(r) && fuel > 0 && CanRead(mem, r)
    ensures ReadToEnd(mem, r, fuel) == [ReadByte(mem, r).0] + ReadToEnd(mem, ReadByte(mem, r).1, fuel - 1)
  {
  }

  /** However the writers of the pool were interleaved, a reader from a stream's first slice to its
      writer's address gets exactly the bytes sent to that stream, in order, and then end of file. */
  lemma ReadsWhatWasWritten(es: seq<Event>, k: nat, fuel: nat)
    requires k < |Run(es).streams| && Run(es).streams[k].slices != [] && |Sent(es, k)| <= fuel
    ensures var s := Run(es).streams[k];
      ReadToEnd(Run(es).pool.mem, InitReader(s.slices[0].addr, s.wp), fuel) == Sent(es, k)
  {
    RunKeeps(es);
    RunData(es, k);
    var w := Run(es);
    assert StreamOk(w.pool, w.owner, k, w.streams[k]);
    InitStands(w.pool, w.owner, k, w.streams[k]);
    ReadRest(w.pool, w.owner, k, w.streams[k], InitReader(w.streams[k].slices[0].addr, w.streams[k].wp), 0, 0, fuel);
  }

  /** Slices of two streams never share an address. */
  lemma SlicesDisjoint(es: seq<Event>, j: nat, k: nat, x: Slice, y: Slice, a: nat)
    requires j < |Run(es).streams| && k < |Run(es).streams| && j != k
    requires x in Run(es).streams[j].slices && y in Run(es).streams[k].slices && x.Ok() && y.Ok()
    ensures !(x.addr <= a < x.End() && y.addr <= a < y.End())
  {
    RunKeeps(es);
    var w := Run(es);
    OwnedBy(w.pool, w.owner, j, w.streams[j], x, a);
    OwnedBy(w.pool, w.owner, k, w.streams[k], y, a);
  }

  lemma OwnedBy(p: Pool, owner: seq<int>, k: int, s: Stream, x: Slice, a: nat)
    requires StreamOk(p, owner, k, s) && x in s.slices && x.Ok()
    ensures x.End() <= |owner|
    ensures x.addr <= a < x.End() ==> owner[a] == k
  {
    var i :| 0 <= i < |s.slices| && s.slices[i] == x;
    assert s.slices[i].Ok() && s.slices[i].End() <= p.top;
  }
}
