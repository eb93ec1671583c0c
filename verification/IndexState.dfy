/**
 The index writer between two calls: flushed segments, documents still in RAM, the
 deletes buffered against them and the merges under way.  Every event below is one
 critical section of IndexWriter / DocumentsWriter; a run is any interleaving of them.
 */
module IndexState {
  import opened OperationLog

  /** One document slot of a segment or of the RAM buffer; `id` is its position in the log. */
  datatype Cell = Cell(id: nat, doc: Doc, dead: bool)

  datatype Segment = Segment(name: nat, cells: seq<Cell>)

  /** BufferedDeletes: a term or query deletes matching documents below its bound. */
  datatype Deletes = Deletes(terms: map<Term, int>, queries: map<Query, int>, docIDs: seq<int>)

  /** A registered merge; `snaps` holds the deletions each cloned reader saw, in segment order. */
  datatype Merge = Merge(names: seq<nat>, begun: bool, snaps: seq<seq<bool>>)

  datatype State = State(
    log: seq<Op>,
    segments: seq<Segment>,
    ram: seq<Cell>,
    inFlight: set<nat>,
    inRAM: Deletes,
    flushed: Deletes,
    flushedDocCount: int,
    merges: map<nat, Merge>,
    nextName: nat)

  const NO_DELETES := Deletes(map[], map[], [])

  const FRESH := State([], [], [], {}, NO_DELETES, NO_DELETES, 0, map[], 0)

  // ---------- documents and the deletes that hit them ----------

  function Flatten(segs: seq<Segment>): seq<Cell> {
    if segs == [] then [] else segs[0].cells + Flatten(segs[1..])
  }

  function All(s: State): seq<Cell> { Flatten(s.segments) + s.ram }

  predicate Hit(d: Deletes, doc: Doc, g: int) {
    || (exists t :: t in doc.terms && t in d.terms && g < d.terms[t])
    || (exists q :: q in doc.matchedBy && q in d.queries && g < d.queries[q])
    || g in d.docIDs
  }

  /** The document at global position `g` is deleted, or will be once the buffered deletes apply. */
  predicate Gone(s: State, g: nat)
    requires g < |All(s)|
  {
    All(s)[g].dead || Hit(s.flushed, All(s)[g].doc, g) || Hit(s.inRAM, All(s)[g].doc, g)
  }

  // ---------- buffering ----------

  function Max(a: int, b: int): int { if a < b then b else a }

  function AddTerm(d: Deletes, t: Term, bound: int): Deletes {
    d.(terms := d.terms[t := if t in d.terms then Max(d.terms[t], bound) else bound])
  }

  function AddQuery(d: Deletes, q: Query, bound: int): Deletes {
    d.(queries := d.queries[q := bound])
  }

  /** BufferedDeletes::update: entries of `from` replace those already there. */
  function Absorb(into: Deletes, from: Deletes): Deletes {
    Deletes(into.terms + from.terms, into.queries + from.queries, into.docIDs + from.docIDs)
  }

  function StartWrite(s: State, del: Option<Term>, doc: Doc): State {
    s.(log := s.log + [Write(del, doc, true)],
       inRAM := if del.Some? then AddTerm(s.inRAM, del.value, s.flushedDocCount + |s.ram|) else s.inRAM,
       ram := s.ram + [Cell(|s.log|, doc, false)],
       inFlight := s.inFlight + {|s.ram|})
  }

  function Finish(s: State, i: nat): State { s.(inFlight := s.inFlight - {i}) }

  /** A document that failed part way keeps its docID and is deleted by it. */
  function Fail(s: State, i: nat): State {
    if i in s.inFlight && i < |s.ram| && s.ram[i].id < |s.log| && s.log[s.ram[i].id].Write? then
      var k := s.ram[i].id;
      s.(log := s.log[k := s.log[k].(ok := false)],
         inFlight := s.inFlight - {i},
         inRAM := s.inRAM.(docIDs := s.inRAM.docIDs + [s.flushedDocCount + i]))
    else s
  }

  function BufferTerm(s: State, t: Term): State {
    s.(log := s.log + [DeleteTerm(t)],
       inRAM := AddTerm(s.inRAM, t, s.flushedDocCount + |s.ram|))
  }

  function BufferQuery(s: State, q: Query): State {
    s.(log := s.log + [DeleteQuery(q)],
       inRAM := AddQuery(s.inRAM, q, s.flushedDocCount + |s.ram|))
  }

  /** Waits for every thread to be idle; then the RAM documents become a segment. */
  function Flush(s: State): State {
    if s.inFlight != {} then s
    else
      var pushed := s.(flushed := Absorb(s.flushed, s.inRAM), inRAM := NO_DELETES);
      if s.ram == [] then pushed
      else pushed.(segments := s.segments + [Segment(s.nextName, s.ram)],
                   nextName := s.nextName + 1,
                   flushedDocCount := s.flushedDocCount + |s.ram|,
                   ram := [])
  }

  function ApplyTo(cells: seq<Cell>, d: Deletes, start: int): seq<Cell> {
    seq(|cells|, k requires 0 <= k < |cells| =>
      cells[k].(dead := cells[k].dead || Hit(d, cells[k].doc, start + k)))
  }

  function ApplyAll(segs: seq<Segment>, d: Deletes, start: int): seq<Segment> {
    if segs == [] then []
    else [segs[0].(cells := ApplyTo(segs[0].cells, d, start))]
         + ApplyAll(segs[1..], d, start + |segs[0].cells|)
  }

  function ApplyDeletes(s: State): State {
    s.(segments := ApplyAll(s.segments, s.flushed, 0), flushed := NO_DELETES)
  }

  // ---------- merging ----------

  predicate Located(segs: seq<Segment>, names: seq<nat>, f: nat) {
    f + |names| <= |segs| && forall j :: 0 <= j < |names| ==> segs[f + j].name == names[j]
  }

  predicate Merging(s: State, name: nat) {
    exists m :: m in s.merges && name in s.merges[m].names
  }

  /** Refused when a segment is already being merged or the segments are not contiguous. */
  function Register(s: State, m: nat, f: nat, n: nat): State {
    if m !in s.merges && n > 0 && f + n <= |s.segments|
       && (forall j :: f <= j < f + n ==> !Merging(s, s.segments[j].name))
    then
      var names := seq(n, j requires 0 <= j < n => s.segments[f + j].name);
      s.(merges := s.merges[m := Merge(names, false, [])])
    else s
  }

  /** mergeInit applies the flushed deletes before the merge may start. */
  function Begin(s: State, m: nat): State {
    if m in s.merges && !s.merges[m].begun then
      ApplyDeletes(s).(merges := s.merges[m := s.merges[m].(begun := true)])
    else s
  }

  function DeadFlags(cells: seq<Cell>): seq<bool> {
    seq(|cells|, k requires 0 <= k < |cells| => cells[k].dead)
  }

  /** mergeMiddle clones the readers one after the other, without holding the lock in between. */
  function CloneReader(s: State, m: nat, i: nat): State {
    if m in s.merges && s.merges[m].begun && |s.merges[m].snaps| < |s.merges[m].names|
       && i < |s.segments| && s.segments[i].name == s.merges[m].names[|s.merges[m].snaps|]
    then
      s.(merges := s.merges[m := s.merges[m].(snaps := s.merges[m].snaps + [DeadFlags(s.segments[i].cells)])])
    else s
  }

  /** What the merger copies: the cells that were live in the cloned reader. */
  function Keep(cells: seq<Cell>, snap: seq<bool>): seq<Cell>
    requires |cells| == |snap|
  {
    if cells == [] then []
    else (if snap[0] then [] else [cells[0]]) + Keep(cells[1..], snap[1..])
  }

  predicate Fits(segs: seq<Segment>, snaps: seq<seq<bool>>) {
    |segs| == |snaps| && forall j :: 0 <= j < |segs| ==> |segs[j].cells| == |snaps[j]|
  }

  function Merged(segs: seq<Segment>, snaps: seq<seq<bool>>): seq<Cell>
    requires Fits(segs, snaps)
  {
    if segs == [] then [] else Keep(segs[0].cells, snaps[0]) + Merged(segs[1..], snaps[1..])
  }

  function CountLive(snap: seq<bool>): nat {
    if snap == [] then 0 else (if snap[0] then 0 else 1) + CountLive(snap[1..])
  }

  function Size(snaps: seq<seq<bool>>): nat {
    if snaps == [] then 0 else |snaps[0]| + Size(snaps[1..])
  }

  function Live(snaps: seq<seq<bool>>): nat {
    if snaps == [] then 0 else CountLive(snaps[0]) + Live(snaps[1..])
  }

  /** New position of offset `off` into the merged segments, the first live one landing on `base`.
      A document that was deleted when the merge started has -1 in its segment's map. */
  function RemapIn(snaps: seq<seq<bool>>, base: int, off: nat): int
    requires off < Size(snaps)
  {
    if off < |snaps[0]| then
      if snaps[0][off] then base - 1 else base + CountLive(snaps[0][..off])
    else RemapIn(snaps[1..], base + CountLive(snaps[0]), off - |snaps[0]|)
  }

  function Remap(snaps: seq<seq<bool>>, min: int, x: int): int {
    if x < min then x
    else if x >= min + Size(snaps) then x - (Size(snaps) - Live(snaps))
    else RemapIn(snaps, min, x - min)
  }

  function RemapAll(d: Deletes, snaps: seq<seq<bool>>, min: int): Deletes {
    Deletes(map t | t in d.terms :: Remap(snaps, min, d.terms[t]),
            map q | q in d.queries :: Remap(snaps, min, d.queries[q]),
            seq(|d.docIDs|, i requires 0 <= i < |d.docIDs| => Remap(snaps, min, d.docIDs[i])))
  }

  /** The merge may commit: every reader was cloned and its segments still stand side by side. */
  predicate Ready(s: State, m: nat, f: nat) {
    && m in s.merges && s.merges[m].begun
    && |s.merges[m].snaps| == |s.merges[m].names| > 0
    && Located(s.segments, s.merges[m].names, f)
    && Fits(s.segments[f..f + |s.merges[m].names|], s.merges[m].snaps)
  }

  function CommitMerge(s: State, m: nat, f: nat): State {
    if Ready(s, m, f) then
      var n := |s.merges[m].names|;
      var snaps := s.merges[m].snaps;
      var min := |Flatten(s.segments[..f])|;
      var merged := Segment(s.nextName, Merged(s.segments[f..f + n], snaps));
      s.(segments := s.segments[..f] + [merged] + s.segments[f + n..],
         nextName := s.nextName + 1,
         inRAM := RemapAll(s.inRAM, snaps, min),
         flushed := RemapAll(s.flushed, snaps, min),
         flushedDocCount := s.flushedDocCount - (Size(snaps) - Live(snaps)),
         merges := s.merges - {m})
    else s
  }

  function AbortMerge(s: State, m: nat): State { s.(merges := s.merges - {m}) }

  // ---------- runs ----------

  datatype Event =
    | EWrite(del: Option<Term>, doc: Doc)
    | EFinish(i: nat)
    | EFail(i: nat)
    | EDeleteTerm(term: Term)
    | EDeleteQuery(query: Query)
    | EFlush
    | EApply
    | ERegister(m: nat, f: nat, n: nat)
    | EBegin(m: nat)
    | EClone(m: nat, i: nat)
    | ECommit(m: nat, f: nat)
    | EAbortMerge(m: nat)

  function Do(s: State, e: Event): State {
    match e
    case EWrite(del, doc) => StartWrite(s, del, doc)
    case EFinish(i) => Finish(s, i)
    case EFail(i) => Fail(s, i)
    case EDeleteTerm(t) => BufferTerm(s, t)
    case EDeleteQuery(q) => BufferQuery(s, q)
    case EFlush => Flush(s)
    case EApply => ApplyDeletes(s)
    case ERegister(m, f, n) => Register(s, m, f, n)
    case EBegin(m) => Begin(s, m)
    case EClone(m, i) => CloneReader(s, m, i)
    case ECommit(m, f) => CommitMerge(s, m, f)
    case EAbortMerge(m) => AbortMerge(s, m)
  }

  function Run(es: seq<Event>): State {
    if es == [] then FRESH else Do(Run(es[..|es| - 1]), es[|es| - 1])
  }

  /** The documents a reader would find if every buffered delete were applied now. */
  function Visible(s: State, upTo: nat): seq<Entry>
    requires upTo <= |All(s)|
  {
    if upTo == 0 then []
    else
      var g := upTo - 1;
      Visible(s, g) + if Gone(s, g) then [] else [Entry(All(s)[g].id, All(s)[g].doc)]
  }

  function View(s: State): seq<Entry> { Visible(s, |All(s)|) }

  /** The live documents of these slots, with no buffered delete applied. */
  function LiveCells(cells: seq<Cell>): seq<Entry> {
    if cells == [] then []
    else (if cells[0].dead then [] else [Entry(cells[0].id, cells[0].doc)]) + LiveCells(cells[1..])
  }
}
