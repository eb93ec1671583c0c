/**
 What the run invariant gives: merges lose no live document, renumbering never meets a bound
 it would get wrong, the mutable writer reads as its log, what an abort loses, and what a commit would hold.
 */
module IndexTheorems {
  import opened OperationLog
  import opened IndexState
  import opened IndexRuns
  import opened MergeDocIDs
  import opened IndexWriters

  // ---------- merges ----------

  lemma {:induction false} KeepLive(cells: seq<Cell>, snap: seq<bool>)
    requires SnapOf(cells, snap)
    ensures LiveCells(Keep(cells, snap)) == LiveCells(cells)
  {
    if cells != [] {
      KeepLive(cells[1..], snap[1..]);
      LiveCellsAppend(if snap[0] then [] else [cells[0]], Keep(cells[1..], snap[1..]));
    }
  }

  lemma {:induction false} MergedLive(segs: seq<Segment>, snaps: seq<seq<bool>>)
    requires Fits(segs, snaps) && forall j :: 0 <= j < |segs| ==> SnapOf(segs[j].cells, snaps[j])
    ensures LiveCells(Merged(segs, snaps)) == LiveCells(Flatten(segs))
  {
    if segs != [] {
      KeepLive(segs[0].cells, snaps[0]);
      MergedLive(segs[1..], snaps[1..]);
      LiveCellsAppend(segs[0].cells, Flatten(segs[1..]));
      LiveCellsAppend(Keep(segs[0].cells, snaps[0]), Merged(segs[1..], snaps[1..]));
    }
  }

  /** A merge that commits holds exactly the live documents of its sources at that moment, in
      order, deletions flushed while it ran included. */
  lemma MergeKeepsLiveDocs(es: seq<Event>, m: nat, f: nat)
    requires Ready(Run(es), m, f)
    ensures LiveCells(Kept(Run(es), m, f)) == LiveCells(Flatten(Sources(Run(es), m, f)))
  {
    var s := Run(es);
    RunKeeps(es);
    assert MergeOk(s, s.merges[m]);
    forall j | 0 <= j < |s.merges[m].names| ensures SnapOf(Sources(s, m, f)[j].cells, s.merges[m].snaps[j]) {
      assert s.segments[f + j].name == s.merges[m].names[j];
    }
    MergedLive(Sources(s, m, f), s.merges[m].snaps);
  }

  ghost predicate IsBound(d: Deletes, x: int) {
    || (exists t :: t in d.terms && d.terms[t] == x)
    || (exists q :: q in d.queries && d.queries[q] == x)
    || x in d.docIDs
  }

  /** In every run, every buffered bound lies beyond a committing merge, so renumbering it is exact. */
  lemma RunBoundsStayExact(es: seq<Event>, m: nat, f: nat, x: int)
    requires Ready(Run(es), m, f) && (IsBound(Run(es).flushed, x) || IsBound(Run(es).inRAM, x))
    ensures BoundExact(Run(es).merges[m].snaps, |Front(Run(es), f)|, x)
  {
    var s := Run(es);
    RunKeeps(es);
    CommitBeyond(s, m, f);
    CommitThins(s, m, f);
    var snaps, min := s.merges[m].snaps, |Front(s, f)|;
    assert x >= min + Size(snaps);
    BoundExactIff(snaps, min, x);
  }

  // ---------- the mutable writer ----------

  /** Whatever calls were made on it, the writer's buffered index reads as the plain log. */
  lemma WriterReadsItsLog(w: IndexWriter)
    requires w.Valid()
    ensures View(w.Abs()) == Replay(w.log)
  {
    EveryRunReadsItsLog(w.history);
  }

  // ---------- abort ----------

  /** DocumentsWriter::abort drops the RAM documents and both delete buffers. */
  function Abort(s: State): State {
    s.(log := Disown(s.log, s.ram), ram := [], inFlight := {}, inRAM := NO_DELETES, flushed := NO_DELETES)
  }

  /** The log in which the writes of the documents in RAM never succeeded. */
  function Disown(log: seq<Op>, ram: seq<Cell>): seq<Op> {
    seq(|log|, k requires 0 <= k < |log| => if log[k].Write? && InRAM(ram, k) then log[k].(ok := false) else log[k])
  }

  predicate InRAM(ram: seq<Cell>, k: nat) {
    exists i :: 0 <= i < |ram| && ram[i].id == k
  }

  /** Every buffered delete that reaches a flushed document finds it deleted already. */
  ghost predicate NothingPending(s: State) {
    var cells := Flatten(s.segments);
    forall g :: 0 <= g < |cells| && !cells[g].dead ==>
      !Hit(s.flushed, cells[g].doc, g) && !Hit(s.inRAM, cells[g].doc, g)
  }

  lemma DisownSurvives(s: State, k: nat)
    requires Logged(s)
    ensures Survives(Disown(s.log, s.ram), k) <==> Survives(s.log, k) && !InRAM(s.ram, k)
  {
    var log' := Disown(s.log, s.ram);
    if k < |s.log| && s.log[k].Write? {
      assert forall j :: 0 <= j < |s.log| ==> (Kills(log'[j], s.log[k].doc) <==> Kills(s.log[j], s.log[k].doc));
      assert log'[k].doc == s.log[k].doc;
    }
  }

  lemma AbortFlushedSlot(s: State, g: nat)
    requires Inv(s) && g < |Flatten(s.segments)|
    ensures All(Abort(s))[g] == All(s)[g]
    ensures Gone(Abort(s), g) <==> All(s)[g].dead
    ensures Survives(Abort(s).log, All(s)[g].id) <==> Survives(s.log, All(s)[g].id)
  {
    var c := All(s)[g];
    NothingHit(c.doc, g);
    DisownSurvives(s, c.id);
    forall i | 0 <= i < |s.ram| ensures s.ram[i].id != c.id {
      assert All(s)[|Flatten(s.segments)| + i] == s.ram[i];
    }
  }

  lemma FlushedOrInRAM(s: State, k: nat)
    requires Holds(All(s), k)
    ensures Holds(Flatten(s.segments), k) || InRAM(s.ram, k)
  {
    var n := |Flatten(s.segments)|;
    var g :| 0 <= g < |All(s)| && All(s)[g].id == k;
    if g < n {
      assert Flatten(s.segments)[g].id == k;
    } else {
      assert s.ram[g - n].id == k;
    }
  }

  lemma AbortComplete(s: State)
    requires Inv(s)
    ensures Complete(Abort(s))
  {
    var s' := Abort(s);
    forall k: nat | Survives(s'.log, k) ensures Holds(All(s'), k) {
      DisownSurvives(s, k);
      assert Holds(All(s), k);
      FlushedOrInRAM(s, k);
      assert All(s') == Flatten(s.segments);
    }
  }

  lemma AbortMergesOk(s: State)
    requires Inv(s)
    ensures MergesOk(Abort(s))
  {
    forall m | m in s.merges ensures MergeOk(Abort(s), s.merges[m]) {
      assert MergeOk(s, s.merges[m]);
    }
  }

  lemma AbortInv(s: State)
    requires Inv(s) && NothingPending(s)
    ensures Inv(Abort(s))
  {
    var s' := Abort(s);
    assert All(s') == Flatten(s.segments);
    forall g | 0 <= g < |All(s')|
      ensures var c := All(s')[g];
        && c.id < |s'.log| && s'.log[c.id].Write? && s'.log[c.id].doc == c.doc
        && (Gone(s', g) <==> !Survives(s'.log, c.id))
    {
      AbortFlushedSlot(s, g);
      assert s.log[All(s)[g].id].Write?;
    }
    assert forall i :: 0 <= i < |All(s')| ==> All(s')[i] == All(s)[i];
    AbortComplete(s);
    AbortMergesOk(s);
  }

  /** After an abort the index reads as the log without the buffered documents exactly when no
      buffered delete was still waiting to reach a flushed document: those deletes are lost. */
  lemma AbortLosesPendingDeletes(es: seq<Event>)
    ensures var s := Run(es);
      View(Abort(s)) == Replay(Abort(s).log) <==> NothingPending(s)
  {
    var s := Run(es);
    RunKeeps(es);
    if NothingPending(s) {
      AbortInv(s);
      ViewIsReplay(Abort(s));
    } else {
      AbortRevives(s);
    }
  }

  lemma AbortRevives(s: State)
    requires Inv(s) && !NothingPending(s)
    ensures View(Abort(s)) != Replay(Abort(s).log)
  {
    var s' := Abort(s);
    assert All(s') == Flatten(s.segments);
    var g :| 0 <= g < |All(s')| && !All(s')[g].dead
             && (Hit(s.flushed, All(s')[g].doc, g) || Hit(s.inRAM, All(s')[g].doc, g));
    assert All(s)[g] == All(s')[g];
    assert Gone(s, g);
    AbortFlushedSlot(s, g);
    assert forall i :: 0 <= i < |All(s')| ==> All(s')[i] == All(s)[i];
    VisibleSpec(s', |All(s')|);
    ReplaySpec(s'.log);
    var e := Entry(All(s')[g].id, All(s')[g].doc);
    assert e in View(s') && e !in Replay(s'.log);
  }

  // ---------- runs with aborts ----------

  datatype Move = Proceed(event: Event) | Aborting

  /** A run in which the writer also aborts. */
  function RunMoves(ms: seq<Move>): State {
    if ms == [] then FRESH
    else
      var s, last := RunMoves(ms[..|ms| - 1]), ms[|ms| - 1];
      if last.Aborting? then Abort(s) else Do(s, last.event)
  }

  /** No abort found a delete waiting to reach a flushed document. */
  ghost predicate AbortsSpare(ms: seq<Move>) {
    ms == [] || (AbortsSpare(ms[..|ms| - 1]) && (ms[|ms| - 1].Aborting? ==> NothingPending(RunMoves(ms[..|ms| - 1]))))
  }

  lemma {:induction false} MovesKeep(ms: seq<Move>)
    requires AbortsSpare(ms)
    ensures Inv(RunMoves(ms))
  {
    if ms == [] {
      RunKeeps([]);
    } else {
      MovesKeep(ms[..|ms| - 1]);
      var s, last := RunMoves(ms[..|ms| - 1]), ms[|ms| - 1];
      if last.Aborting? { AbortInv(s); } else { StepKeeps(s, last.event); }
    }
  }

  /** The index goes on reading as the log without what was aborted as long as no abort loses a delete; and the next
      abort loses none exactly when nothing is pending. */
  lemma EveryAbortingRunReadsItsLog(ms: seq<Move>)
    requires AbortsSpare(ms)
    ensures var s := RunMoves(ms);
      View(s) == Replay(s.log) && (View(Abort(s)) == Replay(Abort(s).log) <==> NothingPending(s))
  {
    var s := RunMoves(ms);
    MovesKeep(ms);
    ViewIsReplay(s);
    if NothingPending(s) {
      AbortInv(s);
      ViewIsReplay(Abort(s));
    } else {
      AbortRevives(s);
    }
  }

  // ---------- what a commit that begins now would hold ----------

  /** startCommit drops the last segments whose documents lie in the open doc store: how many it keeps. */
  function KeptCount(segs: seq<Segment>, shared: set<nat>): (n: nat)
    ensures n <= |segs|
    ensures forall i :: n <= i < |segs| ==> segs[i].name in shared
    ensures n > 0 ==> segs[n - 1].name !in shared
  {
    if segs == [] then 0
    else if segs[|segs| - 1].name in shared then KeptCount(segs[..|segs| - 1], shared)
    else |segs|
  }

  /** No buffered delete reaches a live document of the first `n` segments, and no document that survives stands in a
      later segment or in RAM. */
  predicate Captured(s: State, n: nat)
    requires n <= |s.segments|
  {
    var cells := Flatten(s.segments[..n]);
    && (forall g :: 0 <= g < |cells| && !cells[g].dead ==>
          !Hit(s.flushed, cells[g].doc, g) && !Hit(s.inRAM, cells[g].doc, g))
    && (forall g :: |cells| <= g < |All(s)| ==> Gone(s, g))
  }

  lemma {:induction false} LiveCellsSpec(cells: seq<Cell>)
    requires Sorted(cells)
    ensures Increasing(LiveCells(cells))
    ensures forall e :: e in LiveCells(cells) <==>
              exists g :: 0 <= g < |cells| && !cells[g].dead && e == Entry(cells[g].id, cells[g].doc)
  {
    if cells != [] {
      var rest, live := cells[1..], LiveCells(cells[1..]);
      LiveCellsSpec(rest);
      forall i | 0 <= i < |live| ensures cells[0].id < live[i].id { assert live[i] in live; }
      forall e ensures e in LiveCells(cells) <==>
          exists g :: 0 <= g < |cells| && !cells[g].dead && e == Entry(cells[g].id, cells[g].doc) {
        if e in live {
          var g :| 0 <= g < |rest| && !rest[g].dead && e == Entry(rest[g].id, rest[g].doc);
          assert cells[g + 1] == rest[g];
        }
        if g :| 0 <= g < |cells| && !cells[g].dead && e == Entry(cells[g].id, cells[g].doc) {
          if g > 0 { assert rest[g - 1] == cells[g]; }
        }
      }
    }
  }

  /** The first segments stand at the front of all slots. */
  lemma PrefixSlots(s: State, n: nat)
    requires n <= |s.segments|
    ensures |Flatten(s.segments[..n])| <= |All(s)| && Flatten(s.segments[..n]) == All(s)[..|Flatten(s.segments[..n])|]
  {
    FlattenSplit(s.segments, n);
  }

  /** The live documents of the first `n` segments are those of the plain log exactly when they are captured. */
  lemma CapturedIff(s: State, n: nat)
    requires Inv(s) && n <= |s.segments|
    ensures LiveCells(Flatten(s.segments[..n])) == Replay(s.log) <==> Captured(s, n)
  {
    ViewIsReplay(s);
    if Captured(s, n) { CapturedReads(s, n); } else { NotCaptured(s, n); }
  }

  lemma CapturedReads(s: State, n: nat)
    requires Inv(s) && n <= |s.segments| && Captured(s, n)
    ensures LiveCells(Flatten(s.segments[..n])) == View(s)
  {
    hide Inv, Flatten, Hit;
    var cells, a := Flatten(s.segments[..n]), All(s);
    var l, v := LiveCells(cells), View(s);
    SortedSlots(s);
    PrefixSlots(s, n);
    assert forall i :: 0 <= i < |cells| ==> cells[i] == a[i];
    LiveCellsSpec(cells);
    VisibleSpec(s, |a|);
    forall i | 0 <= i < |l| ensures l[i] in v {
      assert l[i] in l;
      var g :| 0 <= g < |cells| && !cells[g].dead && l[i] == Entry(cells[g].id, cells[g].doc);
      assert !Gone(s, g) && l[i] == Entry(a[g].id, a[g].doc);
    }
    forall i | 0 <= i < |v| ensures v[i] in l {
      assert v[i] in v;
      var g :| 0 <= g < |a| && !Gone(s, g) && v[i] == Entry(a[g].id, a[g].doc);
      assert g < |cells| && !cells[g].dead && v[i] == Entry(cells[g].id, cells[g].doc);
    }
    IncreasingUnique(l, v);
  }

  lemma SortedSlots(s: State)
    requires Inv(s)
    ensures Sorted(All(s))
  {
  }

  /** A document that is live though its delete is waiting, or that survives where the commit does not look. */
  lemma NotCaptured(s: State, n: nat)
    requires Inv(s) && n <= |s.segments| && !Captured(s, n)
    ensures LiveCells(Flatten(s.segments[..n])) != View(s)
  {
    hide Inv, Flatten, Hit;
    var cells, a := Flatten(s.segments[..n]), All(s);
    SortedSlots(s);
    PrefixSlots(s, n);
    assert forall i :: 0 <= i < |cells| ==> cells[i] == a[i];
    LiveCellsSpec(cells);
    VisibleSpec(s, |a|);
    if g :| |cells| <= g < |a| && !Gone(s, g) {
      var e := Entry(a[g].id, a[g].doc);
      assert e in View(s);
      assert forall h :: 0 <= h < |cells| ==> cells[h].id < a[g].id;
      assert e !in LiveCells(cells);
    } else {
      var g :| 0 <= g < |cells| && !cells[g].dead
               && (Hit(s.flushed, cells[g].doc, g) || Hit(s.inRAM, cells[g].doc, g));
      var e := Entry(cells[g].id, cells[g].doc);
      assert e in LiveCells(cells) && Gone(s, g);
      assert forall h :: 0 <= h < |a| && a[h].id == a[g].id ==> h == g;
      assert e !in View(s);
    }
  }

  /** In every run: a commit that keeps the first `n` segments as they stand reads as the log exactly when no buffered
      delete reaches a live document of theirs and none that survives stands in RAM or in a segment that is left out. */
  lemma CommitReadsLogIff(es: seq<Event>, n: nat)
    requires n <= |Run(es).segments|
    ensures LiveCells(Flatten(Run(es).segments[..n])) == Replay(Run(es).log) <==> Captured(Run(es), n)
  {
    RunKeeps(es);
    CapturedIff(Run(es), n);
  }

  /** That is so right after prepareCommit's flush, if every thread was idle. */
  lemma FlushedIsCaptured(es: seq<Event>)
    requires Run(es).inFlight == {}
    ensures var s := ApplyDeletes(Flush(Run(es))); Captured(s, |s.segments|) && s.log == Run(es).log
  {
    var s := ApplyDeletes(Flush(Run(es)));
    RunKeeps(es);
    FlushKeeps(Run(es));
    ApplyKeeps(Flush(Run(es)));
    FlushedIndexIsReplay(es);
    assert s.segments[..|s.segments|] == s.segments;
    CapturedIff(s, |s.segments|);
  }
}
