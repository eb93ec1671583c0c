/**
 The invariant of the index writer, kept by every event, and what it gives over whole
 runs: the documents a reader finds are those of the sequential reading of the log.
 */
module IndexRuns {
  import opened Sequences
  import opened OperationLog
  import opened IndexState

  ghost predicate AtLeast(d: Deletes, lo: int) {
    && (forall t :: t in d.terms ==> lo <= d.terms[t])
    && (forall q :: q in d.queries ==> lo <= d.queries[q])
    && (forall i :: 0 <= i < |d.docIDs| ==> lo <= d.docIDs[i])
  }

  ghost predicate AtMost(d: Deletes, hi: int) {
    && (forall t :: t in d.terms ==> d.terms[t] <= hi)
    && (forall q :: q in d.queries ==> d.queries[q] <= hi)
    && (forall i :: 0 <= i < |d.docIDs| ==> d.docIDs[i] < hi)
  }

  function End(segs: seq<Segment>, i: nat): nat
    requires i < |segs|
  {
    |Flatten(segs[..i + 1])|
  }

  ghost predicate Sorted(cells: seq<Cell>) {
    forall i, j :: 0 <= i < j < |cells| ==> cells[i].id < cells[j].id
  }

  /** Every slot holds the document its log entry wrote. */
  ghost predicate Logged(s: State) {
    forall g :: 0 <= g < |All(s)| ==>
      var c := All(s)[g];
      c.id < |s.log| && s.log[c.id].Write? && s.log[c.id].doc == c.doc
  }

  /** A slot is gone, or about to be, exactly when the log says its document did not survive. */
  ghost predicate Agrees(s: State) {
    forall g :: 0 <= g < |All(s)| ==> (Gone(s, g) <==> !Survives(s.log, All(s)[g].id))
  }

  ghost predicate Holds(cells: seq<Cell>, k: nat) {
    exists g :: 0 <= g < |cells| && cells[g].id == k
  }

  /** No surviving document has been dropped. */
  ghost predicate Complete(s: State) {
    forall k: nat :: Survives(s.log, k) ==> Holds(All(s), k)
  }

  ghost predicate Buffered(s: State) {
    && s.flushedDocCount == |Flatten(s.segments)|
    && AtMost(s.flushed, s.flushedDocCount)
    && AtLeast(s.inRAM, s.flushedDocCount) && AtMost(s.inRAM, |All(s)|)
    && (forall i :: 0 <= i < |s.ram| ==> !s.ram[i].dead)
    && (forall i :: i in s.inFlight ==> i < |s.ram|)
  }

  ghost predicate Named(s: State) {
    && (forall i :: 0 <= i < |s.segments| ==> s.segments[i].name < s.nextName)
    && (forall i, j :: 0 <= i < j < |s.segments| ==> s.segments[i].name != s.segments[j].name)
  }

  ghost predicate SnapOf(cells: seq<Cell>, snap: seq<bool>) {
    |snap| == |cells| && forall k :: 0 <= k < |cells| && snap[k] ==> cells[k].dead
  }

  /** A merge that has begun only ever sees buffered bounds beyond its own documents,
      and what its readers saw deleted stays deleted. */
  ghost predicate MergeOk(s: State, m: Merge) {
    && (m.begun ==>
          forall i :: 0 <= i < |s.segments| && s.segments[i].name in m.names ==>
            AtLeast(s.flushed, End(s.segments, i)))
    && |m.snaps| <= |m.names| && (m.snaps != [] ==> m.begun)
    && (forall n :: n in m.names ==> n < s.nextName)
    && (forall i, j :: 0 <= i < |s.segments| && 0 <= j < |m.snaps| && s.segments[i].name == m.names[j]
          ==> SnapOf(s.segments[i].cells, m.snaps[j]))
  }

  ghost predicate MergesOk(s: State) {
    && (forall m :: m in s.merges ==> MergeOk(s, s.merges[m]))
    && (forall m, m' :: m in s.merges && m' in s.merges && m != m' ==>
          forall x :: x in s.merges[m].names ==> x !in s.merges[m'].names)
  }

  ghost predicate Inv(s: State) {
    Sorted(All(s)) && Logged(s) && Agrees(s) && Complete(s) && Buffered(s) && Named(s) && MergesOk(s)
  }

  // ---------- buffering deletes ----------

  lemma AddTermHits(d: Deletes, t: Term, bound: int, doc: Doc, g: int)
    requires AtMost(d, bound)
    ensures Hit(AddTerm(d, t, bound), doc, g) <==> Hit(d, doc, g) || (t in doc.terms && g < bound)
  {
    var d' := AddTerm(d, t, bound);
    assert d'.terms[t] == bound;
    if t in doc.terms && g < bound {
      assert t in d'.terms;
    }
    if Hit(d, doc, g) && exists u :: u in doc.terms && u in d.terms && g < d.terms[u] {
      var u :| u in doc.terms && u in d.terms && g < d.terms[u];
      assert u in d'.terms && g < d'.terms[u];
    }
  }

  lemma AddQueryHits(d: Deletes, q: Query, bound: int, doc: Doc, g: int)
    requires AtMost(d, bound)
    ensures Hit(AddQuery(d, q, bound), doc, g) <==> Hit(d, doc, g) || (q in doc.matchedBy && g < bound)
  {
    var d' := AddQuery(d, q, bound);
    if q in doc.matchedBy && g < bound {
      assert q in d'.queries && g < d'.queries[q];
    }
    if Hit(d, doc, g) && exists u :: u in doc.matchedBy && u in d.queries && g < d.queries[u] {
      var u :| u in doc.matchedBy && u in d.queries && g < d.queries[u];
      assert u in d'.queries && g < d'.queries[u];
    }
  }

  lemma AbsorbHits(into: Deletes, from: Deletes, mid: int, doc: Doc, g: int)
    requires AtMost(into, mid) && AtLeast(from, mid)
    ensures Hit(Absorb(into, from), doc, g) <==> Hit(into, doc, g) || Hit(from, doc, g)
  {
    var d := Absorb(into, from);
    if exists t :: t in doc.terms && t in into.terms && g < into.terms[t] {
      var t :| t in doc.terms && t in into.terms && g < into.terms[t];
      assert t in d.terms && g < d.terms[t];
    }
    if exists t :: t in doc.terms && t in from.terms && g < from.terms[t] {
      var t :| t in doc.terms && t in from.terms && g < from.terms[t];
      assert t in d.terms && g < d.terms[t];
    }
    if exists q :: q in doc.matchedBy && q in into.queries && g < into.queries[q] {
      var q :| q in doc.matchedBy && q in into.queries && g < into.queries[q];
      assert q in d.queries && g < d.queries[q];
    }
    if exists q :: q in doc.matchedBy && q in from.queries && g < from.queries[q] {
      var q :| q in doc.matchedBy && q in from.queries && g < from.queries[q];
      assert q in d.queries && g < d.queries[q];
    }
  }

  lemma BeyondBounds(d: Deletes, hi: int, doc: Doc, g: int)
    requires AtMost(d, hi) && hi <= g
    ensures !Hit(d, doc, g)
  {
  }

  /** An appended operation kills what it kills, and nothing else. */
  lemma AppendSurvives(log: seq<Op>, op: Op, k: nat)
    requires k < |log| && log[k].Write?
    ensures Survives(log + [op], k) <==> Survives(log, k) && !Kills(op, log[k].doc)
  {
    var log' := log + [op];
    assert log'[k] == log[k];
    if Survives(log, k) && !Kills(op, log[k].doc) {
      forall j | k < j < |log'| ensures !Kills(log'[j], log'[k].doc) {
        if j < |log| { assert log'[j] == log[j]; }
      }
    }
    if Survives(log', k) {
      forall j | k < j < |log| ensures !Kills(log[j], log[k].doc) {
        assert log'[j] == log[j];
      }
      assert log'[|log|] == op;
    }
  }

  // ---------- the events that buffer ----------

  /** `s'` appends `op` to the log and, for a write, its document to the slots. */
  ghost predicate Appends(s: State, s': State, op: Op) {
    && s'.log == s.log + [op]
    && (op.Write? ==> op.ok)
    && All(s') == All(s) + (if op.Write? then [Cell(|s.log|, op.doc, false)] else [])
    && (forall g :: 0 <= g < |All(s)| ==> (Gone(s', g) <==> Gone(s, g) || Kills(op, All(s)[g].doc)))
    && (op.Write? ==> !Gone(s', |All(s)|))
  }

  lemma AppendedAgrees(s: State, s': State, op: Op)
    requires Logged(s) && Agrees(s) && Appends(s, s', op)
    ensures Agrees(s')
  {
    var a, a' := All(s), All(s');
    forall g | 0 <= g < |a'| ensures Gone(s', g) <==> !Survives(s'.log, a'[g].id) {
      if g < |a| {
        AppendSurvives(s.log, op, a[g].id);
        assert a'[g] == a[g];
      } else {
        assert s'.log[|s.log|] == op;
      }
    }
  }

  lemma AppendedComplete(s: State, s': State, op: Op)
    requires Complete(s) && Appends(s, s', op)
    ensures Complete(s')
  {
    var a, a' := All(s), All(s');
    forall k: nat | Survives(s'.log, k) ensures Holds(a', k) {
      if k < |s.log| {
        assert s.log[k] == s'.log[k];
        AppendSurvives(s.log, op, k);
        assert Holds(a, k);
        var g :| 0 <= g < |a| && a[g].id == k;
        assert a'[g] == a[g];
      } else {
        assert a'[|a|].id == k;
      }
    }
  }

  lemma AppendedSlots(s: State, s': State, op: Op)
    requires Sorted(All(s)) && Logged(s) && Appends(s, s', op)
    ensures Sorted(All(s')) && Logged(s')
  {
    var a, a' := All(s), All(s');
    forall g | 0 <= g < |a'|
      ensures a'[g].id < |s'.log| && s'.log[a'[g].id].Write? && s'.log[a'[g].id].doc == a'[g].doc
    {
      if g < |a| { assert a'[g] == a[g] && s'.log[a[g].id] == s.log[a[g].id]; }
    }
    forall i, j | 0 <= i < j < |a'| ensures a'[i].id < a'[j].id {
      assert a'[i] == a[i];
      if j < |a| { assert a'[j] == a[j]; }
    }
  }

  lemma AppendKeeps(s: State, s': State, op: Op)
    requires Inv(s) && Appends(s, s', op)
    ensures Sorted(All(s')) && Logged(s') && Agrees(s') && Complete(s')
  {
    AppendedSlots(s, s', op);
    AppendedAgrees(s, s', op);
    AppendedComplete(s, s', op);
  }

  lemma MergesKept(s: State, s': State)
    requires MergesOk(s)
    requires s'.segments == s.segments && s'.flushed == s.flushed && s'.merges == s.merges && s'.nextName == s.nextName
    ensures MergesOk(s')
  {
    forall m | m in s.merges ensures MergeOk(s', s'.merges[m]) {
      assert MergeOk(s, s.merges[m]);
    }
  }

  lemma StartWriteKeeps(s: State, del: Option<Term>, doc: Doc)
    requires Inv(s)
    ensures Inv(StartWrite(s, del, doc))
  {
    var s' := StartWrite(s, del, doc);
    var n := |All(s)|;
    var op := Write(del, doc, true);
    assert All(s') == All(s) + [Cell(|s.log|, doc, false)];
    forall g | 0 <= g <= n
      ensures Hit(s'.inRAM, All(s')[g].doc, g) <==>
              Hit(s.inRAM, All(s')[g].doc, g) || (g < n && Kills(op, All(s')[g].doc))
    {
      if del.Some? { AddTermHits(s.inRAM, del.value, n, All(s')[g].doc, g); }
    }
    BeyondBounds(s.inRAM, n, doc, n);
    BeyondBounds(s.flushed, s.flushedDocCount, doc, n);
    AppendKeeps(s, s', op);
    MergesKept(s, s');
  }

  lemma BufferTermKeeps(s: State, t: Term)
    requires Inv(s)
    ensures Inv(BufferTerm(s, t))
  {
    var s' := BufferTerm(s, t);
    var n := |All(s)|;
    forall g | 0 <= g < n ensures Gone(s', g) <==> Gone(s, g) || t in All(s)[g].doc.terms {
      AddTermHits(s.inRAM, t, n, All(s)[g].doc, g);
    }
    AppendKeeps(s, s', DeleteTerm(t));
    MergesKept(s, s');
  }

  lemma BufferQueryKeeps(s: State, q: Query)
    requires Inv(s)
    ensures Inv(BufferQuery(s, q))
  {
    var s' := BufferQuery(s, q);
    var n := |All(s)|;
    forall g | 0 <= g < n ensures Gone(s', g) <==> Gone(s, g) || q in All(s)[g].doc.matchedBy {
      AddQueryHits(s.inRAM, q, n, All(s)[g].doc, g);
    }
    AppendKeeps(s, s', DeleteQuery(q));
    MergesKept(s, s');
  }

  /** A failed write no longer survives; every other write fares as before. */
  lemma FailSurvives(log: seq<Op>, k0: nat, k: nat)
    requires k0 < |log| && log[k0].Write?
    ensures Survives(log[k0 := log[k0].(ok := false)], k) <==> Survives(log, k) && k != k0
  {
    var log' := log[k0 := log[k0].(ok := false)];
    if k < |log| && k != k0 && log[k].Write? {
      assert forall j :: 0 <= j < |log| ==> (Kills(log'[j], log[k].doc) <==> Kills(log[j], log[k].doc));
    }
  }

  lemma FailKeeps(s: State, i: nat)
    requires Inv(s)
    ensures Inv(Fail(s, i))
  {
    hide MergesOk;
    var s' := Fail(s, i);
    if s' != s {
      var g0 := s.flushedDocCount + i;
      var k0 := s.ram[i].id;
      assert All(s)[g0] == s.ram[i] && All(s') == All(s);
      forall k: nat ensures Survives(s'.log, k) <==> Survives(s.log, k) && k != k0 {
        FailSurvives(s.log, k0, k);
      }
      hide Survives;
      forall g | 0 <= g < |All(s)| ensures Gone(s', g) <==> !Survives(s'.log, All(s)[g].id) {
        assert Hit(s'.inRAM, All(s)[g].doc, g) <==> Hit(s.inRAM, All(s)[g].doc, g) || g == g0;
      }
      MergesKept(s, s');
    }
  }

  lemma FinishKeeps(s: State, i: nat)
    requires Inv(s)
    ensures Inv(Finish(s, i))
  {
    var s' := Finish(s, i);
    assert All(s') == All(s);
    assert forall g :: 0 <= g < |All(s)| ==> (Gone(s', g) <==> Gone(s, g));
    MergesKept(s, s');
  }

  // ---------- flush and apply ----------

  lemma {:induction false} FlattenAppend(a: seq<Segment>, b: seq<Segment>)
    ensures Flatten(a + b) == Flatten(a) + Flatten(b)
  {
    if a == [] {
      assert a + b == b;
    } else {
      FlattenAppend(a[1..], b);
      TailOfAppend(a, b);
      Associate(a[0].cells, Flatten(a[1..]), Flatten(b));
    }
  }

  lemma FlattenSplit(segs: seq<Segment>, i: nat)
    requires i <= |segs|
    ensures Flatten(segs) == Flatten(segs[..i]) + Flatten(segs[i..])
  {
    assert segs == segs[..i] + segs[i..];
    FlattenAppend(segs[..i], segs[i..]);
  }

  lemma EndWithin(segs: seq<Segment>, i: nat)
    requires i < |segs|
    ensures End(segs, i) <= |Flatten(segs)|
  {
    FlattenSplit(segs, i + 1);
  }

  lemma AbsorbAtLeast(into: Deletes, from: Deletes, lo: int)
    requires AtLeast(into, lo) && AtLeast(from, lo)
    ensures AtLeast(Absorb(into, from), lo)
  {
  }

  lemma AtLeastWeaken(d: Deletes, lo: int, lo': int)
    requires AtLeast(d, lo) && lo' <= lo
    ensures AtLeast(d, lo')
  {
  }

  /** Pushing the deletes: they now stand at or beyond every segment flushed before. */
  lemma FlushMergesOk(s: State)
    requires Inv(s) && s.inFlight == {}
    ensures MergesOk(Flush(s))
  {
    var s' := Flush(s);
    forall m | m in s.merges ensures MergeOk(s', s'.merges[m]) {
      var mg := s.merges[m];
      assert MergeOk(s, mg);
      forall i | 0 <= i < |s'.segments| && s'.segments[i].name in mg.names
        ensures i < |s.segments| && s'.segments[i] == s.segments[i]
        ensures mg.begun ==> AtLeast(s'.flushed, End(s'.segments, i))
      {
        assert i < |s.segments| && s'.segments[..i + 1] == s.segments[..i + 1];
        if mg.begun {
          EndWithin(s.segments, i);
          AtLeastWeaken(s.inRAM, s.flushedDocCount, End(s.segments, i));
          AbsorbAtLeast(s.flushed, s.inRAM, End(s.segments, i));
        }
      }
      forall i, j | 0 <= i < |s'.segments| && 0 <= j < |mg.snaps| && s'.segments[i].name == mg.names[j]
        ensures SnapOf(s'.segments[i].cells, mg.snaps[j])
      {
        assert s'.segments[i].name in mg.names;
      }
    }
  }

  /** The buffered documents become a segment: no slot moves. */
  lemma FlushSlots(s: State)
    requires s.inFlight == {}
    ensures All(Flush(s)) == All(s) && Flush(s).log == s.log
    ensures |Flatten(Flush(s).segments)| == |Flatten(s.segments)| + |s.ram|
  {
    FlattenAppend(s.segments, [Segment(s.nextName, s.ram)]);
    assert Flatten([Segment(s.nextName, s.ram)]) == s.ram;
  }

  lemma FlushBuffered(s: State)
    requires Buffered(s) && Named(s) && s.inFlight == {}
    ensures Buffered(Flush(s)) && Named(Flush(s))
  {
    FlushSlots(s);
    hide Flatten;
  }

  lemma FlushAgrees(s: State)
    requires Buffered(s) && Agrees(s) && s.inFlight == {}
    ensures Agrees(Flush(s))
  {
    FlushSlots(s);
    hide Flatten, Flush, Absorb;
    forall g | 0 <= g < |All(s)| ensures Gone(Flush(s), g) <==> Gone(s, g) {
      FlushGone(s, g);
    }
  }

  lemma FlushGone(s: State, g: nat)
    requires Buffered(s) && s.inFlight == {} && g < |All(s)|
    ensures g < |All(Flush(s))| && (Gone(Flush(s), g) <==> Gone(s, g))
  {
    FlushSlots(s);
    hide Flatten, All;
    AbsorbHits(s.flushed, s.inRAM, s.flushedDocCount, All(s)[g].doc, g);
  }

  lemma FlushKeeps(s: State)
    requires Inv(s)
    ensures Inv(Flush(s))
  {
    if s.inFlight == {} {
      hide MergesOk, Sorted, Survives, Buffered, Named, Agrees, All, Flush;
      FlushSlots(s);
      FlushBuffered(s);
      FlushAgrees(s);
      FlushMergesOk(s);
    }
  }

  /** `cells` after the deletes `d` were applied to documents numbered from `start`. */
  ghost predicate Applied(cells: seq<Cell>, cells': seq<Cell>, d: Deletes, start: int) {
    && |cells'| == |cells|
    && forall k :: 0 <= k < |cells| ==>
         cells'[k] == cells[k].(dead := cells[k].dead || Hit(d, cells[k].doc, start + k))
  }

  lemma {:induction false} ApplyAllSpec(segs: seq<Segment>, d: Deletes, start: int)
    ensures var segs' := ApplyAll(segs, d, start);
      && |segs'| == |segs|
      && Applied(Flatten(segs), Flatten(segs'), d, start)
      && (forall i :: 0 <= i < |segs| ==> segs'[i].name == segs[i].name && |segs'[i].cells| == |segs[i].cells|)
      && (forall i, k :: 0 <= i < |segs| && 0 <= k < |segs[i].cells| && segs[i].cells[k].dead ==>
         segs'[i].cells[k].dead)
  {
    if segs != [] {
      var segs' := ApplyAll(segs, d, start);
      var n := |segs[0].cells|;
      ApplyAllSpec(segs[1..], d, start + n);
      assert segs'[1..] == ApplyAll(segs[1..], d, start + n);
      var f, f' := Flatten(segs), Flatten(segs');
      var r, r' := Flatten(segs[1..]), Flatten(segs'[1..]);
      forall k | 0 <= k < |f| ensures f'[k] == f[k].(dead := f[k].dead || Hit(d, f[k].doc, start + k)) {
        if k >= n {
          assert f[k] == r[k - n] && f'[k] == r'[k - n];
          assert start + n + (k - n) == start + k;
        }
      }
      forall i | 0 <= i < |segs|
        ensures segs'[i].name == segs[i].name && |segs'[i].cells| == |segs[i].cells|
        ensures forall k :: 0 <= k < |segs[i].cells| && segs[i].cells[k].dead ==> segs'[i].cells[k].dead
      {
        if i > 0 { assert segs[i] == segs[1..][i - 1] && segs'[i] == segs'[1..][i - 1]; }
      }
    }
  }

  lemma NothingHit(doc: Doc, g: int)
    ensures !Hit(NO_DELETES, doc, g)
  {
  }

  lemma ApplyMergesOk(s: State)
    requires MergesOk(s)
    ensures MergesOk(ApplyDeletes(s))
  {
    var s' := ApplyDeletes(s);
    ApplyAllSpec(s.segments, s.flushed, 0);
    forall m | m in s.merges ensures MergeOk(s', s'.merges[m]) {
      var mg := s.merges[m];
      assert MergeOk(s, mg);
      forall i, j | 0 <= i < |s'.segments| && 0 <= j < |mg.snaps| && s'.segments[i].name == mg.names[j]
        ensures SnapOf(s'.segments[i].cells, mg.snaps[j])
      {
        assert SnapOf(s.segments[i].cells, mg.snaps[j]);
      }
    }
  }

  lemma ApplyKeeps(s: State)
    requires Inv(s)
    ensures Inv(ApplyDeletes(s))
  {
    hide MergesOk;
    var s' := ApplyDeletes(s);
    ApplyAllSpec(s.segments, s.flushed, 0);
    var a, a' := All(s), All(s');
    forall g | 0 <= g < |a|
      ensures a'[g].id == a[g].id && a'[g].doc == a[g].doc
      ensures Gone(s', g) <==> Gone(s, g)
    {
      NothingHit(a[g].doc, g);
      if g >= s.flushedDocCount { BeyondBounds(s.flushed, s.flushedDocCount, a[g].doc, g); }
    }
    forall k: nat | Survives(s'.log, k) ensures Holds(a', k) {
      assert Holds(a, k);
      var g :| 0 <= g < |a| && a[g].id == k;
      assert a'[g].id == k;
    }
    ApplyMergesOk(s);
  }

  // ---------- merges ----------

  lemma SameSlotsKeep(s: State, s': State)
    requires Inv(s)
    requires s' == s.(merges := s'.merges) && MergesOk(s')
    ensures Inv(s')
  {
    assert All(s') == All(s);
    assert forall g :: 0 <= g < |All(s)| ==> (Gone(s', g) <==> Gone(s, g));
  }

  lemma RegisterKeeps(s: State, m: nat, f: nat, n: nat)
    requires Inv(s)
    ensures Inv(Register(s, m, f, n))
  {
    var s' := Register(s, m, f, n);
    if s' != s {
      forall x | x in s'.merges ensures MergeOk(s', s'.merges[x]) {
        if x in s.merges { assert MergeOk(s, s.merges[x]); }
      }
      var names := s'.merges[m].names;
      forall x | x in names ensures !Merging(s, x) {
        var j :| 0 <= j < |names| && names[j] == x;
        assert !Merging(s, s.segments[f + j].name);
      }
      forall a, b | a in s'.merges && b in s'.merges && a != b
        ensures forall x :: x in s'.merges[a].names ==> x !in s'.merges[b].names
      {
        forall x | x in s'.merges[a].names ensures x !in s'.merges[b].names {
          if a == m { assert !Merging(s, x); }
          if b == m { assert Merging(s, x); }
        }
      }
      SameSlotsKeep(s, s');
    }
  }

  /** Only one merge's record changes, and it stays consistent. */
  lemma MergeUpdated(s: State, m: nat, mg: Merge)
    requires MergesOk(s) && m in s.merges && mg.names == s.merges[m].names && MergeOk(s, mg)
    ensures MergesOk(s.(merges := s.merges[m := mg]))
  {
    var s' := s.(merges := s.merges[m := mg]);
    forall x | x in s'.merges ensures MergeOk(s', s'.merges[x]) {
      assert MergeOk(s, s'.merges[x]);
    }
    assert forall x :: x in s'.merges ==> s'.merges[x].names == s.merges[x].names;
  }

  lemma BeginKeeps(s: State, m: nat)
    requires Inv(s)
    ensures Inv(Begin(s, m))
  {
    var s' := Begin(s, m);
    if s' != s {
      ApplyKeeps(s);
      var a := ApplyDeletes(s);
      BegunOk(a, a.merges[m]);
      MergeUpdated(a, m, a.merges[m].(begun := true));
      SameSlotsKeep(a, s');
    }
  }

  /** With nothing buffered for the flushed segments, a merge may begin. */
  lemma BegunOk(s: State, mg: Merge)
    requires MergeOk(s, mg) && s.flushed == NO_DELETES
    ensures MergeOk(s, mg.(begun := true))
  {
  }

  lemma CloneKeeps(s: State, m: nat, i: nat)
    requires Inv(s)
    ensures Inv(CloneReader(s, m, i))
  {
    var s' := CloneReader(s, m, i);
    if s' != s {
      ClonedOk(s, s.merges[m], i);
      MergeUpdated(s, m, s'.merges[m]);
      SameSlotsKeep(s, s');
    }
  }

  lemma ClonedOk(s: State, mg: Merge, i: nat)
    requires Named(s) && MergeOk(s, mg) && mg.begun && |mg.snaps| < |mg.names|
    requires i < |s.segments| && s.segments[i].name == mg.names[|mg.snaps|]
    ensures MergeOk(s, mg.(snaps := mg.snaps + [DeadFlags(s.segments[i].cells)]))
  {
    var mg' := mg.(snaps := mg.snaps + [DeadFlags(s.segments[i].cells)]);
    forall k, j | 0 <= k < |s.segments| && 0 <= j < |mg'.snaps| && s.segments[k].name == mg'.names[j]
      ensures SnapOf(s.segments[k].cells, mg'.snaps[j])
    {
      if j == |mg.snaps| { assert k == i; }
    }
  }

  lemma AbortMergeKeeps(s: State, m: nat)
    requires Inv(s)
    ensures Inv(AbortMerge(s, m))
  {
    var s' := AbortMerge(s, m);
    forall x | x in s'.merges ensures MergeOk(s', s'.merges[x]) {
      assert MergeOk(s, s.merges[x]);
    }
    SameSlotsKeep(s, s');
  }

  /** `kept` is `cells` with some of its dead cells taken out. */
  ghost predicate Thins(cells: seq<Cell>, kept: seq<Cell>) {
    && (forall p :: 0 <= p < |kept| ==> kept[p] in cells)
    && (forall g :: 0 <= g < |cells| ==> cells[g] in kept || cells[g].dead)
    && (Sorted(cells) ==> Sorted(kept))
  }

  lemma ThinsAppend(a: seq<Cell>, b: seq<Cell>, a': seq<Cell>, b': seq<Cell>)
    requires Thins(a, a') && Thins(b, b')
    ensures Thins(a + b, a' + b')
  {
    var c, c' := a + b, a' + b';
    forall g | 0 <= g < |c| ensures c[g] in c' || c[g].dead {
      if g < |a| { assert c[g] == a[g]; } else { assert c[g] == b[g - |a|]; }
    }
    if Sorted(c) {
      assert Sorted(a) by { assert forall i :: 0 <= i < |a| ==> c[i] == a[i]; }
      assert Sorted(b) by { assert forall i :: 0 <= i < |b| ==> c[|a| + i] == b[i]; }
      forall i, j | 0 <= i < j < |c'| ensures c'[i].id < c'[j].id {
        if i < |a'| && j >= |a'| {
          assert a'[i] in a && b'[j - |a'|] in b;
          var x :| 0 <= x < |a| && a[x] == a'[i];
          var y :| 0 <= y < |b| && b[y] == b'[j - |a'|];
          assert c[x].id < c[|a| + y].id;
        }
      }
    }
  }

  lemma {:induction false} KeepSpec(cells: seq<Cell>, snap: seq<bool>)
    requires SnapOf(cells, snap)
    ensures Thins(cells, Keep(cells, snap))
    ensures |Keep(cells, snap)| == CountLive(snap)
  {
    if cells != [] {
      KeepSpec(cells[1..], snap[1..]);
      var head := if snap[0] then [] else [cells[0]];
      ThinsAppend(cells[..1], cells[1..], head, Keep(cells[1..], snap[1..]));
      assert cells == cells[..1] + cells[1..];
    }
  }

  lemma {:induction false} MergedSpec(segs: seq<Segment>, snaps: seq<seq<bool>>)
    requires Fits(segs, snaps)
    requires forall j :: 0 <= j < |segs| ==> SnapOf(segs[j].cells, snaps[j])
    ensures Thins(Flatten(segs), Merged(segs, snaps))
    ensures |Merged(segs, snaps)| == Live(snaps) && |Flatten(segs)| == Size(snaps)
  {
    if segs != [] {
      KeepSpec(segs[0].cells, snaps[0]);
      MergedSpec(segs[1..], snaps[1..]);
      ThinsAppend(segs[0].cells, Flatten(segs[1..]), Keep(segs[0].cells, snaps[0]), Merged(segs[1..], snaps[1..]));
    }
  }

  function Shift(d: Deletes, n: int): Deletes {
    Deletes(map t | t in d.terms :: d.terms[t] - n,
            map q | q in d.queries :: d.queries[q] - n,
            seq(|d.docIDs|, i requires 0 <= i < |d.docIDs| => d.docIDs[i] - n))
  }

  /** Bounds beyond the merged documents move down by the number of documents dropped. */
  lemma RemapBeyond(d: Deletes, snaps: seq<seq<bool>>, min: int)
    requires AtLeast(d, min + Size(snaps))
    ensures RemapAll(d, snaps, min) == Shift(d, Size(snaps) - Live(snaps))
  {
    hide Size, Live;
    var r, d' := RemapAll(d, snaps, min), Shift(d, Size(snaps) - Live(snaps));
    assert r.terms == d'.terms;
    assert r.queries == d'.queries;
    assert r.docIDs == d'.docIDs;
  }

  lemma ShiftHits(d: Deletes, n: int, max: int, doc: Doc, g: int, g': int)
    requires AtLeast(d, max)
    requires (g < max && g' < max - n) || (max <= g && g' == g - n)
    ensures Hit(Shift(d, n), doc, g') <==> Hit(d, doc, g)
  {
    var d' := Shift(d, n);
    if exists t :: t in doc.terms && t in d.terms && g < d.terms[t] {
      var t :| t in doc.terms && t in d.terms && g < d.terms[t];
      assert t in d'.terms && g' < d'.terms[t];
    }
    if exists q :: q in doc.matchedBy && q in d.queries && g < d.queries[q] {
      var q :| q in doc.matchedBy && q in d.queries && g < d.queries[q];
      assert q in d'.queries && g' < d'.queries[q];
    }
    if g in d.docIDs {
      var i :| 0 <= i < |d.docIDs| && d.docIDs[i] == g;
      assert d'.docIDs[i] == g';
    }
    if g' in d'.docIDs {
      var i :| 0 <= i < |d'.docIDs| && d'.docIDs[i] == g';
      assert d.docIDs[i] == g;
    }
  }

  lemma ThreeParts(segs: seq<Segment>, f: nat, n: nat)
    requires f + n <= |segs|
    ensures Flatten(segs) == Flatten(segs[..f]) + Flatten(segs[f..f + n]) + Flatten(segs[f + n..])
  {
    FlattenSplit(segs, f + n);
    FlattenSplit(segs[..f + n], f);
    assert segs[..f + n][..f] == segs[..f] && segs[..f + n][f..] == segs[f..f + n];
  }

  lemma ReplacedParts(before: seq<Segment>, merged: Segment, after: seq<Segment>)
    ensures Flatten(before + [merged] + after) == Flatten(before) + merged.cells + Flatten(after)
  {
    FlattenAppend(before + [merged], after);
    FlattenAppend(before, [merged]);
    assert [merged][1..] == [];
  }

  /** The cells of a merge ready to commit: what its sources hold, and what it keeps of them. */
  function Sources(s: State, m: nat, f: nat): seq<Segment>
    requires Ready(s, m, f)
  {
    s.segments[f..f + |s.merges[m].names|]
  }

  function Kept(s: State, m: nat, f: nat): seq<Cell>
    requires Ready(s, m, f)
  {
    Merged(Sources(s, m, f), s.merges[m].snaps)
  }

  lemma CommitThins(s: State, m: nat, f: nat)
    requires Inv(s) && Ready(s, m, f)
    ensures Thins(Flatten(Sources(s, m, f)), Kept(s, m, f))
    ensures |Flatten(Sources(s, m, f))| == Size(s.merges[m].snaps) && |Kept(s, m, f)| == Live(s.merges[m].snaps)
  {
    var mg := s.merges[m];
    assert MergeOk(s, mg);
    forall j | 0 <= j < |mg.names| ensures SnapOf(Sources(s, m, f)[j].cells, mg.snaps[j]) {
      assert s.segments[f + j].name == mg.names[j];
    }
    MergedSpec(Sources(s, m, f), mg.snaps);
  }

  lemma CommitBeyond(s: State, m: nat, f: nat)
    requires Inv(s) && Ready(s, m, f)
    ensures var max := |Flatten(s.segments[..f])| + |Flatten(Sources(s, m, f))|;
      AtLeast(s.flushed, max) && AtLeast(s.inRAM, max)
  {
    var mg := s.merges[m];
    assert MergeOk(s, mg);
    var last := f + |mg.names| - 1;
    assert s.segments[last].name == mg.names[last - f];
    assert s.segments[..last + 1] == s.segments[..f] + Sources(s, m, f);
    FlattenAppend(s.segments[..f], Sources(s, m, f));
    EndWithin(s.segments, last);
    AtLeastWeaken(s.inRAM, s.flushedDocCount, End(s.segments, last));
  }

  /** The same slot before (`g`) and after (`g'`) the slots `b` in the middle became `b'`. */
  ghost predicate Moved(a: seq<Cell>, b: seq<Cell>, b': seq<Cell>, g: int, g': int) {
    || (0 <= g < |a| && g' == g)
    || (|a| <= g < |a| + |b| && |a| <= g' < |a| + |b'| && b'[g' - |a|] == b[g - |a|])
    || (|a| + |b| <= g && g' == g - (|b| - |b'|))
  }

  lemma MovedFrom(a: seq<Cell>, b: seq<Cell>, b': seq<Cell>, c: seq<Cell>, g': int) returns (g: int)
    requires Thins(b, b') && 0 <= g' < |a + b' + c|
    ensures 0 <= g < |a + b + c| && Moved(a, b, b', g, g') && (a + b + c)[g] == (a + b' + c)[g']
  {
    if g' < |a| {
      g := g';
    } else if g' < |a| + |b'| {
      assert b'[g' - |a|] in b;
      var x :| 0 <= x < |b| && b[x] == b'[g' - |a|];
      g := |a| + x;
    } else {
      g := g' + (|b| - |b'|);
    }
  }

  lemma MovedTo(a: seq<Cell>, b: seq<Cell>, b': seq<Cell>, c: seq<Cell>, g: int) returns (g': int)
    requires Thins(b, b') && 0 <= g < |a + b + c| && !(a + b + c)[g].dead
    ensures 0 <= g' < |a + b' + c| && Moved(a, b, b', g, g') && (a + b + c)[g] == (a + b' + c)[g']
  {
    if g < |a| {
      g' := g;
    } else if g < |a| + |b| {
      assert b[g - |a|] in b';
      var x :| 0 <= x < |b'| && b'[x] == b[g - |a|];
      g' := |a| + x;
    } else {
      g' := g - (|b| - |b'|);
    }
  }

  lemma MovedSorted(a: seq<Cell>, b: seq<Cell>, b': seq<Cell>, c: seq<Cell>)
    requires Thins(b, b') && Sorted(a + b + c)
    ensures Sorted(a + b' + c)
  {
    assert Thins(a, a) && Thins(c, c);
    ThinsAppend(a, b, a, b');
    ThinsAppend(a + b, c, a + b', c);
  }

  /** The slots before a merge, and those after it including the RAM buffer. */
  function Front(s: State, f: nat): seq<Cell>
    requires f <= |s.segments|
  {
    Flatten(s.segments[..f])
  }

  function Back(s: State, m: nat, f: nat): seq<Cell>
    requires Ready(s, m, f)
  {
    Flatten(s.segments[f + |s.merges[m].names|..]) + s.ram
  }

  /** What a committed merge does to the slots. */
  lemma CommitSlots(s: State, m: nat, f: nat)
    requires Ready(s, m, f)
    ensures All(s) == Front(s, f) + Flatten(Sources(s, m, f)) + Back(s, m, f)
    ensures All(CommitMerge(s, m, f)) == Front(s, f) + Kept(s, m, f) + Back(s, m, f)
    ensures |Flatten(CommitMerge(s, m, f).segments)| - |Kept(s, m, f)| ==
            |Flatten(s.segments)| - |Flatten(Sources(s, m, f))|
  {
    var n := |s.merges[m].names|;
    ThreeParts(s.segments, f, n);
    ReplacedParts(s.segments[..f], Segment(s.nextName, Kept(s, m, f)), s.segments[f + n..]);
    hide Flatten, Merged;
    var back := Flatten(s.segments[f + n..]);
    Associate(Front(s, f) + Flatten(Sources(s, m, f)), back, s.ram);
    Associate(Front(s, f) + Kept(s, m, f), back, s.ram);
  }

  function Dropped(s: State, m: nat, f: nat): int
    requires Ready(s, m, f)
  {
    |Flatten(Sources(s, m, f))| - |Kept(s, m, f)|
  }

  /** What a committed merge does to the buffered deletes. */
  lemma CommitShifts(s: State, m: nat, f: nat)
    requires Inv(s) && Ready(s, m, f)
    ensures var s' := CommitMerge(s, m, f);
      && s'.flushed == Shift(s.flushed, Dropped(s, m, f)) && s'.inRAM == Shift(s.inRAM, Dropped(s, m, f))
      && s'.flushedDocCount == s.flushedDocCount - Dropped(s, m, f)
  {
    hide Sorted, Logged, Agrees, Complete, Named, MergesOk;
    CommitThins(s, m, f);
    CommitBeyond(s, m, f);
    RemapBeyond(s.flushed, s.merges[m].snaps, |Front(s, f)|);
    RemapBeyond(s.inRAM, s.merges[m].snaps, |Front(s, f)|);
  }

  lemma CommitGone(s: State, m: nat, f: nat, g: int, g': int)
    requires Inv(s) && Ready(s, m, f)
    requires 0 <= g < |All(s)| && 0 <= g' < |All(CommitMerge(s, m, f))|
    requires Moved(Front(s, f), Flatten(Sources(s, m, f)), Kept(s, m, f), g, g')
    requires All(s)[g] == All(CommitMerge(s, m, f))[g']
    ensures Gone(s, g) <==> Gone(CommitMerge(s, m, f), g')
  {
    CommitShifts(s, m, f);
    CommitBeyond(s, m, f);
    var max := |Front(s, f)| + |Flatten(Sources(s, m, f))|;
    ShiftHits(s.flushed, Dropped(s, m, f), max, All(s)[g].doc, g, g');
    ShiftHits(s.inRAM, Dropped(s, m, f), max, All(s)[g].doc, g, g');
  }

  lemma CommitLogged(s: State, m: nat, f: nat, g': int)
    requires Inv(s) && Ready(s, m, f) && 0 <= g' < |All(CommitMerge(s, m, f))|
    ensures var x := All(CommitMerge(s, m, f))[g'];
      && x.id < |s.log| && s.log[x.id].Write? && s.log[x.id].doc == x.doc
      && (Gone(CommitMerge(s, m, f), g') <==> !Survives(s.log, x.id))
  {
    CommitSlots(s, m, f);
    CommitThins(s, m, f);
    var g := MovedFrom(Front(s, f), Flatten(Sources(s, m, f)), Kept(s, m, f), Back(s, m, f), g');
    CommitGone(s, m, f, g, g');
  }

  lemma CommitHolds(s: State, m: nat, f: nat, k: nat)
    requires Inv(s) && Ready(s, m, f) && Survives(s.log, k)
    ensures Holds(All(CommitMerge(s, m, f)), k)
  {
    CommitSlots(s, m, f);
    CommitThins(s, m, f);
    assert Holds(All(s), k);
    var g :| 0 <= g < |All(s)| && All(s)[g].id == k;
    assert !Gone(s, g);
    var g' := MovedTo(Front(s, f), Flatten(Sources(s, m, f)), Kept(s, m, f), Back(s, m, f), g);
    assert All(CommitMerge(s, m, f))[g'].id == k;
  }

  lemma CommitSlotsKeep(s: State, m: nat, f: nat)
    requires Inv(s) && Ready(s, m, f)
    ensures var s' := CommitMerge(s, m, f);
      Sorted(All(s')) && Logged(s') && Agrees(s') && Complete(s')
  {
    var s' := CommitMerge(s, m, f);
    CommitSlots(s, m, f);
    CommitThins(s, m, f);
    MovedSorted(Front(s, f), Flatten(Sources(s, m, f)), Kept(s, m, f), Back(s, m, f));
    forall g' | 0 <= g' < |All(s')|
      ensures var x := All(s')[g'];
        x.id < |s.log| && s.log[x.id].Write? && s.log[x.id].doc == x.doc && (Gone(s', g') <==> !Survives(s.log, x.id))
    {
      CommitLogged(s, m, f, g');
    }
    forall k: nat | Survives(s'.log, k) ensures Holds(All(s'), k) {
      CommitHolds(s, m, f, k);
    }
  }

  lemma ShiftAtLeast(d: Deletes, n: int, lo: int)
    requires AtLeast(d, lo)
    ensures AtLeast(Shift(d, n), lo - n)
  {
  }

  lemma ShiftAtMost(d: Deletes, n: int, hi: int)
    requires AtMost(d, hi)
    ensures AtMost(Shift(d, n), hi - n)
  {
  }

  lemma CommitBuffered(s: State, m: nat, f: nat)
    requires Inv(s) && Ready(s, m, f)
    ensures Buffered(CommitMerge(s, m, f))
  {
    CommitSlots(s, m, f);
    CommitShifts(s, m, f);
    ShiftAtMost(s.flushed, Dropped(s, m, f), s.flushedDocCount);
    ShiftAtMost(s.inRAM, Dropped(s, m, f), |All(s)|);
    ShiftAtLeast(s.inRAM, Dropped(s, m, f), s.flushedDocCount);
  }

  function Splice(segs: seq<Segment>, f: nat, n: nat, x: Segment): seq<Segment>
    requires f + n <= |segs|
  {
    segs[..f] + [x] + segs[f + n..]
  }

  lemma SpliceAt(segs: seq<Segment>, f: nat, n: nat, x: Segment, i: nat)
    requires f + n <= |segs| && i < |Splice(segs, f, n, x)|
    ensures Splice(segs, f, n, x)[i] == if i < f then segs[i] else if i == f then x else segs[i + n - 1]
  {
  }

  lemma SpliceNamed(segs: seq<Segment>, f: nat, n: nat, x: Segment)
    requires f + n <= |segs| && n > 0
    requires forall i :: 0 <= i < |segs| ==> segs[i].name < x.name
    requires forall i, j :: 0 <= i < j < |segs| ==> segs[i].name != segs[j].name
    ensures var t := Splice(segs, f, n, x);
      && (forall i :: 0 <= i < |t| ==> t[i].name <= x.name)
      && (forall i, j :: 0 <= i < j < |t| ==> t[i].name != t[j].name)
  {
    var t := Splice(segs, f, n, x);
    forall i, j | 0 <= i < j < |t| ensures t[i].name != t[j].name {
      SpliceAt(segs, f, n, x, i);
      SpliceAt(segs, f, n, x, j);
    }
    forall i | 0 <= i < |t| ensures t[i].name <= x.name {
      SpliceAt(segs, f, n, x, i);
    }
  }

  /** A segment before the splice ends where it did. */
  lemma SpliceEndBefore(segs: seq<Segment>, f: nat, n: nat, x: Segment, i: nat)
    requires f + n <= |segs| && i < f
    ensures End(Splice(segs, f, n, x), i) == End(segs, i) <= |Flatten(segs[..f])|
  {
    assert Splice(segs, f, n, x)[..i + 1] == segs[..i + 1];
    FlattenSplit(segs[..f], i + 1);
    assert segs[..f][..i + 1] == segs[..i + 1];
  }

  /** A segment after the splice moves by the documents taken out and put in. */
  lemma SpliceEndAfter(segs: seq<Segment>, f: nat, n: nat, x: Segment, i: nat)
    requires f + n <= i < |segs| && n > 0
    ensures End(Splice(segs, f, n, x), i - n + 1) == End(segs, i) - |Flatten(segs[f..f + n])| + |x.cells|
  {
    var pre := segs[..i + 1];
    assert pre[..f] == segs[..f] && pre[f..f + n] == segs[f..f + n] && pre[f + n..] == segs[f + n..i + 1];
    ThreeParts(pre, f, n);
    ReplacedParts(segs[..f], x, segs[f + n..i + 1]);
    assert Splice(segs, f, n, x)[..i - n + 2] == segs[..f] + [x] + segs[f + n..i + 1];
  }

  lemma CommitNamed(s: State, m: nat, f: nat)
    requires Inv(s) && Ready(s, m, f)
    ensures Named(CommitMerge(s, m, f))
  {
    hide Sorted, Logged, Agrees, Complete, Buffered, MergesOk;
    SpliceNamed(s.segments, f, |s.merges[m].names|, Segment(s.nextName, Kept(s, m, f)));
  }

  lemma CommitFlushedBeyond(s: State, m: nat, f: nat)
    requires Inv(s) && Ready(s, m, f)
    ensures AtLeast(CommitMerge(s, m, f).flushed, |Front(s, f)|)
  {
    CommitShifts(s, m, f);
    CommitBeyond(s, m, f);
    ShiftAtLeast(s.flushed, Dropped(s, m, f), |Front(s, f)| + |Flatten(Sources(s, m, f))|);
    AtLeastWeaken(Shift(s.flushed, Dropped(s, m, f)), |Front(s, f)| + |Kept(s, m, f)|, |Front(s, f)|);
  }

  lemma CommitFlushedShifted(s: State, m: nat, f: nat, lo: int)
    requires Inv(s) && Ready(s, m, f) && AtLeast(s.flushed, lo)
    ensures AtLeast(CommitMerge(s, m, f).flushed, lo - Dropped(s, m, f))
  {
    CommitShifts(s, m, f);
    ShiftAtLeast(s.flushed, Dropped(s, m, f), lo);
  }

  /** The bounds still lie beyond the segments that another merge waits for. */
  lemma CommitEndsBefore(s: State, m: nat, f: nat, i: nat)
    requires Inv(s) && Ready(s, m, f) && i < f
    ensures CommitMerge(s, m, f).segments[i] == s.segments[i]
    ensures AtLeast(CommitMerge(s, m, f).flushed, End(CommitMerge(s, m, f).segments, i))
  {
    var n, x := |s.merges[m].names|, Segment(s.nextName, Kept(s, m, f));
    SpliceAt(s.segments, f, n, x, i);
    SpliceEndBefore(s.segments, f, n, x, i);
    CommitFlushedBeyond(s, m, f);
    AtLeastWeaken(CommitMerge(s, m, f).flushed, |Front(s, f)|, End(s.segments, i));
  }

  lemma CommitEndsAfter(s: State, m: nat, f: nat, i: nat)
    requires Inv(s) && Ready(s, m, f) && f + |s.merges[m].names| <= i < |s.segments|
    requires AtLeast(s.flushed, End(s.segments, i))
    ensures var i' := i - |s.merges[m].names| + 1;
      AtLeast(CommitMerge(s, m, f).flushed, End(CommitMerge(s, m, f).segments, i'))
  {
    hide Inv, Merged, RemapAll;
    SpliceEndAfter(s.segments, f, |s.merges[m].names|, Segment(s.nextName, Kept(s, m, f)), i);
    CommitFlushedShifted(s, m, f, End(s.segments, i));
  }

  /** Another merge finds its segments, with their snapshots, where they went. */
  lemma CommitOthers(s: State, m: nat, f: nat, mg: Merge, i': nat)
    requires Inv(s) && Ready(s, m, f) && MergeOk(s, mg)
    requires i' < |CommitMerge(s, m, f).segments| && i' != f
    requires CommitMerge(s, m, f).segments[i'].name in mg.names
    ensures mg.begun ==> AtLeast(CommitMerge(s, m, f).flushed, End(CommitMerge(s, m, f).segments, i'))
    ensures forall j :: 0 <= j < |mg.snaps| && CommitMerge(s, m, f).segments[i'].name == mg.names[j] ==>
              SnapOf(CommitMerge(s, m, f).segments[i'].cells, mg.snaps[j])
  {
    hide Inv, AtLeast, SnapOf, RemapAll, Merged;
    var n := |s.merges[m].names|;
    SpliceAt(s.segments, f, n, Segment(s.nextName, Kept(s, m, f)), i');
    if i' < f {
      CommitEndsBefore(s, m, f, i');
    } else {
      var i := i' + n - 1;
      assert CommitMerge(s, m, f).segments[i'] == s.segments[i];
      if mg.begun { CommitEndsAfter(s, m, f, i); }
    }
  }

  lemma CommitMergesOk(s: State, m: nat, f: nat)
    requires Inv(s) && Ready(s, m, f)
    ensures MergesOk(CommitMerge(s, m, f))
  {
    var s' := CommitMerge(s, m, f);
    forall x | x in s'.merges ensures MergeOk(s', s'.merges[x]) {
      var mg := s.merges[x];
      assert MergeOk(s, mg);
      forall i' | 0 <= i' < |s'.segments| && s'.segments[i'].name in mg.names
        ensures mg.begun ==> AtLeast(s'.flushed, End(s'.segments, i'))
        ensures forall j :: 0 <= j < |mg.snaps| && s'.segments[i'].name == mg.names[j] ==>
                  SnapOf(s'.segments[i'].cells, mg.snaps[j])
      {
        assert i' != f;
        CommitOthers(s, m, f, mg, i');
      }
      forall i', j | 0 <= i' < |s'.segments| && 0 <= j < |mg.snaps| && s'.segments[i'].name == mg.names[j]
        ensures SnapOf(s'.segments[i'].cells, mg.snaps[j])
      {
        assert s'.segments[i'].name in mg.names;
      }
    }
  }

  lemma CommitMergeKeeps(s: State, m: nat, f: nat)
    requires Inv(s)
    ensures Inv(CommitMerge(s, m, f))
  {
    if Ready(s, m, f) {
      CommitSlotsKeep(s, m, f);
      CommitBuffered(s, m, f);
      CommitNamed(s, m, f);
      CommitMergesOk(s, m, f);
    }
  }

  // ---------- runs ----------

  lemma StepKeeps(s: State, e: Event)
    requires Inv(s)
    ensures Inv(Do(s, e))
  {
    hide Inv;
    match e
    case EWrite(del, doc) => StartWriteKeeps(s, del, doc);
    case EFinish(i) => FinishKeeps(s, i);
    case EFail(i) => FailKeeps(s, i);
    case EDeleteTerm(t) => BufferTermKeeps(s, t);
    case EDeleteQuery(q) => BufferQueryKeeps(s, q);
    case EFlush => FlushKeeps(s);
    case EApply => ApplyKeeps(s);
    case ERegister(m, f, n) => RegisterKeeps(s, m, f, n);
    case EBegin(m) => BeginKeeps(s, m);
    case EClone(m, i) => CloneKeeps(s, m, i);
    case ECommit(m, f) => CommitMergeKeeps(s, m, f);
    case EAbortMerge(m) => AbortMergeKeeps(s, m);
  }

  lemma {:induction false} RunKeeps(es: seq<Event>)
    ensures Inv(Run(es))
  {
    if es != [] {
      RunKeeps(es[..|es| - 1]);
      StepKeeps(Run(es[..|es| - 1]), es[|es| - 1]);
    }
  }

  lemma {:induction false} VisibleSpec(s: State, upTo: nat)
    requires upTo <= |All(s)| && Sorted(All(s))
    ensures Increasing(Visible(s, upTo))
    ensures forall e :: e in Visible(s, upTo) <==>
              exists g :: 0 <= g < upTo && !Gone(s, g) && e == Entry(All(s)[g].id, All(s)[g].doc)
  {
    if upTo > 0 {
      VisibleSpec(s, upTo - 1);
      var v := Visible(s, upTo - 1);
      forall i | 0 <= i < |v| ensures v[i].id < All(s)[upTo - 1].id { assert v[i] in v; }
    }
  }

  /** In a state that keeps the invariant, a reader finds the sequential reading of the log. */
  lemma ViewIsReplay(s: State)
    requires Inv(s)
    ensures View(s) == Replay(s.log)
  {
    var v, r := View(s), Replay(s.log);
    VisibleSpec(s, |All(s)|);
    ReplaySpec(s.log);
    forall i | 0 <= i < |v| ensures v[i] in r {
      assert v[i] in v;
    }
    forall i | 0 <= i < |r| ensures r[i] in v {
      assert r[i] in r && Holds(All(s), r[i].id);
      var g :| 0 <= g < |All(s)| && All(s)[g].id == r[i].id;
      assert !Gone(s, g);
    }
    IncreasingUnique(v, r);
  }

  /** Whatever the interleaving of writes, deletes, failures, flushes, delete applications and
      merges, the buffered index reads as the plain log. */
  lemma EveryRunReadsItsLog(es: seq<Event>)
    ensures View(Run(es)) == Replay(Run(es).log)
  {
    RunKeeps(es);
    ViewIsReplay(Run(es));
  }

  lemma {:induction false} VisibleIsLive(s: State, upTo: nat)
    requires upTo <= |All(s)| && s.flushed == NO_DELETES && s.inRAM == NO_DELETES
    ensures Visible(s, upTo) == LiveCells(All(s)[..upTo])
  {
    if upTo > 0 {
      VisibleIsLive(s, upTo - 1);
      NothingHit(All(s)[upTo - 1].doc, upTo - 1);
      LiveCellsAppend(All(s)[..upTo - 1], All(s)[upTo - 1..upTo]);
      assert All(s)[..upTo] == All(s)[..upTo - 1] + All(s)[upTo - 1..upTo];
    } else {
      assert All(s)[..0] == [];
    }
  }

  lemma {:induction false} LiveCellsAppend(a: seq<Cell>, b: seq<Cell>)
    ensures LiveCells(a + b) == LiveCells(a) + LiveCells(b)
  {
    if a == [] {
      assert a + b == b;
    } else {
      LiveCellsAppend(a[1..], b);
      TailOfAppend(a, b);
      Associate(if a[0].dead then [] else [Entry(a[0].id, a[0].doc)], LiveCells(a[1..]), LiveCells(b));
    }
  }

  /** Right after prepareCommit has flushed documents and deletes the segments alone, with nothing buffered, hold the
      sequential reading. */
  lemma FlushedIndexIsReplay(es: seq<Event>)
    requires Run(es).inFlight == {}
    ensures var s := ApplyDeletes(Flush(Run(es)));
      LiveCells(Flatten(s.segments)) == Replay(s.log) && s.log == Run(es).log
  {
    RunKeeps(es);
    FlushKeeps(Run(es));
    var f := Flush(Run(es));
    ApplyKeeps(f);
    var s := ApplyDeletes(f);
    assert s.ram == [] && All(s) == Flatten(s.segments);
    VisibleIsLive(s, |All(s)|);
    assert All(s)[..|All(s)|] == All(s);
    ViewIsReplay(s);
  }
}
