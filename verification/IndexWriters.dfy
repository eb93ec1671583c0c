/**
 IndexWriter and DocumentsWriter as one mutable object guarded by its lock: every method is
 one critical section, and does to the fields what the matching event does to the state.
 */
module IndexWriters {
  import opened Sequences
  import opened OperationLog
  import opened IndexState
  import opened IndexRuns
  import opened MergeDocIDs
  import opened DeleteBuffers

  const BYTES_PER_DEL_TERM := 128
  const BYTES_PER_DEL_DOCID := 28
  const BYTES_PER_DEL_QUERY := 88
  const CHAR_NUM_BYTE := 4

  lemma {:induction false} ApplyAllSnoc(segs: seq<Segment>, x: Segment, d: Deletes, start: int)
    ensures ApplyAll(segs + [x], d, start) ==
              ApplyAll(segs, d, start) + [x.(cells := ApplyTo(x.cells, d, start + |Flatten(segs)|))]
  {
    if segs == [] {
      assert segs + [x] == [x];
    } else {
      ApplyAllSnoc(segs[1..], x, d, start + |segs[0].cells|);
      assert (segs + [x])[1..] == segs[1..] + [x];
    }
  }

  lemma {:induction false} ApplyNothing(segs: seq<Segment>, start: int)
    ensures ApplyAll(segs, NO_DELETES, start) == segs
  {
    if segs != [] {
      ApplyNothing(segs[1..], start + |segs[0].cells|);
      var x := segs[0];
      forall k | 0 <= k < |x.cells| ensures ApplyTo(x.cells, NO_DELETES, start)[k] == x.cells[k] {
        NothingHit(x.cells[k].doc, start + k);
      }
      assert ApplyTo(x.cells, NO_DELETES, start) == x.cells;
    }
  }

  lemma {:induction false} NoneDeletedIdentity(snaps: seq<seq<bool>>, min: int, x: int)
    requires Live(snaps) == Size(snaps)
    ensures Remap(snaps, min, x) == x
  {
    FlatSize(snaps);
    var flat := Flat(snaps);
    if min <= x < min + Size(snaps) { AllLive(flat, x - min); }
    RemapSubtractsDeleted(snaps, min, x);
  }

  function Flags(segs: seq<Segment>): seq<seq<bool>> {
    seq(|segs|, i requires 0 <= i < |segs| => DeadFlags(segs[i].cells))
  }

  lemma {:induction false} KeepPicks(cells: seq<Cell>, snap: seq<bool>)
    requires |cells| == |snap|
    ensures DeadFlags(Keep(cells, snap)) == Pick(snap, DeadFlags(cells))
  {
    if cells != [] {
      var n := |cells| - 1;
      KeepPicks(cells[..n], snap[..n]);
      KeepSnoc(cells[..n], snap[..n], cells[n], snap[n]);
      assert cells == cells[..n] + [cells[n]] && snap == snap[..n] + [snap[n]];
      assert DeadFlags(cells)[..n] == DeadFlags(cells[..n]);
    }
  }

  lemma {:induction false} KeepSnoc(cells: seq<Cell>, snap: seq<bool>, c: Cell, dead: bool)
    requires |cells| == |snap|
    ensures Keep(cells + [c], snap + [dead]) == Keep(cells, snap) + if dead then [] else [c]
  {
    if cells == [] {
      assert cells + [c] == [c] && snap + [dead] == [dead];
    } else {
      KeepSnoc(cells[1..], snap[1..], c, dead);
      TailOfAppend(cells, [c]);
      TailOfAppend(snap, [dead]);
      Associate(if snap[0] then [] else [cells[0]], Keep(cells[1..], snap[1..]), if dead then [] else [c]);
    }
  }

  lemma {:induction false} MergedSnoc(segs: seq<Segment>, snaps: seq<seq<bool>>, x: Segment, snap: seq<bool>)
    requires Fits(segs, snaps) && |x.cells| == |snap|
    ensures Merged(segs + [x], snaps + [snap]) == Merged(segs, snaps) + Keep(x.cells, snap)
  {
    if segs == [] {
      assert segs + [x] == [x] && snaps + [snap] == [snap];
    } else {
      MergedSnoc(segs[1..], snaps[1..], x, snap);
      TailOfAppend(segs, [x]);
      TailOfAppend(snaps, [snap]);
      Associate(Keep(segs[0].cells, snaps[0]), Merged(segs[1..], snaps[1..]), Keep(x.cells, snap));
    }
  }

  lemma FlagsAppend(a: seq<Cell>, b: seq<Cell>)
    ensures DeadFlags(a + b) == DeadFlags(a) + DeadFlags(b)
  {
  }

  /** The deletions carried into a merged segment are those of the documents it kept. */
  lemma {:induction false} MergedCarries(segs: seq<Segment>, snaps: seq<seq<bool>>)
    requires Fits(segs, snaps) && Paired(snaps, Flags(segs))
    ensures DeadFlags(Merged(segs, snaps)) == Carried(snaps, Flags(segs))
  {
    if segs != [] {
      var n := |segs| - 1;
      hide Merged, Carried, Keep, DeadFlags;
      var front, past := segs[..n], snaps[..n];
      assert segs == front + [segs[n]] && snaps == past + [snaps[n]];
      assert Paired(past, Flags(front)) by { assert Flags(front) == Flags(segs)[..n]; }
      MergedCarries(front, past);
      LastCarries(front, past, segs[n], snaps[n]);
    }
  }

  /** One more segment adds its own share of the deletions. */
  lemma LastCarries(front: seq<Segment>, past: seq<seq<bool>>, x: Segment, snap: seq<bool>)
    requires Fits(front, past) && Paired(past + [snap], Flags(front + [x]))
    requires Paired(past, Flags(front)) && DeadFlags(Merged(front, past)) == Carried(past, Flags(front))
    ensures Fits(front + [x], past + [snap])
    ensures DeadFlags(Merged(front + [x], past + [snap])) == Carried(past + [snap], Flags(front + [x]))
  {
    hide Merged, Keep;
    assert |snap| == |x.cells| by { assert (past + [snap])[|front|] == snap
        && Flags(front + [x])[|front|] == DeadFlags(x.cells); }
    assert (past + [snap])[..|front|] == past && Flags(front + [x])[..|front|] == Flags(front);
    KeepPicks(x.cells, snap);
    MergedSnoc(front, past, x, snap);
    FlagsAppend(Merged(front, past), Keep(x.cells, snap));
  }

  /** The merger's maps, absent for segments without deletions. */
  method BuildDocMaps(snaps: seq<seq<bool>>) returns (docMaps: seq<Option<seq<int>>>, delCounts: seq<int>)
    ensures MapsFor(snaps, docMaps, delCounts)
  {
    docMaps, delCounts := [], [];
    for i := 0 to |snaps|
      invariant MapsFor(snaps[..i], docMaps, delCounts)
    {
      var docMap, delCount := GetDocMap(snaps[i]);
      NoneDeletedCount(snaps[i]);
      docMaps := docMaps + [if delCount == 0 then None else Some(docMap)];
      delCounts := delCounts + [delCount];
    }
    assert snaps[..|snaps|] == snaps;
  }

  lemma NoneDeletedCount(snap: seq<bool>)
    ensures CountLive(snap) == |snap| ==> true !in snap
  {
    if CountLive(snap) == |snap| {
      forall k | 0 <= k < |snap| ensures !snap[k] { AllLive(snap, k); }
    }
  }

  lemma RunStep(es: seq<Event>, e: Event)
    ensures Run(es + [e]) == Do(Run(es), e)
  {
    assert (es + [e])[..|es|] == es;
  }

  class IndexWriter {
    ghost var history: seq<Event>
    var log: seq<Op>
    var segments: seq<Segment>
    var ram: seq<Cell>
    var inFlight: set<nat>
    const deletesInRAM: BufferedDeletes
    const deletesFlushed: BufferedDeletes
    var flushedDocCount: int
    var merges: map<nat, Merge>
    var nextName: nat

    ghost function Abs(): State
      reads this, deletesInRAM, deletesFlushed
    {
      State(log, segments, ram, inFlight, deletesInRAM.Value(), deletesFlushed.Value(), flushedDocCount, merges,
          nextName)
    }

    /** The fields hold what the events so far lead to. */
    ghost predicate Valid()
      reads this, deletesInRAM, deletesFlushed
    {
      deletesInRAM != deletesFlushed && Abs() == Run(history)
    }

    constructor ()
      ensures Valid() && Abs() == FRESH && history == []
      ensures fresh(deletesInRAM) && fresh(deletesFlushed)
    {
      log, segments, ram, inFlight, flushedDocCount, merges, nextName := [], [], [], {}, 0, map[], 0;
      deletesInRAM := new BufferedDeletes();
      deletesFlushed := new BufferedDeletes();
      history := [];
    }

    ghost method Record(e: Event, s: State)
      requires deletesInRAM != deletesFlushed && s == Run(history) && Abs() == Do(s, e)
      modifies this`history
      ensures Valid() && history == old(history) + [e]
    {
      RunStep(history, e);
      history := history + [e];
    }

    /** getThreadState: assigns the docID, and buffers the update's delete below it. */
    method GetThreadState(doc: Doc, delTerm: Option<Term>) returns (docID: nat)
      requires Valid()
      modifies this, deletesInRAM
      ensures Valid() && history == old(history) + [EWrite(delTerm, doc)] && docID == |old(ram)|
    {
      docID := |ram|;
      if delTerm.Some? {
        deletesInRAM.PutTerm(delTerm.value, flushedDocCount + docID,
            BYTES_PER_DEL_TERM + |delTerm.value| * CHAR_NUM_BYTE);
      }
      ram := ram + [Cell(|log|, doc, false)];
      inFlight := inFlight + {docID};
      log := log + [Write(delTerm, doc, true)];
      Record(EWrite(delTerm, doc), old(Abs()));
    }

    method FinishDocument(docID: nat)
      requires Valid()
      modifies this
      ensures Valid() && history == old(history) + [EFinish(docID)]
    {
      inFlight := inFlight - {docID};
      Record(EFinish(docID), old(Abs()));
    }

    /** A document that threw while being indexed is deleted by its docID. */
    method FailDocument(docID: nat)
      requires Valid() && docID in inFlight
      modifies this, deletesInRAM
      ensures Valid() && history == old(history) + [EFail(docID)]
    {
      assert docID < |ram| && ram[docID].id < |log| && log[ram[docID].id].Write? by {
        RunKeeps(history);
        InFlightLogged(Abs(), docID);
      }
      deletesInRAM.PutDocID(flushedDocCount + docID, BYTES_PER_DEL_DOCID);
      inFlight := inFlight - {docID};
      var k := ram[docID].id;
      log := log[k := log[k].(ok := false)];
      Record(EFail(docID), old(Abs()));
    }

    method BufferDeleteTerm(term: Term)
      requires Valid()
      modifies this, deletesInRAM
      ensures Valid() && history == old(history) + [EDeleteTerm(term)]
    {
      deletesInRAM.PutTerm(term, flushedDocCount + |ram|, BYTES_PER_DEL_TERM + |term| * CHAR_NUM_BYTE);
      log := log + [DeleteTerm(term)];
      Record(EDeleteTerm(term), old(Abs()));
    }

    method BufferDeleteQuery(query: Query)
      requires Valid()
      modifies this, deletesInRAM
      ensures Valid() && history == old(history) + [EDeleteQuery(query)]
    {
      deletesInRAM.PutQuery(query, flushedDocCount + |ram|, BYTES_PER_DEL_QUERY);
      log := log + [DeleteQuery(query)];
      Record(EDeleteQuery(query), old(Abs()));
    }

    /** Blocks (here: does nothing) while a thread is still indexing a document. */
    method FlushDocs()
      requires Valid()
      modifies this, deletesInRAM, deletesFlushed
      ensures Valid() && history == old(history) + [EFlush]
    {
      if inFlight == {} {
        var flushDocs := |ram| > 0;
        if flushDocs {
          segments := segments + [Segment(nextName, ram)];
          nextName := nextName + 1;
          flushedDocCount := flushedDocCount + |ram|;
          ram := [];
        }
        deletesFlushed.Update(deletesInRAM);
      }
      Record(EFlush, old(Abs()));
    }

    method ApplyBufferedDeletes()
      requires Valid()
      modifies this, deletesFlushed
      ensures Valid() && history == old(history) + [EApply]
    {
      ApplyFlushed();
      Record(EApply, old(Abs()));
    }

    method ApplyFlushed()
      requires deletesInRAM != deletesFlushed
      modifies this, deletesFlushed
      ensures Abs() == ApplyDeletes(old(Abs())) && history == old(history)
    {
      var any := deletesFlushed.Any();
      if !any {
        ApplyNothing(segments, 0);
        return;
      }
      var d := Deletes(deletesFlushed.terms, deletesFlushed.queries, deletesFlushed.docIDs);
      var done := ApplyToSegments(segments, d);
      segments := done;
      deletesFlushed.Clear();
    }

    /** Refused when one of the segments is already taking part in a merge. */
    method RegisterMerge(m: nat, first: nat, count: nat)
      requires Valid() && m !in merges && 0 < count && first + count <= |segments|
      modifies this
      ensures Valid() && history == old(history) + [ERegister(m, first, count)]
    {
      var merging, segs := MergingNames(merges), segments;
      var names := [];
      for j := 0 to count
        invariant |names| == j && forall i :: 0 <= i < j ==> names[i] == segs[first + i].name
        invariant forall i :: first <= i < first + j ==> segs[i].name !in merging
      {
        if segs[first + j].name in merging {
          assert Merging(old(Abs()), segs[first + j].name);
          Record(ERegister(m, first, count), old(Abs()));
          return;
        }
        names := names + [segs[first + j].name];
      }
      assert forall x: nat :: Merging(old(Abs()), x) ==> x in merging;
      assert names == seq(count, j requires 0 <= j < count => segs[first + j].name);
      merges := merges[m := Merge(names, false, [])];
      Record(ERegister(m, first, count), old(Abs()));
    }

    method MergeInit(m: nat)
      requires Valid() && m in merges
      modifies this, deletesFlushed
      ensures Valid() && history == old(history) + [EBegin(m)]
    {
      if !merges[m].begun {
        ApplyFlushed();
        merges := merges[m := merges[m].(begun := true)];
      }
      Record(EBegin(m), old(Abs()));
    }

    method CloneNextReader(m: nat, i: nat)
      requires Valid() && m in merges && merges[m].begun && |merges[m].snaps| < |merges[m].names|
      requires i < |segments| && segments[i].name == merges[m].names[|merges[m].snaps|]
      modifies this
      ensures Valid() && history == old(history) + [EClone(m, i)]
    {
      merges := merges[m := merges[m].(snaps := merges[m].snaps + [DeadFlags(segments[i].cells)])];
      Record(EClone(m, i), old(Abs()));
    }

    /** Carries the late deletions over, renumbers the buffered deletes, swaps the segments. */
    method CommitMerge(m: nat, first: nat)
      requires Valid() && Ready(Abs(), m, first)
      modifies this, deletesInRAM, deletesFlushed
      ensures Valid() && history == old(history) + [ECommit(m, first)]
    {
      assert Paired(merges[m].snaps, Flags(Sources(Abs(), m, first))) by {
        RunKeeps(history);
        SourcesPaired(Abs(), m, first);
      }
      var merged := MergeSegments(segments[first..first + |merges[m].names|], merges[m].snaps);
      Install(m, first, merged);
      Record(ECommit(m, first), old(Abs()));
    }

    method Install(m: nat, first: nat, merged: seq<Cell>)
      requires deletesInRAM != deletesFlushed && Ready(Abs(), m, first) && merged == Kept(Abs(), m, first)
      modifies this, deletesInRAM, deletesFlushed
      ensures Abs() == IndexState.CommitMerge(old(Abs()), m, first) && history == old(history)
    {
      var snaps, n := merges[m].snaps, |merges[m].names|;
      RenumberDeletes(snaps, first);
      segments := segments[..first] + [Segment(nextName, merged)] + segments[first + n..];
      nextName := nextName + 1;
      flushedDocCount := flushedDocCount - (Size(snaps) - Live(snaps));
      merges := merges - {m};
    }

    /** remapDeletes: nothing to renumber when no merged segment had deletions. */
    method RenumberDeletes(snaps: seq<seq<bool>>, first: nat)
      requires deletesInRAM != deletesFlushed && |snaps| > 0 && first + |snaps| <= |segments|
      requires Fits(segments[first..first + |snaps|], snaps)
      modifies deletesInRAM, deletesFlushed
      ensures deletesInRAM != deletesFlushed
      ensures deletesInRAM.Value() == RemapAll(old(deletesInRAM.Value()), snaps, |Flatten(segments[..first])|)
      ensures deletesFlushed.Value() == RemapAll(old(deletesFlushed.Value()), snaps, |Flatten(segments[..first])|)
    {
      var docMaps, delCounts := BuildDocMaps(snaps);
      if Live(snaps) == Size(snaps) {
        NoneDeletedRemaps(deletesInRAM.Value(), snaps, |Flatten(segments[..first])|);
        NoneDeletedRemaps(deletesFlushed.Value(), snaps, |Flatten(segments[..first])|);
        return;
      }
      var segs := segments;
      var infos: seq<nat> := seq(|segs|, i requires 0 <= i < |segs| => |segs[i].cells|);
      forall j | 0 <= j < |snaps| ensures infos[first + j] == |snaps[j]| {
        assert segs[first..first + |snaps|][j] == segs[first + j];
      }
      var mapper := new MergeDocIDRemapper(infos, first, docMaps, delCounts, Live(snaps), snaps);
      DocCounts(segs, first);
      assert infos[..first] == seq(first, i requires 0 <= i < first => |segs[i].cells|);
      deletesInRAM.Remap(mapper, snaps);
      deletesFlushed.Remap(mapper, snaps);
    }

    method AbandonMerge(m: nat)
      requires Valid()
      modifies this
      ensures Valid() && history == old(history) + [EAbortMerge(m)]
    {
      merges := merges - {m};
      Record(EAbortMerge(m), old(Abs()));
    }
  }

  lemma InFlightLogged(s: State, i: nat)
    requires Inv(s) && i in s.inFlight
    ensures i < |s.ram| && s.ram[i].id < |s.log| && s.log[s.ram[i].id].Write?
  {
    assert All(s)[s.flushedDocCount + i] == s.ram[i];
  }

  function MergingNames(merges: map<nat, Merge>): set<nat> {
    set m, x | m in merges && x in merges[m].names :: x
  }

  lemma NoneDeletedRemaps(d: Deletes, snaps: seq<seq<bool>>, min: int)
    requires Live(snaps) == Size(snaps)
    ensures RemapAll(d, snaps, min) == d
  {
    var r := RemapAll(d, snaps, min);
    forall t | t in d.terms ensures r.terms[t] == d.terms[t] { NoneDeletedIdentity(snaps, min, d.terms[t]); }
    forall q | q in d.queries ensures r.queries[q] == d.queries[q] { NoneDeletedIdentity(snaps, min, d.queries[q]); }
    forall i | 0 <= i < |d.docIDs| ensures r.docIDs[i] == d.docIDs[i] { NoneDeletedIdentity(snaps, min, d.docIDs[i]); }
    assert r.terms == d.terms && r.queries == d.queries && r.docIDs == d.docIDs;
  }

  lemma {:induction false} DocCounts(segs: seq<Segment>, f: nat)
    requires f <= |segs|
    ensures SumOf(seq(f, i requires 0 <= i < f => |segs[i].cells|)) == |Flatten(segs[..f])|
  {
    if f == 0 {
      assert segs[..0] == [];
    } else {
      DocCounts(segs, f - 1);
      var counts: seq<nat> := seq(f, i requires 0 <= i < f => |segs[i].cells|);
      assert counts[..f - 1] == seq(f - 1, i requires 0 <= i < f - 1 => |segs[i].cells|);
      FlattenSplit(segs[..f], f - 1);
      assert segs[..f][..f - 1] == segs[..f - 1] && segs[..f][f - 1..] == [segs[f - 1]];
      assert [segs[f - 1]][1..] == [];
    }
  }

  lemma SourcesPaired(s: State, m: nat, f: nat)
    requires Inv(s) && Ready(s, m, f)
    ensures Paired(s.merges[m].snaps, Flags(Sources(s, m, f)))
  {
    var mg := s.merges[m];
    assert MergeOk(s, mg);
    forall j | 0 <= j < |mg.snaps|
      ensures |mg.snaps[j]| == |Flags(Sources(s, m, f))[j]|
      ensures forall k :: 0 <= k < |mg.snaps[j]| && mg.snaps[j][k] ==> Flags(Sources(s, m, f))[j][k]
    {
      assert s.segments[f + j].name == mg.names[j];
      assert SnapOf(s.segments[f + j].cells, mg.snaps[j]);
    }
  }

  method ApplyToSegments(segs: seq<Segment>, d: Deletes) returns (done: seq<Segment>)
    ensures done == ApplyAll(segs, d, 0)
  {
    done := [];
    var docStart := 0;
    for i := 0 to |segs|
      invariant done == ApplyAll(segs[..i], d, 0) && docStart == |Flatten(segs[..i])|
    {
      var x := segs[i];
      var docs := seq(|x.cells|, k requires 0 <= k < |x.cells| => x.cells[k].doc);
      var deleted := new bool[|x.cells|](k requires 0 <= k < |x.cells| => x.cells[k].dead);
      var any := ApplyDeletesTo(docs, deleted, d, docStart);
      var flags := deleted[..];
      var cells := seq(|x.cells|, k requires 0 <= k < |x.cells| => x.cells[k].(dead := flags[k]));
      assert cells == ApplyTo(x.cells, d, docStart);
      done := done + [x.(cells := cells)];
      docStart := docStart + |x.cells|;
      ApplyAllSnoc(segs[..i], x, d, 0);
      assert segs[..i + 1] == segs[..i] + [x];
      FlattenAppend(segs[..i], [x]);
      assert [x][1..] == [];
    }
    assert segs[..|segs|] == segs;
  }

  /** The merged segment as written from the cloned readers, then the deletions since. */
  method MergeSegments(sources: seq<Segment>, snaps: seq<seq<bool>>) returns (cells: seq<Cell>)
    requires Fits(sources, snaps) && Paired(snaps, Flags(sources))
    ensures cells == Merged(sources, snaps)
  {
    var kept := Merged(sources, snaps);
    MergedCarries(sources, snaps);
    CarriedSize(snaps, Flags(sources));
    assert |DeadFlags(kept)| == |kept|;
    var deleted := new bool[|kept|](_ => false);
    CommitMergedDeletes(snaps, Flags(sources), deleted);
    var flags := deleted[..];
    cells := seq(|kept|, k requires 0 <= k < |kept| => Cell(kept[k].id, kept[k].doc, flags[k]));
    forall k | 0 <= k < |kept| ensures cells[k] == kept[k] { assert DeadFlags(kept)[k] == kept[k].dead; }
  }
}
