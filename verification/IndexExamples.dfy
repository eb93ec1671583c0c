/**
 Runs of the index writer: an abort that loses a delete, and commits that do not hold what the log reads as.
 */
module IndexExamples {
  import opened OperationLog
  import opened IndexState
  import opened IndexRuns
  import opened IndexTheorems

  const DOC := Doc({"t"}, {})

  /** A document is flushed, and then deleted by a term; the delete is still buffered. */
  const DELETED: seq<Event> := [EWrite(None, DOC)] + [EFinish(0)] + [EFlush] + [EDeleteTerm("t")]

  lemma RunOn(es: seq<Event>, e: Event)
    ensures Run(es + [e]) == Do(Run(es), e)
  {
    assert (es + [e])[..|es + [e]| - 1] == es;
  }

  lemma DeletedState()
    ensures var s := Run(DELETED);
      && s.segments == [Segment(0, [Cell(0, DOC, false)])] && s.ram == [] && s.flushed == NO_DELETES
      && s.inRAM == Deletes(map["t" := 1], map[], []) && s.log == [Write(None, DOC, true), DeleteTerm("t")]
  {
    var es := [EWrite(None, DOC)];
    RunOn([], EWrite(None, DOC));
    assert [] + es == es;
    assert Run(es).ram == [Cell(0, DOC, false)] && Run(es).inFlight == {0};
    RunOn(es, EFinish(0));
    es := es + [EFinish(0)];
    assert Run(es).ram == [Cell(0, DOC, false)] && Run(es).inFlight == {} && Run(es).segments == [];
    RunOn(es, EFlush);
    es := es + [EFlush];
    assert Run(es).segments == [Segment(0, [Cell(0, DOC, false)])];
    assert Run(es).flushed == NO_DELETES;
    RunOn(es, EDeleteTerm("t"));
  }

  /** The abort brings the document back. */
  lemma AbortRevivesDocument()
    ensures View(Run(DELETED)) == [] && View(Abort(Run(DELETED))) == [Entry(0, DOC)]
            && Replay(Abort(Run(DELETED)).log) == []
  {
    DeletedState();
    var s := Run(DELETED);
    EveryRunReadsItsLog(DELETED);
    assert s.segments[1..] == [];
    assert Flatten(s.segments) == s.segments[0].cells + Flatten(s.segments[1..]);
    assert All(s) == [Cell(0, DOC, false)] == All(Abort(s));
    assert "t" in s.inRAM.terms && "t" in DOC.terms;
    assert Visible(s, 0) == [] && Visible(Abort(s), 0) == [];
    assert Disown(s.log, s.ram) == s.log;
  }

  // ---------- between a commit's flush and its startCommit ----------

  const NEWER := Doc({"t", "u"}, {})

  /** A document is flushed for a commit; another thread then updates it, and its flush applies the delete too. */
  const COMMITTING: seq<Event> := [EWrite(None, DOC)] + [EFinish(0)] + [EFlush] + [EApply]
  const UPDATED: seq<Event> := COMMITTING + [EWrite(Some("t"), NEWER)] + [EFinish(0)] + [EFlush] + [EApply]

  const T_BELOW_1 := Deletes(map["t" := 1], map[], [])

  lemma OneSegment(seg: Segment)
    ensures Flatten([seg]) == seg.cells
  {
    assert [seg][1..] == [];
  }

  lemma CommittingState()
    ensures var s := Run(COMMITTING);
      s == State([Write(None, DOC, true)], [Segment(0, [Cell(0, DOC, false)])], [], {}, NO_DELETES, NO_DELETES, 1,
             map[], 1)
  {
    var es := [EWrite(None, DOC)];
    RunOn([], EWrite(None, DOC));
    assert [] + es == es;
    RunOn(es, EFinish(0));
    es := es + [EFinish(0)];
    assert Run(es) == State([Write(None, DOC, true)], [], [Cell(0, DOC, false)], {}, NO_DELETES, NO_DELETES, 0, map[],
        0);
    RunOn(es, EFlush);
    es := es + [EFlush];
    var seg := Segment(0, [Cell(0, DOC, false)]);
    assert Run(es).segments == [seg] && Run(es).flushed == NO_DELETES;
    RunOn(es, EApply);
    AppliesToOne(seg, NO_DELETES, 0);
    NothingHit(DOC, 0);
    assert ApplyTo(seg.cells, NO_DELETES, 0) == seg.cells;
  }

  lemma AppliesToOne(seg: Segment, d: Deletes, start: int)
    ensures ApplyAll([seg], d, start) == [seg.(cells := ApplyTo(seg.cells, d, start))]
  {
    assert [seg][1..] == [];
  }

  lemma AppliesToTwo(a: Segment, b: Segment, d: Deletes)
    ensures ApplyAll([a, b], d, 0) ==
            [a.(cells := ApplyTo(a.cells, d, 0)), b.(cells := ApplyTo(b.cells, d, |a.cells|))]
  {
    assert [a, b][1..] == [b];
    AppliesToOne(b, d, |a.cells|);
  }

  lemma UpdatedState()
    ensures var s := Run(UPDATED);
      && s.segments == [Segment(0, [Cell(0, DOC, true)]), Segment(1, [Cell(1, NEWER, false)])]
      && s.ram == [] && s.flushed == NO_DELETES && s.inRAM == NO_DELETES && s.nextName == 2
      && s.log == [Write(None, DOC, true), Write(Some("t"), NEWER, true)]
  {
    CommittingState();
    var es := COMMITTING;
    RunOn(es, EWrite(Some("t"), NEWER));
    es := es + [EWrite(Some("t"), NEWER)];
    RunOn(es, EFinish(0));
    es := es + [EFinish(0)];
    assert Run(es).inRAM == T_BELOW_1 && Run(es).ram == [Cell(1, NEWER, false)] && Run(es).inFlight == {};
    hide Run;
    RunOn(es, EFlush);
    es := es + [EFlush];
    var first, second := Segment(0, [Cell(0, DOC, false)]), Segment(1, [Cell(1, NEWER, false)]);
    assert Run(es).segments == [first, second] && Run(es).flushed == T_BELOW_1;
    RunOn(es, EApply);
    AppliesToTwo(first, second, T_BELOW_1);
    assert Hit(T_BELOW_1, DOC, 0) by { assert "t" in DOC.terms && "t" in T_BELOW_1.terms; }
    assert !Hit(T_BELOW_1, NEWER, 1);
    assert ApplyTo(first.cells, T_BELOW_1, 0) == [Cell(0, DOC, true)];
    assert ApplyTo(second.cells, T_BELOW_1, 1) == second.cells;
  }

  lemma ReplayOne(log: seq<Op>, op: Op)
    ensures Replay(log + [op]) ==
            OperationLog.Without(Replay(log), op)
                + if op.Write? && op.ok then [Entry(|log|, op.doc)] else []
  {
    assert (log + [op])[..|log|] == log;
  }

  /** The commit that then clones the index drops the segment of the new document, which shares the open doc store, and
      keeps the deletion of the old one: it holds neither, though the log reads as one of them at every moment. */
  lemma UpdateLost()
    ensures var before, s := Run(COMMITTING), Run(UPDATED); var kept := KeptCount(s.segments, {1});
      && Replay(before.log) == [Entry(0, DOC)] && Replay(s.log) == [Entry(1, NEWER)]
      && kept == 1 && LiveCells(Flatten(s.segments[..kept])) == [] && !Captured(s, kept)
  {
    CommittingState();
    UpdatedState();
    var s := Run(UPDATED);
    ReplayOne([], Write(None, DOC, true));
    assert [] + [Write(None, DOC, true)] == [Write(None, DOC, true)];
    ReplayOne([Write(None, DOC, true)], Write(Some("t"), NEWER, true));
    assert Kills(Write(Some("t"), NEWER, true), DOC);
    assert s.log == [Write(None, DOC, true)] + [Write(Some("t"), NEWER, true)];
    assert s.segments[..2][..1] == s.segments[..1] == [s.segments[0]];
    assert KeptCount(s.segments[..1], {1}) == 1;
    OneSegment(s.segments[0]);
    CommitReadsLogIff(UPDATED, 1);
  }

  /** A merge closes the doc store, by a flush that applies no deletes, after a delete and another write. */
  const UNAPPLIED: seq<Event> := COMMITTING + [EDeleteTerm("t")] + [EWrite(None, NEWER)] + [EFinish(0)] + [EFlush]

  lemma UnappliedState()
    ensures var s := Run(UNAPPLIED);
      && s.segments == [Segment(0, [Cell(0, DOC, false)]), Segment(1, [Cell(2, NEWER, false)])]
      && s.log == [Write(None, DOC, true), DeleteTerm("t"), Write(None, NEWER, true)]
  {
    CommittingState();
    var es := COMMITTING;
    RunOn(es, EDeleteTerm("t"));
    es := es + [EDeleteTerm("t")];
    RunOn(es, EWrite(None, NEWER));
    es := es + [EWrite(None, NEWER)];
    RunOn(es, EFinish(0));
    es := es + [EFinish(0)];
    hide Run;
    assert Run(es).ram == [Cell(2, NEWER, false)] && Run(es).inFlight == {};
    RunOn(es, EFlush);
  }

  lemma UnappliedReplay()
    ensures Replay([Write(None, DOC, true), DeleteTerm("t"), Write(None, NEWER, true)]) == [Entry(2, NEWER)]
  {
    var a, b, c := Write(None, DOC, true), DeleteTerm("t"), Write(None, NEWER, true);
    assert [] + [a] + [b] + [c] == [a, b, c];
    ReplayOne([], a);
    ReplayOne([] + [a], b);
    ReplayOne([] + [a] + [b], c);
  }

  /** The commit that then clones the index holds the deleted document beside the new one. */
  lemma DeleteMissed()
    ensures var s := Run(UNAPPLIED);
      && Replay(s.log) == [Entry(2, NEWER)]
      && KeptCount(s.segments, {}) == 2
      && LiveCells(Flatten(s.segments)) == [Entry(0, DOC), Entry(2, NEWER)] && !Captured(s, 2)
  {
    var s := Run(UNAPPLIED);
    UnappliedState();
    UnappliedReplay();
    hide Run, Replay, Captured;
    assert s.segments[1..] == [s.segments[1]];
    OneSegment(s.segments[1]);
    assert Flatten(s.segments) == [Cell(0, DOC, false)] + [Cell(2, NEWER, false)];
    LiveCellsAppend([Cell(0, DOC, false)], [Cell(2, NEWER, false)]);
    assert s.segments[..2] == s.segments;
    CommitReadsLogIff(UNAPPLIED, 2);
  }
}
