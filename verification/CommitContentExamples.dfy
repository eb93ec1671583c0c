/**
 A whole run of an index and its commits, down to the files that a reader opens, in which a commit loses a document that
 was being updated.
 */
module CommitContentExamples {
  import opened OperationLog
  import opened IndexState
  import IndexTheorems
  import opened SegmentFiles
  import opened CommitContents
  import C = CommitFiles
  import CommitGuards
  import CommitSafety
  import CommitReaders
  import CE = CommitExamples
  import IE = IndexExamples

  /** A move that is allowed and sound extends a sound run. */
  lemma SoundOn(ms: seq<Move>, e: C.Event)
    requires CommitSafety.SoundRun(Commits(ms)) && Allowed(RunMoves(ms), e)
    requires CommitSafety.Sound(RunMoves(ms).world, e)
    ensures CommitSafety.SoundRun(Commits(ms + [Committing(e)]))
    ensures RunMoves(ms + [Committing(e)]) == Committed(RunMoves(ms), e)
  {
    MoveOn(ms, Committing(e));
    WorldIsRun(ms);
    assert (Commits(ms) + [e])[..|Commits(ms)|] == Commits(ms);
  }

  // ---------- the run ----------

  const DOCS := C.Data(0, 0)
  const DELS := C.Data(0, 1)

  const OPENED: seq<Move> := [Committing(C.EReopen({}, {}))]

  /** The flush of a commit, with its deletes. */
  const FLUSHED: seq<Move> :=
    OPENED + [Indexing(EWrite(None, IE.DOC))] + [Indexing(EFinish(0))] + [Closing] + [Indexing(EApply)]

  /** Another thread updates the document, and a flush applies that. */
  const CHANGED: seq<Move> :=
    FLUSHED + [Indexing(EWrite(Some("t"), IE.NEWER))] + [Indexing(EFinish(0))] + [Indexing(EFlush)] + [Indexing(EApply)]

  /** The files of the first segment are written, and known to the deleter. */
  const FILED: seq<Move> :=
    CHANGED + [Committing(C.ENewFile(DOCS))] + [Committing(C.ENewFile(DELS))]
    + [Committing(C.ECheckpoint({DOCS, DELS}, {}, {}))]

  /** startCommit, up to the moment when its segments_N can be read. */
  const PUBLISHED: seq<Move> :=
    FILED + [Committing(C.EHold({DOCS, DELS}))] + [Committing(C.ESyncFile(0, DOCS))]
        + [Committing(C.ESyncFile(0, DELS))]
    + [Committing(C.EPrepare(0, true, {}))] + [Committing(C.EPublish(true, {}))]

  const START_FILES := map[CE.FIRST := CE.EMPTY]

  const OPEN_WORLD :=
    CE.Writer(C.Directory(START_FILES, {CE.FIRST}, 1), map[CE.FIRST := 1], {}, 1, [], C.None)

  lemma OpenedWorld()
    ensures C.Do(C.START, C.EReopen({}, {})) == OPEN_WORLD && CommitSafety.Sound(C.START, C.EReopen({}, {}))
    ensures C.Enabled(C.START, C.EReopen({}, {})) && OPEN_WORLD.open && OPEN_WORLD.last == C.EMPTY_COMMIT
  {
    assert START_FILES.Keys == {CE.FIRST} && START_FILES.Keys - {CE.FIRST} == {};
    CE.Opens(C.START, START_FILES, {});
    assert CE.Ones(START_FILES) == map[CE.FIRST := 1];
    hide C.Do, C.Open;
  }

  lemma OpenedIndex(x: Whole)
    requires x == BEGINNING.(world := OPEN_WORLD)
    ensures NewWriter(x) == x.(index := FRESH)
  {
    assert x.index == Loaded([], 0, 0);
    hide Loaded;
  }

  lemma OpenedState()
    ensures RunMoves(OPENED) == BEGINNING.(world := OPEN_WORLD) && CommitSafety.SoundRun(Commits(OPENED))
  {
    OpenedWorld();
    OpenedIndex(BEGINNING.(world := OPEN_WORLD));
    assert [] + OPENED == OPENED && RunMoves([]) == BEGINNING && Commits([]) == [];
    hide C.Do, C.Enabled, NewWriter, RunMoves, Commits, CommitSafety.Sound;
    SoundOn([], C.EReopen({}, {}));
  }

  lemma IndexOn(ms: seq<Move>, es: seq<Event>, e: Event)
    requires RunMoves(ms).world.open && RunMoves(ms).index == Run(es)
    ensures RunMoves(ms + [Indexing(e)]) ==
            RunMoves(ms).(index := Run(es + [e]), store := StoreAfter(RunMoves(ms), e))
    ensures Commits(ms + [Indexing(e)]) == Commits(ms)
  {
    hide RunMoves, Commits, Do, StoreAfter;
    MoveOn(ms, Indexing(e));
    IE.RunOn(es, e);
  }

  lemma FlushedState()
    ensures RunMoves(FLUSHED) == BEGINNING.(world := OPEN_WORLD, index := Run(IE.COMMITTING))
    ensures Commits(FLUSHED) == Commits(OPENED)
  {
    var ms, es: seq<Event> := OPENED, [];
    OpenedState();
    hide RunMoves, Commits;
    IndexOn(ms, es, EWrite(None, IE.DOC));
    ms, es := ms + [Indexing(EWrite(None, IE.DOC))], es + [EWrite(None, IE.DOC)];
    assert es == [EWrite(None, IE.DOC)] && Run([]) == FRESH && OPEN_WORLD.open;
    IndexOn(ms, es, EFinish(0));
    ms, es := ms + [Indexing(EFinish(0))], es + [EFinish(0)];
    IE.RunOn([], EWrite(None, IE.DOC));
    IE.RunOn([EWrite(None, IE.DOC)], EFinish(0));
    assert [] + [EWrite(None, IE.DOC)] == [EWrite(None, IE.DOC)];
    assert Run(es).inFlight == {};
    MoveOn(ms, Closing);
    IE.RunOn(es, EFlush);
    ms, es := ms + [Closing], es + [EFlush];
    IndexOn(ms, es, EApply);
  }

  lemma ChangedState()
    ensures RunMoves(CHANGED) == BEGINNING.(world := OPEN_WORLD, index := Run(IE.UPDATED), store := Some({1}))
    ensures Commits(CHANGED) == Commits(OPENED)
  {
    var ms, es: seq<Event> := FLUSHED, IE.COMMITTING;
    FlushedState();
    IE.CommittingState();
    hide RunMoves, Commits;
    IndexOn(ms, es, EWrite(Some("t"), IE.NEWER));
    IE.RunOn(es, EWrite(Some("t"), IE.NEWER));
    ms, es := ms + [Indexing(EWrite(Some("t"), IE.NEWER))], es + [EWrite(Some("t"), IE.NEWER)];
    IndexOn(ms, es, EFinish(0));
    IE.RunOn(es, EFinish(0));
    ms, es := ms + [Indexing(EFinish(0))], es + [EFinish(0)];
    assert Run(es).inFlight == {} && Run(es).ram == [Cell(1, IE.NEWER, false)] && Run(es).nextName == 1;
    IndexOn(ms, es, EFlush);
    assert Shared(Some({})) + {1} == {1};
    ms, es := ms + [Indexing(EFlush)], es + [EFlush];
    IndexOn(ms, es, EApply);
  }

  // ---------- the files ----------

  /** The contents of the files once the first segment is written. */
  const CONTENTS: Contents :=
    map[C.Listing(1) := Infos([], 0), DOCS := Docs([Cell(0, IE.DOC, false)]), DELS := Deletions([true])]

  const CLONED := [Info(0, 1)]

  lemma ImagesAre()
    ensures var segs := Run(IE.UPDATED).segments;
      && Image(segs, DOCS) == Some(Docs([Cell(0, IE.DOC, false)])) && Image(segs, DELS) == Some(Deletions([true]))
  {
    IE.UpdatedState();
    var cells := Run(IE.UPDATED).segments[0].cells;
    assert Undeleted(cells) == [Cell(0, IE.DOC, false)];
    assert DeadFlags(cells) == [true];
  }

  /** The clone of startCommit keeps the first segment alone, with its deletion. */
  lemma ClonedAre(x: Whole)
    requires x.index == Run(IE.UPDATED) && x.store == Some({1}) && x.delGens == map[0 := 1] && x.contents == CONTENTS
    ensures StartCommit(x) == Some(Clone(CLONED, x.index, 1)) && FilesOf(CLONED) == {DOCS, DELS}
  {
    IE.UpdatedState();
    IE.UpdateLost();
    var first := x.index.segments[0];
    assert x.index.segments[..1] == [first];
    assert InfosOf([first], x.delGens) == CLONED;
    assert Undeleted(first.cells) == [Cell(0, IE.DOC, false)];
    assert DeadFlags(first.cells) == [true];
    WrittenIsRead(x.contents, first, 1);
    assert CLONED[1..] == [];
    assert ReadSegments(x.contents, CLONED) == Some([first] + []);
    assert [first] + [] == [first];
    assert CLONED[0] in CLONED;
  }

  /** Nothing but one empty commit and the files of the first segment lies in the directory, and no commit waits. */
  ghost predicate Few(w: C.World) {
    && w.open && w.generation == 1 && w.pending.None? && w.holds == [] && w.del.st.dir.genFile == 1
    && w.del.st.dir.files.Keys <= {CE.FIRST, DOCS, DELS}
  }

  lemma WorldOfFiles()
    ensures var w := OPEN_WORLD; var w1 := C.Do(w, C.ENewFile(DOCS)); var w2 := C.Do(w1, C.ENewFile(DELS));
      && C.Enabled(w, C.ENewFile(DOCS)) && C.Enabled(w1, C.ENewFile(DELS))
      && Few(w2) && w2.del.st.deletable == {} && w2.del.st.dir.files.Keys == {CE.FIRST, DOCS, DELS}
      && C.Enabled(w2, C.ECheckpoint({DOCS, DELS}, {}, {}))
  {
  }

  lemma WorldOfCheckpoint(w: C.World)
    requires Few(w) && w.del.st.deletable == {} && C.Enabled(w, C.ECheckpoint({DOCS, DELS}, {}, {}))
    ensures var e := C.ECheckpoint({DOCS, DELS}, {}, {});
      && CommitSafety.Sound(w, e) && Few(C.Do(w, e)) && C.Do(w, e).infos == {DOCS, DELS}
  {
    CommitGuards.CheckpointKeeps(w.del, {DOCS, DELS}, {}, {});
    hide C.Checkpoint, CommitGuards.Drained, CommitGuards.KnownKept, CommitGuards.Queues;
    assert w.del.st.deletable - {} == {};
  }

  lemma FilesSound(w: C.World, n: C.Name)
    ensures CommitSafety.Sound(w, C.ENewFile(n))
  {
  }

  lemma FiledState()
    ensures var x := RunMoves(FILED);
      && CommitSafety.SoundRun(Commits(FILED)) && Few(x.world) && x.world.infos == {DOCS, DELS} && x.held == []
      && x.index == Run(IE.UPDATED) && x.store == Some({1}) && x.delGens == map[0 := 1] && x.contents == CONTENTS
  {
    OpenedState();
    ChangedState();
    ImagesAre();
    WorldOfFiles();
    hide RunMoves, Commits, C.Do, C.Enabled, Image, CommitSafety.Sound, Few;
    var ms := CHANGED;
    FilesSound(RunMoves(ms).world, DOCS);
    SoundOn(ms, C.ENewFile(DOCS));
    ms := ms + [Committing(C.ENewFile(DOCS))];
    FilesSound(RunMoves(ms).world, DELS);
    SoundOn(ms, C.ENewFile(DELS));
    ms := ms + [Committing(C.ENewFile(DELS))];
    assert RunMoves(ms).contents == CONTENTS;
    WorldOfCheckpoint(RunMoves(ms).world);
    SoundOn(ms, C.ECheckpoint({DOCS, DELS}, {}, {}));
  }

  // ---------- the commit ----------

  /** The commit while it is synced, and when it is written. */
  lemma HoldWorld(w: C.World)
    requires Few(w) && w.infos == {DOCS, DELS}
    ensures var e := C.EHold({DOCS, DELS}); var w1 := C.Do(w, e);
      && C.Enabled(w, e) && CommitSafety.Sound(w, e)
      && w1 == w.(del := w1.del, holds := [{DOCS, DELS}]) && w1.del.st.dir == w.del.st.dir
  {
  }

  lemma SyncWorld(w: C.World, n: C.Name)
    requires w.open && w.pending.None? && w.holds == [{DOCS, DELS}] && n in {DOCS, DELS}
    ensures var e := C.ESyncFile(0, n); var w1 := C.Do(w, e);
      && C.Enabled(w, e) && CommitSafety.Sound(w, e) && w1 == w.(del := w1.del)
      && w1.del.st.dir.files == w.del.st.dir.files && w1.del.st.dir.genFile == w.del.st.dir.genFile
      && w1.del.st.synced == w.del.st.synced + {n}
  {
  }

  lemma PublishWorld(w: C.World)
    requires w.open && w.pending.None? && w.holds == [{DOCS, DELS}] && {DOCS, DELS} <= w.del.st.synced
    requires w.generation == 1 && w.del.st.dir.genFile == 1 && w.del.st.dir.files.Keys <= {CE.FIRST, DOCS, DELS}
    ensures var e, e' := C.EPrepare(0, true, {}), C.EPublish(true, {}); var w1 := C.Do(w, e); var w2 := C.Do(w1, e');
      && C.Enabled(w, e) && C.Enabled(w1, e') && CommitSafety.Sound(w1, e')
      && w2.open && w2.pending == C.Some(C.Pending(C.Commit(2, {DOCS, DELS} + {CE.NEXT}), true))
      && w2.del.st.dir.genFile == 1 && w2.del.st.dir.files.Keys <= {CE.FIRST, CE.NEXT, DOCS, DELS}
  {
  }

  const CLONE := Clone(CLONED, Run(IE.UPDATED), 1)

  lemma HeldState()
    ensures var ms := FILED + [Committing(C.EHold({DOCS, DELS}))];
            var x := RunMoves(ms);
      && CommitSafety.SoundRun(Commits(ms)) && x.held == [Some(CLONE)] && x.index == Run(IE.UPDATED)
      && x.world.open && x.world.pending.None? && x.world.holds == [{DOCS, DELS}] && x.world.generation == 1
      && x.world.del.st.dir == RunMoves(FILED).world.del.st.dir && Few(RunMoves(FILED).world)
  {
    FiledState();
    var x := RunMoves(FILED);
    ClonedAre(x);
    HoldWorld(x.world);
    hide RunMoves, Commits, C.Do, C.Enabled, StartCommit, CommitSafety.Sound, FilesOf;
    SoundOn(FILED, C.EHold({DOCS, DELS}));
  }

  lemma PublishedState()
    ensures var x := RunMoves(PUBLISHED); var w := x.world;
      && CommitSafety.SoundRun(Commits(PUBLISHED)) && x.index == Run(IE.UPDATED)
      && 2 in x.clones && x.clones[2] == CLONE
      && w.open && w.pending == C.Some(C.Pending(C.Commit(2, {DOCS, DELS} + {CE.NEXT}), true))
      && w.del.st.dir.genFile == 1 && w.del.st.dir.files.Keys <= {CE.FIRST, CE.NEXT, DOCS, DELS}
  {
    HeldState();
    var ms := FILED + [Committing(C.EHold({DOCS, DELS}))];
    var x := RunMoves(ms);
    SyncWorld(x.world, DOCS);
    hide RunMoves, Commits, C.Do, C.Enabled, StartCommit, CommitSafety.Sound, FilesOf;
    SoundOn(ms, C.ESyncFile(0, DOCS));
    ms := ms + [Committing(C.ESyncFile(0, DOCS))];
    SyncWorld(RunMoves(ms).world, DELS);
    SoundOn(ms, C.ESyncFile(0, DELS));
    ms := ms + [Committing(C.ESyncFile(0, DELS))];
    PublishWorld(RunMoves(ms).world);
    PrepareSound(ms);
    SoundOn(ms, C.EPrepare(0, true, {}));
    ms := ms + [Committing(C.EPrepare(0, true, {}))];
    SoundOn(ms, C.EPublish(true, {}));
  }

  lemma PrepareSound(ms: seq<Move>)
    requires CommitSafety.SoundRun(Commits(ms)) && RunMoves(ms).world.open
    ensures CommitSafety.Sound(RunMoves(ms).world, C.EPrepare(0, true, {}))
  {
    hide RunMoves, Commits, C.Run, CommitSafety.SoundRun;
    WorldIsRun(ms);
    CommitReaders.PrepareAlwaysSpares(Commits(ms), 0, true, {});
  }

  /** A reader of the commit finds no document, though the plain log reads as the old document when the commit flushes
      and as the new one from the update on. */
  lemma UpdateIsLost()
    ensures var x := RunMoves(PUBLISHED);
      && CommitSafety.SoundRun(Commits(PUBLISHED))
      && C.Open(x.world.del.st.dir) == C.Some(C.Commit(2, {DOCS, DELS, CE.NEXT}))
         && Documents(x.contents, 2) == Some([])
      && Replay(RunMoves(FLUSHED).index.log) == [Entry(0, IE.DOC)] && View(x.index) == [Entry(1, IE.NEWER)]
  {
    var x := RunMoves(PUBLISHED);
    FlushedState();
    PublishedState();
    IE.UpdateLost();
    WorldIsRun(PUBLISHED);
    hide RunMoves, Commits, Run, CommitSafety.SoundRun, C.Run;
    CommitReaders.ReaderFindsLastCommit(Commits(PUBLISHED));
    TopIs(x.world.del.st.dir);
    assert {DOCS, DELS} + {CE.NEXT} == {DOCS, DELS, CE.NEXT};
    hide C.Open, C.Top;
    ReaderFindsDocuments(PUBLISHED);
  }

  lemma TopIs(d: C.Directory)
    requires d.genFile == 1 && d.files.Keys <= {CE.FIRST, CE.NEXT, DOCS, DELS}
    ensures C.Top(d) <= 2
  {
    assert C.Generations(d) <= {1, 2};
  }

  /** On an index of no segments, a document that another thread adds opens a doc store before startCommit looks for its
      segments: the loop then has none to stop at. */
  lemma NothingToStopAt()
    ensures !LoopEnds(RunMoves(OPENED + [Indexing(EWrite(None, IE.DOC))]))
  {
    OpenedState();
    hide RunMoves, Commits;
    IndexOn(OPENED, [], EWrite(None, IE.DOC));
    IE.RunOn([], EWrite(None, IE.DOC));
  }
}
