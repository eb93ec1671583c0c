/**
 Runs in which a commit is lost: concrete inputs for which the guards and the conditions fail.
 */
module CommitExamples {
  import opened CommitFiles
  import opened CommitGuards
  import opened CommitKeeping
  import opened CommitSafety
  import opened CommitReaders
  import opened FileDeleters

  const FIRST := Listing(1)
  const NEXT := Listing(2)

  /** A writer on an index of empty commits that has nothing checkpointed. */
  function Writer(d: Directory, counts: map<Name, nat>, deletable: set<Name>, generation: nat,
                  holds: seq<set<Name>>, pending: Option<Pending>): World {
    World(Deleter(Store(d, counts, deletable, {FIRST}), [{}, {}], [EMPTY_COMMIT]), {}, generation, holds, pending,
        EMPTY_COMMIT, true)
  }

  lemma RunMore(es: seq<Event>, e: Event)
    ensures Run(es + [e]) == Do(Run(es), e)
  {
    assert (es + [e])[..|es|] == es;
  }

  const EMPTY := File({}, true)
  const TORN := File({}, false)

  lemma StartCommits(files: map<Name, File>, genFile: int)
    requires FIRST in files && files[FIRST] == EMPTY && files.Keys <= {FIRST, NEXT}
             && (NEXT in files ==> files[NEXT] == TORN) && genFile == 1
    ensures var d := Directory(files, files.Keys, genFile);
      && Open(d) == Some(EMPTY_COMMIT) && CanReopen(d) && Top(d) >= 0 && CommitsUpTo(d, Top(d)) == [EMPTY_COMMIT]
  {
    var d := Directory(files, files.Keys, genFile);
    assert 1 in Generations(d);
    assert Generations(d) <= {1, 2};
    assert 2 in Generations(d) <==> NEXT in files;
    assert Top(d) == if NEXT in files then 2 else 1;
    assert {} + {FIRST} == {FIRST};
    assert ReadCommit(d, 1) == Some(EMPTY_COMMIT);
    assert ReadCommit(d, 2) == None;
    assert CommitsUpTo(d, 0) == [];
    assert CommitsUpTo(d, 1) == [EMPTY_COMMIT];
    assert CommitsUpTo(d, 2) == [EMPTY_COMMIT];
  }

  lemma NothingTaken(d: Deleter, locked: set<Name>)
    requires d.st.deletable <= locked * d.st.dir.files.Keys && d.lastFiles == []
    ensures Checkpoint(d, {}, {}, locked) == Deleter(d.st, [{}, {}], d.commits)
  {
    var st := DeletePending(d.st, locked);
    assert d.st.deletable - locked == {} && d.st.deletable * locked * d.st.dir.files.Keys == d.st.deletable;
    RemoveOne(d.st.dir, {}, FIRST);
    assert st == d.st;
    IncRefNone(st);
  }

  ghost predicate Simple(files: map<Name, File>) {
    FIRST in files && files[FIRST] == EMPTY && files.Keys <= {FIRST, NEXT} && (NEXT in files ==> files[NEXT] == TORN)
  }

  function Ones(files: map<Name, File>): map<Name, nat> { map n | n in files :: if n == FIRST then 1 else 0 }

  lemma StartCounts(files: map<Name, File>)
    requires Simple(files)
    ensures var st0 := Store(Directory(files, files.Keys, 1), map n | n in files :: 0, {}, {FIRST});
      IncRefs(st0, [EMPTY_COMMIT]) == st0.(counts := Ones(files))
          && Unused(st0.(counts := Ones(files))) == files.Keys - {FIRST}
  {
    var commits := [EMPTY_COMMIT];
    var st0 := Store(Directory(files, files.Keys, 1), map n | n in files :: 0, {}, {FIRST});
    assert commits[0].files == {FIRST} && commits[1..] == [];
    assert IncRefs(st0, commits) == IncRefs(IncRef(st0, commits[0].files), commits[1..]) == IncRef(st0, {FIRST});
    assert IncRef(st0, {FIRST}).counts == Ones(files);
  }

  lemma QueuesAll(st: Store, ns: set<Name>)
    requires ns <= st.dir.files.Keys && st.deletable == {}
    ensures DeleteFiles(st, ns, ns) == st.(deletable := ns)
  {
    assert ns - ns == {} && {} + ns * ns * st.dir.files.Keys == ns;
    RemoveOne(st.dir, {}, FIRST);
  }

  lemma NoneDropped()
    ensures DroppedFiles([EMPTY_COMMIT], {}) == [] && WithoutGens([EMPTY_COMMIT], {}) == [EMPTY_COMMIT]
            && Body(EMPTY_COMMIT) == {}
  {
    assert [EMPTY_COMMIT][1..] == [];
    assert DroppedFiles([EMPTY_COMMIT], {}) == [] + DroppedFiles([], {});
    assert WithoutGens([EMPTY_COMMIT], {}) == [EMPTY_COMMIT] + WithoutGens([], {});
  }

  lemma StartDeleter(files: map<Name, File>, locked: set<Name>)
    requires Simple(files) && locked == files.Keys - {FIRST}
    ensures var d := Directory(files, files.Keys, 1);
      Top(d) >= 0 && NewDeleter(d, EMPTY_COMMIT, {}, locked) ==
          Deleter(Store(d, Ones(files), locked, {FIRST}), [{}, {}], [EMPTY_COMMIT])
  {
    var d := Directory(files, files.Keys, 1);
    StartCommits(files, 1);
    StartCounts(files);
    NoneDropped();
    var st := Store(d, Ones(files), {}, {FIRST});
    QueuesAll(st, locked);
    NothingTaken(Deleter(st.(deletable := locked), [], [EMPTY_COMMIT]), locked);
    hide Open, CanReopen, Top, CommitsUpTo, Ones, DeleteFiles, Unused, Checkpoint, IncRefs;
    assert EMPTY_COMMIT.files == {FIRST};
    assert DecRefs(st.(deletable := locked), [], locked) == st.(deletable := locked);
  }

  lemma ReopenIs(w: World, locked: set<Name>)
    requires !w.open && CanReopen(w.del.st.dir) && Top(w.del.st.dir) >= 0
    ensures var d := w.del.st.dir; var c := Open(d).value;
      Do(w, EReopen({}, locked)) == World(NewDeleter(d, c, {}, locked), Body(c), c.gen, [], None, c, true)
  {
    hide NewDeleter, Open, CanReopen, Top, Body;
  }

  /** Opening the index, with a torn segments_2 that someone holds open or without one. */
  lemma Opens(w: World, files: map<Name, File>, locked: set<Name>)
    requires !w.open && w.del.st.dir == Directory(files, files.Keys, 1) && Simple(files)
             && locked == files.Keys - {FIRST}
    ensures Do(w, EReopen({}, locked)) == Writer(w.del.st.dir, Ones(files), locked, 1, [], None)
    ensures Open(w.del.st.dir) == Some(EMPTY_COMMIT)
  {
    StartCommits(files, 1);
    StartDeleter(files, locked);
    NoneDropped();
    ReopenIs(w, locked);
    hide NewDeleter, Open, CanReopen, Top, CommitsUpTo, Body, Do, Ones;
  }

  lemma Holds(w: World)
    requires Enabled(w, EHold({}))
    ensures Do(w, EHold({})) == w.(holds := w.holds + [{}])
  {
    IncRefNone(w.del.st);
  }

  const PREPARED := Pending(Commit(2, {NEXT}), false)

  lemma Prepares(w: World)
    requires w.open && w.pending.None? && w.holds == [{}] && w.generation == 1
    ensures Do(w, EPrepare(0, true, {})) ==
              WithStore(w, Put(w.del.st, NEXT, TORN)).(generation := 2, holds := [], pending := Some(PREPARED))
  {
    assert {} + {NEXT} == {NEXT};
  }

  const OPENED := EReopen({}, {})
  const PHASE1 := [OPENED, EHold({}), EPrepare(0, true, {})]

  const D0 := Directory(map[FIRST := EMPTY], {FIRST}, 1)
  const D1 := Directory(map[FIRST := EMPTY, NEXT := TORN], {FIRST}, 1)

  lemma SoundMore(es: seq<Event>, e: Event)
    requires SoundRun(es) && Sound(Run(es), e)
    ensures SoundRun(es + [e])
  {
    hide Sound, CommitFiles.Run;
    assert (es + [e])[..|es|] == es;
  }

  lemma NoEvents()
    ensures Run([]) == START && SoundRun([])
  {
  }

  lemma OpenedRun()
    ensures Run([OPENED]) == Writer(D0, map[FIRST := 1], {}, 1, [], None) && SoundRun([OPENED])
  {
    hide CommitFiles.Run, SoundRun, Do, Sound, START, D0, Writer;
    assert [OPENED] == [] + [OPENED];
    NoEvents();
    RunMore([], OPENED);
    OpensFirst();
    AlwaysSound(START);
    SoundMore([], OPENED);
  }

  lemma OpensFirst()
    ensures Do(START, OPENED) == Writer(D0, map[FIRST := 1], {}, 1, [], None)
  {
    hide Do, Open;
    var files := map[FIRST := EMPTY];
    assert files.Keys == {FIRST} && files.Keys - {FIRST} == {};
    assert Ones(files) == map[FIRST := 1];
    Opens(START, files, {});
  }

  lemma AlwaysSound(w: World)
    ensures forall locked :: Sound(w, EReopen({}, locked))
  {
    hide Open;
  }

  const HELD := [OPENED, EHold({})]

  lemma HeldRun()
    ensures Run(HELD) == Writer(D0, map[FIRST := 1], {}, 1, [{}], None) && SoundRun(HELD)
  {
    OpenedRun();
    assert HELD == [OPENED] + [EHold({})] && HELD[..1] == [OPENED];
    RunMore([OPENED], EHold({}));
    Holds(Run([OPENED]));
    assert Run([OPENED]).holds + [{}] == [{}];
    hide Do, CommitFiles.Run;
  }

  /** A commit has been prepared; nothing else happened. */
  lemma PreparedRun()
    ensures Run(PHASE1) == Writer(D1, map[FIRST := 1], {}, 2, [], Some(PREPARED)) && SoundRun(PHASE1)
  {
    HeldRun();
    assert PHASE1 == HELD + [EPrepare(0, true, {})] && PHASE1[..2] == HELD;
    RunMore(HELD, EPrepare(0, true, {}));
    Prepares(Run(HELD));
    assert D0.files[NEXT := TORN] == D1.files && D0.synced - {NEXT} == {FIRST};
    hide Do, CommitFiles.Run;
  }

  // ---------- deleteAll between the two phases ----------

  lemma ChecksNothing(w: World)
    requires w.open && w.pending.Some? && !w.pending.value.published && w.infos == {} && w.del.lastFiles == [{}, {}]
             && w.del.st.deletable == {}
    ensures Do(w, ECheckpoint({}, {}, {})) == w
  {
    var st := w.del.st;
    assert st.(deletable := {}) == st;
    DeleteNone(st, {});
    IncRefNone(st);
    DecRefNone(st, {});
    var two: seq<set<Name>>, one: seq<set<Name>> := [{}, {}], [{}];
    assert two[1..] == one && one[1..] == [];
    assert DecRefs(st, two, {}) == DecRefs(st, one, {}) == DecRefs(st, one[1..], {}) == st;
    hide DecRefs, IncRef, DeleteFiles;
    assert Checkpoint(w.del, {}, {}, {}) == w.del;
  }

  const CLEARED := PHASE1 + [ECheckpoint({}, {}, {})]

  /** deleteAll after prepareCommit: its refresh of everything removes the prepared segments_2, and the second phase
      fails. */
  lemma DeleteAllLosesPrepared()
    ensures var w := Run(CLEARED + [ERefresh(None, {})]);
      && SoundRun(CLEARED) && w.pending == Some(PREPARED) && NEXT !in w.del.st.dir.files
      && !Returns(Publish(w, true, {}), true, {})
  {
    PreparedRun();
    assert CLEARED[..3] == PHASE1;
    RunMore(PHASE1, ECheckpoint({}, {}, {}));
    ChecksNothing(Run(PHASE1));
    assert SoundRun(CLEARED);
    RunMore(CLEARED, ERefresh(None, {}));
    var w := Run(CLEARED);
    assert w == Writer(D1, map[FIRST := 1], {}, 2, [], Some(PREPARED));
    assert NEXT in Uncounted(w.del.st, None);
    hide CommitFiles.Run, SoundRun;
    RefreshLosesPrepared(CLEARED, None, {}, {});
  }

  // ---------- a prepare that failed ----------

  const TWICE := HELD + [EHold({})]

  /** The second of two prepares is pending: a new reader finds no commit, though the first one is whole. */
  lemma FailedPrepareHides()
    ensures var w := Run(TWICE + [EPrepare(0, false, {})] + [EPrepare(0, true, {})]);
      SoundRun(TWICE) && CommitOk(w.del.st.dir, EMPTY_COMMIT) && Open(w.del.st.dir) == None
  {
    HeldRun();
    assert TWICE[..2] == HELD;
    RunMore(HELD, EHold({}));
    Holds(Run(HELD));
    var w, e1, e2 := Run(TWICE), EPrepare(0, false, {}), EPrepare(0, true, {});
    assert w.holds == [{}, {}] && w == Writer(D0, map[FIRST := 1], {}, 1, [{}, {}], None);
    RunMore(TWICE, e1);
    RunMore(TWICE + [e1], e2);
    assert SoundRun(TWICE);
    hide CommitFiles.Run, SoundRun;
    FailsOnce(w);
    FailedPrepareHidesLastCommit(TWICE, 0, 0, {});
  }

  lemma FailsOnce(w: World)
    requires w.open && w.pending.None? && w.holds == [{}, {}]
    ensures Enabled(w, EPrepare(0, false, {})) && Enabled(Do(w, EPrepare(0, false, {})), EPrepare(0, true, {}))
    ensures Do(w, EPrepare(0, false, {})).last == w.last
  {
    assert w.holds[..0] + w.holds[1..] == [{}];
    hide DecRef;
  }

  // ---------- a sync that failed ----------

  const PUBLISHED := PHASE1 + [EPublish(true, {})]

  const WHOLE_FILES := map[FIRST := EMPTY, NEXT := EMPTY]
  const PUBLISHED_COMMIT := Pending(Commit(2, {NEXT}), true)

  lemma PublishedRun()
    ensures Run(PUBLISHED) == Writer(Directory(WHOLE_FILES, {FIRST}, 1), map[FIRST := 1], {}, 2, [],
              Some(PUBLISHED_COMMIT))
    ensures SoundRun(PUBLISHED)
  {
    PreparedRun();
    assert PUBLISHED[..3] == PHASE1;
    RunMore(PHASE1, EPublish(true, {}));
    assert D1.files[NEXT := EMPTY] == WHOLE_FILES;
    hide CommitFiles.Run;
  }

  /** The commit returns, and cannot be read. */
  lemma UnsyncedCommitLost()
    ensures var w := Run(PUBLISHED); var w' := Do(w, EFinish(false, 2, {}, {}));
      && SoundRun(PUBLISHED) && Enabled(w, EFinish(false, 2, {}, {})) && Returns(w, false, {})
      && w'.last == Commit(2, {NEXT}) && Open(w'.del.st.dir) != Some(w'.last)
  {
    PublishedRun();
    hide CommitFiles.Run, SoundRun;
    FinishedMeansReadable(PUBLISHED, false, 2, {}, {});
  }

  // ---------- a commit that throws ----------

  /** The sync fails, and segments_2, which is held open, cannot be removed. */
  const THREW := PUBLISHED + [EFinish(false, 1, {}, {NEXT})]

  lemma ThrewRun()
    ensures Run(THREW) == Writer(Directory(WHOLE_FILES, {FIRST}, 1), map[FIRST := 1], {}, 2, [], None)
    ensures Enabled(Run(PUBLISHED), EFinish(false, 1, {}, {NEXT})) && !Returns(Run(PUBLISHED), false, {NEXT})
  {
    PublishedRun();
    RunMore(PUBLISHED, EFinish(false, 1, {}, {NEXT}));
    var w := Run(PUBLISHED);
    assert Body(PUBLISHED_COMMIT.commit) == {};
    DecRefNone(w.del.st, {NEXT});
    hide CommitFiles.Run, DecRef;
  }

  /** The call throws, the writer goes back to the first commit, and readers find the new one. */
  lemma ThrownCommitFound()
    ensures var w, w' := Run(PUBLISHED), Run(THREW);
      && SoundRun(PUBLISHED) && Enabled(w, EFinish(false, 1, {}, {NEXT})) && !Returns(w, false, {NEXT})
      && w'.last == EMPTY_COMMIT && w'.pending.None? && Open(w'.del.st.dir) == Some(Commit(2, {NEXT}))
  {
    PublishedRun();
    ThrewRun();
    var d := Directory(WHOLE_FILES, {FIRST}, 1);
    assert 2 in Generations(d) && Generations(d) <= {1, 2};
    assert Top(d) == 2;
    assert {} + {NEXT} == {NEXT};
  }

  lemma TornRun()
    ensures Run(THREW + [ECrash({}, {NEXT}, 1)]).del.st.dir == Directory(TORN_FILES, TORN_FILES.Keys, 1)
  {
    ThrewRun();
    RunMore(THREW, ECrash({}, {NEXT}, 1));
    assert Survivors(Directory(WHOLE_FILES, {FIRST}, 1), {}, {NEXT}) == TORN_FILES;
    hide CommitFiles.Run, Survivors;
  }

  /** A crash may still tear it: readers that found it then find the first commit again. */
  lemma ThrownCommitVanishes()
    ensures Open(Run(THREW).del.st.dir) == Some(Commit(2, {NEXT}))
    ensures Open(Run(THREW + [ECrash({}, {NEXT}, 1)]).del.st.dir) == Some(EMPTY_COMMIT)
  {
    hide Open, CommitFiles.Run, Do, Enabled, Returns, CanReopen, Top, CommitsUpTo;
    ThrownCommitFound();
    TornRun();
    StartCommits(TORN_FILES, 1);
  }

  // ---------- a name that is used again ----------

  const CRASHED := PHASE1 + [ECrash({}, {}, 1)]

  /** After a crash between the phases a new writer finds a torn segments_2 that another process holds open, and queues
      it. */
  const REOPENED := CRASHED + [EReopen({}, {NEXT})]
  const REUSED := REOPENED + [EHold({})] + [EPrepare(0, true, {})] + [EPublish(true, {})]

  const TORN_FILES := map[FIRST := EMPTY, NEXT := TORN]

  lemma CrashedRun()
    ensures var w := Run(CRASHED);
      SoundRun(CRASHED) && !w.open && w.del.st.dir == Directory(TORN_FILES, TORN_FILES.Keys, 1)
  {
    PreparedRun();
    assert CRASHED[..3] == PHASE1;
    RunMore(PHASE1, ECrash({}, {}, 1));
    assert Survivors(D1, {}, {}) == TORN_FILES;
  }

  lemma ReopenedRun()
    ensures Run(REOPENED) == Writer(Directory(TORN_FILES, {FIRST, NEXT}, 1), Ones(TORN_FILES), {NEXT}, 1, [], None)
            && SoundRun(REOPENED)
  {
    hide Do, Open, Enabled, Obeys, Spares;
    CrashedRun();
    assert REOPENED[..4] == CRASHED;
    RunMore(CRASHED, EReopen({}, {NEXT}));
    AlwaysSound(Run(CRASHED));
    assert TORN_FILES.Keys == {FIRST, NEXT} && TORN_FILES.Keys - {FIRST} == {NEXT};
    Opens(Run(CRASHED), TORN_FILES, {NEXT});
  }

  lemma HeldAgain()
    ensures Run(REOPENED + [EHold({})]) == Writer(Directory(TORN_FILES, {FIRST, NEXT}, 1), Ones(TORN_FILES), {NEXT}, 1,
              [{}], None)
    ensures SoundRun(REOPENED + [EHold({})])
  {
    ReopenedRun();
    assert (REOPENED + [EHold({})])[..5] == REOPENED;
    RunMore(REOPENED, EHold({}));
    Holds(Run(REOPENED));
    assert Run(REOPENED).holds + [{}] == [{}];
    hide Do, CommitFiles.Run;
  }

  lemma PreparedAgainRun()
    ensures var es := REOPENED + [EHold({})] + [EPrepare(0, true, {})];
      SoundRun(es) && Run(es) == Writer(Directory(TORN_FILES, {FIRST}, 1), Ones(TORN_FILES), {NEXT}, 2, [],
          Some(PREPARED))
  {
    HeldAgain();
    var before := REOPENED + [EHold({})];
    var es := before + [EPrepare(0, true, {})];
    assert es[..6] == before;
    RunMore(before, EPrepare(0, true, {}));
    Prepares(Run(before));
    assert Count(Ones(TORN_FILES), NEXT) == 0;
    assert TORN_FILES[NEXT := TORN] == TORN_FILES && {FIRST, NEXT} - {NEXT} == {FIRST};
    hide Do, CommitFiles.Run;
  }

  lemma ReusedRun()
    ensures var w := Run(REUSED);
      && SoundRun(REUSED) && w.open && w.generation == 2 && w.pending == Some(Pending(Commit(2, {NEXT}), true))
      && NEXT in w.del.st.dir.files && w.del.st.dir.genFile == 1 && NEXT in w.del.st.deletable
  {
    PreparedAgainRun();
    var before := REOPENED + [EHold({})] + [EPrepare(0, true, {})];
    assert REUSED[..7] == before;
    RunMore(before, EPublish(true, {}));
  }

  /** Once the file is free the next commit writes it anew, and finishing that commit removes it with the queue:
      everything was synced, the commit returns, and it is lost. */
  lemma ReusedNameLosesCommit()
    ensures var w := Run(REUSED); var w' := Do(w, EFinish(true, 2, {}, {}));
      && SoundRun(REUSED) && Enabled(w, EFinish(true, 2, {}, {})) && Returns(w, true, {})
      && w'.last == Commit(2, {NEXT}) && Open(w'.del.st.dir) != Some(w'.last)
  {
    ReusedRun();
    assert NEXT in Swept(Run(REUSED), {});
    hide CommitFiles.Run, SoundRun;
    FinishedMeansReadable(REUSED, true, 2, {}, {});
  }
}
