/**
 What a run of commits leaves on disk: a reader, even after a crash, finds the last finished commit.
 */
module CommitSafety {
  import opened CommitFiles
  import opened CommitRuns
  import opened CommitLists
  import opened CommitGuards
  import opened CommitKeeping

  // ---------- the invariant ----------

  predicate Intact(d: Directory, n: Name) { n in d.files && d.files[n].ok }

  ghost predicate AllIntact(d: Directory, ns: set<Name>) { forall n :: n in ns ==> Intact(d, n) }

  /** The prepared commit waits on disk; only its segments_N is not yet valid, or not yet synced. */
  ghost predicate PendingOk(w: World, p: Pending) {
    var d, c := w.del.st.dir, p.commit;
    && c.gen == w.generation > w.last.gen && Listing(c.gen) in c.files
    && Listing(c.gen) in d.files && d.files[Listing(c.gen)] == File(Body(c), p.published)
    && forall n :: n in Body(c) ==> Intact(d, n) && n in d.synced
  }

  /** The only readable segments_N beyond the last finished commit is a published one. */
  ghost predicate ListingsOk(w: World) {
    forall g: nat :: g > w.last.gen && Intact(w.del.st.dir, Listing(g)) ==>
      w.pending.Some? && w.pending.value.published && w.pending.value.commit.gen == g
  }

  ghost predicate DiskInv(w: World) {
    CommitOk(w.del.st.dir, w.last) && ListingsOk(w) && w.del.st.dir.genFile <= w.last.gen
  }

  /** What the writer takes to be on stable storage is. */
  ghost predicate SyncedOk(st: Store) {
    forall n :: n in st.synced ==> Count(st.counts, n) > 0 && Intact(st.dir, n) && n in st.dir.synced
  }

  /** No listed commit is newer than the generation, and each names data besides its segments_N. */
  ghost predicate CommitsOk(commits: seq<Commit>, gen: nat) {
    forall c :: c in commits ==> c.gen <= gen && DataOnly(Body(c))
  }

  ghost predicate FilesInv(w: World) {
    && w.last in w.del.commits && w.generation >= w.last.gen && CommitsOk(w.del.commits, w.generation)
    && w.del.lastFiles != [] && w.del.lastFiles[0] == w.infos
    && AllIntact(w.del.st.dir, w.infos) && (forall i :: 0 <= i < |w.holds| ==> AllIntact(w.del.st.dir, w.holds[i]))
    && SyncedOk(w.del.st) && (w.pending.Some? ==> PendingOk(w, w.pending.value))
  }

  ghost predicate Base(w: World) { CountInv(w) && Plain(w) && PendingUncounted(w) }

  ghost predicate Inv(w: World) { Base(w) && DiskInv(w) && (w.open ==> FilesInv(w)) }

  // ---------- what is in use ----------

  lemma HeldReferenced(w: World, n: Name)
    requires CountInv(w) && w.open && w.del.lastFiles != []
    requires n in w.del.lastFiles[0] || (exists i :: 0 <= i < |w.holds| && n in w.holds[i])
             || (w.pending.Some? && n in Body(w.pending.value.commit))
    ensures Count(w.del.st.counts, n) > 0
  {
    assert Count(w.del.st.counts, n) == Total(w.del, Extra(w), n);
    if n in w.del.lastFiles[0] {
      RefsIn(w.del.lastFiles, 0, n);
    } else if i :| 0 <= i < |w.holds| && n in w.holds[i] {
      assert Extra(w)[i] == w.holds[i];
      RefsIn(Extra(w), i, n);
    } else {
      assert Extra(w)[|w.holds|] == Body(w.pending.value.commit);
      RefsIn(Extra(w), |w.holds|, n);
    }
  }

  /** What is referenced after a step that spares, and was whole, is whole. */
  lemma SparedIntact(w: World, w': World, ns: set<Name>)
    requires Spared(w, w') && AllIntact(w.del.st.dir, ns) && ns !! PendingName(w)
    requires forall n :: n in ns ==> Count(w'.del.st.counts, n) > 0
    ensures AllIntact(w'.del.st.dir, ns)
  {
  }

  lemma InfosData(w: World)
    requires Plain(w) && w.del.lastFiles != [] && w.del.lastFiles[0] == w.infos
    ensures DataOnly(w.infos) && forall x: World :: w.infos !! PendingName(x)
  {
    assert Union(w.del.lastFiles) == w.del.lastFiles[0] + Union(w.del.lastFiles[1..]);
  }

  /** Files only went, and the others are what they were. */
  ghost predicate Shrinks(st: Store, st': Store) {
    && st'.dir.genFile == st.dir.genFile
    && forall n :: n in st'.dir.files ==>
         n in st.dir.files && st'.dir.files[n] == st.dir.files[n] && (n in st'.dir.synced <==> n in st.dir.synced)
  }

  lemma KeepsShrinks(st: Store, st': Store, touched: set<Name>, swept: set<Name>)
    requires Keeps(st, st', touched, swept)
    ensures Shrinks(st, st')
  {
  }

  /** What the writer knows to be synced stays so when what is referenced is spared. */
  lemma SyncedCarried(w: World, w': World)
    requires Inv(w) && w.open && Spared(w, w') && Shrinks(w.del.st, w'.del.st)
    requires w'.del.st.synced <= w.del.st.synced && Known(w'.del.st)
    ensures SyncedOk(w'.del.st)
  {
    forall n | n in w'.del.st.synced ensures Intact(w'.del.st.dir, n) && n in w'.del.st.dir.synced {
      assert Count(w.del.st.counts, n) > 0 && n !in PendingName(w);
      assert Stays(w.del.st.dir, w'.del.st.dir, n);
    }
  }

  /** An operation of the deleter that spares what is referenced keeps the invariant. */
  lemma Carries(w: World, w': World)
    requires Inv(w) && w.open && Base(w') && w'.open && Spared(w, w') && Shrinks(w.del.st, w'.del.st)
             && CommitOk(w'.del.st.dir, w.last)
    requires w'.last == w.last && w'.generation == w.generation && w'.del.commits == w.del.commits
    requires w'.pending == w.pending || (w'.pending.None? && !w.pending.value.published)
    requires w'.del.lastFiles != [] && w'.del.lastFiles[0] == w'.infos && AllIntact(w.del.st.dir, w'.infos)
    requires forall i :: 0 <= i < |w'.holds| ==> AllIntact(w.del.st.dir, w'.holds[i])
    requires w'.del.st.synced <= w.del.st.synced && Known(w'.del.st)
    ensures Inv(w')
  {
    hide Spared, CountInv;
    SyncedCarried(w, w');
    InfosData(w');
    forall n | n in w'.infos || (exists i :: 0 <= i < |w'.holds| && n in w'.holds[i]) || n in PendingBody(w')
      ensures Count(w'.del.st.counts, n) > 0
    {
      HeldReferenced(w', n);
    }
    SparedIntact(w, w', w'.infos);
    HoldsData(w');
    forall i | 0 <= i < |w'.holds| ensures AllIntact(w'.del.st.dir, w'.holds[i]) { SparedIntact(w, w', w'.holds[i]); }
    if w'.pending.Some? {
      assert PendingName(w) !! PendingBody(w);
      SparedIntact(w, w', PendingBody(w));
      PendingListed(w, w');
    }
  }

  lemma HoldsData(w: World)
    requires CountInv(w)
    ensures forall i, x: World {:trigger w.holds[i], PendingName(x)} :: 0 <= i < |w.holds| ==>
              w.holds[i] !! PendingName(x)
    ensures forall i :: 0 <= i < |w.holds| ==> DataOnly(w.holds[i])
  {
  }

  lemma PendingListed(w: World, w': World)
    requires Spared(w, w') && w.pending.Some? && w'.pending == w.pending
             && Listing(w.pending.value.commit.gen) in w.del.st.dir.files
    ensures Listing(w.pending.value.commit.gen) in w'.del.st.dir.files
  {
    assert Listing(w.pending.value.commit.gen) in PendingName(w) * PendingName(w');
  }

  // ---------- steps ----------

  /** Besides sparing what is referenced: the sync of segments_N works, that file is not about to be swept, and the
      policy keeps the newest commit. */
  predicate Obeys(w: World, e: Event) {
    match e
    case EFinish(synced, _, gens, locked) => synced && w.generation !in gens && PendingName(w) !! Swept(w, locked)
    case EReopen(gens, _) => Open(w.del.st.dir).Some? ==> Open(w.del.st.dir).value.gen !in gens
    case _ => true
  }

  predicate Sound(w: World, e: Event) { Enabled(w, e) ==> Spares(w, e) && Obeys(w, e) }

  predicate SoundRun(es: seq<Event>) {
    es == [] || (SoundRun(es[..|es| - 1]) && Sound(Run(es[..|es| - 1]), es[|es| - 1]))
  }

  lemma {:induction false} SoundIsSpared(es: seq<Event>)
    requires SoundRun(es)
    ensures SparedRun(es)
  {
    if es != [] { SoundIsSpared(es[..|es| - 1]); }
  }

  /** What holds before and after any event of a run that spares. */
  ghost predicate Steps(es: seq<Event>, e: Event, w: World, w': World) {
    && w == Run(es) && w' == Do(w, e) && Enabled(w, e) && Spares(w, e) && SparedRun(es + [e])
    && Inv(w) && Base(w') && (w.open && !e.ECrash? ==> Spared(w, w'))
  }

  lemma StepsFrom(es: seq<Event>, e: Event)
    requires SparedRun(es) && Inv(Run(es)) && Enabled(Run(es), e) && Spares(Run(es), e)
    ensures Steps(es, e, Run(es), Do(Run(es), e))
  {
    assert (es + [e])[..|es|] == es && Run(es + [e]) == Do(Run(es), e);
    CountsAreExact(es + [e]);
    PlainRuns(es + [e]);
    PendingStaysUncounted(es + [e]);
    if Run(es).open && !e.ECrash? { StaysIffSpared(es, e); }
  }

  /** The last finished commit stays whole. */
  lemma LastStays(es: seq<Event>, e: Event, w: World, w': World)
    requires Steps(es, e, w, w') && (w'.open ==> w.last in w'.del.commits)
    ensures CommitOk(w'.del.st.dir, w.last)
  {
    CommitStep(es, e, w.last);
  }

  lemma CheckpointStep(es: seq<Event>, e: Event, w: World, w': World)
    requires Steps(es, e, w, w') && e.ECheckpoint?
    ensures Inv(w')
  {
    CheckpointKeeps(w.del, e.infos, e.docs, e.locked);
    KeepsShrinks(w.del.st, w'.del.st, Union(w.del.lastFiles), w.del.st.deletable - e.locked);
    LastStays(es, e, w, w');
    hide Checkpoint, Keeps, Drained, Base, CommitOk, ListingsOk, Steps, CommitFiles.Run, CommitsOk, DataOnly, IncRef,
         PendingOk;
    assert forall n :: n in e.infos ==> Intact(w.del.st.dir, n);
    Carries(w, w');
  }

  lemma RefreshStep(es: seq<Event>, e: Event, w: World, w': World)
    requires Steps(es, e, w, w') && e.ERefresh?
    ensures Inv(w')
  {
    RefreshKeeps(w.del.st, e.segment, e.locked);
    KeepsShrinks(w.del.st, w'.del.st, Uncounted(w.del.st, e.segment), {});
    LastStays(es, e, w, w');
    hide Refresh, Keeps, Drained, Base, CommitOk, ListingsOk, Steps, CommitFiles.Run;
    Carries(w, w');
  }

  lemma HoldStep(es: seq<Event>, e: Event, w: World, w': World)
    requires Steps(es, e, w, w') && e.EHold?
    ensures Inv(w')
  {
    LastStays(es, e, w, w');
    IncRefKeeps(w.del.st, e.ns);
    forall i | 0 <= i < |w'.holds| ensures AllIntact(w.del.st.dir, w'.holds[i]) {
      if i < |w.holds| { assert w'.holds[i] == w.holds[i]; } else { assert w'.holds[i] == e.ns <= w.infos; }
    }
    hide IncRef, Base, CommitOk, ListingsOk, Steps, CommitFiles.Run;
    Carries(w, w');
  }

  lemma WithoutOne(holds: seq<set<Name>>, i: nat)
    requires i < |holds|
    ensures forall h :: h in holds[..i] + holds[i + 1..] ==> h in holds
  {
  }

  lemma HoldsIntact(w: World, holds: seq<set<Name>>)
    requires FilesInv(w) && forall h :: h in holds ==> h in w.holds
    ensures forall i :: 0 <= i < |holds| ==> AllIntact(w.del.st.dir, holds[i])
  {
    forall i | 0 <= i < |holds| ensures AllIntact(w.del.st.dir, holds[i]) { assert holds[i] in w.holds; }
  }

  lemma ReleaseStep(es: seq<Event>, e: Event, w: World, w': World)
    requires Steps(es, e, w, w') && e.ERelease?
    ensures Inv(w')
  {
    LastStays(es, e, w, w');
    DecRefKeeps(w.del.st, w.holds[e.i], e.locked);
    KeepsShrinks(w.del.st, w'.del.st, w.holds[e.i], {});
    WithoutOne(w.holds, e.i);
    HoldsIntact(w, w'.holds);
    hide DecRef, Keeps, Drained, Base, CommitOk, ListingsOk, Steps, CommitFiles.Run;
    Carries(w, w');
  }

  /** A file written anew is not one in use. */
  lemma NewFileStep(es: seq<Event>, e: Event, w: World, w': World)
    requires Steps(es, e, w, w') && e.ENewFile?
    ensures Inv(w')
  {
    LastStays(es, e, w, w');
    hide Steps, CommitFiles.Run, CountInv;
    assert Inv(w);
    forall n | n in w.infos || (exists i :: 0 <= i < |w.holds| && n in w.holds[i]) || n in PendingBody(w)
      ensures n != e.n {
      HeldReferenced(w, n);
    }
    forall i | 0 <= i < |w'.holds|
      ensures AllIntact(w'.del.st.dir, w'.holds[i])
    {
      assert AllIntact(w.del.st.dir, w.holds[i]);
    }
  }

  lemma SyncStep(es: seq<Event>, e: Event, w: World, w': World)
    requires Steps(es, e, w, w') && e.ESyncFile?
    ensures Inv(w')
  {
    LastStays(es, e, w, w');
    HeldReferenced(w, e.n);
    hide Steps, CommitFiles.Run, CountInv;
    assert Inv(w);
    forall i | 0 <= i < |w'.holds|
      ensures AllIntact(w'.del.st.dir, w'.holds[i])
    {
      assert AllIntact(w.del.st.dir, w.holds[i]);
    }
  }

  /** A commit is prepared under a name that no live commit uses. */
  lemma PrepareStep(es: seq<Event>, e: Event, w: World, w': World)
    requires Steps(es, e, w, w') && e.EPrepare?
    ensures Inv(w')
  {
    LastStays(es, e, w, w');
    if e.written {
      PreparedStep(w, w', e);
    } else {
      FailedStep(w, w', e);
    }
  }

  lemma PreparedStep(w: World, w': World, e: Event)
    requires Inv(w) && Base(w') && CommitOk(w'.del.st.dir, w.last) && e.EPrepare? && e.written && Enabled(w, e)
             && w' == Do(w, e)
    requires Spares(w, e)
    ensures Inv(w')
  {
    var n := Listing(w.generation + 1);
    hide CountInv, Plain, PendingUncounted;
    assert DataOnly(w.infos) by { InfosData(w); }
    HoldsData(w);
    WithoutOne(w.holds, e.i);
    HoldsIntact(w, w'.holds);
    assert AllIntact(w.del.st.dir, w.holds[e.i]);
    assert n !in w.holds[e.i] && Body(Commit(w.generation + 1, w.holds[e.i] + {n})) == w.holds[e.i];
    forall i | 0 <= i < |w'.holds| ensures AllIntact(w'.del.st.dir, w'.holds[i]) {
      assert w'.holds[i] in w.holds;
    }
  }

  /** A failed prepare leaves all but its own segments_N as it was, or removes it. */
  lemma FailedFiles(w: World, i: nat, locked: set<Name>)
    requires i < |w.holds|
    ensures var n, st, st' := Listing(w.generation + 1), w.del.st, Prepare(w, i, false, locked).del.st;
      && st'.dir.genFile == st.dir.genFile && KnownKept(st, st') && (n in st'.dir.files ==> !st'.dir.files[n].ok)
      && forall x :: x != n && x in st'.dir.files ==>
           x in st.dir.files && st'.dir.files[x] == st.dir.files[x] && (x in st'.dir.synced <==> x in st.dir.synced)
  {
    var n := Listing(w.generation + 1);
    var put := Put(w.del.st, n, File(w.holds[i], false));
    DecRefKeeps(put.(dir := Remove(put.dir, {n} - locked)), w.holds[i], locked);
  }

  lemma FailedStep(w: World, w': World, e: Event)
    requires Inv(w) && Base(w') && CommitOk(w'.del.st.dir, w.last) && e.EPrepare? && !e.written && Enabled(w, e)
             && w' == Do(w, e)
    requires Spared(w, w')
    ensures Inv(w')
  {
    hide CommitOk, CountInv, Plain, PendingUncounted, Spared, SyncedOk, Put, DecRef;
    FailedFiles(w, e.i, e.locked);
    HoldsData(w');
    WithoutOne(w.holds, e.i);
    HoldsIntact(w, w'.holds);
    InfosData(w);
    forall x | x in w'.infos || (exists i :: 0 <= i < |w'.holds| && x in w'.holds[i])
      ensures Count(w'.del.st.counts, x) > 0 {
      HeldReferenced(w', x);
    }
    SparedIntact(w, w', w'.infos);
    forall i | 0 <= i < |w'.holds| ensures AllIntact(w'.del.st.dir, w'.holds[i]) { SparedIntact(w, w', w'.holds[i]); }
    FailedSynced(w, w', e);
  }

  lemma FailedSynced(w: World, w': World, e: Event)
    requires Inv(w) && w.open && e.EPrepare? && !e.written && Enabled(w, e) && w' == Do(w, e) && Spared(w, w')
    ensures SyncedOk(w'.del.st)
  {
    FailedFiles(w, e.i, e.locked);
    assert w' == Prepare(w, e.i, false, e.locked);
    hide Prepare, Do, Enabled, Base, DiskInv;
    assert Known(w.del.st) && Known(w'.del.st);
    forall x | x in w'.del.st.synced ensures Intact(w'.del.st.dir, x) && x in w'.del.st.dir.synced {
      assert Stays(w.del.st.dir, w'.del.st.dir, x);
    }
  }

  lemma PublishStep(es: seq<Event>, e: Event, w: World, w': World)
    requires Steps(es, e, w, w') && e.EPublish?
    ensures Inv(w')
  {
    LastStays(es, e, w, w');
    if e.written {
      PublishedStep(w, w', e);
    } else {
      UnpreparedStep(w, w', e);
    }
  }

  lemma PublishedStep(w: World, w': World, e: Event)
    requires Inv(w) && Base(w') && CommitOk(w'.del.st.dir, w.last) && e.EPublish? && e.written && Enabled(w, e)
             && w' == Do(w, e)
    ensures Inv(w')
  {
    hide CountInv, Plain, PendingUncounted;
    forall x ensures Intact(w.del.st.dir, x) ==> Intact(w'.del.st.dir, x) {}
    forall i | 0 <= i < |w'.holds|
      ensures AllIntact(w'.del.st.dir, w'.holds[i])
    {
      assert AllIntact(w.del.st.dir, w.holds[i]);
    }
  }

  /** A prepared commit is rolled back: its segments_N goes, its files are released. */
  lemma UnpreparedStep(w: World, w': World, e: Event)
    requires Inv(w) && Base(w') && CommitOk(w'.del.st.dir, w.last) && e.EPublish? && !e.written && Enabled(w, e)
             && w' == Do(w, e)
    requires Spared(w, w')
    ensures Inv(w')
  {
    UndoneKeeps(w, e.locked);
    KeepsShrinks(w.del.st, w'.del.st, PendingBody(w), PendingName(w) - e.locked);
    forall i | 0 <= i < |w'.holds| ensures AllIntact(w.del.st.dir, w'.holds[i]) { assert w'.holds[i] == w.holds[i]; }
    hide DecRef, Keeps, Drained, Base, CommitOk, ListingsOk, Spared;
    Carries(w, w');
  }

  // ---------- finishing ----------

  lemma {:induction false} WithoutGensIn(commits: seq<Commit>, gens: set<nat>)
    ensures forall c :: c in WithoutGens(commits, gens) <==> c in commits && c.gen !in gens
  {
    if commits != [] {
      WithoutGensIn(commits[1..], gens);
      assert commits == [commits[0]] + commits[1..];
    }
  }

  lemma KeptName(st: Store, st': Store, touched: set<Name>, gone: set<Name>, n: Name)
    requires Keeps(st, st', touched, gone) && n in st.dir.files && n !in gone && Count(st'.counts, n) > 0
    ensures n in st'.dir.files && st'.dir.files[n] == st.dir.files[n] && (n in st'.dir.synced <==> n in st.dir.synced)
  {
  }

  lemma WasThere(st: Store, st': Store, touched: set<Name>, gone: set<Name>, n: Name)
    requires Keeps(st, st', touched, gone) && n in st'.dir.files
    ensures n in st.dir.files && st'.dir.files[n] == st.dir.files[n] && (n in st'.dir.synced <==> n in st.dir.synced)
  {
  }

  /** A name that is referenced in the end, and not the pending segments_N, is as it was. */
  lemma FinishedName(w: World, genFile: int, gens: set<nat>, locked: set<Name>, n: Name)
    requires w.pending.Some? && Returns(w, true, locked) && Spared(w, Finish(w, true, genFile, gens, locked))
    requires n !in PendingName(w) && Intact(w.del.st.dir, n)
             && Count(Finish(w, true, genFile, gens, locked).del.st.counts, n) > 0
    ensures var d := Finish(w, true, genFile, gens, locked).del.st.dir;
            Intact(d, n) && (n in d.synced <==> n in w.del.st.dir.synced)
  {
    var w', c, st := Finish(w, true, genFile, gens, locked), w.pending.value.commit, Written(w, true, genFile);
    FinishedKeeps(w, true, genFile, gens, locked);
    WrittenElsewhere(w, true, genFile);
    hide Finish, Keeps, Drained, KnownKept, Written, DroppedFiles, Count;
    assert Stays(w.del.st.dir, w'.del.st.dir, n);
    WasThere(st, w'.del.st, Union(DroppedFiles(w.del.commits + [c], gens)) + Body(c), st.deletable - locked, n);
  }

  /** The commit whose segments_N was synced, and of whose files none is swept, is whole, and stays listed. */
  lemma FinishedWhole(w: World, genFile: int, gens: set<nat>, locked: set<Name>)
    requires Inv(w) && w.open && w.pending.Some? && w.pending.value.published && w.generation !in gens
    requires w.pending.value.commit.files !! Swept(w, locked) && CountInv(Finish(w, true, genFile, gens, locked))
    ensures var w', c := Finish(w, true, genFile, gens, locked), w.pending.value.commit;
      c in w'.del.commits && CommitOk(w'.del.st.dir, c)
  {
    var w', c := Finish(w, true, genFile, gens, locked), w.pending.value.commit;
    hide Inv, CountInv, Spared, Keeps, Drained, KnownKept, Written, DroppedFiles, DataOnly, WithoutGens;
    PendingBodyOk(w);
    FinishedListing(w, genFile, gens, locked);
    FinishedOpen(w, genFile, gens, locked);
    WrittenElsewhere(w, true, genFile);
    FinishedKeeps(w, true, genFile, gens, locked);
    hide Finish;
    forall x | x in Body(c) ensures Intact(w'.del.st.dir, x) && x in w'.del.st.dir.synced {
      assert x in c.files && x !in Swept(w, locked);
      ListedIsCounted(w', c, x);
      KeptName(Written(w, true, genFile), w'.del.st, Union(DroppedFiles(w.del.commits + [c], gens)) + Body(c),
          w.del.st.deletable - locked, x);
    }
  }

  lemma PendingBodyOk(w: World)
    requires Inv(w) && w.open && w.pending.Some?
    ensures var c := w.pending.value.commit;
      && c.files == Body(c) + {Listing(c.gen)} && DataOnly(Body(c)) && c.gen > w.last.gen >= 1 && Returns(w, true, {})
      && forall x :: x in Body(c) ==> Intact(w.del.st.dir, x) && x in w.del.st.dir.synced && x !in PendingName(w)
  {
    assert PendingOk(w, w.pending.value);
  }

  lemma FinishedListing(w: World, genFile: int, gens: set<nat>, locked: set<Name>)
    requires Inv(w) && w.open && w.pending.Some? && w.pending.value.published && w.generation !in gens
    requires w.pending.value.commit.files !! Swept(w, locked) && CountInv(Finish(w, true, genFile, gens, locked))
    ensures var w', c := Finish(w, true, genFile, gens, locked), w.pending.value.commit;
            var n, d := Listing(c.gen), w'.del.st.dir;
      c in w'.del.commits && n in d.files && d.files[n] == File(Body(c), true) && n in d.synced
  {
    var w', c, st := Finish(w, true, genFile, gens, locked), w.pending.value.commit, Written(w, true, genFile);
    var n := Listing(c.gen);
    assert Returns(w, true, locked) && n in w.del.st.dir.files && n in c.files;
    FinishedKeeps(w, true, genFile, gens, locked);
    FinishedOpen(w, genFile, gens, locked);
    WithoutGensIn(w.del.commits + [c], gens);
    assert n in st.dir.files && n in st.dir.synced && st.dir.files[n] == File(Body(c), true);
    assert n !in Swept(w, locked);
    hide Finish, Keeps, Drained, KnownKept, DroppedFiles, Inv;
    ListedIsCounted(w', c, n);
    KeptName(st, w'.del.st, Union(DroppedFiles(w.del.commits + [c], gens)) + Body(c), st.deletable - locked, n);
  }

  lemma FinishedOpen(w: World, genFile: int, gens: set<nat>, locked: set<Name>)
    requires w.pending.Some? && Returns(w, true, locked)
    ensures var w' := Finish(w, true, genFile, gens, locked);
      && w'.open == w.open && w'.pending.None? && w'.last == w.pending.value.commit && w'.infos == w.infos
         && w'.generation == w.generation
  {
    hide CommitCheckpoint, DecRef, Body;
  }

  lemma FinishStep(es: seq<Event>, e: Event, w: World, w': World)
    requires Steps(es, e, w, w') && e.EFinish? && Obeys(w, e)
    ensures Inv(w') && w'.last == w.pending.value.commit
  {
    assert w' == Finish(w, true, e.genFile, e.gens, e.locked);
    hide Steps, CommitFiles.Run, Do, Finish, Base;
    FinishedOpen(w, e.genFile, e.gens, e.locked);
    NoneOfItSwept(w, e);
    FinishedWhole(w, e.genFile, e.gens, e.locked);
    FinishedDisk(w, w', e);
    FinishedFiles(w, w', e);
  }

  /** The guard covers the body of the commit that joins the list. */
  lemma NoneOfItSwept(w: World, e: Event)
    requires w.pending.Some? && e.EFinish? && Spares(w, e) && Obeys(w, e) && Returns(w, true, e.locked)
    requires Listing(w.pending.value.commit.gen) in w.pending.value.commit.files
             && w.generation == w.pending.value.commit.gen
    ensures w.pending.value.commit.files !! Swept(w, e.locked)
  {
    var c := w.pending.value.commit;
    WithoutGensIn(w.del.commits + [c], e.gens);
    assert c in w.del.commits + [c];
    var i :| 0 <= i < |WithoutGens(w.del.commits + [c], e.gens)| && WithoutGens(w.del.commits + [c], e.gens)[i] == c;
    forall n | n in c.files ensures n !in Swept(w, e.locked) {
      RefsIn(FilesOf(WithoutGens(w.del.commits + [c], e.gens)), i, n);
      RefsUnion(FilesOf(WithoutGens(w.del.commits + [c], e.gens)), n);
    }
  }

  lemma FinishedDisk(w: World, w': World, e: Event)
    requires Inv(w) && e.EFinish? && e.synced && Enabled(w, e) && w' == Finish(w, true, e.genFile, e.gens, e.locked)
    requires Returns(w, true, e.locked)
    ensures ListingsOk(w') && w'.del.st.dir.genFile <= w'.last.gen
  {
    FinishedKeeps(w, true, e.genFile, e.gens, e.locked);
    FinishedOpen(w, e.genFile, e.gens, e.locked);
    WrittenElsewhere(w, true, e.genFile);
    hide Finish, CountInv, Plain, DroppedFiles;
    forall g: nat | g > w'.last.gen ensures Intact(w'.del.st.dir, Listing(g)) ==> Intact(w.del.st.dir, Listing(g)) {
      assert Listing(g) !in PendingName(w);
    }
  }

  lemma FinishedFiles(w: World, w': World, e: Event)
    requires Inv(w) && w.open && w.pending.Some? && e.EFinish? && w' == Finish(w, true, e.genFile, e.gens, e.locked)
    requires Returns(w, true, e.locked) && Spared(w, w') && Base(w') && w'.last in w'.del.commits
    ensures FilesInv(w')
  {
    hide DiskInv, PendingOk, Enabled, Plain, DataOnly, PendingUncounted, CountInv, Swept, Spares;
    FinishedOpen(w, e.genFile, e.gens, e.locked);
    FinishedLists(w, e.genFile, e.gens, e.locked);
    HoldsData(w);
    InfosData(w);
    hide Finish, Spared;
    forall x | x in w'.infos || (exists i :: 0 <= i < |w'.holds| && x in w'.holds[i])
      ensures Count(w'.del.st.counts, x) > 0 {
      HeldReferenced(w', x);
    }
    SparedIntact(w, w', w'.infos);
    forall i | 0 <= i < |w'.holds| ensures AllIntact(w'.del.st.dir, w'.holds[i]) {
      assert AllIntact(w.del.st.dir, w.holds[i]);
      SparedIntact(w, w', w'.holds[i]);
    }
    forall n | n in w'.del.st.synced ensures Intact(w'.del.st.dir, n) && n in w'.del.st.dir.synced {
      KnownNotPending(w, n);
      FinishedName(w, e.genFile, e.gens, e.locked, n);
    }
  }

  lemma KnownNotPending(w: World, n: Name)
    requires PendingUncounted(w) && SyncedOk(w.del.st) && n in w.del.st.synced
    ensures n !in PendingName(w)
  {
  }

  lemma FinishedLists(w: World, genFile: int, gens: set<nat>, locked: set<Name>)
    requires Inv(w) && w.open && w.pending.Some? && Returns(w, true, locked)
    ensures var w' := Finish(w, true, genFile, gens, locked);
      && CommitsOk(w'.del.commits, w'.generation) && w'.del.lastFiles == w.del.lastFiles && w'.holds == w.holds
      && Known(w'.del.st) && w'.del.st.synced <= w.del.st.synced
  {
    FinishedKeeps(w, true, genFile, gens, locked);
    FinishedOpen(w, genFile, gens, locked);
    WrittenElsewhere(w, true, genFile);
    WithoutGensIn(w.del.commits + [w.pending.value.commit], gens);
    hide Finish, Keeps, Drained, DroppedFiles, Written;
    assert Known(w.del.st) && Known(Written(w, true, genFile));
  }

  // ---------- closing, crashing, opening ----------

  /** A writer closes with nothing readable beyond the last finished commit. */
  lemma ClosedStep(es: seq<Event>, e: Event, w: World, w': World)
    requires Steps(es, e, w, w') && (e.ERollback? || e.EClose?)
    ensures Inv(w') && w'.last == w.last
  {
    hide Do, Enabled, CommitFiles.Run, Spares, CommitOk, CountInv, Plain, PendingUncounted, FilesInv, Spared, SparedRun;
    ClosedShrinks(w, w', e);
    LastStays(es, e, w, w');
    assert forall g: nat :: Intact(w'.del.st.dir, Listing(g)) ==> Intact(w.del.st.dir, Listing(g));
  }

  lemma ClosedShrinks(w: World, w': World, e: Event)
    requires CountInv(w) && Enabled(w, e) && w' == Do(w, e) && (e.ERollback? || e.EClose?)
    ensures Shrinks(w.del.st, w'.del.st) && !w'.open && w'.last == w.last && w'.pending.None?
    ensures w.pending.Some? ==> !w.pending.value.published
  {
    if e.ERollback? {
      RollbackKeeps(w, e.locked);
      NonePending(w, e.locked);
      RollbackFields(w, e.locked);
      hide Rollback;
      KeepsShrinks(w.del.st, w'.del.st, RolledBack(w, e.locked),
          (PendingName(w) - e.locked) + (w.del.st.deletable - e.locked));
    } else {
      CloseKeeps(w.del, e.locked);
      hide Close;
      KeepsShrinks(w.del.st, w'.del.st, Union(w.del.lastFiles), w.del.st.deletable - e.locked);
    }
  }

  lemma RollbackFields(w: World, locked: set<Name>)
    ensures var w' := Rollback(w, locked);
      !w'.open && w'.last == w.last && w'.infos == Body(w.last) && w'.generation == w.generation
  {
    hide Undone, Checkpoint, Close, Refresh, Body;
  }

  lemma CrashStep(es: seq<Event>, e: Event, w: World, w': World)
    requires Steps(es, e, w, w') && e.ECrash?
    ensures Inv(w')
  {
    assert forall n :: n in w.del.st.dir.files && n in w.del.st.dir.synced ==>
             n in w'.del.st.dir.files && w'.del.st.dir.files[n] == w.del.st.dir.files[n];
    hide Steps, CommitFiles.Run, CountInv;
    assert Inv(w) && Base(w');
    if w'.last != w.last {
      var c := w.pending.value.commit;
      assert c.files == Body(c) + {Listing(c.gen)};
      assert w'.del.st.dir.files[Listing(c.gen)].infos == Body(c);
    }
  }

  /** Nothing beyond the last finished commit is readable, so opening finds it or nothing. */
  lemma ClosedOpens(w: World)
    requires DiskInv(w) && w.pending.None?
    ensures Top(w.del.st.dir) >= w.last.gen
    ensures Open(w.del.st.dir) == if Top(w.del.st.dir) <= w.last.gen + 1 then Some(w.last) else None
  {
    assert w.last.files == Body(w.last) + {Listing(w.last.gen)};
    OpenFinds(w.del.st.dir, w.last);
  }

  lemma ReopenStep(es: seq<Event>, e: Event, w: World, w': World)
    requires Steps(es, e, w, w') && e.EReopen? && Obeys(w, e)
    ensures Inv(w')
  {
    var dir := w.del.st.dir;
    if CanReopen(dir) && Top(dir) >= 0 {
      ClosedOpens(w);
      OpenIsOnDisk(dir);
      NewDeleterKeeps(dir, w.last, e.gens, e.locked);
      CommitsUpToAre(dir, Top(dir));
      WithoutGensIn(CommitsUpTo(dir, Top(dir)), e.gens);
      assert w.last in w'.del.commits;
      LastStays(es, e, w, w');
      ReopenedFiles(w, w', e);
    }
  }

  lemma ReopenedFiles(w: World, w': World, e: Event)
    requires DiskInv(w) && Plain(w) && w.pending.None? && e.EReopen? && CountInv(w') && CanReopen(w.del.st.dir)
             && Top(w.del.st.dir) >= 0
    requires Open(w.del.st.dir) == Some(w.last) && w' == Reopen(w, e.gens, e.locked) && w.last in w'.del.commits
    ensures FilesInv(w') && ListingsOk(w')
  {
    var dir := w.del.st.dir;
    hide CommitOf, CountInv, CommitOk, NewDeleter, CommitsUpTo, Loaded;
    OpenIsOnDisk(dir);
    NewDeleterKeeps(dir, w.last, e.gens, e.locked);
    ReopenedCommits(w, e.gens, e.locked);
    LoadedKnown(dir, w.last, e.locked);
    hide Open, CanReopen, Top, WithoutGens;
    CurrentStays(w, w');
    assert w'.del.lastFiles[0] == w'.infos == Body(w.last) <= w.last.files;
    assert forall g: nat :: Intact(w'.del.st.dir, Listing(g)) ==> Intact(w.del.st.dir, Listing(g));
  }

  /** The commit that was opened is referenced and stays. */
  lemma CurrentStays(w: World, w': World)
    requires CountInv(w') && w'.open && w.last in w'.del.commits && CommitOk(w.del.st.dir, w.last)
    requires forall n :: n in w'.del.st.dir.files ==>
               n in w.del.st.dir.files && w'.del.st.dir.files[n] == w.del.st.dir.files[n]
    requires forall n :: n in w'.del.st.dir.files ==> (n in w'.del.st.dir.synced <==> n in w.del.st.dir.synced)
    requires forall n :: n in w.del.st.dir.files && Count(w'.del.st.counts, n) > 0 ==> n in w'.del.st.dir.files
    ensures forall n :: n in w.last.files ==>
              Intact(w'.del.st.dir, n) && n in w'.del.st.dir.synced && Count(w'.del.st.counts, n) > 0
  {
    hide CountInv;
    forall n | n in w.last.files ensures Intact(w'.del.st.dir, n) && n in w'.del.st.dir.synced
        && Count(w'.del.st.counts, n) > 0 {
      ListedIsCounted(w', w.last, n);
      assert n in w.del.st.dir.files;
    }
  }

  lemma ReopenedCommits(w: World, gens: set<nat>, locked: set<Name>)
    requires DiskInv(w) && Plain(w) && w.pending.None? && Top(w.del.st.dir) >= 0
    ensures CommitsOk(NewDeleter(w.del.st.dir, w.last, gens, locked).commits, w.last.gen)
  {
    var dir := w.del.st.dir;
    OnDisk(w);
    NewDeleterKeeps(dir, w.last, gens, locked);
    CommitsUpToAre(dir, Top(dir));
    WithoutGensIn(CommitsUpTo(dir, Top(dir)), gens);
    hide NewDeleter, CommitsUpTo;
    forall c | c in NewDeleter(dir, w.last, gens, locked).commits ensures c.gen <= w.last.gen && DataOnly(Body(c)) {
      assert Intact(dir, Listing(c.gen));
    }
  }

  lemma OnDisk(w: World)
    requires DiskInv(w)
    ensures CommitOf(w.del.st.dir, w.del.st.dir.files.Keys, w.last)
  {
    assert w.last.files == Body(w.last) + {Listing(w.last.gen)};
  }

  lemma LoadedKnown(dir: Directory, c: Commit, locked: set<Name>)
    requires Top(dir) >= 0 && CommitOf(dir, dir.files.Keys, c)
    ensures Known(Loaded(dir, c.files, locked).st)
  {
    var d := Loaded(dir, c.files, locked);
    LoadedCounted(dir, c.files, locked);
    LoadedKeeps(dir, c.files, locked);
    CommitsUpToAre(dir, Top(dir));
    assert c.gen in Generations(dir);
    var i :| 0 <= i < |d.commits| && d.commits[i] == c;
    forall n | n in c.files ensures Count(d.st.counts, n) > 0 {
      assert n in FilesOf(d.commits)[i];
      RefsIn(FilesOf(d.commits), i, n);
      assert Count(d.st.counts, n) == Total(d, [], n);
    }
  }

  lemma StepKeeps(es: seq<Event>, e: Event)
    requires SparedRun(es) && Inv(Run(es)) && Sound(Run(es), e)
    ensures Inv(Do(Run(es), e))
  {
    var w, w' := Run(es), Do(Run(es), e);
    if Enabled(w, e) {
      StepsFrom(es, e);
      hide Inv, CommitFiles.Run, Do, Enabled, Steps;
      match e
      case ENewFile(_) => NewFileStep(es, e, w, w');
      case ECheckpoint(_, _, _) => CheckpointStep(es, e, w, w');
      case ERefresh(_, _) => RefreshStep(es, e, w, w');
      case EHold(_) => HoldStep(es, e, w, w');
      case ERelease(_, _) => ReleaseStep(es, e, w, w');
      case ESyncFile(_, _) => SyncStep(es, e, w, w');
      case EPrepare(_, _, _) => PrepareStep(es, e, w, w');
      case EPublish(_, _) => PublishStep(es, e, w, w');
      case EFinish(_, _, _, _) => FinishStep(es, e, w, w');
      case ERollback(_) => ClosedStep(es, e, w, w');
      case EClose(_) => ClosedStep(es, e, w, w');
      case ECrash(_, _, _) => CrashStep(es, e, w, w');
      case EReopen(_, _) => ReopenStep(es, e, w, w');
    }
  }

  lemma {:induction false} RunKeeps(es: seq<Event>)
    requires SoundRun(es)
    ensures Inv(Run(es))
  {
    if es != [] {
      RunKeeps(es[..|es| - 1]);
      SoundIsSpared(es[..|es| - 1]);
      StepKeeps(es[..|es| - 1], es[|es| - 1]);
    }
  }

  /** The invariant, before and after a step of a sound run. */
  lemma RunStepKeeps(es: seq<Event>, e: Event)
    requires SoundRun(es) && Sound(Run(es), e)
    ensures Inv(Run(es)) && Inv(Do(Run(es), e))
  {
    RunKeeps(es);
    SoundIsSpared(es);
    StepKeeps(es, e);
  }
}
