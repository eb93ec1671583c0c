/**
 What a reader finds in every run of commits, and exactly when the promises of a commit hold.
 */
module CommitReaders {
  import opened CommitFiles
  import opened CommitRuns
  import opened CommitGuards
  import opened CommitKeeping
  import opened CommitSafety

  // ---------- what a reader finds ----------

  /** The commit a reader is to find: the last finished one, or the one being finished once its
      segments_N is valid. */
  function Visible(w: World): Commit {
    if w.pending.Some? && w.pending.value.published then w.pending.value.commit else w.last
  }

  lemma VisibleReadable(w: World)
    requires DiskInv(w) && (w.pending.Some? ==> PendingOk(w, w.pending.value))
    ensures Visible(w).gen >= 1 && ReadCommit(w.del.st.dir, Visible(w).gen) == Some(Visible(w))
    ensures forall g :: g > Visible(w).gen ==> ReadCommit(w.del.st.dir, g).None?
  {
    var c := Visible(w);
    assert c.files == Body(c) + {Listing(c.gen)};
    assert forall g: nat :: g > c.gen ==> !Intact(w.del.st.dir, Listing(g));
  }

  /** In every run that meets the conditions of `Sound`, at every moment, a reader finds the last finished commit,
      unless a generation was skipped between it and the newest segments_N: then it finds none.  What it finds where a
      commit does not meet them, `FinishedMeansReadable` and `FoundAfterwards` say. */
  lemma ReaderFindsLastCommit(es: seq<Event>)
    requires SoundRun(es)
    ensures var w := Run(es);
      Open(w.del.st.dir) == if Top(w.del.st.dir) <= Visible(w).gen + 1 then Some(Visible(w)) else None
  {
    RunKeeps(es);
    VisibleReadable(Run(es));
    OpenFinds(Run(es).del.st.dir, Visible(Run(es)));
  }

  /** Every file of the last finished commit is whole and on stable storage, so that no crash,
      whatever it loses or tears, costs anything of it. */
  lemma CrashKeepsLastCommit(es: seq<Event>, lost: set<Name>, torn: set<Name>, genFile: int)
    requires SoundRun(es) && genFile <= Run(es).del.st.dir.genFile
    ensures forall n :: n in Run(es).last.files ==> Intact(Run(es).del.st.dir, n) && n in Run(es).del.st.dir.synced
    ensures var w, w' := Run(es), Crash(Run(es), lost, torn, genFile);
      && (w'.last == w.last || (w.pending.Some? && w.pending.value.published && w'.last == w.pending.value.commit))
      && Open(w'.del.st.dir) == if Top(w'.del.st.dir) <= w'.last.gen + 1 then Some(w'.last) else None
  {
    hide CommitFiles.Run, SoundRun, FilesInv, Base, ListingsOk, Survivors;
    var e := ECrash(lost, torn, genFile);
    RunStepKeeps(es, e);
    CrashIs(Run(es), lost, torn, genFile);
    hide Crash;
    ClosedOpens(Crash(Run(es), lost, torn, genFile));
  }

  lemma CrashIs(w: World, lost: set<Name>, torn: set<Name>, genFile: int)
    requires genFile <= w.del.st.dir.genFile
    ensures var w' := Crash(w, lost, torn, genFile);
      && Do(w, ECrash(lost, torn, genFile)) == w' && !w'.open && w'.pending.None?
      && (w'.last == w.last || (w.pending.Some? && w.pending.value.published && w'.last == w.pending.value.commit))
  {
  }

  /** Rollback gives back the files of the last finished commit, which a reader then finds. */
  lemma RollbackRestores(es: seq<Event>, locked: set<Name>)
    requires SoundRun(es) && Enabled(Run(es), ERollback(locked)) && Spares(Run(es), ERollback(locked))
    ensures var w, w' := Run(es), Do(Run(es), ERollback(locked));
      && w'.last == w.last && w'.infos == Body(w.last) && w'.pending.None? && w'.generation == w.generation
      && CommitOk(w'.del.st.dir, w.last)
      && Open(w'.del.st.dir) == if Top(w'.del.st.dir) <= w.last.gen + 1 then Some(w.last) else None
  {
    hide CommitFiles.Run, SoundRun, FilesInv, Base, ListingsOk, Undone, Checkpoint, Close, Refresh;
    var w, e := Run(es), ERollback(locked);
    RunStepKeeps(es, e);
    RollbackFields(w, locked);
    NonePending(w, locked);
    assert Do(w, e) == Rollback(w, locked);
    hide Rollback, Do, Enabled, Spares;
    ClosedOpens(Rollback(w, locked));
  }

  lemma {:induction false} SoundPrefix(es: seq<Event>, k: nat)
    requires SoundRun(es) && k <= |es|
    ensures SoundRun(es[..k])
    decreases |es|
  {
    if k == |es| {
      assert es[..k] == es;
    } else {
      SoundPrefix(es[..|es| - 1], k);
      assert es[..|es| - 1][..k] == es[..k];
    }
  }

  /** Every commit that was ever the last finished one stays whole and on stable storage for as long as the policy keeps
      it. */
  lemma FinishedStaysWhole(es: seq<Event>, k: nat)
    requires SoundRun(es) && k <= |es| && Kept(es, k, Run(es[..k]).last)
    ensures CommitOk(Run(es).del.st.dir, Run(es[..k]).last)
  {
    SoundPrefix(es, k);
    RunKeeps(es[..k]);
    SoundIsSpared(es);
    KeptCommitsStayWhole(es, k, Run(es[..k]).last);
  }

  // ---------- when the promises hold ----------

  lemma {:induction false} AheadOf(d: Directory, gen: int, left: nat, c: Commit)
    requires LookAhead(d, gen, left) == Some(c)
    ensures ReadCommit(d, c.gen) == Some(c)
    decreases left
  {
    if ReadCommit(d, gen + 1).None? { AheadOf(d, gen + 1, left - 1, c); }
  }

  lemma OnlyTheReadable(d: Directory, c: Commit)
    requires Open(d) == Some(c)
    ensures ReadCommit(d, c.gen) == Some(c)
  {
    if Open(d) == LookAhead(d, Top(d), LOOKAHEAD_COUNT) { AheadOf(d, Top(d), LOOKAHEAD_COUNT, c); }
  }

  /** Once finishCommit has returned or thrown, is the commit there to be read?  If it returned, the sync of segments_N
      must have worked and none of its files have been waiting in the queue to be removed.  If it threw, segments_N
      could not be removed, and none of the other files may have lost its last reference and be free to be removed. */
  predicate Lasts(w: World, synced: bool, locked: set<Name>)
    requires w.pending.Some?
  {
    var c := w.pending.value.commit;
    if Returns(w, synced, locked) then synced && c.files !! Swept(w, locked)
        else Gone(w.del.st.counts, Body(c)) <= locked
  }

  /** What readers are to find then. */
  function Found(w: World, synced: bool, locked: set<Name>): Commit
    requires w.pending.Some?
  {
    if Lasts(w, synced, locked) then w.pending.value.commit else w.last
  }

  /** A commit can be read after its second phase if and only if it lasts, whether the call returned or threw: neither a
      failed sync nor a swept file is reported, and a commit that is reported as failed can be what readers find. */
  lemma FinishedMeansReadable(es: seq<Event>, synced: bool, genFile: int, gens: set<nat>, locked: set<Name>)
    requires SoundRun(es) && Enabled(Run(es), EFinish(synced, genFile, gens, locked))
    requires Returns(Run(es), synced, locked) ==> Run(es).generation !in gens
    ensures var w, w' := Run(es), Finish(Run(es), synced, genFile, gens, locked); var c := w.pending.value.commit;
      && w'.last == (if Returns(w, synced, locked) then c else w.last) && w'.pending.None?
      && (ReadCommit(w'.del.st.dir, c.gen) == Some(c) <==> Lasts(w, synced, locked))
      && (Lasts(w, synced, locked) ==> Open(w'.del.st.dir) == if Top(w'.del.st.dir) <= c.gen + 1 then Some(c) else None)
      && (!Lasts(w, synced, locked) ==> Open(w'.del.st.dir) != Some(c))
  {
    hide CommitFiles.Run, SoundRun, Finish;
    RunKeeps(es);
    if Returns(Run(es), synced, locked) {
      FinishedIff(Run(es), synced, genFile, gens, locked);
    } else {
      ThrownIff(Run(es), synced, genFile, gens, locked);
    }
  }

  /** If the commit does not last, readers go on finding the last finished one, provided the policy kept it and nothing
      of it was in the queue. */
  lemma FoundAfterwards(es: seq<Event>, synced: bool, genFile: int, gens: set<nat>, locked: set<Name>)
    requires SoundRun(es) && Enabled(Run(es), EFinish(synced, genFile, gens, locked))
    requires Spares(Run(es), EFinish(synced, genFile, gens, locked))
    requires Returns(Run(es), synced, locked) ==> Run(es).generation !in gens && Run(es).last.gen !in gens
    ensures var w, d := Run(es), Finish(Run(es), synced, genFile, gens, locked).del.st.dir;
            var c := Found(w, synced, locked);
      Open(d) == if Top(d) <= c.gen + 1 then Some(c) else None
  {
    var w, e := Run(es), EFinish(synced, genFile, gens, locked);
    RunKeeps(es);
    SoundIsSpared(es);
    FinishedMeansReadable(es, synced, genFile, gens, locked);
    if !Lasts(w, synced, locked) {
      assert SparedRun(es + [e]) by { assert (es + [e])[..|es|] == es; }
      hide CommitFiles.Run, SoundRun, SparedRun, CountInv, Plain, PendingUncounted, CommitOk, Spares;
      LastKept(w, e);
      CommitStep(es, e, w.last);
      NothingNewer(w, e);
      hide Finish, Do, Enabled, Inv;
      LastOpens(Do(w, e).del.st.dir, w.last);
    }
  }

  lemma LastKept(w: World, e: Event)
    requires Inv(w) && e.EFinish? && Enabled(w, e) && (Returns(w, e.synced, e.locked) ==> w.last.gen !in e.gens)
    ensures w.last in w.del.commits && w.last in Do(w, e).del.commits
  {
    if Returns(w, e.synced, e.locked) {
      FinishedKeeps(w, e.synced, e.genFile, e.gens, e.locked);
      KeptIsIn(w.del.commits + [w.pending.value.commit], e.gens, w.last);
    }
    hide CommitCheckpoint, DecRef, CountInv, Plain, PendingUncounted;
  }

  lemma {:induction false} KeptIsIn(commits: seq<Commit>, gens: set<nat>, c: Commit)
    requires c in commits && c.gen !in gens
    ensures c in WithoutGens(commits, gens)
  {
    if commits[0] != c { KeptIsIn(commits[1..], gens, c); }
  }

  /** No segments_N beyond the last finished commit can be read. */
  lemma NothingNewer(w: World, e: Event)
    requires Inv(w) && e.EFinish? && Enabled(w, e)
    requires ReadCommit(Do(w, e).del.st.dir, w.pending.value.commit.gen) != Some(w.pending.value.commit)
    ensures forall g :: g > w.last.gen ==> ReadCommit(Do(w, e).del.st.dir, g).None?
  {
    hide CountInv, Plain, PendingUncounted, SyncedOk, CommitsOk, CommitOk;
    var c, files, files' := w.pending.value.commit, w.del.st.dir.files, Do(w, e).del.st.dir.files;
    FinishOnlyRemoves(w, e);
    hide Do, Enabled;
    assert c == Commit(c.gen, Body(c) + {Listing(c.gen)});
    forall g: nat | g > w.last.gen && Intact(Do(w, e).del.st.dir, Listing(g))
      ensures ReadCommit(Do(w, e).del.st.dir, g).None? {
      assert Intact(w.del.st.dir, Listing(g));
    }
  }

  lemma FinishOnlyRemoves(w: World, e: Event)
    requires w.pending.Some? && e.EFinish? && Enabled(w, e)
    ensures forall n :: n in Do(w, e).del.st.dir.files ==>
              n in w.del.st.dir.files && Do(w, e).del.st.dir.files[n] == w.del.st.dir.files[n]
  {
    if Returns(w, e.synced, e.locked) {
      FinishedKeeps(w, e.synced, e.genFile, e.gens, e.locked);
    } else {
      DecRefKeeps(w.del.st, Body(w.pending.value.commit), e.locked);
    }
    hide CommitCheckpoint, DecRef;
  }

  lemma LastOpens(d: Directory, c: Commit)
    requires CommitOk(d, c) && forall g :: g > c.gen ==> ReadCommit(d, g).None?
    ensures Open(d) == if Top(d) <= c.gen + 1 then Some(c) else None
  {
    assert c.files == Body(c) + {Listing(c.gen)};
    assert ReadCommit(d, c.gen) == Some(c);
    OpenFinds(d, c);
  }

  /** The call threw: only files of the commit's body went, and segments_N stays valid. */
  lemma ThrownIff(w: World, synced: bool, genFile: int, gens: set<nat>, locked: set<Name>)
    requires Inv(w) && Enabled(w, EFinish(synced, genFile, gens, locked)) && !Returns(w, synced, locked)
    ensures var w', c := Finish(w, synced, genFile, gens, locked), w.pending.value.commit;
      && w'.last == w.last && w'.pending.None?
      && (ReadCommit(w'.del.st.dir, c.gen) == Some(c) <==> Gone(w.del.st.counts, Body(c)) <= locked)
      && (ReadCommit(w'.del.st.dir, c.gen) == Some(c) ==>
            Open(w'.del.st.dir) == if Top(w'.del.st.dir) <= c.gen + 1 then Some(c) else None)
      && (ReadCommit(w'.del.st.dir, c.gen) != Some(c) ==> Open(w'.del.st.dir) != Some(c))
  {
    var w', c := Finish(w, synced, genFile, gens, locked), w.pending.value.commit;
    hide CountInv, Plain, PendingUncounted, SyncedOk, CommitsOk, CommitOk, Open, Top;
    ThrownFiles(w, synced, genFile, gens, locked);
    hide Finish;
    if ReadCommit(w'.del.st.dir, c.gen) == Some(c) {
      assert forall g: nat :: g > c.gen ==> !Intact(w'.del.st.dir, Listing(g));
      OpenFinds(w'.del.st.dir, c);
    } else if Open(w'.del.st.dir) == Some(c) {
      OnlyTheReadable(w'.del.st.dir, c);
    }
  }

  lemma ThrownFiles(w: World, synced: bool, genFile: int, gens: set<nat>, locked: set<Name>)
    requires w.pending.Some? && PendingOk(w, w.pending.value) && !Returns(w, synced, locked)
    ensures var w', c := Finish(w, synced, genFile, gens, locked), w.pending.value.commit;
      && w'.del.st.dir.files == w.del.st.dir.files - (Gone(w.del.st.counts, Body(c)) - locked) && w'.last == w.last
         && w'.pending.None?
      && Listing(c.gen) !in Body(c) && c == Commit(c.gen, Body(c) + {Listing(c.gen)})
  {
  }

  lemma FinishedIff(w: World, synced: bool, genFile: int, gens: set<nat>, locked: set<Name>)
    requires Inv(w) && Enabled(w, EFinish(synced, genFile, gens, locked)) && w.generation !in gens
             && Returns(w, synced, locked)
    ensures var w', c := Finish(w, synced, genFile, gens, locked), w.pending.value.commit;
      && w'.last == c && w'.pending.None?
      && (ReadCommit(w'.del.st.dir, c.gen) == Some(c) <==> synced && c.files !! Swept(w, locked))
      && (ReadCommit(w'.del.st.dir, c.gen) == Some(c) ==>
            Open(w'.del.st.dir) == if Top(w'.del.st.dir) <= c.gen + 1 then Some(c) else None)
      && (ReadCommit(w'.del.st.dir, c.gen) != Some(c) ==> Open(w'.del.st.dir) != Some(c))
  {
    var w', c := Finish(w, synced, genFile, gens, locked), w.pending.value.commit;
    hide Plain, PendingUncounted, SyncedOk, CommitsOk, PendingOk, CommitOk, ListingsOk, Open, Top, ReadCommit;
    FinishCounts(w, synced, genFile, gens, locked);
    FinishedFields(w, synced, genFile, gens, locked);
    hide Finish;
    if Open(w'.del.st.dir) == Some(c) { OnlyTheReadable(w'.del.st.dir, c); }
    if synced && c.files !! Swept(w, locked) {
      ThenReadable(w, genFile, gens, locked);
    } else {
      Unreadable(w, synced, genFile, gens, locked);
    }
  }

  lemma ThenReadable(w: World, genFile: int, gens: set<nat>, locked: set<Name>)
    requires Inv(w) && Enabled(w, EFinish(true, genFile, gens, locked)) && w.generation !in gens
             && Returns(w, true, locked)
    requires w.pending.value.commit.files !! Swept(w, locked) && CountInv(Finish(w, true, genFile, gens, locked))
    ensures var d, c := Finish(w, true, genFile, gens, locked).del.st.dir, w.pending.value.commit;
      && ReadCommit(d, c.gen) == Some(c) && Open(d) == if Top(d) <= c.gen + 1 then Some(c) else None
  {
    var w' := Finish(w, true, genFile, gens, locked);
    hide CommitOk, ListingsOk, CountInv, Plain, PendingUncounted, SyncedOk, CommitsOk, Open, Top, ReadCommit, Swept;
    FinishedFields(w, true, genFile, gens, locked);
    FinishedWhole(w, genFile, gens, locked);
    FinishedDisk(w, w', EFinish(true, genFile, gens, locked));
    hide Finish, Enabled, Inv;
    VisibleReadable(w');
    ClosedOpens(w');
  }

  lemma FinishedFields(w: World, synced: bool, genFile: int, gens: set<nat>, locked: set<Name>)
    requires w.pending.Some? && Returns(w, synced, locked)
    ensures var w' := Finish(w, synced, genFile, gens, locked); w'.last == w.pending.value.commit && w'.pending.None?
  {
    hide CommitCheckpoint, DecRef, Body;
  }

  lemma Unreadable(w: World, synced: bool, genFile: int, gens: set<nat>, locked: set<Name>)
    requires Inv(w) && w.open && w.pending.Some? && Returns(w, synced, locked)
    requires !(synced && w.pending.value.commit.files !! Swept(w, locked))
    ensures ReadCommit(Finish(w, synced, genFile, gens, locked).del.st.dir,
              w.pending.value.commit.gen) != Some(w.pending.value.commit)
  {
    var w', c, st := Finish(w, synced, genFile, gens, locked), w.pending.value.commit, Written(w, synced, genFile);
    FinishedKeeps(w, synced, genFile, gens, locked);
    hide Finish, Inv, CountInv, Plain, DroppedFiles;
    if synced {
      var x :| x in c.files && x in Swept(w, locked);
      assert x !in w'.del.st.dir.files;
    } else {
      assert Listing(c.gen) !in st.dir.files;
    }
  }

  /** No live commit uses the name that the next one is prepared under. */
  lemma PrepareAlwaysSpares(es: seq<Event>, i: nat, written: bool, locked: set<Name>)
    requires SoundRun(es) && Run(es).open
    ensures Spares(Run(es), EPrepare(i, written, locked))
            && Count(Run(es).del.st.counts, Listing(Run(es).generation + 1)) == 0
  {
    hide Inv, CommitFiles.Run, SoundRun;
    RunKeeps(es);
    FreshName(Run(es));
  }

  lemma FreshName(w: World)
    requires Inv(w) && w.open
    ensures Count(w.del.st.counts, Listing(w.generation + 1)) == 0
  {
    var n := Listing(w.generation + 1);
    ListingCounted(w, n);
    forall i | 0 <= i < |w.del.commits| ensures n !in FilesOf(w.del.commits)[i] {
      var c := w.del.commits[i];
      assert c in w.del.commits && c.gen <= w.generation && DataOnly(Body(c));
      assert n in c.files ==> n in Body(c) || n == Listing(c.gen);
    }
    if n in Union(FilesOf(w.del.commits)) { InUnion(FilesOf(w.del.commits), n); }
  }

  /** A prepare that failed uses up its generation: while the next one is pending, a new reader finds
      no commit at all, though the last one is whole. */
  lemma FailedPrepareHidesLastCommit(es: seq<Event>, i: nat, j: nat, locked: set<Name>)
    requires SoundRun(es) && Enabled(Run(es), EPrepare(i, false, locked))
    requires Enabled(Do(Run(es), EPrepare(i, false, locked)), EPrepare(j, true, locked))
    ensures var w2 := Do(Do(Run(es), EPrepare(i, false, locked)), EPrepare(j, true, locked));
      w2.last == Run(es).last && CommitOk(w2.del.st.dir, w2.last) && Open(w2.del.st.dir) == None
  {
    hide CommitFiles.Run, SoundRun, SparedRun;
    var w, e1, e2 := Run(es), EPrepare(i, false, locked), EPrepare(j, true, locked);
    RunKeeps(es);
    SoundIsSpared(es);
    FailedThenPrepared(es, e1, e2);
    PreparedAgain(w, Do(w, e1), Do(Do(w, e1), e2), e1, e2);
  }

  lemma FailedThenPrepared(es: seq<Event>, e1: Event, e2: Event)
    requires SparedRun(es) && Inv(Run(es)) && e1.EPrepare? && e2.EPrepare? && !e1.written && e2.written
    requires Enabled(Run(es), e1) && Enabled(Do(Run(es), e1), e2)
    ensures Inv(Do(Do(Run(es), e1), e2))
  {
    var w, w1 := Run(es), Do(Run(es), e1);
    hide Inv, Do, Enabled;
    FreshName(w) by { OpenFirst(w, e1); }
    StepKeeps(es, e1);
    assert (es + [e1])[..|es|] == es && Run(es + [e1]) == w1 && SparedRun(es + [e1]);
    FreshName(w1) by { OpenFirst(w1, e2); }
    hide CommitFiles.Run, SparedRun;
    StepKeeps(es + [e1], e2);
  }

  lemma OpenFirst(w: World, e: Event)
    requires Enabled(w, e) && e.EPrepare?
    ensures w.open
  {
  }

  lemma PreparedAgain(w: World, w1: World, w2: World, e1: Event, e2: Event)
    requires Inv(w) && Inv(w2) && e1.EPrepare? && e2.EPrepare? && !e1.written && e2.written
    requires Enabled(w, e1) && w1 == Do(w, e1) && Enabled(w1, e2) && w2 == Do(w1, e2)
    ensures w2.last == w.last && CommitOk(w2.del.st.dir, w2.last) && Open(w2.del.st.dir) == None
  {
    PreparedNames(w, w1, w2, e1, e2);
    hide Do, Enabled, Base, SyncedOk, AllIntact, CommitsOk;
    assert w2.generation in Generations(w2.del.st.dir);
    VisibleReadable(w2);
    OpenFinds(w2.del.st.dir, w2.last);
  }

  lemma PreparedNames(w: World, w1: World, w2: World, e1: Event, e2: Event)
    requires e1.EPrepare? && e2.EPrepare? && !e1.written && e2.written
    requires Enabled(w, e1) && w1 == Do(w, e1) && Enabled(w1, e2) && w2 == Do(w1, e2)
    ensures w2.open && w2.last == w.last && w2.generation == w.generation + 2
            && Listing(w2.generation) in w2.del.st.dir.files
    ensures w2.pending.Some? && !w2.pending.value.published
  {
    hide DecRef;
  }

  /** A refresh of one segment's files, as after a failed flush or merge, never touches a prepared commit. */
  lemma SegmentRefreshSpares(w: World, segment: nat, locked: set<Name>)
    ensures Spares(w, ERefresh(Some(segment), locked))
  {
  }

  /** Between the two phases a refresh loses the prepared commit, so that the second phase must fail, if and only if
      it is a refresh of everything, no count was ever kept for segments_N, and no one holds that file open; held
      open it joins the queue, and the next sweep takes it. */
  lemma RefreshLosesPrepared(es: seq<Event>, segment: Option<nat>, locked: set<Name>, locked': set<Name>)
    requires SoundRun(es) && Run(es).pending.Some? && Enabled(Run(es), ERefresh(segment, locked))
    ensures var w, w1, n := Run(es), Do(Run(es), ERefresh(segment, locked)), Listing(Run(es).pending.value.commit.gen);
      && w1.pending == w.pending
      && (Returns(Publish(w1, true, locked'), true, locked') <==>
         !(segment.None? && n !in w.del.st.counts && n !in locked))
      && (n in w1.del.st.deletable <==>
           n in w.del.st.deletable || (segment.None? && n !in w.del.st.counts && n in locked))
  {
    hide CommitFiles.Run, SoundRun;
    var w, n := Run(es), Listing(Run(es).pending.value.commit.gen);
    RunKeeps(es);
    OpenWhilePending(w);
    assert n in w.del.st.dir.files;
    assert n in Uncounted(w.del.st, segment) <==> segment.None? && n !in w.del.st.counts;
  }
}
