/**
 What the reference counts promise over whole runs: nothing that is referenced is lost, whatever loses its last
 reference goes, and a commit stays whole for as long as the policy keeps it.
 */
module CommitKeeping {
  import opened CommitFiles
  import opened CommitRuns
  import opened CommitLists
  import opened CommitGuards

  /** In every run and under every policy, a file that loses its last reference is gone, or queued. */
  lemma LastReferenceGoes(es: seq<Event>, e: Event, n: Name)
    requires Run(es).open && Enabled(Run(es), e) && !e.ECrash?
    requires Count(Run(es).del.st.counts, n) > 0 && Count(Do(Run(es), e).del.st.counts, n) == 0
    ensures var st := Do(Run(es), e).del.st; n !in st.dir.files || n in st.deletable
  {
    CountsAreExact(es);
    var w := Run(es);
    hide Run, CountInv, Keeps, KnownKept, Queues, Spares, Plain;
    match e
    case ECheckpoint(infos, docs, locked) => CheckpointKeeps(w.del, infos, docs, locked);
    case ERefresh(segment, locked) => RefreshKeeps(w.del.st, segment, locked);
    case ERelease(i, locked) => DecRefKeeps(w.del.st, w.holds[i], locked);
    case EPrepare(i, written, locked) => PrepareDrains(w, i, written, locked, n);
    case EPublish(_, locked) => UndoneKeeps(w, locked);
    case EFinish(synced, genFile, gens, locked) => FinishDrains(w, synced, genFile, gens, locked, n);
    case ERollback(locked) => RollbackKeeps(w, locked);
    case EClose(locked) => CloseKeeps(w.del, locked);
    case _ =>
  }

  lemma PrepareDrains(w: World, i: nat, written: bool, locked: set<Name>, n: Name)
    requires i < |w.holds| && Count(w.del.st.counts, n) > 0
    ensures var st := Prepare(w, i, written, locked).del.st;
            Count(st.counts, n) == 0 ==> n !in st.dir.files || n in st.deletable
  {
    if !written {
      var put := Put(w.del.st, Listing(w.generation + 1), File(w.holds[i], false));
      DecRefKeeps(put.(dir := Remove(put.dir, {Listing(w.generation + 1)} - locked)), w.holds[i], locked);
    }
  }

  lemma FinishDrains(w: World, synced: bool, genFile: int, gens: set<nat>, locked: set<Name>, n: Name)
    requires w.pending.Some? && Count(w.del.st.counts, n) > 0
    ensures var st := Finish(w, synced, genFile, gens, locked).del.st;
            Count(st.counts, n) == 0 ==> n !in st.dir.files || n in st.deletable
  {
    if Returns(w, synced, locked) {
      FinishedKeeps(w, synced, genFile, gens, locked);
      WrittenElsewhere(w, synced, genFile);
    } else {
      DecRefKeeps(w.del.st, Body(w.pending.value.commit), locked);
    }
  }

  // ---------- runs that meet the guard ----------

  predicate SparedRun(es: seq<Event>) {
    es == [] ||
    (var w, e := Run(es[..|es| - 1]), es[|es| - 1];
     SparedRun(es[..|es| - 1]) && (Enabled(w, e) ==> Spares(w, e)))
  }

  ghost predicate PendingUncounted(w: World) { forall n :: n in PendingName(w) ==> Count(w.del.st.counts, n) == 0 }

  /** A segments_N is referenced by commits alone. */
  lemma ListingCounted(w: World, n: Name)
    requires CountInv(w) && Plain(w) && w.open && n.Listing?
    ensures Count(w.del.st.counts, n) > 0 <==> n in Union(FilesOf(w.del.commits))
  {
    CountedIsReferenced(w.del, Extra(w), n);
    forall i | 0 <= i < |Extra(w)| ensures DataOnly(Extra(w)[i]) {
      if i < |w.holds| { assert Extra(w)[i] == w.holds[i]; } else { assert Extra(w)[i] == PendingBody(w); }
    }
    if n in Union(Extra(w)) { InUnion(Extra(w), n); }
  }

  lemma {:induction false} InUnion(sets: seq<set<Name>>, n: Name)
    requires n in Union(sets)
    ensures exists i :: 0 <= i < |sets| && n in sets[i]
  {
    if n in sets[0] {
    } else {
      InUnion(sets[1..], n);
      var i :| 0 <= i < |sets| - 1 && n in sets[1..][i];
      assert sets[i + 1] == sets[1..][i];
    }
  }

  /** While a commit is pending no other joins the list. */
  lemma SameCommits(w: World, e: Event)
    requires Enabled(w, e) && w.open && w.pending.Some? && Do(w, e).pending.Some?
    ensures Do(w, e).del.commits == w.del.commits && PendingName(Do(w, e)) == PendingName(w) && Do(w, e).open
  {
    hide DecRef, DecRefs, DeletePending, IncRef, Count, Refresh;
  }

  lemma PendingBegins(w: World, e: Event)
    requires Enabled(w, e) && w.pending.None? && Do(w, e).pending.Some?
    ensures w.open && e.EPrepare?
  {
    hide DecRef, Checkpoint, Close, NewDeleter, Refresh, IncRef;
  }

  lemma PendingGoesOn(w: World, e: Event)
    requires Enabled(w, e) && w.open && w.pending.Some? && Do(w, e).pending.Some? && PendingUncounted(w)
    requires CountInv(w) && Plain(w) && CountInv(Do(w, e)) && Plain(Do(w, e))
    ensures PendingUncounted(Do(w, e))
  {
    hide CountInv, Plain, Do, Enabled, Count;
    SameCommits(w, e);
    forall n | n in PendingName(w) ensures Count(Do(w, e).del.st.counts, n) == 0 {
      ListingCounted(w, n);
      ListingCounted(Do(w, e), n);
    }
  }

  lemma OpenWhilePending(w: World)
    requires CountInv(w)
    ensures w.pending.Some? ==> w.open
  {
  }

  lemma {:induction false} PendingStaysUncounted(es: seq<Event>)
    requires SparedRun(es)
    ensures PendingUncounted(Run(es))
  {
    if es != [] {
      var before, e := es[..|es| - 1], es[|es| - 1];
      var w, w' := Run(before), Run(es);
      PendingStaysUncounted(before);
      CountsAreExact(before);
      CountsAreExact(es);
      PlainRuns(before);
      PlainRuns(es);
      OpenWhilePending(w);
      assert w' == Do(w, e) && (Enabled(w, e) ==> Spares(w, e));
      assert !Enabled(w, e) ==> w' == w;
      hide Run, SparedRun, CountInv, Plain, Do, Enabled, Spares;
      if Enabled(w, e) && w'.pending.Some? {
        if w.pending.None? {
          PendingBegins(w, e);
          StaysIffSpared(before, e);
        } else {
          PendingGoesOn(w, e);
        }
      }
    }
  }

  /** As long as the guard is met, no event of an open writer loses a file that is referenced before and after it. */
  lemma LosesNothing(es: seq<Event>, e: Event, n: Name)
    requires SparedRun(es + [e]) && Run(es).open && Enabled(Run(es), e) && !e.ECrash?
    requires Count(Run(es).del.st.counts, n) > 0 && Count(Do(Run(es), e).del.st.counts, n) > 0
    ensures Stays(Run(es).del.st.dir, Do(Run(es), e).del.st.dir, n)
  {
    assert (es + [e])[..|es|] == es;
    PendingStaysUncounted(es);
    StaysIffSpared(es, e);
  }

  // ---------- one commit ----------

  /** Everything the commit names is in the directory, whole and on stable storage. */
  ghost predicate CommitOk(d: Directory, c: Commit) {
    && c.gen >= 1 && Listing(c.gen) in c.files && DataOnly(Body(c))
    && (forall n :: n in c.files ==> n in d.files && d.files[n].ok && n in d.synced)
    && d.files[Listing(c.gen)].infos == Body(c)
  }

  /** From the `k`-th event on, whenever the writer is open the commit is on its list. */
  ghost predicate Kept(es: seq<Event>, k: nat, c: Commit) {
    forall j {:trigger es[..j]} :: k <= j <= |es| && Run(es[..j]).open ==> c in Run(es[..j]).del.commits
  }

  lemma ListedIsCounted(w: World, c: Commit, n: Name)
    requires CountInv(w) && w.open && c in w.del.commits && n in c.files
    ensures Count(w.del.st.counts, n) > 0
  {
    var i :| 0 <= i < |w.del.commits| && w.del.commits[i] == c;
    assert n in FilesOf(w.del.commits)[i];
    RefsIn(FilesOf(w.del.commits), i, n);
    assert Count(w.del.st.counts, n) == Total(w.del, Extra(w), n);
  }

  /** Files that stay keep their place on stable storage, unless they were written anew. */
  lemma SyncStays(w: World, e: Event, n: Name)
    requires Enabled(w, e) && w.open && CountInv(w) && Count(w.del.st.counts, n) > 0 && n !in PendingName(w)
    requires n in w.del.st.dir.files && w.del.st.dir.files[n].ok && n in w.del.st.dir.synced
             && n in Do(w, e).del.st.dir.files
    requires e.EPrepare? ==> n != Listing(w.generation + 1)
    ensures n in Do(w, e).del.st.dir.synced
  {
    hide CountInv, KnownKept, Queues, Drained, Count;
    match e
    case ECheckpoint(infos, docs, locked) => CheckpointKeeps(w.del, infos, docs, locked);
    case ERefresh(segment, locked) => RefreshKeeps(w.del.st, segment, locked);
    case ERelease(i, locked) => DecRefKeeps(w.del.st, w.holds[i], locked);
    case EPrepare(i, written, locked) =>
      var put := Put(w.del.st, Listing(w.generation + 1), File(w.holds[i], false));
      DecRefKeeps(put.(dir := Remove(put.dir, {Listing(w.generation + 1)} - locked)), w.holds[i], locked);
    case EPublish(_, locked) => UndoneKeeps(w, locked);
    case EFinish(synced, genFile, gens, locked) => FinishSync(w, synced, genFile, gens, locked, n);
    case ERollback(locked) => RollbackKeeps(w, locked);
    case EClose(locked) => CloseKeeps(w.del, locked);
    case _ =>
  }

  lemma FinishSync(w: World, synced: bool, genFile: int, gens: set<nat>, locked: set<Name>, n: Name)
    requires w.pending.Some? && n !in PendingName(w) && n in w.del.st.dir.files && n in w.del.st.dir.synced
    requires n in Finish(w, synced, genFile, gens, locked).del.st.dir.files
    ensures n in Finish(w, synced, genFile, gens, locked).del.st.dir.synced
  {
    if Returns(w, synced, locked) {
      FinishedKeeps(w, synced, genFile, gens, locked);
      WrittenElsewhere(w, synced, genFile);
    } else {
      DecRefKeeps(w.del.st, Body(w.pending.value.commit), locked);
    }
  }

  lemma CrashSpares(w: World, e: Event, c: Commit)
    requires e.ECrash? && CommitOk(w.del.st.dir, c)
    ensures CommitOk(Do(w, e).del.st.dir, c)
  {
    if Enabled(w, e) {
      forall n | n in c.files ensures n in Do(w, e).del.st.dir.files
          && Do(w, e).del.st.dir.files[n] == w.del.st.dir.files[n] {}
    }
  }

  lemma ReopenSpares(w: World, e: Event, c: Commit)
    requires e.EReopen? && CommitOk(w.del.st.dir, c) && CountInv(Do(w, e))
    requires Do(w, e).open ==> c in Do(w, e).del.commits
    ensures CommitOk(Do(w, e).del.st.dir, c)
  {
    var dir, w' := w.del.st.dir, Do(w, e);
    if Enabled(w, e) && CanReopen(dir) && Top(dir) >= 0 {
      OpenIsOnDisk(dir);
      NewDeleterKeeps(dir, Open(dir).value, e.gens, e.locked);
      hide NewDeleter, CountInv, Open;
      forall n | n in c.files ensures n in w'.del.st.dir.files && w'.del.st.dir.files[n] == dir.files[n]
          && n in w'.del.st.dir.synced {
        ListedIsCounted(w', c, n);
      }
    }
  }

  /** Closing, too, leaves the listed commits referenced. */
  lemma ListedStaysCounted(w: World, e: Event, c: Commit, n: Name)
    requires CountInv(w) && w.open && Enabled(w, e) && !e.ECrash? && c in w.del.commits && n in c.files
    requires CountInv(Do(w, e)) && (Do(w, e).open ==> c in Do(w, e).del.commits)
    ensures Count(Do(w, e).del.st.counts, n) > 0
  {
    hide CountInv;
    var i :| 0 <= i < |w.del.commits| && w.del.commits[i] == c;
    RefsIn(FilesOf(w.del.commits), i, n);
    RefsUnion(FilesOf(w.del.commits), n);
    match e
    case ERollback(locked) => RollbackReferenced(w, locked);
    case EClose(locked) => CloseReferenced(w, locked);
    case _ =>
      StaysOpen(w, e);
      ListedIsCounted(Do(w, e), c, n);
  }

  lemma StaysOpen(w: World, e: Event)
    requires w.open && Enabled(w, e) && !e.ECrash? && !e.ERollback? && !e.EClose?
    ensures Do(w, e).open
  {
    hide DecRef, DecRefs, DeletePending, IncRef, Count, Refresh, CommitCheckpoint;
  }

  lemma CommitStep(es: seq<Event>, e: Event, c: Commit)
    requires SparedRun(es + [e]) && CommitOk(Run(es).del.st.dir, c)
    requires Run(es).open ==> c in Run(es).del.commits
    requires Do(Run(es), e).open ==> c in Do(Run(es), e).del.commits
    ensures CommitOk(Do(Run(es), e).del.st.dir, c)
  {
    var w := Run(es);
    assert (es + [e])[..|es|] == es && Run(es + [e]) == Do(w, e);
    PendingStaysUncounted(es);
    CountsAreExact(es);
    CountsAreExact(es + [e]);
    if e.ECrash? {
      CrashSpares(w, e, c);
    } else if !w.open {
      if e.EReopen? { ReopenSpares(w, e, c); }
    } else if Enabled(w, e) {
      StaysIffSpared(es, e);
      hide Run, Do, Enabled, CountInv, SparedRun;
      forall n | n in c.files
        ensures n in Do(w, e).del.st.dir.files && Do(w, e).del.st.dir.files[n] == w.del.st.dir.files[n]
                && n in Do(w, e).del.st.dir.synced
      {
        ListedIsCounted(w, c, n);
        ListedStaysCounted(w, e, c, n);
        PrepareElsewhere(w, e, n);
        SyncStays(w, e, n);
      }
    }
  }

  /** No commit is prepared under the name of a whole segments_N that is referenced. */
  lemma PrepareElsewhere(w: World, e: Event, n: Name)
    requires Spares(w, e) && Count(w.del.st.counts, n) > 0 && n in w.del.st.dir.files && w.del.st.dir.files[n].ok
    ensures e.EPrepare? ==> n != Listing(w.generation + 1)
  {
  }

  /** A commit that is whole and on stable storage stays so for as long as the policy keeps it: through every later
      commit, failure, rollback, crash and reopening of a run that meets the guard. */
  lemma {:induction false} KeptCommitsStayWhole(es: seq<Event>, k: nat, c: Commit)
    requires SparedRun(es) && k <= |es| && CommitOk(Run(es[..k]).del.st.dir, c) && Kept(es, k, c)
    ensures CommitOk(Run(es).del.st.dir, c)
  {
    if k == |es| {
      assert es[..k] == es;
    } else {
      var before, e := es[..|es| - 1], es[|es| - 1];
      assert es == before + [e] && es[..|es|] == es && before[..k] == es[..k];
      forall j | k <= j <= |before| && Run(before[..j]).open
        ensures c in Run(before[..j]).del.commits
      {
        assert before[..j] == es[..j];
      }
      KeptCommitsStayWhole(before, k, c);
      assert es[..|before|] == before;
      CommitStep(before, e, c);
    }
  }
}
