/**
 The part of IndexWriter that commits: its fields, the directory and the deleter, changed by every
 method as the matching event changes the state of a run.
 */
module CommitWriters {
  import opened CommitFiles
  import opened CommitRuns
  import opened CommitGuards
  import opened CommitKeeping
  import opened CommitReaders
  import opened CommitSafety
  import opened FileDeleters
  import opened CommitLists

  lemma RunStep(es: seq<Event>, e: Event)
    ensures Run(es + [e]) == Do(Run(es), e)
  {
    assert (es + [e])[..|es|] == es;
  }

  /** Protected files have a count. */
  lemma HeldCounted(w: World, i: nat)
    requires CountInv(w) && w.open && i < |Extra(w)|
    ensures forall n :: n in Extra(w)[i] ==> Count(w.del.st.counts, n) > 0
  {
    forall n | n in Extra(w)[i] ensures Count(w.del.st.counts, n) > 0 {
      assert Count(w.del.st.counts, n) == Total(w.del, Extra(w), n);
      RefsIn(Extra(w), i, n);
    }
  }

  class IndexWriter {
    const directory: IndexDirectory
    const deleter: IndexFileDeleter
    var segmentInfos: set<Name>
    var generation: nat
    var syncing: seq<set<Name>>
    var pendingCommit: Option<Pending>
    var rollbackSegmentInfos: Commit
    var open: bool
    ghost var events: seq<Event>

    ghost function State(): World
      reads this, deleter, deleter.directory
    {
      World(deleter.Abs(), segmentInfos, generation, syncing, pendingCommit, rollbackSegmentInfos, open)
    }

    /** The fields hold what the events so far lead to, and the deleter's counts are exact. */
    ghost predicate Valid()
      reads this, deleter, deleter.directory
    {
      && deleter.directory == directory && State() == Run(events) && open
      && deleter.Valid(Extra(State())) && CountInv(State())
    }

    /** A writer on the directory that earlier runs left behind; `gens` are the commits its policy drops. */
    constructor (directory: IndexDirectory, gens: set<nat>, ghost history: seq<Event>)
      requires directory.d == Run(history).del.st.dir && !Run(history).open
      requires CanReopen(directory.d) && Top(directory.d) >= 0
      modifies directory
      ensures Valid() && this.directory == directory && fresh(deleter)
      ensures events == history + [EReopen(gens, directory.locked)]
    {
      var c := Open(directory.d).value;
      hide NewDeleter, CountInv, Counted, Run, Open;
      Reopened(history, gens, directory.locked);
      this.directory := directory;
      deleter := new IndexFileDeleter(directory, c, gens);
      segmentInfos, generation, syncing, pendingCommit := Body(c), c.gen, [], None;
      rollbackSegmentInfos, open := c, true;
      events := history + [EReopen(gens, directory.locked)];
    }

    /** Every method is one event of the run. */
    ghost method Record(e: Event)
      requires deleter.directory == directory && Enabled(Run(events), e) && CountInv(Run(events))
      requires State() == Do(Run(events), e) && open && deleter.commitsToDelete == []
      requires forall i :: 0 <= i < |deleter.commits| ==> !deleter.commits[i].deleted
      modifies this`events
      ensures Valid() && events == old(events) + [e]
    {
      StepCounts(Run(events), e);
      RunStep(events, e);
      events := events + [e];
    }

    /** Indexing and merging write files that no commit names yet. */
    method CreateFile(n: Name)
      requires Valid() && Enabled(State(), ENewFile(n))
      modifies this`events, directory
      ensures Valid() && events == old(events) + [ENewFile(n)]
    {
      directory.WriteFile(n, File({}, true));
      Record(ENewFile(n));
    }

    /** checkpoint: the segments changed. */
    method Checkpoint(infos: set<Name>, docs: set<Name>)
      requires Valid() && Enabled(State(), ECheckpoint(infos, docs, directory.locked))
      modifies this`segmentInfos, this`events, deleter, directory
      ensures Valid() && events == old(events) + [ECheckpoint(infos, docs, directory.locked)]
    {
      deleter.CheckpointFiles(infos, docs, Extra(State()));
      segmentInfos := infos;
      Record(ECheckpoint(infos, docs, directory.locked));
    }

    /** refresh: of the segment that a failed flush or merge was writing, or of everything, as in deleteAll
        and when addIndexes is rolled back. */
    method Refresh(segment: Option<nat>)
      requires Valid() && Enabled(State(), ERefresh(segment, directory.locked))
      modifies this`events, deleter`deletable, directory
      ensures Valid() && events == old(events) + [ERefresh(segment, directory.locked)]
    {
      deleter.RefreshFiles(segment);
      Record(ERefresh(segment, directory.locked));
    }

    /** startCommit: protects the files of the segments it is to sync. */
    method BeginSync(toSync: set<Name>)
      requires Valid() && Enabled(State(), EHold(toSync))
      modifies this`syncing, this`events, deleter`refCounts
      ensures Valid() && events == old(events) + [EHold(toSync)]
    {
      deleter.IncRefAll(toSync);
      syncing := syncing + [toSync];
      Record(EHold(toSync));
    }

    method SyncFile(i: nat, n: Name)
      requires Valid() && Enabled(State(), ESyncFile(i, n))
      modifies this`events, deleter`synced, directory
      ensures Valid() && events == old(events) + [ESyncFile(i, n)]
    {
      directory.Sync(n);
      deleter.synced := deleter.synced + {n};
      Record(ESyncFile(i, n));
    }

    /** startCommit was superseded or failed: its files are given back. */
    method AbandonSync(i: nat)
      requires Valid() && Enabled(State(), ERelease(i, directory.locked))
      modifies this`syncing, this`events, deleter, directory
      ensures Valid() && events == old(events) + [ERelease(i, directory.locked)]
    {
      HeldCounted(State(), i);
      deleter.DecRefAll(syncing[i]);
      syncing := syncing[..i] + syncing[i + 1..];
      Record(ERelease(i, directory.locked));
    }

    /** The end of startCommit: segments_N is written, not yet valid; a failure undoes it, except for the generation. */
    method PrepareCommit(i: nat, written: bool)
      requires Valid() && Enabled(State(), EPrepare(i, written, directory.locked))
      modifies this`generation, this`syncing, this`pendingCommit, this`events, deleter, directory
      ensures Valid() && events == old(events) + [EPrepare(i, written, directory.locked)]
    {
      HeldCounted(State(), i);
      hide Prepare, Counted, CountInv, Count, Run;
      WritePrepared(i, written);
      Record(EPrepare(i, written, directory.locked));
    }

    method WritePrepared(i: nat, written: bool)
      requires deleter.directory == directory && pendingCommit.None? && i < |syncing|
      requires forall n :: n in syncing[i] ==> Count(deleter.refCounts, n) > 0
      modifies this`generation, this`syncing, this`pendingCommit, deleter`refCounts, deleter`deletable, deleter`synced,
               directory
      ensures State() == Prepare(old(State()), i, written, directory.locked)
    {
      hide DecRef, Count;
      var toSync := syncing[i];
      generation := generation + 1;
      directory.WriteFile(Listing(generation), File(toSync, false));
      if written {
        pendingCommit := Some(Pending(Commit(generation, toSync + {Listing(generation)}), false));
      } else {
        directory.TryDelete(Listing(generation));
        deleter.DecRefAll(toSync);
      }
      syncing := syncing[..i] + syncing[i + 1..];
    }

    /** The first half of finishCommit: the checksum completes segments_N, or the commit is rolled back. */
    method PublishCommit(written: bool)
      requires Valid() && Enabled(State(), EPublish(written, directory.locked))
      modifies this`pendingCommit, this`events, deleter, directory
      ensures Valid() && events == old(events) + [EPublish(written, directory.locked)]
    {
      HeldCounted(State(), |syncing|);
      var c := pendingCommit.value.commit;
      if written {
        directory.Complete(Listing(c.gen));
        pendingCommit := Some(Pending(c, true));
      } else {
        directory.TryDelete(Listing(c.gen));
        deleter.DecRefAll(Body(c));
        pendingCommit := None;
      }
      Record(EPublish(written, directory.locked));
    }

    /** The second half: syncs segments_N, and makes the commit the one to roll back to. */
    method FinishCommit(synced: bool, genFile: int, gens: set<nat>) returns (returned: bool)
      requires Valid() && Enabled(State(), EFinish(synced, genFile, gens, directory.locked))
      modifies this`pendingCommit, this`rollbackSegmentInfos, this`events, deleter, directory
      ensures Valid() && events == old(events) + [EFinish(synced, genFile, gens, directory.locked)]
      ensures returned == Returns(old(State()), synced, directory.locked)
    {
      hide DecRef, Counted, CountInv, Count, Run, CommitCheckpoint;
      var c := pendingCommit.value.commit;
      ghost var extra := Extra(State());
      returned := directory.SyncOrDelete(Listing(c.gen), synced);
      if returned {
        directory.WriteGen(genFile);
        rollbackSegmentInfos := c;
        CountedElsewhere(old(deleter.Abs()), extra, deleter.St());
        deleter.CheckpointCommit(c, gens, extra);
      }
      GiveBack(c, extra);
      pendingCommit := None;
      Record(EFinish(synced, genFile, gens, directory.locked));
    }

    /** The files of the pending commit are no longer protected by it. */
    method GiveBack(c: Commit, ghost extra: seq<set<Name>>)
      requires deleter.directory == directory && Counted(deleter.Abs(), extra) && extra != []
               && extra[|extra| - 1] == Body(c)
      modifies deleter`refCounts, deleter`deletable, deleter`synced, directory
      ensures deleter.St() == DecRef(old(deleter.St()), Body(c), directory.locked)
    {
      forall n | n in Body(c) ensures Count(deleter.refCounts, n) > 0 {
        assert Count(deleter.Abs().st.counts, n) == Total(deleter.Abs(), extra, n);
        RefsIn(extra, |extra| - 1, n);
      }
      deleter.DecRefAll(Body(c));
    }

    /** rollbackInternal: the pending commit is undone, the segments of the last finished commit come back, and
        the writer closes. */
    method Rollback()
      requires Valid() && Enabled(State(), ERollback(directory.locked))
      modifies this, deleter, directory
      ensures events == old(events) + [ERollback(directory.locked)] && State() == Run(events) && !open
    {
      hide Undone, Counted, CommitFiles.Checkpoint, DeleteCommits, CommitCheckpoint, DecRefs, CountInv, Run;
      UndoPending();
      segmentInfos := Body(rollbackSegmentInfos);
      deleter.CheckpointFiles(segmentInfos, {}, syncing);
      ghost var before := deleter.Abs();
      deleter.RefreshFiles(None);
      CountedElsewhere(before, syncing, deleter.St());
      assert deleter.Abs() == before.(st := deleter.St());
      deleter.CloseFiles(syncing);
      open := false;
      RunStep(events, ERollback(directory.locked));
      events := events + [ERollback(directory.locked)];
    }

    /** A prepared commit is undone: its segments_N goes, its files are given back. */
    method UndoPending()
      requires Valid()
      modifies this`pendingCommit, deleter, directory
      ensures pendingCommit.None? && Counted(deleter.Abs(), syncing)
      ensures deleter.Abs() == old(deleter.Abs()).(st := Undone(old(State()), directory.locked))
      ensures deleter.commits == old(deleter.commits) && deleter.commitsToDelete == []
    {
      ghost var w := State();
      hide DecRef, Count, Run;
      if pendingCommit.Some? {
        var c := pendingCommit.value.commit;
        UnpendKeepsCount(w, directory.locked);
        HeldCounted(w, |syncing|);
        directory.TryDelete(Listing(c.gen));
        deleter.DecRefAll(Body(c));
        pendingCommit := None;
        assert deleter.Plain() == w.del.commits;
      } else {
        assert Extra(w) == syncing;
      }
    }

    /** closeInternal, once the last commit is finished. */
    method CloseWriter()
      requires Valid() && Enabled(State(), EClose(directory.locked))
      modifies this`open, this`events, deleter, directory
      ensures events == old(events) + [EClose(directory.locked)] && State() == Run(events) && !open
    {
      deleter.CloseFiles(Extra(State()));
      open := false;
      RunStep(events, EClose(directory.locked));
      events := events + [EClose(directory.locked)];
    }
  }

  lemma Reopened(history: seq<Event>, gens: set<nat>, locked: set<Name>)
    requires var w := Run(history); !w.open && CanReopen(w.del.st.dir) && Top(w.del.st.dir) >= 0
    ensures var d, w := Run(history).del.st.dir, Run(history + [EReopen(gens, locked)]);
      && w == World(NewDeleter(d, Open(d).value, gens, locked), Body(Open(d).value), Open(d).value.gen, [], None,
         Open(d).value, true)
      && CountInv(w) && Extra(w) == [] && CommitOf(d, d.files.Keys, Open(d).value)
  {
    hide Run, NewDeleter, Counted, Open, Top;
    RunStep(history, EReopen(gens, locked));
    CountsAreExact(history + [EReopen(gens, locked)]);
    OpenIsOnDisk(Run(history).del.st.dir);
  }

  lemma UnpendKeepsCount(w: World, locked: set<Name>)
    requires CountInv(w) && w.open && w.pending.Some?
    ensures var c := w.pending.value.commit;
      var st := w.del.st.(dir := Remove(w.del.st.dir, {Listing(c.gen)} - locked));
      Counted(w.del.(st := DecRef(st, Body(c), locked)), w.holds)
  {
    var c := w.pending.value.commit;
    var st := w.del.st.(dir := Remove(w.del.st.dir, {Listing(c.gen)} - locked));
    CountedElsewhere(w.del, Extra(w), st);
    UnpendCounted(w, w.del.(st := st), locked);
  }

  /** Whatever calls were made on the writer that met the conditions of `Sound`, a reader finds the last finished
      commit, or the one being finished once it is valid, unless a generation was skipped after it. */
  lemma ReaderOfWriter(w: IndexWriter)
    requires w.Valid() && SoundRun(w.events)
    ensures Open(w.directory.d) ==
              if Top(w.directory.d) <= Visible(w.State()).gen + 1 then Some(Visible(w.State())) else None
    ensures forall n :: n in w.rollbackSegmentInfos.files ==> Intact(w.directory.d, n) && n in w.directory.d.synced
  {
    ReaderFindsLastCommit(w.events);
    RunKeeps(w.events);
  }
}
