/**
 IndexFileDeleter: the loops that raise and lower reference counts, delete or queue files, and
 compact the list of commits, proved against the operations on sets of files.
 */
module FileDeleters {
  import opened CommitFiles
  import opened CommitRuns
  import opened CommitLists

  /** The directory, and the files that at present cannot be removed. */
  class IndexDirectory {
    var d: Directory
    const locked: set<Name>

    constructor (d: Directory, locked: set<Name>)
      ensures this.d == d && this.locked == locked
    {
      this.d, this.locked := d, locked;
    }

    predicate FileExists(n: Name)
      reads this
    {
      n in d.files
    }

    /** Fails, leaving the directory as it was, when the file is locked or missing. */
    method DeleteFile(n: Name) returns (ok: bool)
      modifies this
      ensures ok <==> n in old(d.files) && n !in locked
      ensures d == if n !in locked then Remove(old(d), {n}) else old(d)
    {
      ok := n in d.files && n !in locked;
      if n !in locked { d := Remove(d, {n}); }
    }

    /** A deletion whose failure is ignored. */
    method TryDelete(n: Name)
      modifies this
      ensures d == Remove(old(d), {n} - locked)
    {
      var ok := DeleteFile(n);
      RemoveOne(old(d), {}, n);
      assert {n} - locked == if n in locked then {} else {n};
    }

    method WriteFile(n: Name, f: File)
      modifies this
      ensures d == Directory(old(d).files[n := f], old(d).synced - {n}, old(d).genFile)
    {
      d := Directory(d.files[n := f], d.synced - {n}, d.genFile);
    }

    /** The checksum that makes a segments_N valid. */
    method Complete(n: Name)
      modifies this
      ensures d == old(d).(files := if n in old(d).files then old(d).files[n := old(d).files[n].(ok := true)]
                else old(d).files)
    {
      if n in d.files { d := d.(files := d.files[n := d.files[n].(ok := true)]); }
    }

    method Sync(n: Name)
      modifies this
      ensures d == old(d).(synced := old(d).synced + {n})
    {
      d := d.(synced := d.synced + {n});
    }

    /** Syncs the file, or else deletes it; fails when neither is possible. */
    method SyncOrDelete(n: Name, works: bool) returns (ok: bool)
      modifies this
      ensures ok == (n in old(d).files && (works || n !in locked))
      ensures ok ==> d == if works then old(d).(synced := old(d).synced + {n}) else Remove(old(d), {n})
      ensures !ok ==> d == old(d)
    {
      if works && n in d.files {
        Sync(n);
        ok := true;
      } else if n in d.files {
        ok := DeleteFile(n);
      } else {
        ok := false;
      }
    }

    /** segments.gen. */
    method WriteGen(genFile: int)
      modifies this
      ensures d == old(d).(genFile := genFile)
    {
      d := d.(genFile := genFile);
    }
  }

  // ---------- one file more ----------

  lemma IncRefNone(st: Store)
    ensures IncRef(st, {}) == st
  {
    assert (map n | n in st.counts.Keys + {} :: Count(st.counts, n) + One({}, n)) == st.counts;
  }

  lemma IncRefOne(st: Store, done: set<Name>, n: Name)
    requires n !in done
    ensures IncRef(IncRef(st, done), {n}) == IncRef(st, done + {n})
  {
    assert IncRef(IncRef(st, done), {n}).counts == IncRef(st, done + {n}).counts;
  }

  lemma RemoveOne(d: Directory, done: set<Name>, n: Name)
    ensures Remove(Remove(d, done), {n}) == Remove(d, done + {n}) && Remove(d, {}) == d
  {
    assert d.files - done - {n} == d.files - (done + {n}) && d.synced - done - {n} == d.synced - (done + {n});
    assert d.files - {} == d.files && d.synced - {} == d.synced;
  }

  lemma DeleteNone(st: Store, locked: set<Name>)
    ensures DeleteFiles(st, {}, locked) == st
  {
    assert {} - locked == {} && st.deletable + {} * locked * st.dir.files.Keys == st.deletable;
    RemoveOne(st.dir, {}, Listing(0));
  }

  lemma DeleteOne(st: Store, done: set<Name>, n: Name, locked: set<Name>)
    requires n !in done
    ensures DeleteFiles(DeleteFiles(st, done, locked), {n}, locked) == DeleteFiles(st, done + {n}, locked)
  {
    RemoveOne(st.dir, done - locked, n);
    var a, b := DeleteFiles(DeleteFiles(st, done, locked), {n}, locked), DeleteFiles(st, done + {n}, locked);
    if n in locked {
      assert (done + {n}) - locked == done - locked && {n} - locked == {};
      RemoveOne(Remove(st.dir, done - locked), {}, n);
    } else {
      assert (done + {n}) - locked == (done - locked) + {n} && {n} - locked == {n};
    }
    assert a.deletable == b.deletable;
  }

  lemma DecRefNone(st: Store, locked: set<Name>)
    ensures DecRef(st, {}, locked) == st
  {
    assert Gone(st.counts, {}) == {};
    DeleteNone(st, locked);
    assert DecRef(st, {}, locked).counts == st.counts;
  }

  lemma DecRefOne(st: Store, done: set<Name>, n: Name, locked: set<Name>)
    requires n !in done
    ensures DecRef(DecRef(st, done, locked), {n}, locked) == DecRef(st, done + {n}, locked)
  {
    var a, b := DecRef(DecRef(st, done, locked), {n}, locked), DecRef(st, done + {n}, locked);
    var mid := DecRef(st, done, locked);
    var g, h := Gone(st.counts, done), Gone(mid.counts, {n});
    assert Count(mid.counts, n) == Count(st.counts, n);
    assert Gone(st.counts, done + {n}) == g + h;
    if h == {} {
      DeleteNone(mid, locked);
      assert g + h == g;
    } else {
      assert h == {n};
      DeleteOne(st, g, n, locked);
      assert DeleteFiles(mid, h, locked).dir == DeleteFiles(DeleteFiles(st, g, locked), h, locked).dir;
    }
    assert a.counts == b.counts;
    assert a.deletable == b.deletable;
    assert a.synced == b.synced;
  }

  datatype CommitPoint = CommitPoint(commit: Commit, deleted: bool)

  /** The commits that are not marked deleted. */
  function Live(commits: seq<CommitPoint>): seq<CommitPoint> {
    if commits == [] then []
    else Live(commits[..|commits| - 1]) + if commits[|commits| - 1].deleted then [] else [commits[|commits| - 1]]
  }

  lemma LiveNone(commits: seq<CommitPoint>)
    ensures Live(commits[..0]) == []
  {
  }

  lemma LiveStep(commits: seq<CommitPoint>, k: nat)
    requires k < |commits|
    ensures Live(commits[..k + 1]) == Live(commits[..k]) + if commits[k].deleted then [] else [commits[k]]
  {
    assert commits[..k + 1][..k] == commits[..k];
  }

  class IndexFileDeleter {
    const directory: IndexDirectory
    var refCounts: map<Name, nat>
    var deletable: set<Name>
    var lastFiles: seq<set<Name>>
    var commits: seq<CommitPoint>
    var commitsToDelete: seq<set<Name>>
    var synced: set<Name>

    ghost function St(): Store
      reads this, directory
    {
      Store(directory.d, refCounts, deletable, synced)
    }

    /** Reads every segments_N, counts what the commits refer to, removes what nothing refers to, and
        lets the policy drop the commits of `gens`.  A torn segments_N up to the current one makes it throw. */
    constructor (directory: IndexDirectory, current: Commit, gens: set<nat>)
      requires Top(directory.d) >= 0 && CommitOf(directory.d, directory.d.files.Keys, current)
      requires forall n :: n in directory.d.files && n.Listing? && n.gen <= current.gen ==> directory.d.files[n].ok
      modifies directory
      ensures this.directory == directory && Valid([])
      ensures Abs() == NewDeleter(old(directory.d), current, gens, directory.locked)
    {
      this.directory, synced := directory, current.files;
      refCounts, deletable, lastFiles, commits, commitsToDelete := map[], {}, [], [], [];
      new;
      Load();
      LoadedCounted(old(directory.d), synced, directory.locked);
      MarkCommits(gens);
      assert Abs() == Loaded(old(directory.d), current.files, directory.locked);
      CheckpointFiles(Body(current), {}, []);
      DropMarked(gens, []);
    }

    /** The commits in order, with their files counted and what nothing refers to removed. */
    method Load()
      requires refCounts == map[] && deletable == {} && lastFiles == [] && commits == [] && Top(directory.d) >= 0
      modifies this`refCounts, this`commits, this`deletable, directory
      ensures Abs() == Loaded(old(directory.d), synced, directory.locked)
      ensures forall i :: 0 <= i < |commits| ==> !commits[i].deleted
    {
      hide AllFiles, CommitOf, Sort, Refs, FilesOf, DistinctGens, DeleteFiles, Loaded, Count, Unused;
      ghost var found := LoadCommits();
      LoadedIs(directory.d, synced, found, refCounts, directory.locked);
      SortCommits();
      DeleteUnused();
    }

    /** The listing is walked in any order. */
    method LoadCommits() returns (ghost found: seq<Commit>)
      requires refCounts == map[] && commits == []
      modifies this`refCounts, this`commits
      ensures found == Plain() && DistinctGens(found)
              && forall c :: c in found <==> CommitOf(directory.d, directory.d.files.Keys, c)
      ensures refCounts.Keys == directory.d.files.Keys + AllFiles(found)
      ensures forall n :: Count(refCounts, n) == Refs(FilesOf(found), n)
      ensures forall i :: 0 <= i < |commits| ==> !commits[i].deleted
    {
      var d := directory.d;
      var left := d.files.Keys;
      found := [];
      while left != {}
        invariant left <= d.files.Keys && found == Plain() && DistinctGens(found)
        invariant forall c :: c in found <==> CommitOf(d, d.files.Keys - left, c)
        invariant refCounts.Keys == d.files.Keys - left + AllFiles(found)
        invariant forall n :: Count(refCounts, n) == Refs(FilesOf(found), n)
        invariant forall i :: 0 <= i < |commits| ==> !commits[i].deleted
        decreases |left|
      {
        var n :| n in left;
        ghost var seen := d.files.Keys - left;
        Looked(d, seen, n, found);
        left := left - {n};
        assert d.files.Keys - left == seen + {n};
        found := LoadFile(n, found);
      }
      assert d.files.Keys - left == d.files.Keys;
    }

    /** One file of the listing: it gets a count of 0, and if it is a commit that can be read, its files are counted. */
    method LoadFile(n: Name, ghost found0: seq<Commit>) returns (ghost found: seq<Commit>)
      requires n in directory.d.files && found0 == Plain()
               && forall x :: Count(refCounts, x) == Refs(FilesOf(found0), x)
      requires AllFiles(found0) <= refCounts.Keys && forall i :: 0 <= i < |commits| ==> !commits[i].deleted
      modifies this`refCounts, this`commits
      ensures var f := directory.d.files[n];
        found == if n.Listing? && f.ok then found0 + [Commit(n.gen, f.infos + {n})] else found0
      ensures found == Plain() && forall x :: Count(refCounts, x) == Refs(FilesOf(found), x)
      ensures refCounts.Keys == old(refCounts).Keys + {n} + AllFiles(found)
      ensures forall i :: 0 <= i < |commits| ==> !commits[i].deleted
    {
      hide Refs, FilesOf, AllFiles;
      GetRefCount(n);
      found := found0;
      if n.Listing? && directory.d.files[n].ok {
        found := AddCommit(Commit(n.gen, directory.d.files[n].infos + {n}), found0);
      }
    }

    /** The file has a count, if only of 0. */
    method GetRefCount(n: Name)
      modifies this`refCounts
      ensures refCounts.Keys == old(refCounts).Keys + {n} && forall x :: Count(refCounts, x) == Count(old(refCounts), x)
    {
      if n !in refCounts { refCounts := refCounts[n := 0]; }
    }

    method AddCommit(c: Commit, ghost found0: seq<Commit>) returns (ghost found: seq<Commit>)
      requires found0 == Plain() && AllFiles(found0) <= refCounts.Keys
      requires forall x :: Count(refCounts, x) == Refs(FilesOf(found0), x)
      modifies this`refCounts, this`commits
      ensures found == found0 + [c] && commits == old(commits) + [CommitPoint(c, false)] && Plain() == found
      ensures refCounts.Keys == old(refCounts).Keys + AllFiles(found)
      ensures forall x :: Count(refCounts, x) == Refs(FilesOf(found), x)
    {
      hide IncRef, Refs, FilesOf, AllFiles;
      commits := commits + [CommitPoint(c, false)];
      found := found0 + [c];
      OneMoreCommit(St(), found0, c);
      IncRefAll(c.files);
    }

    /** std::sort by generation. */
    method SortCommits()
      requires forall i :: 0 <= i < |commits| ==> !commits[i].deleted
      modifies this`commits
      ensures Plain() == Sort(old(Plain())) && forall i :: 0 <= i < |commits| ==> !commits[i].deleted
    {
      var sorted := Sort(Commits(commits));
      assert Commits(commits) == Plain();
      commits := seq(|sorted|, i requires 0 <= i < |sorted| => CommitPoint(sorted[i], false));
      assert Plain() == sorted;
    }

    /** Removes the files that were found but never counted. */
    method DeleteUnused()
      modifies this`deletable, directory
      ensures St() == DeleteFiles(old(St()), Unused(old(St())), directory.locked)
    {
      DeleteAll(set n | n in refCounts && refCounts[n] == 0);
    }

    method IncRefFile(n: Name)
      modifies this`refCounts
      ensures St() == IncRef(old(St()), {n})
    {
      refCounts := refCounts[n := (if n in refCounts then refCounts[n] else 0) + 1];
      assert refCounts == IncRef(old(St()), {n}).counts;
    }

    method IncRefAll(files: set<Name>)
      modifies this`refCounts
      ensures St() == IncRef(old(St()), files)
    {
      hide IncRef;
      var left := files;
      IncRefNone(St());
      assert files - left == {};
      while left != {}
        invariant left <= files && St() == IncRef(old(St()), files - left)
        decreases |left|
      {
        var n :| n in left;
        IncRefOne(old(St()), files - left, n);
        assert files - left + {n} == files - (left - {n});
        IncRefFile(n);
        left := left - {n};
      }
      assert files - left == files;
    }

    /** Deletes the file, or queues it when it is still there but cannot be removed. */
    method DeleteFile(n: Name)
      modifies this`deletable, directory
      ensures St() == DeleteFiles(old(St()), {n}, directory.locked)
    {
      var ok := directory.DeleteFile(n);
      if !ok && directory.FileExists(n) {
        deletable := deletable + {n};
      }
      RemoveOne(old(directory.d), {}, n);
      assert {n} - directory.locked == if n in directory.locked then {} else {n};
    }

    method DecRefFile(n: Name)
      requires n in refCounts && refCounts[n] > 0
      modifies this`refCounts, this`deletable, this`synced, directory
      ensures St() == DecRef(old(St()), {n}, directory.locked)
    {
      refCounts := refCounts[n := refCounts[n] - 1];
      if refCounts[n] == 0 {
        DeleteFile(n);
        refCounts := refCounts - {n};
        synced := synced - {n};
      }
    }

    /** `files` with what was done taken away. */
    method DecRefAll(files: set<Name>)
      requires forall n :: n in files ==> Count(refCounts, n) > 0
      modifies this`refCounts, this`deletable, this`synced, directory
      ensures St() == DecRef(old(St()), files, directory.locked)
    {
      hide DecRef;
      var left := files;
      DecRefNone(St(), directory.locked);
      assert files - left == {};
      while left != {}
        invariant left <= files && St() == DecRef(old(St()), files - left, directory.locked)
        decreases |left|
      {
        var n :| n in left;
        DecRefOne(old(St()), files - left, n, directory.locked);
        OthersCounted(old(St()), files - left, directory.locked, n);
        assert files - left + {n} == files - (left - {n});
        DecRefFile(n);
        left := left - {n};
      }
      assert files - left == files;
    }

    method DeleteAll(files: set<Name>)
      modifies this`deletable, directory
      ensures St() == DeleteFiles(old(St()), files, directory.locked)
    {
      hide DeleteFiles;
      var left := files;
      DeleteNone(St(), directory.locked);
      assert files - left == {};
      while left != {}
        invariant left <= files && St() == DeleteFiles(old(St()), files - left, directory.locked)
        decreases |left|
      {
        var n :| n in left;
        DeleteOne(old(St()), files - left, n, directory.locked);
        assert files - left + {n} == files - (left - {n});
        DeleteFile(n);
        left := left - {n};
      }
      assert files - left == files;
    }

    method DeletePendingFiles()
      modifies this`deletable, directory
      ensures St() == DeletePending(old(St()), directory.locked)
    {
      var oldDeletable := deletable;
      deletable := {};
      DeleteAll(oldDeletable);
    }

    /** Removes the files in the directory, of one segment if one is named, that were never counted. */
    method RefreshFiles(segment: Option<nat>)
      modifies this`deletable, directory
      ensures St() == Refresh(old(St()), segment, directory.locked)
    {
      DeleteAll(set n | n in directory.d.files && n !in refCounts && IsOf(segment, n));
    }

    method DecRefEach(sets: seq<set<Name>>)
      requires forall n :: Refs(sets, n) <= Count(refCounts, n)
      modifies this`refCounts, this`deletable, this`synced, directory
      ensures St() == DecRefs(old(St()), sets, directory.locked)
    {
      hide DecRef;
      for i := 0 to |sets|
        invariant DecRefs(old(St()), sets, directory.locked) == DecRefs(St(), sets[i..], directory.locked)
        invariant forall n :: Refs(sets[i..], n) <= Count(refCounts, n)
      {
        forall n | n in sets[i] ensures Count(refCounts, n) > 0 { RefsIn(sets[i..], 0, n); }
        label Before:
        assert sets[i..][0] == sets[i] && sets[i..][1..] == sets[i + 1..];
        DecRefAll(sets[i]);
        forall n ensures Refs(sets[i + 1..], n) <= Count(refCounts, n) {
          DecRefCount(old@Before(St()), sets[i], directory.locked, n);
        }
      }
    }

    ghost function Plain(): seq<Commit>
      reads this
    {
      seq(|commits|, i requires 0 <= i < |commits| reads this => commits[i].commit)
    }

    ghost function Abs(): Deleter
      reads this, directory
    {
      Deleter(St(), lastFiles, Plain())
    }

    /** Between operations no commit is marked, and every reference is counted. */
    ghost predicate Valid(extra: seq<set<Name>>)
      reads this, directory
    {
      Counted(Abs(), extra) && commitsToDelete == [] && forall i :: 0 <= i < |commits| ==> !commits[i].deleted
    }

    /** checkpoint(segmentInfos, false). */
    method CheckpointFiles(infos: set<Name>, docs: set<Name>, ghost extra: seq<set<Name>>)
      requires Counted(Abs(), extra)
      modifies this, directory
      ensures Counted(Abs(), extra) && Abs() == Checkpoint(old(Abs()), infos, docs, directory.locked)
      ensures commits == old(commits) && commitsToDelete == old(commitsToDelete)
    {
      CheckpointCounted(Abs(), extra, infos, docs, directory.locked);
      TakenBack(Abs(), extra, infos, docs, directory.locked);
      hide Counted, IncRef, DecRefs, DeletePending;
      DeletePendingFiles();
      IncRefAll(infos);
      IncRefAll(docs);
      DecRefEach(lastFiles);
      lastFiles := [infos, docs];
      assert Plain() == old(Plain());
    }

    /** The policy marks the commits it no longer wants. */
    method MarkCommits(gens: set<nat>)
      requires commitsToDelete == [] && forall i :: 0 <= i < |commits| ==> !commits[i].deleted
      modifies this`commits, this`commitsToDelete
      ensures Plain() == old(Plain()) && commitsToDelete == DroppedFiles(Plain(), gens)
      ensures forall i :: 0 <= i < |commits| ==> (commits[i].deleted <==> commits[i].commit.gen in gens)
    {
      for i := 0 to |commits|
        invariant Plain() == old(Plain()) && |commits| == old(|commits|)
        invariant forall j :: 0 <= j < |commits| ==> (commits[j].deleted <==> j < i && commits[j].commit.gen in gens)
        invariant DroppedFiles(Plain(), gens) == commitsToDelete + DroppedFiles(Plain()[i..], gens)
      {
        ghost var rest := Plain()[i..];
        assert rest[0] == commits[i].commit && rest[1..] == Plain()[i + 1..];
        if commits[i].commit.gen in gens {
          commits := commits[i := commits[i].(deleted := true)];
          commitsToDelete := commitsToDelete + [commits[i].commit.files];
          assert Plain() == old(Plain());
        }
      }
    }

    /** deleteCommits: releases the marked commits' files, then closes the gaps in the list. */
    method DeleteMarked()
      requires forall n :: Refs(commitsToDelete, n) <= Count(refCounts, n)
      modifies this, directory
      ensures St() == DecRefs(old(St()), old(commitsToDelete), directory.locked) && lastFiles == old(lastFiles)
      ensures commits == Live(old(commits)) && commitsToDelete == []
    {
      hide DecRefs;
      DecRefEach(commitsToDelete);
      commitsToDelete := [];
      Compact();
    }

    method Compact()
      modifies this`commits
      ensures commits == Live(old(commits))
    {
      hide Live;
      var writeTo := CloseGaps();
      var size := |commits|;
      while size > writeTo
        invariant writeTo <= size == |commits| && commits[..writeTo] == Live(old(commits))
      {
        commits := commits[..size - 1];
        size := size - 1;
      }
    }

    /** Moves the commits that stay to the front. */
    method CloseGaps() returns (writeTo: nat)
      modifies this`commits
      ensures writeTo <= |commits| == |old(commits)| && commits[..writeTo] == Live(old(commits))
    {
      hide Live;
      var size, readFrom := |commits|, 0;
      ghost var was := commits;
      writeTo := 0;
      LiveNone(was);
      while readFrom < size
        invariant writeTo <= readFrom <= size == |commits| == |was|
        invariant commits[..writeTo] == Live(was[..readFrom])
        invariant forall i :: readFrom <= i < size ==> commits[i] == was[i]
      {
        LiveStep(was, readFrom);
        if !commits[readFrom].deleted {
          if writeTo != readFrom {
            commits := commits[writeTo := commits[readFrom]];
          }
          writeTo := writeTo + 1;
        }
        readFrom := readFrom + 1;
      }
      assert was[..size] == was;
    }

    /** deleteCommits after the policy marked the commits of `gens`. */
    method DropMarked(gens: set<nat>, ghost extra: seq<set<Name>>)
      requires Counted(Abs(), extra) && commitsToDelete == DroppedFiles(Plain(), gens)
      requires forall i :: 0 <= i < |commits| ==> (commits[i].deleted <==> commits[i].commit.gen in gens)
      modifies this, directory
      ensures Valid(extra) && Abs() == DeleteCommits(old(Abs()), gens, directory.locked)
    {
      DeleteCommitsCounted(Abs(), extra, gens, directory.locked);
      DroppedCounted(Abs(), extra, gens);
      LivePlain(commits, gens, Plain());
      hide Counted, DecRefs;
      DeleteMarked();
      assert Plain() == Commits(commits) == WithoutGens(old(Plain()), gens);
    }

    /** checkpoint(segmentInfos, true): the policy drops the commits of `gens`. */
    method CheckpointCommit(c: Commit, gens: set<nat>, ghost extra: seq<set<Name>>)
      requires Valid(extra)
      modifies this, directory
      ensures Valid(extra) && Abs() == CommitCheckpoint(old(Abs()), c, gens, directory.locked)
    {
      CommitCounted(Abs(), extra, c, directory.locked);
      hide Counted, IncRef, DecRefs, DeletePending;
      DeletePendingFiles();
      IncRefAll(c.files);
      commits := commits + [CommitPoint(c, false)];
      assert Plain() == old(Plain()) + [c];
      MarkCommits(gens);
      DropMarked(gens, extra);
    }

    /** close(). */
    method CloseFiles(ghost extra: seq<set<Name>>)
      requires Valid(extra)
      modifies this, directory
      ensures Valid(extra) && Abs() == Close(old(Abs()), directory.locked)
    {
      CloseCounted(Abs(), extra, directory.locked);
      forall n
        ensures Refs(lastFiles, n) <= Count(refCounts, n)
      {
        assert Count(St().counts, n) == Total(Abs(), extra, n);
      }
      hide Counted, DecRefs, DeletePending;
      DecRefEach(lastFiles);
      lastFiles := [];
      DeletePendingFiles();
      assert Plain() == old(Plain());
    }
  }

  lemma LoadedIs(d: Directory, synced: set<Name>, found: seq<Commit>, counts: map<Name, nat>, locked: set<Name>)
    requires Top(d) >= 0 && DistinctGens(found) && forall c :: c in found <==> CommitOf(d, d.files.Keys, c)
    requires counts.Keys == d.files.Keys + AllFiles(found) && forall n :: Count(counts, n) == Refs(FilesOf(found), n)
    ensures var st := Store(d, counts, {}, synced);
      Deleter(DeleteFiles(st, Unused(st), locked), [], Sort(found)) == Loaded(d, synced, locked)
  {
    CountedInAnyOrder(d, synced, found, counts);
    SortedCommits(d, found);
  }

  lemma OneMoreCommit(st: Store, found: seq<Commit>, c: Commit)
    requires AllFiles(found) <= st.counts.Keys && forall x :: Count(st.counts, x) == Refs(FilesOf(found), x)
    ensures forall x :: Count(IncRef(st, c.files).counts, x) == Refs(FilesOf(found + [c]), x)
    ensures IncRef(st, c.files).counts.Keys == st.counts.Keys + AllFiles(found + [c])
  {
    assert (found + [c])[..|found|] == found;
    forall x ensures Count(IncRef(st, c.files).counts, x) == Refs(FilesOf(found + [c]), x) { RefsLast(found, c, x); }
  }

  /** What the last checkpoint took can be given back after the new one took its files. */
  lemma TakenBack(d: Deleter, extra: seq<set<Name>>, infos: set<Name>, docs: set<Name>, locked: set<Name>)
    requires Counted(d, extra)
    ensures forall n :: Refs(d.lastFiles, n) <= Count(IncRef(IncRef(DeletePending(d.st, locked), infos), docs).counts,
              n)
  {
    forall n ensures Refs(d.lastFiles, n) <= Count(IncRef(IncRef(DeletePending(d.st, locked), infos), docs).counts, n) {
      assert Count(d.st.counts, n) == Total(d, extra, n);
    }
  }

  lemma DroppedCounted(d: Deleter, extra: seq<set<Name>>, gens: set<nat>)
    requires Counted(d, extra)
    ensures forall n :: Refs(DroppedFiles(d.commits, gens), n) <= Count(d.st.counts, n)
  {
    forall n ensures Refs(DroppedFiles(d.commits, gens), n) <= Count(d.st.counts, n) {
      assert Count(d.st.counts, n) == Total(d, extra, n);
      DroppedRefs(d.commits, gens, n);
    }
  }

  function Commits(points: seq<CommitPoint>): seq<Commit> {
    seq(|points|, i requires 0 <= i < |points| => points[i].commit)
  }

  lemma {:induction false} WithoutGensLast(commits: seq<Commit>, c: Commit, gens: set<nat>)
    ensures WithoutGens(commits + [c], gens) == WithoutGens(commits, gens) + if c.gen in gens then [] else [c]
  {
    if commits == [] {
      assert commits + [c] == [c] && [c][1..] == [];
      assert WithoutGens([c], gens) == (if c.gen in gens then [] else [c]) + WithoutGens([], gens);
    } else {
      WithoutGensLast(commits[1..], c, gens);
      assert (commits + [c])[1..] == commits[1..] + [c];
    }
  }

  /** Compacting the list leaves the commits the policy did not choose. */
  lemma {:induction false} LivePlain(points: seq<CommitPoint>, gens: set<nat>, commits: seq<Commit>)
    requires Commits(points) == commits
    requires forall i :: 0 <= i < |points| ==> (points[i].deleted <==> points[i].commit.gen in gens)
    ensures Commits(Live(points)) == WithoutGens(commits, gens)
    ensures forall i :: 0 <= i < |Live(points)| ==> !Live(points)[i].deleted
  {
    if points != [] {
      var n := |points| - 1;
      LivePlain(points[..n], gens, commits[..n]);
      WithoutGensLast(commits[..n], commits[n], gens);
      assert commits == commits[..n] + [commits[n]];
      if !points[n].deleted {
        assert Commits(Live(points)) == Commits(Live(points[..n])) + [points[n].commit];
      } else {
        assert Live(points) == Live(points[..n]);
      }
    }
  }

  lemma OthersCounted(st: Store, done: set<Name>, locked: set<Name>, n: Name)
    requires n !in done && Count(st.counts, n) > 0
    ensures Count(DecRef(st, done, locked).counts, n) == Count(st.counts, n)
  {
  }
}
