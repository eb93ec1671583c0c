/**
 Every run of commits, rollbacks, failures and crashes: the reference counts stay exact, and a
 reader finds the last finished commit.
 */
module CommitRuns {
  import opened CommitFiles

  // ---------- reading a directory ----------

  lemma {:induction false} NothingAhead(d: Directory, gen: int, left: nat)
    requires forall g :: g > gen ==> ReadCommit(d, g).None?
    ensures LookAhead(d, gen, left) == None
    decreases left
  {
    if left > 0 { NothingAhead(d, gen + 1, left - 1); }
  }

  /** With one readable commit and none readable beyond it, a reader finds it exactly when no
      generation has been skipped past it. */
  lemma OpenFinds(d: Directory, c: Commit)
    requires c.gen >= 1 && ReadCommit(d, c.gen) == Some(c)
    requires forall g :: g > c.gen ==> ReadCommit(d, g).None?
    ensures Top(d) >= c.gen
    ensures Open(d) == if Top(d) <= c.gen + 1 then Some(c) else None
  {
    assert Listing(c.gen) in d.files;
    assert c.gen in Generations(d);
    NothingAhead(d, Top(d), LOOKAHEAD_COUNT);
  }

  // ---------- counting ----------

  function Refs(sets: seq<set<Name>>, n: Name): nat {
    if sets == [] then 0 else One(sets[0], n) + Refs(sets[1..], n)
  }

  function FilesOf(commits: seq<Commit>): seq<set<Name>> {
    seq(|commits|, i requires 0 <= i < |commits| => commits[i].files)
  }

  lemma {:induction false} RefsAppend(a: seq<set<Name>>, b: seq<set<Name>>, n: Name)
    ensures Refs(a + b, n) == Refs(a, n) + Refs(b, n)
  {
    if a == [] {
      assert a + b == b;
    } else {
      RefsAppend(a[1..], b, n);
      assert (a + b)[1..] == a[1..] + b;
    }
  }

  lemma RefsWithout(a: seq<set<Name>>, i: nat, n: Name)
    requires i < |a|
    ensures Refs(a, n) == Refs(a[..i] + a[i + 1..], n) + One(a[i], n)
  {
    RefsAppend(a[..i], a[i + 1..], n);
    RefsAppend(a[..i], a[i..], n);
    assert a == a[..i] + a[i..];
    assert a[i..][1..] == a[i + 1..];
  }

  lemma {:induction false} RefsIn(a: seq<set<Name>>, i: nat, n: Name)
    requires i < |a| && n in a[i]
    ensures Refs(a, n) > 0
  {
    if i > 0 { RefsIn(a[1..], i - 1, n); }
  }

  lemma FilesOfTail(commits: seq<Commit>)
    requires commits != []
    ensures FilesOf(commits) == [commits[0].files] + FilesOf(commits[1..])
  {
  }

  lemma {:induction false} DroppedRefs(commits: seq<Commit>, gens: set<nat>, n: Name)
    ensures Refs(FilesOf(commits), n) == Refs(FilesOf(WithoutGens(commits, gens)), n)
            + Refs(DroppedFiles(commits, gens), n)
  {
    if commits != [] {
      DroppedRefs(commits[1..], gens, n);
      FilesOfTail(commits);
      var kept := WithoutGens(commits[1..], gens);
      if commits[0].gen !in gens {
        FilesOfTail([commits[0]] + kept);
        assert ([commits[0]] + kept)[1..] == kept;
        assert [] + DroppedFiles(commits[1..], gens) == DroppedFiles(commits[1..], gens);
      } else {
        assert ([commits[0].files] + DroppedFiles(commits[1..], gens))[1..] == DroppedFiles(commits[1..], gens);
        assert [] + kept == kept;
      }
    }
  }

  /** What the commits, the last checkpoint and the others who protect files refer to. */
  function Total(d: Deleter, extra: seq<set<Name>>, n: Name): nat {
    Refs(FilesOf(d.commits), n) + Refs(d.lastFiles, n) + Refs(extra, n)
  }

  ghost predicate Counted(d: Deleter, extra: seq<set<Name>>) {
    forall n :: Count(d.st.counts, n) == Total(d, extra, n)
  }

  lemma DecRefCount(st: Store, ns: set<Name>, locked: set<Name>, n: Name)
    requires One(ns, n) <= Count(st.counts, n)
    ensures Count(DecRef(st, ns, locked).counts, n) == Count(st.counts, n) - One(ns, n)
  {
  }

  lemma {:induction false} DecRefsCount(st: Store, sets: seq<set<Name>>, locked: set<Name>, n: Name)
    requires Refs(sets, n) <= Count(st.counts, n)
    ensures Count(DecRefs(st, sets, locked).counts, n) == Count(st.counts, n) - Refs(sets, n)
    decreases |sets|
  {
    if sets != [] {
      DecRefCount(st, sets[0], locked, n);
      DecRefsCount(DecRef(st, sets[0], locked), sets[1..], locked, n);
    }
  }

  lemma TwoRefs(a: set<Name>, b: set<Name>, n: Name)
    ensures Refs([a, b], n) == One(a, n) + One(b, n)
  {
    assert [a, b][1..] == [b] && [b][1..] == [];
    assert Refs([b], n) == One(b, n);
  }

  lemma CheckpointCounted(d: Deleter, extra: seq<set<Name>>, infos: set<Name>, docs: set<Name>, locked: set<Name>)
    requires Counted(d, extra)
    ensures Counted(Checkpoint(d, infos, docs, locked), extra)
  {
    var st := IncRef(IncRef(DeletePending(d.st, locked), infos), docs);
    forall n ensures Count(Checkpoint(d, infos, docs, locked).st.counts, n) ==
        Total(Checkpoint(d, infos, docs, locked), extra, n) {
      assert Count(st.counts, n) == Total(d, extra, n) + One(infos, n) + One(docs, n);
      DecRefsCount(st, d.lastFiles, locked, n);
      TwoRefs(infos, docs, n);
    }
  }

  lemma DeleteCommitsCounted(d: Deleter, extra: seq<set<Name>>, gens: set<nat>, locked: set<Name>)
    requires Counted(d, extra)
    ensures Counted(DeleteCommits(d, gens, locked), extra)
  {
    forall n ensures Count(DeleteCommits(d, gens, locked).st.counts, n) ==
        Total(DeleteCommits(d, gens, locked), extra, n) {
      assert Count(d.st.counts, n) == Total(d, extra, n);
      DroppedRefs(d.commits, gens, n);
      DecRefsCount(d.st, DroppedFiles(d.commits, gens), locked, n);
    }
  }

  /** A commit joins the list, and its files are counted. */
  lemma CommitCounted(d: Deleter, extra: seq<set<Name>>, c: Commit, locked: set<Name>)
    requires Counted(d, extra)
    ensures Counted(Deleter(IncRef(DeletePending(d.st, locked), c.files), d.lastFiles, d.commits + [c]), extra)
  {
    var d' := Deleter(IncRef(DeletePending(d.st, locked), c.files), d.lastFiles, d.commits + [c]);
    forall n ensures Count(d'.st.counts, n) == Total(d', extra, n) {
      assert Count(d.st.counts, n) == Total(d, extra, n);
      assert FilesOf(d'.commits) == FilesOf(d.commits) + [c.files];
      RefsAppend(FilesOf(d.commits), [c.files], n);
      assert [c.files][1..] == [];
    }
  }

  lemma CommitCheckpointCounted(d: Deleter, extra: seq<set<Name>>, c: Commit, gens: set<nat>, locked: set<Name>)
    requires Counted(d, extra)
    ensures Counted(CommitCheckpoint(d, c, gens, locked), extra)
  {
    CommitCounted(d, extra, c, locked);
    DeleteCommitsCounted(Deleter(IncRef(DeletePending(d.st, locked), c.files), d.lastFiles, d.commits + [c]), extra,
        gens, locked);
  }

  /** Handing out, or taking back, protection of a set of files. */
  lemma HoldCounted(d: Deleter, extra: seq<set<Name>>, ns: set<Name>)
    requires Counted(d, extra)
    ensures Counted(d.(st := IncRef(d.st, ns)), extra + [ns])
  {
    forall n ensures Count(IncRef(d.st, ns).counts, n) == Total(d, extra + [ns], n) {
      assert Count(d.st.counts, n) == Total(d, extra, n);
      RefsAppend(extra, [ns], n);
      assert [ns][1..] == [];
    }
  }

  lemma ReleaseCounted(d: Deleter, extra: seq<set<Name>>, i: nat, locked: set<Name>)
    requires Counted(d, extra) && i < |extra|
    ensures Counted(d.(st := DecRef(d.st, extra[i], locked)), extra[..i] + extra[i + 1..])
  {
    forall n ensures Count(DecRef(d.st, extra[i], locked).counts, n) == Total(d, extra[..i] + extra[i + 1..], n) {
      assert Count(d.st.counts, n) == Total(d, extra, n);
      RefsWithout(extra, i, n);
      DecRefCount(d.st, extra[i], locked, n);
    }
  }

  /** Everything but the deleter's own references. */
  function Extra(w: World): seq<set<Name>> {
    w.holds + if w.pending.Some? then [Body(w.pending.value.commit)] else []
  }

  ghost predicate DataOnly(ns: set<Name>) { forall n :: n in ns ==> n.Data? }

  /** While the writer is open every count is exact. */
  ghost predicate CountInv(w: World) {
    && (w.open ==> Counted(w.del, Extra(w)))
    && (forall i :: 0 <= i < |w.holds| ==> DataOnly(w.holds[i]))
    && (!w.open ==> w.pending.None?)
  }

  lemma {:induction false} IncRefsCount(st: Store, commits: seq<Commit>, n: Name)
    ensures Count(IncRefs(st, commits).counts, n) == Count(st.counts, n) + Refs(FilesOf(commits), n)
    decreases |commits|
  {
    if commits != [] {
      IncRefsCount(IncRef(st, commits[0].files), commits[1..], n);
      FilesOfTail(commits);
    }
  }

  /** A new deleter's commits, and the directory without the files that none of them refers to. */
  function Loaded(dir: Directory, synced: set<Name>, locked: set<Name>): Deleter
    requires Top(dir) >= 0
  {
    var commits := CommitsUpTo(dir, Top(dir));
    var st := IncRefs(Store(dir, map n | n in dir.files :: 0, {}, synced), commits);
    Deleter(DeleteFiles(st, Unused(st), locked), [], commits)
  }

  lemma LoadedCounted(dir: Directory, synced: set<Name>, locked: set<Name>)
    requires Top(dir) >= 0
    ensures Counted(Loaded(dir, synced, locked), [])
  {
    var d := Loaded(dir, synced, locked);
    forall n ensures Count(d.st.counts, n) == Total(d, [], n) {
      IncRefsCount(Store(dir, map n | n in dir.files :: 0, {}, synced), d.commits, n);
    }
  }

  lemma NewDeleterCounted(dir: Directory, c: Commit, gens: set<nat>, locked: set<Name>)
    requires Top(dir) >= 0
    ensures Counted(NewDeleter(dir, c, gens, locked), [])
  {
    var d := Loaded(dir, c.files, locked);
    LoadedCounted(dir, c.files, locked);
    CheckpointCounted(d, [], Body(c), {}, locked);
    DeleteCommitsCounted(Checkpoint(d, Body(c), {}, locked), [], gens, locked);
  }

  lemma CloseCounted(d: Deleter, extra: seq<set<Name>>, locked: set<Name>)
    requires Counted(d, extra)
    ensures Counted(Close(d, locked), extra)
  {
    forall n ensures Count(Close(d, locked).st.counts, n) == Total(Close(d, locked), extra, n) {
      assert Count(d.st.counts, n) == Total(d, extra, n);
      DecRefsCount(d.st, d.lastFiles, locked, n);
    }
  }

  /** Taking back the files of a commit that is no longer pending. */
  lemma UnpendCounted(w: World, d: Deleter, locked: set<Name>)
    requires w.pending.Some? && Counted(d, Extra(w))
    ensures Counted(d.(st := DecRef(d.st, Body(w.pending.value.commit), locked)), w.holds)
  {
    ReleaseCounted(d, Extra(w), |w.holds|, locked);
    assert Extra(w)[..|w.holds|] + Extra(w)[|w.holds| + 1..] == w.holds;
  }

  /** Counting looks only at the counts. */
  lemma CountedElsewhere(d: Deleter, extra: seq<set<Name>>, st: Store)
    requires Counted(d, extra) && st.counts == d.st.counts
    ensures Counted(d.(st := st), extra)
  {
    forall n ensures Count(st.counts, n) == Total(d.(st := st), extra, n) {
      assert Count(d.st.counts, n) == Total(d, extra, n);
    }
  }

  lemma PrepareCounts(w: World, i: nat, written: bool, locked: set<Name>)
    requires CountInv(w) && w.open && w.pending.None? && i < |w.holds|
    ensures CountInv(Prepare(w, i, written, locked))
  {
    var w', st := Prepare(w, i, written, locked), w.del.st;
    var ns, rest := w.holds[i], w.holds[..i] + w.holds[i + 1..];
    assert Extra(w) == w.holds;
    forall j | 0 <= j < |rest| ensures DataOnly(rest[j]) { assert rest[j] in w.holds; }
    if written {
      var n := Listing(w.generation + 1);
      assert n !in ns && Body(Commit(w.generation + 1, ns + {n})) == ns;
      forall x ensures Count(w'.del.st.counts, x) == Total(w'.del, rest + [ns], x) {
        assert Count(st.counts, x) == Total(w.del, w.holds, x);
        RefsWithout(w.holds, i, x);
        RefsAppend(rest, [ns], x);
        assert [ns][1..] == [];
      }
    } else {
      var put := Put(st, Listing(w.generation + 1), File(ns, false));
      var st' := put.(dir := Remove(put.dir, {Listing(w.generation + 1)} - locked));
      CountedElsewhere(w.del, w.holds, st');
      ReleaseCounted(w.del.(st := st'), w.holds, i, locked);
      assert Extra(w') == rest + [] == rest;
    }
  }

  lemma PublishCounts(w: World, written: bool, locked: set<Name>)
    requires CountInv(w) && w.open && w.pending.Some?
    ensures CountInv(Publish(w, written, locked))
  {
    var n := Listing(w.pending.value.commit.gen);
    if !written {
      var st := w.del.st.(dir := Remove(w.del.st.dir, {n} - locked));
      CountedElsewhere(w.del, Extra(w), st);
      UnpendCounted(w, w.del.(st := st), locked);
      assert w.holds + [] == w.holds;
    } else {
      CountedElsewhere(w.del, Extra(w), Publish(w, written, locked).del.st);
    }
  }

  lemma FinishCounts(w: World, synced: bool, genFile: int, gens: set<nat>, locked: set<Name>)
    requires CountInv(w) && w.open && w.pending.Some?
    ensures CountInv(Finish(w, synced, genFile, gens, locked))
  {
    var st, c := w.del.st, w.pending.value.commit;
    assert w.holds + [] == w.holds;
    if !Returns(w, synced, locked) {
      UnpendCounted(w, w.del, locked);
    } else {
      var dir := if synced then st.dir.(synced := st.dir.synced + {Listing(c.gen)})
          else Remove(st.dir, {Listing(c.gen)});
      var st' := st.(dir := dir.(genFile := genFile));
      CountedElsewhere(w.del, Extra(w), st');
      CommitCheckpointCounted(w.del.(st := st'), Extra(w), c, gens, locked);
      UnpendCounted(w, CommitCheckpoint(w.del.(st := st'), c, gens, locked), locked);
    }
  }

  lemma HoldCounts(w: World, ns: set<Name>)
    requires CountInv(w) && w.open && DataOnly(ns)
    ensures CountInv(WithStore(w, IncRef(w.del.st, ns)).(holds := w.holds + [ns]))
  {
    var w' := WithStore(w, IncRef(w.del.st, ns)).(holds := w.holds + [ns]);
    HoldCounted(w.del, Extra(w), ns);
    forall n ensures Count(w'.del.st.counts, n) == Total(w'.del, Extra(w'), n) {
      assert Count(w'.del.st.counts, n) == Total(w'.del, Extra(w) + [ns], n);
      var last := if w.pending.Some? then [Body(w.pending.value.commit)] else [];
      RefsAppend(w.holds, last, n);
      RefsAppend(w.holds + last, [ns], n);
      RefsAppend(w.holds, [ns], n);
      RefsAppend(w.holds + [ns], last, n);
    }
  }

  lemma ReleaseCounts(w: World, i: nat, locked: set<Name>)
    requires CountInv(w) && w.open && i < |w.holds|
    ensures CountInv(WithStore(w, DecRef(w.del.st, w.holds[i], locked)).(holds := w.holds[..i] + w.holds[i + 1..]))
  {
    var last := if w.pending.Some? then [Body(w.pending.value.commit)] else [];
    var rest := w.holds[..i] + w.holds[i + 1..];
    ReleaseCounted(w.del, Extra(w), i, locked);
    assert Extra(w)[..i] + Extra(w)[i + 1..] == rest + last;
    forall j | 0 <= j < |rest| ensures DataOnly(rest[j]) { assert rest[j] in w.holds; }
  }

  lemma StepCounts(w: World, e: Event)
    requires CountInv(w)
    ensures CountInv(Do(w, e))
  {
    if Enabled(w, e) {
      assert w.holds[..] == w.holds;
      match e
      case ENewFile(n) => CountedElsewhere(w.del, Extra(w), Do(w, e).del.st);
      case ECheckpoint(infos, docs, locked) => CheckpointCounted(w.del, Extra(w), infos, docs, locked);
      case ERefresh(_, _) => CountedElsewhere(w.del, Extra(w), Do(w, e).del.st);
      case EHold(ns) => HoldCounts(w, ns);
      case ERelease(i, locked) => ReleaseCounts(w, i, locked);
      case ESyncFile(_, n) => CountedElsewhere(w.del, Extra(w), Do(w, e).del.st);
      case EPrepare(i, written, locked) => PrepareCounts(w, i, written, locked);
      case EPublish(written, locked) => PublishCounts(w, written, locked);
      case EFinish(synced, genFile, gens, locked) => FinishCounts(w, synced, genFile, gens, locked);
      case ERollback(_) =>
      case EClose(_) =>
      case ECrash(_, _, _) =>
      case EReopen(gens, locked) =>
        if CanReopen(w.del.st.dir) && Top(w.del.st.dir) >= 0 {
          NewDeleterCounted(w.del.st.dir, Open(w.del.st.dir).value, gens, locked);
        }
    }
  }

  /** In every reachable state of an open writer a file's count is the number of live commits,
      checkpointed file sets and protected file sets that name it, whatever the policy drops. */
  lemma {:induction false} CountsAreExact(es: seq<Event>)
    ensures CountInv(Run(es))
  {
    if es != [] {
      CountsAreExact(es[..|es| - 1]);
      StepCounts(Run(es[..|es| - 1]), es[|es| - 1]);
    }
  }
}
