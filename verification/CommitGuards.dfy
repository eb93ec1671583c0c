/**
 What the file deleter removes and what it leaves: for every event of a run, exactly when every file that is
 still referenced stays on disk.
 */
module CommitGuards {
  import opened CommitFiles
  import opened CommitRuns
  import opened CommitLists

  // ---------- one operation of the deleter ----------

  /** Files only go; those neither swept from the queue nor touched and left without references stay. */
  ghost predicate Keeps(st: Store, st': Store, touched: set<Name>, swept: set<Name>) {
    && st'.dir.genFile == st.dir.genFile
    && (forall n :: n in st'.dir.files ==> n in st.dir.files && st'.dir.files[n] == st.dir.files[n])
    && (forall n :: n in st'.dir.files ==> (n in st'.dir.synced <==> n in st.dir.synced))
    && (forall n :: n in st.dir.files && n !in swept && (n in touched ==> Count(st'.counts, n) > 0) ==>
       n in st'.dir.files)
  }

  /** Every file that lost its last reference is gone, or queued. */
  ghost predicate Drained(st: Store, st': Store) {
    && (forall n :: n in st'.dir.files ==> n in st.dir.files)
    && (forall n :: n in st.deletable && n in st'.dir.files ==> n in st'.deletable)
    && (forall n :: Count(st.counts, n) > 0 && Count(st'.counts, n) == 0 ==> n !in st'.dir.files || n in st'.deletable)
  }

  ghost predicate Lowers(st: Store, st': Store, touched: set<Name>) {
    forall n :: if n in touched then Count(st'.counts, n) <= Count(st.counts, n)
        else Count(st'.counts, n) == Count(st.counts, n)
  }

  /** The names known to be synced are referenced. */
  ghost predicate Known(st: Store) { forall n :: n in st.synced ==> Count(st.counts, n) > 0 }

  ghost predicate KnownKept(st: Store, st': Store) { st'.synced <= st.synced && (Known(st) ==> Known(st')) }

  /** Only files that are held open join the queue. */
  ghost predicate Queues(st: Store, st': Store, locked: set<Name>) { st'.deletable <= st.deletable + locked }

  lemma DecRefKeeps(st: Store, ns: set<Name>, locked: set<Name>)
    ensures var st' := DecRef(st, ns, locked);
      && Keeps(st, st', ns, {}) && Drained(st, st') && Lowers(st, st', ns) && KnownKept(st, st')
      && Queues(st, st', locked) && st.deletable <= st'.deletable
  {
  }

  function Union(sets: seq<set<Name>>): set<Name> { if sets == [] then {} else sets[0] + Union(sets[1..]) }

  lemma {:induction false} RefsUnion(sets: seq<set<Name>>, n: Name)
    ensures Refs(sets, n) > 0 <==> n in Union(sets)
  {
    if sets != [] { RefsUnion(sets[1..], n); }
  }

  lemma ComposeKeeps(a: Store, b: Store, c: Store, t: set<Name>, u: set<Name>, s: set<Name>, r: set<Name>)
    requires Keeps(a, b, t, s) && Keeps(b, c, u, r)
             && forall n :: n in t && Count(c.counts, n) > 0 ==> Count(b.counts, n) > 0
    ensures Keeps(a, c, t + u, s + r) && (Drained(a, b) && Drained(b, c) ==> Drained(a, c))
  {
  }

  lemma {:induction false} DecRefsKeeps(st: Store, sets: seq<set<Name>>, locked: set<Name>)
    ensures var st' := DecRefs(st, sets, locked);
      && Keeps(st, st', Union(sets), {}) && Drained(st, st') && Lowers(st, st', Union(sets)) && KnownKept(st, st')
      && Queues(st, st', locked) && st.deletable <= st'.deletable
    decreases |sets|
  {
    if sets != [] {
      DecRefKeeps(st, sets[0], locked);
      var mid := DecRef(st, sets[0], locked);
      DecRefsKeeps(mid, sets[1..], locked);
      ComposeKeeps(st, mid, DecRefs(mid, sets[1..], locked), sets[0], Union(sets[1..]), {}, {});
    }
  }

  /** Retrying the queue. */
  lemma SweepKeeps(st: Store, locked: set<Name>)
    ensures var st' := DeletePending(st, locked);
      && Keeps(st, st', {}, st.deletable - locked) && Drained(st, st') && st'.counts == st.counts
         && st'.synced == st.synced
      && Queues(st, st', locked) && forall n :: n in st.deletable - locked ==> n !in st'.dir.files
  {
  }

  lemma IncRefKeeps(st: Store, ns: set<Name>)
    ensures var st' := IncRef(st, ns);
      && st'.dir == st.dir && st'.deletable == st.deletable && st'.synced == st.synced
      && Keeps(st, st', {}, {}) && Drained(st, st') && KnownKept(st, st')
      && forall n :: Count(st'.counts, n) == Count(st.counts, n) + One(ns, n)
  {
  }

  lemma RefreshKeeps(st: Store, segment: Option<nat>, locked: set<Name>)
    ensures var st' := Refresh(st, segment, locked);
      && Keeps(st, st', Uncounted(st, segment), {}) && Drained(st, st') && st'.counts == st.counts
         && st'.synced == st.synced
      && Queues(st, st', locked) && st.deletable <= st'.deletable
  {
  }

  /** A checkpoint sweeps the queue before it takes references. */
  lemma CheckpointKeeps(d: Deleter, infos: set<Name>, docs: set<Name>, locked: set<Name>)
    ensures var d' := Checkpoint(d, infos, docs, locked);
      && Keeps(d.st, d'.st, Union(d.lastFiles), d.st.deletable - locked) && Drained(d.st, d'.st)
         && KnownKept(d.st, d'.st)
      && Queues(d.st, d'.st, locked) && (forall n :: n in d.st.deletable - locked ==> n !in d'.st.dir.files)
      && d'.lastFiles == [infos, docs] && d'.commits == d.commits
  {
    var swept := DeletePending(d.st, locked);
    var one := IncRef(swept, infos);
    var two := IncRef(one, docs);
    SweepKeeps(d.st, locked);
    IncRefKeeps(swept, infos);
    IncRefKeeps(one, docs);
    DecRefsKeeps(two, d.lastFiles, locked);
    var all := d.st.deletable - locked;
    hide DeletePending, IncRef, DecRefs, Count;
    ComposeKeeps(d.st, swept, one, {}, {}, all, {});
    ComposeKeeps(d.st, one, two, {}, {}, all, {});
    ComposeKeeps(d.st, two, DecRefs(two, d.lastFiles, locked), {}, Union(d.lastFiles), all, {});
    assert all + {} == all && {} + Union(d.lastFiles) == Union(d.lastFiles);
  }

  /** So does the checkpoint of a commit. */
  lemma CommitCheckpointKeeps(d: Deleter, c: Commit, gens: set<nat>, locked: set<Name>)
    ensures var d' := CommitCheckpoint(d, c, gens, locked);
      var dropped := DroppedFiles(d.commits + [c], gens);
      && Keeps(d.st, d'.st, Union(dropped), d.st.deletable - locked) && Drained(d.st, d'.st) && KnownKept(d.st, d'.st)
      && Queues(d.st, d'.st, locked) && (forall n :: n in d.st.deletable - locked ==> n !in d'.st.dir.files)
      && d'.commits == WithoutGens(d.commits + [c], gens) && d'.lastFiles == d.lastFiles
  {
    var swept := DeletePending(d.st, locked);
    var one := IncRef(swept, c.files);
    var dropped := DroppedFiles(d.commits + [c], gens);
    SweepKeeps(d.st, locked);
    IncRefKeeps(swept, c.files);
    DecRefsKeeps(one, dropped, locked);
    var all := d.st.deletable - locked;
    hide DeletePending, IncRef, DecRefs, Count, DroppedFiles, WithoutGens;
    ComposeKeeps(d.st, swept, one, {}, {}, all, {});
    ComposeKeeps(d.st, one, DecRefs(one, dropped, locked), {}, Union(dropped), all, {});
    assert all + {} == all && {} + Union(dropped) == Union(dropped);
  }

  lemma CloseKeeps(d: Deleter, locked: set<Name>)
    ensures var d' := Close(d, locked);
      && Keeps(d.st, d'.st, Union(d.lastFiles), d.st.deletable - locked) && Drained(d.st, d'.st)
      && (forall n :: n in d.st.deletable - locked ==> n !in d'.st.dir.files) && d'.commits == d.commits
         && d'.lastFiles == []
  {
    var released := DecRefs(d.st, d.lastFiles, locked);
    DecRefsKeeps(d.st, d.lastFiles, locked);
    SweepKeeps(released, locked);
    assert released.deletable - locked == d.st.deletable - locked;
    ComposeKeeps(d.st, released, DeletePending(released, locked), Union(d.lastFiles), {}, {}, d.st.deletable - locked);
    assert Union(d.lastFiles) + {} == Union(d.lastFiles) && {} + (d.st.deletable - locked) == d.st.deletable - locked;
  }

  lemma UndoneKeeps(w: World, locked: set<Name>)
    ensures var st := Undone(w, locked);
      && Keeps(w.del.st, st, PendingBody(w), PendingName(w) - locked) && Drained(w.del.st, st)
         && KnownKept(w.del.st, st)
      && Queues(w.del.st, st, locked) && w.del.st.deletable <= st.deletable
  {
  }

  // ---------- one event ----------

  /** Only segments_N files are not data: nothing that is checkpointed, protected or committed names one. */
  ghost predicate Plain(w: World) {
    && (forall n :: n in w.del.st.dir.files ==> DataOnly(w.del.st.dir.files[n].infos))
    && DataOnly(Body(w.last)) && DataOnly(PendingBody(w)) && DataOnly(Union(w.del.lastFiles))
  }

  lemma PlainStep(w: World, e: Event)
    requires Plain(w) && CountInv(w)
    ensures Plain(Do(w, e))
  {
    if Enabled(w, e) {
      match e
      case ECheckpoint(infos, docs, locked) =>
        CheckpointKeeps(w.del, infos, docs, locked);
        TwoUnion(infos, docs);
      case ERefresh(segment, locked) => RefreshKeeps(w.del.st, segment, locked);
      case ERelease(i, locked) => DecRefKeeps(w.del.st, w.holds[i], locked);
      case EPublish(written, locked) => PlainPublish(w, written, locked);
      case EPrepare(i, written, locked) => PlainPrepare(w, i, written, locked);
      case EFinish(synced, genFile, gens, locked) => PlainFinish(w, synced, genFile, gens, locked);
      case ERollback(locked) => PlainRollback(w, locked);
      case EClose(locked) => CloseKeeps(w.del, locked);
      case EReopen(gens, locked) => PlainReopen(w, gens, locked);
      case _ =>
    }
  }

  lemma PlainPrepare(w: World, i: nat, written: bool, locked: set<Name>)
    requires Plain(w) && CountInv(w) && w.open && w.pending.None? && i < |w.holds|
    ensures Plain(Prepare(w, i, written, locked))
  {
    var gen := w.generation + 1;
    var st := Put(w.del.st, Listing(gen), File(w.holds[i], false));
    if written {
      assert Body(Commit(gen, w.holds[i] + {Listing(gen)})) == w.holds[i];
    } else {
      DecRefKeeps(st.(dir := Remove(st.dir, {Listing(gen)} - locked)), w.holds[i], locked);
    }
  }

  lemma PlainPublish(w: World, written: bool, locked: set<Name>)
    requires Plain(w) && w.pending.Some?
    ensures Plain(Publish(w, written, locked))
  {
    if !written { UndoneKeeps(w, locked); }
  }

  lemma PlainFinish(w: World, synced: bool, genFile: int, gens: set<nat>, locked: set<Name>)
    requires Plain(w) && w.pending.Some?
    ensures Plain(Finish(w, synced, genFile, gens, locked))
  {
    var st, c := w.del.st, w.pending.value.commit;
    if Returns(w, synced, locked) {
      var dir := if synced then st.dir.(synced := st.dir.synced + {Listing(c.gen)})
          else Remove(st.dir, {Listing(c.gen)});
      var del := w.del.(st := st.(dir := dir.(genFile := genFile)));
      CommitCheckpointKeeps(del, c, gens, locked);
      DecRefKeeps(CommitCheckpoint(del, c, gens, locked).st, Body(c), locked);
    } else {
      DecRefKeeps(st, Body(c), locked);
    }
  }

  lemma PlainRollback(w: World, locked: set<Name>)
    requires Plain(w)
    ensures Plain(Rollback(w, locked))
  {
    var del := Checkpoint(w.del.(st := Undone(w, locked)), Body(w.last), {}, locked);
    UndoneKeeps(w, locked);
    CheckpointKeeps(w.del.(st := Undone(w, locked)), Body(w.last), {}, locked);
    RefreshKeeps(del.st, None, locked);
    CloseKeeps(del.(st := Refresh(del.st, None, locked)), locked);
  }

  lemma LoadedKeeps(dir: Directory, synced: set<Name>, locked: set<Name>)
    requires Top(dir) >= 0
    ensures var d, st := Loaded(dir, synced, locked),
            IncRefs(Store(dir, map n | n in dir.files :: 0, {}, synced), CommitsUpTo(dir, Top(dir)));
      && st.dir == dir && Keeps(st, d.st, Unused(st), {}) && d.st.counts == st.counts && d.st.synced == synced
         && d.st.deletable <= locked
  {
    var st0 := Store(dir, map n | n in dir.files :: 0, {}, synced);
    IncRefsKeys(st0, CommitsUpTo(dir, Top(dir)));
  }

  /** What the commits that are kept name was counted from the start. */
  lemma KeptWasCounted(dir: Directory, c: Commit, gens: set<nat>, locked: set<Name>, n: Name)
    requires Top(dir) >= 0 && CommitOf(dir, dir.files.Keys, c)
             && Count(NewDeleter(dir, c, gens, locked).st.counts, n) > 0
    ensures Count(Loaded(dir, c.files, locked).st.counts, n) > 0
  {
    var d0, d := Loaded(dir, c.files, locked), NewDeleter(dir, c, gens, locked);
    LoadedCounted(dir, c.files, locked);
    NewDeleterCounted(dir, c, gens, locked);
    assert Count(d.st.counts, n) == Total(d, [], n) && Count(d0.st.counts, n) == Total(d0, [], n);
    DroppedRefs(d0.commits, gens, n);
    TwoRefs(Body(c), {}, n);
    if n in Body(c) {
      CommitsUpToAre(dir, Top(dir));
      assert c.gen in Generations(dir);
      var i :| 0 <= i < |d0.commits| && d0.commits[i] == c;
      RefsIn(FilesOf(d0.commits), i, n);
    }
  }

  /** A new deleter removes only what no commit it keeps refers to. */
  lemma NewDeleterKeeps(dir: Directory, c: Commit, gens: set<nat>, locked: set<Name>)
    requires Top(dir) >= 0 && CommitOf(dir, dir.files.Keys, c)
    ensures var d := NewDeleter(dir, c, gens, locked);
      && (forall n :: n in d.st.dir.files ==> n in dir.files && d.st.dir.files[n] == dir.files[n])
      && (forall n :: n in d.st.dir.files ==> (n in d.st.dir.synced <==> n in dir.synced))
      && (forall n :: n in dir.files && Count(d.st.counts, n) > 0 ==> n in d.st.dir.files)
      && d.st.dir.genFile == dir.genFile && d.lastFiles == [Body(c), {}]
         && d.commits == WithoutGens(CommitsUpTo(dir, Top(dir)), gens)
      && d.st.synced <= c.files && (Known(Loaded(dir, c.files, locked).st) ==> Known(d.st))
  {
    var d0, d := Loaded(dir, c.files, locked), NewDeleter(dir, c, gens, locked);
    var st := IncRefs(Store(dir, map n | n in dir.files :: 0, {}, c.files), CommitsUpTo(dir, Top(dir)));
    var d1 := Checkpoint(d0, Body(c), {}, locked);
    LoadedKeeps(dir, c.files, locked);
    CheckpointKeeps(d0, Body(c), {}, locked);
    DecRefsKeeps(d1.st, DroppedFiles(d1.commits, gens), locked);
    forall n | n in dir.files && Count(d.st.counts, n) > 0 ensures n in d.st.dir.files {
      KeptWasCounted(dir, c, gens, locked, n);
      assert Union(d0.lastFiles) == {};
    }
  }

  lemma PlainReopen(w: World, gens: set<nat>, locked: set<Name>)
    requires Plain(w)
    ensures Plain(Reopen(w, gens, locked))
  {
    var dir := w.del.st.dir;
    if CanReopen(dir) && Top(dir) >= 0 {
      var c := Open(dir).value;
      OpenIsOnDisk(dir);
      NewDeleterKeeps(dir, c, gens, locked);
      TwoUnion(Body(c), {});
    }
  }

  lemma {:induction false} PlainRuns(es: seq<Event>)
    ensures Plain(Run(es))
  {
    if es != [] {
      PlainRuns(es[..|es| - 1]);
      CountsAreExact(es[..|es| - 1]);
      PlainStep(Run(es[..|es| - 1]), es[|es| - 1]);
    } else {
      assert Body(EMPTY_COMMIT) == {};
    }
  }

  /** The segments_N of a commit between its two phases; no count protects it. */
  function PendingName(w: World): set<Name> { if w.pending.Some? then {Listing(w.pending.value.commit.gen)} else {} }

  function PendingBody(w: World): set<Name> { if w.pending.Some? then Body(w.pending.value.commit) else {} }

  predicate Stays(d: Directory, d': Directory, n: Name) {
    n in d.files ==> n in d'.files && (d.files[n].ok ==> d'.files[n] == d.files[n])
  }

  /** Every file on disk that is referenced afterwards stays, and a whole one stays whole; so does the
      segments_N of a pending commit, and a commit is not prepared under a name that is referenced. */
  ghost predicate Spared(w: World, w': World) {
    && (forall n :: Count(w'.del.st.counts, n) > 0 && n !in PendingName(w) ==> Stays(w.del.st.dir, w'.del.st.dir, n))
    && (forall n :: n in PendingName(w) * PendingName(w') && n in w.del.st.dir.files ==> n in w'.del.st.dir.files)
    && (w.pending.None? ==> forall n :: n in PendingName(w') ==> Count(w'.del.st.counts, n) == 0)
  }

  /** What the queue holds that can be removed now. */
  function Swept(w: World, locked: set<Name>): set<Name> { (w.del.st.deletable - locked) * w.del.st.dir.files.Keys }

  /** Whoever refers to files after the event. */
  function Referenced(w: World, e: Event): set<Name> {
    match e
    case ECheckpoint(infos, docs, _) => infos + docs + Union(FilesOf(w.del.commits)) + Union(Extra(w))
    case EFinish(_, _, gens, _) =>
      var commits := if w.pending.Some? then w.del.commits + [w.pending.value.commit] else w.del.commits;
      Union(FilesOf(WithoutGens(commits, gens))) + Union(w.del.lastFiles) + Union(w.holds)
    case _ => Union(FilesOf(w.del.commits)) + Union(w.holds)
  }

  /** The guard: no queued file that the event can remove is referenced afterwards, a refresh of everything leaves
      the segments_N of a pending commit, and a commit is not prepared under the name of a live one. */
  predicate Spares(w: World, e: Event) {
    match e
    case ECheckpoint(_, _, locked) => Swept(w, locked) !! Referenced(w, e) + PendingName(w)
    case EFinish(synced, _, _, locked) =>
      w.pending.Some? && Returns(w, synced, locked) ==> Swept(w, locked) !! Referenced(w, e) - PendingName(w)
    case ERollback(locked) => Swept(w, locked) !! Referenced(w, e) - PendingName(w)
    case EClose(locked) => Swept(w, locked) !! Referenced(w, e)
    case ERefresh(segment, locked) => PendingName(w) !! Uncounted(w.del.st, segment) - locked
    case EPrepare(_, written, locked) =>
      var n := Listing(w.generation + 1);
      if written then Count(w.del.st.counts, n) == 0
      else n in w.del.st.dir.files && Count(w.del.st.counts, n) > 0 ==> !w.del.st.dir.files[n].ok && n in locked
    case _ => true
  }

  /** An operation that sweeps the queue spares what is referenced afterwards exactly when nothing of that is swept. */
  lemma SweptExactly(w: World, w': World, touched: set<Name>, gone: set<Name>, referenced: set<Name>, locked: set<Name>)
    requires Keeps(w.del.st, w'.del.st, touched, gone)
             && forall n :: n in w.del.st.deletable - locked ==> n !in w'.del.st.dir.files
    requires gone <= (w.del.st.deletable - locked) + PendingName(w)
    requires forall n :: Count(w'.del.st.counts, n) > 0 <==> n in referenced
    ensures (forall n :: Count(w'.del.st.counts, n) > 0 && n !in PendingName(w) ==>
              Stays(w.del.st.dir, w'.del.st.dir, n)) <==>
              Swept(w, locked) !! referenced - PendingName(w)
  {
    if Swept(w, locked) !! referenced - PendingName(w) {
      forall n | Count(w'.del.st.counts, n) > 0 && n !in PendingName(w) ensures Stays(w.del.st.dir, w'.del.st.dir, n) {
        if n in w.del.st.dir.files { assert n !in Swept(w, locked); }
      }
    } else {
      var n :| n in Swept(w, locked) && n in referenced - PendingName(w);
      assert !Stays(w.del.st.dir, w'.del.st.dir, n);
    }
  }

  /** What is referenced is what has a count. */
  lemma CountedIsReferenced(d: Deleter, extra: seq<set<Name>>, n: Name)
    requires Counted(d, extra)
    ensures Count(d.st.counts, n) > 0 <==> n in Union(FilesOf(d.commits)) + Union(d.lastFiles) + Union(extra)
  {
    assert Count(d.st.counts, n) == Total(d, extra, n);
    RefsUnion(FilesOf(d.commits), n);
    RefsUnion(d.lastFiles, n);
    RefsUnion(extra, n);
  }

  lemma TwoUnion(a: set<Name>, b: set<Name>)
    ensures Union([a, b]) == a + b
  {
    assert [a, b][1..] == [b] && [b][1..] == [];
    assert Union([b]) == b + Union([]);
  }

  lemma CheckpointReferenced(w: World, infos: set<Name>, docs: set<Name>, locked: set<Name>)
    requires CountInv(w) && w.open
    ensures forall n :: Count(Checkpoint(w.del, infos, docs, locked).st.counts, n) > 0 <==>
              n in Referenced(w, ECheckpoint(infos, docs, locked))
  {
    var d := Checkpoint(w.del, infos, docs, locked);
    CheckpointCounted(w.del, Extra(w), infos, docs, locked);
    TwoUnion(infos, docs);
    forall n ensures Count(d.st.counts, n) > 0 <==> n in Referenced(w, ECheckpoint(infos, docs, locked)) {
      CountedIsReferenced(d, Extra(w), n);
    }
  }

  lemma CheckpointSpares(w: World, infos: set<Name>, docs: set<Name>, locked: set<Name>)
    requires CountInv(w) && Plain(w) && Enabled(w, ECheckpoint(infos, docs, locked))
    ensures var e := ECheckpoint(infos, docs, locked); Spared(w, Do(w, e)) <==> Spares(w, e)
  {
    hide Checkpoint, Referenced, CountInv, Keeps, Drained, KnownKept, Count, Swept, Stays, Queues;
    var e := ECheckpoint(infos, docs, locked);
    var w' := Do(w, e);
    CheckpointKeeps(w.del, infos, docs, locked);
    CheckpointReferenced(w, infos, docs, locked);
    SweptExactly(w, w', Union(w.del.lastFiles), w.del.st.deletable - locked, Referenced(w, e), locked);
    PendingStays(w, w', locked);
    assert Swept(w, locked) !! Referenced(w, e) + PendingName(w) <==>
           Swept(w, locked) !! Referenced(w, e) - PendingName(w) && Swept(w, locked) !! PendingName(w);
  }

  /** The checkpoint removes the pending segments_N exactly when that is swept. */
  lemma PendingStays(w: World, w': World, locked: set<Name>)
    requires Keeps(w.del.st, w'.del.st, Union(w.del.lastFiles), w.del.st.deletable - locked) && w'.pending == w.pending
    requires DataOnly(Union(w.del.lastFiles))
    requires forall n :: n in w.del.st.deletable - locked ==> n !in w'.del.st.dir.files
    ensures (forall n :: n in PendingName(w) && n in w.del.st.dir.files ==> n in w'.del.st.dir.files) <==>
            Swept(w, locked) !! PendingName(w)
  {
  }

  lemma FinishSpares(w: World, synced: bool, genFile: int, gens: set<nat>, locked: set<Name>)
    requires CountInv(w) && w.open && w.pending.Some?
    ensures Spared(w, Finish(w, synced, genFile, gens, locked)) <==> Spares(w, EFinish(synced, genFile, gens, locked))
  {
    hide CommitCheckpoint, CountInv;
    var c := w.pending.value.commit;
    if Returns(w, synced, locked) {
      FinishSweeps(w, synced, genFile, gens, locked);
    } else {
      DecRefKeeps(w.del.st, Body(c), locked);
    }
  }

  /** The store once segments_N is synced, or removed, and segments.gen is written. */
  function Written(w: World, synced: bool, genFile: int): Store
    requires w.pending.Some?
  {
    var st, n := w.del.st, Listing(w.pending.value.commit.gen);
    var dir := if synced then st.dir.(synced := st.dir.synced + {n}) else Remove(st.dir, {n});
    st.(dir := dir.(genFile := genFile))
  }

  lemma FinishedKeeps(w: World, synced: bool, genFile: int, gens: set<nat>, locked: set<Name>)
    requires w.pending.Some? && Returns(w, synced, locked)
    ensures var c, st, w' := w.pending.value.commit, Written(w, synced, genFile),
            Finish(w, synced, genFile, gens, locked);
      && Keeps(st, w'.del.st, Union(DroppedFiles(w.del.commits + [c], gens)) + Body(c), st.deletable - locked)
      && Drained(st, w'.del.st) && KnownKept(st, w'.del.st)
      && (forall n :: n in st.deletable - locked ==> n !in w'.del.st.dir.files)
      && w'.del.commits == WithoutGens(w.del.commits + [c], gens) && w'.del.lastFiles == w.del.lastFiles
         && w'.holds == w.holds
  {
    var c, st := w.pending.value.commit, Written(w, synced, genFile);
    var d := CommitCheckpoint(w.del.(st := st), c, gens, locked);
    CommitCheckpointKeeps(w.del.(st := st), c, gens, locked);
    DecRefKeeps(d.st, Body(c), locked);
    hide CommitCheckpoint, DecRef, DroppedFiles, WithoutGens, Count;
    ComposeKeeps(st, d.st, DecRef(d.st, Body(c), locked), Union(DroppedFiles(w.del.commits + [c], gens)), Body(c),
        st.deletable - locked, {});
    assert (st.deletable - locked) + {} == st.deletable - locked;
  }

  lemma FinishSweeps(w: World, synced: bool, genFile: int, gens: set<nat>, locked: set<Name>)
    requires CountInv(w) && w.open && w.pending.Some? && Returns(w, synced, locked)
    ensures Spared(w, Finish(w, synced, genFile, gens, locked)) <==> Spares(w, EFinish(synced, genFile, gens, locked))
  {
    var e := EFinish(synced, genFile, gens, locked);
    var c, w', w1 := w.pending.value.commit, Finish(w, synced, genFile, gens, locked),
        WithStore(w, Written(w, synced, genFile));
    hide Finish, Referenced, CountInv, Counted, DroppedFiles, Keeps, Drained, KnownKept, Count, Swept, Stays, Written;
    FinishedKeeps(w, synced, genFile, gens, locked);
    FinishReferenced(w, synced, genFile, gens, locked);
    WrittenElsewhere(w, synced, genFile);
    SweptExactly(w1, w', Union(DroppedFiles(w.del.commits + [c], gens)) + Body(c), w.del.st.deletable - locked,
        Referenced(w, e), locked);
    SameOutside(w, w1, w', Referenced(w, e), locked);
    assert w'.pending.None? && PendingName(w') == {};
  }

  lemma WrittenElsewhere(w: World, synced: bool, genFile: int)
    requires w.pending.Some?
    ensures var st := Written(w, synced, genFile);
      && st.deletable == w.del.st.deletable && st.counts == w.del.st.counts && st.synced == w.del.st.synced
         && st.dir.genFile == genFile
      && (forall n :: n !in PendingName(w) ==> (n in w.del.st.dir.files <==> n in st.dir.files))
      && (forall n :: n !in PendingName(w) && n in w.del.st.dir.files ==>
            st.dir.files[n] == w.del.st.dir.files[n] && (n in st.dir.synced <==> n in w.del.st.dir.synced))
  {
  }

  lemma FinishReferenced(w: World, synced: bool, genFile: int, gens: set<nat>, locked: set<Name>)
    requires CountInv(w) && w.open && w.pending.Some? && Returns(w, synced, locked)
    ensures forall n :: Count(Finish(w, synced, genFile, gens, locked).del.st.counts, n) > 0 <==>
                          n in Referenced(w, EFinish(synced, genFile, gens, locked))
  {
    var w' := Finish(w, synced, genFile, gens, locked);
    FinishedKeeps(w, synced, genFile, gens, locked);
    FinishCounts(w, synced, genFile, gens, locked);
    assert Extra(w') == w.holds + [] == w.holds;
    hide Finish;
    forall n ensures Count(w'.del.st.counts, n) > 0 <==> n in Referenced(w, EFinish(synced, genFile, gens, locked)) {
      CountedIsReferenced(w'.del, Extra(w'), n);
    }
  }

  /** Syncing or removing the pending segments_N changes nothing for the other names. */
  lemma SameOutside(w: World, w1: World, w': World, referenced: set<Name>, locked: set<Name>)
    requires w.pending.Some? && w1.pending == w.pending && w1.del.st.deletable == w.del.st.deletable
    requires forall n :: n !in PendingName(w) ==> (n in w.del.st.dir.files <==> n in w1.del.st.dir.files)
    requires forall n :: n !in PendingName(w) && n in w.del.st.dir.files ==>
               w1.del.st.dir.files[n] == w.del.st.dir.files[n]
    ensures Swept(w1, locked) !! referenced - PendingName(w) <==> Swept(w, locked) !! referenced - PendingName(w)
    ensures forall n :: n !in PendingName(w) ==> (Stays(w.del.st.dir, w'.del.st.dir, n) <==>
              Stays(w1.del.st.dir, w'.del.st.dir, n))
  {
    forall n | n !in PendingName(w) ensures n in Swept(w, locked) <==> n in Swept(w1, locked) {}
  }

  lemma RollbackCounts(w: World, locked: set<Name>)
    requires CountInv(w) && w.open
    ensures var d1 := w.del.(st := Undone(w, locked));
      var d2 := Checkpoint(d1, Body(w.last), {}, locked);
      && Counted(d1, w.holds) && Counted(d2, w.holds) && Counted(Rollback(w, locked).del, w.holds)
  {
    var d1 := w.del.(st := Undone(w, locked));
    if w.pending.Some? {
      var st := w.del.st.(dir := Remove(w.del.st.dir, {Listing(w.pending.value.commit.gen)} - locked));
      CountedElsewhere(w.del, Extra(w), st);
      UnpendCounted(w, w.del.(st := st), locked);
    } else {
      assert Extra(w) == w.holds;
    }
    var d2 := Checkpoint(d1, Body(w.last), {}, locked);
    CheckpointCounted(d1, w.holds, Body(w.last), {}, locked);
    CountedElsewhere(d2, w.holds, Refresh(d2.st, None, locked));
    CloseCounted(d2.(st := Refresh(d2.st, None, locked)), w.holds, locked);
  }

  /** Whatever keeps its references to the end had them all along. */
  lemma RollbackHeld(w: World, locked: set<Name>, n: Name)
    requires CountInv(w) && w.open && Count(Rollback(w, locked).del.st.counts, n) > 0
    ensures var d1 := w.del.(st := Undone(w, locked));
      Count(d1.st.counts, n) > 0 && Count(Checkpoint(d1, Body(w.last), {}, locked).st.counts, n) > 0
  {
    var d1 := w.del.(st := Undone(w, locked));
    var d2, d4 := Checkpoint(d1, Body(w.last), {}, locked), Rollback(w, locked).del;
    RollbackCounts(w, locked);
    assert Count(d4.st.counts, n) == Total(d4, w.holds, n);
    assert Count(d1.st.counts, n) == Total(d1, w.holds, n);
    assert Count(d2.st.counts, n) == Total(d2, w.holds, n);
  }

  /** What a rollback may touch. */
  function RolledBack(w: World, locked: set<Name>): set<Name> {
    var d2 := Checkpoint(w.del.(st := Undone(w, locked)), Body(w.last), {}, locked);
    PendingBody(w) + (Union(w.del.lastFiles) + (Uncounted(d2.st, None) + Union(d2.lastFiles)))
  }

  lemma RollbackKeeps(w: World, locked: set<Name>)
    requires CountInv(w) && w.open
    ensures var w' := Rollback(w, locked); var gone := w.del.st.deletable - locked;
      && Keeps(w.del.st, w'.del.st, RolledBack(w, locked), (PendingName(w) - locked) + gone)
         && Drained(w.del.st, w'.del.st)
      && (forall n :: n in gone ==> n !in w'.del.st.dir.files) && w'.del.commits == w.del.commits
         && w'.del.lastFiles == []
  {
    var w', gone := Rollback(w, locked), w.del.st.deletable - locked;
    var d1 := w.del.(st := Undone(w, locked));
    var d2 := Checkpoint(d1, Body(w.last), {}, locked);
    var d3 := d2.(st := Refresh(d2.st, None, locked));
    UndoneKeeps(w, locked);
    CheckpointKeeps(d1, Body(w.last), {}, locked);
    RefreshKeeps(d2.st, None, locked);
    CloseKeeps(d3, locked);
    forall n | Count(w'.del.st.counts, n) > 0
      ensures Count(d1.st.counts, n) > 0 && Count(d2.st.counts, n) > 0
    {
      RollbackHeld(w, locked, n);
    }
    hide Undone, Checkpoint, Refresh, Close, Count, CountInv, Union, Uncounted;
    assert d1.st.deletable - locked == gone;
    assert d2.st.deletable - locked <= gone && d3.st.deletable - locked <= gone;
    Wider(d3.st, w'.del.st, Union(d2.lastFiles), d3.st.deletable - locked, gone);
    ComposeKeeps(d2.st, d3.st, w'.del.st, Uncounted(d2.st, None), Union(d2.lastFiles), {}, gone);
    ComposeKeeps(d1.st, d2.st, w'.del.st, Union(w.del.lastFiles), Uncounted(d2.st, None) + Union(d2.lastFiles), gone,
        {} + gone);
    ComposeKeeps(w.del.st, d1.st, w'.del.st, PendingBody(w),
        Union(w.del.lastFiles) + (Uncounted(d2.st, None) + Union(d2.lastFiles)),
                 PendingName(w) - locked, gone + ({} + gone));
    assert gone + ({} + gone) == gone;
  }

  lemma Wider(st: Store, st': Store, touched: set<Name>, gone: set<Name>, more: set<Name>)
    requires Keeps(st, st', touched, gone) && gone <= more
    ensures Keeps(st, st', touched, more)
  {
  }

  lemma RollbackReferenced(w: World, locked: set<Name>)
    requires CountInv(w) && w.open
    ensures forall n :: Count(Rollback(w, locked).del.st.counts, n) > 0 <==> n in Referenced(w, ERollback(locked))
  {
    hide Rollback, Checkpoint, Counted, Keeps, Drained, RolledBack;
    RollbackKeeps(w, locked);
    RollbackCounts(w, locked);
    forall n ensures Count(Rollback(w, locked).del.st.counts, n) > 0 <==> n in Referenced(w, ERollback(locked)) {
      CountedIsReferenced(Rollback(w, locked).del, w.holds, n);
    }
  }

  lemma NonePending(w: World, locked: set<Name>)
    ensures var w' := Rollback(w, locked); w'.pending.None? && PendingName(w') == {}
  {
    hide Undone, Checkpoint, Close, Refresh, Body;
  }

  lemma RollbackSpares(w: World, locked: set<Name>)
    requires CountInv(w) && w.open
    ensures Spared(w, Rollback(w, locked)) <==> Spares(w, ERollback(locked))
  {
    var e, w' := ERollback(locked), Rollback(w, locked);
    NonePending(w, locked);
    hide Rollback, Referenced, CountInv, RolledBack, Keeps, Drained, Count, Swept, Stays;
    RollbackKeeps(w, locked);
    RollbackReferenced(w, locked);
    SweptExactly(w, w', RolledBack(w, locked), (PendingName(w) - locked) + (w.del.st.deletable - locked),
        Referenced(w, e), locked);
  }

  lemma CloseReferenced(w: World, locked: set<Name>)
    requires CountInv(w) && w.open && w.pending.None?
    ensures forall n :: Count(Close(w.del, locked).st.counts, n) > 0 <==> n in Referenced(w, EClose(locked))
  {
    CloseKeeps(w.del, locked);
    CloseCounted(w.del, Extra(w), locked);
    assert Extra(w) == w.holds;
    forall n ensures Count(Close(w.del, locked).st.counts, n) > 0 <==> n in Referenced(w, EClose(locked)) {
      CountedIsReferenced(Close(w.del, locked), w.holds, n);
    }
  }

  lemma CloseSpares(w: World, locked: set<Name>)
    requires CountInv(w) && w.open && w.pending.None?
    ensures Spared(w, w.(del := Close(w.del, locked), open := false)) <==> Spares(w, EClose(locked))
  {
    var e, w' := EClose(locked), w.(del := Close(w.del, locked), open := false);
    CloseKeeps(w.del, locked);
    CloseReferenced(w, locked);
    hide Close, Referenced, CountInv, Keeps, Drained, Count, Swept, Stays;
    SweptExactly(w, w', Union(w.del.lastFiles), w.del.st.deletable - locked, Referenced(w, e), locked);
  }

  lemma RefreshSpares(w: World, segment: Option<nat>, locked: set<Name>)
    requires CountInv(w) && Enabled(w, ERefresh(segment, locked))
    ensures var e := ERefresh(segment, locked); Spared(w, Do(w, e)) <==> Spares(w, e)
  {
    RefreshKeeps(w.del.st, segment, locked);
  }

  lemma PrepareSpares(w: World, i: nat, written: bool, locked: set<Name>)
    requires CountInv(w) && w.pending.None? && i < |w.holds|
    ensures Spared(w, Prepare(w, i, written, locked)) <==> Spares(w, EPrepare(i, written, locked))
  {
    var gen, ns := w.generation + 1, w.holds[i];
    assert DataOnly(ns);
    if !written {
      FailedPrepareSpares(w, i, locked);
    } else {
      assert forall n :: n != Listing(gen) ==> Stays(w.del.st.dir, Prepare(w, i, true, locked).del.st.dir, n);
    }
  }

  lemma FailedPrepareSpares(w: World, i: nat, locked: set<Name>)
    requires w.pending.None? && i < |w.holds| && DataOnly(w.holds[i])
    ensures Spared(w, Prepare(w, i, false, locked)) <==> Spares(w, EPrepare(i, false, locked))
  {
    hide DecRef, Put, Remove, Count, DataOnly;
    var n := Listing(w.generation + 1);
    FailedPut(w.del.st, n, w.holds[i], locked);
    OneName(w, Prepare(w, i, false, locked), n);
  }

  /** A segments_N that could not be written: what it replaced is gone too, unless it is held open. */
  lemma FailedPut(st: Store, n: Name, ns: set<Name>, locked: set<Name>)
    requires n.Listing? && DataOnly(ns)
    ensures var put := Put(st, n, File(ns, false));
      var st' := DecRef(put.(dir := Remove(put.dir, {n} - locked)), ns, locked);
      && Count(st'.counts, n) == Count(st.counts, n) && (n in st'.dir.files <==> n in locked)
      && (n in locked ==> st'.dir.files[n] == File(ns, false))
      && forall x :: x != n && x in st.dir.files && Count(st'.counts, x) > 0 ==>
           x in st'.dir.files && st'.dir.files[x] == st.dir.files[x]
  {
    var put := Put(st, n, File(ns, false));
    var mid := put.(dir := Remove(put.dir, {n} - locked));
    DecRefKeeps(mid, ns, locked);
    assert forall x :: x in mid.dir.files <==> (x != n && x in st.dir.files) || (x == n && n in locked);
    hide DecRef;
    assert forall x :: x != n && x in mid.dir.files ==> mid.dir.files[x] == st.dir.files[x];
  }

  /** All but one name stay. */
  lemma OneName(w: World, w': World, n: Name)
    requires w.pending.None? && w'.pending.None?
    requires forall x :: x != n && x in w.del.st.dir.files && Count(w'.del.st.counts, x) > 0 ==>
               Stays(w.del.st.dir, w'.del.st.dir, x)
    ensures Spared(w, w') <==> (Count(w'.del.st.counts, n) > 0 ==> Stays(w.del.st.dir, w'.del.st.dir, n))
  {
  }

  lemma ReleaseSpares(w: World, i: nat, locked: set<Name>)
    requires CountInv(w) && Enabled(w, ERelease(i, locked))
    ensures Spared(w, Do(w, ERelease(i, locked)))
  {
    assert DataOnly(w.holds[i]);
    DecRefKeeps(w.del.st, w.holds[i], locked);
  }

  /** For every event an open writer can go through, in whatever state a run led to: every file that is referenced
      afterwards stays, and stays whole, if and only if the guard holds. */
  lemma StaysIffSpared(es: seq<Event>, e: Event)
    requires Run(es).open && Enabled(Run(es), e) && !e.ECrash?
    ensures Spared(Run(es), Do(Run(es), e)) <==> Spares(Run(es), e)
  {
    CountsAreExact(es);
    PlainRuns(es);
    var w := Run(es);
    hide Run, CountInv;
    match e
    case ECheckpoint(infos, docs, locked) => CheckpointSpares(w, infos, docs, locked);
    case ERefresh(segment, locked) => RefreshSpares(w, segment, locked);
    case EPrepare(i, written, locked) => PrepareSpares(w, i, written, locked);
    case EFinish(synced, genFile, gens, locked) => FinishSpares(w, synced, genFile, gens, locked);
    case ERollback(locked) => RollbackSpares(w, locked);
    case EClose(locked) => CloseSpares(w, locked);
    case ERelease(i, locked) => ReleaseSpares(w, i, locked);
    case EPublish(_, locked) => UndoneKeeps(w, locked);
    case _ =>
  }

  /** A checkpoint, when nothing that is in use is queued: every file that is referenced afterwards stays if and only
      if whatever of the new files is queued is held open. */
  lemma CheckpointStaysIff(es: seq<Event>, infos: set<Name>, docs: set<Name>, locked: set<Name>)
    requires Run(es).open && Enabled(Run(es), ECheckpoint(infos, docs, locked))
    requires var w := Run(es); w.del.st.deletable !! Union(FilesOf(w.del.commits)) + Union(Extra(w)) + PendingName(w)
    ensures Spared(Run(es), Do(Run(es), ECheckpoint(infos, docs, locked))) <==>
            (infos + docs) * Run(es).del.st.deletable <= locked
  {
    var w, e := Run(es), ECheckpoint(infos, docs, locked);
    StaysIffSpared(es, e);
    hide CommitFiles.Run, Spared, Do;
    forall n ensures n in Swept(w, locked) * (Referenced(w, e) + PendingName(w)) <==>
        n in (infos + docs) * w.del.st.deletable - locked {
      assert n in infos + docs ==> n in w.del.st.dir.files;
    }
  }
}
