/**
 The index and its commits put together: what documents the commit holds that a reader finds, and with what a new writer
 goes on, after a crash too, whatever happens between the flush of a commit and the moment its segments are cloned.
 */
module CommitContents {
  import opened OperationLog
  import opened IndexState
  import opened IndexRuns
  import opened IndexTheorems
  import opened SegmentFiles
  import C = CommitFiles
  import CommitRuns
  import CommitKeeping
  import CommitSafety
  import CommitReaders

  /** What startCommit syncs: the entries of the segments it keeps, `kept` of those of the index as it stood. */
  datatype Clone = Clone(infos: seq<Info>, index: State, kept: nat)

  /** The writer's index with the segments that share the open doc store, if one is open, and the generation of each
      segment's deletions; the contents of the files; the directory with the writer's commits; the clones being synced,
      beside what else holds files; and, to speak of it and of logs only, the clone that each segments_N was written
      for. */
  datatype Whole = Whole(index: State, store: Option<set<nat>>, delGens: map<nat, nat>, contents: Contents,
                         world: C.World, held: seq<Option<Clone>>, clones: map<nat, Clone>)

  /** `Closing` is a flush that closes the doc store too; other flushes leave it open. */
  datatype Move = Indexing(event: Event) | Closing | Committing(commit: C.Event)

  // ---------- the doc store ----------

  function Shared(store: Option<set<nat>>): set<nat> { if store.Some? then store.value else {} }

  /** The first document opens a doc store; a segment flushed while it stays open shares it, and so does a segment that
      is merged from such segments alone. */
  function StoreAfter(x: Whole, e: Event): Option<set<nat>> {
    match e
    case EWrite(_, _) => Some(Shared(x.store))
    case EFlush =>
      if x.index.inFlight == {} && x.index.ram != [] then Some(Shared(x.store) + {x.index.nextName}) else x.store
    case ECommit(m, f) =>
      if Ready(x.index, m, f) && x.store.Some? && (forall name :: name in x.index.merges[m].names ==>
          name in x.store.value)
      then Some(x.store.value + {x.index.nextName})
      else x.store
    case _ => x.store
  }

  // ---------- startCommit ----------

  function InfosOf(segs: seq<Segment>, delGens: map<nat, nat>): seq<Info> {
    seq(|segs|, i requires 0 <= i < |segs| =>
      Info(segs[i].name, if segs[i].name in delGens then delGens[segs[i].name] else 0))
  }

  /** The loop that drops the last segments expects one that stays, if a doc store is open. */
  predicate LoopEnds(x: Whole) { x.store.Some? ==> KeptCount(x.index.segments, x.store.value) > 0 }

  /** startCommit's clone of the segments as they stand, once their deletions are written. */
  function StartCommit(x: Whole): Option<Clone> {
    var n := KeptCount(x.index.segments, Shared(x.store));
    var infos := InfosOf(x.index.segments[..n], x.delGens);
    if LoopEnds(x) && ReadSegments(x.contents, infos) == Some(x.index.segments[..n]) then Some(Clone(infos, x.index, n))
    else None
  }

  /** Files are held for a commit if they are those of its clone; otherwise something else holds them. */
  function HeldFor(x: Whole, ns: set<C.Name>): Option<Clone> {
    var c := StartCommit(x);
    if c.Some? && ns == FilesOf(c.value.infos) then c else None
  }

  // ---------- a new writer ----------

  function CellOf(cells: seq<Cell>, id: nat): Option<Cell> {
    if cells == [] then None else if cells[0].id == id then Some(cells[0]) else CellOf(cells[1..], id)
  }

  /** The log of a writer that finds these documents: a write for each, which succeeded if it is live. */
  function Baseline(cells: seq<Cell>, n: nat): seq<Op> {
    seq(n, k requires 0 <= k < n =>
      match CellOf(cells, k)
      case Some(c) => Write(None, c.doc, !c.dead)
      case None => Write(None, Doc({}, {}), false))
  }

  function Loaded(segs: seq<Segment>, counter: nat, n: nat): State {
    State(Baseline(Flatten(segs), n), segs, [], {}, NO_DELETES, NO_DELETES, |Flatten(segs)|, map[], counter)
  }

  function DelGensOf(infos: seq<Info>): map<nat, nat> {
    if infos == [] then map[] else DelGensOf(infos[1..])[infos[0].name := infos[0].delGen]
  }

  /** The new writer reads the segments that the segments_N it opened lists. */
  function NewWriter(x: Whole): Whole {
    var gen := x.world.last.gen;
    if C.Listing(gen) in x.contents && x.contents[C.Listing(gen)].Infos? && gen in x.clones
       && ReadSegments(x.contents, x.contents[C.Listing(gen)].infos).Some?
    then
      var c := x.contents[C.Listing(gen)];
      x.(index := Loaded(ReadSegments(x.contents, c.infos).value, c.counter, |x.clones[gen].index.log|), store := None,
         delGens := DelGensOf(c.infos), held := [])
    else x
  }

  // ---------- moves ----------

  function WithoutAt<T>(s: seq<T>, i: nat): seq<T> { if i < |s| then s[..i] + s[i + 1..] else s }

  /** Only what startCommit cloned is prepared. */
  predicate Allowed(x: Whole, e: C.Event) {
    C.Enabled(x.world, e) && (e.EPrepare? ==> e.i < |x.held| && x.held[e.i].Some?)
  }

  function Committed(x: Whole, e: C.Event): Whole {
    if !Allowed(x, e) then x
    else
      var y := x.(world := C.Do(x.world, e));
      match e
      case ENewFile(n) =>
        y.(contents := Written(x.contents, x.index.segments, n),
           delGens := if n.Data? && n.id > 0 then x.delGens[n.segment := n.id] else x.delGens)
      case EHold(ns) => y.(held := x.held + [HeldFor(x, ns)])
      case ERelease(i, _) => y.(held := WithoutAt(x.held, i))
      case EPrepare(i, written, _) =>
        var c, gen := x.held[i].value, x.world.generation + 1;
        y.(held := WithoutAt(x.held, i), contents := x.contents[C.Listing(gen) := Infos(c.infos, c.index.nextName)],
           clones := if written then x.clones[gen := c] else x.clones)
      case ECrash(_, _, _) => y.(held := [])
      case EReopen(_, _) => if y.world.open then NewWriter(y) else y
      case _ => y
  }

  function Moved(x: Whole, m: Move): Whole {
    match m
    case Indexing(e) => if x.world.open then x.(index := Do(x.index, e), store := StoreAfter(x, e)) else x
    case Closing =>
      if x.world.open && x.index.inFlight == {} then x.(index := Flush(x.index), store := None) else x
    case Committing(e) => Committed(x, e)
  }

  /** An empty index was committed. */
  const EMPTY := Clone([], FRESH, 0)
  const BEGINNING :=
    Whole(FRESH, None, map[], map[C.Listing(1) := Infos([], 0)], C.START, [], map[1 := EMPTY])

  function RunMoves(ms: seq<Move>): Whole {
    if ms == [] then BEGINNING else Moved(RunMoves(ms[..|ms| - 1]), ms[|ms| - 1])
  }

  /** The events of the directory and its commits. */
  function Commits(ms: seq<Move>): seq<C.Event> {
    if ms == [] then []
    else
      var before, m := ms[..|ms| - 1], ms[|ms| - 1];
      if m.Committing? && Allowed(RunMoves(before), m.commit) then Commits(before) + [m.commit] else Commits(before)
  }

  lemma MoveOn(ms: seq<Move>, m: Move)
    ensures RunMoves(ms + [m]) == Moved(RunMoves(ms), m)
    ensures Commits(ms + [m]) ==
            Commits(ms) + if m.Committing? && Allowed(RunMoves(ms), m.commit) then [m.commit] else []
  {
    assert (ms + [m])[..|ms|] == ms;
  }

  lemma {:induction false} WorldIsRun(ms: seq<Move>)
    ensures RunMoves(ms).world == C.Run(Commits(ms))
  {
    if ms != [] {
      var before, m := ms[..|ms| - 1], ms[|ms| - 1];
      WorldIsRun(before);
      if m.Committing? {
        assert (Commits(before) + [m.commit])[..|Commits(before)|] == Commits(before);
        CommittedWorld(RunMoves(before), m.commit);
      }
    }
  }

  lemma CommittedWorld(x: Whole, e: C.Event)
    ensures Committed(x, e).world == if Allowed(x, e) then C.Do(x.world, e) else x.world
  {
  }

  // ---------- what files in use hold ----------

  ghost predicate CloneOk(cs: Contents, c: Clone) {
    && Inv(c.index) && c.kept <= |c.index.segments|
    && ReadSegments(cs, c.infos) == Some(c.index.segments[..c.kept])
  }

  /** The segments_N of a commit lists the segments of its clone, and their files hold them. */
  ghost predicate Saved(x: Whole, c: C.Commit) {
    && c.gen in x.clones && CloneOk(x.contents, x.clones[c.gen]) && C.Body(c) == FilesOf(x.clones[c.gen].infos)
    && C.Listing(c.gen) in x.contents
    && x.contents[C.Listing(c.gen)] == Infos(x.clones[c.gen].infos, x.clones[c.gen].index.nextName)
  }

  ghost predicate HeldOk(x: Whole) {
    && |x.held| == |x.world.holds|
    && forall i :: 0 <= i < |x.held| && x.held[i].Some? ==>
         CloneOk(x.contents, x.held[i].value) && x.world.holds[i] == FilesOf(x.held[i].value.infos)
  }

  ghost predicate Good(x: Whole) {
    && (x.world.open ==> Inv(x.index) && HeldOk(x))
    && Saved(x, x.world.last) && (x.world.pending.Some? ==> Saved(x, x.world.pending.value.commit))
  }

  lemma CloneCarried(cs: Contents, cs': Contents, c: Clone)
    requires CloneOk(cs, c) && forall n :: n in FilesOf(c.infos) ==> Agree(cs, cs', n)
    ensures CloneOk(cs', c)
  {
    SameFilesRead(cs, cs', c.infos);
  }

  lemma SavedCarried(x: Whole, x': Whole, c: C.Commit)
    requires Saved(x, c) && forall n :: n in C.Body(c) + {C.Listing(c.gen)} ==> Agree(x.contents, x'.contents, n)
    requires c.gen in x'.clones && x'.clones[c.gen] == x.clones[c.gen]
    ensures Saved(x', c)
  {
    CloneCarried(x.contents, x'.contents, x.clones[c.gen]);
    assert Agree(x.contents, x'.contents, C.Listing(c.gen));
  }

  // ---------- the state of a new writer ----------

  lemma {:induction false} CellOfSorted(cells: seq<Cell>, g: nat)
    requires Sorted(cells) && g < |cells|
    ensures CellOf(cells, cells[g].id) == Some(cells[g])
  {
    if g > 0 { CellOfSorted(cells[1..], g - 1); }
  }

  lemma {:induction false} CellOfHolds(cells: seq<Cell>, id: nat)
    ensures match CellOf(cells, id) case Some(c) => c in cells && c.id == id case None => true
  {
    if cells != [] { CellOfHolds(cells[1..], id); }
  }

  lemma BaselineSurvives(cells: seq<Cell>, n: nat, k: nat)
    ensures Survives(Baseline(cells, n), k) <==> k < n && CellOf(cells, k).Some? && !CellOf(cells, k).value.dead
  {
    var log := Baseline(cells, n);
    assert forall j :: 0 <= j < n ==> log[j].Write? && log[j].del.None?;
  }

  lemma LoadedInv(segs: seq<Segment>, counter: nat, n: nat)
    requires Sorted(Flatten(segs)) && (forall g :: 0 <= g < |Flatten(segs)| ==> Flatten(segs)[g].id < n)
    requires forall i :: 0 <= i < |segs| ==> segs[i].name < counter
    requires forall i, j :: 0 <= i < j < |segs| ==> segs[i].name != segs[j].name
    ensures Inv(Loaded(segs, counter, n)) && LiveCells(Flatten(segs)) == View(Loaded(segs, counter, n))
  {
    var s, cells := Loaded(segs, counter, n), Flatten(segs);
    assert All(s) == cells;
    forall g | 0 <= g < |cells|
      ensures s.log[cells[g].id].Write? && s.log[cells[g].id].doc == cells[g].doc
      ensures Gone(s, g) <==> !Survives(s.log, cells[g].id)
    {
      CellOfSorted(cells, g);
      BaselineSurvives(cells, n, cells[g].id);
      NothingHit(cells[g].doc, g);
    }
    forall k: nat | Survives(s.log, k) ensures Holds(cells, k) {
      BaselineSurvives(cells, n, k);
      CellOfHolds(cells, k);
    }
    assert cells[..|cells|] == cells;
    VisibleIsLive(s, |cells|);
  }

  /** The segments of a clone make a state that a writer may go on from. */
  lemma ClonedInv(s: State, n: nat)
    requires Inv(s) && n <= |s.segments|
    ensures var l := Loaded(s.segments[..n], s.nextName, |s.log|);
      Inv(l) && View(l) == LiveCells(Flatten(s.segments[..n]))
  {
    PrefixSlots(s, n);
    var cells := Flatten(s.segments[..n]);
    assert forall g :: 0 <= g < |cells| ==> cells[g] == All(s)[g];
    LoadedInv(s.segments[..n], s.nextName, |s.log|);
  }

  // ---------- every move ----------

  /** A file that is not referenced is none of a commit that counts, nor one held for a commit being synced. */
  lemma NotInUse(w: C.World, n: C.Name)
    requires CommitSafety.Inv(w) && w.open && n.Data? && C.Count(w.del.st.counts, n) == 0
    ensures n !in C.Body(w.last) && (w.pending.Some? ==> n !in C.Body(w.pending.value.commit))
    ensures forall i :: 0 <= i < |w.holds| ==> n !in w.holds[i]
  {
    if n in C.Body(w.last) { CommitKeeping.ListedIsCounted(w, w.last, n); }
    if w.pending.Some? && n in C.Body(w.pending.value.commit) { CommitSafety.HeldReferenced(w, n); }
    if i :| 0 <= i < |w.holds| && n in w.holds[i] { CommitSafety.HeldReferenced(w, n); }
  }

  /** The commits that count are the last finished one and the pending one; each is one of those before. */
  lemma Followed(w: C.World, e: C.Event)
    requires CommitSafety.Inv(w) && C.Enabled(w, e)
    ensures var w' := C.Do(w, e);
      && (w'.last == w.last || (w.pending.Some? && w'.last == w.pending.value.commit))
      && (w'.pending.Some? ==>
            || (w.pending.Some? && w'.pending.value.commit == w.pending.value.commit)
            || (e.EPrepare? && e.written && e.i < |w.holds|
                && w'.pending.value.commit == C.Commit(w.generation + 1, w.holds[e.i] + {C.Listing(w.generation + 1)})))
      && (w'.open ==> w.open || e.EReopen?) && (e.EReopen? ==> !w.open && w.pending.None? && w'.last == w.last)
  {
    hide C.DecRef, C.DecRefs, C.DeletePending, C.IncRef, C.Count, C.Refresh, C.CommitCheckpoint, C.NewDeleter, C.Open,
         C.Top;
    if e.EReopen? { CommitSafety.ClosedOpens(w); }
  }

  /** What becomes of the sets of files that are held. */
  lemma HoldsFollowed(w: C.World, e: C.Event)
    requires C.Enabled(w, e) && C.Do(w, e).open && !e.EReopen?
    ensures C.Do(w, e).holds == match e
      case EHold(ns) => w.holds + [ns]
      case ERelease(i, _) => WithoutAt(w.holds, i)
      case EPrepare(i, _, _) => WithoutAt(w.holds, i)
      case _ => w.holds
  {
    hide C.DecRef, C.DecRefs, C.DeletePending, C.IncRef, C.Count, C.Refresh, C.CommitCheckpoint, C.NewDeleter, C.Open,
         C.Top;
  }

  /** An event that leaves the files and the clones alone. */
  lemma SameFilesKeep(x: Whole, x': Whole)
    requires Good(x) && x'.contents == x.contents && x'.clones == x.clones
    requires x'.world.last == x.world.last || (x.world.pending.Some? && x'.world.last == x.world.pending.value.commit)
    requires x'.world.pending.Some? ==>
               x.world.pending.Some? && x'.world.pending.value.commit == x.world.pending.value.commit
    requires x'.world.open ==> Inv(x'.index) && HeldOk(x')
    ensures Good(x')
  {
  }

  lemma IndexingKeeps(x: Whole, m: Move)
    requires Good(x) && (m.Indexing? || m.Closing?)
    ensures Good(Moved(x, m))
  {
    hide Inv, Do, Flush, StoreAfter, CloneOk;
    if x.world.open {
      if m.Indexing? { StepKeeps(x.index, m.event); } else { FlushKeeps(x.index); }
    }
    SameFilesKeep(x, Moved(x, m));
  }

  lemma NewFileOpen(w: C.World, n: C.Name)
    requires C.Enabled(w, C.ENewFile(n))
    ensures w.open && n.Data? && C.Count(w.del.st.counts, n) == 0
    ensures var w' := C.Do(w, C.ENewFile(n));
      w'.last == w.last && w'.pending == w.pending && w'.holds == w.holds && w'.open
  {
    hide C.Count;
  }

  lemma NewFileHeld(x: Whole, x': Whole, n: C.Name)
    requires HeldOk(x) && x'.held == x.held && x'.world.holds == x.world.holds
    requires forall f :: f != n ==> Agree(x.contents, x'.contents, f)
    requires forall i :: 0 <= i < |x.world.holds| ==> n !in x.world.holds[i]
    ensures HeldOk(x')
  {
    hide CloneOk, FilesOf;
    forall i | 0 <= i < |x.held| && x.held[i].Some? ensures CloneOk(x'.contents, x'.held[i].value) {
      CloneCarried(x.contents, x'.contents, x.held[i].value);
    }
  }

  lemma NewFileKeeps(x: Whole, n: C.Name)
    requires Good(x) && CommitSafety.Inv(x.world) && C.Enabled(x.world, C.ENewFile(n))
    ensures Good(Committed(x, C.ENewFile(n)))
  {
    hide CloneOk, Inv, HeldOk, CommitSafety.Inv, C.Enabled, C.Do, FilesOf;
    var x' := Committed(x, C.ENewFile(n));
    NewFileOpen(x.world, n);
    NotInUse(x.world, n);
    assert forall f :: f != n ==> Agree(x.contents, x'.contents, f);
    hide Written;
    NewFileHeld(x, x', n);
    assert Saved(x', x.world.last) by { SavedCarried(x, x', x.world.last); }
    assert x.world.pending.Some? ==> Saved(x', x.world.pending.value.commit) by {
      if x.world.pending.Some? { SavedCarried(x, x', x.world.pending.value.commit); }
    }
    hide Saved;
  }

  lemma StartCommitOk(x: Whole)
    requires Inv(x.index) && StartCommit(x).Some?
    ensures CloneOk(x.contents, StartCommit(x).value)
  {
  }

  lemma HoldOpen(w: C.World, ns: set<C.Name>)
    requires C.Enabled(w, C.EHold(ns))
    ensures w.open && C.Do(w, C.EHold(ns)).last == w.last && C.Do(w, C.EHold(ns)).pending == w.pending
  {
  }

  lemma HoldKeeps(x: Whole, ns: set<C.Name>)
    requires Good(x) && CommitSafety.Inv(x.world) && C.Enabled(x.world, C.EHold(ns))
    ensures Good(Committed(x, C.EHold(ns)))
  {
    hide CloneOk, Inv, CommitSafety.Inv, StartCommit, C.Do, C.Enabled, FilesOf;
    var x' := Committed(x, C.EHold(ns));
    HoldOpen(x.world, ns);
    Followed(x.world, C.EHold(ns));
    if x'.world.open { HoldsFollowed(x.world, C.EHold(ns)); }
    if StartCommit(x).Some? { StartCommitOk(x); }
  }

  lemma WithoutOk(x: Whole, cs: Contents, i: nat, holds: seq<set<C.Name>>)
    requires HeldOk(x) && i < |x.held| && holds == WithoutAt(x.world.holds, i)
    requires forall j :: 0 <= j < |x.held| && x.held[j].Some? ==> CloneOk(cs, x.held[j].value)
    ensures var held := WithoutAt(x.held, i);
      |held| == |holds| && forall j :: 0 <= j < |held| && held[j].Some? ==>
        CloneOk(cs, held[j].value) && holds[j] == FilesOf(held[j].value.infos)
  {
    hide CloneOk;
    var held := WithoutAt(x.held, i);
    forall j | 0 <= j < |held| && held[j].Some?
      ensures CloneOk(cs, held[j].value) && holds[j] == FilesOf(held[j].value.infos) {
      var k := if j < i then j else j + 1;
      assert held[j] == x.held[k] && holds[j] == x.world.holds[k];
    }
  }

  lemma ReleaseKeeps(x: Whole, i: nat, locked: set<C.Name>)
    requires Good(x) && CommitSafety.Inv(x.world) && C.Enabled(x.world, C.ERelease(i, locked))
    ensures Good(Committed(x, C.ERelease(i, locked)))
  {
    var e := C.ERelease(i, locked);
    var x' := Committed(x, e);
    Followed(x.world, e);
    if x'.world.open {
      HoldsFollowed(x.world, e);
      WithoutOk(x, x.contents, i, x'.world.holds);
    }
    hide CloneOk, Inv, CommitSafety.Inv, C.Do, WithoutAt;
    SameFilesKeep(x, x');
  }

  lemma PreparedIs(x: Whole, e: C.Event)
    requires e.EPrepare? && Allowed(x, e)
    ensures var x', gen, c := Committed(x, e), x.world.generation + 1, x.held[e.i].value;
      && x'.world == C.Do(x.world, e) && x'.index == x.index && x'.held == WithoutAt(x.held, e.i)
      && x'.contents == x.contents[C.Listing(gen) := Infos(c.infos, c.index.nextName)]
      && x'.clones == if e.written then x.clones[gen := c] else x.clones
  {
    hide C.Do, C.Enabled, Written, HeldFor, NewWriter, WithoutAt;
  }

  lemma PreparedHeld(x: Whole, e: C.Event, cs: Contents)
    requires HeldOk(x) && e.EPrepare? && C.Enabled(x.world, e) && C.Do(x.world, e).open
    requires forall i :: 0 <= i < |x.world.holds| ==> CommitRuns.DataOnly(x.world.holds[i])
    requires forall n: C.Name :: n.Data? ==> Agree(x.contents, cs, n)
    ensures |WithoutAt(x.held, e.i)| == |C.Do(x.world, e).holds|
    ensures forall j :: 0 <= j < |WithoutAt(x.held, e.i)| && WithoutAt(x.held, e.i)[j].Some? ==>
              && CloneOk(cs, WithoutAt(x.held, e.i)[j].value)
              && C.Do(x.world, e).holds[j] == FilesOf(WithoutAt(x.held, e.i)[j].value.infos)
  {
    HoldsFollowed(x.world, e);
    EnabledPrepare(x.world, e);
    hide CloneOk, C.Do, C.Enabled, FilesOf, WithoutAt;
    forall j | 0 <= j < |x.held| && x.held[j].Some? ensures CloneOk(cs, x.held[j].value) {
      assert CommitRuns.DataOnly(x.world.holds[j]);
      CloneCarried(x.contents, cs, x.held[j].value);
    }
    WithoutOk(x, cs, e.i, C.Do(x.world, e).holds);
  }

  lemma EnabledPrepare(w: C.World, e: C.Event)
    requires e.EPrepare? && C.Enabled(w, e)
    ensures w.open && w.pending.None? && e.i < |w.holds|
  {
  }

  /** The segments_N that is written lists what its clone holds. */
  lemma PreparedSaved(x: Whole, i: nat, gen: nat, x': Whole)
    requires HeldOk(x) && i < |x.held| && x.held[i].Some? && CommitRuns.DataOnly(x.world.holds[i])
    requires x'.contents == x.contents[C.Listing(gen) := Infos(x.held[i].value.infos, x.held[i].value.index.nextName)]
    requires gen in x'.clones && x'.clones[gen] == x.held[i].value
    ensures Saved(x', C.Commit(gen, x.world.holds[i] + {C.Listing(gen)}))
  {
    hide CloneOk, FilesOf;
    CloneCarried(x.contents, x'.contents, x.held[i].value);
    assert C.Body(C.Commit(gen, x.world.holds[i] + {C.Listing(gen)})) == x.world.holds[i];
  }

  lemma PrepareKeeps(x: Whole, e: C.Event)
    requires Good(x) && CommitSafety.Inv(x.world) && e.EPrepare? && Allowed(x, e)
    ensures Good(Committed(x, e))
  {
    hide CloneOk, Inv, CommitSafety.Inv, C.Do, C.Enabled, Committed, FilesOf, WithoutAt;
    var x', gen := Committed(x, e), x.world.generation + 1;
    PreparedIs(x, e);
    PrepareNames(x.world, e);
    Followed(x.world, e);
    if x'.world.open { PreparedHeld(x, e, x'.contents); }
    assert e.written ==> Saved(x', C.Commit(gen, x.world.holds[e.i] + {C.Listing(gen)})) by {
      if e.written { PreparedSaved(x, e.i, gen, x'); }
    }
    assert Saved(x', x.world.last) by { SavedCarried(x, x', x.world.last); }
    hide Saved;
  }

  lemma PrepareNames(w: C.World, e: C.Event)
    requires CommitSafety.Inv(w) && e.EPrepare? && C.Enabled(w, e)
    ensures w.open && w.pending.None? && w.last.gen <= w.generation && e.i < |w.holds|
    ensures C.Listing(w.generation + 1) !in C.Body(w.last)
    ensures forall i :: 0 <= i < |w.holds| ==> CommitRuns.DataOnly(w.holds[i])
  {
  }

  /** What the clone kept is what a new writer finds. */
  lemma ReopenKeeps(x: Whole, e: C.Event)
    requires Good(x) && CommitSafety.Inv(x.world) && e.EReopen? && C.Enabled(x.world, e)
    ensures Good(Committed(x, e))
    ensures var x', c := Committed(x, e), x.clones[x.world.last.gen];
      x'.world.last == x.world.last && (x'.world.open ==>
        x'.index == Loaded(c.index.segments[..c.kept], c.index.nextName, |c.index.log|))
  {
    hide Inv, CommitSafety.Inv, C.Do, C.Enabled, Loaded;
    var x', c := Committed(x, e), x.clones[x.world.last.gen];
    Followed(x.world, e);
    NoHolds(x.world, e);
    ClonedInv(c.index, c.kept);
    hide CloneOk;
    SameFilesKeep(x, x');
  }

  lemma NoHolds(w: C.World, e: C.Event)
    requires e.EReopen? && C.Enabled(w, e)
    ensures C.Do(w, e).open ==> C.Do(w, e).holds == [] && C.Do(w, e).pending.None?
  {
    hide C.NewDeleter, C.Open, C.Top;
  }

  /** Each move keeps what was committed, and what is held for commits being synced. */
  lemma MoveKeeps(x: Whole, m: Move)
    requires Good(x) && CommitSafety.Inv(x.world)
    ensures Good(Moved(x, m))
  {
    hide CommitSafety.Inv, Inv, CloneOk, C.Do, C.Enabled;
    match m
    case Indexing(_) => IndexingKeeps(x, m);
    case Closing => IndexingKeeps(x, m);
    case Committing(e) =>
      if Allowed(x, e) {
        match e
        case ENewFile(n) => NewFileKeeps(x, n);
        case EHold(ns) => HoldKeeps(x, ns);
        case ERelease(i, locked) => ReleaseKeeps(x, i, locked);
        case EPrepare(_, _, _) => PrepareKeeps(x, e);
        case EReopen(_, _) => ReopenKeeps(x, e);
        case _ => OtherKeeps(x, e);
      }
  }

  lemma OtherKeeps(x: Whole, e: C.Event)
    requires Good(x) && CommitSafety.Inv(x.world) && C.Enabled(x.world, e)
    requires !e.ENewFile? && !e.EHold? && !e.ERelease? && !e.EPrepare? && !e.EReopen?
    ensures Good(Committed(x, e))
  {
    hide CloneOk, Inv, CommitSafety.Inv, C.Do, C.Enabled;
    var x' := Committed(x, e);
    Followed(x.world, e);
    if x'.world.open { HoldsFollowed(x.world, e); }
    if e.ECrash? { CrashCloses(x.world, e); }
    SameFilesKeep(x, x');
  }

  lemma CrashCloses(w: C.World, e: C.Event)
    requires e.ECrash? && C.Enabled(w, e)
    ensures !C.Do(w, e).open
  {
  }

  lemma BeginningIsGood()
    ensures Good(BEGINNING)
  {
    IndexRuns.RunKeeps([]);
    assert FilesOf([]) == {} == C.Body(C.EMPTY_COMMIT);
    assert FRESH.segments[..0] == [];
  }

  lemma {:induction false} RunIsGood(ms: seq<Move>)
    requires CommitSafety.SoundRun(Commits(ms))
    ensures Good(RunMoves(ms)) && CommitSafety.Inv(RunMoves(ms).world)
  {
    WorldIsRun(ms);
    CommitSafety.RunKeeps(Commits(ms));
    if ms == [] {
      BeginningIsGood();
    } else {
      var before, m := ms[..|ms| - 1], ms[|ms| - 1];
      if Commits(ms) != Commits(before) { assert Commits(ms)[..|Commits(before)|] == Commits(before); }
      RunIsGood(before);
      MoveKeeps(RunMoves(before), m);
    }
  }

  // ---------- where a clone comes from ----------

  /** The clone was taken by a startCommit of the run. */
  ghost predicate Taken(ms: seq<Move>, c: Clone) {
    exists p :: 0 <= p < |ms| && TakenAt(ms, c, p)
  }

  ghost predicate TakenAt(ms: seq<Move>, c: Clone, p: nat)
    requires p < |ms|
  {
    ms[p] == Committing(C.EHold(FilesOf(c.infos))) && StartCommit(RunMoves(ms[..p])) == Some(c)
  }

  ghost predicate AllTaken(ms: seq<Move>, x: Whole) {
    && (forall i :: 0 <= i < |x.held| && x.held[i].Some? ==> Taken(ms, x.held[i].value))
    && (forall gen :: gen in x.clones ==> x.clones[gen] == EMPTY || Taken(ms, x.clones[gen]))
  }

  lemma TakenBefore(ms: seq<Move>, m: Move, c: Clone)
    requires Taken(ms, c)
    ensures Taken(ms + [m], c)
  {
    var p :| 0 <= p < |ms| && TakenAt(ms, c, p);
    assert (ms + [m])[..p] == ms[..p] && (ms + [m])[p] == ms[p];
    assert TakenAt(ms + [m], c, p);
  }

  /** What a move adds to the clones is what startCommit took. */
  lemma MoveAdds(x: Whole, m: Move)
    ensures forall i :: 0 <= i < |Moved(x, m).held| && Moved(x, m).held[i].Some? ==>
              Moved(x, m).held[i] in x.held || NewlyTaken(x, m, Moved(x, m).held[i].value)
    ensures forall gen :: gen in Moved(x, m).clones ==>
              || (gen in x.clones && Moved(x, m).clones[gen] == x.clones[gen])
              || Some(Moved(x, m).clones[gen]) in x.held
  {
    hide C.Do, C.Enabled, StartCommit, Do, NewWriter, Written, StoreAfter, FilesOf;
    if m.Committing? { NewWriterTakes(x.(world := C.Do(x.world, m.commit))); }
  }

  ghost predicate NewlyTaken(x: Whole, m: Move, c: Clone) {
    m == Committing(C.EHold(FilesOf(c.infos))) && StartCommit(x) == Some(c)
  }

  lemma MoveTakes(ms: seq<Move>, m: Move)
    requires AllTaken(ms, RunMoves(ms))
    ensures AllTaken(ms + [m], Moved(RunMoves(ms), m))
  {
    hide Moved, StartCommit, RunMoves, FilesOf;
    var x := RunMoves(ms);
    MoveAdds(x, m);
    forall c | Taken(ms, c) || NewlyTaken(x, m, c) ensures Taken(ms + [m], c) {
      if Taken(ms, c) {
        TakenBefore(ms, m, c);
      } else {
        assert (ms + [m])[..|ms|] == ms && TakenAt(ms + [m], c, |ms|);
      }
    }
    hide Taken, NewlyTaken;
    HeldTaken(ms, x);
  }

  lemma HeldTaken(ms: seq<Move>, x: Whole)
    requires AllTaken(ms, x)
    ensures forall h :: h in x.held && h.Some? ==> Taken(ms, h.value)
  {
  }

  lemma NewWriterTakes(x: Whole)
    ensures NewWriter(x).clones == x.clones && (NewWriter(x).held == [] || NewWriter(x).held == x.held)
  {
  }

  lemma {:induction false} ClonesAreTaken(ms: seq<Move>)
    ensures AllTaken(ms, RunMoves(ms))
  {
    hide Moved, Taken;
    if ms != [] {
      ClonesAreTaken(ms[..|ms| - 1]);
      MoveTakes(ms[..|ms| - 1], ms[|ms| - 1]);
      assert ms == ms[..|ms| - 1] + [ms[|ms| - 1]];
    }
  }

  // ---------- what a reader and a new writer find ----------

  /** The documents of a commit, read from its files, are those of the segments its clone kept; and they are those of
      the plain log, as it stood when the segments were cloned, exactly when the clone captures them. */
  ghost predicate ReadsAs(docs: Option<seq<Entry>>, c: Clone) {
    && c.kept <= |c.index.segments| && docs == Some(LiveCells(Flatten(c.index.segments[..c.kept])))
    && (docs == Some(Replay(c.index.log)) <==> Captured(c.index, c.kept))
  }

  lemma SavedReads(x: Whole, c: C.Commit)
    requires Saved(x, c)
    ensures ReadsAs(Documents(x.contents, c.gen), x.clones[c.gen])
  {
    hide Inv, Captured;
    CapturedIff(x.clones[c.gen].index, x.clones[c.gen].kept);
  }

  /** In every run of an index and its commits, crashes and new writers included, whatever comes between the flush of a
      commit and its startCommit: the commit that a reader finds reads as some startCommit of the run left the segments
      it kept, and as the plain log at that moment if and only if no buffered delete reached a live document of theirs
      and no document that survives stood in RAM or in a segment it dropped.  The writer's own index reads as its
      log. */
  lemma ReaderFindsDocuments(ms: seq<Move>)
    requires CommitSafety.SoundRun(Commits(ms))
    ensures var x := RunMoves(ms); var found := C.Open(x.world.del.st.dir);
      && (found.Some? ==>
            && found.value.gen in x.clones
            && (x.clones[found.value.gen] == EMPTY || Taken(ms, x.clones[found.value.gen]))
            && ReadsAs(Documents(x.contents, found.value.gen), x.clones[found.value.gen]))
      && (x.world.open ==> View(x.index) == Replay(x.index.log))
  {
    var x := RunMoves(ms);
    RunIsGood(ms);
    WorldIsRun(ms);
    ClonesAreTaken(ms);
    CommitReaders.ReaderFindsLastCommit(Commits(ms));
    hide Inv, CommitSafety.Inv, C.Open, C.Run, RunMoves, Taken, ReadsAs, CloneOk;
    SavedReads(x, CommitReaders.Visible(x.world));
    if x.world.open { ViewIsReplay(x.index); }
  }

  /** No move writes anew a file of the last finished commit, so it goes on reading as it did. */
  lemma CommittedStays(ms: seq<Move>, m: Move)
    requires CommitSafety.SoundRun(Commits(ms + [m]))
    ensures var x, x' := RunMoves(ms), RunMoves(ms + [m]);
      && (forall n :: n in x.world.last.files ==> Agree(x.contents, x'.contents, n))
      && Documents(x.contents, x.world.last.gen).Some?
      && Documents(x'.contents, x.world.last.gen) == Documents(x.contents, x.world.last.gen)
  {
    var x, x' := RunMoves(ms), RunMoves(ms + [m]);
    assert (ms + [m])[..|ms|] == ms;
    if Commits(ms + [m]) != Commits(ms) { assert Commits(ms + [m])[..|Commits(ms)|] == Commits(ms); }
    RunIsGood(ms);
    hide CommitSafety.SoundRun, RunMoves, Inv, CloneOk;
    LastUntouched(x, m);
    SavedReads(x, x.world.last);
    assert C.Listing(x.world.last.gen) in x.world.last.files by { LastListed(x.world); }
    SameFilesRead(x.contents, x'.contents, x.clones[x.world.last.gen].infos);
  }

  lemma LastListed(w: C.World)
    requires CommitSafety.Inv(w)
    ensures C.Listing(w.last.gen) in w.last.files
  {
  }

  lemma LastNames(w: C.World)
    requires CommitSafety.Inv(w)
    ensures forall n :: n in w.last.files ==> n in C.Body(w.last) || n == C.Listing(w.last.gen)
  {
  }

  lemma LastUntouched(x: Whole, m: Move)
    requires Good(x) && CommitSafety.Inv(x.world)
    ensures forall n :: n in x.world.last.files ==> Agree(x.contents, Moved(x, m).contents, n)
  {
    hide Inv, Good, CommitSafety.Inv, C.Do, C.Enabled, StartCommit, Do, StoreAfter, FilesOf, NewWriter;
    LastNames(x.world);
    if m.Committing? && Allowed(x, m.commit) {
      if m.commit.ENewFile? {
        NewFileOpen(x.world, m.commit.n);
        NotInUse(x.world, m.commit.n);
      } else if m.commit.EPrepare? {
        PrepareNames(x.world, m.commit);
      } else if m.commit.EReopen? {
        NewWriterReadsOnly(x.(world := C.Do(x.world, m.commit)));
      }
    }
  }

  lemma NewWriterReadsOnly(x: Whole)
    ensures NewWriter(x).contents == x.contents
  {
  }

  /** The writer goes on from these documents; they are those of the log of the clone exactly when it captured them. */
  ghost predicate ResumesFrom(s: State, docs: Option<seq<Entry>>, c: Clone) {
    && Some(View(s)) == docs && View(s) == Replay(s.log)
    && |s.log| == |c.index.log| && c.kept <= |c.index.segments|
    && (View(s) == Replay(c.index.log) <==> Captured(c.index, c.kept))
  }

  lemma Reopens(x: Whole, e: C.Event)
    requires Good(x) && CommitSafety.Inv(x.world) && e.EReopen? && C.Enabled(x.world, e)
    ensures var x', last := Committed(x, e), x.world.last.gen;
      && last in x.clones && x'.world.last == x.world.last && ReadsAs(Documents(x.contents, last), x.clones[last])
      && (x'.world.open ==> ResumesFrom(x'.index, Documents(x.contents, last), x.clones[last]))
  {
    hide Inv, CommitSafety.Inv, C.Do, C.Enabled, Captured, Committed;
    var c := x.clones[x.world.last.gen];
    SavedReads(x, x.world.last);
    ReopenKeeps(x, e);
    ClonedInv(c.index, c.kept);
    var l := Loaded(c.index.segments[..c.kept], c.index.nextName, |c.index.log|);
    ViewIsReplay(l);
    assert |l.log| == |c.index.log|;
  }

  /** A new writer, after a crash or not, goes on from the documents of the last finished commit, read from its files;
      its log is that of the commit, as far as they go, if and only if the commit captured it. */
  lemma WriterResumes(ms: seq<Move>, gens: set<nat>, locked: set<C.Name>)
    requires CommitSafety.SoundRun(Commits(ms)) && !RunMoves(ms).world.open
    ensures var x, x' := RunMoves(ms), RunMoves(ms + [Committing(C.EReopen(gens, locked))]);
            var last := x.world.last.gen;
      && last in x.clones && x'.world.last == x.world.last && ReadsAs(Documents(x.contents, last), x.clones[last])
      && (x'.world.open ==> ResumesFrom(x'.index, Documents(x.contents, last), x.clones[last]))
  {
    hide Inv, CommitSafety.Inv, CommitSafety.SoundRun, C.Do, Good, ReadsAs, ResumesFrom, RunMoves, Commits;
    var x, e := RunMoves(ms), C.EReopen(gens, locked);
    MoveOn(ms, Committing(e));
    RunIsGood(ms);
    Reopens(x, e);
  }
}
