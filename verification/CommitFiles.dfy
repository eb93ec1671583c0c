/**
 The index directory under a writer's two-phase commit: the files, their reference counts, and
 which commit a reader that opens the directory finds.
 */
module CommitFiles {

  datatype Option<+T> = None | Some(value: T)

  /** A file of a segment, or the segments_N file of generation N. */
  datatype Name = Data(segment: nat, id: nat) | Listing(gen: nat)

  /** A segments_N file names the files of its commit.  `ok` is false for a torn file, and for a
      segments_N whose checksum was not completed. */
  datatype File = File(infos: set<Name>, ok: bool)

  /** `genFile` is what segments.gen holds, -1 when it is missing or inconsistent. */
  datatype Directory = Directory(files: map<Name, File>, synced: set<Name>, genFile: int)

  /** A commit point: its segments_N and every file it names. */
  datatype Commit = Commit(gen: nat, files: set<Name>)

  // ---------- reading ----------

  function ReadCommit(d: Directory, gen: int): Option<Commit> {
    if gen >= 0 && Listing(gen) in d.files && d.files[Listing(gen)].ok
       && forall n :: n in d.files[Listing(gen)].infos ==> n in d.files && d.files[n].ok
    then Some(Commit(gen, d.files[Listing(gen)].infos + {Listing(gen)}))
    else None
  }

  function Generations(d: Directory): set<nat> { set n | n in d.files && n.Listing? :: n.gen }

  function MaxOf(s: set<nat>): (m: int)
    ensures s == {} ==> m == -1
    ensures s != {} ==> m >= 0 && (m as nat) in s
    ensures forall x :: x in s ==> x <= m
  {
    if s == {} then -1
    else
      MaxExists(s);
      var x :| x in s && forall y :: y in s ==> y <= x;
      x
  }

  lemma {:induction false} MaxExists(s: set<nat>)
    requires s != {}
    ensures exists x :: x in s && forall y :: y in s ==> y <= x
  {
    var z :| z in s;
    if s - {z} != {} {
      MaxExists(s - {z});
      var x :| x in s - {z} && forall y :: y in s - {z} ==> y <= x;
      var m := if x < z then z else x;
      assert s == (s - {z}) + {z};
      assert m in s && forall y :: y in s ==> y <= m;
    } else {
      assert s == {z};
    }
  }

  /** The newest generation seen in the listing or in segments.gen. */
  function Top(d: Directory): int {
    var genA := MaxOf(Generations(d));
    if genA > d.genFile then genA else d.genFile
  }

  /** The retries that advance the generation, at most `left` more of them. */
  function LookAhead(d: Directory, gen: int, left: nat): Option<Commit>
    decreases left
  {
    if left == 0 then None
    else if ReadCommit(d, gen + 1).Some? then ReadCommit(d, gen + 1)
    else LookAhead(d, gen + 1, left - 1)
  }

  const LOOKAHEAD_COUNT := 10

  /** FindSegmentsFile on a directory that stands still: the newest generation, else the one
      before it, else a few generations further on. */
  function Open(d: Directory): Option<Commit> {
    var gen := Top(d);
    if gen == -1 then None
    else if ReadCommit(d, gen).Some? then ReadCommit(d, gen)
    else if gen > 1 && ReadCommit(d, gen - 1).Some? then ReadCommit(d, gen - 1)
    else LookAhead(d, gen, LOOKAHEAD_COUNT)
  }

  // ---------- reference counts ----------

  /** The directory with the deleter's counts, the files whose removal is to be retried, and the
      files the writer knows to be synced. */
  datatype Store = Store(dir: Directory, counts: map<Name, nat>, deletable: set<Name>, synced: set<Name>)

  function Count(counts: map<Name, nat>, n: Name): nat { if n in counts then counts[n] else 0 }

  function One(ns: set<Name>, n: Name): nat { if n in ns then 1 else 0 }

  function Remove(d: Directory, ns: set<Name>): Directory {
    Directory(d.files - ns, d.synced - ns, d.genFile)
  }

  /** deleteFile: a file that another process holds open is queued instead. */
  function DeleteFiles(st: Store, ns: set<Name>, locked: set<Name>): Store {
    st.(dir := Remove(st.dir, ns - locked), deletable := st.deletable + ns * locked * st.dir.files.Keys)
  }

  function IncRef(st: Store, ns: set<Name>): Store {
    st.(counts := map n | n in st.counts.Keys + ns :: Count(st.counts, n) + One(ns, n))
  }

  /** The files of `ns` that lose their last reference. */
  function Gone(counts: map<Name, nat>, ns: set<Name>): set<Name> { set n | n in ns && Count(counts, n) <= 1 }

  function DecRef(st: Store, ns: set<Name>, locked: set<Name>): Store {
    var gone := Gone(st.counts, ns);
    DeleteFiles(st, gone, locked).(
      counts := map n | n in st.counts && n !in gone :: Count(st.counts, n) - One(ns, n),
      synced := st.synced - gone)
  }

  function DecRefs(st: Store, sets: seq<set<Name>>, locked: set<Name>): Store
    decreases |sets|
  {
    if sets == [] then st else DecRefs(DecRef(st, sets[0], locked), sets[1..], locked)
  }

  function DeletePending(st: Store, locked: set<Name>): Store {
    DeleteFiles(st.(deletable := {}), st.deletable, locked)
  }

  /** Is the file one of the segment's, or is none named? */
  predicate IsOf(segment: Option<nat>, n: Name) { segment.None? || (n.Data? && n.segment == segment.value) }

  /** The files, of one segment if one is named, that no count was ever kept for. */
  function Uncounted(st: Store, segment: Option<nat>): set<Name> {
    set n | n in st.dir.files && n !in st.counts && IsOf(segment, n)
  }

  /** refresh: removes the uncounted files. */
  function Refresh(st: Store, segment: Option<nat>, locked: set<Name>): Store {
    DeleteFiles(st, Uncounted(st, segment), locked)
  }

  datatype Deleter = Deleter(st: Store, lastFiles: seq<set<Name>>, commits: seq<Commit>)

  /** A checkpoint of files not yet committed, with the files the document writer has open. */
  function Checkpoint(d: Deleter, infos: set<Name>, docs: set<Name>, locked: set<Name>): Deleter {
    var st := IncRef(IncRef(DeletePending(d.st, locked), infos), docs);
    Deleter(DecRefs(st, d.lastFiles, locked), [infos, docs], d.commits)
  }

  function WithoutGens(commits: seq<Commit>, gens: set<nat>): seq<Commit> {
    if commits == [] then []
    else (if commits[0].gen in gens then [] else [commits[0]]) + WithoutGens(commits[1..], gens)
  }

  function DroppedFiles(commits: seq<Commit>, gens: set<nat>): seq<set<Name>> {
    if commits == [] then []
    else (if commits[0].gen in gens then [commits[0].files] else []) + DroppedFiles(commits[1..], gens)
  }

  /** deleteCommits, once the policy has marked the commits of `gens`. */
  function DeleteCommits(d: Deleter, gens: set<nat>, locked: set<Name>): Deleter {
    Deleter(DecRefs(d.st, DroppedFiles(d.commits, gens), locked), d.lastFiles, WithoutGens(d.commits, gens))
  }

  function CommitCheckpoint(d: Deleter, c: Commit, gens: set<nat>, locked: set<Name>): Deleter {
    var st := IncRef(DeletePending(d.st, locked), c.files);
    DeleteCommits(Deleter(st, d.lastFiles, d.commits + [c]), gens, locked)
  }

  function Close(d: Deleter, locked: set<Name>): Deleter {
    Deleter(DeletePending(DecRefs(d.st, d.lastFiles, locked), locked), [], d.commits)
  }

  // ---------- the writer ----------

  /** `published`: the checksum of its segments_N has been completed. */
  datatype Pending = Pending(commit: Commit, published: bool)

  /** `last` is the last finished commit (rollbackSegmentInfos), `holds` the files each commit
      being synced, or each open transaction, protects. */
  datatype World = World(del: Deleter, infos: set<Name>, generation: nat, holds: seq<set<Name>>,
                         pending: Option<Pending>, last: Commit, open: bool)

  function Body(c: Commit): set<Name> { c.files - {Listing(c.gen)} }

  datatype Event =
    | ENewFile(n: Name)
    | ECheckpoint(infos: set<Name>, docs: set<Name>, locked: set<Name>)
    | ERefresh(segment: Option<nat>, locked: set<Name>)
    | EHold(ns: set<Name>)
    | ERelease(i: nat, locked: set<Name>)
    | ESyncFile(i: nat, n: Name)
    | EPrepare(i: nat, written: bool, locked: set<Name>)
    | EPublish(written: bool, locked: set<Name>)
    | EFinish(synced: bool, genFile: int, gens: set<nat>, locked: set<Name>)
    | ERollback(locked: set<Name>)
    | EClose(locked: set<Name>)
    | ECrash(lost: set<Name>, torn: set<Name>, genFile: int)
    | EReopen(gens: set<nat>, locked: set<Name>)

  function Put(st: Store, n: Name, f: File): Store {
    st.(dir := Directory(st.dir.files[n := f], st.dir.synced - {n}, st.dir.genFile))
  }

  function WithStore(w: World, st: Store): World { w.(del := w.del.(st := st)) }

  function SyncFile(st: Store, n: Name): Store {
    st.(dir := st.dir.(synced := st.dir.synced + {n}), synced := st.synced + {n})
  }

  /** startCommit once all files are synced: writes segments_N, not yet valid. */
  function Prepare(w: World, i: nat, written: bool, locked: set<Name>): World
    requires i < |w.holds|
  {
    var gen := w.generation + 1;
    var ns := w.holds[i];
    var rest := w.holds[..i] + w.holds[i + 1..];
    var st := Put(w.del.st, Listing(gen), File(ns, false));
    if written then
      WithStore(w, st).(generation := gen, holds := rest,
          pending := Some(Pending(Commit(gen, ns + {Listing(gen)}), false)))
    else
      WithStore(w, DecRef(st.(dir := Remove(st.dir, {Listing(gen)} - locked)), ns, locked)).(generation := gen,
          holds := rest)
  }

  /** The first half of finishCommit: the checksum makes segments_N valid, or it is rolled back. */
  function Publish(w: World, written: bool, locked: set<Name>): World
    requires w.pending.Some?
  {
    var st, c := w.del.st, w.pending.value.commit;
    var n := Listing(c.gen);
    if !written then
      WithStore(w, DecRef(st.(dir := Remove(st.dir, {n} - locked)), Body(c), locked)).(pending := None)
    else
      var files := if n in st.dir.files then st.dir.files[n := st.dir.files[n].(ok := true)] else st.dir.files;
      WithStore(w, st.(dir := st.dir.(files := files))).(pending := Some(Pending(c, true)))
  }

  /** Does finishCommit return, rather than throw?  A failed sync is not reported, unless removing
      the unsynced segments_N fails too. */
  predicate Returns(w: World, synced: bool, locked: set<Name>)
    requires w.pending.Some?
  {
    var n := Listing(w.pending.value.commit.gen);
    n in w.del.st.dir.files && (synced || n !in locked)
  }

  /** The second half of finishCommit. */
  function Finish(w: World, synced: bool, genFile: int, gens: set<nat>, locked: set<Name>): World
    requires w.pending.Some?
  {
    var st, c := w.del.st, w.pending.value.commit;
    var n := Listing(c.gen);
    if !Returns(w, synced, locked) then
      WithStore(w, DecRef(st, Body(c), locked)).(pending := None)
    else
      var dir := if synced then st.dir.(synced := st.dir.synced + {n}) else Remove(st.dir, {n});
      var del := w.del.(st := st.(dir := dir.(genFile := genFile)));
      var checked := CommitCheckpoint(del, c, gens, locked);
      w.(del := checked.(st := DecRef(checked.st, Body(c), locked)), pending := None, last := c)
  }

  /** A prepared commit is undone: its segments_N goes, its files are given back. */
  function Undone(w: World, locked: set<Name>): Store {
    if w.pending.None? then w.del.st
    else
      var c := w.pending.value.commit;
      DecRef(w.del.st.(dir := Remove(w.del.st.dir, {Listing(c.gen)} - locked)), Body(c), locked)
  }

  /** The uncommitted changes are dropped, and the writer closes. */
  function Rollback(w: World, locked: set<Name>): World {
    var del := Checkpoint(w.del.(st := Undone(w, locked)), Body(w.last), {}, locked);
    w.(del := Close(del.(st := Refresh(del.st, None, locked)), locked), infos := Body(w.last), pending := None,
        open := false)
  }

  /** What is on stable storage stays; of the rest anything may be lost or torn. */
  function Survivors(d: Directory, lost: set<Name>, torn: set<Name>): map<Name, File> {
    map n | n in d.files && (n in d.synced || n !in lost) ::
      if n in d.synced || n !in torn then d.files[n] else d.files[n].(ok := false)
  }

  function Crash(w: World, lost: set<Name>, torn: set<Name>, genFile: int): World {
    var files := Survivors(w.del.st.dir, lost, torn);
    var dir := Directory(files, files.Keys, genFile);
    var recovered := w.pending.Some? && w.pending.value.published && Listing(w.pending.value.commit.gen) in files
                     && files[Listing(w.pending.value.commit.gen)].ok;
    World(Deleter(Store(dir, map[], {}, {}), [], []), {}, 0, [], None,
          if recovered then w.pending.value.commit else w.last, false)
  }

  /** The commits on disk up to a generation, oldest first. */
  function CommitsUpTo(d: Directory, g: nat): seq<Commit> {
    (if g == 0 then [] else CommitsUpTo(d, g - 1)) +
    (if Listing(g) in d.files && d.files[Listing(g)].ok then [Commit(g, d.files[Listing(g)].infos + {Listing(g)})]
        else [])
  }

  function IncRefs(st: Store, commits: seq<Commit>): Store
    decreases |commits|
  {
    if commits == [] then st else IncRefs(IncRef(st, commits[0].files), commits[1..])
  }

  function Unused(st: Store): set<Name> { set n | n in st.counts && st.counts[n] == 0 }

  /** The deleter of a new writer: counts what the commits refer to and removes the rest. */
  function NewDeleter(dir: Directory, current: Commit, gens: set<nat>, locked: set<Name>): Deleter
    requires Top(dir) >= 0
  {
    var commits := CommitsUpTo(dir, Top(dir));
    var st := IncRefs(Store(dir, map n | n in dir.files :: 0, {}, current.files), commits);
    DeleteCommits(Checkpoint(Deleter(DeleteFiles(st, Unused(st), locked), [], commits), Body(current), {}, locked),
        gens, locked)
  }

  /** A torn segments_N no newer than the current one keeps the writer from opening. */
  predicate CanReopen(d: Directory) {
    && Open(d).Some?
    && forall n :: n in d.files && n.Listing? && n.gen <= Open(d).value.gen ==> d.files[n].ok
  }

  function Reopen(w: World, gens: set<nat>, locked: set<Name>): World {
    var dir := w.del.st.dir;
    if CanReopen(dir) && Top(dir) >= 0 then
      var c := Open(dir).value;
      World(NewDeleter(dir, c, gens, locked), Body(c), c.gen, [], None, c, true)
    else w
  }

  predicate Enabled(w: World, e: Event) {
    if e.EReopen? then !w.open
    else if e.ECrash? then e.genFile <= w.del.st.dir.genFile
    else
      && w.open
      && (w.pending.Some? && w.pending.value.published ==> e.EFinish? || e.ESyncFile? || e.ENewFile?)
      && match e
         case ENewFile(n) => n.Data? && Count(w.del.st.counts, n) == 0
         case ECheckpoint(infos, docs, _) =>
           forall n :: n in infos + docs ==> n.Data? && n in w.del.st.dir.files && w.del.st.dir.files[n].ok
         case EHold(ns) => ns <= w.infos && forall n :: n in ns ==> n.Data?
         case ERelease(i, _) => i < |w.holds|
         case ESyncFile(i, n) => i < |w.holds| && n in w.holds[i]
         case EPrepare(i, _, _) => w.pending.None? && i < |w.holds| && w.holds[i] <= w.del.st.synced
         case EPublish(_, _) => w.pending.Some? && !w.pending.value.published
         case EFinish(_, genFile, _, _) =>
           w.pending.Some? && w.pending.value.published
           && (genFile <= w.del.st.dir.genFile || genFile == w.pending.value.commit.gen)
         case EClose(_) => w.pending.None?
         case _ => true
  }

  function Do(w: World, e: Event): World {
    if !Enabled(w, e) then w
    else match e
      case ENewFile(n) => WithStore(w, Put(w.del.st, n, File({}, true)))
      case ECheckpoint(infos, docs, locked) => w.(infos := infos, del := Checkpoint(w.del, infos, docs, locked))
      case ERefresh(segment, locked) => WithStore(w, Refresh(w.del.st, segment, locked))
      case EHold(ns) => WithStore(w, IncRef(w.del.st, ns)).(holds := w.holds + [ns])
      case ERelease(i, locked) =>
        WithStore(w, DecRef(w.del.st, w.holds[i], locked)).(holds := w.holds[..i] + w.holds[i + 1..])
      case ESyncFile(_, n) => WithStore(w, SyncFile(w.del.st, n))
      case EPrepare(i, written, locked) => Prepare(w, i, written, locked)
      case EPublish(written, locked) => Publish(w, written, locked)
      case EFinish(synced, genFile, gens, locked) => Finish(w, synced, genFile, gens, locked)
      case ERollback(locked) => Rollback(w, locked)
      case EClose(locked) => w.(del := Close(w.del, locked), open := false)
      case ECrash(lost, torn, genFile) => Crash(w, lost, torn, genFile)
      case EReopen(gens, locked) => Reopen(w, gens, locked)
  }

  /** A directory holding one empty commit, and no writer. */
  const EMPTY_COMMIT := Commit(1, {Listing(1)})
  const START :=
    World(Deleter(Store(Directory(map[Listing(1) := File({}, true)], {Listing(1)}, 1), map[], {}, {}), [], []),
          {}, 0, [], None, EMPTY_COMMIT, false)

  function Run(es: seq<Event>): World {
    if es == [] then START else Do(Run(es[..|es| - 1]), es[|es| - 1])
  }
}
