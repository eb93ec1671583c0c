/**
 The commits a new IndexFileDeleter finds: read file by file in any order, then sorted.
 */
module CommitLists {
  import opened CommitFiles
  import opened CommitRuns

  ghost predicate Rising(cs: seq<Commit>) { forall i, j :: 0 <= i < j < |cs| ==> cs[i].gen < cs[j].gen }

  ghost predicate DistinctGens(cs: seq<Commit>) { forall i, j :: 0 <= i < j < |cs| ==> cs[i].gen != cs[j].gen }

  /** `c` is the commit of a segments_N among the files `seen`. */
  predicate CommitOf(d: Directory, seen: set<Name>, c: Commit) {
    var n := Listing(c.gen);
    n in seen && n in d.files && d.files[n].ok && c.files == d.files[n].infos + {n}
  }

  lemma OpenIsOnDisk(d: Directory)
    requires Open(d).Some?
    ensures CommitOf(d, d.files.Keys, Open(d).value)
  {
    AheadIsOnDisk(d, Top(d), LOOKAHEAD_COUNT);
  }

  lemma {:induction false} AheadIsOnDisk(d: Directory, gen: int, left: nat)
    ensures LookAhead(d, gen, left).Some? ==> CommitOf(d, d.files.Keys, LookAhead(d, gen, left).value)
    decreases left
  {
    if left > 0 { AheadIsOnDisk(d, gen + 1, left - 1); }
  }

  lemma {:induction false} CommitsUpToAre(d: Directory, g: nat)
    ensures Rising(CommitsUpTo(d, g))
    ensures forall c :: c in CommitsUpTo(d, g) <==> c.gen <= g && CommitOf(d, d.files.Keys, c)
  {
    if g > 0 { CommitsUpToAre(d, g - 1); }
  }

  /** A rising list is determined by its members. */
  lemma {:induction false} RisingUnique(a: seq<Commit>, b: seq<Commit>)
    requires Rising(a) && Rising(b) && forall c :: c in a <==> c in b
    ensures a == b
  {
    assert |a| > 0 ==> a[0] in b;
    assert |b| > 0 ==> b[0] in a;
    if a != [] {
      var x, y := a[|a| - 1], b[|b| - 1];
      assert x in b && y in a;
      assert x == y;
      var a', b' := a[..|a| - 1], b[..|b| - 1];
      forall c ensures c in a' <==> c in b' {
        assert c in a' <==> c in a && c != x;
        assert c in b' <==> c in b && c != y;
      }
      RisingUnique(a', b');
      assert a == a' + [x] && b == b' + [y];
    }
  }

  function Insert(cs: seq<Commit>, c: Commit): seq<Commit> {
    if cs == [] || cs[|cs| - 1].gen <= c.gen then cs + [c]
    else Insert(cs[..|cs| - 1], c) + [cs[|cs| - 1]]
  }

  /** Any sorting of the commits by generation. */
  function Sort(cs: seq<Commit>): seq<Commit> {
    if cs == [] then [] else Insert(Sort(cs[..|cs| - 1]), cs[|cs| - 1])
  }

  lemma {:induction false} InsertKeeps(cs: seq<Commit>, c: Commit)
    requires Rising(cs) && forall x :: x in cs ==> x.gen != c.gen
    ensures Rising(Insert(cs, c)) && forall x :: x in Insert(cs, c) <==> x in cs || x == c
  {
    if cs != [] && cs[|cs| - 1].gen > c.gen {
      InsertKeeps(cs[..|cs| - 1], c);
      assert forall x :: x in cs[..|cs| - 1] ==> x.gen < cs[|cs| - 1].gen;
    }
  }

  lemma {:induction false} SortKeeps(cs: seq<Commit>)
    requires DistinctGens(cs)
    ensures Rising(Sort(cs)) && forall x :: x in Sort(cs) <==> x in cs
  {
    if cs != [] {
      var front := cs[..|cs| - 1];
      SortKeeps(front);
      assert forall x :: x in front ==> x.gen != cs[|cs| - 1].gen;
      InsertKeeps(Sort(front), cs[|cs| - 1]);
    }
  }

  /** Sorting what was read gives the commits on disk, oldest first. */
  lemma SortedCommits(d: Directory, cs: seq<Commit>)
    requires Top(d) >= 0 && DistinctGens(cs)
    requires forall c :: c in cs <==> CommitOf(d, d.files.Keys, c)
    ensures Sort(cs) == CommitsUpTo(d, Top(d))
  {
    SortKeeps(cs);
    CommitsUpToAre(d, Top(d));
    forall c ensures c in Sort(cs) <==> c in CommitsUpTo(d, Top(d)) {
      if CommitOf(d, d.files.Keys, c) {
        assert c.gen in Generations(d);
      }
    }
    RisingUnique(Sort(cs), CommitsUpTo(d, Top(d)));
  }

  // ---------- counting them in any order ----------

  lemma RefsLast(cs: seq<Commit>, c: Commit, n: Name)
    ensures Refs(FilesOf(cs + [c]), n) == Refs(FilesOf(cs), n) + One(c.files, n)
  {
    assert FilesOf(cs + [c]) == FilesOf(cs) + [c.files];
    RefsAppend(FilesOf(cs), [c.files], n);
    assert [c.files][1..] == [];
  }

  lemma {:induction false} InsertRefs(cs: seq<Commit>, c: Commit, n: Name)
    ensures Refs(FilesOf(Insert(cs, c)), n) == Refs(FilesOf(cs), n) + One(c.files, n)
  {
    if cs == [] || cs[|cs| - 1].gen <= c.gen {
      RefsLast(cs, c, n);
    } else {
      var front, last := cs[..|cs| - 1], cs[|cs| - 1];
      InsertRefs(front, c, n);
      RefsLast(Insert(front, c), last, n);
      RefsLast(front, last, n);
      assert cs == front + [last];
    }
  }

  lemma {:induction false} SortRefs(cs: seq<Commit>, n: Name)
    ensures Refs(FilesOf(Sort(cs)), n) == Refs(FilesOf(cs), n)
  {
    if cs != [] {
      var front, last := cs[..|cs| - 1], cs[|cs| - 1];
      SortRefs(front, n);
      InsertRefs(Sort(front), last, n);
      RefsLast(front, last, n);
      assert cs == front + [last];
    }
  }

  function AllFiles(cs: seq<Commit>): set<Name> {
    if cs == [] then {} else AllFiles(cs[..|cs| - 1]) + cs[|cs| - 1].files
  }

  lemma {:induction false} AllFilesIn(cs: seq<Commit>, n: Name)
    ensures n in AllFiles(cs) <==> exists c :: c in cs && n in c.files
  {
    if cs != [] {
      AllFilesIn(cs[..|cs| - 1], n);
      assert cs == cs[..|cs| - 1] + [cs[|cs| - 1]];
    }
  }

  lemma {:induction false} IncRefsKeys(st: Store, cs: seq<Commit>)
    ensures IncRefs(st, cs).dir == st.dir && IncRefs(st, cs).deletable == st.deletable
            && IncRefs(st, cs).synced == st.synced
    ensures forall n :: n in IncRefs(st, cs).counts <==> n in st.counts || exists c :: c in cs && n in c.files
    decreases |cs|
  {
    if cs != [] {
      IncRefsKeys(IncRef(st, cs[0].files), cs[1..]);
      assert cs == [cs[0]] + cs[1..];
    }
  }

  /** Counts gathered commit by commit, in whatever order, are those of the sorted list. */
  lemma CountedInAnyOrder(d: Directory, synced: set<Name>, cs: seq<Commit>, counts: map<Name, nat>)
    requires DistinctGens(cs) && counts.Keys == d.files.Keys + AllFiles(cs)
    requires forall n :: Count(counts, n) == Refs(FilesOf(cs), n)
    ensures Store(d, counts, {}, synced) == IncRefs(Store(d, map n | n in d.files :: 0, {}, synced), Sort(cs))
  {
    var st0 := Store(d, map n | n in d.files :: 0, {}, synced);
    var st := IncRefs(st0, Sort(cs));
    IncRefsKeys(st0, Sort(cs));
    SortKeeps(cs);
    forall n ensures Count(st.counts, n) == Count(counts, n) && (n in st.counts <==> n in counts) {
      IncRefsCount(st0, Sort(cs), n);
      SortRefs(cs, n);
      AllFilesIn(cs, n);
    }
    forall n | n in counts ensures counts[n] == st.counts[n] {
      assert Count(st.counts, n) == Count(counts, n);
    }
    assert counts == st.counts;
  }

  /** One file more has been looked at. */
  lemma Looked(d: Directory, seen: set<Name>, n: Name, cs: seq<Commit>)
    requires n !in seen && n in d.files && DistinctGens(cs) && forall c :: c in cs <==> CommitOf(d, seen, c)
    ensures var cs' := if n.Listing? && d.files[n].ok then cs + [Commit(n.gen, d.files[n].infos + {n})] else cs;
      DistinctGens(cs') && forall c :: c in cs' <==> CommitOf(d, seen + {n}, c)
  {
    if n.Listing? && d.files[n].ok {
      var x := Commit(n.gen, d.files[n].infos + {n});
      assert forall c :: c in cs ==> c.gen != x.gen;
      forall c ensures c in cs + [x] <==> CommitOf(d, seen + {n}, c) {
        if CommitOf(d, seen + {n}, c) && c !in cs {
          assert Listing(c.gen) == n;
          assert c == x;
        }
      }
    }
  }
}
