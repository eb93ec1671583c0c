/**
 DisjunctionMaxScorer: the union of its lists through a heap, and a score walked out of the part of
 the heap that stands on the current document.
 */
module DisjunctionMaxes {
  import opened Postings
  import opened Conjunctions

  // ---------- the heap ----------

  function Parent(k: nat): nat
    requires k > 0
  {
    (k - 1) / 2
  }

  /** From `root` on, a parent is never beyond its children, except perhaps at `hole`. */
  ghost predicate OrderedBut(h: seq<Cursor>, root: nat, hole: nat) {
    && (forall k :: 0 < k < |h| && Parent(k) >= root && Parent(k) != hole ==> h[Parent(k)].Doc() <= h[k].Doc())
    && (hole > root ==> Parent(hole) >= root && forall k :: 0 < k < |h| && Parent(k) == hole ==>
       h[Parent(hole)].Doc() <= h[k].Doc())
  }

  ghost predicate OrderedFrom(h: seq<Cursor>, root: nat) {
    forall k :: 0 < k < |h| && Parent(k) >= root ==> h[Parent(k)].Doc() <= h[k].Doc()
  }

  lemma {:induction false} RootLeast(h: seq<Cursor>, k: nat)
    requires OrderedFrom(h, 0) && k < |h|
    ensures h[0].Doc() <= h[k].Doc()
    decreases k
  {
    if k > 0 { RootLeast(h, Parent(k)); }
  }

  /** The child that takes the place of its parent: the second only when it comes before the first. */
  predicate Lesser(h: seq<Cursor>, i: nat, c: nat) {
    && (c == 2 * i + 1 || c == 2 * i + 2) && c < |h| && h[c].Doc() <= h[2 * i + 1].Doc()
    && (2 * i + 2 < |h| ==> h[c].Doc() <= h[2 * i + 2].Doc())
  }

  lemma SinkStep(h: seq<Cursor>, root: nat, i: nat, c: nat)
    requires root <= i < |h| && Lesser(h, i, c) && h[c].Doc() < h[i].Doc() && OrderedBut(h, root, i)
    ensures OrderedBut(Swapped(h, i, c), root, c) && multiset(Swapped(h, i, c)) == multiset(h)
  {
    var g := Swapped(h, i, c);
    assert Parent(c) == i;
    forall k | 0 < k < |g| && Parent(k) >= root && Parent(k) != c ensures g[Parent(k)].Doc() <= g[k].Doc() {
      if Parent(k) == i { assert k == 2 * i + 1 || k == 2 * i + 2; }
    }
    forall k | 0 < k < |g| && Parent(k) == c ensures g[Parent(c)].Doc() <= g[k].Doc() {
      assert h[Parent(k)].Doc() <= h[k].Doc();
    }
    SwappedContents(h, i, c);
  }

  lemma SinkDone(h: seq<Cursor>, root: nat, i: nat)
    requires OrderedBut(h, root, i)
    requires forall k :: 0 < k < |h| && Parent(k) == i ==> h[i].Doc() <= h[k].Doc()
    ensures OrderedFrom(h, root)
  {
  }

  // ---------- the walk ----------

  /** The part of the subtree at `root` that the walk enters. */
  function Visited(h: seq<Cursor>, root: nat, d: int): set<nat>
    decreases |h| - root
  {
    if root < |h| && h[root].Doc() == d then {root} + Visited(h, 2 * root + 1, d) + Visited(h, 2 * root + 2, d) else {}
  }

  predicate Above(a: nat, i: nat)
    decreases i
  {
    i == a || (i > a && Above(a, Parent(i)))
  }

  lemma {:induction false} AboveChild(a: nat, r: nat, i: nat)
    requires Above(a, i) && a > 0 && Parent(a) == r
    ensures Above(r, i)
    decreases i
  {
    if i > a { AboveChild(a, r, Parent(i)); }
  }

  /** Two subtrees that meet are nested. */
  lemma {:induction false} Nested(a: nat, b: nat, i: nat)
    requires Above(a, i) && Above(b, i) && a < b
    ensures Above(a, b)
    decreases i
  {
    if i > b { Nested(a, b, Parent(i)); }
  }

  lemma {:induction false} VisitedBelow(h: seq<Cursor>, root: nat, d: int, i: nat)
    requires i in Visited(h, root, d)
    ensures Above(root, i) && i < |h| && h[i].Doc() == d
    decreases |h| - root
  {
    if i in Visited(h, 2 * root + 1, d) {
      VisitedBelow(h, 2 * root + 1, d, i);
      AboveChild(2 * root + 1, root, i);
    } else if i in Visited(h, 2 * root + 2, d) {
      VisitedBelow(h, 2 * root + 2, d, i);
      AboveChild(2 * root + 2, root, i);
    }
  }

  lemma BranchesApart(h: seq<Cursor>, root: nat, d: int)
    ensures root !in Visited(h, 2 * root + 1, d) && root !in Visited(h, 2 * root + 2, d)
    ensures Visited(h, 2 * root + 1, d) !! Visited(h, 2 * root + 2, d)
  {
    var l, r := Visited(h, 2 * root + 1, d), Visited(h, 2 * root + 2, d);
    assert !Above(2 * root + 1, 2 * root + 2) by { assert Parent(2 * root + 2) == root; }
    forall i | i in l ensures i != root && i !in r {
      VisitedBelow(h, 2 * root + 1, d, i);
      if i in r {
        VisitedBelow(h, 2 * root + 2, d, i);
        Nested(2 * root + 1, 2 * root + 2, i);
      }
    }
    if root in Visited(h, 2 * root + 2, d) { VisitedBelow(h, 2 * root + 2, d, root); }
  }

  /** A child of an entered place that stands on the document is entered too. */
  lemma {:induction false} VisitedChild(h: seq<Cursor>, root: nat, d: int, i: nat)
    requires 0 < i < |h| && h[i].Doc() == d && Parent(i) in Visited(h, root, d)
    ensures i in Visited(h, root, d)
    decreases |h| - root
  {
    if Parent(i) == root {
      assert i == 2 * root + 1 || i == 2 * root + 2;
    } else if Parent(i) in Visited(h, 2 * root + 1, d) {
      VisitedChild(h, 2 * root + 1, d, i);
    } else {
      VisitedChild(h, 2 * root + 2, d, i);
    }
  }

  /** The walk from the root enters exactly the places that stand on the least document. */
  lemma {:induction false} WalkIsExact(h: seq<Cursor>, i: nat)
    requires OrderedFrom(h, 0) && i < |h|
    ensures i in Visited(h, 0, h[0].Doc()) <==> h[i].Doc() == h[0].Doc()
    decreases i
  {
    if i in Visited(h, 0, h[0].Doc()) {
      VisitedBelow(h, 0, h[0].Doc(), i);
    } else if h[i].Doc() == h[0].Doc() && i > 0 {
      RootLeast(h, Parent(i));
      WalkIsExact(h, Parent(i));
      VisitedChild(h, 0, h[0].Doc(), i);
    }
  }

  function ScoreOf(c: Cursor): real { if 0 <= c.pos < |c.list| then c.list[c.pos].score else 0.0 }

  function Max(a: real, b: real): real { if a < b then b else a }

  /** The greater of two scores that may be missing. */
  function Better(a: Option<real>, b: Option<real>): Option<real> {
    if a.None? then b else if b.None? then a else Some(Max(a.value, b.value))
  }

  /** The scores of the first `k` places that are in `v`: their sum, and the greatest. */
  function SumIn(h: seq<Cursor>, v: set<nat>, k: nat): real
    requires k <= |h|
  {
    if k == 0 then 0.0 else SumIn(h, v, k - 1) + if k - 1 in v then ScoreOf(h[k - 1]) else 0.0
  }

  function BestIn(h: seq<Cursor>, v: set<nat>, k: nat): Option<real>
    requires k <= |h|
  {
    if k == 0 then None else Better(BestIn(h, v, k - 1), if k - 1 in v then Some(ScoreOf(h[k - 1])) else None)
  }

  lemma {:induction false} UnionIn(h: seq<Cursor>, v: set<nat>, w: set<nat>, k: nat)
    requires k <= |h| && v !! w
    ensures SumIn(h, v + w, k) == SumIn(h, v, k) + SumIn(h, w, k)
    ensures BestIn(h, v + w, k) == Better(BestIn(h, v, k), BestIn(h, w, k))
  {
    if k > 0 { UnionIn(h, v, w, k - 1); }
  }

  lemma {:induction false} SingleIn(h: seq<Cursor>, i: nat, k: nat)
    requires k <= |h|
    ensures SumIn(h, {i}, k) == if i < k then ScoreOf(h[i]) else 0.0
    ensures BestIn(h, {i}, k) == if i < k then Some(ScoreOf(h[i])) else None
  {
    if k > 0 { SingleIn(h, i, k - 1); }
  }

  lemma {:induction false} NoneIn(h: seq<Cursor>, k: nat)
    requires k <= |h|
    ensures SumIn(h, {}, k) == 0.0 && BestIn(h, {}, k) == None
  {
    if k > 0 { NoneIn(h, k - 1); }
  }

  /** Entering a place adds its own score to those of its two branches. */
  lemma VisitedIn(h: seq<Cursor>, root: nat, d: int)
    requires root < |h| && h[root].Doc() == d
    ensures var v, l, r := Visited(h, root, d), Visited(h, 2 * root + 1, d), Visited(h, 2 * root + 2, d);
      && SumIn(h, v, |h|) == ScoreOf(h[root]) + SumIn(h, l, |h|) + SumIn(h, r, |h|)
      && BestIn(h, v, |h|) == Better(Better(Some(ScoreOf(h[root])), BestIn(h, l, |h|)), BestIn(h, r, |h|))
  {
    BranchesApart(h, root, d);
    var l, r := Visited(h, 2 * root + 1, d), Visited(h, 2 * root + 2, d);
    SingleIn(h, root, |h|);
    UnionIn(h, {root}, l, |h|);
    UnionIn(h, {root} + l, r, |h|);
  }

  // ---------- the lists ----------

  /** The greatest score that a list gives to the document. */
  function BestAt(lists: seq<PostingList>, d: int): Option<real> {
    if lists == [] then None else Better(BestAt(lists[..|lists| - 1], d), At(lists[|lists| - 1], d))
  }

  lemma {:induction false} BestWithout(lists: seq<PostingList>, i: nat, d: int)
    requires i < |lists|
    ensures BestAt(lists, d) == Better(BestAt(lists[..i] + lists[i + 1..], d), At(lists[i], d))
  {
    var n := |lists| - 1;
    var rest := lists[..i] + lists[i + 1..];
    if i < n {
      BestWithout(lists[..n], i, d);
      assert rest[..n - 1] == lists[..n][..i] + lists[..n][i + 1..];
    } else {
      assert rest == lists[..n];
    }
  }

  lemma {:induction false} BestReordered(a: seq<PostingList>, b: seq<PostingList>, d: int)
    requires multiset(a) == multiset(b)
    ensures BestAt(a, d) == BestAt(b, d)
    decreases |a|
  {
    if a == [] {
      assert |multiset(b)| == 0;
    } else {
      var i := InOther(a, b);
      RestContents(a, b, i);
      BestReordered(a[..|a| - 1], b[..i] + b[i + 1..], d);
      BestWithout(b, i, d);
    }
  }

  lemma {:induction false} BestNone(lists: seq<PostingList>, more: seq<PostingList>, d: int)
    requires forall i :: 0 <= i < |more| ==> At(more[i], d).None?
    ensures BestAt(lists + more, d) == BestAt(lists, d)
    ensures Matchers(lists + more, d) == Matchers(lists, d) && SumAt(lists + more, d) == SumAt(lists, d)
    decreases |more|
  {
    if more == [] {
      assert lists + more == lists;
    } else {
      var n := |more| - 1;
      BestNone(lists, more[..n], d);
      assert (lists + more)[..|lists| + n] == lists + more[..n];
    }
  }

  /** An iterator that has read nothing from `lo` on and stands at or beyond `hi`. */
  ghost predicate Between(c: Cursor, lo: int, hi: int) {
    && Ordered(c.list) && 0 <= c.pos < |c.list| && c.Doc() >= hi
    && forall p :: 0 <= p < c.pos ==> c.list[p].doc < lo
  }

  lemma StandsOn(c: Cursor, lo: int, hi: int, d: int)
    requires Between(c, lo, hi) && lo <= d
    ensures d < hi ==> At(c.list, d).None?
    ensures d <= c.Doc() ==> At(c.list, d) == if c.Doc() == d then Some(ScoreOf(c)) else None
  {
    AtAbsent(c.list, d);
    if c.Doc() == d { AtMember(c.list, c.pos); }
  }

  /** Over all places, what stands on the document is what the lists hold of it. */
  lemma {:induction false} PlacesAreLists(h: seq<Cursor>, v: set<nat>, lo: int, d: int, k: nat)
    requires k <= |h| && lo <= d && forall i :: 0 <= i < |h| ==> Between(h[i], lo, d) && (i in v <==> h[i].Doc() == d)
    ensures SumIn(h, v, k) == SumAt(Lists(h)[..k], d) && BestIn(h, v, k) == BestAt(Lists(h)[..k], d)
  {
    if k > 0 {
      PlacesAreLists(h, v, lo, d, k - 1);
      StandsOn(h[k - 1], lo, d, d);
      assert Lists(h)[..k][..k - 1] == Lists(h)[..k - 1];
    }
  }

  // ---------- the scorer ----------

  class DisjunctionMaxScorer {
    ghost const lists: seq<PostingList>
    ghost var gone: seq<PostingList>
    const tieBreakerMultiplier: real
    var subScorers: seq<Cursor>
    var doc: int

    /** Every list is in the heap or used up; nothing from `lo` on has been read, all stand at `hi` or beyond. */
    ghost predicate Standing(lo: int, hi: int)
      reads `subScorers, `gone
    {
      && multiset(Lists(subScorers) + gone) == multiset(lists)
      && (forall i :: 0 <= i < |subScorers| ==> Between(subScorers[i], lo, hi))
      && (forall i, p :: 0 <= i < |gone| && 0 <= p < |gone[i]| ==> gone[i][p].doc < lo)
    }

    ghost predicate Valid()
      reads this
    {
      && -1 <= doc <= NO_MORE_DOCS && OrderedFrom(subScorers, 0)
      && Standing(if doc == -1 then 0 else doc, doc)
      && (0 <= doc < NO_MORE_DOCS ==> subScorers != [] && subScorers[0].Doc() == doc)
      && (doc == NO_MORE_DOCS ==> subScorers == [])
    }

    /** The lists have a posting each, and stand on their first one. */
    constructor (tieBreakerMultiplier: real, lists: seq<PostingList>)
      requires AllOrdered(lists) && forall i :: 0 <= i < |lists| ==> lists[i] != []
      ensures Valid() && this.lists == lists && doc == -1 && this.tieBreakerMultiplier == tieBreakerMultiplier
    {
      this.lists, this.tieBreakerMultiplier, doc, gone := lists, tieBreakerMultiplier, -1, [];
      subScorers := seq(|lists|, i requires 0 <= i < |lists| => Cursor(lists[i], 0));
      new;
      ghost var was := subScorers;
      assert Lists(was) == lists && multiset(lists) == multiset(this.lists);
      Heapify();
      Rearranged(was, 0, -1);
    }

    /** The heap in another order stands where it stood. */
    lemma Rearranged(was: seq<Cursor>, lo: int, hi: int)
      requires multiset(was) == multiset(subScorers) && multiset(Lists(was) + gone) == multiset(lists)
      requires forall i :: 0 <= i < |was| ==> Between(was[i], lo, hi)
      requires forall i, p :: 0 <= i < |gone| && 0 <= p < |gone[i]| ==> gone[i][p].doc < lo
      ensures Standing(lo, hi)
    {
      Reorder(was, subScorers);
      assert forall i :: 0 <= i < |subScorers| ==> subScorers[i] in was;
    }

    method Heapify()
      requires AllOk(subScorers)
      modifies this`subScorers
      ensures OrderedFrom(subScorers, 0) && multiset(subScorers) == multiset(old(subScorers))
    {
      var i := |subScorers| / 2 - 1;
      while i >= 0
        invariant -1 <= i < |subScorers| && OrderedFrom(subScorers, i + 1)
        invariant multiset(subScorers) == multiset(old(subScorers)) && |subScorers| == |old(subScorers)|
                  && AllOk(subScorers)
      {
        HeapAdjust(i);
        i := i - 1;
      }
    }

    /** The iterator at `root` sinks to where it is not beyond its children. */
    method HeapAdjust(root: nat)
      requires root < |subScorers| && OrderedFrom(subScorers, root + 1) && AllOk(subScorers)
      modifies this`subScorers
      ensures OrderedFrom(subScorers, root) && multiset(subScorers) == multiset(old(subScorers))
      ensures |subScorers| == |old(subScorers)| && AllOk(subScorers)
    {
      Sink(root);
      Reorder(old(subScorers), subScorers);
    }

    method Sink(root: nat)
      requires root < |subScorers| && OrderedFrom(subScorers, root + 1) && subScorers[root].Doc() <= NO_MORE_DOCS
      modifies this`subScorers
      ensures OrderedFrom(subScorers, root) && multiset(subScorers) == multiset(old(subScorers))
    {
      hide Swapped, OrderedFrom;
      Loose(subScorers, root);
      hide OrderedBut;
      var scorer := subScorers[root];
      var i := root;
      while i <= |subScorers| / 2 - 1
        invariant root <= i < |subScorers| == |old(subScorers)| && OrderedBut(subScorers, root, i)
        invariant subScorers[i] == scorer && multiset(subScorers) == multiset(old(subScorers))
        decreases |subScorers| - i
      {
        var lchild, rchild := 2 * i + 1, 2 * i + 2;
        var ldoc := subScorers[lchild].Doc();
        var rdoc := if rchild < |subScorers| then subScorers[rchild].Doc() else 0x7FFF_FFFF;
        var c: nat;
        if ldoc < scorer.Doc() {
          c := if rdoc < ldoc then rchild else lchild;
        } else if rdoc < scorer.Doc() {
          c := rchild;
        } else {
          Settled(subScorers, root, i);
          return;
        }
        SinkStep(subScorers, root, i, c);
        subScorers := Swapped(subScorers, i, c);
        i := c;
      }
      Settled(subScorers, root, i);
    }

    /** Takes the exhausted root out of the heap. */
    method HeapRemoveRoot()
      requires subScorers != [] && OrderedFrom(subScorers, 1) && AllOk(subScorers)
      modifies this`subScorers
      ensures OrderedFrom(subScorers, 0) && multiset(subScorers) == multiset(old(subScorers)[1..])
      ensures |subScorers| == |old(subScorers)| - 1
    {
      var n := |subScorers|;
      if n == 1 {
        subScorers := [];
      } else {
        LastFirst(subScorers);
        subScorers := subScorers[..n - 1][0 := subScorers[n - 1]];
        HeapAdjust(0);
      }
    }

    /** The root moves to position `q`, past postings below `lo` only, and sinks or goes. */
    method MoveRoot(q: int, ghost lo: int, ghost hi: int)
      requires subScorers != [] && OrderedFrom(subScorers, 0) && Standing(lo, hi)
      requires var c := subScorers[0]; c.pos < q <= |c.list| && forall p :: c.pos <= p < q ==> c.list[p].doc < lo
      modifies this`subScorers, this`gone
      ensures OrderedFrom(subScorers, 0) && Standing(lo, hi) && Remaining(subScorers) < Remaining(old(subScorers))
    {
      hide Standing, OrderedFrom, Remaining, Lists, Between;
      var c := subScorers[0];
      RootFree(subScorers, Cursor(c.list, q));
      RemainingMove(subScorers, 0, q);
      if q < |c.list| {
        RootMoves(lo, hi, q);
        ghost var moved := subScorers[0 := Cursor(c.list, q)];
        subScorers := subScorers[0 := Cursor(c.list, q)];
        HeapAdjust(0);
        RemainingReordered(moved, subScorers);
        Rearranged(moved, lo, hi);
      } else {
        RootLeaves(lo, hi, q);
        ghost var rest := subScorers[1..];
        HeapRemoveRoot();
        gone := gone + [c.list];
        RemainingReordered(rest, subScorers);
        Rearranged(rest, lo, hi);
      }
    }

    /** The moved root stands as the others do. */
    lemma RootMoves(lo: int, hi: int, q: int)
      requires subScorers != [] && OrderedFrom(subScorers, 0) && Standing(lo, hi)
      requires var c := subScorers[0]; c.pos < q < |c.list| && forall p :: c.pos <= p < q ==> c.list[p].doc < lo
      ensures var moved := subScorers[0 := Cursor(subScorers[0].list, q)];
        && AllOk(moved) && multiset(Lists(moved) + gone) == multiset(lists)
        && (forall i :: 0 <= i < |moved| ==> Between(moved[i], lo, hi))
      ensures forall i, p :: 0 <= i < |gone| && 0 <= p < |gone[i]| ==> gone[i][p].doc < lo
    {
      assert Lists(subScorers[0 := Cursor(subScorers[0].list, q)]) == Lists(subScorers);
    }

    /** The exhausted root's list has been read. */
    lemma RootLeaves(lo: int, hi: int, q: int)
      requires subScorers != [] && Standing(lo, hi)
      requires var c := subScorers[0]; c.pos < q == |c.list| && forall p :: c.pos <= p < q ==> c.list[p].doc < lo
      ensures AllOk(subScorers) && (forall i :: 0 <= i < |subScorers[1..]| ==> Between(subScorers[1..][i], lo, hi))
      ensures var used := gone + [subScorers[0].list];
        && multiset(Lists(subScorers[1..]) + used) == multiset(lists)
        && forall i, p :: 0 <= i < |used| && 0 <= p < |used[i]| ==> used[i][p].doc < lo
      ensures Remaining(subScorers[1..]) == Remaining(subScorers[0 := Cursor(subScorers[0].list, q)])
    {
      var c := subScorers[0];
      var h := subScorers[0 := Cursor(c.list, q)];
      RemainingWithout(h, 0);
      assert h[..0] + h[1..] == subScorers[1..];
      UsedUp(subScorers, gone);
    }

    /** With every iterator at `hi` or beyond, nothing matches before; at the root's document something does. */
    lemma RootIsNext(lo: int)
      requires OrderedFrom(subScorers, 0) && Standing(lo, if subScorers == [] then lo else subScorers[0].Doc())
               && 0 <= lo <= NO_MORE_DOCS
      requires subScorers != [] ==> lo <= subScorers[0].Doc()
      ensures FirstMatch(lists, 1, lo, if subScorers == [] then NO_MORE_DOCS else subScorers[0].Doc())
    {
      var all := Lists(subScorers) + gone;
      var d := if subScorers == [] then NO_MORE_DOCS else subScorers[0].Doc();
      forall x | lo <= x < d ensures Matchers(lists, x) < 1 {
        forall i | 0 <= i < |all| ensures At(all[i], x).None? {
          if i < |subScorers| {
            assert all[i] == subScorers[i].list;
            StandsOn(subScorers[i], lo, d, x);
          } else {
            assert all[i] == gone[i - |subScorers|];
            AtAbsent(all[i], x);
          }
        }
        NoMatches(all, x);
        Reordered(all, lists, x);
      }
      if subScorers != [] {
        StandsOn(subScorers[0], lo, d, d);
        assert all[0] == subScorers[0].list;
        SomeMatch(all, 0, d);
        Reordered(all, lists, d);
      }
    }

    /** Once the root stands beyond `lo`, so does the whole heap. */
    lemma AllAtRoot(lo: int, hi: int)
      requires OrderedFrom(subScorers, 0) && Standing(lo, hi) && subScorers != []
      ensures Standing(lo, subScorers[0].Doc())
      ensures lo <= subScorers[0].Doc() ==> Standing(subScorers[0].Doc(), subScorers[0].Doc())
      ensures hi <= subScorers[0].Doc() < NO_MORE_DOCS && 0 <= subScorers[0].Doc()
    {
      forall i | 0 <= i < |subScorers| ensures subScorers[0].Doc() <= subScorers[i].Doc() { RootLeast(subScorers, i); }
    }

    method NextDoc() returns (d: int)
      requires Valid()
      modifies this
      ensures Valid() && d == doc
      ensures if old(doc) == NO_MORE_DOCS then d == NO_MORE_DOCS else FirstMatch(lists, 1, old(doc) + 1, d)
    {
      hide FirstMatch, OrderedFrom;
      if |subScorers| == 0 {
        if doc != NO_MORE_DOCS { RootIsNext(doc + 1); }
        doc := NO_MORE_DOCS;
        return doc;
      }
      StandingLater(if doc == -1 then 0 else doc, doc + 1, doc);
      NextFrom(doc, doc + 1);
      d := doc;
    }

    lemma StandingLater(lo: int, lo': int, hi: int)
      requires Standing(lo, hi) && lo <= lo'
      ensures Standing(lo', hi)
    {
    }

    /** The root has a posting to leave. */
    lemma Pending(lo: int, hi: int)
      requires subScorers != [] && Standing(lo, hi)
      ensures 0 <= subScorers[0].pos < |subScorers[0].list| && Ordered(subScorers[0].list)
              && hi <= subScorers[0].Doc() < NO_MORE_DOCS
      ensures Remaining(subScorers) >= 0
    {
      LeftOver(subScorers);
    }

    lemma NoneStanding(lo: int, hi: int)
      requires subScorers == [] && Standing(lo, hi) && lo <= NO_MORE_DOCS
      ensures Standing(lo, lo) && Standing(NO_MORE_DOCS, NO_MORE_DOCS)
    {
    }

    /** The root moves on while it stands on the document. */
    method NextFrom(ghost hi: int, ghost lo: int)
      requires -1 <= doc < NO_MORE_DOCS && hi == doc && lo == doc + 1
      requires subScorers != [] && OrderedFrom(subScorers, 0) && Standing(lo, hi)
      modifies this
      ensures Valid() && FirstMatch(lists, 1, lo, doc)
    {
      hide FirstMatch, OrderedFrom, Remaining, Standing;
      while subScorers[0].Doc() == doc
        invariant subScorers != [] && OrderedFrom(subScorers, 0) && Standing(lo, hi) && doc == hi
        decreases Remaining(subScorers)
      {
        Pending(lo, hi);
        MoveRoot(subScorers[0].pos + 1, lo, hi);
        if |subScorers| == 0 {
          NoneStanding(lo, hi);
          RootIsNext(lo);
          doc := NO_MORE_DOCS;
          NoneStanding(lo, hi);
          return;
        }
      }
      AllAtRoot(lo, hi);
      RootIsNext(lo);
      doc := subScorers[0].Doc();
    }

    /** A target at or before the current document leaves the scorer there, where advance is to go on. */
    method Advance(target: int) returns (d: int)
      requires Valid() && target <= NO_MORE_DOCS
      modifies this
      ensures Valid() && d == doc
      ensures 0 <= old(doc) && target <= old(doc) ==> d == old(doc)
      ensures old(doc) == NO_MORE_DOCS ==> d == NO_MORE_DOCS
      ensures old(doc) < NO_MORE_DOCS ==>
                (FirstMatch(lists, 1, Later(old(doc) + 1, target), d) <==> target > old(doc) || old(doc) == -1)
    {
      hide OrderedFrom;
      if |subScorers| == 0 {
        if doc != NO_MORE_DOCS { RootIsNext(Later(doc + 1, target)); }
        doc := NO_MORE_DOCS;
        return doc;
      }
      ghost var lo := if target > doc then target else if doc == -1 then 0 else doc;
      StandingLater(if doc == -1 then 0 else doc, lo, doc);
      SkipFrom(target, doc, lo);
      d := doc;
    }

    /** The root skips while it stands before the target. */
    method SkipFrom(target: int, ghost hi: int, ghost lo: int)
      requires -1 <= hi < NO_MORE_DOCS && target <= NO_MORE_DOCS && 0 <= lo && hi <= lo <= NO_MORE_DOCS
      requires subScorers != [] && OrderedFrom(subScorers, 0) && Standing(lo, hi)
      requires target > hi ==> lo == target
      requires target <= hi ==> lo == if hi == -1 then 0 else hi
      modifies this
      ensures Valid() && FirstMatch(lists, 1, lo, doc)
      ensures 0 <= hi && target <= hi && old(subScorers[0].Doc()) == hi ==> doc == hi
    {
      hide FirstMatch, OrderedFrom, Remaining, Standing;
      while subScorers[0].Doc() < target
        invariant subScorers != [] && OrderedFrom(subScorers, 0) && Standing(lo, hi)
        invariant target <= hi ==> subScorers == old(subScorers)
        decreases Remaining(subScorers)
      {
        Pending(lo, hi);
        var c := subScorers[0];
        MoveRoot(Seek(c.list, c.pos, target), lo, hi);
        if |subScorers| == 0 {
          NoneStanding(lo, hi);
          RootIsNext(lo);
          doc := NO_MORE_DOCS;
          NoneStanding(lo, hi);
          return;
        }
      }
      AllAtRoot(lo, hi);
      RootIsNext(lo);
      doc := subScorers[0].Doc();
    }

    /** Adds up, from `root` down, what stands on the document. */
    method ScoreAll(root: nat, d: int, sum: real, max: real) returns (sum': real, max': real)
      requires forall i :: 0 <= i < |subScorers| ==> 0 <= subScorers[i].pos < |subScorers[i].list|
      ensures var v := Visited(subScorers, root, d);
        && sum' == sum + SumIn(subScorers, v, |subScorers|)
        && Some(max') == Better(Some(max), BestIn(subScorers, v, |subScorers|))
      decreases |subScorers| - root
    {
      sum', max' := sum, max;
      if root < |subScorers| && subScorers[root].Doc() == d {
        VisitedIn(subScorers, root, d);
        var sub := subScorers[root].list[subScorers[root].pos].score;
        sum', max' := ScoreAll(2 * root + 1, d, sum + sub, Max(max, sub));
        sum', max' := ScoreAll(2 * root + 2, d, sum', max');
      } else {
        NoneIn(subScorers, |subScorers|);
      }
    }

    /** The greatest score, and the tie breaker's share of the others. */
    method Score() returns (score: real)
      requires Valid() && 0 <= doc < NO_MORE_DOCS
      ensures BestAt(lists, doc).Some?
      ensures score == TieBroken(SumAt(lists, doc), BestAt(lists, doc).value, tieBreakerMultiplier)
    {
      var first := subScorers[0].list[subScorers[0].pos].score;
      var sum, max := ScoreAll(1, doc, first, first);
      sum, max := ScoreAll(2, doc, sum, max);
      VisitedIn(subScorers, 0, doc);
      OnDocument();
      score := TieBroken(sum, max, tieBreakerMultiplier);
    }

    /** What the walk enters is what the lists hold of the document. */
    lemma OnDocument()
      requires Valid() && 0 <= doc < NO_MORE_DOCS
      ensures SumIn(subScorers, Visited(subScorers, 0, doc), |subScorers|) == SumAt(lists, doc)
      ensures BestIn(subScorers, Visited(subScorers, 0, doc), |subScorers|) == BestAt(lists, doc)
    {
      var v := Visited(subScorers, 0, doc);
      forall i | 0 <= i < |subScorers| ensures i in v <==> subScorers[i].Doc() == doc { WalkIsExact(subScorers, i); }
      PlacesAreLists(subScorers, v, doc, doc, |subScorers|);
      assert Lists(subScorers)[..|subScorers|] == Lists(subScorers);
      forall i | 0 <= i < |gone| ensures At(gone[i], doc).None? { AtAbsent(gone[i], doc); }
      BestNone(Lists(subScorers), gone, doc);
      Reordered(Lists(subScorers) + gone, lists, doc);
      BestReordered(Lists(subScorers) + gone, lists, doc);
    }
  }

  function TieBroken(sum: real, max: real, tieBreakerMultiplier: real): real {
    max + (sum - max) * tieBreakerMultiplier
  }

  lemma {:induction false} SomeMatch(lists: seq<PostingList>, i: nat, d: int)
    requires i < |lists| && At(lists[i], d).Some?
    ensures Matchers(lists, d) >= 1
  {
    if i < |lists| - 1 { SomeMatch(lists[..|lists| - 1], i, d); }
  }

  lemma RootFree(h: seq<Cursor>, c: Cursor)
    requires h != [] && OrderedFrom(h, 0)
    ensures OrderedFrom(h[0 := c], 1) && OrderedFrom(h, 1)
  {
  }

  /** The used-up list moves from the heap to those that are gone. */
  lemma UsedUp(h: seq<Cursor>, gone: seq<PostingList>)
    requires h != []
    ensures multiset(Lists(h[1..]) + (gone + [h[0].list])) == multiset(Lists(h) + gone)
  {
    assert Lists(h) == [h[0].list] + Lists(h[1..]);
    assert multiset(Lists(h) + gone) == multiset{h[0].list} + multiset(Lists(h[1..])) + multiset(gone);
  }

  lemma {:induction false} LeftOver(h: seq<Cursor>)
    requires forall i :: 0 <= i < |h| ==> 0 <= h[i].pos < |h[i].list|
    ensures Remaining(h) >= 0
  {
    if h != [] { LeftOver(h[..|h| - 1]); }
  }

  lemma {:induction false} RemainingWithout(h: seq<Cursor>, i: nat)
    requires i < |h|
    ensures Remaining(h) == Remaining(h[..i] + h[i + 1..]) + (|h[i].list| - h[i].pos)
  {
    var n := |h| - 1;
    var rest := h[..i] + h[i + 1..];
    if i < n {
      RemainingWithout(h[..n], i);
      assert rest[..n - 1] == h[..n][..i] + h[..n][i + 1..];
    } else {
      assert rest == h[..n];
    }
  }

  lemma {:induction false} RemainingReordered(a: seq<Cursor>, b: seq<Cursor>)
    requires multiset(a) == multiset(b)
    ensures Remaining(a) == Remaining(b)
    decreases |a|
  {
    if a == [] {
      assert |multiset(b)| == 0;
    } else {
      var i := InOther(a, b);
      RestContents(a, b, i);
      RemainingReordered(a[..|a| - 1], b[..i] + b[i + 1..]);
      RemainingWithout(b, i);
    }
  }

  lemma Loose(h: seq<Cursor>, root: nat)
    requires OrderedFrom(h, root + 1)
    ensures OrderedBut(h, root, root)
  {
  }

  lemma Settled(h: seq<Cursor>, root: nat, i: nat)
    requires OrderedBut(h, root, i) && i < |h|
    requires 2 * i + 1 < |h| ==> h[i].Doc() <= h[2 * i + 1].Doc()
    requires 2 * i + 2 < |h| ==> h[i].Doc() <= h[2 * i + 2].Doc()
    ensures OrderedFrom(h, root)
  {
    forall k | 0 < k < |h| && Parent(k) == i
      ensures h[i].Doc() <= h[k].Doc()
    {
      assert k == 2 * i + 1 || k == 2 * i + 2;
    }
    SinkDone(h, root, i);
  }

  lemma LastFirst(h: seq<Cursor>)
    requires |h| > 1 && OrderedFrom(h, 1)
    ensures var g := h[..|h| - 1][0 := h[|h| - 1]]; multiset(g) == multiset(h[1..]) && OrderedFrom(g, 1)
  {
    var n := |h| - 1;
    assert h[..n][0 := h[n]] == [h[n]] + h[1..n] && h[1..] == h[1..n] + [h[n]];
  }
}
