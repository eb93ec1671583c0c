/**
 ScorerDocQueue: a heap of the iterators that still have postings, least document on top.
 */
module ScorerQueues {
  import opened Postings

  datatype Heaped = Heaped(scorer: nat, doc: int)

  /** The contents of a stretch. */
  function Contents<T>(h: seq<T>, lo: nat, hi: nat): multiset<T>
    requires lo <= hi <= |h|
  {
    multiset(h[lo..hi])
  }

  /** Swapping two elements of a stretch keeps its contents. */
  lemma SwapKeeps<T>(h: seq<T>, lo: nat, hi: nat, i: nat, j: nat)
    requires lo <= i < hi <= |h| && lo <= j < hi
    ensures Contents(Swapped(h, i, j), lo, hi) == Contents(h, lo, hi)
  {
    var s := h[lo..hi];
    assert Swapped(h, i, j)[lo..hi] == s[i - lo := s[j - lo]][j - lo := s[i - lo]];
  }

  /** 1-based: a parent is never beyond its children, except perhaps at `hole`. */
  ghost predicate OrderedBut(h: seq<Heaped>, size: nat, hole: nat) {
    && size < |h|
    && (forall k :: 2 <= k <= size && k / 2 != hole ==> h[k / 2].doc <= h[k].doc)
    && (hole >= 2 ==> forall k :: 2 <= k <= size && k / 2 == hole ==> h[hole / 2].doc <= h[k].doc)
  }

  /** The hole may also be out of order with its parent. */
  ghost predicate OrderedAbove(h: seq<Heaped>, size: nat, hole: nat) {
    && size < |h|
    && (forall k :: 2 <= k <= size && k != hole ==> h[k / 2].doc <= h[k].doc)
    && (hole >= 2 ==> forall k :: 2 <= k <= size && k / 2 == hole ==> h[hole / 2].doc <= h[k].doc)
  }

  ghost predicate HeapOrdered(h: seq<Heaped>, size: nat) {
    size < |h| && forall k :: 2 <= k <= size ==> h[k / 2].doc <= h[k].doc
  }

  lemma {:induction false} RootLeast(h: seq<Heaped>, size: nat, k: nat)
    requires HeapOrdered(h, size) && 1 <= k <= size
    ensures h[1].doc <= h[k].doc
    decreases k
  {
    if k > 1 { RootLeast(h, size, k / 2); }
  }

  /** `j` is the child of `i` to compare with: the first, unless there is a second one before it. */
  predicate LeastChild(h: seq<Heaped>, size: nat, i: nat, j: nat) {
    && size < |h| && (j == 2 * i || j == 2 * i + 1) && (j == 2 * i + 1 ==> j <= size)
    && (j <= size ==> h[j].doc <= h[2 * i].doc && (2 * i + 1 <= size ==> h[j].doc <= h[2 * i + 1].doc))
  }

  /** The smaller child moves up. */
  lemma SiftStep(h: seq<Heaped>, size: nat, i: nat, j: nat)
    requires 1 <= i && size < |h| && OrderedBut(h, size, i) && LeastChild(h, size, i, j) && j <= size
    requires h[j].doc < h[i].doc
    ensures OrderedBut(Swapped(h, i, j), size, j)
  {
    var g := Swapped(h, i, j);
    forall k | 2 <= k <= size && k / 2 != j ensures g[k / 2].doc <= g[k].doc {
      if k != i && k != j && k / 2 != i { assert g[k] == h[k] && g[k / 2] == h[k / 2]; }
    }
    forall k | 2 <= k <= size && k / 2 == j ensures g[j / 2].doc <= g[k].doc {
      assert g[k] == h[k] && h[k / 2].doc <= h[k].doc;
    }
  }

  /** The parent moves down. */
  lemma LiftStep(h: seq<Heaped>, size: nat, i: nat)
    requires 2 <= i <= size < |h| && OrderedAbove(h, size, i) && h[i].doc < h[i / 2].doc
    ensures OrderedAbove(Swapped(h, i, i / 2), size, i / 2)
  {
    var j := i / 2;
    var g := Swapped(h, i, j);
    forall k | 2 <= k <= size && k != j ensures g[k / 2].doc <= g[k].doc {
      if k != i && k / 2 != i && k / 2 != j { assert g[k] == h[k] && g[k / 2] == h[k / 2]; }
    }
    if j >= 2 {
      forall k | 2 <= k <= size && k / 2 == j ensures g[j / 2].doc <= g[k].doc {
        assert h[j / 2].doc <= h[j].doc;
        if k != i { assert h[k / 2].doc <= h[k].doc; }
      }
    }
  }

  predicate PositionsOk(lists: seq<PostingList>, pos: seq<int>) {
    |pos| == |lists| && AllOrdered(lists) && forall i :: 0 <= i < |pos| ==> -1 <= pos[i] <= |lists[i]|
  }

  predicate Live(lists: seq<PostingList>, pos: seq<int>, s: nat)
    requires PositionsOk(lists, pos)
  {
    s < |lists| && 0 <= pos[s] < |lists[s]|
  }

  /** How often an entry is in the queue: once for each iterator that stands on a document. */
  function Expected(lists: seq<PostingList>, pos: seq<int>, e: Heaped): nat
    requires PositionsOk(lists, pos)
  {
    if Live(lists, pos, e.scorer) && e.doc == lists[e.scorer][pos[e.scorer]].doc then 1 else 0
  }

  ghost predicate Holds(m: multiset<Heaped>, lists: seq<PostingList>, pos: seq<int>)
    requires PositionsOk(lists, pos)
  {
    forall e :: m[e] == Expected(lists, pos, e)
  }

  function Entry(lists: seq<PostingList>, pos: seq<int>, s: nat): Heaped
    requires PositionsOk(lists, pos) && Live(lists, pos, s)
  {
    Heaped(s, lists[s][pos[s]].doc)
  }

  /** An iterator that moves on trades its entry for a new one, or gives it up. */
  lemma HoldsMove(m: multiset<Heaped>, lists: seq<PostingList>, pos: seq<int>, s: nat, q: int)
    requires PositionsOk(lists, pos) && s < |lists| && 0 <= q <= |lists[s]| && Holds(m, lists, pos)
    ensures PositionsOk(lists, pos[s := q])
    ensures var kept := if Live(lists, pos, s) then m - multiset{Entry(lists, pos, s)} else m;
      Holds(if Live(lists, pos[s := q], s) then kept + multiset{Entry(lists, pos[s := q], s)}
          else kept, lists, pos[s := q])
  {
  }

  lemma TopMoved(m: multiset<Heaped>, m': multiset<Heaped>, lists: seq<PostingList>, pos: seq<int>, s: nat, q: int,
                 more: bool)
    requires PositionsOk(lists, pos) && Holds(m, lists, pos) && Live(lists, pos, s) && 0 <= q <= |lists[s]|
    requires more <==> DocAt(lists[s], q) != NO_MORE_DOCS
    requires m' == m - multiset{Entry(lists, pos, s)} + if more then multiset{Heaped(s, DocAt(lists[s], q))}
               else multiset{}
    ensures PositionsOk(lists, pos[s := q]) && Holds(m', lists, pos[s := q]) && (more <==> q < |lists[s]|)
  {
    HoldsMove(m, lists, pos, s, q);
  }

  lemma PutContents(h: seq<Heaped>, n: nat, e: Heaped)
    requires 1 <= n < |h|
    ensures Contents(h[n := e], 1, n + 1) == Contents(h, 1, n) + multiset{e}
  {
    assert h[n := e][1..n + 1] == h[1..n] + [e];
  }

  lemma PutOrdered(h: seq<Heaped>, n: nat, e: Heaped)
    requires 1 <= n < |h| && HeapOrdered(h, n - 1)
    ensures OrderedAbove(h[n := e], n, n)
  {
  }

  lemma TopReplaced(h: seq<Heaped>, n: nat, e: Heaped)
    requires 1 <= n < |h|
    ensures Contents(h[1 := e], 1, n + 1) == Contents(h, 1, n + 1) - multiset{h[1]} + multiset{e}
  {
    assert h[1..n + 1] == [h[1]] + h[2..n + 1];
    assert h[1 := e][1..n + 1] == [e] + h[2..n + 1];
  }

  lemma TopDropped(h: seq<Heaped>, n: nat)
    requires 1 <= n < |h|
    ensures Contents(h[1 := h[n]], 1, n) == Contents(h, 1, n + 1) - multiset{h[1]}
  {
    assert h[1..n + 1] == [h[1]] + h[2..n + 1];
    if n > 1 {
      assert h[1 := h[n]][1..n] == [h[n]] + h[2..n];
      assert h[2..n + 1] == h[2..n] + [h[n]];
    }
  }

  class ScorerDocQueue {
    const lists: seq<PostingList>
    var pos: seq<int>
    const heap: array<Heaped>
    var size: nat

    ghost function Entries(): multiset<Heaped>
      reads this, heap
      requires size < heap.Length
    {
      Contents(heap[..], 1, size + 1)
    }

    ghost predicate Valid()
      reads this, heap
    {
      && PositionsOk(lists, pos) && size < heap.Length == |lists| + 1
      && HeapOrdered(heap[..], size) && Holds(Entries(), lists, pos)
    }

    constructor (lists: seq<PostingList>)
      requires AllOrdered(lists)
      ensures Valid() && this.lists == lists && fresh(heap) && size == 0
      ensures pos == seq(|lists|, _ => -1)
    {
      this.lists, pos, size := lists, seq(|lists|, _ => -1), 0;
      heap := new Heaped[|lists| + 1](_ => Heaped(0, 0));
    }

    method UpHeap()
      requires 1 <= size < heap.Length && OrderedAbove(heap[..], size, size)
      modifies heap
      ensures HeapOrdered(heap[..], size) && Entries() == old(Entries())
    {
      hide OrderedAbove, HeapOrdered, Swapped, Contents;
      var i := size;
      var node := heap[i];
      var j := i / 2;
      ghost var h := heap[..];
      ghost var m := Entries();
      while j > 0 && node.doc < heap[j].doc
        invariant 1 <= i <= size && j == i / 2 && |h| == heap.Length
        invariant i < |h| && h[i] == node && forall x :: 0 <= x < |h| && x != i ==> heap[x] == h[x]
        invariant OrderedAbove(h, size, i)
        invariant Contents(h, 1, size + 1) == m
        decreases i
      {
        LiftStep(h, size, i);
        SwapKeeps(h, 1, size + 1, i, j);
        h := Swapped(h, i, j);
        heap[i] := heap[j];
        i := j;
        j := j / 2;
      }
      heap[i] := node;
      assert heap[..] == h;
      Lifted(h, size, i);
    }

    function SmallerChild(i: nat): (j: nat)
      requires 1 <= i && size < heap.Length
      reads this, heap
      ensures (j == 2 * i || j == 2 * i + 1) && (j == 2 * i + 1 ==> j <= size)
      ensures j <= size ==> heap[j].doc <= heap[2 * i].doc && (2 * i + 1 <= size ==> heap[j].doc <= heap[2 * i + 1].doc)
    {
      var j, k := i * 2, i * 2 + 1;
      if k <= size && heap[k].doc < heap[j].doc then k else j
    }

    method DownHeap()
      requires size < heap.Length && 1 < heap.Length && OrderedBut(heap[..], size, 1)
      modifies heap
      ensures HeapOrdered(heap[..], size) && Entries() == old(Entries())
    {
      hide OrderedBut, HeapOrdered, Swapped, Contents, SmallerChild;
      var i := 1;
      var node := heap[i];
      var j := SmallerChild(i);
      ghost var h := heap[..];
      ghost var m := Entries();
      while j <= size && heap[j].doc < node.doc
        invariant 1 <= i < heap.Length == |h| && i < j
        invariant h[i] == node && forall x :: 0 <= x < |h| && x != i ==> heap[x] == h[x]
        invariant OrderedBut(h, size, i)
        invariant LeastChild(h, size, i, j)
        invariant Contents(h, 1, size + 1) == m
        decreases heap.Length - i
      {
        SiftStep(h, size, i, j);
        SwapKeeps(h, 1, size + 1, i, j);
        h := Swapped(h, i, j);
        heap[i] := heap[j];
        i := j;
        j := SmallerChild(i);
      }
      Settled(h, size, i, j);
      heap[i] := node;
      assert heap[..] == h;
    }

    /** The least document on which an iterator stands, and the iterator. */
    lemma Top()
      requires Valid() && size > 0
      ensures Live(lists, pos, heap[1].scorer) && heap[1] == Entry(lists, pos, heap[1].scorer)
      ensures forall s: nat :: Live(lists, pos, s) ==> heap[1].doc <= lists[s][pos[s]].doc
    {
      assert heap[1] == heap[1..size + 1][0] && heap[1] in Entries();
      assert Expected(lists, pos, heap[1]) == Entries()[heap[1]];
      forall s: nat | Live(lists, pos, s) ensures heap[1].doc <= lists[s][pos[s]].doc {
        assert Entries()[Entry(lists, pos, s)] == Expected(lists, pos, Entry(lists, pos, s)) == 1;
        var k :| 0 <= k < size && heap[1..size + 1][k] == Entry(lists, pos, s);
        RootLeast(heap[..], size, k + 1);
      }
    }

    /** nextDoc on an iterator that has not started, and its insertion if it has a posting. */
    method Start(s: nat)
      requires Valid() && s < |lists| && pos[s] == -1 && size < |lists|
      modifies this, heap
      ensures Valid() && pos == old(pos)[s := 0] && size <= old(size) + 1
    {
      hide HeapOrdered, OrderedAbove, Holds, Contents;
      HoldsMove(Entries(), lists, pos, s, 0);
      pos := pos[s := 0];
      if DocAt(lists[s], 0) != NO_MORE_DOCS {
        PutContents(heap[..], size + 1, Heaped(s, DocAt(lists[s], 0)));
        PutOrdered(heap[..], size + 1, Heaped(s, DocAt(lists[s], 0)));
        size := size + 1;
        heap[size] := Heaped(s, DocAt(lists[s], 0));
        assert heap[..] == old(heap[..])[size := Heaped(s, DocAt(lists[s], 0))];
        UpHeap();
      }
    }

    function TopScorer(): (s: nat)
      requires Valid() && size > 0
      reads this, heap
      ensures Live(lists, pos, s) && TopDoc() == lists[s][pos[s]].doc
    {
      Top();
      heap[1].scorer
    }

    function TopDoc(): int
      requires 1 < heap.Length
      reads this, heap
    {
      heap[1].doc
    }

    function TopScore(): real
      requires Valid() && size > 0
      reads this, heap
    {
      lists[TopScorer()][pos[TopScorer()]].score
    }

    /** Replaces the top entry, or drops it in favour of the last one, and sends it down the heap. */
    method CheckAdjustElsePop(cond: bool, s: nat, doc: int)
      requires size > 0 && size < heap.Length && HeapOrdered(heap[..], size) && heap[1].scorer == s
      modifies this`size, heap
      ensures size == (if cond then old(size) else old(size) - 1) && size < heap.Length && HeapOrdered(heap[..], size)
      ensures Entries() == old(Entries()) - multiset{old(heap[1])} + if cond then multiset{Heaped(s, doc)}
                else multiset{}
    {
      hide HeapOrdered, OrderedBut, Contents;
      if cond {
        TopReplaced(heap[..], size, Heaped(s, doc));
        TopFree(heap[..], size, Heaped(s, doc));
        heap[1] := heap[1].(doc := doc);
        assert heap[..] == old(heap[..])[1 := Heaped(s, doc)];
      } else {
        TopDropped(heap[..], size);
        TopFree(heap[..], size, heap[size]);
        heap[1] := heap[size];
        size := size - 1;
        assert heap[..] == old(heap[..])[1 := old(heap[size])];
      }
      DownHeap();
    }

    /** Moves the top iterator to position `q`, and it down the heap, or out of it. */
    method MoveTop(q: int) returns (more: bool)
      requires Valid() && size > 0 && pos[TopScorer()] < q <= |lists[TopScorer()]|
      modifies this, heap
      ensures Valid() && pos == old(pos)[old(TopScorer()) := q]
      ensures more <==> q < |lists[old(TopScorer())]|
      ensures size == if more then old(size) else old(size) - 1
    {
      hide HeapOrdered, Holds, Contents, Expected, OrderedBut;
      Top();
      var s := heap[1].scorer;
      ghost var m, p := Entries(), pos;
      more := DocAt(lists[s], q) != NO_MORE_DOCS;
      CheckAdjustElsePop(more, s, DocAt(lists[s], q));
      TopMoved(m, Entries(), lists, p, s, q, more);
      pos := pos[s := q];
    }

    method TopNextAndAdjustElsePop() returns (more: bool)
      requires Valid() && size > 0
      modifies this, heap
      ensures Valid() && pos == old(pos)[old(TopScorer()) := old(pos[TopScorer()]) + 1]
      ensures size == if more then old(size) else old(size) - 1
    {
      more := MoveTop(pos[TopScorer()] + 1);
    }

    method TopSkipToAndAdjustElsePop(target: int) returns (more: bool)
      requires Valid() && size > 0 && target <= NO_MORE_DOCS
      modifies this, heap
      ensures Valid() && pos == old(pos)[old(TopScorer()) :=
                Seek(lists[old(TopScorer())], old(pos[TopScorer()]), target)]
      ensures size == if more then old(size) else old(size) - 1
    {
      more := MoveTop(Seek(lists[TopScorer()], pos[TopScorer()], target));
    }
  }

  /** Whatever stands on top, the rest of the heap is in order. */
  lemma TopFree(h: seq<Heaped>, size: nat, e: Heaped)
    requires HeapOrdered(h, size) && 1 <= size
    ensures OrderedBut(h[1 := e], size, 1) && OrderedBut(h[1 := e], size - 1, 1)
  {
  }

  lemma Lifted(h: seq<Heaped>, size: nat, i: nat)
    requires 1 <= i <= size && OrderedAbove(h, size, i) && (i >= 2 ==> h[i / 2].doc <= h[i].doc)
    ensures HeapOrdered(h, size)
  {
  }

  lemma Settled(h: seq<Heaped>, size: nat, i: nat, j: nat)
    requires 1 <= i < |h| && size < |h| && OrderedBut(h, size, i) && LeastChild(h, size, i, j)
    requires j <= size ==> h[i].doc <= h[j].doc
    ensures HeapOrdered(h, size)
  {
    forall k | 2 <= k <= size ensures h[k / 2].doc <= h[k].doc {
      if k / 2 == i { assert j <= size; }
    }
  }
}
