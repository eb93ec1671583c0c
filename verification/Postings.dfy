/**
 Posting lists, the iterator over one of them, and what a set of lists says about a document.
 Scores are reals.
 */
module Postings {

  datatype Option<+T> = None | Some(value: T)

  datatype Posting = Posting(doc: nat, score: real)

  type PostingList = seq<Posting>

  const NO_MORE_DOCS := 0x7FFF_FFFF

  predicate Ordered(list: PostingList) {
    && (forall i :: 0 <= i < |list| ==> list[i].doc < NO_MORE_DOCS)
    && (forall i, j :: 0 <= i < j < |list| ==> list[i].doc < list[j].doc)
  }

  predicate AllOrdered(lists: seq<PostingList>) { forall i :: 0 <= i < |lists| ==> Ordered(lists[i]) }

  /** The score the list gives to a document, if it holds it. */
  function At(list: PostingList, d: int): Option<real> {
    if list == [] then None
    else if list[|list| - 1].doc == d then Some(list[|list| - 1].score)
    else At(list[..|list| - 1], d)
  }

  lemma {:induction false} AtMember(list: PostingList, i: nat)
    requires Ordered(list) && i < |list|
    ensures At(list, list[i].doc) == Some(list[i].score)
  {
    var n := |list| - 1;
    if i < n { AtMember(list[..n], i); }
  }

  lemma {:induction false} AtAbsent(list: PostingList, d: int)
    ensures At(list, d).Some? <==> exists i :: 0 <= i < |list| && list[i].doc == d
  {
    if list != [] {
      var n := |list| - 1;
      AtAbsent(list[..n], d);
      if list[n].doc != d && At(list[..n], d).Some? {
        var i :| 0 <= i < n && list[..n][i].doc == d;
        assert list[i].doc == d;
      }
    }
  }

  lemma AtSnoc(list: PostingList, p: Posting, d: int)
    ensures At(list + [p], d) == if p.doc == d then Some(p.score) else At(list, d)
  {
    assert (list + [p])[..|list|] == list;
  }

  /** Postings beyond the document do not matter to it. */
  lemma {:induction false} AtPrefix(list: PostingList, p: nat, d: int)
    requires p <= |list| && forall i :: p <= i < |list| ==> list[i].doc != d
    ensures At(list[..p], d) == At(list, d)
    decreases |list|
  {
    if p < |list| {
      var n := |list| - 1;
      AtPrefix(list[..n], p, d);
      assert list[..n][..p] == list[..p];
    } else {
      assert list[..p] == list;
    }
  }

  function Hit(list: PostingList, d: int): nat { if At(list, d).Some? then 1 else 0 }

  function Worth(list: PostingList, d: int): real { match At(list, d) case None => 0.0 case Some(x) => x }

  /** How many of the lists hold the document, and the sum of the scores they give it. */
  function Matchers(lists: seq<PostingList>, d: int): nat {
    if lists == [] then 0 else Matchers(lists[..|lists| - 1], d) + Hit(lists[|lists| - 1], d)
  }

  function SumAt(lists: seq<PostingList>, d: int): real {
    if lists == [] then 0.0 else SumAt(lists[..|lists| - 1], d) + Worth(lists[|lists| - 1], d)
  }

  lemma {:induction false} Replaced(lists: seq<PostingList>, i: nat, list: PostingList, d: int)
    requires i < |lists|
    ensures Matchers(lists[i := list], d) == Matchers(lists, d) - Hit(lists[i], d) + Hit(list, d)
    ensures SumAt(lists[i := list], d) == SumAt(lists, d) - Worth(lists[i], d) + Worth(list, d)
  {
    var n := |lists| - 1;
    if i < n {
      Replaced(lists[..n], i, list, d);
      assert lists[i := list][..n] == lists[..n][i := list];
    } else {
      assert lists[i := list][..n] == lists[..n];
    }
  }

  lemma {:induction false} SameMatches(a: seq<PostingList>, b: seq<PostingList>, d: int)
    requires |a| == |b| && forall i :: 0 <= i < |a| ==> At(a[i], d) == At(b[i], d)
    ensures Matchers(a, d) == Matchers(b, d) && SumAt(a, d) == SumAt(b, d)
  {
    if a != [] { SameMatches(a[..|a| - 1], b[..|b| - 1], d); }
  }

  lemma {:induction false} NoMatches(lists: seq<PostingList>, d: int)
    requires forall i :: 0 <= i < |lists| ==> At(lists[i], d).None?
    ensures Matchers(lists, d) == 0 && SumAt(lists, d) == 0.0
  {
    if lists != [] { NoMatches(lists[..|lists| - 1], d); }
  }

  lemma {:induction false} NoSum(lists: seq<PostingList>, d: int)
    requires Matchers(lists, d) == 0
    ensures SumAt(lists, d) == 0.0
  {
    if lists != [] { NoSum(lists[..|lists| - 1], d); }
  }

  lemma {:induction false} Joined(a: seq<PostingList>, b: seq<PostingList>, d: int)
    ensures Matchers(a + b, d) == Matchers(a, d) + Matchers(b, d) && SumAt(a + b, d) == SumAt(a, d) + SumAt(b, d)
  {
    if b == [] {
      assert a + b == a;
    } else {
      Joined(a, b[..|b| - 1], d);
      assert (a + b)[..|a| + |b| - 1] == a + b[..|b| - 1];
    }
  }

  lemma {:induction false} AllMatch(lists: seq<PostingList>, d: int)
    ensures Matchers(lists, d) <= |lists|
    ensures Matchers(lists, d) == |lists| <==> forall i :: 0 <= i < |lists| ==> At(lists[i], d).Some?
  {
    if lists != [] { AllMatch(lists[..|lists| - 1], d); }
  }

  lemma {:induction false} Without(lists: seq<PostingList>, i: nat, d: int)
    requires i < |lists|
    ensures Matchers(lists, d) == Matchers(lists[..i] + lists[i + 1..], d) + Hit(lists[i], d)
    ensures SumAt(lists, d) == SumAt(lists[..i] + lists[i + 1..], d) + Worth(lists[i], d)
  {
    var n := |lists| - 1;
    var rest := lists[..i] + lists[i + 1..];
    if i < n {
      Without(lists[..n], i, d);
      assert rest[..n - 1] == lists[..n][..i] + lists[..n][i + 1..];
    } else {
      assert rest == lists[..n];
    }
  }

  lemma RestContents<T>(a: seq<T>, b: seq<T>, i: nat)
    requires a != [] && multiset(a) == multiset(b) && i < |b| && b[i] == a[|a| - 1]
    ensures multiset(a[..|a| - 1]) == multiset(b[..i] + b[i + 1..])
  {
    assert a == a[..|a| - 1] + [a[|a| - 1]];
    assert b == b[..i] + [b[i]] + b[i + 1..];
    assert multiset(b[..i] + b[i + 1..]) == multiset(b) - multiset{b[i]};
    assert multiset(a[..|a| - 1]) == multiset(a) - multiset{a[|a| - 1]};
  }

  lemma InOther<T>(a: seq<T>, b: seq<T>) returns (i: nat)
    requires a != [] && multiset(a) == multiset(b)
    ensures i < |b| && b[i] == a[|a| - 1]
  {
    assert a[|a| - 1] in multiset(b);
    i :| 0 <= i < |b| && b[i] == a[|a| - 1];
  }

  /** The order of the lists does not matter. */
  lemma {:induction false} Reordered(a: seq<PostingList>, b: seq<PostingList>, d: int)
    requires multiset(a) == multiset(b)
    ensures Matchers(a, d) == Matchers(b, d) && SumAt(a, d) == SumAt(b, d)
    decreases |a|
  {
    if a == [] {
      assert |multiset(b)| == 0;
    } else {
      var i := InOther(a, b);
      RestContents(a, b, i);
      Reordered(a[..|a| - 1], b[..i] + b[i + 1..], d);
      Without(b, i, d);
    }
  }

  /** `d` is the first document from `lo` on that at least `min` lists hold, or there is none. */
  ghost predicate FirstMatch(lists: seq<PostingList>, min: int, lo: int, d: int) {
    && (forall x :: lo <= x < d ==> Matchers(lists, x) < min)
    && lo <= d <= NO_MORE_DOCS && (d < NO_MORE_DOCS ==> Matchers(lists, d) >= min)
  }

  function Later(a: int, b: int): int { if a < b then b else a }

  /** The documents below `n` that at least `min` lists hold, with the sum of their scores. */
  function Matching(lists: seq<PostingList>, min: nat, n: nat): seq<Posting> {
    if n == 0 then []
    else Matching(lists, min, n - 1) + if Matchers(lists, n - 1) >= min then [Posting(n - 1, SumAt(lists, n - 1))]
        else []
  }

  lemma MatchingTo(lists: seq<PostingList>, min: nat, m: nat, n: int)
    requires FirstMatch(lists, min, m, n)
    ensures m <= n <= NO_MORE_DOCS && Matching(lists, min, n) == Matching(lists, min, m)
    ensures n < NO_MORE_DOCS ==> Matchers(lists, n) >= min
  {
    MatchingGap(lists, min, m, n);
  }

  lemma MatchingNone(lists: seq<PostingList>, min: nat)
    ensures Matching(lists, min, 0) == []
  {
  }

  lemma MatchingNext(lists: seq<PostingList>, min: nat, n: nat)
    requires Matchers(lists, n) >= min
    ensures Matching(lists, min, n + 1) == Matching(lists, min, n) + [Posting(n, SumAt(lists, n))]
  {
  }

  lemma {:induction false} MatchingGap(lists: seq<PostingList>, min: nat, m: nat, n: nat)
    requires m <= n && forall x :: m <= x < n ==> Matchers(lists, x) < min
    ensures Matching(lists, min, n) == Matching(lists, min, m)
  {
    if m < n { MatchingGap(lists, min, m, n - 1); }
  }

  // ---------- sequences ----------

  function Swapped<T>(h: seq<T>, i: nat, j: nat): (g: seq<T>)
    requires i < |h| && j < |h|
    ensures |g| == |h| && g[i] == h[j] && g[j] == h[i] && forall k :: 0 <= k < |h| && k != i && k != j ==> g[k] == h[k]
  {
    h[i := h[j]][j := h[i]]
  }

  lemma SwappedContents<T>(h: seq<T>, i: nat, j: nat)
    requires i < |h| && j < |h|
    ensures multiset(Swapped(h, i, j)) == multiset(h)
  {
  }

  // ---------- one iterator ----------

  /** docID() of an iterator at a position: -1 before the first posting. */
  function DocAt(list: PostingList, pos: int): int {
    if pos < 0 then -1 else if pos < |list| then list[pos].doc else NO_MORE_DOCS
  }

  /** Where advance stops: the first position beyond the current one with a document at or beyond
      the target. */
  function Seek(list: PostingList, pos: int, target: int): (p: int)
    requires -1 <= pos < |list|
    ensures pos < p <= |list|
    ensures forall i :: pos < i < p ==> list[i].doc < target
    ensures p < |list| ==> list[p].doc >= target
    decreases |list| - pos
  {
    if pos + 1 == |list| || list[pos + 1].doc >= target then pos + 1 else Seek(list, pos + 1, target)
  }

  /** The documented behaviour of an iterator over a list. */
  class PostingsScorer {
    const list: PostingList
    var pos: int

    ghost predicate Valid()
      reads this
    {
      Ordered(list) && -1 <= pos <= |list|
    }

    constructor (list: PostingList)
      requires Ordered(list)
      ensures Valid() && this.list == list && pos == -1
    {
      this.list, pos := list, -1;
    }

    function DocID(): int
      reads this
    {
      DocAt(list, pos)
    }

    method NextDoc() returns (doc: int)
      requires Valid() && pos < |list|
      modifies this
      ensures Valid() && pos == old(pos) + 1 && doc == DocID()
    {
      pos := pos + 1;
      doc := DocID();
    }

    /** As if written: next documents until one at or beyond the target. */
    method Advance(target: int) returns (doc: int)
      requires Valid() && pos < |list| && target <= NO_MORE_DOCS
      modifies this
      ensures Valid() && pos == Seek(list, old(pos), target) && doc == DocID() >= target
    {
      doc := NextDoc();
      while doc < target
        invariant Valid() && old(pos) < pos && doc == DocID()
        invariant Seek(list, old(pos), target) == if doc < target then Seek(list, pos, target) else pos
        decreases |list| - pos
      {
        doc := NextDoc();
      }
    }

    function Score(): real
      requires 0 <= pos < |list|
      reads this
    {
      list[pos].score
    }
  }
}
