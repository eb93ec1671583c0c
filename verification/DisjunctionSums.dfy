/**
 DisjunctionSumScorer: the documents held by at least so many of its lists, found by merging the
 lists through the queue.
 */
module DisjunctionSums {
  import opened Postings
  import opened ScorerQueues

  // ---------- where the iterators stand ----------

  /** What each list has been read of. */
  function Cut(lists: seq<PostingList>, pos: seq<int>): seq<PostingList>
    requires PositionsOk(lists, pos)
  {
    seq(|lists|, i requires 0 <= i < |lists| && PositionsOk(lists, pos) => lists[i][..if pos[i] < 0 then 0 else pos[i]])
  }

  /** All postings before the positions are below `lo`, all others at or beyond `hi`. */
  ghost predicate Split(lists: seq<PostingList>, pos: seq<int>, lo: int, hi: int) {
    && PositionsOk(lists, pos)
    && forall i, p :: 0 <= i < |lists| && 0 <= p < |lists[i]| ==>
         if p < pos[i] then lists[i][p].doc < lo else lists[i][p].doc >= hi
  }

  predicate Started(pos: seq<int>) { forall i :: 0 <= i < |pos| ==> 0 <= pos[i] }

  /** A document at or beyond both bounds is held only by unread postings, one below by read ones. */
  lemma SplitMatches(lists: seq<PostingList>, pos: seq<int>, lo: int, hi: int, d: int)
    requires Split(lists, pos, lo, hi)
    ensures d < hi ==>
              Matchers(Cut(lists, pos), d) == Matchers(lists, d) && SumAt(Cut(lists, pos), d) == SumAt(lists, d)
    ensures lo <= d ==> Matchers(Cut(lists, pos), d) == 0 && SumAt(Cut(lists, pos), d) == 0.0
  {
    var cut := Cut(lists, pos);
    forall i | 0 <= i < |lists|
      ensures d < hi ==> At(cut[i], d) == At(lists[i], d)
      ensures lo <= d ==> At(cut[i], d).None?
    {
      var p := if pos[i] < 0 then 0 else pos[i];
      if d < hi { AtPrefix(lists[i], p, d); }
      AtAbsent(cut[i], d);
      assert forall x :: 0 <= x < |cut[i]| ==> cut[i][x] == lists[i][x];
    }
    if d < hi { SameMatches(cut, lists, d); }
    if lo <= d { NoMatches(cut, d); }
  }

  /** How many iterators stand on a posting. */
  function LiveCount(lists: seq<PostingList>, pos: seq<int>): nat
    requires PositionsOk(lists, pos)
  {
    if lists == [] then 0
    else
      var n := |lists| - 1;
      LiveCount(lists[..n], pos[..n]) + if Live(lists, pos, n) then 1 else 0
  }

  /** The queue holds as many entries as iterators stand on a posting. */
  lemma {:induction false} HeldCount(m: multiset<Heaped>, lists: seq<PostingList>, pos: seq<int>)
    requires PositionsOk(lists, pos) && Holds(m, lists, pos)
    ensures |m| == LiveCount(lists, pos)
    decreases |lists|
  {
    if lists == [] {
      assert forall e :: m[e] == 0;
      assert m == multiset{};
    } else {
      var n := |lists| - 1;
      if Live(lists, pos, n) {
        var e := Entry(lists, pos, n);
        assert m[e] == Expected(lists, pos, e) == 1;
        HoldsShorter(m - multiset{e}, lists, pos);
        HeldCount(m - multiset{e}, lists[..n], pos[..n]);
      } else {
        HoldsShorter(m, lists, pos);
        HeldCount(m, lists[..n], pos[..n]);
      }
    }
  }

  lemma HoldsShorter(m: multiset<Heaped>, lists: seq<PostingList>, pos: seq<int>)
    requires PositionsOk(lists, pos) && lists != []
    requires forall e :: m[e] == if e.scorer == |lists| - 1 then 0 else Expected(lists, pos, e)
    ensures Holds(m, lists[..|lists| - 1], pos[..|lists| - 1])
  {
    var n := |lists| - 1;
    forall e ensures m[e] == Expected(lists[..n], pos[..n], e) {
      assert m[e] == if e.scorer == n then 0 else Expected(lists, pos, e);
    }
  }

  /** No unread document can match more lists than have postings left. */
  lemma {:induction false} MatchersLeft(lists: seq<PostingList>, pos: seq<int>, lo: int, hi: int, d: int)
    requires Split(lists, pos, lo, hi) && Started(pos) && lo <= d
    ensures Matchers(lists, d) <= LiveCount(lists, pos)
    decreases |lists|
  {
    if lists != [] {
      var n := |lists| - 1;
      MatchersLeft(lists[..n], pos[..n], lo, hi, d);
      AtAbsent(lists[n], d);
      if At(lists[n], d).Some? {
        var x :| 0 <= x < |lists[n]| && lists[n][x].doc == d;
        assert x >= pos[n];
      }
    }
  }

  /** The postings still to be read. */
  function Left(lists: seq<PostingList>, pos: seq<int>): nat
    requires PositionsOk(lists, pos)
  {
    if lists == [] then 0
    else
      var n := |lists| - 1;
      Left(lists[..n], pos[..n]) + (|lists[n]| - pos[n])
  }

  lemma {:induction false} LeftMove(lists: seq<PostingList>, pos: seq<int>, s: nat, q: int)
    requires PositionsOk(lists, pos) && s < |lists| && pos[s] <= q <= |lists[s]|
    ensures PositionsOk(lists, pos[s := q]) && Left(lists, pos[s := q]) == Left(lists, pos) - (q - pos[s])
    decreases |lists|
  {
    var n := |lists| - 1;
    if s < n {
      LeftMove(lists[..n], pos[..n], s, q);
      assert pos[s := q][..n] == pos[..n][s := q];
    } else {
      assert pos[s := q][..n] == pos[..n];
    }
  }

  // ---------- reading one document ----------

  /** Reading the posting of document `d` in list `s`. */
  lemma ReadOne(lists: seq<PostingList>, pos: seq<int>, s: nat, d: int)
    requires Split(lists, pos, d + 1, d) && Started(pos) && Live(lists, pos, s) && lists[s][pos[s]].doc == d
    ensures Split(lists, pos[s := pos[s] + 1], d + 1, d)
    ensures Matchers(Cut(lists, pos[s := pos[s] + 1]), d) == Matchers(Cut(lists, pos), d) + 1
    ensures SumAt(Cut(lists, pos[s := pos[s] + 1]), d) == SumAt(Cut(lists, pos), d) + lists[s][pos[s]].score
  {
    var p := pos[s];
    var cut, cut' := Cut(lists, pos), Cut(lists, pos[s := p + 1]);
    assert cut' == cut[s := lists[s][..p + 1]];
    assert lists[s][..p + 1][..p] == lists[s][..p];
    Replaced(cut, s, lists[s][..p + 1], d);
    AtAbsent(cut[s], d);
    assert At(cut[s], d).None?;
  }

  /** When the top of the queue is past `d`, so is every iterator. */
  lemma AllPast(lists: seq<PostingList>, pos: seq<int>, d: int)
    requires Split(lists, pos, d + 1, d)
    requires forall s: nat :: Live(lists, pos, s) ==> lists[s][pos[s]].doc > d
    requires Started(pos)
    ensures Split(lists, pos, d + 1, d + 1)
  {
    forall i, p | 0 <= i < |lists| && 0 <= p < |lists[i]|
      ensures if p < pos[i] then lists[i][p].doc < d + 1 else lists[i][p].doc >= d + 1
    {
      if p >= pos[i] { assert Live(lists, pos, i) && lists[i][pos[i]].doc > d; }
    }
  }

  /** Nothing between the bound and the least unread document matches at all. */
  lemma BelowTop(lists: seq<PostingList>, pos: seq<int>, from: int, d: int)
    requires Split(lists, pos, from, from) && Started(pos)
    requires forall s: nat :: Live(lists, pos, s) ==> d <= lists[s][pos[s]].doc
    requires exists s: nat :: Live(lists, pos, s) && d == lists[s][pos[s]].doc
    ensures from <= d < NO_MORE_DOCS && Split(lists, pos, d + 1, d)
    ensures Matchers(Cut(lists, pos), d) == 0 && SumAt(Cut(lists, pos), d) == 0.0
    ensures forall x :: from <= x < d ==> Matchers(lists, x) == 0
  {
    var s: nat :| Live(lists, pos, s) && d == lists[s][pos[s]].doc;
    forall i, p | 0 <= i < |lists| && 0 <= p < |lists[i]|
      ensures if p < pos[i] then lists[i][p].doc < from else lists[i][p].doc >= d {
      if p >= pos[i] { assert Live(lists, pos, i) && lists[i][pos[i]].doc >= d; }
    }
    assert Split(lists, pos, from, d);
    SplitMatches(lists, pos, from, d, d);
    forall x | from <= x < d ensures Matchers(lists, x) == 0 { SplitMatches(lists, pos, from, d, x); }
  }

  class DisjunctionSumScorer {
    const queue: ScorerDocQueue
    const minimumNrMatchers: nat
    var currentDoc: int
    var nrMatchers: int
    var currentScore: real

    ghost function Lists(): seq<PostingList> { queue.lists }

    ghost predicate Ready()
      reads this, queue, queue.heap
    {
      && queue.Valid() && PositionsOk(Lists(), queue.pos) && Started(queue.pos)
      && minimumNrMatchers >= 1 && |Lists()| >= 2
    }

    /** Between calls everything up to the current document has been read, or too few lists are left. */
    ghost predicate Valid()
      reads this, queue, queue.heap
    {
      && Ready() && -1 <= currentDoc <= NO_MORE_DOCS
      && if currentDoc == NO_MORE_DOCS then queue.size < minimumNrMatchers
         else Split(Lists(), queue.pos, currentDoc + 1, currentDoc + 1)
    }

    /** The score and the count are those of the current document. */
    ghost predicate OnMatch()
      reads this, queue
    {
      && nrMatchers == Matchers(Lists(), currentDoc)
      && currentScore == SumAt(Lists(), currentDoc)
    }

    /** initScorerDocQueue. */
    constructor (lists: seq<PostingList>, minimumNrMatchers: nat)
      requires minimumNrMatchers >= 1 && |lists| >= 2 && AllOrdered(lists)
      ensures Valid() && Lists() == lists && currentDoc == -1 && this.minimumNrMatchers == minimumNrMatchers
      ensures fresh(queue) && fresh(queue.heap)
    {
      var q := new ScorerDocQueue(lists);
      queue, this.minimumNrMatchers, currentDoc, nrMatchers, currentScore := q, minimumNrMatchers, -1, -1, 0.0;
      new;
      for s := 0 to |lists|
        invariant q.Valid() && q.lists == lists && q.size <= s && queue == q && fresh(q) && fresh(q.heap)
        invariant currentDoc == -1 && this.minimumNrMatchers == minimumNrMatchers
        invariant forall i :: 0 <= i < |lists| ==> q.pos[i] == if i < s then 0 else -1
      {
        q.Start(s);
      }
    }

    /** Sums up the least unread document, and the next ones until one matches often enough. */
    method AdvanceAfterCurrent(ghost lo: int) returns (ok: bool)
      requires Ready() && queue.size >= minimumNrMatchers && -1 < lo && Split(Lists(), queue.pos, lo, lo)
      modifies this, queue, queue.heap
      ensures Ready()
      ensures ok ==> FirstMatch(Lists(), minimumNrMatchers, lo, currentDoc) && currentDoc < NO_MORE_DOCS && OnMatch()
      ensures ok ==> Split(Lists(), queue.pos, currentDoc + 1, currentDoc + 1)
      ensures !ok ==> queue.size < minimumNrMatchers && forall x :: lo <= x ==> Matchers(Lists(), x) < minimumNrMatchers
    {
      hide Split, Left, Matchers, SumAt, LiveCount, PositionsOk;
      ghost var from := lo;
      while true
        invariant Ready() && queue.size >= minimumNrMatchers && lo <= from && Split(Lists(), queue.pos, from, from)
        invariant forall x :: lo <= x < from ==> Matchers(Lists(), x) < minimumNrMatchers
        decreases Left(Lists(), queue.pos)
      {
        ghost var before := queue.pos;
        ReadDocument(from);
        assert Left(Lists(), queue.pos) < Left(Lists(), before);
        from := currentDoc + 1;
        if nrMatchers >= minimumNrMatchers {
          return true;
        } else if queue.size < minimumNrMatchers {
          Exhausted(lo, from, from);
          return false;
        }
      }
    }

    /** The inner loop: the least unread document, with the lists that hold it. */
    method ReadDocument(ghost from: int)
      requires Ready() && queue.size >= 1 && -1 < from && Split(Lists(), queue.pos, from, from)
      modifies this, queue, queue.heap
      ensures Ready() && from <= currentDoc < NO_MORE_DOCS && OnMatch()
      ensures Split(Lists(), queue.pos, currentDoc + 1, currentDoc + 1)
      ensures forall x :: from <= x < currentDoc ==> Matchers(Lists(), x) == 0
      ensures Left(Lists(), queue.pos) < Left(Lists(), old(queue.pos))
    {
      hide Split, Left, Matchers, SumAt, Cut, PositionsOk, HeapOrdered, Holds, Started, ScorerDocQueue.TopScore;
      queue.Top();
      BelowTop(Lists(), queue.pos, from, queue.TopDoc());
      currentDoc := queue.TopDoc();
      currentScore := queue.TopScore();
      nrMatchers := 1;
      ghost var d := currentDoc;
      while true
        invariant Ready() && queue.size >= 1 && d == currentDoc == queue.TopDoc() && from <= currentDoc < NO_MORE_DOCS
        invariant Split(Lists(), queue.pos, currentDoc + 1, currentDoc)
        invariant nrMatchers == Matchers(Cut(Lists(), queue.pos), currentDoc) + 1
        invariant currentScore == SumAt(Cut(Lists(), queue.pos), currentDoc) + queue.TopScore()
        invariant Left(Lists(), queue.pos) <= Left(Lists(), old(queue.pos))
        decreases Left(Lists(), queue.pos)
      {
        ReadTop();
        if queue.size == 0 || queue.TopDoc() != currentDoc {
          break;
        }
        currentScore := currentScore + queue.TopScore();
        nrMatchers := nrMatchers + 1;
      }
      NoneLeft();
    }

    /** The top iterator leaves the current document. */
    method ReadTop()
      requires Ready() && queue.size >= 1 && currentDoc == queue.TopDoc()
      requires Split(Lists(), queue.pos, currentDoc + 1, currentDoc)
      modifies queue, queue.heap
      ensures Ready() && Split(Lists(), queue.pos, currentDoc + 1, currentDoc)
      ensures Matchers(Cut(Lists(), queue.pos), currentDoc) == Matchers(Cut(Lists(), old(queue.pos)), currentDoc) + 1
      ensures SumAt(Cut(Lists(), queue.pos), currentDoc) == SumAt(Cut(Lists(), old(queue.pos)), currentDoc)
              + old(queue.TopScore())
      ensures Left(Lists(), queue.pos) < Left(Lists(), old(queue.pos))
    {
      hide Matchers, SumAt, Cut, Left, Split, HeapOrdered, Holds, Contents;
      ghost var s := queue.TopScorer();
      ReadOne(Lists(), queue.pos, s, currentDoc);
      LeftMove(Lists(), queue.pos, s, queue.pos[s] + 1);
      var _ := queue.TopNextAndAdjustElsePop();
    }

    lemma NotEmpty(s: nat)
      requires Ready() && Live(Lists(), queue.pos, s)
      ensures queue.size > 0
    {
      assert queue.Entries()[Entry(Lists(), queue.pos, s)] == 1;
    }

    /** Once the top is past the current document all its matches have been read. */
    lemma NoneLeft()
      requires Ready() && Split(Lists(), queue.pos, currentDoc + 1, currentDoc)
      requires queue.size == 0 || queue.TopDoc() != currentDoc
      ensures Split(Lists(), queue.pos, currentDoc + 1, currentDoc + 1)
      ensures Matchers(Cut(Lists(), queue.pos), currentDoc) == Matchers(Lists(), currentDoc)
      ensures SumAt(Cut(Lists(), queue.pos), currentDoc) == SumAt(Lists(), currentDoc)
    {
      if queue.size == 0 {
        forall s: nat | Live(Lists(), queue.pos, s) ensures false {
          NotEmpty(s);
        }
      } else {
        queue.Top();
        var s := queue.TopScorer();
        assert Lists()[s][queue.pos[s]].doc >= currentDoc;
      }
      AllPast(Lists(), queue.pos, currentDoc);
      SplitMatches(Lists(), queue.pos, currentDoc + 1, currentDoc + 1, currentDoc);
    }

    /** With too few lists left, nothing further can match. */
    lemma Exhausted(lo: int, from: int, hi: int)
      requires Ready() && queue.size < minimumNrMatchers && Split(Lists(), queue.pos, from, hi)
      requires forall x :: lo <= x < from ==> Matchers(Lists(), x) < minimumNrMatchers
      ensures forall x :: lo <= x ==> Matchers(Lists(), x) < minimumNrMatchers
    {
      HeldCount(queue.Entries(), Lists(), queue.pos);
      forall x | from <= x ensures Matchers(Lists(), x) < minimumNrMatchers {
        MatchersLeft(Lists(), queue.pos, from, hi, x);
      }
    }

    /** The next document that matches often enough, with its count and score. */
    method NextDoc() returns (doc: int)
      requires Valid()
      modifies this, queue, queue.heap
      ensures Valid() && doc == currentDoc && (doc < NO_MORE_DOCS ==> OnMatch())
      ensures if old(currentDoc) == NO_MORE_DOCS then doc == NO_MORE_DOCS
              else FirstMatch(Lists(), minimumNrMatchers, old(currentDoc) + 1, doc)
    {
      if queue.size < minimumNrMatchers {
        if currentDoc != NO_MORE_DOCS { Exhausted(currentDoc + 1, currentDoc + 1, currentDoc + 1); }
        currentDoc := NO_MORE_DOCS;
      } else {
        var ok := AdvanceAfterCurrent(currentDoc + 1);
        if !ok { currentDoc := NO_MORE_DOCS; }
      }
      doc := currentDoc;
    }

    /** The lists are skipped to the target before the next document is summed up.  A target that is
        not beyond the current document leaves the scorer where it is: advance then does what its
        contract says, going on to a later document, only if too few lists are left for one. */
    method Advance(target: int) returns (doc: int)
      requires Valid() && target <= NO_MORE_DOCS
      modifies this, queue, queue.heap
      ensures Valid() && doc == currentDoc
      ensures target > old(currentDoc) ==> FirstMatch(Lists(), minimumNrMatchers, target, doc)
      ensures target > old(currentDoc) && doc < NO_MORE_DOCS ==> OnMatch()
      ensures target <= old(currentDoc) ==> doc == if old(queue.size) < minimumNrMatchers then NO_MORE_DOCS
                else old(currentDoc)
      ensures target <= old(currentDoc) ==> nrMatchers == old(nrMatchers) && currentScore == old(currentScore)
      ensures old(currentDoc) < NO_MORE_DOCS ==>
                (FirstMatch(Lists(), minimumNrMatchers, Later(old(currentDoc) + 1, target), doc)
                 <==> target > old(currentDoc) || old(queue.size) < minimumNrMatchers)
    {
      if queue.size < minimumNrMatchers {
        if currentDoc != NO_MORE_DOCS { Exhausted(currentDoc + 1, currentDoc + 1, currentDoc + 1); }
        currentDoc := NO_MORE_DOCS;
        return currentDoc;
      }
      if target <= currentDoc {
        return currentDoc;
      }
      ghost var hi := currentDoc + 1;
      while true
        invariant Ready() && queue.size >= minimumNrMatchers && Split(Lists(), queue.pos, target, hi)
        decreases Left(Lists(), queue.pos)
      {
        if queue.TopDoc() >= target {
          queue.Top();
          ToTarget(Lists(), queue.pos, target, hi);
          var ok := AdvanceAfterCurrent(target);
          if !ok { currentDoc := NO_MORE_DOCS; }
          return currentDoc;
        } else {
          SkipTop(target, hi);
          if queue.size < minimumNrMatchers {
            Exhausted(target, target, hi);
            currentDoc := NO_MORE_DOCS;
            return currentDoc;
          }
        }
      }
    }

    method SkipTop(target: int, ghost hi: int)
      requires Ready() && queue.size >= 1 && queue.TopDoc() < target <= NO_MORE_DOCS
               && Split(Lists(), queue.pos, target, hi)
      modifies queue, queue.heap
      ensures Ready() && Split(Lists(), queue.pos, target, hi)
      ensures Left(Lists(), queue.pos) < Left(Lists(), old(queue.pos))
    {
      hide Split, Left, HeapOrdered, Holds, Contents;
      ghost var s := queue.TopScorer();
      LeftMove(Lists(), queue.pos, s, Seek(Lists()[s], queue.pos[s], target));
      SkipSplit(Lists(), queue.pos, s, target, hi);
      var _ := queue.TopSkipToAndAdjustElsePop(target);
    }

    /** score(collector): every match, in increasing order, with its score. */
    method ScoreAll() returns (hits: seq<Posting>)
      requires Valid() && currentDoc == -1
      modifies this, queue, queue.heap
      ensures hits == Matching(Lists(), minimumNrMatchers, NO_MORE_DOCS)
    {
      hide Matching, Matchers, SumAt, FirstMatch, DisjunctionSumScorer.Valid;
      hits := [];
      MatchingNone(Lists(), minimumNrMatchers);
      var doc := NextDoc();
      MatchingTo(Lists(), minimumNrMatchers, 0, doc);
      while doc != NO_MORE_DOCS
        invariant Valid() && 0 <= doc == currentDoc <= NO_MORE_DOCS && (doc < NO_MORE_DOCS ==> OnMatch())
        invariant doc < NO_MORE_DOCS ==> Matchers(Lists(), doc) >= minimumNrMatchers
        invariant hits == Matching(Lists(), minimumNrMatchers, doc)
        decreases NO_MORE_DOCS - doc
      {
        hits := hits + [Posting(doc, currentScore)];
        MatchingNext(Lists(), minimumNrMatchers, doc);
        var next := NextDoc();
        MatchingTo(Lists(), minimumNrMatchers, doc + 1, next);
        doc := next;
      }
    }
  }

  lemma SkipSplit(lists: seq<PostingList>, pos: seq<int>, s: nat, target: int, hi: int)
    requires Split(lists, pos, target, hi) && Live(lists, pos, s) && lists[s][pos[s]].doc < target
    ensures Split(lists, pos[s := Seek(lists[s], pos[s], target)], target, hi)
  {
  }

  lemma ToTarget(lists: seq<PostingList>, pos: seq<int>, target: int, hi: int)
    requires Split(lists, pos, target, hi) && Started(pos)
    requires forall s: nat :: Live(lists, pos, s) ==> target <= lists[s][pos[s]].doc
    ensures Split(lists, pos, target, target)
  {
    forall i, p | 0 <= i < |lists| && 0 <= p < |lists[i]|
      ensures if p < pos[i] then lists[i][p].doc < target else lists[i][p].doc >= target
    {
      if p >= pos[i] { assert Live(lists, pos, i) && lists[i][pos[i]].doc >= target; }
    }
  }
}
