/**
 ConjunctionScorer: the documents that all of its lists hold, found by letting the first list
 leap to the last until they agree.
 */
module Conjunctions {
  import opened Postings

  /** An iterator and where it stands. */
  datatype Cursor = Cursor(list: PostingList, pos: int) {
    predicate Ok() { Ordered(list) && 0 <= pos <= |list| }

    function Doc(): int { DocAt(list, pos) }
  }

  predicate AllOk(s: seq<Cursor>) { forall i :: 0 <= i < |s| ==> s[i].Ok() }

  function Lists(s: seq<Cursor>): seq<PostingList> { seq(|s|, i requires 0 <= i < |s| => s[i].list) }

  predicate ByDoc(s: seq<Cursor>) { forall i, j :: 0 <= i < j < |s| ==> s[i].Doc() <= s[j].Doc() }

  /** In order when read from `first` on, wrapping around; `doc` is the greatest. */
  ghost predicate Rotated(s: seq<Cursor>, first: nat, doc: int) {
    && first < |s|
    && (forall i, j :: first <= i < j < |s| ==> s[i].Doc() <= s[j].Doc())
    && (forall i, j :: 0 <= i < j < first ==> s[i].Doc() <= s[j].Doc())
    && (forall i, j :: first <= i < |s| && 0 <= j < first ==> s[i].Doc() <= s[j].Doc())
    && (forall i :: 0 <= i < |s| ==> s[i].Doc() <= doc)
    && doc == if first == 0 then s[|s| - 1].Doc() else s[first - 1].Doc()
  }

  /** A document that a list leapt over is in no common match. */
  lemma Leapt(s: seq<Cursor>, i: nat, target: int, x: int)
    requires AllOk(s) && i < |s| && s[i].pos < |s[i].list|
             && s[i].Doc() < target <= x < DocAt(s[i].list, Seek(s[i].list, s[i].pos, target))
    ensures Matchers(Lists(s), x) < |s|
  {
    Absent(s, i, x);
  }

  lemma Absent(s: seq<Cursor>, i: nat, x: int)
    requires AllOk(s) && i < |s| && forall k :: 0 <= k < |s[i].list| ==> s[i].list[k].doc != x
    ensures Matchers(Lists(s), x) < |s|
  {
    AtAbsent(s[i].list, x);
    AllMatch(Lists(s), x);
    assert At(Lists(s)[i], x).None?;
  }

  /** Standing on one document, the iterators show a common match. */
  lemma Agreed(s: seq<Cursor>, d: int)
    requires AllOk(s) && d < NO_MORE_DOCS && forall i :: 0 <= i < |s| ==> s[i].Doc() == d
    ensures Matchers(Lists(s), d) == |s|
  {
    forall i | 0 <= i < |s| ensures At(Lists(s)[i], d).Some? { AtMember(s[i].list, s[i].pos); }
    AllMatch(Lists(s), d);
  }

  function Remaining(s: seq<Cursor>): int {
    if s == [] then 0 else Remaining(s[..|s| - 1]) + (|s[|s| - 1].list| - s[|s| - 1].pos)
  }

  lemma {:induction false} RemainingMove(s: seq<Cursor>, i: nat, q: int)
    requires i < |s|
    ensures Remaining(s[i := Cursor(s[i].list, q)]) == Remaining(s) - (q - s[i].pos)
  {
    var n := |s| - 1;
    if i < n {
      RemainingMove(s[..n], i, q);
      assert s[i := Cursor(s[i].list, q)][..n] == s[..n][i := Cursor(s[i].list, q)];
    } else {
      assert s[i := Cursor(s[i].list, q)][..n] == s[..n];
    }
  }

  lemma {:induction false} RemainingNat(s: seq<Cursor>)
    requires AllOk(s)
    ensures Remaining(s) >= 0
  {
    if s != [] { RemainingNat(s[..|s| - 1]); }
  }

  // ---------- sorting ----------

  function Insert(s: seq<Cursor>, c: Cursor): (r: seq<Cursor>)
    ensures multiset(r) == multiset(s) + multiset{c} && |r| == |s| + 1
    ensures ByDoc(s) ==> ByDoc(r)
  {
    if s == [] || s[|s| - 1].Doc() <= c.Doc() then s + [c]
    else
      var n := |s| - 1;
      assert s == s[..n] + [s[n]];
      var r := Insert(s[..n], c) + [s[n]];
      assert ByDoc(s) ==> ByDoc(r) by { InsertedLast(Insert(s[..n], c), s, c); }
      r
  }

  lemma InsertedLast(r: seq<Cursor>, s: seq<Cursor>, c: Cursor)
    requires s != [] && c.Doc() < s[|s| - 1].Doc() && multiset(r) == multiset(s[..|s| - 1]) + multiset{c}
    ensures ByDoc(s) ==> forall i :: 0 <= i < |r| ==> r[i].Doc() <= s[|s| - 1].Doc()
  {
    if ByDoc(s) {
      forall i | 0 <= i < |r| ensures r[i].Doc() <= s[|s| - 1].Doc() {
        assert r[i] in multiset(r);
        if r[i] != c { assert r[i] in s[..|s| - 1]; }
      }
    }
  }

  /** Any sorting by document. */
  function Sort(s: seq<Cursor>): (r: seq<Cursor>)
    ensures multiset(r) == multiset(s) && ByDoc(r) && |r| == |s|
  {
    if s == [] then []
    else
      assert s == s[..|s| - 1] + [s[|s| - 1]];
      Insert(Sort(s[..|s| - 1]), s[|s| - 1])
  }

  /** All but the last, with `i` from either end exchanged. */
  ghost predicate Turned(s: seq<Cursor>, t: seq<Cursor>, i: nat) {
    && |t| == |s| > 0 && 2 * i <= |s| - 1
    && forall k :: 0 <= k < |s| ==> t[k] == s[if k < i || |s| - 1 - i <= k < |s| - 1 then |s| - 2 - k else k]
  }

  lemma TurnedStart(s: seq<Cursor>)
    requires s != []
    ensures Turned(s, s, 0)
  {
  }

  lemma TurnedStep(s: seq<Cursor>, t: seq<Cursor>, i: nat)
    requires Turned(s, t, i) && i < (|s| - 1) / 2
    ensures |t| == |s| && i < |s| - 2 - i
    ensures var t' := Swapped(t, i, |s| - 2 - i); Turned(s, t', i + 1) && multiset(t') == multiset(t)
  {
    SwappedContents(t, i, |s| - 2 - i);
    hide Swapped;
  }

  lemma TurnedDone(s: seq<Cursor>, t: seq<Cursor>, i: nat)
    requires Turned(s, t, i) && i == (|s| - 1) / 2
    ensures |t| == |s| && t[|s| - 1] == s[|s| - 1] && forall k :: 0 <= k < |s| - 1 ==> t[k] == s[|s| - 2 - k]
  {
  }

  class ConjunctionScorer {
    ghost const lists: seq<PostingList>
    var scorers: seq<Cursor>
    var lastDoc: int

    ghost predicate Same()
      reads this
    {
      scorers != [] && AllOk(scorers) && |scorers| == |lists| && multiset(Lists(scorers)) == multiset(lists)
    }

    /** All iterators stand on the next document to return, or on the one last returned. */
    ghost predicate Valid()
      reads this
    {
      && -1 <= lastDoc <= NO_MORE_DOCS
      && (lastDoc != NO_MORE_DOCS ==>
            && Same() && scorers[0].Doc() < NO_MORE_DOCS
            && (forall i :: 0 <= i < |scorers| ==> scorers[i].Doc() == scorers[0].Doc())
            && (if lastDoc == -1 then FirstMatch(lists, |lists|, 0, scorers[0].Doc()) else scorers[0].Doc() == lastDoc))
    }

    constructor (lists: seq<PostingList>)
      requires lists != [] && AllOrdered(lists)
      ensures Valid() && this.lists == lists && (lastDoc == -1 || lastDoc == NO_MORE_DOCS)
      ensures lastDoc == NO_MORE_DOCS ==> FirstMatch(lists, |lists|, 0, NO_MORE_DOCS)
    {
      this.lists := lists;
      scorers := [];
      lastDoc := -1;
      new;
      for i := 0 to |lists|
        invariant this.lists == lists && lastDoc == -1 && Lists(scorers) == lists[..i] && AllOk(scorers)
        invariant forall j :: 0 <= j < i ==> scorers[j].pos == 0 && scorers[j].Doc() != NO_MORE_DOCS
      {
        scorers := scorers + [Cursor(lists[i], 0)];
        if scorers[i].Doc() == NO_MORE_DOCS {
          EmptyList(lists, i);
          lastDoc := NO_MORE_DOCS;
          return;
        }
      }
      assert Lists(scorers) == lists && lists[..|lists|] == lists;
      Align();
    }

    /** Sorts the iterators, lets them agree for the first time, and orders them for later skips. */
    method Align()
      requires Same() && lastDoc == -1 && Lists(scorers) == lists
               && forall i :: 0 <= i < |scorers| ==> scorers[i].pos == 0
      modifies this
      ensures Valid() && (lastDoc == -1 || lastDoc == NO_MORE_DOCS)
      ensures lastDoc == NO_MORE_DOCS ==> FirstMatch(lists, |lists|, 0, NO_MORE_DOCS)
    {
      hide FirstMatch;
      SortAll();
      var doc := DoNext(0);
      if doc == NO_MORE_DOCS {
        lastDoc := NO_MORE_DOCS;
        return;
      }
      ghost var agreed := scorers;
      ReverseFront();
      Reorder(agreed, scorers);
      forall i | 0 <= i < |scorers| ensures scorers[i].Doc() == doc { assert scorers[i] in agreed; }
    }

    method SortAll()
      requires Same() && forall i :: 0 <= i < |scorers| ==> scorers[i].pos == 0
      modifies this`scorers
      ensures Same() && ByDoc(scorers) && 0 <= scorers[|scorers| - 1].Doc()
      ensures forall x :: 0 <= x < scorers[|scorers| - 1].Doc() ==> Matchers(lists, x) < |lists|
    {
      ghost var was := scorers;
      Reorder(scorers, Sort(scorers));
      scorers := Sort(scorers);
      assert scorers[|scorers| - 1] in was;
      FirstPosting(scorers);
      forall x | 0 <= x < scorers[|scorers| - 1].Doc() ensures Matchers(lists, x) < |lists| {
        Reordered(Lists(scorers), lists, x);
      }
    }

    /** Reverses all iterators but the last. */
    method ReverseFront()
      requires scorers != []
      modifies this`scorers
      ensures multiset(scorers) == multiset(old(scorers)) && |scorers| == |old(scorers)|
      ensures scorers[|scorers| - 1] == old(scorers)[|scorers| - 1]
      ensures forall i :: 0 <= i < |scorers| - 1 ==> scorers[i] == old(scorers)[|scorers| - 2 - i]
    {
      hide Turned, ByDoc, Swapped;
      var end := |scorers| - 1;
      var max := end / 2;
      TurnedStart(scorers);
      for i := 0 to max
        invariant multiset(scorers) == multiset(old(scorers)) && Turned(old(scorers), scorers, i)
      {
        TurnedStep(old(scorers), scorers, i);
        var idx := end - i - 1;
        scorers := Swapped(scorers, i, idx);
      }
      TurnedDone(old(scorers), scorers, max);
    }

    /** Lets the first iterator leap to the greatest document, in turn, until they agree. */
    method DoNext(ghost lo: int) returns (doc: int)
      requires Same() && ByDoc(scorers) && lo <= scorers[|scorers| - 1].Doc()
      requires forall x :: lo <= x < scorers[|scorers| - 1].Doc() ==> Matchers(lists, x) < |lists|
      modifies this`scorers
      ensures FirstMatch(lists, |lists|, lo, doc)
      ensures doc < NO_MORE_DOCS ==> Same() && forall i :: 0 <= i < |scorers| ==> scorers[i].Doc() == doc
    {
      var first := 0;
      doc := scorers[|scorers| - 1].Doc();
      while scorers[first].Doc() < doc
        invariant Same() && Rotated(scorers, first, doc) && lo <= doc <= NO_MORE_DOCS
        invariant forall x :: lo <= x < doc ==> Matchers(lists, x) < |lists|
        decreases Remaining(scorers)
      {
        ghost var was, before := scorers, doc;
        doc := Leap(first, doc);
        forall x | lo <= x < doc ensures Matchers(lists, x) < |lists| {
          if before <= x {
            Leapt(was, first, before, x);
            Reordered(Lists(was), lists, x);
          }
        }
        RotateStep(was, first, before, scorers);
        first := if first == |scorers| - 1 then 0 else first + 1;
        RemainingNat(scorers);
      }
      if doc < NO_MORE_DOCS {
        Agreed(scorers, doc);
        Reordered(Lists(scorers), lists, doc);
      }
    }

    method Leap(first: nat, target: int) returns (doc: int)
      requires Same() && first < |scorers| && scorers[first].Doc() < target <= NO_MORE_DOCS
      modifies this`scorers
      ensures Same() && old(scorers)[first].pos < |old(scorers)[first].list|
      ensures var c := old(scorers)[first];
        scorers == old(scorers)[first := Cursor(c.list, Seek(c.list, c.pos, target))]
      ensures target <= doc == scorers[first].Doc() <= NO_MORE_DOCS && Remaining(scorers) < Remaining(old(scorers))
    {
      var c := scorers[first];
      RemainingMove(scorers, first, Seek(c.list, c.pos, target));
      assert Lists(scorers[first := Cursor(c.list, Seek(c.list, c.pos, target))]) == Lists(scorers);
      scorers := scorers[first := Cursor(c.list, Seek(c.list, c.pos, target))];
      doc := scorers[first].Doc();
    }

    /** The first call returns the document agreed on; later ones move the last iterator on first. */
    method NextDoc() returns (doc: int)
      requires Valid()
      modifies this
      ensures Valid() && doc == lastDoc
      ensures if old(lastDoc) == NO_MORE_DOCS then doc == NO_MORE_DOCS
              else FirstMatch(lists, |lists|, old(lastDoc) + 1, doc)
    {
      if lastDoc == NO_MORE_DOCS {
        return lastDoc;
      } else if lastDoc == -1 {
        lastDoc := scorers[|scorers| - 1].Doc();
        return lastDoc;
      }
      MoveLast(scorers[|scorers| - 1].pos + 1, lastDoc + 1);
      lastDoc := DoNext(lastDoc + 1);
      doc := lastDoc;
    }

    /** The last iterator moves on: nothing it passed, or any document before it, matches from `lo` on. */
    method MoveLast(q: int, ghost lo: int)
      requires Same() && forall i :: 0 <= i < |scorers| ==> scorers[i].Doc() == scorers[0].Doc()
      requires var c := scorers[|scorers| - 1]; c.pos < q <= |c.list| && c.Doc() < lo <= DocAt(c.list, q)
      requires var c := scorers[|scorers| - 1]; forall k :: c.pos < k < q ==> c.list[k].doc < lo
      modifies this`scorers
      ensures Same() && ByDoc(scorers) && lo <= scorers[|scorers| - 1].Doc()
      ensures forall x :: lo <= x < scorers[|scorers| - 1].Doc() ==> Matchers(lists, x) < |lists|
    {
      var n := |scorers| - 1;
      var c := scorers[n];
      assert Lists(scorers[n := Cursor(c.list, q)]) == Lists(scorers);
      scorers := scorers[n := Cursor(c.list, q)];
      forall x | lo <= x < scorers[n].Doc() ensures Matchers(lists, x) < |lists| {
        Absent(scorers, n, x);
        Reordered(Lists(scorers), lists, x);
      }
    }

    /** A target at or before the document returned last leaves the scorer there, where advance is to
        go on to a later document. */
    method Advance(target: int) returns (doc: int)
      requires Valid() && target <= NO_MORE_DOCS
      modifies this
      ensures Valid() && doc == lastDoc
      ensures 0 <= old(lastDoc) && target <= old(lastDoc) ==> doc == old(lastDoc)
      ensures old(lastDoc) == NO_MORE_DOCS ==> doc == NO_MORE_DOCS
      ensures old(lastDoc) < NO_MORE_DOCS ==>
                (FirstMatch(lists, |lists|, Later(old(lastDoc) + 1, target), doc) <==>
                    target > old(lastDoc) || old(lastDoc) == -1)
    {
      if lastDoc == NO_MORE_DOCS {
        return lastDoc;
      }
      var n := |scorers| - 1;
      if scorers[n].Doc() < target {
        MoveLast(Seek(scorers[n].list, scorers[n].pos, target), target);
        doc := DoNext(target);
        if lastDoc == -1 { StillFirst(lists, |lists|, 0, target, doc); }
        lastDoc := doc;
      } else {
        lastDoc := StayPut();
        doc := lastDoc;
      }
    }

    /** doNext when all iterators agree already. */
    method StayPut() returns (doc: int)
      requires Same() && scorers[0].Doc() < NO_MORE_DOCS
      requires forall i :: 0 <= i < |scorers| ==> scorers[i].Doc() == scorers[0].Doc()
      modifies this`scorers
      ensures Same() && doc == old(scorers)[0].Doc() && forall i :: 0 <= i < |scorers| ==> scorers[i].Doc() == doc
    {
      ghost var d := scorers[0].Doc();
      Agreed(scorers, d);
      Reordered(Lists(scorers), lists, d);
      doc := DoNext(d);
    }

    /** The sum of the scores of all lists. */
    method Score() returns (sum: real)
      requires Valid() && 0 <= lastDoc < NO_MORE_DOCS
      ensures sum == SumAt(lists, lastDoc)
    {
      sum := 0.0;
      for i := 0 to |scorers|
        invariant sum == SumAt(Lists(scorers)[..i], lastDoc)
      {
        AtMember(scorers[i].list, scorers[i].pos);
        sum := sum + scorers[i].list[scorers[i].pos].score;
        assert Lists(scorers)[..i + 1][..i] == Lists(scorers)[..i];
      }
      assert Lists(scorers)[..|scorers|] == Lists(scorers);
      Reordered(Lists(scorers), lists, lastDoc);
    }

    /** score(collector): every common document, in increasing order, with its score. */
    method ScoreAll() returns (hits: seq<Posting>)
      requires Valid() && lastDoc == -1
      modifies this
      ensures hits == Matching(lists, |lists|, NO_MORE_DOCS)
    {
      hide Matching, Matchers, SumAt, FirstMatch, ConjunctionScorer.Valid;
      hits := [];
      MatchingNone(lists, |lists|);
      var doc := NextDoc();
      MatchingTo(lists, |lists|, 0, doc);
      while doc != NO_MORE_DOCS
        invariant Valid() && 0 <= doc == lastDoc <= NO_MORE_DOCS
        invariant doc < NO_MORE_DOCS ==> Matchers(lists, doc) >= |lists|
        invariant hits == Matching(lists, |lists|, doc)
        decreases NO_MORE_DOCS - doc
      {
        var score := Score();
        hits := hits + [Posting(doc, score)];
        MatchingNext(lists, |lists|, doc);
        var next := NextDoc();
        MatchingTo(lists, |lists|, doc + 1, next);
        doc := next;
      }
    }
  }

  /** Nothing matched before the target, so the first match from there is the first of all. */
  lemma StillFirst(lists: seq<PostingList>, min: int, lo: int, target: int, doc: int)
    requires FirstMatch(lists, min, target, doc) && lo <= target
    ensures FirstMatch(lists, min, Later(lo, target), doc)
  {
  }

  /** A list without postings: nothing can match. */
  lemma EmptyList(lists: seq<PostingList>, i: nat)
    requires AllOrdered(lists) && i < |lists| && DocAt(lists[i], 0) == NO_MORE_DOCS
    ensures FirstMatch(lists, |lists|, 0, NO_MORE_DOCS)
  {
    forall x ensures Matchers(lists, x) < |lists| {
      AtAbsent(lists[i], x);
      AllMatch(lists, x);
    }
  }

  /** The same iterators in another order. */
  lemma {:induction false} ListsReordered(s: seq<Cursor>, t: seq<Cursor>)
    requires multiset(s) == multiset(t)
    ensures multiset(Lists(s)) == multiset(Lists(t))
    decreases |s|
  {
    if s == [] {
      assert |multiset(t)| == 0;
    } else {
      var i := InOther(s, t);
      var rest := t[..i] + t[i + 1..];
      RestContents(s, t, i);
      ListsReordered(s[..|s| - 1], rest);
      assert Lists(s) == Lists(s[..|s| - 1]) + [s[|s| - 1].list];
      assert Lists(t) == Lists(t)[..i] + [t[i].list] + Lists(t)[i + 1..]
          && Lists(rest) == Lists(t)[..i] + Lists(t)[i + 1..];
    }
  }

  lemma Reorder(s: seq<Cursor>, t: seq<Cursor>)
    requires multiset(s) == multiset(t)
    ensures multiset(Lists(s)) == multiset(Lists(t)) && |s| == |t|
    ensures forall c :: c in s <==> c in t
    ensures AllOk(s) ==> AllOk(t)
  {
    ListsReordered(s, t);
    assert |multiset(s)| == |s| && |multiset(t)| == |t|;
    assert forall c :: c in s <==> c in multiset(s);
    assert forall c :: c in t <==> c in multiset(t);
    assert forall i :: 0 <= i < |t| ==> t[i] in s;
  }

  lemma FirstPosting(s: seq<Cursor>)
    requires s != [] && AllOk(s) && s[|s| - 1].pos == 0
    ensures forall x :: 0 <= x < s[|s| - 1].Doc() ==> Matchers(Lists(s), x) < |s|
  {
    forall x | 0 <= x < s[|s| - 1].Doc() ensures Matchers(Lists(s), x) < |s| { Absent(s, |s| - 1, x); }
  }

  /** The iterator that leapt is now the last in order. */
  lemma RotateStep(s: seq<Cursor>, first: nat, doc: int, t: seq<Cursor>)
    requires Rotated(s, first, doc) && |t| == |s| && doc <= t[first].Doc()
    requires forall i :: 0 <= i < |s| && i != first ==> t[i] == s[i]
    ensures Rotated(t, if first == |s| - 1 then 0 else first + 1, t[first].Doc())
  {
  }
}
