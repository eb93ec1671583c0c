/**
 BooleanScorer: a table of buckets, one window of documents after another, into which every clause
 adds its scores; BooleanScorer2 gives the same hits.
 */
module BooleanScorers {
  import opened Postings
  import opened ScorerQueues
  import opened DisjunctionSums
  import opened BooleanScorer2s

  const SIZE := 2048

  /** From this document on no window reaches: the int that ends the windows overflows. */
  const LAST_WINDOW := 0x7FFF_F800

  /** What a 32-bit int holds of a number. */
  function Wrapped(x: int): (w: int)
    ensures -0x8000_0000 <= w < 0x8000_0000 && (w - x) % 0x1_0000_0000 == 0
  {
    (x + 0x8000_0000) % 0x1_0000_0000 - 0x8000_0000
  }

  lemma WrapsOn(x: int, y: int)
    ensures Wrapped(Wrapped(x) + y) == Wrapped(x + y)
  {
  }

  /** Where the `k`-th window ends. */
  function WindowEnd(k: nat): int { Wrapped(k * SIZE) }

  /** A document is read in some window if and only if it lies before the last of them: the int never gets beyond. */
  lemma ReachedIff(d: nat)
    requires d < NO_MORE_DOCS
    ensures (exists k :: d < WindowEnd(k)) <==> d < LAST_WINDOW
  {
    if d < LAST_WINDOW {
      assert WindowEnd(0xF_FFFF) == LAST_WINDOW;
    } else {
      forall k ensures WindowEnd(k) <= LAST_WINDOW {
        assert WindowEnd(k) % SIZE == 0;
      }
    }
  }

  /** One clause's share of a window: on to the first document that is not before its end. */
  function ReadBelow(list: PostingList, p: nat, end: int): (q: nat)
    requires p <= |list|
    ensures p <= q <= |list| && (forall i :: p <= i < q ==> list[i].doc < end)
    ensures q < |list| ==> list[q].doc >= end
    decreases |list| - p
  {
    if p < |list| && list[p].doc < end then ReadBelow(list, p + 1, end) else p
  }

  /** How far a clause is read after `k` windows. */
  function PosAfter(list: PostingList, k: nat): (p: nat)
    ensures p <= |list|
  {
    if k == 0 then 0 else ReadBelow(list, PosAfter(list, k - 1), WindowEnd(k))
  }

  lemma {:induction false} NeverPast(list: PostingList, k: nat, p: nat)
    requires p < |list| && LAST_WINDOW <= list[p].doc < NO_MORE_DOCS
    ensures PosAfter(list, k) <= p
  {
    if k > 0 {
      NeverPast(list, k - 1, p);
      ReachedIff(list[p].doc);
    }
  }

  lemma ReadsAll(list: PostingList, k: nat)
    requires forall p :: 0 <= p < |list| ==> list[p].doc < WindowEnd(k)
    ensures k > 0 ==> PosAfter(list, k) == |list|
  {
  }

  /** Some number of windows reads the clause to its end. */
  ghost predicate ReadToItsEnd(list: PostingList) { exists k :: PosAfter(list, k) == |list| }

  /** A clause is read to its end if and only if all its documents lie before the last window: with
      one beyond, the scorer finds more to read for ever. */
  lemma ReadToItsEndIff(list: PostingList)
    requires Ordered(list)
    ensures ReadToItsEnd(list) <==> forall p :: 0 <= p < |list| ==> list[p].doc < LAST_WINDOW
  {
    if p :| 0 <= p < |list| && list[p].doc >= LAST_WINDOW {
      forall k ensures PosAfter(list, k) < |list| { NeverPast(list, k, p); }
    } else {
      assert WindowEnd(0xF_FFFF) == LAST_WINDOW;
      ReadsAll(list, 0xF_FFFF);
    }
  }

  predicate Windowed(lists: seq<PostingList>) {
    AllOrdered(lists) && forall i, p :: 0 <= i < |lists| && 0 <= p < |lists[i]| ==> lists[i][p].doc < LAST_WINDOW
  }

  /** Windowed lists are those whose every clause some window ends. */
  lemma WindowedIff(lists: seq<PostingList>)
    requires AllOrdered(lists)
    ensures Windowed(lists) <==> forall i :: 0 <= i < |lists| ==> ReadToItsEnd(lists[i])
  {
    if Windowed(lists) {
      forall i | 0 <= i < |lists| ensures ReadToItsEnd(lists[i]) {
        ReadToItsEndIff(lists[i]);
      }
    } else {
      var i, p :| 0 <= i < |lists| && 0 <= p < |lists[i]| && lists[i][p].doc >= LAST_WINDOW;
      ReadToItsEndIff(lists[i]);
    }
  }

  /** `bits` holds the prohibited clauses that matched. */
  datatype Bucket = Bucket(doc: int, score: real, bits: set<nat>, coord: nat)

  /** The prohibited clauses among those that hold the document. */
  function BitsAt(lists: seq<PostingList>, masks: seq<set<nat>>, d: int): set<nat>
    requires |lists| == |masks|
  {
    if lists == [] then {}
    else
      var n := |lists| - 1;
      BitsAt(lists[..n], masks[..n], d) + if At(lists[n], d).Some? then masks[n] else {}
  }

  lemma {:induction false} BitsReplaced(lists: seq<PostingList>, masks: seq<set<nat>>, i: nat, list: PostingList,
                                        d: int)
    requires i < |lists| == |masks|
    ensures At(lists[i], d) == At(list, d) ==> BitsAt(lists[i := list], masks, d) == BitsAt(lists, masks, d)
    ensures At(lists[i], d).None? && At(list, d).Some? ==>
            BitsAt(lists[i := list], masks, d) == BitsAt(lists, masks, d) + masks[i]
  {
    var n := |lists| - 1;
    if i < n {
      BitsReplaced(lists[..n], masks[..n], i, list, d);
      assert lists[i := list][..n] == lists[..n][i := list];
    } else {
      assert lists[i := list][..n] == lists[..n];
    }
  }

  lemma {:induction false} SameBits(a: seq<PostingList>, b: seq<PostingList>, masks: seq<set<nat>>, d: int)
    requires |a| == |b| == |masks| && forall i :: 0 <= i < |a| ==> At(a[i], d) == At(b[i], d)
    ensures BitsAt(a, masks, d) == BitsAt(b, masks, d)
  {
    if a != [] { SameBits(a[..|a| - 1], b[..|b| - 1], masks[..|a| - 1], d); }
  }

  lemma {:induction false} BitsNone(lists: seq<PostingList>, masks: seq<set<nat>>, d: int)
    requires |lists| == |masks| && Matchers(lists, d) == 0
    ensures BitsAt(lists, masks, d) == {}
  {
    if lists != [] { BitsNone(lists[..|lists| - 1], masks[..|lists| - 1], d); }
  }

  /** What the clauses read so far say about a document, as its bucket is to say it. */
  function Summary(cut: seq<PostingList>, masks: seq<set<nat>>, d: int): Bucket
    requires |cut| == |masks|
  {
    Bucket(d, SumAt(cut, d), BitsAt(cut, masks, d), Matchers(cut, d))
  }

  /** In the window, the touched buckets are those of the documents read, and are up to date. */
  ghost predicate TableOk(buckets: seq<Bucket>, first: seq<nat>, cut: seq<PostingList>, masks: seq<set<nat>>, lo: int) {
    && |buckets| == SIZE && |cut| == |masks|
    && (forall d {:trigger Matchers(cut, d)} :: lo <= d < lo + SIZE ==>
          if Matchers(cut, d) == 0 then buckets[d % SIZE].doc != d && d % SIZE !in first
          else buckets[d % SIZE] == Summary(cut, masks, d) && d % SIZE in first)
    && (forall i :: 0 <= i < |first| ==> first[i] < SIZE)
    && (forall i, j :: 0 <= i < j < |first| ==> first[i] != first[j])
  }

  /** One collected posting. */
  function Collected(b: Bucket, p: Posting, mask: set<nat>): Bucket {
    if b.doc != p.doc then Bucket(p.doc, p.score, mask, 1)
        else Bucket(b.doc, b.score + p.score, b.bits + mask, b.coord + 1)
  }

  /** Reading one posting changes what is known of its document only. */
  lemma CutGrows(lists: seq<PostingList>, pos: seq<int>, masks: seq<set<nat>>, s: nat, d: int)
    requires PositionsOk(lists, pos) && Live(lists, pos, s) && |masks| == |lists|
    ensures PositionsOk(lists, pos[s := pos[s] + 1])
    ensures var cut, cut', p := Cut(lists, pos), Cut(lists, pos[s := pos[s] + 1]), lists[s][pos[s]];
      if d == p.doc then
        && Matchers(cut', d) == Matchers(cut, d) + 1 && SumAt(cut', d) == SumAt(cut, d) + p.score
        && BitsAt(cut', masks, d) == BitsAt(cut, masks, d) + masks[s]
      else
        && Matchers(cut', d) == Matchers(cut, d) && SumAt(cut', d) == SumAt(cut, d)
        && BitsAt(cut', masks, d) == BitsAt(cut, masks, d)
  {
    var p := pos[s];
    var cut, more := Cut(lists, pos), lists[s][..p] + [lists[s][p]];
    assert lists[s][..p + 1] == more;
    assert Cut(lists, pos[s := p + 1]) == cut[s := more];
    AtSnoc(lists[s][..p], lists[s][p], d);
    AtAbsent(lists[s][..p], d);
    Replaced(cut, s, more, d);
    BitsReplaced(cut, masks, s, more, d);
  }

  lemma CollectKeeps(buckets: seq<Bucket>, first: seq<nat>, lists: seq<PostingList>, pos: seq<int>,
                     masks: seq<set<nat>>, s: nat, lo: int)
    requires PositionsOk(lists, pos) && Live(lists, pos, s) && |masks| == |lists| && 0 <= lo && lo % SIZE == 0
    requires TableOk(buckets, first, Cut(lists, pos), masks, lo) && lo <= lists[s][pos[s]].doc < lo + SIZE
    ensures PositionsOk(lists, pos[s := pos[s] + 1])
    ensures var p := lists[s][pos[s]]; var i := p.doc % SIZE;
      var first' := if buckets[i].doc != p.doc then [i] + first else first;
      TableOk(buckets[i := Collected(buckets[i], p, masks[s])], first', Cut(lists, pos[s := pos[s] + 1]), masks, lo)
  {
    var p := lists[s][pos[s]];
    var i := p.doc % SIZE;
    var cut, cut' := Cut(lists, pos), Cut(lists, pos[s := pos[s] + 1]);
    var first' := if buckets[i].doc != p.doc then [i] + first else first;
    var buckets' := buckets[i := Collected(buckets[i], p, masks[s])];
    assert Matchers(cut, p.doc) == 0 ==> SumAt(cut, p.doc) == 0.0 && BitsAt(cut, masks, p.doc) == {} by {
      if Matchers(cut, p.doc) == 0 { NoSum(cut, p.doc); BitsNone(cut, masks, p.doc); }
    }
    forall d {:trigger Matchers(cut', d)} | lo <= d < lo + SIZE
      ensures if Matchers(cut', d) == 0 then buckets'[d % SIZE].doc != d && d % SIZE !in first'
              else buckets'[d % SIZE] == Summary(cut', masks, d) && d % SIZE in first'
    {
      CutGrows(lists, pos, masks, s, d);
      SameSlot(lo, d, p.doc);
    }
  }

  /** Within a window a slot belongs to one document. */
  lemma SameSlot(lo: int, d: int, e: int)
    requires lo % SIZE == 0 && lo <= d < lo + SIZE && lo <= e < lo + SIZE
    ensures d % SIZE == e % SIZE <==> d == e
  {
  }

  // ---------- the scorer ----------

  /** Every posting below `hi` is read, none from `hi` on, except that the lists from `s` on are read
      only up to `lo`. */
  ghost predicate ReadTo(lists: seq<PostingList>, pos: seq<int>, s: int, lo: int, hi: int) {
    && PositionsOk(lists, pos) && lo <= hi
    && forall i, p :: 0 <= i < |lists| && 0 <= p < |lists[i]| ==>
         (p < pos[i] <==> lists[i][p].doc < if i < s then hi else lo)
  }

  /** Is a document's bucket still waiting in the chain? */
  predicate Waiting(buckets: seq<Bucket>, chain: seq<nat>, d: int)
    requires |buckets| == SIZE
  {
    d % SIZE in chain && buckets[d % SIZE].doc == d
  }

  /** The mask of prohibited clause `k`: its bit, as long as an int has one left. */
  function Mask(k: nat): set<nat> { if k < 32 then {k} else {} }

  /** What the linked clauses say about a document is what the optional and prohibited ones say. */
  ghost predicate LinkedAt(l: seq<PostingList>, m: seq<set<nat>>, optional: seq<PostingList>,
                           prohibited: seq<PostingList>, d: int)
    requires |l| == |m|
  {
    && Matchers(l, d) == Matchers(optional, d) + Matchers(prohibited, d)
    && (BitsAt(l, m, d) == {} <==> Matchers(prohibited, d) == 0)
    && (BitsAt(l, m, d) == {} ==> SumAt(l, d) == SumAt(optional, d))
  }

  ghost predicate Linked(l: seq<PostingList>, m: seq<set<nat>>, optional: seq<PostingList>,
                         prohibited: seq<PostingList>) {
    |l| == |m| && Windowed(l) && forall d :: LinkedAt(l, m, optional, prohibited, d)
  }

  lemma LinkedNone()
    ensures Linked([], [], [], [])
  {
  }

  lemma {:induction false} InFront(x: PostingList, l: seq<PostingList>, mask: set<nat>, m: seq<set<nat>>, d: int)
    requires |l| == |m|
    ensures Matchers([x] + l, d) == Hit(x, d) + Matchers(l, d) && SumAt([x] + l, d) == Worth(x, d) + SumAt(l, d)
    ensures BitsAt([x] + l, [mask] + m, d) == (if At(x, d).Some? then mask else {}) + BitsAt(l, m, d)
  {
    if l == [] {
      assert [x] + l == [x] && [mask] + m == [mask] && [x][..0] == [] && [mask][..0] == [];
    } else {
      var n := |l| - 1;
      InFront(x, l[..n], mask, m[..n], d);
      assert ([x] + l)[..n + 1] == [x] + l[..n] && ([mask] + m)[..n + 1] == [mask] + m[..n];
    }
  }

  lemma OneMore(lists: seq<PostingList>, i: nat, d: int)
    requires i < |lists|
    ensures Matchers(lists[..i + 1], d) == Matchers(lists[..i], d) + Hit(lists[i], d)
    ensures SumAt(lists[..i + 1], d) == SumAt(lists[..i], d) + Worth(lists[i], d)
  {
    assert lists[..i + 1][..i] == lists[..i];
  }

  lemma WindowedFront(x: PostingList, l: seq<PostingList>)
    requires Windowed(l) && Ordered(x) && forall p :: 0 <= p < |x| ==> x[p].doc < LAST_WINDOW
    ensures Windowed([x] + l)
  {
    forall i | 0 <= i < |l| + 1 ensures Ordered(([x] + l)[i])
        && forall p :: 0 <= p < |([x] + l)[i]| ==> ([x] + l)[i][p].doc < LAST_WINDOW {
      if i > 0 { assert ([x] + l)[i] == l[i - 1]; }
    }
  }

  lemma LinkedOptional(l: seq<PostingList>, m: seq<set<nat>>, optional: seq<PostingList>, i: nat)
    requires i < |optional| && Windowed(optional) && Linked(l, m, optional[..i], [])
    ensures if optional[i] == [] then Linked(l, m, optional[..i + 1], [])
            else Linked([optional[i]] + l, [{}] + m, optional[..i + 1], [])
  {
    var x := optional[i];
    WindowedFront(x, l);
    var l', m' := if x == [] then l else [x] + l, if x == [] then m else [{}] + m;
    var more := optional[..i + 1];
    forall d ensures LinkedAt(l', m', more, [], d) {
      assert LinkedAt(l, m, optional[..i], [], d);
      InFront(x, l, {}, m, d);
      OneMore(optional, i, d);
    }
  }

  lemma LinkedProhibited(l: seq<PostingList>, m: seq<set<nat>>, optional: seq<PostingList>,
                         prohibited: seq<PostingList>, k: nat)
    requires k < |prohibited| <= 32 && Windowed(prohibited) && Linked(l, m, optional, prohibited[..k])
    ensures if prohibited[k] == [] then Linked(l, m, optional, prohibited[..k + 1])
            else Linked([prohibited[k]] + l, [Mask(k)] + m, optional, prohibited[..k + 1])
  {
    var x := prohibited[k];
    WindowedFront(x, l);
    var l', m' := if x == [] then l else [x] + l, if x == [] then m else [Mask(k)] + m;
    var more := prohibited[..k + 1];
    forall d ensures LinkedAt(l', m', optional, more, d) {
      assert LinkedAt(l, m, optional, prohibited[..k], d);
      InFront(x, l, Mask(k), m, d);
      OneMore(prohibited, k, d);
    }
  }

  lemma MatchedInRange(lists: seq<PostingList>, d: int)
    requires AllOrdered(lists)
    ensures Matchers(lists, d) > 0 ==> 0 <= d < NO_MORE_DOCS
  {
    if !(0 <= d < NO_MORE_DOCS) {
      forall i | 0 <= i < |lists| ensures At(lists[i], d).None? { AtAbsent(lists[i], d); }
      NoMatches(lists, d);
    }
  }

  class BooleanScorer {
    const lists: seq<PostingList>
    const masks: seq<set<nat>>
    const coordFactors: seq<real>
    const minNrShouldMatch: nat
    const buckets: array<Bucket>
    var pos: seq<int>
    var first: seq<nat>
    var current: seq<nat>
    var end: int
    /** Where the windows have come to; `end` is what an int holds of it. */
    ghost var reach: nat
    var doc: int

    /** The clauses that have a posting, in the order of the linked list: the last one added first. */
    constructor (optional: seq<PostingList>, prohibited: seq<PostingList>, minNr: nat, coord: seq<real>)
      requires Windowed(optional) && Windowed(prohibited) && |prohibited| <= 32 && |coord| == |optional| + 1
      ensures Valid() && first == [] && current == [] && reach == 0 && fresh(buckets)
      ensures forall d :: HitOf(d) == Wanted([], optional, prohibited, minNr, coord, d)
    {
      var l: seq<PostingList>, m: seq<set<nat>> := [], [];
      LinkedNone();
      for i := 0 to |optional|
        invariant Linked(l, m, optional[..i], [])
      {
        LinkedOptional(l, m, optional, i);
        if optional[i] != [] {
          l, m := [optional[i]] + l, [{}] + m;
        }
      }
      assert optional[..|optional|] == optional && prohibited[..0] == [];
      for k := 0 to |prohibited|
        invariant Linked(l, m, optional, prohibited[..k])
      {
        LinkedProhibited(l, m, optional, prohibited, k);
        if prohibited[k] != [] {
          l, m := [prohibited[k]] + l, [Mask(k)] + m;
        }
      }
      assert prohibited[..|prohibited|] == prohibited;
      lists, masks, coordFactors, minNrShouldMatch := l, m, coord, minNr;
      pos, first, current, end, reach, doc := seq(|l|, _ => 0), [], [], 0, 0, -1;
      buckets := new Bucket[SIZE](_ => Bucket(-1, 0.0, {}, 0));
      new;
      LinkedShape(optional, prohibited);
    }

    lemma LinkedShape(optional: seq<PostingList>, prohibited: seq<PostingList>)
      requires Windowed(optional) && |lists| == |masks| && buckets.Length == SIZE && |coordFactors| == |optional| + 1
      requires Linked(lists, masks, optional, prohibited)
      ensures Shape()
      ensures forall d :: HitOf(d) == Wanted([], optional, prohibited, minNrShouldMatch, coordFactors, d)
    {
      forall d
        ensures HitOf(d) == Wanted([], optional, prohibited, minNrShouldMatch, coordFactors, d)
        ensures BitsAt(lists, masks, d) == {} ==> Matchers(lists, d) < |coordFactors|
      {
        AllMatch(optional, d);
        MatchedInRange(optional, d);
        assert LinkedAt(lists, masks, optional, prohibited, d);
      }
    }

    /** The hit that a document's complete bucket makes, if it is one. */
    ghost function HitOf(d: int): Option<real>
      requires |lists| == |masks|
    {
      var b := Summary(lists, masks, d);
      if b.bits == {} && b.coord >= minNrShouldMatch && 1 <= b.coord < |coordFactors|
      then Some(Coordinated(b.score, coordFactors[b.coord])) else None
    }

    /** Clauses that are not prohibited have a coordination factor for every count. */
    ghost predicate Shape()
    {
      && |lists| == |masks| && Windowed(lists) && buckets.Length == SIZE
      && forall d :: BitsAt(lists, masks, d) == {} ==> Matchers(lists, d) < |coordFactors|
    }

    ghost predicate Valid()
      reads this, buckets
    {
      && Shape() && end == Wrapped(reach) && reach % SIZE == 0 && ReadTo(lists, pos, |lists|, reach, reach)
         && Started(pos)
      && (forall i :: 0 <= i < SIZE ==> buckets[i].doc < reach)
    }

    /** The chain holds complete buckets of the window that ends at `end`. */
    ghost predicate Chain(chain: seq<nat>)
      reads `reach, buckets
      requires Shape()
    {
      && (chain != [] ==> reach >= SIZE)
      && (forall i :: 0 <= i < |chain| ==>
            chain[i] < SIZE && buckets[chain[i]].doc % SIZE == chain[i] && reach - SIZE <= buckets[chain[i]].doc
            && buckets[chain[i]].coord >= 1 && buckets[chain[i]] == Summary(lists, masks, buckets[chain[i]].doc))
      && (forall i, j :: 0 <= i < j < |chain| ==> chain[i] != chain[j])
    }

    /** The hits so far are those of all documents up to the window's end that do not wait. */
    ghost predicate Settled(hits: seq<Posting>, chain: seq<nat>)
      reads `reach, buckets
      requires Shape()
    {
      && (forall d :: At(hits, d) == if 0 <= d < reach && !Waiting(buckets[..], chain, d) then HitOf(d) else None)
      && Distinct(hits)
    }

    /** Reads one window of every clause into the table. */
    method Refill() returns (more: bool)
      requires Valid() && reach <= LAST_WINDOW + SIZE
      modifies this`pos, this`first, this`end, this`reach, buckets
      ensures Valid() && reach == old(reach) + SIZE && Chain(first)
      ensures forall d :: old(reach) <= d < reach && !Waiting(buckets[..], first, d) ==> Matchers(lists, d) == 0
      ensures if more then reach < LAST_WINDOW else forall d :: reach <= d ==> Matchers(lists, d) == 0
      ensures first == [] ==> forall i :: 0 <= i < SIZE ==> buckets[i] == old(buckets[i])
    {
      more := false;
      first := [];
      ghost var lo := reach;
      reach, end := reach + SIZE, Wrapped(end + SIZE);
      WrapsOn(lo, SIZE);
      NothingRead(lo);
      for s := 0 to |lists|
        invariant Shape() && ReadTo(lists, pos, s, lo, reach) && Started(pos) && reach == lo + SIZE
                  && end == Wrapped(reach)
        invariant TableOk(buckets[..], first, Cut(lists, pos), masks, lo)
        invariant forall i :: 0 <= i < SIZE ==> buckets[i].doc < reach
        invariant first == [] ==> forall i :: 0 <= i < SIZE ==> buckets[i] == old(buckets[i])
        invariant if more then exists i :: 0 <= i < s && pos[i] < |lists[i]|
                    else forall i :: 0 <= i < s ==> pos[i] == |lists[i]|
      {
        var d := ReadClause(s, lo);
        if d != NO_MORE_DOCS {
          more := true;
          assert pos[s] < |lists[s]|;
        }
      }
      Complete(lo);
      if more {
        var i :| 0 <= i < |lists| && pos[i] < |lists[i]|;
        assert lists[i][pos[i]].doc >= reach;
      } else {
        AllRead();
      }
    }

    /** One clause's share of the window. */
    method ReadClause(s: nat, ghost lo: int) returns (d: int)
      requires Shape() && s < |lists| && ReadTo(lists, pos, s, lo, reach) && Started(pos) && 0 <= lo
               && reach == lo + SIZE && lo % SIZE == 0
      requires reach <= LAST_WINDOW + 2 * SIZE && end == Wrapped(reach)
               && TableOk(buckets[..], first, Cut(lists, pos), masks, lo)
               && forall i :: 0 <= i < SIZE ==> buckets[i].doc < reach
      modifies this`pos, this`first, buckets
      ensures ReadTo(lists, pos, s + 1, lo, reach) && Started(pos)
      ensures TableOk(buckets[..], first, Cut(lists, pos), masks, lo)
      ensures forall i :: 0 <= i < SIZE ==> buckets[i].doc < reach
      ensures forall i :: 0 <= i < |lists| && i != s ==> pos[i] == old(pos)[i]
      ensures first == [] ==> old(first) == [] && forall i :: 0 <= i < SIZE ==> buckets[i] == old(buckets[i])
      ensures d == DocAt(lists[s], pos[s])
    {
      d := DocAt(lists[s], pos[s]);
      if reach > LAST_WINDOW { assert pos[s] == |lists[s]|; }
      while d < end
        invariant PositionsOk(lists, pos) && Started(pos) && d == DocAt(lists[s], pos[s])
        invariant forall i :: 0 <= i < |lists| && i != s ==> pos[i] == old(pos)[i]
        invariant old(pos)[s] <= pos[s] && forall p :: old(pos)[s] <= p < pos[s] ==> lists[s][p].doc < reach
        invariant TableOk(buckets[..], first, Cut(lists, pos), masks, lo)
        invariant forall i :: 0 <= i < SIZE ==> buckets[i].doc < reach
        invariant first == [] ==> old(first) == [] && forall i :: 0 <= i < SIZE ==> buckets[i] == old(buckets[i])
        decreases |lists[s]| - pos[s]
      {
        Collect(s, lo);
        d := DocAt(lists[s], pos[s]);
      }
    }

    /** collect, and the clause's nextDoc. */
    method Collect(s: nat, ghost lo: int)
      requires Shape() && PositionsOk(lists, pos) && Live(lists, pos, s) && 0 <= lo && lo % SIZE == 0
      requires lo <= lists[s][pos[s]].doc < lo + SIZE && TableOk(buckets[..], first, Cut(lists, pos), masks, lo)
      modifies this`pos, this`first, buckets
      ensures pos == old(pos)[s := old(pos)[s] + 1] && PositionsOk(lists, pos)
      ensures TableOk(buckets[..], first, Cut(lists, pos), masks, lo)
      ensures forall i :: 0 <= i < SIZE ==>
                buckets[i].doc == old(buckets[i].doc) || buckets[i].doc == lists[s][old(pos)[s]].doc
      ensures first != []
    {
      hide Cut, Summary, SumAt, BitsAt, Matchers;
      CollectKeeps(buckets[..], first, lists, pos, masks, s, lo);
      var p := lists[s][pos[s]];
      var i := p.doc % SIZE;
      ghost var was := buckets[..];
      assert buckets[i].doc == p.doc ==> i in first by { assert Matchers(Cut(lists, pos), p.doc) >= 0; }
      if buckets[i].doc != p.doc {
        buckets[i] := Bucket(p.doc, p.score, masks[s], 1);
        first := [i] + first;
      } else {
        buckets[i] := Bucket(p.doc, buckets[i].score + p.score, buckets[i].bits + masks[s], buckets[i].coord + 1);
      }
      assert buckets[..] == was[i := Collected(was[i], p, masks[s])];
      pos := pos[s := pos[s] + 1];
    }

    /** Before the window is read no bucket belongs to it. */
    lemma NothingRead(lo: int)
      requires Shape() && ReadTo(lists, pos, |lists|, lo, lo) && Started(pos) && 0 <= lo && lo % SIZE == 0
      requires forall i :: 0 <= i < SIZE ==> buckets[i].doc < lo
      ensures TableOk(buckets[..], [], Cut(lists, pos), masks, lo) && ReadTo(lists, pos, 0, lo, lo + SIZE)
    {
      var cut := Cut(lists, pos);
      forall d {:trigger Matchers(cut, d)} | lo <= d < lo + SIZE ensures Matchers(cut, d) == 0 {
        forall i | 0 <= i < |cut| ensures At(cut[i], d).None? { AtAbsent(cut[i], d); }
        NoMatches(cut, d);
      }
    }

    lemma CompleteFor(d: int)
      requires Shape() && ReadTo(lists, pos, |lists|, reach, reach) && Started(pos) && d < reach
      ensures Matchers(Cut(lists, pos), d) == Matchers(lists, d)
              && Summary(Cut(lists, pos), masks, d) == Summary(lists, masks, d)
    {
      var cut := Cut(lists, pos);
      forall i | 0 <= i < |lists| ensures At(cut[i], d) == At(lists[i], d) { AtPrefix(lists[i], pos[i], d); }
      SameMatches(cut, lists, d);
      SameBits(cut, lists, masks, d);
    }

    lemma CompleteSlot(lo: int, i: nat)
      requires Shape() && ReadTo(lists, pos, |lists|, reach, reach) && Started(pos) && reach == lo + SIZE && 0 <= lo
               && lo % SIZE == 0
      requires TableOk(buckets[..], first, Cut(lists, pos), masks, lo) && i < |first|
      ensures first[i] < SIZE && buckets[first[i]] == Summary(lists, masks, lo + first[i])
              && buckets[first[i]].coord >= 1
    {
      hide Cut, Started, Windowed, BitsAt, SumAt;
      var d := lo + first[i];
      assert d % SIZE == first[i] && first[i] in first;
      assert Matchers(Cut(lists, pos), d) != 0;
      CompleteFor(d);
    }

    lemma CompleteWaits(lo: int, d: int)
      requires Shape() && ReadTo(lists, pos, |lists|, reach, reach) && Started(pos) && reach == lo + SIZE && 0 <= lo
               && lo % SIZE == 0
      requires TableOk(buckets[..], first, Cut(lists, pos), masks, lo) && lo <= d < reach
               && !Waiting(buckets[..], first, d)
      ensures Matchers(lists, d) == 0
    {
      hide Cut, Started, Windowed, BitsAt, SumAt;
      CompleteFor(d);
      assert Matchers(Cut(lists, pos), d) == 0;
    }

    /** After it is read the buckets are complete. */
    lemma Complete(lo: int)
      requires Shape() && ReadTo(lists, pos, |lists|, lo, reach) && Started(pos) && reach == lo + SIZE && 0 <= lo
               && lo % SIZE == 0
      requires TableOk(buckets[..], first, Cut(lists, pos), masks, lo)
      ensures ReadTo(lists, pos, |lists|, reach, reach) && Chain(first)
      ensures forall d :: lo <= d < reach && !Waiting(buckets[..], first, d) ==> Matchers(lists, d) == 0
    {
      hide Cut, BitsAt, SumAt, Matchers;
      assert ReadTo(lists, pos, |lists|, reach, reach);
      forall i | 0 <= i < |first|
        ensures first[i] < SIZE && buckets[first[i]] == Summary(lists, masks, lo + first[i])
                && buckets[first[i]].coord >= 1
        ensures buckets[first[i]].doc % SIZE == first[i]
      {
        CompleteSlot(lo, i);
      }
      forall d | lo <= d < reach && !Waiting(buckets[..], first, d)
        ensures Matchers(lists, d) == 0
      {
        CompleteWaits(lo, d);
      }
    }

    lemma AllRead()
      requires Shape() && ReadTo(lists, pos, |lists|, reach, reach)
               && forall i :: 0 <= i < |lists| ==> pos[i] == |lists[i]|
      ensures forall d :: reach <= d ==> Matchers(lists, d) == 0
    {
      forall d | reach <= d ensures Matchers(lists, d) == 0 {
        forall i | 0 <= i < |lists| ensures At(lists[i], d).None? { AtAbsent(lists[i], d); }
        NoMatches(lists, d);
      }
    }

    /** The head of the chain leaves it, with a hit or without. */
    lemma Popped(hits: seq<Posting>, chain: seq<nat>)
      requires Valid() && chain != [] && Chain(chain) && Settled(hits, chain)
      ensures Chain(chain[1..])
      ensures var b := buckets[chain[0]];
        && (b.bits == {} ==> b.coord < |coordFactors|)
        && if b.bits == {} && b.coord >= minNrShouldMatch
           then Settled(hits + [Posting(b.doc, Coordinated(b.score, coordFactors[b.coord]))], chain[1..])
           else Settled(hits, chain[1..])
    {
      var b := buckets[chain[0]];
      PoppedWaits(chain);
      PoppedHit(chain);
      hide Chain, Waiting, HitOf, Summary, BitsAt;
      assert At(hits, b.doc).None?;
      AtAbsent(hits, b.doc);
      if b.bits == {} && b.coord >= minNrShouldMatch {
        var p := Posting(b.doc, Coordinated(b.score, coordFactors[b.coord]));
        forall d ensures At(hits + [p], d) == if p.doc == d then Some(p.score) else At(hits, d) { AtSnoc(hits, p, d); }
      }
    }

    lemma PoppedWaits(chain: seq<nat>)
      requires Shape() && chain != [] && Chain(chain)
      ensures Chain(chain[1..])
      ensures forall d :: Waiting(buckets[..], chain, d) <==>
                Waiting(buckets[..], chain[1..], d) || d == buckets[chain[0]].doc
      ensures !Waiting(buckets[..], chain[1..], buckets[chain[0]].doc)
    {
      assert chain == [chain[0]] + chain[1..];
      assert chain[0] !in chain[1..];
    }

    lemma PoppedHit(chain: seq<nat>)
      requires Valid() && chain != [] && Chain(chain)
      ensures var b := buckets[chain[0]];
        && 0 <= b.doc < reach && (b.bits == {} ==> b.coord < |coordFactors|)
        && HitOf(b.doc) == if b.bits == {} && b.coord >= minNrShouldMatch
                           then Some(Coordinated(b.score, coordFactors[b.coord])) else None
    {
    }

    /** A new window adds waiting documents, and others that nothing matched. */
    twostate lemma Refilled(hits: seq<Posting>)
      requires old(Valid()) && old(Settled(hits, [])) && Valid() && Chain(first) && reach == old(reach) + SIZE
      requires forall d :: old(reach) <= d < reach && !Waiting(buckets[..], first, d) ==> Matchers(lists, d) == 0
      ensures Settled(hits, first)
    {
    }

    lemma WaitingBelow(chain: seq<nat>)
      requires Valid() && chain != [] && Chain(chain)
      ensures reach <= LAST_WINDOW
    {
      var d := buckets[chain[0]].doc;
      if forall i :: 0 <= i < |lists| ==> At(lists[i], d).None? {
        NoMatches(lists, d);
      } else {
        var i :| 0 <= i < |lists| && At(lists[i], d).Some?;
        AtAbsent(lists[i], d);
      }
    }

    /** Does the bucket miss the query's conditions? */
    predicate Refuses(b: Bucket) { b.bits != {} || b.coord < minNrShouldMatch }

    ghost predicate Refused(chain: seq<nat>)
      reads buckets
      requires buckets.Length == SIZE
    {
      forall i :: 0 <= i < |chain| ==> chain[i] < SIZE && Refuses(buckets[chain[i]])
    }

    /** Takes the head off the list. */
    method PopFirst(ghost hits: seq<Posting>) returns (hit: bool)
      requires Valid() && first != [] && Chain(first) && Settled(hits, first)
      modifies this`first, this`current
      ensures Valid() && Chain(first) && current == old(first) && first == old(first)[1..]
      ensures current[0] < SIZE && (hit <==> !Refuses(buckets[current[0]]))
      ensures hit ==> Chain(current) && Settled(hits, current)
      ensures !hit ==> Settled(hits, first)
    {
      Popped(hits, first);
      current := first;
      first := first[1..];
      hit := buckets[current[0]].bits == {} && buckets[current[0]].coord >= minNrShouldMatch;
    }

    /** Pops buckets, window after window, until one is a hit. */
    method NextDoc(ghost hits: seq<Posting>) returns (d: int)
      requires Valid() && Chain(first) && Settled(hits, first) && reach <= LAST_WINDOW && current == []
      modifies this`pos, this`first, this`current, this`end, this`reach, this`doc, buckets
      ensures Valid() && reach <= LAST_WINDOW + SIZE && d == doc
      ensures d != NO_MORE_DOCS ==>
                && current != [] && current[0] < SIZE && Chain(current) && Settled(hits, current) && current != []
                   && first == current[1..]
                && d == buckets[current[0]].doc && !Refuses(buckets[current[0]])
      ensures d == NO_MORE_DOCS ==> Settled(hits, []) && Refused(current)
    {
      hide Chain, Settled, Refuses, ReadTo, Started, Windowed;
      while true
        invariant Valid() && Chain(first) && Settled(hits, first) && reach <= LAST_WINDOW
        invariant first == [] ==> Refused(current)
        decreases LAST_WINDOW - reach
      {
        var hit := PopToHit(hits);
        if hit {
          doc := buckets[current[0]].doc;
          return doc;
        }
        label Before:
        var more := Refill();
        Refilled@Before(hits);
        if first == [] && !more {
          doc := NO_MORE_DOCS;
          return doc;
        }
        if first != [] { WaitingBelow(first); }
      }
    }

    method PopToHit(ghost hits: seq<Posting>) returns (hit: bool)
      requires Valid() && Chain(first) && Settled(hits, first) && (first == [] ==> Refused(current))
      modifies this`first, this`current
      ensures Valid() && Chain(first) && (!hit ==> Settled(hits, first))
      ensures if hit then Chain(current) && Settled(hits, current) && current != [] && first == current[1..]
                && current[0] < SIZE
                          && !Refuses(buckets[current[0]])
              else first == [] && Refused(current)
    {
      while first != []
        invariant Valid() && Chain(first) && Settled(hits, first)
        invariant first == [] ==> Refused(current)
        decreases |first|
      {
        hit := PopFirst(hits);
        if hit { return; }
      }
      hit := false;
    }

    /** score(collector): the chain of the current window, then window after window. */
    method ScoreAll() returns (hits: seq<Posting>)
      requires Valid() && first == [] && current == [] && reach == 0
      modifies this`pos, this`first, this`current, this`end, this`reach, this`doc, buckets
      ensures Distinct(hits) && forall d :: At(hits, d) == HitOf(d)
    {
      hide Chain, Settled, Refuses, Refused, HitOf, ReadTo, Started, Windowed;
      hits := [];
      Nothing();
      var _ := NextDoc(hits);
      while true
        invariant Valid() && reach <= LAST_WINDOW + SIZE
        invariant (Chain(current) && Settled(hits, current)) || (Refused(current) && Settled(hits, []))
        decreases LAST_WINDOW + SIZE - reach
      {
        first := [];
        hits := Drain(hits);
        label Before:
        var more := Refill();
        Refilled@Before(hits);
        current := first;
        if current == [] && !more {
          Finished(hits);
          return;
        }
        if current != [] { WaitingBelow(current); }
      }
    }

    lemma Nothing()
      requires Valid() && reach == 0
      ensures Chain([]) && Settled([], [])
    {
    }

    /** Collects the hits of the chain. */
    method Drain(hits0: seq<Posting>) returns (hits: seq<Posting>)
      requires Valid() && ((Chain(current) && Settled(hits0, current)) || (Refused(current) && Settled(hits0, [])))
      modifies this`current
      ensures Valid() && Settled(hits, []) && current == []
    {
      hits := hits0;
      while current != []
        invariant Valid() && ((Chain(current) && Settled(hits, current)) || (Refused(current) && Settled(hits, [])))
        decreases |current|
      {
        if Chain(current) && Settled(hits, current) { Popped(hits, current); }
        var b := buckets[current[0]];
        if b.bits == {} && b.coord >= minNrShouldMatch {
          hits := hits + [Posting(b.doc, Coordinated(b.score, coordFactors[b.coord]))];
        }
        current := current[1..];
      }
    }

    lemma Finished(hits: seq<Posting>)
      requires Valid() && Settled(hits, []) && forall d :: reach <= d ==> Matchers(lists, d) == 0
      ensures Distinct(hits) && forall d :: At(hits, d) == HitOf(d)
    {
      forall d | d < 0 ensures Matchers(lists, d) == 0 {
        forall i | 0 <= i < |lists| ensures At(lists[i], d).None? { AtAbsent(lists[i], d); }
        NoMatches(lists, d);
      }
    }
  }

  ghost predicate Distinct(hits: seq<Posting>) { forall i, j :: 0 <= i < j < |hits| ==> hits[i].doc != hits[j].doc }

  /** BooleanWeight::scorer, and what the scorer it makes collects: out of order the table of buckets serves, otherwise
      the merged scorers, and there is no scorer when nothing could match. Every document asked for is collected once,
      whatever the number of clauses asked for. */
  method ScoreQuery(required: seq<PostingList>, optional: seq<PostingList>, prohibited: seq<PostingList>, minNr: nat,
                    coord: seq<real>,
                    inOrder: bool, topScorer: bool)
    returns (hits: seq<Posting>)
    requires AllOrdered(required) && AllOrdered(optional) && AllOrdered(prohibited)
             && |coord| == |required| + |optional| + 1
    requires !inOrder ==> Windowed(optional) && Windowed(prohibited)
    ensures Distinct(hits) && (inOrder ==> Ordered(hits))
    ensures forall d :: At(hits, d) == Wanted(required, optional, prohibited, minNr, coord, d)
  {
    hide At, Wanted;
    if !inOrder && topScorer && required == [] && |prohibited| < 32 {
      var scorer := new BooleanScorer(optional, prohibited, minNr, coord);
      hits := scorer.ScoreAll();
      return;
    }
    if (required == [] && optional == []) || |optional| < minNr {
      hits := [];
      forall d ensures At(hits, d) == Wanted(required, optional, prohibited, minNr, coord, d) {
        NothingAsked(required, optional, prohibited, minNr, coord, d);
      }
      return;
    }
    var scorer2 := new BooleanScorer2(required, optional, prohibited, minNr, coord);
    hits := scorer2.ScoreAll();
  }

  lemma NothingAsked(required: seq<PostingList>, optional: seq<PostingList>, prohibited: seq<PostingList>, minNr: nat,
                     coord: seq<real>, d: int)
    requires |coord| == |required| + |optional| + 1 && ((required == [] && optional == []) || |optional| < minNr)
    ensures At([], d) == Wanted(required, optional, prohibited, minNr, coord, d) == None
  {
    AllMatch(optional, d);
  }

  /** The two scorers of one query give the same hits, each document once. */
  method SameHits(optional: seq<PostingList>, prohibited: seq<PostingList>, minNr: nat, coord: seq<real>)
    returns (hits: seq<Posting>, hits2: seq<Posting>)
    requires Windowed(optional) && Windowed(prohibited) && |coord| == |optional| + 1
    ensures Distinct(hits) && Ordered(hits2) && forall d :: At(hits, d) == At(hits2, d)
    ensures forall d :: At(hits, d) == Wanted([], optional, prohibited, minNr, coord, d)
  {
    hits := ScoreQuery([], optional, prohibited, minNr, coord, false, true);
    hits2 := ScoreQuery([], optional, prohibited, minNr, coord, true, true);
  }
}
