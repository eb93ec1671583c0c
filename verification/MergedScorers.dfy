/**
 The scorers that BooleanScorer2 is put together from: over one clause, over enough clauses, over all clauses, over
 two such scorers at once, and without the documents of another.
 */
module MergedScorers {
  import opened Postings
  import opened ScorerQueues
  import opened DisjunctionSums
  import opened Conjunctions

  /** A scorer that counts: of one clause, of enough clauses, of all clauses. */
  datatype Counting =
    | SingleMatch(list: PostingList)
    | Disjunction(lists: seq<PostingList>, min: nat)
    | Conjunction(lists: seq<PostingList>)
  {
    function Clauses(): seq<PostingList> { if SingleMatch? then [list] else lists }

    function Min(): nat {
      match this
      case SingleMatch(_) => 1
      case Disjunction(_, min) => min
      case Conjunction(lists) => |lists|
    }

    /** A disjunction needs two clauses. */
    predicate Ok() { AllOrdered(Clauses()) && 1 <= Min() <= |Clauses()| && (Disjunction? ==> |lists| >= 2) }

    predicate Holds(d: int) { Matchers(Clauses(), d) >= Min() }
  }

  /** `d` is the first document from `lo` on that all of the parts hold, or there is none. */
  ghost predicate FirstOf(parts: seq<Counting>, lo: int, d: int) {
    && (forall x :: lo <= x < d ==> !AllHold(parts, x))
    && lo <= d <= NO_MORE_DOCS && (d < NO_MORE_DOCS ==> AllHold(parts, d))
  }

  predicate AllHold(parts: seq<Counting>, d: int) { forall i :: 0 <= i < |parts| ==> parts[i].Holds(d) }

  /** Where advance leads from document `from`: to the first document from the target on, unless the target is not
      beyond `from`; then only a scorer that `moves` goes on, a `short` one ends, and any other stays. */
  ghost predicate Advanced(parts: seq<Counting>, moves: bool, short: bool, from: int, target: int, d: int) {
    if target > from || moves then FirstOf(parts, Later(from + 1, target), d)
    else if short then d == NO_MORE_DOCS && FirstOf(parts, from + 1, d)
    else d == from
  }

  /** Advance does what the documented loop of next documents does if and only if the target lies beyond the current
      document, or the scorer moves anyway, or is short. */
  lemma AdvancedIff(parts: seq<Counting>, moves: bool, short: bool, from: int, target: int, d: int)
    requires Advanced(parts, moves, short, from, target, d)
    ensures FirstOf(parts, Later(from + 1, target), d) <==> target > from || moves || short
  {
  }

  lemma OneHolds(c: Counting, d: int)
    ensures AllHold([c], d) <==> c.Holds(d)
  {
    assert [c][0] == c;
  }

  lemma FirstOfOne(c: Counting, lo: int, d: int)
    ensures FirstOf([c], lo, d) <==> FirstMatch(c.Clauses(), c.Min(), lo, d)
  {
    forall x ensures AllHold([c], x) <==> Matchers(c.Clauses(), x) >= c.Min() { OneHolds(c, x); }
  }

  lemma NoneBelowZero(c: Counting, d: int)
    requires c.Ok()
    ensures c.Holds(d) ==> 0 <= d < NO_MORE_DOCS
  {
    if !(0 <= d < NO_MORE_DOCS) {
      forall i | 0 <= i < |c.Clauses()| ensures At(c.Clauses()[i], d).None? { AtAbsent(c.Clauses()[i], d); }
      NoMatches(c.Clauses(), d);
    }
  }

  // ---------- one clause ----------

  lemma OneList(list: PostingList, d: int)
    ensures Matchers([list], d) == Hit(list, d) && SumAt([list], d) == Worth(list, d)
  {
    assert [list][..0] == [];
  }

  /** Between two neighbouring postings nothing matches. */
  lemma NextPosting(list: PostingList, pos: int)
    requires Ordered(list) && -1 <= pos < |list|
    ensures FirstMatch([list], 1, DocAt(list, pos) + 1, DocAt(list, pos + 1))
  {
    forall x | DocAt(list, pos) < x < DocAt(list, pos + 1) ensures Matchers([list], x) < 1 {
      OneList(list, x);
      AtAbsent(list, x);
    }
    if pos + 1 < |list| {
      AtMember(list, pos + 1);
      OneList(list, list[pos + 1].doc);
    }
  }

  lemma SeekPosting(list: PostingList, pos: int, target: int)
    requires Ordered(list) && -1 <= pos < |list| && target <= NO_MORE_DOCS
    ensures FirstMatch([list], 1, Later(DocAt(list, pos) + 1, target), DocAt(list, Seek(list, pos, target)))
  {
    var q := Seek(list, pos, target);
    forall x | Later(DocAt(list, pos) + 1, target) <= x < DocAt(list, q) ensures Matchers([list], x) < 1 {
      OneList(list, x);
      AtAbsent(list, x);
    }
    if q < |list| {
      AtMember(list, q);
      OneList(list, list[q].doc);
    }
  }

  // ---------- a scorer over clauses ----------

  class ClauseScorer {
    const counting: Counting
    const single: PostingsScorer?
    const disjunction: DisjunctionSumScorer?
    const conjunction: ConjunctionScorer?
    ghost const repr: set<object>

    ghost predicate Valid()
      reads this, repr
    {
      && counting.Ok()
      && (counting.SingleMatch? <==> single != null) && (counting.Disjunction? <==> disjunction != null)
      && (counting.Conjunction? <==> conjunction != null)
      && (counting.SingleMatch? ==> single in repr && single.Valid() && single.list == counting.list)
      && (counting.Disjunction? ==>
            && disjunction in repr && disjunction.queue in repr && disjunction.queue.heap in repr
            && disjunction.Valid() && disjunction.Lists() == counting.lists
               && disjunction.minimumNrMatchers == counting.min
            && (0 <= disjunction.currentDoc < NO_MORE_DOCS ==> disjunction.OnMatch()))
      && (counting.Conjunction? ==>
            conjunction in repr && conjunction.Valid() && conjunction.lists == counting.lists)
      && (0 <= Doc() < NO_MORE_DOCS ==> counting.Holds(Doc())) && -1 <= Doc() <= NO_MORE_DOCS
    }

    /** Where it stands, said of any state. */
    ghost function Doc(): int
      reads this, repr
    {
      if single != null && single in repr then single.DocID()
      else if disjunction != null && disjunction in repr then disjunction.currentDoc
      else if conjunction != null && conjunction in repr then conjunction.lastDoc
      else -1
    }

    function DocID(): (d: int)
      requires Valid()
      reads this, repr
      ensures d == Doc()
    {
      if single != null then single.DocID()
      else if disjunction != null then disjunction.currentDoc
      else conjunction.lastDoc
    }

    /** A disjunction of which too few lists are left to make another match. */
    ghost predicate Short()
      reads this, repr
    {
      && counting.Disjunction? && disjunction != null && disjunction in repr && disjunction.queue in repr
      && disjunction.queue.size < disjunction.minimumNrMatchers
    }

    lemma DocRange()
      requires Valid()
      ensures -1 <= Doc() <= NO_MORE_DOCS && (0 <= Doc() < NO_MORE_DOCS ==> counting.Holds(Doc())) && counting.Ok()
    {
    }

    constructor (counting: Counting)
      requires counting.Ok()
      ensures Valid() && this.counting == counting && fresh(repr) && this !in repr
      ensures Doc() == -1 || (Doc() == NO_MORE_DOCS && FirstOf([counting], 0, NO_MORE_DOCS))
    {
      this.counting := counting;
      if counting.SingleMatch? {
        var s := new PostingsScorer(counting.list);
        single, disjunction, conjunction, repr := s, null, null, {s};
      } else if counting.Disjunction? {
        var s := new DisjunctionSumScorer(counting.lists, counting.min);
        single, disjunction, conjunction, repr := null, s, null, {s, s.queue, s.queue.heap};
      } else {
        var s := new ConjunctionScorer(counting.lists);
        single, disjunction, conjunction, repr := null, null, s, {s};
      }
      FirstOfOne(counting, 0, NO_MORE_DOCS);
    }

    method NextDoc() returns (doc: int)
      requires Valid() && Doc() != NO_MORE_DOCS
      modifies repr
      ensures Valid() && doc == Doc() && FirstOf([counting], old(Doc()) + 1, doc)
    {
      hide Matchers, SumAt, At, FirstMatch, FirstOf, Ordered, Split;
      ghost var from := Doc();
      match counting {
        case SingleMatch(list) =>
          NextPosting(list, single.pos);
          doc := single.NextDoc();
        case Disjunction(_, _) => doc := disjunction.NextDoc();
        case Conjunction(_) => doc := conjunction.NextDoc();
      }
      FirstOfOne(counting, from + 1, doc);
      Stands(from + 1, doc);
    }

    lemma Stands(lo: int, doc: int)
      requires FirstMatch(counting.Clauses(), counting.Min(), lo, doc) && 0 <= lo
      ensures 0 <= doc <= NO_MORE_DOCS && (doc < NO_MORE_DOCS ==> counting.Holds(doc))
    {
    }

    method Advance(target: int) returns (doc: int)
      requires Valid() && Doc() != NO_MORE_DOCS && 0 <= target <= NO_MORE_DOCS
      modifies repr
      ensures Valid() && doc == Doc() && Advanced([counting], counting.SingleMatch?, old(Short()), old(Doc()), target,
                doc)
    {
      hide Matchers, SumAt, At, FirstMatch, FirstOf, Ordered, Split;
      ghost var from, short := Doc(), Short();
      match counting {
        case SingleMatch(list) =>
          SeekPosting(list, single.pos, target);
          doc := single.Advance(target);
        case Disjunction(_, _) => doc := disjunction.Advance(target);
        case Conjunction(_) => doc := conjunction.Advance(target);
      }
      Landed(short, from, target, doc);
    }

    /** Wherever advance landed, something matches there. */
    lemma Landed(short: bool, from: int, target: int, doc: int)
      requires counting.Ok() && -1 <= from < NO_MORE_DOCS && 0 <= target <= NO_MORE_DOCS
               && (from >= 0 ==> counting.Holds(from))
      requires var c := counting;
        if target > from || c.SingleMatch? then FirstMatch(c.Clauses(), c.Min(), Later(from + 1, target), doc)
        else if short then doc == NO_MORE_DOCS && FirstMatch(c.Clauses(), c.Min(), from + 1, doc)
        else doc == from
      ensures Advanced([counting], counting.SingleMatch?, short, from, target, doc)
      ensures 0 <= doc <= NO_MORE_DOCS && (doc < NO_MORE_DOCS ==> counting.Holds(doc))
    {
      FirstOfOne(counting, Later(from + 1, target), doc);
      FirstOfOne(counting, from + 1, doc);
    }

    /** The score of the current document, and what a counting scorer adds to the coordinator for it. */
    method Score() returns (score: real, matchers: nat)
      requires Valid() && 0 <= Doc() < NO_MORE_DOCS
      ensures score == SumAt(counting.Clauses(), Doc()) && matchers == Matchers(counting.Clauses(), Doc())
    {
      match counting {
        case SingleMatch(list) =>
          AtMember(list, single.pos);
          OneList(list, single.DocID());
          score, matchers := single.Score(), 1;
        case Disjunction(_, _) => score, matchers := disjunction.currentScore, disjunction.nrMatchers;
        case Conjunction(lists) =>
          AllMatch(lists, conjunction.lastDoc);
          score := conjunction.Score();
          matchers := |lists|;
      }
    }
  }

  // ---------- two scorers at once ----------

  /** What one part lacks, both lack. */
  lemma OneLacks(parts: seq<Counting>, i: nat, lo: int, hi: int, to: int)
    requires i < |parts| && FirstOf([parts[i]], hi, to) && forall x :: lo <= x < hi ==> !AllHold(parts, x)
    ensures forall x :: lo <= x < to ==> !AllHold(parts, x)
  {
    forall x | hi <= x < to ensures !AllHold(parts, x) { OneHolds(parts[i], x); }
  }

  lemma BothHold(parts: seq<Counting>, d: int)
    requires |parts| == 2
    ensures AllHold(parts, d) <==> parts[0].Holds(d) && parts[1].Holds(d)
  {
  }

  /** Before the first call: at the start, or found empty. */
  ghost predicate Unread(c: ClauseScorer)
    reads c, c.repr
  {
    c.Doc() == -1 || (c.Doc() == NO_MORE_DOCS && FirstOf([c.counting], 0, NO_MORE_DOCS))
  }

  /** The first documents, unless there is none. */
  method StartBoth(a: ClauseScorer, b: ClauseScorer) returns (docA: int, docB: int)
    requires a.Valid() && b.Valid() && a.repr !! b.repr && a != b && a !in a.repr + b.repr && b !in a.repr + b.repr
    requires Unread(a) && Unread(b)
    modifies a.repr, b.repr
    ensures a.Valid() && b.Valid() && 0 <= docA <= NO_MORE_DOCS && 0 <= docB <= NO_MORE_DOCS
    ensures docA != NO_MORE_DOCS && docB != NO_MORE_DOCS ==> a.Doc() == docA && b.Doc() == docB
    ensures docA == NO_MORE_DOCS || docB == NO_MORE_DOCS ==> FirstOf([a.counting, b.counting], 0, NO_MORE_DOCS)
    ensures forall x :: 0 <= x < Later(docA, docB) ==> !AllHold([a.counting, b.counting], x)
  {
    hide AllHold, ClauseScorer.Valid, ClauseScorer.Doc;
    ghost var parts := [a.counting, b.counting];
    docA, docB := NO_MORE_DOCS, 0;
    if a.DocID() != NO_MORE_DOCS { docA := a.NextDoc(); }
    OneLacks(parts, 0, 0, 0, docA);
    if docA != NO_MORE_DOCS {
      docB := NO_MORE_DOCS;
      if b.DocID() != NO_MORE_DOCS { docB := b.NextDoc(); }
      OneLacks(parts, 1, 0, 0, docB);
    }
  }

  /** ConjunctionScorer over two scorers. */
  class DualConjunctionScorer {
    ghost const parts: seq<Counting>
    const first: ClauseScorer
    const last: ClauseScorer
    var lastDoc: int
    ghost const repr: set<object>

    ghost predicate Apart()
      reads this, first, last, first.repr, last.repr
    {
      && first.Valid() && last.Valid() && first.repr !! last.repr && this !in first.repr && this !in last.repr
      && first != last && first !in first.repr + last.repr && last !in first.repr + last.repr
      && repr == {this, first, last} + first.repr + last.repr
      && |parts| == 2 && (parts == [first.counting, last.counting] || parts == [last.counting, first.counting])
    }

    /** Both stand on the next document to return, or on the one last returned. */
    ghost predicate Valid()
      reads this, repr, first, last, first.repr, last.repr
    {
      && Apart() && -1 <= lastDoc <= NO_MORE_DOCS
      && (lastDoc != NO_MORE_DOCS ==>
            && first.Doc() == last.Doc() < NO_MORE_DOCS
            && (if lastDoc == -1 then FirstOf(parts, 0, first.Doc()) else first.Doc() == lastDoc))
    }

    /** The scorers are ordered by their first documents. */
    constructor (a: ClauseScorer, b: ClauseScorer)
      requires a.Valid() && b.Valid() && a.repr !! b.repr && a != b && a !in a.repr + b.repr && b !in a.repr + b.repr
      requires Unread(a) && Unread(b)
      modifies a.repr, b.repr
      ensures Valid() && parts == [a.counting, b.counting] && repr == {this, a, b} + a.repr + b.repr
      ensures (first == a && last == b) || (first == b && last == a)
      ensures lastDoc == -1 || (lastDoc == NO_MORE_DOCS && FirstOf(parts, 0, NO_MORE_DOCS))
    {
      hide FirstOf, AllHold, ClauseScorer.Valid, ClauseScorer.Doc;
      parts := [a.counting, b.counting];
      repr := {this, a, b} + a.repr + b.repr;
      var docA, docB := StartBoth(a, b);
      if docB < docA { first, last := b, a; } else { first, last := a, b; }
      lastDoc := if docA == NO_MORE_DOCS || docB == NO_MORE_DOCS then NO_MORE_DOCS else -1;
      new;
      if lastDoc == -1 {
        var doc := DoNext(0);
        FirstRange(0, doc);
        if doc == NO_MORE_DOCS { lastDoc := NO_MORE_DOCS; }
      }
    }

    /** They leap to each other's documents in turn until they agree. */
    method DoNext(ghost lo: int) returns (doc: int)
      requires Apart() && 0 <= lo <= last.Doc() <= NO_MORE_DOCS && first.Doc() <= last.Doc()
               && first.Doc() != NO_MORE_DOCS
      requires forall x :: lo <= x < last.Doc() ==> !AllHold(parts, x)
      modifies first.repr, last.repr
      ensures Apart() && FirstOf(parts, lo, doc)
      ensures doc < NO_MORE_DOCS ==> first.Doc() == last.Doc() == doc
    {
      hide FirstOf, Advanced, ClauseScorer.Valid, ClauseScorer.Short, AllHold, ClauseScorer.DocID;
      doc := last.DocID();
      var firstTurn := true;
      while (if firstTurn then first.DocID() else last.DocID()) < doc
        invariant Apart() && lo <= doc <= NO_MORE_DOCS && first.Doc() <= doc && last.Doc() <= doc
        invariant if firstTurn then last.Doc() == doc else first.Doc() == doc
        invariant forall x :: lo <= x < doc ==> !AllHold(parts, x)
        decreases 2 * NO_MORE_DOCS - first.Doc() - last.Doc()
      {
        doc := Leap(firstTurn, doc, lo);
        firstTurn := !firstTurn;
      }
      Agreed(lo, doc);
    }

    method Leap(firstTurn: bool, target: int, ghost lo: int) returns (doc: int)
      requires Apart() && 0 <= target <= NO_MORE_DOCS && (if firstTurn then first.Doc() else last.Doc()) < target
      requires forall x :: lo <= x < target ==> !AllHold(parts, x)
      modifies first.repr, last.repr
      ensures Apart() && target <= doc <= NO_MORE_DOCS
      ensures if firstTurn then first.Doc() == doc && last.Doc() == old(last.Doc())
              else last.Doc() == doc && first.Doc() == old(first.Doc())
      ensures forall x :: lo <= x < doc ==> !AllHold(parts, x)
    {
      hide FirstOf, Advanced, ClauseScorer.Valid, ClauseScorer.Short, AllHold, ClauseScorer.DocID;
      ghost var f := if firstTurn then first else last;
      ghost var from, short := f.Doc(), f.Short();
      if firstTurn { doc := first.Advance(target); } else { doc := last.Advance(target); }
      Leapt(f.counting, short, from, target, doc);
      OneLacks(parts, if parts[0] == f.counting then 0 else 1, lo, target, doc);
    }

    lemma Leapt(c: Counting, short: bool, from: int, target: int, d: int)
      requires Advanced([c], c.SingleMatch?, short, from, target, d) && from < target
      ensures FirstOf([c], target, d) && target <= d <= NO_MORE_DOCS
    {
    }

    lemma Agreed(lo: int, doc: int)
      requires Apart() && first.Doc() == last.Doc() == doc && 0 <= lo <= doc
      requires forall x :: lo <= x < doc ==> !AllHold(parts, x)
      ensures FirstOf(parts, lo, doc)
    {
      first.DocRange();
      last.DocRange();
      if doc < NO_MORE_DOCS { BothHold(parts, doc); }
    }

    method NextDoc() returns (doc: int)
      requires Valid() && lastDoc != NO_MORE_DOCS
      modifies this, first.repr, last.repr
      ensures Valid() && doc == lastDoc && FirstOf(parts, old(lastDoc) + 1, doc)
    {
      hide AllHold, ClauseScorer.Valid, ClauseScorer.DocID;
      if lastDoc == -1 {
        lastDoc := last.DocID();
        return lastDoc;
      }
      ghost var from := lastDoc;
      doc := last.NextDoc();
      OneLacks(parts, if parts[0] == last.counting then 0 else 1, from + 1, from + 1, doc);
      hide FirstOf;
      lastDoc := DoNext(from + 1);
      doc := lastDoc;
      FirstRange(from + 1, doc);
    }

    /** A target at or before the document returned last leaves both there. */
    method Advance(target: int) returns (doc: int)
      requires Valid() && lastDoc != NO_MORE_DOCS && 0 <= target <= NO_MORE_DOCS
      modifies this, first.repr, last.repr
      ensures Valid() && doc == lastDoc && Advanced(parts, false, false, old(lastDoc), target, doc)
    {
      hide AllHold, ClauseScorer.Valid, ClauseScorer.Doc, ClauseScorer.Short, FirstOf, Advanced;
      ghost var from, at, short := lastDoc, last.Doc(), last.Short();
      if last.DocID() < target {
        doc := last.Advance(target);
        Leapt(last.counting, short, at, target, doc);
        OneLacks(parts, if parts[0] == last.counting then 0 else 1, target, target, doc);
        doc := DoNext(target);
        FirstRange(target, doc);
        LandedBeyond(from, at, target, doc);
      } else {
        StandsHere();
        doc := DoNext(at);
        LandedHere(from, at, target, doc);
      }
      lastDoc := doc;
    }

    /** Both stand on a document that both hold. */
    lemma StandsHere()
      requires Apart() && 0 <= first.Doc() == last.Doc() < NO_MORE_DOCS
      ensures AllHold(parts, last.Doc())
    {
      first.DocRange();
      last.DocRange();
      BothHold(parts, last.Doc());
    }

    lemma LandedBeyond(from: int, at: int, target: int, doc: int)
      requires (from == -1 || from == at) && at < target && FirstOf(parts, target, doc) && 0 <= target
      ensures Advanced(parts, false, false, from, target, doc)
    {
    }

    lemma LandedHere(from: int, at: int, target: int, doc: int)
      requires 0 <= target <= at < NO_MORE_DOCS && AllHold(parts, at) && FirstOf(parts, at, doc)
      requires if from == -1 then FirstOf(parts, 0, at) else from == at
      ensures doc == at && Advanced(parts, false, false, from, target, doc)
    {
    }

    lemma FirstRange(lo: int, doc: int)
      requires FirstOf(parts, lo, doc)
      ensures lo <= doc <= NO_MORE_DOCS
    {
    }
  }

  // ---------- what has to match ----------

  /** The scorer of what has to match: of one part, or of two. */
  class RequiredScorer {
    ghost const parts: seq<Counting>
    const one: ClauseScorer?
    const two: DualConjunctionScorer?
    ghost const repr: set<object>

    ghost predicate Valid()
      reads this, repr
    {
      && this !in repr && (one != null <==> two == null)
      && (one != null ==> one in repr && one.repr <= repr && one.Valid() && parts == [one.counting])
      && (two != null ==>
            two in repr && two.repr <= repr && two.first in repr && two.last in repr && two.first.repr <= repr
                && two.last.repr <= repr
            && two.Valid() && parts == two.parts && |parts| == 2)
    }

    ghost function Doc(): int
      reads this, repr
    {
      if one != null && one in repr && one.repr <= repr then one.Doc()
      else if two != null && two in repr then two.lastDoc
      else -1
    }

    function DocID(): (d: int)
      requires Valid()
      reads this, repr
      ensures d == Doc()
    {
      if one != null then one.DocID() else two.lastDoc
    }

    /** Is it one of the scorers put together? */
    ghost predicate Has(c: ClauseScorer) {
      (one != null && c == one) || (two != null && (c == two.first || c == two.last))
    }

    /** They all stand on the document. */
    lemma Stand(c: ClauseScorer)
      requires Valid() && Has(c) && 0 <= Doc() < NO_MORE_DOCS
      ensures c.Valid() && c.Doc() == Doc() && c in repr && c.repr <= repr
    {
    }

    /** Only a scorer of one clause goes on whatever the target. */
    ghost function Moves(): bool { |parts| == 1 && parts[0].SingleMatch? }

    /** One disjunction is all there is, and too few of its lists are left. */
    ghost predicate Short()
      reads this, repr
    {
      one != null && one in repr && one.repr <= repr && one.Short()
    }

    constructor One(c: ClauseScorer)
      requires c.Valid() && c !in c.repr
      ensures Valid() && one == c && parts == [c.counting] && repr == {c} + c.repr && Doc() == c.Doc()
    {
      parts, one, two, repr := [c.counting], c, null, {c} + c.repr;
    }

    constructor Two(c: DualConjunctionScorer)
      requires c.Valid()
      ensures Valid() && two == c && parts == c.parts && repr == c.repr && Doc() == c.lastDoc
    {
      parts, one, two, repr := c.parts, null, c, c.repr;
    }

    method NextDoc() returns (doc: int)
      requires Valid() && Doc() != NO_MORE_DOCS
      modifies repr
      ensures Valid() && doc == Doc() && FirstOf(parts, old(Doc()) + 1, doc)
    {
      hide FirstOf, ClauseScorer.Valid, ClauseScorer.Doc, DualConjunctionScorer.Valid;
      if one != null { doc := one.NextDoc(); } else { doc := two.NextDoc(); }
    }

    method Advance(target: int) returns (doc: int)
      requires Valid() && Doc() != NO_MORE_DOCS && 0 <= target <= NO_MORE_DOCS
      modifies repr
      ensures Valid() && doc == Doc() && Advanced(parts, Moves(), old(Short()), old(Doc()), target, doc)
    {
      hide Advanced, ClauseScorer.Valid, ClauseScorer.Doc, ClauseScorer.Short, DualConjunctionScorer.Valid;
      if one != null { doc := one.Advance(target); } else { doc := two.Advance(target); }
    }
  }

  // ---------- exclusions ----------

  predicate Keeps(parts: seq<Counting>, excl: Counting, d: int) { AllHold(parts, d) && !excl.Holds(d) }

  /** `d` is the first document from `lo` on that is required and not excluded, or there is none. */
  ghost predicate FirstKept(parts: seq<Counting>, excl: Counting, lo: int, d: int) {
    && (forall x :: lo <= x < d ==> !Keeps(parts, excl, x))
    && lo <= d <= NO_MORE_DOCS && (d < NO_MORE_DOCS ==> Keeps(parts, excl, d))
  }

  /** As `Advanced`, without the exclusions. */
  ghost predicate AdvancedKept(parts: seq<Counting>, excl: Counting, moves: bool, short: bool, from: int, target: int,
                               d: int) {
    if target > from || moves then FirstKept(parts, excl, Later(from + 1, target), d)
    else if short then d == NO_MORE_DOCS && FirstKept(parts, excl, from + 1, d)
    else d == from
  }

  class ReqExclScorer {
    const req: RequiredScorer
    const excl: ClauseScorer
    var reqDone: bool
    var exclDone: bool
    var doc: int
    ghost var exclFrom: int

    /** Nothing is excluded between where the exclusions were last sought from and where they stand. */
    ghost predicate ExclOk(from: int)
      reads this, excl, excl.repr
    {
      && excl.Valid() && 0 <= exclFrom <= from
      && (exclDone <==> excl.Doc() == NO_MORE_DOCS)
      && (excl.Doc() == -1 || FirstOf([excl.counting], exclFrom, excl.Doc()))
    }

    ghost predicate Apart()
      reads this, req, excl, req.repr, excl.repr
    {
      && req.Valid() && req.repr !! excl.repr && req != excl as object && this !in req.repr + excl.repr
      && req !in req.repr + excl.repr && excl !in req.repr + excl.repr
    }

    ghost predicate Valid()
      reads this, req, excl, req.repr, excl.repr
    {
      && Apart() && ExclOk(if doc < 0 then 0 else doc) && -1 <= doc <= NO_MORE_DOCS
      && (reqDone ==> doc == NO_MORE_DOCS || (doc == -1 && FirstOf(req.parts, 0, NO_MORE_DOCS)))
      && (!reqDone ==> doc == req.Doc())
      && (0 <= doc < NO_MORE_DOCS ==> Keeps(req.parts, excl.counting, doc))
    }

    constructor (req: RequiredScorer, excl: ClauseScorer)
      requires req.Valid() && excl.Valid() && req.repr !! excl.repr && req !in req.repr + excl.repr
               && excl !in req.repr + excl.repr
      requires req.Doc() == -1 || (req.Doc() == NO_MORE_DOCS && FirstOf(req.parts, 0, NO_MORE_DOCS))
      requires Unread(excl)
      ensures Valid() && this.req == req && this.excl == excl && doc == -1
    {
      hide FirstOf, Keeps, AllHold, RequiredScorer.Valid, RequiredScorer.Doc, ClauseScorer.Valid, ClauseScorer.Doc;
      this.req, this.excl, doc, exclFrom := req, excl, -1, 0;
      reqDone, exclDone := req.DocID() == NO_MORE_DOCS, excl.DocID() == NO_MORE_DOCS;
    }

    /** Before where the exclusions stand nothing is excluded. */
    lemma NotExcluded(d: int)
      requires excl.Valid() && FirstOf([excl.counting], exclFrom, excl.Doc()) && exclFrom <= d < excl.Doc()
      ensures !excl.counting.Holds(d)
    {
      OneHolds(excl.counting, d);
    }

    lemma Excluded(d: int)
      requires excl.Valid() && FirstOf([excl.counting], exclFrom, excl.Doc()) && d == excl.Doc() < NO_MORE_DOCS
      ensures excl.counting.Holds(d)
    {
      OneHolds(excl.counting, d);
    }

    /** What the required scorer passed is not kept. */
    lemma NoneKept(lo: int, from: int, d: int)
      requires FirstOf(req.parts, from, d) && forall x :: lo <= x < from ==> !Keeps(req.parts, excl.counting, x)
      ensures forall x :: lo <= x < d ==> !Keeps(req.parts, excl.counting, x)
      ensures from <= d <= NO_MORE_DOCS && (d < NO_MORE_DOCS ==> AllHold(req.parts, d))
    {
    }

    lemma IsFirst(lo: int, d: int)
      requires lo <= d <= NO_MORE_DOCS && (forall x :: lo <= x < d ==> !Keeps(req.parts, excl.counting, x))
      requires d < NO_MORE_DOCS ==> AllHold(req.parts, d) && !excl.counting.Holds(d)
      ensures FirstKept(req.parts, excl.counting, lo, d) && (d < NO_MORE_DOCS ==> Keeps(req.parts, excl.counting, d))
    {
    }

    lemma SoughtFrom(short: bool, from: int, target: int)
      requires Advanced([excl.counting], excl.counting.SingleMatch?, short, from, target, excl.Doc()) && from < target
      ensures FirstOf([excl.counting], target, excl.Doc()) && target <= excl.Doc() <= NO_MORE_DOCS
    {
    }

    method NextDoc() returns (d: int)
      requires Valid() && doc != NO_MORE_DOCS
      modifies this, req.repr, excl.repr
      ensures Valid() && d == doc && FirstKept(req.parts, excl.counting, old(doc) + 1, d)
    {
      hide FirstOf, FirstKept, Keeps, AllHold, RequiredScorer.Valid, RequiredScorer.Doc, ClauseScorer.Valid,
           ClauseScorer.Doc;
      ghost var from := doc;
      if reqDone {
        doc := NO_MORE_DOCS;
        NoneKept(0, 0, NO_MORE_DOCS);
        IsFirst(0, NO_MORE_DOCS);
        return doc;
      }
      doc := req.NextDoc();
      NoneKept(from + 1, from + 1, doc);
      if doc == NO_MORE_DOCS {
        reqDone := true;
      } else if exclDone {
        NotExcluded(doc);
      } else {
        doc := ToNonExcluded(from + 1);
        return doc;
      }
      IsFirst(from + 1, doc);
      d := doc;
    }

    /** Moves on to a document that is not excluded. */
    method ToNonExcluded(ghost lo: int) returns (reqDoc: int)
      requires Apart() && ExclOk(req.Doc()) && !exclDone && !reqDone && 0 <= lo <= req.Doc() < NO_MORE_DOCS
               && AllHold(req.parts, req.Doc())
      requires forall x :: lo <= x < req.Doc() ==> !Keeps(req.parts, excl.counting, x)
      modifies this`reqDone, this`exclDone, this`exclFrom, req.repr, excl.repr
      ensures Apart() && ExclOk(reqDoc) && FirstKept(req.parts, excl.counting, lo, reqDoc)
      ensures reqDoc <= NO_MORE_DOCS && (reqDone ==> reqDoc == NO_MORE_DOCS) && (!reqDone ==> reqDoc == req.Doc())
      ensures reqDoc < NO_MORE_DOCS ==> Keeps(req.parts, excl.counting, reqDoc)
    {
      hide FirstOf, FirstKept, Keeps, AllHold, Advanced, RequiredScorer.Valid, RequiredScorer.Doc, ClauseScorer.Valid,
           ClauseScorer.Doc,
           ClauseScorer.Short;
      var exclDoc := excl.DocID();
      reqDoc := req.DocID();
      while true
        invariant Apart() && ExclOk(reqDoc) && !exclDone && !reqDone && reqDoc == req.Doc() && exclDoc == excl.Doc()
        invariant lo <= reqDoc < NO_MORE_DOCS && AllHold(req.parts, reqDoc)
        invariant forall x :: lo <= x < reqDoc ==> !Keeps(req.parts, excl.counting, x)
        decreases NO_MORE_DOCS - reqDoc
      {
        if reqDoc < exclDoc {
          NotExcluded(reqDoc);
          IsFirst(lo, reqDoc);
          return;
        } else if reqDoc > exclDoc {
          ghost var from, short := exclDoc, excl.Short();
          exclDoc := excl.Advance(reqDoc);
          exclFrom := reqDoc;
          SoughtFrom(short, from, reqDoc);
          if exclDoc == NO_MORE_DOCS {
            exclDone := true;
            NotExcluded(reqDoc);
            IsFirst(lo, reqDoc);
            return;
          }
          if exclDoc > reqDoc {
            NotExcluded(reqDoc);
            IsFirst(lo, reqDoc);
            return;
          }
        }
        Excluded(reqDoc);
        reqDoc := PassExcluded(lo, reqDoc);
        if reqDoc == NO_MORE_DOCS {
          reqDone := true;
          IsFirst(lo, reqDoc);
          return;
        }
      }
    }

    /** The excluded document is passed. */
    method PassExcluded(ghost lo: int, ghost from: int) returns (reqDoc: int)
      requires Apart() && from == req.Doc() < NO_MORE_DOCS && lo <= from && excl.counting.Holds(from)
      requires forall x :: lo <= x < from ==> !Keeps(req.parts, excl.counting, x)
      modifies req.repr
      ensures Apart() && reqDoc == req.Doc() && from < reqDoc <= NO_MORE_DOCS
              && (reqDoc < NO_MORE_DOCS ==> AllHold(req.parts, reqDoc))
      ensures forall x :: lo <= x < reqDoc ==> !Keeps(req.parts, excl.counting, x)
    {
      hide FirstOf, AllHold, RequiredScorer.Valid, RequiredScorer.Doc, ClauseScorer.Valid, ClauseScorer.Doc;
      reqDoc := req.NextDoc();
      NoneKept(lo, from + 1, reqDoc);
    }

    /** What the required scorer's advance comes to: from where on nothing it passed is kept, or that it stays. */
    lemma ReqAdvanced(short: bool, from: int, target: int, d: int) returns (lo: int)
      requires Advanced(req.parts, req.Moves(), short, from, target, d) && -1 <= from < NO_MORE_DOCS
               && 0 <= target <= NO_MORE_DOCS
      requires 0 <= from ==> Keeps(req.parts, excl.counting, from)
      ensures 0 <= lo <= d <= NO_MORE_DOCS && from <= d && (d < NO_MORE_DOCS ==> AllHold(req.parts, d))
      ensures forall x :: lo <= x < d ==> !Keeps(req.parts, excl.counting, x)
      ensures forall e :: FirstKept(req.parts, excl.counting, lo, e) && d <= e ==>
                AdvancedKept(req.parts, excl.counting, req.Moves(), short, from, target, e)
    {
      if target > from || req.Moves() {
        lo := Later(from + 1, target);
      } else if d == NO_MORE_DOCS {
        lo := from + 1;
      } else {
        lo := from;
      }
    }

    /** A target at or before the current document leaves the scorer there if it leaves the required one there. */
    method Advance(target: int) returns (d: int)
      requires Valid() && doc != NO_MORE_DOCS && 0 <= target <= NO_MORE_DOCS
      modifies this, req.repr, excl.repr
      ensures Valid() && d == doc && AdvancedKept(req.parts, excl.counting, req.Moves(), old(req.Short()), old(doc),
                target, d)
    {
      hide FirstOf, FirstKept, Keeps, AllHold, Advanced, AdvancedKept, RequiredScorer.Valid, RequiredScorer.Doc,
           RequiredScorer.Moves,
           RequiredScorer.Short,
           ClauseScorer.Valid, ClauseScorer.Doc;
      ghost var from, short := doc, req.Short();
      if reqDone {
        doc := NO_MORE_DOCS;
        NoneFromZero(target);
        return doc;
      }
      doc := req.Advance(target);
      ghost var lo := ReqAdvanced(short, from, target, doc);
      if exclDone || doc == NO_MORE_DOCS {
        if !exclDone { reqDone := true; }
        if doc < NO_MORE_DOCS { NotExcluded(doc); }
        IsFirst(lo, doc);
        return doc;
      }
      doc := ToNonExcluded(lo);
      KeptRange(lo, doc);
      d := doc;
    }

    lemma KeptRange(lo: int, d: int)
      requires FirstKept(req.parts, excl.counting, lo, d)
      ensures lo <= d
    {
    }

    lemma NoneFromZero(target: int)
      requires FirstOf(req.parts, 0, NO_MORE_DOCS) && 0 <= target <= NO_MORE_DOCS
      ensures AdvancedKept(req.parts, excl.counting, req.Moves(), req.Short(), -1, target, NO_MORE_DOCS)
    {
    }
  }

  // ---------- all of it ----------

  predicate Goes(parts: seq<Counting>, exclusions: Option<Counting>, d: int) {
    AllHold(parts, d) && (exclusions.Some? ==> !exclusions.value.Holds(d))
  }

  ghost predicate FirstGoing(parts: seq<Counting>, exclusions: Option<Counting>, lo: int, d: int) {
    && (forall x :: lo <= x < d ==> !Goes(parts, exclusions, x))
    && lo <= d <= NO_MORE_DOCS && (d < NO_MORE_DOCS ==> Goes(parts, exclusions, d))
  }

  /** As `Advanced`, for the whole. */
  ghost predicate AdvancedGoing(parts: seq<Counting>, exclusions: Option<Counting>, moves: bool, short: bool, from: int,
                                target: int, d: int) {
    if target > from || moves then FirstGoing(parts, exclusions, Later(from + 1, target), d)
    else if short then d == NO_MORE_DOCS && FirstGoing(parts, exclusions, from + 1, d)
    else d == from
  }

  /** Advance does what the documented loop of next documents does if and only if the target lies beyond the current
      document, or the scorer moves anyway, or is short. */
  lemma AdvancedGoingIff(parts: seq<Counting>, exclusions: Option<Counting>, moves: bool, short: bool, from: int,
                         target: int, d: int)
    requires AdvancedGoing(parts, exclusions, moves, short, from, target, d)
    ensures FirstGoing(parts, exclusions, Later(from + 1, target), d) <==> target > from || moves || short
  {
  }

  lemma NoExclusions(parts: seq<Counting>, moves: bool, short: bool, from: int, target: int, d: int)
    ensures FirstGoing(parts, None, from, d) <==> FirstOf(parts, from, d)
    ensures AdvancedGoing(parts, None, moves, short, from, target, d) <==>
            Advanced(parts, moves, short, from, target, d)
  {
    forall x ensures Goes(parts, None, x) <==> AllHold(parts, x) {}
    forall lo ensures FirstGoing(parts, None, lo, d) <==> FirstOf(parts, lo, d) {}
  }

  lemma WithExclusions(parts: seq<Counting>, c: Counting, moves: bool, short: bool, from: int, target: int, d: int)
    ensures FirstGoing(parts, Some(c), from, d) <==> FirstKept(parts, c, from, d)
    ensures AdvancedGoing(parts, Some(c), moves, short, from, target, d) <==>
            AdvancedKept(parts, c, moves, short, from, target, d)
  {
    forall x ensures Goes(parts, Some(c), x) <==> Keeps(parts, c, x) {}
    forall lo ensures FirstGoing(parts, Some(c), lo, d) <==> FirstKept(parts, c, lo, d) {}
  }

  /** The counting sum scorer: what has to match, without the exclusions if there are any. */
  class CountingSumScorer {
    ghost const parts: seq<Counting>
    ghost const exclusions: Option<Counting>
    const required: RequiredScorer
    const reqExcl: ReqExclScorer?
    ghost const repr: set<object>

    ghost predicate Plain()
      reads this, repr
    {
      && required in repr && required.repr <= repr && required.Valid() && parts == required.parts && exclusions.None?
      && -1 <= required.Doc() <= NO_MORE_DOCS
    }

    ghost predicate Excluding()
      reads this, repr
    {
      && reqExcl != null && reqExcl in repr && required in repr && required.repr <= repr
      && reqExcl.excl in repr && reqExcl.excl.repr <= repr && reqExcl.req == required && reqExcl.Valid()
      && parts == required.parts && exclusions == Some(reqExcl.excl.counting)
    }

    ghost predicate Valid()
      reads this, repr
    {
      && this !in repr && (if reqExcl == null then Plain() else Excluding())
      && (0 <= Doc() < NO_MORE_DOCS ==> Goes(parts, exclusions, Doc()) && required.Valid() && required.Doc() == Doc())
    }

    ghost function Doc(): int
      reads this, repr
    {
      if reqExcl == null then (if required in repr && required.repr <= repr then required.Doc() else -1)
      else if reqExcl in repr then reqExcl.doc else -1
    }

    /** What has to match is one disjunction, of which too few lists are left. */
    ghost predicate Short()
      reads this, repr
    {
      required in repr && required.repr <= repr && required.Short()
    }

    constructor Required(required: RequiredScorer)
      requires required.Valid() && required !in required.repr && -1 <= required.Doc() <= NO_MORE_DOCS
      requires required.Doc() < 0 || required.Doc() == NO_MORE_DOCS
      ensures Valid() && this.required == required && parts == required.parts && exclusions == None
      ensures reqExcl == null && repr == {required} + required.repr && Doc() == required.Doc()
    {
      this.required, reqExcl, parts, exclusions, repr := required, null, required.parts, None,
          {required} + required.repr;
    }

    constructor Excluded(reqExcl: ReqExclScorer)
      requires reqExcl.Valid() && reqExcl.doc == -1
      ensures Valid() && required == reqExcl.req && parts == required.parts && exclusions == Some(reqExcl.excl.counting)
      ensures this.reqExcl == reqExcl && repr == {reqExcl, reqExcl.req, reqExcl.excl} + reqExcl.req.repr
              + reqExcl.excl.repr && Doc() == -1
    {
      required, this.reqExcl, parts, exclusions := reqExcl.req, reqExcl, reqExcl.req.parts, Some(reqExcl.excl.counting);
      repr := {reqExcl, reqExcl.req, reqExcl.excl} + reqExcl.req.repr + reqExcl.excl.repr;
    }

    method NextDoc() returns (d: int)
      requires Valid()
      modifies repr
      ensures Valid() && d == Doc() && if old(Doc()) == NO_MORE_DOCS then d == NO_MORE_DOCS
                                       else FirstGoing(parts, exclusions, old(Doc()) + 1, d)
    {
      hide FirstOf, FirstKept, FirstGoing, AllHold, RequiredScorer.Valid, RequiredScorer.Doc, ReqExclScorer.Valid;
      ghost var from := Doc();
      if reqExcl == null {
        if required.DocID() == NO_MORE_DOCS { return NO_MORE_DOCS; }
        d := required.NextDoc();
        NoExclusions(parts, false, false, from + 1, 0, d);
      } else {
        if reqExcl.doc == NO_MORE_DOCS { return NO_MORE_DOCS; }
        d := reqExcl.NextDoc();
        WithExclusions(parts, reqExcl.excl.counting, false, false, from + 1, 0, d);
        KeptStands();
      }
      GoingRange(from + 1, d);
    }

    method Advance(target: int) returns (d: int)
      requires Valid() && 0 <= target <= NO_MORE_DOCS
      modifies repr
      ensures Valid() && d == Doc() && if old(Doc()) == NO_MORE_DOCS then d == NO_MORE_DOCS
                                       else AdvancedGoing(parts, exclusions, required.Moves(), old(Short()),
                                           old(Doc()), target, d)
    {
      hide FirstOf, FirstKept, FirstGoing, Advanced, AdvancedKept, AllHold, RequiredScorer.Valid, RequiredScorer.Doc,
           RequiredScorer.Moves,
           RequiredScorer.Short, ReqExclScorer.Valid, Goes, AdvancedGoing;
      ghost var from, short := Doc(), required.Short();
      if reqExcl == null {
        if required.DocID() == NO_MORE_DOCS { return NO_MORE_DOCS; }
        d := required.Advance(target);
        NoExclusions(parts, required.Moves(), short, from, target, d);
      } else {
        if reqExcl.doc == NO_MORE_DOCS { return NO_MORE_DOCS; }
        KeptStands();
        d := reqExcl.Advance(target);
        WithExclusions(parts, reqExcl.excl.counting, required.Moves(), short, from, target, d);
        KeptStands();
      }
      AdvancedRange(required.Moves(), short, from, target, d);
    }

    lemma KeptStands()
      requires reqExcl != null && reqExcl.Valid() && reqExcl.req == required
      ensures -1 <= reqExcl.doc <= NO_MORE_DOCS
      ensures 0 <= reqExcl.doc < NO_MORE_DOCS ==> required.Valid() && required.Doc() == reqExcl.doc
    {
    }

    lemma GoingRange(lo: int, d: int)
      requires FirstGoing(parts, exclusions, lo, d)
      ensures lo <= d <= NO_MORE_DOCS && (d < NO_MORE_DOCS ==> Goes(parts, exclusions, d))
    {
    }

    lemma AdvancedRange(moves: bool, short: bool, from: int, target: int, d: int)
      requires AdvancedGoing(parts, exclusions, moves, short, from, target, d) && -1 <= from < NO_MORE_DOCS
               && 0 <= target <= NO_MORE_DOCS
      requires 0 <= from ==> Goes(parts, exclusions, from)
      ensures 0 <= d <= NO_MORE_DOCS && from <= d && (d < NO_MORE_DOCS ==> Goes(parts, exclusions, d))
    {
    }
  }
}
