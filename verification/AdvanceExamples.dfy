/**
 Scorers that stand on document 0, with document 1 still to come, and are told to advance to document 0: the documented
 loop of next documents would lead them to document 1, and they stay.
 */
module AdvanceExamples {
  import opened Postings
  import opened DisjunctionSums
  import opened Conjunctions
  import opened DisjunctionMaxes
  import opened BooleanScorer2s

  const LIST: PostingList := [Posting(0, 1.0), Posting(1, 1.0)]
  const LISTS := [LIST, LIST]
  const COORD := [1.0, 1.0, 1.0]

  lemma BothMatch(d: int)
    requires d == 0 || d == 1
    ensures At(LIST, d) == Some(1.0) && Matchers(LISTS, d) == 2
  {
    AtMember(LIST, d);
    assert LISTS[..1] == [LIST] && [LIST][..0] == [];
    assert Matchers([LIST], d) == 1;
  }

  /** Document 0 comes first, and then document 1. */
  lemma FirstOnes(min: int, d: int)
    requires 1 <= min <= 2
    ensures FirstMatch(LISTS, min, 0, d) <==> d == 0
    ensures FirstMatch(LISTS, min, 1, d) <==> d == 1
  {
    BothMatch(0);
    BothMatch(1);
  }

  method DisjunctionStays() returns (d: int)
    ensures d == 0 && !FirstMatch(LISTS, 1, Later(0 + 1, 0), d) && FirstMatch(LISTS, 1, Later(0 + 1, 0), 1)
  {
    var scorer := new DisjunctionSumScorer(LISTS, 1);
    d := scorer.NextDoc();
    FirstOnes(1, d);
    d := scorer.Advance(0);
    FirstOnes(1, d);
  }

  method ConjunctionStays() returns (d: int)
    ensures d == 0 && !FirstMatch(LISTS, 2, Later(0 + 1, 0), d) && FirstMatch(LISTS, 2, Later(0 + 1, 0), 1)
  {
    var scorer := new ConjunctionScorer(LISTS);
    FirstOnes(2, NO_MORE_DOCS);
    d := scorer.NextDoc();
    FirstOnes(2, d);
    d := scorer.Advance(0);
    FirstOnes(2, d);
  }

  method DisjunctionMaxStays() returns (d: int)
    ensures d == 0 && !FirstMatch(LISTS, 1, Later(0 + 1, 0), d) && FirstMatch(LISTS, 1, Later(0 + 1, 0), 1)
  {
    var scorer := new DisjunctionMaxScorer(0.0, LISTS);
    d := scorer.NextDoc();
    FirstOnes(1, d);
    d := scorer.Advance(0);
    FirstOnes(1, d);
  }

  /** Document 0 is the first hit, and document 1 the next. */
  lemma FirstHits(d: int)
    ensures var plan := MakeCountingSumScorer([], LISTS, [], 0);
      && !plan.Moves() && (NextHit(plan, COORD, 0, d) <==> d == 0) && (NextHit(plan, COORD, 1, d) <==> d == 1)
  {
    hide PlanHit, Matchers, At, SumAt;
    AllWanted([], LISTS, [], 0, COORD);
    BothMatch(0);
    BothMatch(1);
    NoClauses(0);
    NoClauses(1);
    assert Wanted([], LISTS, [], 0, COORD, 0).Some? && Wanted([], LISTS, [], 0, COORD, 1).Some?;
    var plan := MakeCountingSumScorer([], LISTS, [], 0);
    assert PlanHit(plan, COORD, 0).Some? && PlanHit(plan, COORD, 1).Some?;
  }

  method BooleanStays() returns (d: int)
    ensures d == 0 && !NextHit(MakeCountingSumScorer([], LISTS, [], 0), COORD, Later(0 + 1, 0), d)
    ensures NextHit(MakeCountingSumScorer([], LISTS, [], 0), COORD, Later(0 + 1, 0), 1)
  {
    var scorer := new BooleanScorer2([], LISTS, [], 0, COORD);
    d := scorer.NextDoc();
    FirstHits(d);
    d := scorer.Advance(0);
    FirstHits(d);
  }
}
