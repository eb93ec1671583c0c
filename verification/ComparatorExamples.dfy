/**
 Segments and calls on which the comparator by ordinal is wrong.
 */
module ComparatorExamples {
  import opened Comparators
  import opened ComparatorRuns

  const A: Text := [97]
  const B: Text := [98]

  /** One document with the terms a and b: the table has room for one of them. */
  const TWO_TERMS := Reader([Term(A, {0}), Term(B, {0})], 1)

  lemma FallenTerm()
    ensures TWO_TERMS.Ok() && TWO_TERMS.Index().lookup[TWO_TERMS.Index().order[0]] == A && TWO_TERMS.Strings()[0] == B
    ensures exists rs, calls :: GoodBut(rs, TWO_TERMS) && Legal(Sizes(rs), 1, calls) && Ordered(Sizes(rs), 1, calls)
              && !Agree(rs, 1, calls)
  {
    assert 0 in TWO_TERMS.terms[1].docs && 0 in TWO_TERMS.terms[0].docs;
    var rs, calls := FallenDisagrees(TWO_TERMS, 1, 0);
  }

  /** One document whose only term is the empty string: compared with itself as the bottom, after the segment is read
      again, it is found to be greater. */
  const EMPTY_TERM := Reader([Term([], {0})], 1)

  lemma EmptyTerm()
    ensures EMPTY_TERM.Ok() && EMPTY_TERM.Index().lookup == [[], []] && EMPTY_TERM.Index().order == [1]
    ensures Legal(Sizes([EMPTY_TERM]), 1, Probe(0, 0, 0)) && Ordered(Sizes([EMPTY_TERM]), 1, Probe(0, 0, 0))
    ensures !Agree([EMPTY_TERM], 1, Probe(0, 0, 0))
  {
    assert 0 in EMPTY_TERM.terms[0].docs;
    LastTerm(EMPTY_TERM.terms, 0, 0);
    Probed([EMPTY_TERM], 1, 0, 0, 0);
  }

  /** Document 0 has the term a, and document 1 the term b. */
  const A_AND_B := Reader([Term(A, {0}), Term(B, {1})], 2)

  /** The bottom slot is filled again with document 0 before the segment changes, and not set again. */
  const STALE: seq<Call> := [SetNextReader(0)] + [Copy(0, 1)] + [SetBottom(0)] + [Copy(0, 0)] + [SetNextReader(0)]

  lemma Letters()
    ensures A_AND_B.Ok() && A_AND_B.Good() && A_AND_B.Index() == StringIndex([1, 2], [[], A, B])
            && A_AND_B.Strings() == [A, B]
  {
    assert 0 in A_AND_B.terms[0].docs && 1 in A_AND_B.terms[1].docs && 0 !in A_AND_B.terms[1].docs;
    LastTerm(A_AND_B.terms, 0, 0);
    LastTerm(A_AND_B.terms, 1, 1);
    assert Cmp(A, B) == -1;
    assert A_AND_B.Index().order == [1, 2];
    assert A_AND_B.Index().lookup == [[], A, B];
  }

  lemma StaleOrd(x: StringIndex)
    requires |x.order| == 2 && x.order[0] < |x.lookup| && x.order[1] < |x.lookup|
    ensures var s := OrdStart(1).SetNextReader(x).Copy(0, 1).SetBottom(0).Copy(0, 0).SetNextReader(x);
      s.bottomOrd == OrdOf(x.lookup, x.lookup[x.order[0]]) && s.bottomValue == x.lookup[x.order[1]] && s.index == x
  {
    hide Cmp, OrdOf, TableOk;
  }

  /** The ordinal kept is that of document 0, and the value kept that of document 1. */
  lemma StaleState(rs: seq<Reader>)
    requires rs == [A_AND_B]
    ensures Legal(Sizes(rs), 1, STALE) && OrdAfter(rs, 1, STALE).bottomOrd == OrdOf([[], A, B], A)
    ensures OrdAfter(rs, 1, STALE).bottomValue == B == ValAfter(rs, 1, STALE).bottom
    ensures var t := TraceOf(Sizes(rs), 1, STALE).value;
      t.readers == [0] + [0] && t.bottomSlot == 0 && t.bottom == Of(0, 1) && t.held == Of(0, 0)
  {
    Letters();
    hide Cmp, OrdOf, Reader.Index, Reader.Strings, OrdState.Copy, OrdState.SetBottom, OrdState.SetNextReader,
         OrdState.Converted, OrdStart,
         Trace.Ok, OrdFits, ValFits;
    var calls := [SetNextReader(0)];
    Extended(rs, 1, [], SetNextReader(0));
    assert [] + calls == calls;
    Extended(rs, 1, calls, Copy(0, 1));
    calls := calls + [Copy(0, 1)];
    Extended(rs, 1, calls, SetBottom(0));
    calls := calls + [SetBottom(0)];
    Extended(rs, 1, calls, Copy(0, 0));
    calls := calls + [Copy(0, 0)];
    Extended(rs, 1, calls, SetNextReader(0));
    StaleOrd(A_AND_B.Index());
  }

  /** Document 1 is then found to be greater than the bottom value, which is its own. */
  lemma StaleBottomDisagrees()
    ensures AllGood([A_AND_B]) && Legal(Sizes([A_AND_B]), 1, STALE + [CompareBottom(1)])
    ensures !Ordered(Sizes([A_AND_B]), 1, STALE + [CompareBottom(1)])
            && !Agree([A_AND_B], 1, STALE + [CompareBottom(1)])
  {
    Letters();
    hide Cmp, Reader.Index, Reader.Strings, Reader.Good, OrdAfter, ValAfter, TraceOf, STALE;
    StaleState([A_AND_B]);
    AIsFirst();
    Extended([A_AND_B], 1, STALE, CompareBottom(1));
  }

  lemma AIsFirst()
    ensures OrdOf([[], A, B], A) == 1 && Cmp(B, B) == 0
  {
  }
}
