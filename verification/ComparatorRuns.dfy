/**
 Whole sequences of calls to the comparator by ordinal and to the comparator by value: over which segments, and in which
 order of calls, they give the same answers.
 */
module ComparatorRuns {
  import opened Comparators

  datatype Option<+T> = None | Some(value: T)

  /** A call; a segment is named by its place in the list of segments. */
  datatype Call =
    | Compare(slot1: nat, slot2: nat)
    | CompareBottom(doc: nat)
    | Copy(slot: nat, doc: nat)
    | SetBottom(slot: nat)
    | SetNextReader(reader: nat)

  /** Where a value comes from. */
  datatype Source = Unfilled | Of(reader: nat, doc: nat)

  /** What the calls have done, whatever the segments hold: what each slot was filled from, the segments so far, the
      bottom slot, what it held when it was set, and what it held when it was last looked up in a segment's table. */
  datatype Trace = Trace(slots: seq<Source>, readers: seq<nat>, bottomSlot: int, bottom: Source, held: Source)
  {
    predicate InReader(sizes: seq<nat>, doc: nat) { readers != [] && Current() < |sizes| && doc < sizes[Current()] }

    function Current(): nat
      requires readers != []
    {
      readers[|readers| - 1]
    }

    /** Slots and documents exist, a segment comes first, and the bottom is set before documents are compared with it.
        */
    predicate Allows(sizes: seq<nat>, c: Call) {
      match c
      case Compare(a, b) => a < |slots| && b < |slots|
      case CompareBottom(doc) => bottomSlot != -1 && InReader(sizes, doc)
      case Copy(slot, doc) => slot < |slots| && InReader(sizes, doc)
      case SetBottom(slot) => slot < |slots| && readers != []
      case SetNextReader(r) => r < |sizes|
    }

    function After(sizes: seq<nat>, c: Call): (t: Trace)
      requires Allows(sizes, c) && Ok(sizes)
      ensures t.Ok(sizes) && |t.slots| == |slots|
    {
      match c
      case Compare(_, _) => this
      case CompareBottom(_) => this
      case Copy(slot, doc) => this.(slots := slots[slot := Of(Current(), doc)])
      case SetBottom(slot) => this.(bottomSlot := slot, bottom := slots[slot], held := slots[slot])
      case SetNextReader(r) => this.(readers := readers + [r],
          held := if bottomSlot == -1 then held else slots[bottomSlot])
    }

    /** The document is compared with a bottom value whose ordinal is known, or with the one whose ordinal is kept
        instead. */
    predicate KnowsBottom(doc: nat)
      requires readers != []
    {
      held == bottom || held == Of(Current(), doc)
    }

    predicate Ok(sizes: seq<nat>) {
      && -1 <= bottomSlot < |slots| && (bottomSlot != -1 ==> readers != [])
      && (forall g :: 0 <= g < |readers| ==> readers[g] < |sizes|)
      && (forall i :: 0 <= i < |slots| ==> SourceOk(sizes, slots[i])) && SourceOk(sizes, bottom)
         && SourceOk(sizes, held)
    }
  }

  predicate SourceOk(sizes: seq<nat>, s: Source) { s.Of? ==> s.reader < |sizes| && s.doc < sizes[s.reader] }

  /** The trace of a legal sequence of calls. */
  function TraceOf(sizes: seq<nat>, numHits: nat, calls: seq<Call>): (t: Option<Trace>)
    ensures t.Some? ==> t.value.Ok(sizes) && |t.value.slots| == numHits
  {
    if calls == [] then Some(Trace(seq(numHits, _ => Unfilled), [], -1, Unfilled, Unfilled))
    else
      var t := TraceOf(sizes, numHits, calls[..|calls| - 1]);
      if t.Some? && t.value.Allows(sizes, calls[|calls| - 1]) then Some(t.value.After(sizes, calls[|calls| - 1]))
          else None
  }

  predicate Legal(sizes: seq<nat>, numHits: nat, calls: seq<Call>) { TraceOf(sizes, numHits, calls).Some? }

  /** Whenever a document is compared with the bottom, the ordinal kept serves. */
  predicate Ordered(sizes: seq<nat>, numHits: nat, calls: seq<Call>)
    requires Legal(sizes, numHits, calls)
  {
    calls == [] ||
    (var before, c := calls[..|calls| - 1], calls[|calls| - 1];
     Ordered(sizes, numHits, before) && (c.CompareBottom? ==> TraceOf(sizes, numHits, before).value.KnowsBottom(c.doc)))
  }

  /** Whenever a new segment comes, the bottom slot still holds what it held when it was set. */
  predicate SetAgain(sizes: seq<nat>, numHits: nat, calls: seq<Call>)
    requires Legal(sizes, numHits, calls)
  {
    calls == [] ||
    (var before, c := calls[..|calls| - 1], calls[|calls| - 1];
     var t := TraceOf(sizes, numHits, before).value;
     SetAgain(sizes, numHits, before) && (c.SetNextReader? && t.bottomSlot != -1 ==> t.slots[t.bottomSlot] == t.bottom))
  }

  /** Collectors set the bottom again as soon as they have filled its slot, before the next segment: that order serves.
      */
  lemma {:induction false} SetAgainIsOrdered(sizes: seq<nat>, numHits: nat, calls: seq<Call>)
    requires Legal(sizes, numHits, calls) && SetAgain(sizes, numHits, calls)
    ensures Ordered(sizes, numHits, calls)
    ensures TraceOf(sizes, numHits, calls).value.held == TraceOf(sizes, numHits, calls).value.bottom
  {
    if calls != [] { SetAgainIsOrdered(sizes, numHits, calls[..|calls| - 1]); }
  }

  // ---------- the two comparators ----------

  function Sizes(rs: seq<Reader>): (sizes: seq<nat>)
    ensures |sizes| == |rs| && forall i :: 0 <= i < |rs| ==> sizes[i] == rs[i].maxDoc
  {
    seq(|rs|, i requires 0 <= i < |rs| => rs[i].maxDoc)
  }

  predicate OrdFits(rs: seq<Reader>, t: Trace, s: OrdState) {
    && t.Ok(Sizes(rs)) && s.Shaped() && |s.values| == |t.slots| && s.gen == |t.readers| - 1
       && s.bottomSlot == t.bottomSlot
    && s.index == if t.readers == [] then StringIndex([], []) else rs[t.Current()].Index()
  }

  function OrdStep(rs: seq<Reader>, t: Trace, s: OrdState, c: Call): (s': OrdState)
    requires OrdFits(rs, t, s) && t.Allows(Sizes(rs), c)
    ensures OrdFits(rs, t.After(Sizes(rs), c), s')
  {
    match c
    case Compare(_, _) => s
    case CompareBottom(_) => s
    case Copy(slot, doc) => s.Copy(slot, doc)
    case SetBottom(slot) => s.SetBottom(slot)
    case SetNextReader(r) => s.SetNextReader(rs[r].Index())
  }

  function OrdAfter(rs: seq<Reader>, numHits: nat, calls: seq<Call>): (s: OrdState)
    requires Legal(Sizes(rs), numHits, calls)
    ensures OrdFits(rs, TraceOf(Sizes(rs), numHits, calls).value, s)
  {
    if calls == [] then OrdStart(numHits)
    else
      var before := calls[..|calls| - 1];
      OrdStep(rs, TraceOf(Sizes(rs), numHits, before).value, OrdAfter(rs, numHits, before), calls[|calls| - 1])
  }

  predicate ValFits(rs: seq<Reader>, t: Trace, v: ValState) {
    && t.Ok(Sizes(rs)) && |v.values| == |t.slots|
    && v.strings == if t.readers == [] then [] else rs[t.Current()].Strings()
  }

  function ValStep(rs: seq<Reader>, t: Trace, v: ValState, c: Call): (v': ValState)
    requires ValFits(rs, t, v) && t.Allows(Sizes(rs), c)
    ensures ValFits(rs, t.After(Sizes(rs), c), v')
  {
    match c
    case Compare(_, _) => v
    case CompareBottom(_) => v
    case Copy(slot, doc) => v.Copy(slot, doc)
    case SetBottom(slot) => v.SetBottom(slot)
    case SetNextReader(r) => v.SetNextReader(rs[r].Strings())
  }

  function ValAfter(rs: seq<Reader>, numHits: nat, calls: seq<Call>): (v: ValState)
    requires Legal(Sizes(rs), numHits, calls)
    ensures ValFits(rs, TraceOf(Sizes(rs), numHits, calls).value, v)
  {
    if calls == [] then ValState(seq(numHits, _ => []), [], [])
    else
      var before := calls[..|calls| - 1];
      ValStep(rs, TraceOf(Sizes(rs), numHits, before).value, ValAfter(rs, numHits, before), calls[|calls| - 1])
  }

  /** The sign of what the call returns. */
  function OrdAnswer(rs: seq<Reader>, t: Trace, s: OrdState, c: Call): int
    requires OrdFits(rs, t, s) && t.Allows(Sizes(rs), c)
  {
    match c
    case Compare(a, b) => Sign(s.Compare(a, b))
    case CompareBottom(doc) => Sign(s.CompareBottom(doc))
    case _ => 0
  }

  function ValAnswer(rs: seq<Reader>, t: Trace, v: ValState, c: Call): int
    requires ValFits(rs, t, v) && t.Allows(Sizes(rs), c)
  {
    match c
    case Compare(a, b) => v.Compare(a, b)
    case CompareBottom(doc) => v.CompareBottom(doc)
    case _ => 0
  }

  /** Every call gets the same answer from both. */
  predicate Agree(rs: seq<Reader>, numHits: nat, calls: seq<Call>)
    requires Legal(Sizes(rs), numHits, calls)
  {
    calls == [] ||
    (var before, c := calls[..|calls| - 1], calls[|calls| - 1];
     var t := TraceOf(Sizes(rs), numHits, before).value;
     && Agree(rs, numHits, before)
     && OrdAnswer(rs, t, OrdAfter(rs, numHits, before), c) == ValAnswer(rs, t, ValAfter(rs, numHits, before), c))
  }

  // ---------- good segments ----------

  predicate AllOk(rs: seq<Reader>) { forall i :: 0 <= i < |rs| ==> rs[i].Ok() }

  predicate AllGood(rs: seq<Reader>) { AllOk(rs) && forall i :: 0 <= i < |rs| ==> rs[i].Good() }

  /** A good segment's two caches hold the same strings, and its ordinals are those of the strings. */
  lemma GoodIndex(r: Reader)
    requires r.Ok() && r.Good()
    ensures r.Index().Exact()
    ensures forall d :: 0 <= d < r.maxDoc ==> r.Index().lookup[r.Index().order[d]] == r.Strings()[d]
  {
    hide Cmp, TermsOk, TableOk, IsOrd, LookupOk;
    var index := r.Index();
    TablesOk(r.terms, r.maxDoc);
    forall d | 0 <= d < r.maxDoc
      ensures IsOrd(index.lookup, index.lookup[index.order[d]], index.order[d])
              && index.lookup[index.order[d]] == r.Strings()[d]
    {
      assert r.GoodAt(d);
      CachesAgree(r.terms, r.maxDoc, d);
      EntryIsOrd(index.lookup, index.order[d]);
    }
  }

  function Value(rs: seq<Reader>, s: Source): Text
    requires s.Of? ==> s.reader < |rs|
  {
    match s case Unfilled => [] case Of(r, d) => StringOf(rs[r].terms, d)
  }

  function Tables(rs: seq<Reader>, readers: seq<nat>): seq<seq<Text>>
    requires forall g :: 0 <= g < |readers| ==> readers[g] < |rs|
  {
    seq(|readers|, g requires 0 <= g < |readers| => Lookup(rs[readers[g]].terms, rs[readers[g]].maxDoc))
  }

  /** Over good segments the two hold the same values, and the bottom ordinal is that of what the bottom slot held when
      it was last looked up. */
  ghost predicate Alike(rs: seq<Reader>, t: Trace, s: OrdState, v: ValState) {
    && OrdFits(rs, t, s) && ValFits(rs, t, v) && s.Exact(Tables(rs, t.readers)) && s.values == v.values
    && (forall i :: 0 <= i < |t.slots| ==> s.values[i] == Value(rs, t.slots[i]))
    && s.bottomValue == v.bottom == Value(rs, t.bottom)
    && (t.bottomSlot != -1 ==> IsOrd(s.index.lookup, Value(rs, t.held), s.bottomOrd))
  }

  lemma AlikeCopy(rs: seq<Reader>, t: Trace, s: OrdState, v: ValState, slot: nat, doc: nat)
    requires AllGood(rs) && Alike(rs, t, s, v) && t.Allows(Sizes(rs), Copy(slot, doc))
    ensures Alike(rs, t.After(Sizes(rs), Copy(slot, doc)), s.Copy(slot, doc), v.Copy(slot, doc))
  {
    hide Cmp, IsOrd, TableOk, Reader.Good, Reader.Ok, OrdState.Exact, OrdOf, StringIndex.Exact, StringOf;
    GoodIndex(rs[t.Current()]);
    CopyExact(s, Tables(rs, t.readers), slot, doc);
  }

  lemma AlikeSetBottom(rs: seq<Reader>, t: Trace, s: OrdState, v: ValState, slot: nat)
    requires AllGood(rs) && Alike(rs, t, s, v) && t.Allows(Sizes(rs), SetBottom(slot))
    ensures Alike(rs, t.After(Sizes(rs), SetBottom(slot)), s.SetBottom(slot), v.SetBottom(slot))
  {
    hide Cmp, IsOrd, TableOk, Reader.Good, Reader.Ok, OrdState.Exact, OrdOf, StringIndex.Exact, StringOf;
    SetBottomExact(s, Tables(rs, t.readers), slot);
  }

  lemma AlikeSetNextReader(rs: seq<Reader>, t: Trace, s: OrdState, v: ValState, r: nat)
    requires AllGood(rs) && Alike(rs, t, s, v) && r < |rs|
    ensures Alike(rs, t.After(Sizes(rs), SetNextReader(r)), s.SetNextReader(rs[r].Index()),
              v.SetNextReader(rs[r].Strings()))
  {
    hide Cmp, IsOrd, TableOk, Reader.Good, Reader.Ok, OrdState.Exact, OrdOf, StringIndex.Exact, StringOf;
    GoodIndex(rs[r]);
    SetNextReaderExact(s, Tables(rs, t.readers), rs[r].Index());
    assert Tables(rs, t.readers + [r]) == Tables(rs, t.readers) + [rs[r].Index().lookup];
  }

  lemma AlikeStep(rs: seq<Reader>, t: Trace, s: OrdState, v: ValState, c: Call)
    requires AllGood(rs) && Alike(rs, t, s, v) && t.Allows(Sizes(rs), c)
    ensures Alike(rs, t.After(Sizes(rs), c), OrdStep(rs, t, s, c), ValStep(rs, t, v, c))
  {
    hide Alike, OrdFits, ValFits, AllGood;
    match c
    case Compare(_, _) =>
    case CompareBottom(_) =>
    case Copy(slot, doc) => AlikeCopy(rs, t, s, v, slot, doc);
    case SetBottom(slot) => AlikeSetBottom(rs, t, s, v, slot);
    case SetNextReader(r) => AlikeSetNextReader(rs, t, s, v, r);
  }

  lemma {:induction false} AlikeAfter(rs: seq<Reader>, numHits: nat, calls: seq<Call>)
    requires AllGood(rs) && Legal(Sizes(rs), numHits, calls)
    ensures Alike(rs, TraceOf(Sizes(rs), numHits, calls).value, OrdAfter(rs, numHits, calls),
              ValAfter(rs, numHits, calls))
  {
    if calls != [] {
      var before := calls[..|calls| - 1];
      AlikeAfter(rs, numHits, before);
      AlikeStep(rs, TraceOf(Sizes(rs), numHits, before).value, OrdAfter(rs, numHits, before),
          ValAfter(rs, numHits, before), calls[|calls| - 1]);
    }
  }

  lemma AlikeAnswers(rs: seq<Reader>, t: Trace, s: OrdState, v: ValState, c: Call)
    requires AllGood(rs) && Alike(rs, t, s, v) && t.Allows(Sizes(rs), c) && (c.CompareBottom? ==> t.KnowsBottom(c.doc))
    ensures OrdAnswer(rs, t, s, c) == ValAnswer(rs, t, v, c)
  {
    hide Cmp, IsOrd, TableOk, Reader.Good, Reader.Ok;
    match c
    case Compare(a, b) => CompareExact(s, Tables(rs, t.readers), a, b);
    case CompareBottom(doc) =>
      GoodIndex(rs[t.Current()]);
      CompareBottomExact(s, Value(rs, t.held), doc);
    case _ =>
  }

  /** Over good segments, calls in a serving order get the same answers. */
  lemma {:induction false} AgreeIfOrdered(rs: seq<Reader>, numHits: nat, calls: seq<Call>)
    requires AllGood(rs) && Legal(Sizes(rs), numHits, calls) && Ordered(Sizes(rs), numHits, calls)
    ensures Agree(rs, numHits, calls)
  {
    if calls != [] {
      var before := calls[..|calls| - 1];
      AgreeIfOrdered(rs, numHits, before);
      AlikeAfter(rs, numHits, before);
      AlikeAnswers(rs, TraceOf(Sizes(rs), numHits, before).value, OrdAfter(rs, numHits, before),
          ValAfter(rs, numHits, before),
                   calls[|calls| - 1]);
    }
  }

  // ---------- the order of calls decides ----------

  function Documents(a: Source, b: Source, r: nat, size: nat): set<nat> {
    set d: nat | 0 <= d < size && (Of(r, d) == a || Of(r, d) == b)
  }

  /** A segment in which `b` has the text "0", and `a` and `c` have the text "1". */
  function Mixed(a: Source, b: Source, c: Source, r: nat, size: nat): Reader {
    var low, high := Documents(b, b, r, size), Documents(a, c, r, size);
    Reader((if low == {} then [] else [Term([0], low)]) + (if high == {} then [] else [Term([1], high)]), size)
  }

  lemma MixedIsGood(a: Source, b: Source, c: Source, r: nat, size: nat)
    requires b != a && b != c
    ensures Mixed(a, b, c, r, size).Ok() && Mixed(a, b, c, r, size).Good()
    ensures forall d :: 0 <= d < size && Of(r, d) == b ==> StringOf(Mixed(a, b, c, r, size).terms, d) == [0]
    ensures forall d :: 0 <= d < size && (Of(r, d) == a || Of(r, d) == c) ==>
              StringOf(Mixed(a, b, c, r, size).terms, d) == [1]
  {
    var x := Mixed(a, b, c, r, size);
    assert forall i :: 0 <= i < |x.terms| ==> x.terms[i].text != [];
    if |x.terms| == 2 {
      var d :| d in x.terms[0].docs;
      var e :| e in x.terms[1].docs;
      assert d != e && size >= 2;
    }
    forall d | 0 <= d < size && Of(r, d) == b ensures StringOf(x.terms, d) == [0] {
      assert d in Documents(b, b, r, size);
      LastTerm(x.terms, 0, d);
    }
    forall d | 0 <= d < size && (Of(r, d) == a || Of(r, d) == c) ensures StringOf(x.terms, d) == [1] {
      assert d in Documents(a, c, r, size);
      LastTerm(x.terms, |x.terms| - 1, d);
    }
  }

  lemma LastTerm(terms: seq<Term>, i: nat, doc: nat)
    requires i < |terms| && doc in terms[i].docs && forall j :: i < j < |terms| ==> doc !in terms[j].docs
    ensures StringOf(terms, doc) == terms[i].text
  {
    OrdInMore(terms, i + 1, |terms|, doc);
  }

  /** Segments in which `b` alone has a text, which every table has. */
  function Single(b: Source, r: nat, size: nat): Reader { Reader([Term([0], Documents(b, b, r, size))], size) }

  lemma SingleIsGood(b: Source, r: nat, size: nat)
    ensures Single(b, r, size).Ok() && Single(b, r, size).Good()
    ensures forall d :: 0 <= d < size ==> StringOf(Single(b, r, size).terms, d) == if Of(r, d) == b then [0] else []
  {
    var x := Single(b, r, size);
    forall d | 0 <= d < size ensures x.GoodAt(d) && StringOf(x.terms, d) == if Of(r, d) == b then [0] else [] {
      if Of(r, d) == b { LastTerm(x.terms, 0, d); } else { OrdInMore(x.terms, 0, 1, d); }
    }
  }

  /** Segments of the given sizes that tell the kept ordinal from the one that would serve. */
  function Telling(sizes: seq<nat>, a: Source, b: Source, c: Source): seq<Reader> {
    seq(|sizes|, r requires 0 <= r < |sizes| => if a == Unfilled then Single(b, r, sizes[r])
        else Mixed(a, b, c, r, sizes[r]))
  }

  lemma TellingValue(sizes: seq<nat>, a: Source, b: Source, c: Source, s: Source)
    requires SourceOk(sizes, s) && c.Of? && b != a && b != c
    ensures s == b && b.Of? ==> Value(Telling(sizes, a, b, c), s) == [0]
    ensures s == a || s == c ==> Value(Telling(sizes, a, b, c), s) == if a == Unfilled then [] else [1]
  {
    if s.Of? {
      SingleIsGood(b, s.reader, sizes[s.reader]);
      MixedIsGood(a, b, c, s.reader, sizes[s.reader]);
    }
  }

  lemma TellingIsGood(sizes: seq<nat>, a: Source, b: Source, c: Source)
    requires SourceOk(sizes, a) && SourceOk(sizes, b) && SourceOk(sizes, c) && c.Of? && b != a && b != c
    ensures var rs := Telling(sizes, a, b, c);
      && AllGood(rs) && Sizes(rs) == sizes
      && Value(rs, a) == Value(rs, c) == (if a == Unfilled then [] else [1])
         && Value(rs, b) == (if b == Unfilled then [] else [0])
  {
    var rs := Telling(sizes, a, b, c);
    forall r | 0 <= r < |sizes| ensures rs[r].Ok() && rs[r].Good() && rs[r].maxDoc == sizes[r] {
      SingleIsGood(b, r, sizes[r]);
      MixedIsGood(a, b, c, r, sizes[r]);
    }
    TellingValue(sizes, a, b, c, a);
    TellingValue(sizes, a, b, c, b);
    TellingValue(sizes, a, b, c, c);
  }

  /** Another ordinal is kept than the document's, though its value is the bottom value. */
  lemma OrdsDiffer(lookup: seq<Text>, a: Text, oa: int, b: Text, ob: int)
    requires TableOk(lookup) && IsOrd(lookup, a, oa) && IsOrd(lookup, b, ob)
    requires (a == [1] && lookup[oa] == a && (b == [0] || b == []))
             || (a == [] && b == [0] && |lookup| > 1 && lookup[1] == [0])
    ensures oa != ob
  {
    if a == [1] && b == [0] { assert Cmp([1], [0]) == 1; }
    if a == [] { assert Cmp([0], [0]) == 0; }
  }

  /** Where the order of calls does not serve, some segments get two answers. */
  lemma SomeDisagree(sizes: seq<nat>, numHits: nat, calls: seq<Call>, doc: nat) returns (rs: seq<Reader>)
    requires Legal(sizes, numHits, calls) && TraceOf(sizes, numHits, calls).value.Allows(sizes, CompareBottom(doc))
    requires !TraceOf(sizes, numHits, calls).value.KnowsBottom(doc)
    ensures AllGood(rs) && Sizes(rs) == sizes
    ensures var t := TraceOf(sizes, numHits, calls).value;
      OrdAnswer(rs, t, OrdAfter(rs, numHits, calls), CompareBottom(doc)) != ValAnswer(rs, t,
          ValAfter(rs, numHits, calls), CompareBottom(doc))
  {
    hide Cmp, IsOrd, TableOk, Reader.Good, Reader.Ok;
    var t := TraceOf(sizes, numHits, calls).value;
    var c := Of(t.Current(), doc);
    rs := Telling(sizes, t.bottom, t.held, c);
    TellingIsGood(sizes, t.bottom, t.held, c);
    AlikeAfter(rs, numHits, calls);
    GoodIndex(rs[t.Current()]);
    var s, v := OrdAfter(rs, numHits, calls), ValAfter(rs, numHits, calls);
    var lookup := s.index.lookup;
    OrdsDiffer(lookup, s.bottomValue, s.index.order[doc], Value(rs, t.held), s.bottomOrd);
    CmpSelf(s.bottomValue, s.bottomValue);
  }

  lemma {:induction false} DisagreeIfNot(sizes: seq<nat>, numHits: nat, calls: seq<Call>) returns (rs: seq<Reader>)
    requires Legal(sizes, numHits, calls) && !Ordered(sizes, numHits, calls)
    ensures AllGood(rs) && Sizes(rs) == sizes && !Agree(rs, numHits, calls)
  {
    var before, c := calls[..|calls| - 1], calls[|calls| - 1];
    if Ordered(sizes, numHits, before) {
      rs := SomeDisagree(sizes, numHits, before, c.doc);
    } else {
      rs := DisagreeIfNot(sizes, numHits, before);
    }
  }

  /** The order of the calls serves if and only if the two comparators agree whatever good segments they are given:
      whenever a document is compared with the bottom, the bottom slot must have held at the last change of segment what
      it held when it was set, or else what this document is. */
  lemma OrderDecides(sizes: seq<nat>, numHits: nat, calls: seq<Call>)
    requires Legal(sizes, numHits, calls)
    ensures Ordered(sizes, numHits, calls) <==> forall rs :: AllGood(rs) && Sizes(rs) == sizes ==>
              Agree(rs, numHits, calls)
  {
    if Ordered(sizes, numHits, calls) {
      forall rs | AllGood(rs) && Sizes(rs) == sizes
        ensures Agree(rs, numHits, calls)
      {
        AgreeIfOrdered(rs, numHits, calls);
      }
    } else {
      var rs := DisagreeIfNot(sizes, numHits, calls);
    }
  }

  // ---------- the segments decide ----------

  lemma Extended(rs: seq<Reader>, numHits: nat, calls: seq<Call>, c: Call)
    requires Legal(Sizes(rs), numHits, calls) && TraceOf(Sizes(rs), numHits, calls).value.Allows(Sizes(rs), c)
    ensures var sizes, more := Sizes(rs), calls + [c];
      var t := TraceOf(sizes, numHits, calls).value;
      && TraceOf(sizes, numHits, more) == Some(t.After(sizes, c))
      && OrdAfter(rs, numHits, more) == OrdStep(rs, t, OrdAfter(rs, numHits, calls), c)
      && ValAfter(rs, numHits, more) == ValStep(rs, t, ValAfter(rs, numHits, calls), c)
      && (Ordered(sizes, numHits, more) <==>
           Ordered(sizes, numHits, calls) && (c.CompareBottom? ==> t.KnowsBottom(c.doc)))
      && (Agree(rs, numHits, more) <==>
            && Agree(rs, numHits, calls)
            && OrdAnswer(rs, t, OrdAfter(rs, numHits, calls), c) == ValAnswer(rs, t, ValAfter(rs, numHits, calls), c))
  {
    assert (calls + [c])[..|calls + [c]| - 1] == calls;
  }

  /** A document of the first segment is made the bottom, and a document of segment `r` is compared with it. */
  function Probe(d: nat, r: nat, e: nat): seq<Call> {
    [SetNextReader(0)] + [Copy(0, d)] + [SetBottom(0)] + [SetNextReader(r)] + [CompareBottom(e)]
  }

  /** The ordinals of what is probed. */
  lemma ProbedOrd(numHits: nat, x: StringIndex, y: StringIndex, d: nat)
    requires numHits >= 1 && x.lookup != [] && y.lookup != [] && d < |x.order| && x.order[d] < |x.lookup|
    ensures var s := OrdStart(numHits).SetNextReader(x).Copy(0, d).SetBottom(0).SetNextReader(y);
      && s.bottomOrd == OrdOf(y.lookup, x.lookup[x.order[d]]) && s.bottomValue == x.lookup[x.order[d]] && s.index == y
  {
    hide Cmp, OrdOf, TableOk;
  }

  lemma BeforeProbe(rs: seq<Reader>, numHits: nat, d: nat, r: nat) returns (calls: seq<Call>)
    requires numHits >= 1 && r < |rs| && d < rs[0].maxDoc
    ensures calls == [SetNextReader(0)] + [Copy(0, d)] + [SetBottom(0)] + [SetNextReader(r)]
    ensures Legal(Sizes(rs), numHits, calls) && Ordered(Sizes(rs), numHits, calls) && Agree(rs, numHits, calls)
    ensures var t := TraceOf(Sizes(rs), numHits, calls).value;
      t.readers == [0] + [r] && t.bottomSlot == 0 && t.bottom == t.held == Of(0, d)
    ensures var s, x, y := OrdAfter(rs, numHits, calls), rs[0].Index(), rs[r].Index();
      s.bottomOrd == OrdOf(y.lookup, x.lookup[x.order[d]]) && s.bottomValue == x.lookup[x.order[d]] && s.index == y
    ensures ValAfter(rs, numHits, calls).bottom == rs[0].Strings()[d]
            && ValAfter(rs, numHits, calls).strings == rs[r].Strings()
  {
    hide Cmp, OrdOf, Reader.Index, Reader.Strings, OrdState.Copy, OrdState.SetBottom, OrdState.SetNextReader,
         OrdState.Converted, OrdStart,
         Trace.Ok, OrdFits, ValFits;
    calls := [SetNextReader(0)];
    Extended(rs, numHits, [], SetNextReader(0));
    assert [] + calls == calls;
    Extended(rs, numHits, calls, Copy(0, d));
    calls := calls + [Copy(0, d)];
    Extended(rs, numHits, calls, SetBottom(0));
    calls := calls + [SetBottom(0)];
    Extended(rs, numHits, calls, SetNextReader(r));
    calls := calls + [SetNextReader(r)];
    ProbedOrd(numHits, rs[0].Index(), rs[r].Index(), d);
  }

  lemma Probed(rs: seq<Reader>, numHits: nat, d: nat, r: nat, e: nat)
    requires numHits >= 1 && r < |rs| && d < rs[0].maxDoc && e < rs[r].maxDoc
    ensures Legal(Sizes(rs), numHits, Probe(d, r, e)) && Ordered(Sizes(rs), numHits, Probe(d, r, e))
    ensures var x, y := rs[0].Index(), rs[r].Index();
      var value, k, o := x.lookup[x.order[d]], OrdOf(y.lookup, x.lookup[x.order[d]]), y.order[e];
      Agree(rs, numHits, Probe(d, r, e)) <==>
        Sign(if k != o then k - o else Cmp(value, y.lookup[o])) == Cmp(rs[0].Strings()[d], rs[r].Strings()[e])
  {
    hide Cmp, OrdOf, Reader.Index, Reader.Strings, OrdState.Copy, OrdState.SetBottom, OrdState.SetNextReader,
         OrdState.Converted, OrdStart;
    var before := BeforeProbe(rs, numHits, d, r);
    Extended(rs, numHits, before, CompareBottom(e));
  }

  /** Segments that are good, but for one. */
  predicate GoodBut(rs: seq<Reader>, x: Reader) {
    AllOk(rs) && forall i :: 0 <= i < |rs| ==> rs[i] == x || rs[i].Good()
  }

  /** A document whose last term fell off the table, and another segment's document with that term. */
  lemma FallenDisagrees(x: Reader, numHits: nat, d: nat) returns (rs: seq<Reader>, calls: seq<Call>)
    requires x.Ok() && numHits >= 1 && d < x.maxDoc && exists i :: x.maxDoc <= i < |x.terms| && d in x.terms[i].docs
    ensures GoodBut(rs, x) && Legal(Sizes(rs), numHits, calls) && Ordered(Sizes(rs), numHits, calls)
            && !Agree(rs, numHits, calls)
  {
    hide TermsOk;
    var v, low := StringOf(x.terms, d), x.Index().lookup[x.Index().order[d]];
    FallenIsLess(x, d);
    var y := Reader([Term(v, {0})], 1);
    assert y.terms[0].docs == {0};
    LastTerm(y.terms, 0, 0);
    assert TermsOk(y.terms) by { TermsOfOne(y.terms[0]); }
    assert y.Index().lookup == [[], v] && y.Index().order == [1];
    rs, calls := [x, y], Probe(d, 1, 0);
    CmpSelf(v, v);
    assert OrdOf([[], v], low) == 0;
    Probed(rs, numHits, d, 1, 0);
  }

  lemma TermsOfOne(t: Term)
    ensures TermsOk([t])
  {
  }

  lemma FallenIsLess(x: Reader, d: nat)
    requires x.Ok() && d < x.maxDoc && exists i :: x.maxDoc <= i < |x.terms| && d in x.terms[i].docs
    ensures Cmp(x.Index().lookup[x.Index().order[d]], StringOf(x.terms, d)) == -1
    ensures StringOf(x.terms, d) != []
  {
    var k, o, p := Kept(x.terms, x.maxDoc), x.Ord(d), OrdIn(x.terms, |x.terms|, d);
    OrdInRange(x.terms, k, d);
    OrdInRange(x.terms, |x.terms|, d);
    assert o <= k < p;
    CmpSign(x.Index().lookup[o], StringOf(x.terms, d));
    if o > 0 {
      CmpSelf(x.terms[o - 1].text, x.terms[p - 1].text);
    } else {
      CmpTrans([], x.terms[0].text, x.terms[p - 1].text);
      CmpSelf([], x.terms[p - 1].text);
    }
  }

  /** A document whose last term is the empty string, compared with itself. */
  lemma EmptyDisagrees(x: Reader, numHits: nat, d: nat) returns (rs: seq<Reader>, calls: seq<Call>)
    requires x.Ok() && numHits >= 1 && d < x.maxDoc && (forall i :: x.maxDoc <= i < |x.terms| ==> d !in x.terms[i].docs)
    requires x.Ord(d) > 0 && x.Ord(d) <= |x.terms| && x.terms[x.Ord(d) - 1].text == []
    ensures GoodBut(rs, x) && Legal(Sizes(rs), numHits, calls) && Ordered(Sizes(rs), numHits, calls)
            && !Agree(rs, numHits, calls)
  {
    hide Cmp, TermsOk, Legal, Ordered, Agree, Probe, Reader.Good;
    CmpSelf(x.Strings()[d], x.Strings()[d]);
    rs, calls := [x], Probe(d, 0, d);
    assert x.Index().lookup[x.Ord(d)] == [];
    Probed(rs, numHits, d, 0, d);
  }

  /** A segment is good if and only if the two comparators agree on every sequence of calls in a serving order over it
      and good segments: no term of its documents may have fallen off its table, and no document's last term may be the
      empty string. */
  lemma SegmentsDecide(x: Reader, numHits: nat)
    requires x.Ok() && numHits >= 1
    ensures x.Good() <==>
              forall rs, calls ::
                GoodBut(rs, x) && Legal(Sizes(rs), numHits, calls) && Ordered(Sizes(rs), numHits, calls) ==>
                  Agree(rs, numHits, calls)
  {
    if x.Good() {
      forall rs, calls | GoodBut(rs, x) && Legal(Sizes(rs), numHits, calls) && Ordered(Sizes(rs), numHits, calls)
        ensures Agree(rs, numHits, calls)
      {
        AgreeIfOrdered(rs, numHits, calls);
      }
    } else {
      var d :| 0 <= d < x.maxDoc && !x.GoodAt(d);
      OrdInRange(x.terms, Kept(x.terms, x.maxDoc), d);
      if exists i :: x.maxDoc <= i < |x.terms| && d in x.terms[i].docs {
        var rs, calls := FallenDisagrees(x, numHits, d);
      } else {
        var rs, calls := EmptyDisagrees(x, numHits, d);
      }
    }
  }
}
