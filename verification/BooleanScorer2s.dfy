/**
 BooleanScorer2: what it makes of its clauses, by merging them.
 */
module BooleanScorer2s {
  import opened Postings
  import opened MergedScorers

  /** What the scorer is put together from: one scorer or two that have to match, the exclusions, and
      one that may match. */
  datatype Plan = Plan(first: Counting, second: Option<Counting>, prohibited: seq<PostingList>, extra: Option<Counting>)
  {
    function Parts(): seq<Counting> { if second.Some? then [first, second.value] else [first] }

    /** addProhibitedScorers: one prohibited clause, or the disjunction of all. */
    function Exclusions(): Option<Counting> {
      if prohibited == [] then None
      else Some(AnyOf(prohibited))
    }

    /** Does its scorer go on whatever the target? */
    predicate Moves() { first.SingleMatch? && second.None? }

    predicate Ok() {
      && first.Ok() && (second.Some? ==> second.value.Ok()) && (extra.Some? ==> extra.value.Ok())
      && (prohibited != [] ==> Exclusions().value.Ok())
    }
  }

  /** All of some clauses. */
  function AllOf(lists: seq<PostingList>): Counting {
    if |lists| == 1 then SingleMatch(lists[0]) else Conjunction(lists)
  }

  /** Any of some clauses. */
  function AnyOf(lists: seq<PostingList>): Counting
    requires lists != []
  {
    if |lists| == 1 then SingleMatch(lists[0]) else Disjunction(lists, 1)
  }

  /** makeCountingSumScorer. */
  function MakeCountingSumScorer(required: seq<PostingList>, optional: seq<PostingList>, prohibited: seq<PostingList>,
                                 minNr: nat): Plan
    requires required != [] || optional != []
  {
    if required == [] then
      var nrOptRequired := if minNr < 1 then 1 else minNr;
      var first :=
        if |optional| > nrOptRequired then Disjunction(optional, nrOptRequired)
        else if |optional| == 1 then SingleMatch(optional[0])
        else Conjunction(optional);
      Plan(first, None, prohibited, None)
    else if |optional| == minNr then
      Plan(Conjunction(required + optional), None, prohibited, None)
    else
      if minNr > 0 then Plan(AllOf(required), Some(Disjunction(optional, minNr)), prohibited, None)
      else Plan(AllOf(required), None, prohibited, Some(AnyOf(optional)))
  }

  function SumOf(c: Counting, d: int): real { SumAt(c.Clauses(), d) }

  function CountOf(c: Counting, d: int): nat { Matchers(c.Clauses(), d) }

  /** What a part that may be missing, or may not hold the document, adds. */
  function PartSum(c: Option<Counting>, d: int): real { if c.Some? && c.value.Holds(d) then SumOf(c.value, d) else 0.0 }

  function PartCount(c: Option<Counting>, d: int): nat {
    if c.Some? && c.value.Holds(d) then CountOf(c.value, d) else 0
  }

  function PlanSum(plan: Plan, d: int): real { SumOf(plan.first, d) + PartSum(plan.second, d) + PartSum(plan.extra, d) }

  function PlanCount(plan: Plan, d: int): nat {
    CountOf(plan.first, d) + PartCount(plan.second, d) + PartCount(plan.extra, d)
  }

  /** The documents the plan goes through. */
  predicate PlanGoes(plan: Plan, d: int) { Goes(plan.Parts(), plan.Exclusions(), d) }

  predicate Asks(required: seq<PostingList>, optional: seq<PostingList>, prohibited: seq<PostingList>, minNr: nat,
                 d: int) {
    && 0 <= d < NO_MORE_DOCS && Matchers(required, d) == |required| && Matchers(prohibited, d) == 0
    && Matchers(optional, d) >= (if required == [] && minNr < 1 then 1 else minNr)
  }

  function Coordinated(sum: real, factor: real): real { sum * factor }

  /** What a boolean query asks for: every required clause, enough optional ones (at least one if nothing
      is required), and no prohibited one; the sum of the scores, times the coordination factor of the
      number of clauses that matched. */
  function Wanted(required: seq<PostingList>, optional: seq<PostingList>, prohibited: seq<PostingList>, minNr: nat,
                  coord: seq<real>, d: int): Option<real>
    requires |coord| == |required| + |optional| + 1
  {
    AllMatch(required, d);
    AllMatch(optional, d);
    if Asks(required, optional, prohibited, minNr, d)
    then Some(Coordinated(SumAt(required, d) + SumAt(optional, d),
        coord[Matchers(required, d) + Matchers(optional, d)]))
    else None
  }

  lemma PlanIsOk(required: seq<PostingList>, optional: seq<PostingList>, prohibited: seq<PostingList>, minNr: nat)
    requires AllOrdered(required) && AllOrdered(optional) && AllOrdered(prohibited)
    requires (required != [] || optional != []) && minNr <= |optional|
    ensures MakeCountingSumScorer(required, optional, prohibited, minNr).Ok()
  {
  }

  /** Exclusions exclude what any prohibited clause holds. */
  lemma ExclusionsHold(plan: Plan, d: int)
    ensures (plan.Exclusions().Some? && plan.Exclusions().value.Holds(d)) <==> Matchers(plan.prohibited, d) > 0
  {
    if |plan.prohibited| == 1 { assert plan.prohibited == [plan.prohibited[0]]; }
  }

  /** What has to match, and what may, in terms of the clauses. */
  lemma PartIs(c: Counting, lists: seq<PostingList>, d: int)
    requires c.Ok() && c.Clauses() == lists
    ensures c.Min() == 1 ==> PartSum(Some(c), d) == SumAt(lists, d) && PartCount(Some(c), d) == Matchers(lists, d)
  {
    if Matchers(lists, d) == 0 { NoSum(lists, d); }
  }

  /** The plan goes through what is asked for, with the sum and the count of the clauses that match. */
  ghost predicate Serves(plan: Plan, required: seq<PostingList>, optional: seq<PostingList>,
                         prohibited: seq<PostingList>, minNr: nat, d: int) {
    && plan.Ok() && (PlanGoes(plan, d) <==> Asks(required, optional, prohibited, minNr, d))
    && (PlanGoes(plan, d) ==>
          && PlanSum(plan, d) == SumAt(required, d) + SumAt(optional, d)
          && PlanCount(plan, d) == Matchers(required, d) + Matchers(optional, d))
  }

  /** A plan of one part, in terms of its clauses. */
  lemma GoesAlone(plan: Plan, clauses: seq<PostingList>, min: nat, d: int)
    requires plan.second.None? && plan.first.Ok() && plan.first.Clauses() == clauses && plan.first.Min() == min
    ensures PlanGoes(plan, d) <==> Matchers(clauses, d) >= min && Matchers(plan.prohibited, d) == 0
    ensures PlanGoes(plan, d) ==> 0 <= d < NO_MORE_DOCS
    ensures PlanSum(plan, d) == SumAt(clauses, d) + PartSum(plan.extra, d)
    ensures PlanCount(plan, d) == Matchers(clauses, d) + PartCount(plan.extra, d)
  {
    ExclusionsHold(plan, d);
    OneHolds(plan.first, d);
    NoneBelowZero(plan.first, d);
  }

  lemma NoClauses(d: int)
    ensures Matchers([], d) == 0 && SumAt([], d) == 0.0
  {
  }

  lemma AllAndAny(lists: seq<PostingList>)
    requires lists != [] && AllOrdered(lists)
    ensures AllOf(lists).Clauses() == lists && AllOf(lists).Min() == |lists| && AllOf(lists).Ok()
    ensures AnyOf(lists).Clauses() == lists && AnyOf(lists).Min() == 1 && AnyOf(lists).Ok()
  {
    if |lists| == 1 { assert lists == [lists[0]]; }
  }

  lemma ServesOptional(optional: seq<PostingList>, prohibited: seq<PostingList>, minNr: nat, d: int)
    requires AllOrdered(optional) && AllOrdered(prohibited) && optional != [] && minNr <= |optional|
    ensures Serves(MakeCountingSumScorer([], optional, prohibited, minNr), [], optional, prohibited, minNr, d)
  {
    var plan, k := MakeCountingSumScorer([], optional, prohibited, minNr), if minNr < 1 then 1 else minNr;
    PlanIsOk([], optional, prohibited, minNr);
    AllAndAny(optional);
    assert plan.first.Clauses() == optional && plan.first.Min() == k && plan.extra.None?;
    hide Matchers, SumAt, PlanGoes, AllOrdered, MakeCountingSumScorer, PlanSum, PlanCount, Counting.Clauses,
         Counting.Min, Counting.Ok;
    GoesAlone(plan, optional, k, d);
    NoClauses(d);
  }

  lemma ServesAll(required: seq<PostingList>, optional: seq<PostingList>, prohibited: seq<PostingList>, d: int)
    requires AllOrdered(required) && AllOrdered(optional) && AllOrdered(prohibited) && required != []
    ensures Serves(MakeCountingSumScorer(required, optional, prohibited, |optional|), required, optional, prohibited,
              |optional|, d)
  {
    var plan := MakeCountingSumScorer(required, optional, prohibited, |optional|);
    PlanIsOk(required, optional, prohibited, |optional|);
    hide Matchers, SumAt, PlanGoes, AllOrdered, PlanSum, PlanCount;
    GoesAlone(plan, required + optional, |required| + |optional|, d);
    AllMatch(required, d);
    AllMatch(optional, d);
    Joined(required, optional, d);
  }

  lemma ServesRequired(required: seq<PostingList>, optional: seq<PostingList>, prohibited: seq<PostingList>, d: int)
    requires AllOrdered(required) && AllOrdered(optional) && AllOrdered(prohibited) && required != [] && optional != []
    ensures Serves(MakeCountingSumScorer(required, optional, prohibited, 0), required, optional, prohibited, 0, d)
  {
    var plan := MakeCountingSumScorer(required, optional, prohibited, 0);
    PlanIsOk(required, optional, prohibited, 0);
    assert plan == Plan(AllOf(required), None, prohibited, Some(AnyOf(optional)));
    AllAndAny(required);
    AllAndAny(optional);
    hide Matchers, SumAt, PlanGoes, AllOrdered, MakeCountingSumScorer, PlanSum, PlanCount, Counting.Clauses,
         Counting.Min, Counting.Ok,
         AllOf, AnyOf, PartSum, PartCount;
    GoesAlone(plan, required, |required|, d);
    AllMatch(required, d);
    PartIs(AnyOf(optional), optional, d);
  }

  lemma ServesBoth(required: seq<PostingList>, optional: seq<PostingList>, prohibited: seq<PostingList>, minNr: nat,
                   d: int)
    requires AllOrdered(required) && AllOrdered(optional) && AllOrdered(prohibited) && required != []
             && 0 < minNr < |optional|
    ensures Serves(MakeCountingSumScorer(required, optional, prohibited, minNr), required, optional, prohibited, minNr,
              d)
  {
    var plan := MakeCountingSumScorer(required, optional, prohibited, minNr);
    PlanIsOk(required, optional, prohibited, minNr);
    assert plan == Plan(AllOf(required), Some(Disjunction(optional, minNr)), prohibited, None);
    AllAndAny(required);
    hide Matchers, SumAt, AllOrdered, MakeCountingSumScorer, AllOf, AllHold;
    ExclusionsHold(plan, d);
    NoneBelowZero(plan.first, d);
    BothHold(plan.Parts(), d);
    AllMatch(required, d);
  }

  /** Whatever the clauses, the scorer that is put together goes through the documents asked for, and its
      parts have the sum and the count of the clauses that match. */
  lemma PlanIsWanted(required: seq<PostingList>, optional: seq<PostingList>, prohibited: seq<PostingList>, minNr: nat,
                     d: int)
    requires AllOrdered(required) && AllOrdered(optional) && AllOrdered(prohibited)
    requires (required != [] || optional != []) && minNr <= |optional|
    ensures var plan := MakeCountingSumScorer(required, optional, prohibited, minNr);
      && plan.Ok() && (PlanGoes(plan, d) <==> Asks(required, optional, prohibited, minNr, d))
      && (PlanGoes(plan, d) ==>
            && PlanSum(plan, d) == SumAt(required, d) + SumAt(optional, d)
            && PlanCount(plan, d) == Matchers(required, d) + Matchers(optional, d))
  {
    hide Matchers, SumAt, MakeCountingSumScorer, PlanGoes, PlanSum, PlanCount, Asks, AllOrdered;
    if required == [] {
      ServesOptional(optional, prohibited, minNr, d);
    } else if |optional| == minNr {
      ServesAll(required, optional, prohibited, d);
    } else if minNr > 0 {
      ServesBoth(required, optional, prohibited, minNr, d);
    } else {
      ServesRequired(required, optional, prohibited, d);
    }
  }

  /** The hit the plan makes of a document, if it makes one. */
  function PlanHit(plan: Plan, coord: seq<real>, d: int): Option<real> {
    if PlanGoes(plan, d) && PlanCount(plan, d) < |coord|
    then Some(Coordinated(PlanSum(plan, d), coord[PlanCount(plan, d)])) else None
  }

  /** There is a coordination factor for every count. */
  ghost predicate PlanFits(plan: Plan, coord: seq<real>) {
    forall d :: PlanGoes(plan, d) ==> PlanCount(plan, d) < |coord|
  }

  lemma AllWanted(required: seq<PostingList>, optional: seq<PostingList>, prohibited: seq<PostingList>, minNr: nat,
                  coord: seq<real>)
    requires AllOrdered(required) && AllOrdered(optional) && AllOrdered(prohibited)
    requires (required != [] || optional != []) && minNr <= |optional| && |coord| == |required| + |optional| + 1
    ensures var plan := MakeCountingSumScorer(required, optional, prohibited, minNr);
      && plan.Ok() && PlanFits(plan, coord)
      && forall d :: PlanHit(plan, coord, d) == Wanted(required, optional, prohibited, minNr, coord, d)
  {
    hide Matchers, SumAt, MakeCountingSumScorer, PlanGoes, PlanSum, PlanCount, AllOrdered;
    PlanIsWanted(required, optional, prohibited, minNr, 0);
    var plan := MakeCountingSumScorer(required, optional, prohibited, minNr);
    forall d
      ensures PlanGoes(plan, d) ==> PlanCount(plan, d) < |coord|
      ensures PlanHit(plan, coord, d) == Wanted(required, optional, prohibited, minNr, coord, d)
    {
      PlanIsWanted(required, optional, prohibited, minNr, d);
      AllMatch(required, d);
      AllMatch(optional, d);
    }
  }

  /** Asked for more optional clauses than there are, and nothing being required, it would give the documents that
      match them all and no prohibited one, which nobody asked for; the query's weight then makes no scorer. */
  lemma AsksTooMuch(optional: seq<PostingList>, prohibited: seq<PostingList>, minNr: nat, coord: seq<real>, d: int)
    requires AllOrdered(optional) && AllOrdered(prohibited) && optional != [] && minNr > |optional|
             && |coord| == |optional| + 1
    ensures Wanted([], optional, prohibited, minNr, coord, d) == None
    ensures PlanGoes(MakeCountingSumScorer([], optional, prohibited, minNr), d) <==>
              Matchers(optional, d) == |optional| && Matchers(prohibited, d) == 0
  {
    var plan := MakeCountingSumScorer([], optional, prohibited, minNr);
    AllMatch(optional, d);
    ExclusionsHold(plan, d);
    OneHolds(plan.first, d);
    if |optional| == 1 { assert optional == [optional[0]]; }
  }

  // ---------- the scorer ----------

  /** Counts the clauses that match the document being scored. */
  class Coordinator {
    const coordFactors: seq<real>
    var nrMatchers: nat

    constructor (coordFactors: seq<real>)
      ensures this.coordFactors == coordFactors && nrMatchers == 0
    {
      this.coordFactors, nrMatchers := coordFactors, 0;
    }
  }

  /** SingleMatchScorer, CountingDisjunctionSumScorer and CountingConjunctionSumScorer: the last score is
      kept, so that scoring a document again only counts again. */
  class CountingScorer {
    const scorer: ClauseScorer
    const coordinator: Coordinator
    var lastScoredDoc: int
    var lastDocScore: real

    ghost predicate Cached()
      reads this
    {
      lastScoredDoc >= 0 ==> lastDocScore == SumOf(scorer.counting, lastScoredDoc)
    }

    constructor (scorer: ClauseScorer, coordinator: Coordinator)
      ensures Cached() && this.scorer == scorer && this.coordinator == coordinator && lastScoredDoc == -1
    {
      this.scorer, this.coordinator, lastScoredDoc, lastDocScore := scorer, coordinator, -1, 0.0;
    }

    method Score() returns (score: real)
      requires Cached() && scorer.Valid() && 0 <= scorer.Doc() < NO_MORE_DOCS && lastScoredDoc <= scorer.Doc()
      requires {this, coordinator} !! {scorer} + scorer.repr
      modifies this, coordinator
      ensures Cached() && lastScoredDoc == scorer.Doc() && score == SumOf(scorer.counting, scorer.Doc())
      ensures coordinator.nrMatchers == old(coordinator.nrMatchers) + CountOf(scorer.counting, scorer.Doc())
    {
      hide ClauseScorer.Valid, ClauseScorer.Doc;
      var doc := scorer.DocID();
      var sum, matchers := scorer.Score();
      if doc >= lastScoredDoc {
        if doc > lastScoredDoc {
          lastDocScore := sum;
          lastScoredDoc := doc;
        }
        coordinator.nrMatchers := coordinator.nrMatchers + matchers;
      }
      score := lastDocScore;
    }
  }

  /** `d` is the first hit from `lo` on, or there is none. */
  ghost predicate NextHit(plan: Plan, coord: seq<real>, lo: int, d: int) {
    && (forall x :: lo <= x < d ==> PlanHit(plan, coord, x).None?)
    && lo <= d <= NO_MORE_DOCS && (d < NO_MORE_DOCS ==> PlanHit(plan, coord, d).Some?)
  }

  lemma FirstIsHit(plan: Plan, coord: seq<real>, lo: int, d: int)
    requires PlanFits(plan, coord)
    ensures FirstGoing(plan.Parts(), plan.Exclusions(), lo, d) <==> NextHit(plan, coord, lo, d)
  {
    forall x ensures PlanHit(plan, coord, x).Some? <==> Goes(plan.Parts(), plan.Exclusions(), x) {
      assert PlanGoes(plan, x) ==> PlanCount(plan, x) < |coord|;
    }
  }

  lemma GoesFrom(plan: Plan, d: int)
    requires PlanGoes(plan, d)
    ensures plan.first.Holds(d) && (plan.second.Some? ==> plan.second.value.Holds(d))
    ensures plan.Ok() ==> 0 <= d < NO_MORE_DOCS
  {
    assert plan.Parts()[0] == plan.first;
    if plan.second.Some? { assert plan.Parts()[1] == plan.second.value; }
    if plan.Ok() { NoneBelowZero(plan.first, d); }
  }

  /** The scorer of what has to match, and the scorers it is made of. */
  method MakeRequired(plan: Plan) returns (required: RequiredScorer, a: ClauseScorer, b: ClauseScorer?)
    requires plan.Ok()
    ensures fresh(required) && fresh(required.repr) && required.Valid() && required !in required.repr
            && required.parts == plan.Parts()
    ensures required.Has(a) && a.counting == plan.first && (b == null <==> plan.second.None?)
    ensures b != null ==> required.Has(b) && b.counting == plan.second.value && a != b
    ensures required.Doc() == -1 || (required.Doc() == NO_MORE_DOCS && FirstOf(required.parts, 0, NO_MORE_DOCS))
  {
    hide FirstOf, Counting.Ok;
    a := new ClauseScorer(plan.first);
    if plan.second.None? {
      b := null;
      required := new RequiredScorer.One(a);
    } else {
      b := new ClauseScorer(plan.second.value);
      var both := new DualConjunctionScorer(a, b);
      required := new RequiredScorer.Two(both);
    }
  }

  /** addProhibitedScorers: without the exclusions, if there are any. */
  method MakeMain(plan: Plan) returns (main: CountingSumScorer, a: ClauseScorer, b: ClauseScorer?)
    requires plan.Ok()
    ensures fresh(main) && fresh(main.repr) && main.Valid() && main.parts == plan.Parts()
            && main.exclusions == plan.Exclusions()
    ensures main.required.Has(a) && a.counting == plan.first && (b == null <==> plan.second.None?)
    ensures b != null ==> main.required.Has(b) && b.counting == plan.second.value && a != b
    ensures main.required.parts == main.parts
    ensures main.Doc() == -1 || (main.Doc() == NO_MORE_DOCS
              && FirstGoing(plan.Parts(), plan.Exclusions(), 0, NO_MORE_DOCS))
  {
    hide FirstOf, FirstGoing, Counting.Ok, RequiredScorer.Valid, RequiredScorer.Doc, ClauseScorer.Valid,
         ClauseScorer.Doc;
    var required;
    required, a, b := MakeRequired(plan);
    if plan.prohibited == [] {
      main := new CountingSumScorer.Required(required);
      NoExclusions(plan.Parts(), false, false, 0, 0, NO_MORE_DOCS);
    } else {
      var excl := new ClauseScorer(plan.Exclusions().value);
      var reqExcl := new ReqExclScorer(required, excl);
      main := new CountingSumScorer.Excluded(reqExcl);
    }
  }

  method MakeOptional(part: Option<Counting>) returns (o: ClauseScorer?)
    requires part.Some? ==> part.value.Ok()
    ensures o == null <==> part.None?
    ensures o != null ==>
              fresh(o) && fresh(o.repr) && o.Valid() && o.counting == part.value && o !in o.repr && Unread(o)
  {
    if part.None? { o := null; } else { o := new ClauseScorer(part.value); }
  }

  method MakeCounter(scorer: ClauseScorer?, coordinator: Coordinator) returns (c: CountingScorer?)
    ensures c == null <==> scorer == null
    ensures c != null ==>
              fresh(c) && c.Cached() && c.scorer == scorer && c.coordinator == coordinator && c.lastScoredDoc == -1
  {
    if scorer == null { c := null; } else { c := new CountingScorer(scorer, coordinator); }
  }

  ghost function OptionalOf(extra: CountingScorer?): set<object> {
    if extra == null then {} else {extra.scorer} + extra.scorer.repr
  }

  ghost function Present(c: CountingScorer?): set<object> { if c == null then {} else {c} }

  /** The counting scorers are apart from the scorers they count, and the optional one from the others. */
  ghost predicate Separate(main: CountingSumScorer, coordinator: Coordinator, first: CountingScorer,
                           second: CountingScorer?,
                           extra: CountingScorer?) {
    && {coordinator, first} + Present(second) + Present(extra) !! {main} + main.repr + OptionalOf(extra)
    && {main} + main.repr !! OptionalOf(extra)
    && first != second && first != extra && (second == extra ==> second == null)
    && main.required.Has(first.scorer) && (second != null ==> main.required.Has(second.scorer))
  }

  ghost predicate Serving(c: CountingScorer?, p: Option<Counting>, coordinator: Coordinator)
    reads c
  {
    && (c == null <==> p.None?)
    && (c != null ==> c.Cached() && c.scorer.counting == p.value && c.coordinator == coordinator)
  }

  ghost predicate Unscored(c: CountingScorer?)
    reads c
  {
    c != null ==> c.lastScoredDoc == -1
  }

  method MakeParts(plan: Plan, coord: seq<real>)
    returns (main: CountingSumScorer, coordinator: Coordinator, first: CountingScorer, second: CountingScorer?,
        extra: CountingScorer?)
    requires plan.Ok()
    ensures fresh({main, coordinator, first} + main.repr + Present(second) + Present(extra) + OptionalOf(extra))
    ensures Separate(main, coordinator, first, second, extra) && coordinator.coordFactors == coord
    ensures main.Valid() && main.parts == plan.Parts() && main.exclusions == plan.Exclusions()
            && main.required.parts == main.parts
    ensures main.Doc() == -1 || (main.Doc() == NO_MORE_DOCS
              && FirstGoing(plan.Parts(), plan.Exclusions(), 0, NO_MORE_DOCS))
    ensures Serving(first, Some(plan.first), coordinator) && Serving(second, plan.second, coordinator)
            && Serving(extra, plan.extra, coordinator)
    ensures Unscored(first) && Unscored(second) && Unscored(extra)
    ensures extra != null ==> extra.scorer.Valid() && Unread(extra.scorer)
  {
    hide FirstOf, FirstGoing, Counting.Ok, CountingSumScorer.Valid, CountingSumScorer.Doc, ClauseScorer.Valid,
         ClauseScorer.Doc, Plan.Parts,
         Plan.Exclusions, SumOf;
    var a, b;
    main, a, b := MakeMain(plan);
    var o := MakeOptional(plan.extra);
    coordinator := new Coordinator(coord);
    first := new CountingScorer(a, coordinator);
    second := MakeCounter(b, coordinator);
    extra := MakeCounter(o, coordinator);
  }

  class BooleanScorer2 {
    ghost const plan: Plan
    const coordinator: Coordinator
    const main: CountingSumScorer
    const first: CountingScorer
    const second: CountingScorer?
    const extra: CountingScorer?
    var optDone: bool
    ghost var optFrom: int
    var doc: int

    ghost function Optional(): set<object> { OptionalOf(extra) }

    ghost function Counters(): set<object> { {coordinator, first} + Present(second) + Present(extra) }

    ghost function Footprint(): set<object> { {this} + Counters() + {main} + main.repr + Optional() }

    ghost predicate PartOk(c: CountingScorer?, p: Option<Counting>)
      reads this, c
    {
      Serving(c, p, coordinator) && (c != null ==> c.lastScoredDoc <= doc)
    }

    /** What the optional scorer has passed lies before the current document. */
    ghost predicate OptOk()
      reads this, Optional()
    {
      extra != null ==>
        && extra.scorer.Valid() && (optDone ==> extra.scorer.Doc() == NO_MORE_DOCS) && 0 <= optFrom
           && (optFrom == 0 || optFrom <= doc)
        && (extra.scorer.Doc() == -1 || FirstOf([extra.scorer.counting], optFrom, extra.scorer.Doc()))
    }

    ghost predicate Apart() {
      && this !in Counters() && this !in main.repr && this !in Optional()
      && Separate(main, coordinator, first, second, extra)
    }

    ghost predicate Valid()
      reads Footprint()
    {
      && plan.Ok() && Apart() && main.Valid() && main.parts == plan.Parts() && main.exclusions == plan.Exclusions()
      && main.required.parts == main.parts
      && PartOk(first, Some(plan.first)) && PartOk(second, plan.second) && PartOk(extra, plan.extra) && OptOk()
      && PlanFits(plan, coordinator.coordFactors) && -1 <= doc <= NO_MORE_DOCS
      && (doc == main.Doc()
          || (doc == -1 && main.Doc() == NO_MORE_DOCS && FirstGoing(plan.Parts(), plan.Exclusions(), 0, NO_MORE_DOCS)))
    }

    /** The hit at a document, if there is one. */
    ghost function HitOf(d: int): Option<real> { PlanHit(plan, coordinator.coordFactors, d) }

    constructor (required: seq<PostingList>, optional: seq<PostingList>, prohibited: seq<PostingList>, minNr: nat,
                 coord: seq<real>)
      requires AllOrdered(required) && AllOrdered(optional) && AllOrdered(prohibited)
      requires (required != [] || optional != []) && minNr <= |optional| && |coord| == |required| + |optional| + 1
      ensures Valid() && doc == -1 && fresh(Footprint())
      ensures plan == MakeCountingSumScorer(required, optional, prohibited, minNr) && coordinator.coordFactors == coord
      ensures forall d :: HitOf(d) == Wanted(required, optional, prohibited, minNr, coord, d)
    {
      hide MakeCountingSumScorer, Wanted, PlanHit, PlanFits, Ordered, FirstOf, FirstGoing, Counting.Ok,
           CountingSumScorer.Valid, CountingSumScorer.Doc, ClauseScorer.Valid,
           ClauseScorer.Doc;
      var made := MakeCountingSumScorer(required, optional, prohibited, minNr);
      AllWanted(required, optional, prohibited, minNr, coord);
      plan := made;
      var m, c, one, more, opt := MakeParts(made, coord);
      main, coordinator, first, second, extra := m, c, one, more, opt;
      optDone, optFrom, doc := false, 0, -1;
    }

    method NextDoc() returns (d: int)
      requires Valid() && doc != NO_MORE_DOCS
      modifies this`doc, main.repr
      ensures Valid() && d == doc && NextHit(plan, coordinator.coordFactors, old(doc) + 1, d)
    {
      hide FirstOf, FirstGoing, NextHit, Counting.Ok, CountingSumScorer.Valid, CountingSumScorer.Doc,
           ClauseScorer.Valid, ClauseScorer.Doc,
           PlanFits;
      ghost var from := doc;
      d := main.NextDoc();
      FirstIsHit(plan, coordinator.coordFactors, from + 1, d);
      HitRange(from + 1, d);
      doc := d;
    }

    /** What has to match is one disjunction, of which too few lists are left to make another match. */
    ghost predicate Short()
      reads main, main.repr
    {
      main.Short()
    }

    /** A target at or before the current document leaves the scorer there, or ends it if it is short, unless one clause
        is all that has to match. */
    method Advance(target: int) returns (d: int)
      requires Valid() && doc != NO_MORE_DOCS && 0 <= target <= NO_MORE_DOCS
      modifies this`doc, main.repr
      ensures Valid() && d == doc
      ensures NextHit(plan, coordinator.coordFactors, Later(old(doc) + 1, target), d) <==>
                target > old(doc) || plan.Moves() || old(Short())
      ensures target <= old(doc) && !plan.Moves() ==> d == if old(Short()) then NO_MORE_DOCS else old(doc)
    {
      hide FirstOf, FirstGoing, AdvancedGoing, NextHit, Counting.Ok, CountingSumScorer.Valid, CountingSumScorer.Doc,
           CountingSumScorer.Short, ClauseScorer.Valid,
           ClauseScorer.Doc, PlanFits;
      ghost var from, short, exhausted := doc, Short(), main.Doc() == NO_MORE_DOCS;
      d := main.Advance(target);
      if exhausted { NothingFrom(short, target); }
      Advances(short, from, target, d);
      doc := d;
    }

    lemma HitRange(lo: int, d: int)
      requires NextHit(plan, coordinator.coordFactors, lo, d)
      ensures lo <= d <= NO_MORE_DOCS
    {
    }

    lemma NothingFrom(short: bool, target: int)
      requires FirstGoing(plan.Parts(), plan.Exclusions(), 0, NO_MORE_DOCS) && 0 <= target <= NO_MORE_DOCS
      ensures AdvancedGoing(plan.Parts(), plan.Exclusions(), plan.Moves(), short, -1, target, NO_MORE_DOCS)
    {
    }

    lemma Advances(short: bool, from: int, target: int, d: int)
      requires PlanFits(plan, coordinator.coordFactors) && -1 <= from < NO_MORE_DOCS && 0 <= target <= NO_MORE_DOCS
      requires AdvancedGoing(plan.Parts(), plan.Exclusions(), plan.Moves(), short, from, target, d)
      ensures NextHit(plan, coordinator.coordFactors, Later(from + 1, target), d) <==>
                target > from || plan.Moves() || short
      ensures target <= from && !plan.Moves() ==> d == if short then NO_MORE_DOCS else from
      ensures -1 <= d <= NO_MORE_DOCS && from <= d
    {
      AdvancedGoingIff(plan.Parts(), plan.Exclusions(), plan.Moves(), short, from, target, d);
      FirstIsHit(plan, coordinator.coordFactors, Later(from + 1, target), d);
      FirstIsHit(plan, coordinator.coordFactors, from + 1, d);
    }

    /** The score of the current document; asking again changes nothing. */
    method Score() returns (score: real)
      requires Valid() && 0 <= doc < NO_MORE_DOCS
      modifies this`optDone, this`optFrom, Counters(), Optional()
      ensures Valid() && Some(score) == HitOf(doc) && coordinator.nrMatchers == PlanCount(plan, doc)
    {
      hide FirstOf, FirstGoing, Counting.Ok, CountingSumScorer.Valid, CountingSumScorer.Doc, ClauseScorer.Valid,
           ClauseScorer.Doc, PlanFits,
           PlanGoes, Goes, SumOf, CountOf;
      coordinator.nrMatchers := 0;
      StandsHere();
      var sum := ScoreRequired();
      var opt := ScoreOptional();
      sum := sum + opt;
      score := Coordinated(sum, coordinator.coordFactors[coordinator.nrMatchers]);
    }

    /** Both scorers of what has to match, or the only one. */
    method ScoreRequired() returns (sum: real)
      requires Apart() && 0 <= doc < NO_MORE_DOCS && PartOk(first, Some(plan.first)) && PartOk(second, plan.second)
      requires StandsOn(first.scorer) && (second != null ==> StandsOn(second.scorer))
      modifies coordinator, first, Present(second)
      ensures PartOk(first, Some(plan.first)) && PartOk(second, plan.second)
      ensures sum == SumOf(plan.first, doc) + (if second == null then 0.0 else SumOf(second.scorer.counting, doc))
      ensures coordinator.nrMatchers ==
                old(coordinator.nrMatchers) + CountOf(plan.first, doc)
                    + (if second == null then 0 else CountOf(second.scorer.counting, doc))
    {
      hide ClauseScorer.Valid, ClauseScorer.Doc, SumOf, CountOf;
      sum := first.Score();
      if second != null {
        var more := second.Score();
        sum := sum + more;
      }
    }

    ghost predicate StandsOn(s: ClauseScorer)
      reads this, s, s.repr
    {
      s.Valid() && s.Doc() == doc && s in main.repr && s.repr <= main.repr
    }

    /** What has to match stands on the current document. */
    lemma StandsHere()
      requires Valid() && 0 <= doc < NO_MORE_DOCS
      ensures StandsOn(first.scorer) && (second != null ==> StandsOn(second.scorer))
      ensures PlanGoes(plan, doc) && PlanCount(plan, doc) < |coordinator.coordFactors|
      ensures plan.first.Holds(doc) && (plan.second.Some? ==> plan.second.value.Holds(doc))
    {
      GoesFrom(plan, doc);
      main.required.Stand(first.scorer);
      if second != null { main.required.Stand(second.scorer); }
    }

    /** The optional scorer is taken to the document when that is scored. */
    method ScoreOptional() returns (score: real)
      requires PartOk(extra, plan.extra) && OptOk() && 0 <= doc < NO_MORE_DOCS
      requires this !in Optional() && (extra != null ==> {extra, coordinator} !! Optional())
      modifies this`optDone, this`optFrom, coordinator, Present(extra), Optional()
      ensures PartOk(extra, plan.extra) && OptOk()
      ensures score == PartSum(plan.extra, doc) && coordinator.nrMatchers == old(coordinator.nrMatchers)
              + PartCount(plan.extra, doc)
    {
      if extra == null {
        return 0.0;
      }
      hide ClauseScorer.Valid, ClauseScorer.Doc, SumOf, CountOf;
      var here := OptStandsOn();
      if here {
        score := extra.Score();
      } else {
        score := 0.0;
      }
    }

    /** Takes the optional scorer up to the document, unless it is beyond it or exhausted. */
    method OptStandsOn() returns (here: bool)
      requires extra != null && OptOk() && 0 <= doc < NO_MORE_DOCS && this !in Optional()
      modifies this`optDone, this`optFrom, Optional()
      ensures OptOk() && here == extra.scorer.counting.Holds(doc) && (here ==> extra.scorer.Doc() == doc)
    {
      hide ClauseScorer.Valid, ClauseScorer.Doc, ClauseScorer.Short, FirstOf, Advanced;
      if optDone {
        OptHolds(optFrom, NO_MORE_DOCS);
        return false;
      }
      var optDoc := extra.scorer.DocID();
      if optDoc < doc {
        ghost var from, short := optDoc, extra.scorer.Short();
        optDoc := extra.scorer.Advance(doc);
        optFrom := doc;
        OptSought(short, from);
        if optDoc == NO_MORE_DOCS {
          optDone := true;
          OptHolds(optFrom, NO_MORE_DOCS);
          return false;
        }
      }
      here := optDoc == doc;
      OptHolds(optFrom, optDoc);
    }

    lemma OptHolds(lo: int, d: int)
      requires extra != null && FirstOf([extra.scorer.counting], lo, d) && lo <= doc <= d && 0 <= doc < NO_MORE_DOCS
      ensures extra.scorer.counting.Holds(doc) <==> d == doc
    {
      OneHolds(extra.scorer.counting, doc);
    }

    lemma OptSought(short: bool, from: int)
      requires extra != null && from < doc
      requires Advanced([extra.scorer.counting], extra.scorer.counting.SingleMatch?, short, from, doc,
                 extra.scorer.Doc())
      ensures FirstOf([extra.scorer.counting], doc, extra.scorer.Doc()) && doc <= extra.scorer.Doc() <= NO_MORE_DOCS
    {
    }

    /** score(collector): every document asked for, in increasing order. */
    method ScoreAll() returns (hits: seq<Posting>)
      requires Valid() && doc == -1
      modifies Footprint()
      ensures Valid() && Ordered(hits) && forall d :: At(hits, d) == HitOf(d)
    {
      hide At, PlanHit, Plan.Ok, PlanFits, PartOk, OptOk, CountingSumScorer.Valid, CountingSumScorer.Doc, FirstGoing,
           Counters, Optional, Found, NextHit;
      hits := [];
      var d := NextDoc();
      FoundNone(d);
      while d != NO_MORE_DOCS
        invariant Valid() && 0 <= d == doc <= NO_MORE_DOCS
        invariant Ordered(hits) && (forall k :: 0 <= k < |hits| ==> hits[k].doc < d)
        invariant Found(hits, d)
        decreases NO_MORE_DOCS - d
      {
        var score := Score();
        ghost var from, was := d, hits;
        hits := hits + [Posting(d, score)];
        d := NextDoc();
        FoundNext(was, from, score, d);
      }
      forall x ensures At(hits, x) == HitOf(x) { FoundAll(hits, x); }
    }

    /** Every hit below `d` is found, and no other. */
    ghost predicate Found(hits: seq<Posting>, d: int) { forall x :: x < d ==> At(hits, x) == HitOf(x) }

    lemma FoundNone(d: int)
      requires plan.Ok() && NextHit(plan, coordinator.coordFactors, 0, d)
      ensures 0 <= d && Found([], d)
    {
      forall x | x < 0 ensures HitOf(x).None? {
        if HitOf(x).Some? { GoesFrom(plan, x); }
      }
    }

    lemma FoundNext(hits: seq<Posting>, d: nat, score: real, to: int)
      requires Found(hits, d) && (forall k :: 0 <= k < |hits| ==> hits[k].doc < d) && Some(score) == HitOf(d)
      requires NextHit(plan, coordinator.coordFactors, d + 1, to)
      ensures d < to && Found(hits + [Posting(d, score)], to)
    {
      forall x | x < to ensures At(hits + [Posting(d, score)], x) == HitOf(x) {
        AtSnoc(hits, Posting(d, score), x);
        if x > d {
          AtAbsent(hits, x);
          assert HitOf(x).None?;
        }
      }
    }

    lemma FoundAll(hits: seq<Posting>, x: int)
      requires plan.Ok() && Found(hits, NO_MORE_DOCS) && Ordered(hits)
      ensures At(hits, x) == HitOf(x)
    {
      if x >= NO_MORE_DOCS {
        AtAbsent(hits, x);
        if HitOf(x).Some? { GoesFrom(plan, x); }
      }
    }
  }
}
