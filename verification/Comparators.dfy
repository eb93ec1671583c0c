/**
 Sorting by string: the comparator that works on ordinals, segment by segment, against the one that
 compares the strings.
 */
module Comparators {

  /** A string by its code points. */
  type Text = seq<nat>

  /** The sign of String::compare. */
  function Cmp(a: Text, b: Text): int {
    if a == [] then (if b == [] then 0 else -1)
    else if b == [] then 1
    else if a[0] < b[0] then -1
    else if a[0] > b[0] then 1
    else Cmp(a[1..], b[1..])
  }

  lemma {:induction false} CmpSelf(a: Text, b: Text)
    ensures Cmp(a, b) == 0 <==> a == b
    ensures Cmp(a, b) == -Cmp(b, a)
  {
    if a != [] && b != [] {
      CmpSelf(a[1..], b[1..]);
      assert a == [a[0]] + a[1..] && b == [b[0]] + b[1..];
    }
  }

  lemma {:induction false} CmpTrans(a: Text, b: Text, c: Text)
    requires Cmp(a, b) <= 0 && Cmp(b, c) <= 0
    ensures Cmp(a, c) <= 0 && (Cmp(a, b) < 0 || Cmp(b, c) < 0 ==> Cmp(a, c) < 0)
  {
    if a != [] && b != [] && c != [] && a[0] == b[0] == c[0] { CmpTrans(a[1..], b[1..], c[1..]); }
  }

  function Sign(x: int): int { if x < 0 then -1 else if x > 0 then 1 else 0 }

  // ---------- the caches ----------

  /** A term of the field, and the documents that have it. */
  datatype Term = Term(text: Text, docs: set<nat>)

  predicate TermsOk(terms: seq<Term>) { forall i, j :: 0 <= i < j < |terms| ==> Cmp(terms[i].text, terms[j].text) < 0 }

  /** StringIndexCache: the lookup table starts with the empty string for documents without a term,
      and has room for one term more than there are documents. */
  function Kept(terms: seq<Term>, maxDoc: nat): nat { if |terms| <= maxDoc then |terms| else maxDoc }

  function Lookup(terms: seq<Term>, maxDoc: nat): seq<Text> {
    [[]] + seq(Kept(terms, maxDoc), i requires 0 <= i < Kept(terms, maxDoc) => terms[i].text)
  }

  /** The last of the first `n` terms that the document has, counted from 1; 0 for none. */
  function OrdIn(terms: seq<Term>, n: nat, doc: nat): nat
    requires n <= |terms|
  {
    if n == 0 then 0 else if doc in terms[n - 1].docs then n else OrdIn(terms, n - 1, doc)
  }

  /** StringCache: the text of the last term the document has. */
  function StringOf(terms: seq<Term>, doc: nat): Text {
    var o := OrdIn(terms, |terms|, doc);
    OrdInRange(terms, |terms|, doc);
    if o == 0 then [] else terms[o - 1].text
  }

  lemma {:induction false} OrdInRange(terms: seq<Term>, n: nat, doc: nat)
    requires n <= |terms|
    ensures OrdIn(terms, n, doc) <= n
    ensures OrdIn(terms, n, doc) > 0 ==> doc in terms[OrdIn(terms, n, doc) - 1].docs
    ensures forall i :: OrdIn(terms, n, doc) <= i < n ==> doc !in terms[i].docs
  {
    if n > 0 && doc !in terms[n - 1].docs { OrdInRange(terms, n - 1, doc); }
  }

  lemma {:induction false} OrdInMore(terms: seq<Term>, k: nat, n: nat, doc: nat)
    requires k <= n <= |terms| && forall i :: k <= i < n ==> doc !in terms[i].docs
    ensures OrdIn(terms, n, doc) == OrdIn(terms, k, doc)
  {
    if k < n { OrdInMore(terms, k, n - 1, doc); }
  }

  /** A later term has another text. */
  lemma LaterDiffers(terms: seq<Term>, o: nat, p: nat)
    requires TermsOk(terms) && o < p <= |terms| && p >= 2
    ensures (if o == 0 then [] else terms[o - 1].text) != terms[p - 1].text
  {
    if o == 0 {
      CmpTrans([], terms[0].text, terms[p - 1].text);
      CmpSelf([], terms[p - 1].text);
    } else {
      CmpSelf(terms[o - 1].text, terms[p - 1].text);
    }
  }

  /** The two caches agree on a document exactly when none of its terms fell off the lookup table. */
  lemma CachesAgree(terms: seq<Term>, maxDoc: nat, doc: nat)
    requires TermsOk(terms) && doc < maxDoc
    ensures var o := OrdIn(terms, Kept(terms, maxDoc), doc);
      && o < |Lookup(terms, maxDoc)|
      && (Lookup(terms, maxDoc)[o] == StringOf(terms, doc) <==>
            (forall i :: maxDoc <= i < |terms| ==> doc !in terms[i].docs))
  {
    hide Cmp, TermsOk;
    var k := Kept(terms, maxDoc);
    OrdInRange(terms, k, doc);
    OrdInRange(terms, |terms|, doc);
    if forall i :: maxDoc <= i < |terms| ==> doc !in terms[i].docs {
      OrdInMore(terms, k, |terms|, doc);
    } else {
      LaterDiffers(terms, OrdIn(terms, k, doc), OrdIn(terms, |terms|, doc));
    }
  }

  /** A segment's reader, as far as the field is concerned. */
  datatype Reader = Reader(terms: seq<Term>, maxDoc: nat)
  {
    predicate Ok() { TermsOk(terms) && forall i, d :: 0 <= i < |terms| && d in terms[i].docs ==> d < maxDoc }

    function Ord(doc: nat): nat { OrdIn(terms, Kept(terms, maxDoc), doc) }

    /** getStringIndex. */
    function Index(): (index: StringIndex)
      ensures |index.order| == maxDoc && index.lookup == Lookup(terms, maxDoc)
      ensures forall d :: 0 <= d < maxDoc ==> index.order[d] == Ord(d) < |index.lookup|
    {
      forall d ensures Ord(d) <= Kept(terms, maxDoc) { OrdInRange(terms, Kept(terms, maxDoc), d); }
      StringIndex(seq(maxDoc, d requires 0 <= d < maxDoc => Ord(d)), Lookup(terms, maxDoc))
    }

    /** getStrings. */
    function Strings(): seq<Text> { seq(maxDoc, d requires 0 <= d < maxDoc => StringOf(terms, d)) }

    /** No term of the document fell off the table, and its last one is not the empty string. */
    predicate GoodAt(doc: nat) {
      && (forall i :: maxDoc <= i < |terms| ==> doc !in terms[i].docs)
      && (forall i :: 0 <= i < Kept(terms, maxDoc) && i + 1 == Ord(doc) ==> terms[i].text != [])
    }

    predicate Good() { forall d :: 0 <= d < maxDoc ==> GoodAt(d) }
  }

  // ---------- ordinals ----------

  predicate LookupOk(lookup: seq<Text>) {
    lookup != [] && lookup[0] == [] && forall i, j :: 0 <= i < j < |lookup| ==> Cmp(lookup[i], lookup[j]) < 0
  }

  /** The table is strictly increasing exactly when the empty string is not a term of its own. */
  lemma LookupIncreasing(terms: seq<Term>, maxDoc: nat)
    requires TermsOk(terms)
    ensures LookupOk(Lookup(terms, maxDoc)) <==> (Kept(terms, maxDoc) == 0 || terms[0].text != [])
  {
    var l, k := Lookup(terms, maxDoc), Kept(terms, maxDoc);
    if k > 0 && terms[0].text != [] {
      forall i, j | 0 <= i < j < |l| ensures Cmp(l[i], l[j]) < 0 {
        if i == 0 && j > 1 { CmpTrans([], terms[0].text, terms[j - 1].text); }
      }
    } else if k > 0 {
      assert Cmp(l[0], l[1]) == 0;
    }
  }

  /** What every table of the cache is: strictly increasing, but for the empty string, which may come twice. */
  predicate TableOk(lookup: seq<Text>) {
    && lookup != [] && lookup[0] == []
    && forall i, j :: 0 <= i < j < |lookup| ==>
         Cmp(lookup[i], lookup[j]) <= 0 && (j >= 2 ==> Cmp(lookup[i], lookup[j]) < 0)
  }

  lemma TablesOk(terms: seq<Term>, maxDoc: nat)
    requires TermsOk(terms)
    ensures TableOk(Lookup(terms, maxDoc))
  {
    var l, k := Lookup(terms, maxDoc), Kept(terms, maxDoc);
    forall i, j | 0 <= i < j < |l| ensures Cmp(l[i], l[j]) <= 0 && (j >= 2 ==> Cmp(l[i], l[j]) < 0) {
      if i == 0 && j > 1 { CmpTrans([], terms[0].text, terms[j - 1].text); }
    }
  }

  /** The greatest entry that is not beyond the value, and the first for the empty string. */
  ghost predicate IsOrd(lookup: seq<Text>, v: Text, ord: int) {
    && 0 <= ord < |lookup|
    && if v == [] then ord == 0 else Cmp(lookup[ord], v) <= 0 && (ord + 1 < |lookup| ==> Cmp(v, lookup[ord + 1]) < 0)
  }

  /** Comparing by ordinal first, then by value, is comparing by value. */
  lemma OrdsDecide(lookup: seq<Text>, a: Text, oa: int, b: Text, ob: int)
    requires TableOk(lookup) && IsOrd(lookup, a, oa) && IsOrd(lookup, b, ob)
    ensures (if oa != ob then Sign(oa - ob) else Cmp(a, b)) == Cmp(a, b)
  {
    if oa < ob {
      Across(lookup, a, oa, b, ob);
    } else if ob < oa {
      Across(lookup, b, ob, a, oa);
      CmpSelf(a, b);
    }
  }

  lemma Across(lookup: seq<Text>, a: Text, oa: int, b: Text, ob: int)
    requires TableOk(lookup) && IsOrd(lookup, a, oa) && IsOrd(lookup, b, ob) && oa < ob
    ensures Cmp(a, b) == -1
  {
    if a != [] {
      if oa + 1 < ob { CmpTrans(a, lookup[oa + 1], lookup[ob]); }
      CmpTrans(a, lookup[ob], b);
      CmpSign(a, b);
    }
  }

  lemma {:induction false} CmpSign(a: Text, b: Text)
    ensures -1 <= Cmp(a, b) <= 1
  {
    if a != [] && b != [] && a[0] == b[0] { CmpSign(a[1..], b[1..]); }
  }

  lemma EntryIsOrd(lookup: seq<Text>, ord: int)
    requires TableOk(lookup) && 0 <= ord < |lookup|
    ensures IsOrd(lookup, lookup[ord], ord) <==> ord == 0 || lookup[ord] != []
  {
    CmpSelf(lookup[ord], lookup[ord]);
  }

  lemma OneOrd(lookup: seq<Text>, v: Text, a: int, b: int)
    requires TableOk(lookup) && IsOrd(lookup, v, a) && IsOrd(lookup, v, b)
    ensures a == b
  {
    CmpSelf(v, v);
    if a < b { Across(lookup, v, a, v, b); } else if b < a { Across(lookup, v, b, v, a); }
  }

  // ---------- the comparators ----------

  /** StringValComparator: the values kept, the bottom one, and the strings of the current segment. */
  datatype ValState = ValState(values: seq<Text>, bottom: Text, strings: seq<Text>) {
    function Compare(slot1: nat, slot2: nat): int
      requires slot1 < |values| && slot2 < |values|
    {
      Cmp(values[slot1], values[slot2])
    }

    function CompareBottom(doc: nat): int
      requires doc < |strings|
    {
      Cmp(bottom, strings[doc])
    }

    function Copy(slot: nat, doc: nat): ValState
      requires slot < |values| && doc < |strings|
    {
      this.(values := values[slot := strings[doc]])
    }

    function SetBottom(slot: nat): ValState
      requires slot < |values|
    {
      this.(bottom := values[slot])
    }

    function SetNextReader(next: seq<Text>): ValState { this.(strings := next) }
  }

  /** What a segment's caches hold: each document's ordinal, and the table of strings. */
  datatype StringIndex = StringIndex(order: seq<nat>, lookup: seq<Text>)
  {
    predicate Ok() { TableOk(lookup) && forall d :: 0 <= d < |order| ==> order[d] < |lookup| }

    ghost predicate Exact() { Ok() && forall d :: 0 <= d < |order| ==> IsOrd(lookup, lookup[order[d]], order[d]) }
  }

  /** std::lower_bound: the first entry of the range that is not less. */
  function LowerBound(lookup: seq<Text>, key: Text, low: nat, high: nat): (pos: nat)
    requires low <= high < |lookup|
    ensures low <= pos <= high && (forall i :: low <= i < pos ==> Cmp(lookup[i], key) < 0)
    ensures pos < high ==> Cmp(lookup[pos], key) >= 0
    decreases high - low
  {
    if low == high || Cmp(lookup[low], key) >= 0 then low else LowerBound(lookup, key, low + 1, high)
  }

  /** The ordinal that a value is given in a table. */
  function OrdOf(lookup: seq<Text>, value: Text): int
    requires lookup != []
  {
    if value == [] then 0
    else
      var pos := LowerBound(lookup, value, 0, |lookup| - 1);
      if Cmp(value, lookup[pos]) < 0 then pos - 1 else pos
  }

  lemma OrdOfIsOrd(lookup: seq<Text>, value: Text)
    requires TableOk(lookup)
    ensures IsOrd(lookup, value, OrdOf(lookup, value))
  {
    if value != [] {
      var pos := LowerBound(lookup, value, 0, |lookup| - 1);
      CmpSelf(value, lookup[pos]);
      if Cmp(value, lookup[pos]) < 0 {
        assert pos > 0 by { assert Cmp(value, []) == 1; }
      } else if pos + 1 < |lookup| {
        CmpTrans(value, lookup[pos], lookup[pos + 1]);
      }
    }
  }

  /** StringOrdValComparator, by value. */
  datatype OrdState = OrdState(ords: seq<int>, values: seq<Text>, readerGen: seq<int>, gen: int, index: StringIndex,
                               bottomSlot: int, bottomOrd: int, bottomValue: Text)
  {
    predicate Shaped() { |ords| == |values| == |readerGen| && -1 <= bottomSlot < |values| && gen >= -1 }

    function Compare(slot1: nat, slot2: nat): int
      requires Shaped() && slot1 < |values| && slot2 < |values|
    {
      if readerGen[slot1] == readerGen[slot2] && ords[slot1] != ords[slot2] then ords[slot1] - ords[slot2]
      else Cmp(values[slot1], values[slot2])
    }

    function CompareBottom(doc: nat): int
      requires doc < |index.order| && index.order[doc] < |index.lookup|
    {
      if bottomOrd != index.order[doc] then bottomOrd - index.order[doc]
          else Cmp(bottomValue, index.lookup[index.order[doc]])
    }

    function Copy(slot: nat, doc: nat): OrdState
      requires Shaped() && slot < |values| && doc < |index.order| && index.order[doc] < |index.lookup|
    {
      var ord := index.order[doc];
      this.(ords := ords[slot := ord], values := values[slot := index.lookup[ord]], readerGen := readerGen[slot := gen])
    }

    function Converted(slot: nat): OrdState
      requires Shaped() && slot < |values| && index.lookup != []
    {
      this.(ords := ords[slot := OrdOf(index.lookup, values[slot])], readerGen := readerGen[slot := gen])
    }

    function SetNextReader(next: StringIndex): OrdState
      requires Shaped() && next.lookup != []
    {
      var s := this.(gen := gen + 1, index := next);
      if bottomSlot == -1 then s else s.Converted(bottomSlot).(bottomOrd := OrdOf(next.lookup, values[bottomSlot]))
    }

    function SetBottom(slot: nat): OrdState
      requires Shaped() && slot < |values| && index.lookup != []
    {
      var s := if readerGen[slot] == gen then this else Converted(slot);
      s.(bottomSlot := slot, bottomOrd := s.ords[slot], bottomValue := values[slot])
    }

    /** A slot's ordinal is that of its value in the table of the segment it was filled from, or brought over to. */
    ghost predicate SlotExact(tables: seq<seq<Text>>, s: nat)
      requires Shaped() && s < |values|
    {
      if readerGen[s] < |tables| then 0 <= readerGen[s] && IsOrd(tables[readerGen[s]], values[s], ords[s])
      else readerGen[s] == 0 && ords[s] == 0 && values[s] == []
    }

    /** So it is for every slot; `tables` are those of the segments so far. */
    ghost predicate Exact(tables: seq<seq<Text>>) {
      && Shaped() && |tables| == gen + 1 && (forall g :: 0 <= g < |tables| ==> TableOk(tables[g]))
      && (gen >= 0 ==> index.Exact() && index.lookup == tables[gen])
      && forall s :: 0 <= s < |values| ==> SlotExact(tables, s)
    }
  }

  /** Slots are compared as their values are. */
  lemma CompareExact(s: OrdState, tables: seq<seq<Text>>, a: nat, b: nat)
    requires s.Exact(tables) && a < |s.values| && b < |s.values|
    ensures Sign(s.Compare(a, b)) == Cmp(s.values[a], s.values[b])
  {
    hide Cmp, IsOrd, TableOk;
    CmpSign(s.values[a], s.values[b]);
    assert s.SlotExact(tables, a) && s.SlotExact(tables, b);
    if s.readerGen[a] == s.readerGen[b] && s.ords[a] != s.ords[b] {
      OrdsDecide(tables[s.readerGen[a]], s.values[a], s.ords[a], s.values[b], s.ords[b]);
    }
  }

  /** If the bottom ordinal is that of the bottom value, or of the document's own, the document is compared as its
      value is. */
  lemma CompareBottomExact(s: OrdState, held: Text, doc: nat)
    requires s.index.Exact() && IsOrd(s.index.lookup, held, s.bottomOrd) && doc < |s.index.order|
    requires held == s.bottomValue || held == s.index.lookup[s.index.order[doc]]
    ensures Sign(s.CompareBottom(doc)) == Cmp(s.bottomValue, s.index.lookup[s.index.order[doc]])
  {
    hide Cmp, IsOrd, TableOk;
    var lookup, ord := s.index.lookup, s.index.order[doc];
    CmpSign(s.bottomValue, lookup[ord]);
    if held == lookup[ord] {
      OneOrd(lookup, held, s.bottomOrd, ord);
    } else {
      OrdsDecide(lookup, held, s.bottomOrd, lookup[ord], ord);
    }
  }

  lemma CopyExact(s: OrdState, tables: seq<seq<Text>>, slot: nat, doc: nat)
    requires s.Exact(tables) && s.gen >= 0 && slot < |s.values| && doc < |s.index.order|
    ensures s.Copy(slot, doc).Exact(tables)
  {
    hide Cmp, IsOrd, TableOk;
    var t := s.Copy(slot, doc);
    forall i | 0 <= i < |t.values| ensures t.SlotExact(tables, i) { assert s.SlotExact(tables, i); }
  }

  lemma ConvertedExact(s: OrdState, tables: seq<seq<Text>>, slot: nat)
    requires s.Exact(tables) && s.gen >= 0 && slot < |s.values|
    ensures s.Converted(slot).Exact(tables) && IsOrd(s.index.lookup, s.values[slot], s.Converted(slot).ords[slot])
  {
    hide Cmp, IsOrd, OrdOf;
    var t := s.Converted(slot);
    OrdOfIsOrd(s.index.lookup, s.values[slot]);
    forall i | 0 <= i < |t.values| ensures t.SlotExact(tables, i) { assert s.SlotExact(tables, i); }
  }

  /** A new segment: the bottom ordinal is that of what the bottom slot holds. */
  lemma SetNextReaderExact(s: OrdState, tables: seq<seq<Text>>, next: StringIndex)
    requires s.Exact(tables) && next.Exact()
    ensures s.SetNextReader(next).Exact(tables + [next.lookup])
    ensures s.bottomSlot != -1 ==> IsOrd(next.lookup, s.values[s.bottomSlot], s.SetNextReader(next).bottomOrd)
  {
    hide Cmp, OrdOf;
    var t, more := s.(gen := s.gen + 1, index := next), tables + [next.lookup];
    assert TableOk(next.lookup);
    EmptyIsFirst(next.lookup);
    forall i | 0 <= i < |t.values| ensures t.SlotExact(more, i) { assert s.SlotExact(tables, i); }
    if s.bottomSlot != -1 {
      ConvertedExact(t, more, s.bottomSlot);
      var c, n := t.Converted(s.bottomSlot), s.SetNextReader(next);
      forall i | 0 <= i < |n.values| ensures n.SlotExact(more, i) { assert c.SlotExact(more, i); }
    }
  }

  lemma SetBottomExact(s: OrdState, tables: seq<seq<Text>>, slot: nat)
    requires s.Exact(tables) && s.gen >= 0 && slot < |s.values|
    ensures s.SetBottom(slot).Exact(tables) && IsOrd(s.index.lookup, s.values[slot], s.SetBottom(slot).bottomOrd)
  {
    hide Cmp, IsOrd, OrdOf;
    assert s.SlotExact(tables, slot);
    if s.readerGen[slot] != s.gen { ConvertedExact(s, tables, slot); }
    var t, c := s.SetBottom(slot), if s.readerGen[slot] == s.gen then s else s.Converted(slot);
    forall i | 0 <= i < |t.values| ensures t.SlotExact(tables, i) { assert c.SlotExact(tables, i); }
  }

  class StringOrdValComparator {
    var ords: seq<int>
    var values: seq<Text>
    var readerGen: seq<int>
    var currentReaderGen: int
    var lookup: seq<Text>
    var order: seq<nat>
    var bottomSlot: int
    var bottomOrd: int
    var bottomValue: Text

    ghost predicate Valid()
      reads this
    {
      State().Shaped() && (currentReaderGen >= 0 ==> StringIndex(order, lookup).Ok())
    }

    ghost function State(): OrdState
      reads this
    {
      OrdState(ords, values, readerGen, currentReaderGen, StringIndex(order, lookup), bottomSlot, bottomOrd,
          bottomValue)
    }

    constructor (numHits: nat)
      ensures Valid() && State() == OrdStart(numHits)
    {
      ords, values, readerGen := seq(numHits, _ => 0), seq(numHits, _ => []), seq(numHits, _ => 0);
      currentReaderGen, bottomSlot, bottomOrd, bottomValue, lookup, order := -1, -1, 0, [], [], [];
    }

    /** Slots of one segment are compared by ordinal first. */
    method Compare(slot1: nat, slot2: nat) returns (cmp: int)
      requires Valid() && slot1 < |values| && slot2 < |values|
      ensures cmp == State().Compare(slot1, slot2)
      ensures forall tables :: State().Exact(tables) ==> Sign(cmp) == Cmp(values[slot1], values[slot2])
    {
      forall tables | State().Exact(tables) ensures Sign(State().Compare(slot1, slot2)) ==
          Cmp(values[slot1], values[slot2]) {
        CompareExact(State(), tables, slot1, slot2);
      }
      if readerGen[slot1] == readerGen[slot2] {
        cmp := ords[slot1] - ords[slot2];
        if cmp != 0 {
          return;
        }
      }
      cmp := Cmp(values[slot1], values[slot2]);
    }

    method CompareBottom(doc: nat) returns (cmp: int)
      requires Valid() && bottomSlot != -1 && currentReaderGen >= 0 && doc < |order|
      ensures cmp == State().CompareBottom(doc)
      ensures forall held :: StringIndex(order, lookup).Exact() && IsOrd(lookup, held, bottomOrd)
                             && (held == bottomValue || held == lookup[order[doc]]) ==>
                Sign(cmp) == Cmp(bottomValue, lookup[order[doc]])
    {
      hide Cmp, IsOrd, TableOk;
      forall held | StringIndex(order, lookup).Exact() && IsOrd(lookup, held, bottomOrd)
                    && (held == bottomValue || held == lookup[order[doc]])
        ensures Sign(State().CompareBottom(doc)) == Cmp(bottomValue, lookup[order[doc]])
      {
        CompareBottomExact(State(), held, doc);
      }
      var ord := order[doc];
      cmp := bottomOrd - ord;
      if cmp != 0 {
        return;
      }
      cmp := Cmp(bottomValue, lookup[ord]);
    }

    method Copy(slot: nat, doc: nat)
      requires Valid() && currentReaderGen >= 0 && slot < |values| && doc < |order|
      modifies this
      ensures Valid() && State() == old(State()).Copy(slot, doc)
    {
      var ord := order[doc];
      ords := ords[slot := ord];
      values := values[slot := lookup[ord]];
      readerGen := readerGen[slot := currentReaderGen];
    }

    /** lower_bound on the range that leaves the last entry out, and the entry it ends at. */
    method BinarySearch(key: Text, low: nat, high: nat) returns (index: int)
      requires TableOk(lookup) && low <= high < |lookup|
      ensures var pos := LowerBound(lookup, key, low, high);
              index == if Cmp(key, lookup[pos]) < 0 then -(pos + 1) else pos
    {
      hide Cmp;
      var lo, hi := low, high;
      while lo < hi
        invariant low <= lo <= hi <= high && (forall i :: low <= i < lo ==> Cmp(lookup[i], key) < 0)
        invariant hi < high ==> Cmp(lookup[hi], key) >= 0
      {
        var mid := (lo + hi) / 2;
        if Cmp(lookup[mid], key) < 0 {
          BelowToo(lookup, mid, key);
          lo := mid + 1;
        } else {
          hi := mid;
        }
      }
      index := if Cmp(key, lookup[lo]) < 0 then -(lo + 1) else lo;
    }

    /** Brings the bottom slot over to the current segment. */
    method Convert(slot: nat)
      requires Valid() && currentReaderGen >= 0 && slot < |values| && slot == bottomSlot
      modifies this`ords, this`readerGen
      ensures Valid() && State() == old(State()).Converted(slot)
      ensures IsOrd(lookup, values[slot], ords[slot])
    {
      hide Cmp;
      readerGen := readerGen[slot := currentReaderGen];
      var value := values[slot];
      OrdOfIsOrd(lookup, value);
      if value == [] {
        ords := ords[slot := 0];
        return;
      }
      var index := BinarySearch(value, 0, |lookup| - 1);
      if index < 0 {
        index := -index - 2;
      }
      ords := ords[slot := index];
    }

    method SetNextReader(index: StringIndex)
      requires Valid() && index.Ok()
      modifies this
      ensures Valid() && State() == old(State()).SetNextReader(index)
    {
      currentReaderGen := currentReaderGen + 1;
      order, lookup := index.order, index.lookup;
      if bottomSlot != -1 {
        Convert(bottomSlot);
        bottomOrd := ords[bottomSlot];
      }
    }

    method SetBottom(slot: nat)
      requires Valid() && slot < |values| && currentReaderGen >= 0
      modifies this
      ensures Valid() && State() == old(State()).SetBottom(slot)
    {
      bottomSlot := slot;
      if readerGen[slot] != currentReaderGen {
        Convert(slot);
      }
      bottomOrd := ords[slot];
      bottomValue := values[slot];
    }
  }

  function OrdStart(numHits: nat): (s: OrdState)
    ensures s.Shaped() && s.Exact([])
  {
    OrdState(seq(numHits, _ => 0), seq(numHits, _ => []), seq(numHits, _ => 0), -1, StringIndex([], []), -1, 0, [])
  }

  lemma EmptyIsFirst(lookup: seq<Text>)
    requires TableOk(lookup)
    ensures IsOrd(lookup, [], 0)
  {
  }

  lemma BelowToo(lookup: seq<Text>, mid: nat, key: Text)
    requires TableOk(lookup) && mid < |lookup| && Cmp(lookup[mid], key) < 0
    ensures forall i :: 0 <= i <= mid ==> Cmp(lookup[i], key) < 0
  {
    forall i | 0 <= i < mid ensures Cmp(lookup[i], key) < 0 { CmpTrans(lookup[i], lookup[mid], key); }
  }

  /** How a value compares with the entries of the table. */
  lemma StrictTable(lookup: seq<Text>, o: int)
    requires LookupOk(lookup) && 0 <= o < |lookup|
    ensures TableOk(lookup) && IsOrd(lookup, lookup[o], o)
  {
    if o > 0 {
      CmpSelf([], lookup[o]);
    }
    EntryIsOrd(lookup, o);
  }

  lemma EntrySign(lookup: seq<Text>, v: Text, k: int, o: int)
    requires LookupOk(lookup) && IsOrd(lookup, v, k) && 0 <= o < |lookup|
    ensures Cmp(v, lookup[o]) == if o < k then 1 else if o > k then -1 else if v == lookup[k] then 0 else 1
  {
    StrictTable(lookup, o);
    OrdsDecide(lookup, v, k, lookup[o], o);
    CmpSelf(v, lookup[o]);
    CmpSign(v, lookup[o]);
  }

  /** With the bottom slot filled anew before the segment changes, the ordinal `k` kept for it is that
      of the new value: when the comparison with the bottom value still comes out right. */
  lemma StaleBottom(lookup: seq<Text>, bottom: Text, kb: int, k: int)
    requires LookupOk(lookup) && IsOrd(lookup, bottom, kb) && 0 <= k < |lookup|
    ensures (forall o :: 0 <= o < |lookup| ==>
              (if k != o then Sign(k - o) else Cmp(bottom, lookup[o])) == Cmp(bottom, lookup[o]))
            <==> k == kb || (k == kb + 1 && bottom != lookup[kb])
  {
    hide Cmp, LookupOk;
    forall o | 0 <= o < |lookup|
      ensures Cmp(bottom, lookup[o]) == if o < kb then 1
                else if o > kb then -1 else if bottom == lookup[kb] then 0 else 1
    {
      EntrySign(lookup, bottom, kb, o);
    }
    if k < kb {
      assert Cmp(bottom, lookup[k + 1]) >= 0;
    } else if k > kb + 1 {
      assert Cmp(bottom, lookup[kb + 1]) == -1;
    }
  }
}
