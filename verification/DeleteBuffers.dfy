/**
 The mutable pieces of the delete machinery: the buffers themselves, applying them to a
 segment reader in place, and carrying deletions that arrived during a merge into the
 merged segment.  Each is proved against the function of IndexState it implements.
 */
module DeleteBuffers {
  import opened OperationLog
  import opened IndexState
  import opened MergeDocIDs

  class BufferedDeletes {
    var terms: map<Term, int>
    var queries: map<Query, int>
    var docIDs: seq<int>
    var numTerms: int
    var bytesUsed: int

    function Value(): Deletes
      reads this
    {
      Deletes(terms, queries, docIDs)
    }

    constructor ()
      ensures Value() == NO_DELETES && numTerms == 0 && bytesUsed == 0
    {
      terms, queries, docIDs, numTerms, bytesUsed := map[], map[], [], 0, 0;
    }

    method PutTerm(term: Term, docIDUpto: int, bytes: int)
      modifies this
      ensures Value() == AddTerm(old(Value()), term, docIDUpto)
      ensures numTerms == old(numTerms) + 1 && bytesUsed == old(bytesUsed) + bytes
    {
      if term !in terms {
        terms := terms[term := docIDUpto];
      } else {
        terms := terms[term := Max(terms[term], docIDUpto)];
      }
      numTerms := numTerms + 1;
      bytesUsed := bytesUsed + bytes;
    }

    method PutQuery(query: Query, docIDUpto: int, bytes: int)
      modifies this
      ensures Value() == AddQuery(old(Value()), query, docIDUpto)
      ensures numTerms == old(numTerms) && bytesUsed == old(bytesUsed) + bytes
    {
      queries := queries[query := docIDUpto];
      bytesUsed := bytesUsed + bytes;
    }

    method PutDocID(docID: int, bytes: int)
      modifies this
      ensures Value() == old(Value()).(docIDs := old(docIDs) + [docID])
      ensures numTerms == old(numTerms) && bytesUsed == old(bytesUsed) + bytes
    {
      docIDs := docIDs + [docID];
      bytesUsed := bytesUsed + bytes;
    }

    method Update(other: BufferedDeletes)
      requires other != this
      modifies this, other
      ensures Value() == Absorb(old(Value()), old(other.Value())) && other.Value() == NO_DELETES
      ensures numTerms == old(numTerms + other.numTerms) && other.numTerms == 0
      ensures bytesUsed == old(bytesUsed + other.bytesUsed) && other.bytesUsed == 0
    {
      numTerms := numTerms + other.numTerms;
      bytesUsed := bytesUsed + other.bytesUsed;
      terms := terms + other.terms;
      queries := queries + other.queries;
      docIDs := docIDs + other.docIDs;
      other.Clear();
    }

    method Clear()
      modifies this
      ensures Value() == NO_DELETES && numTerms == 0 && bytesUsed == 0
    {
      terms, queries, docIDs, numTerms, bytesUsed := map[], map[], [], 0, 0;
    }

    method Any() returns (any: bool)
      ensures any <==> Value() != NO_DELETES
    {
      any := terms != map[] || docIDs != [] || queries != map[];
    }

    method Remap(mapper: MergeDocIDRemapper, ghost snaps: seq<seq<bool>>)
      requires mapper.Valid(snaps) && mapper as object != this
      modifies this
      ensures Value() == RemapAll(old(Value()), snaps, mapper.minDocID)
      ensures numTerms == old(numTerms) && bytesUsed == old(bytesUsed)
    {
      var newTerms := RemapBounds(terms, mapper, snaps);
      var newDocIDs := RemapDocIDs(docIDs, mapper, snaps);
      var newQueries := RemapBounds(queries, mapper, snaps);
      terms, docIDs, queries := newTerms, newDocIDs, newQueries;
    }
  }

  method RemapBounds<K>(bounds: map<K, int>, mapper: MergeDocIDRemapper, ghost snaps: seq<seq<bool>>)
    returns (r: map<K, int>)
    requires mapper.Valid(snaps)
    ensures r == map k | k in bounds :: IndexState.Remap(snaps, mapper.minDocID, bounds[k])
  {
    r := map[];
    var keys := bounds.Keys;
    while keys != {}
      invariant keys <= bounds.Keys && r.Keys == bounds.Keys - keys
      invariant forall k :: k in r ==> r[k] == IndexState.Remap(snaps, mapper.minDocID, bounds[k])
      decreases |keys|
    {
      var k :| k in keys;
      var bound := mapper.Renumber(bounds[k], snaps);
      r := r[k := bound];
      keys := keys - {k};
    }
  }

  method RemapDocIDs(docIDs: seq<int>, mapper: MergeDocIDRemapper, ghost snaps: seq<seq<bool>>) returns (r: seq<int>)
    requires mapper.Valid(snaps)
    ensures |r| == |docIDs|
    ensures forall i :: 0 <= i < |docIDs| ==> r[i] == IndexState.Remap(snaps, mapper.minDocID, docIDs[i])
  {
    r := [];
    for i := 0 to |docIDs|
      invariant |r| == i
      invariant forall j :: 0 <= j < i ==> r[j] == IndexState.Remap(snaps, mapper.minDocID, docIDs[j])
    {
      var docID := mapper.Renumber(docIDs[i], snaps);
      r := r + [docID];
    }
  }

  // ---------- applying buffered deletes to one segment ----------

  /** `flags` after the documents picked out by `hits` were deleted. */
  ghost predicate Marked(flags: seq<bool>, flags': seq<bool>, hits: int -> bool) {
    |flags'| == |flags| && forall k :: 0 <= k < |flags| ==> (flags'[k] <==> flags[k] || hits(k))
  }

  /** The term's postings are walked in order up to the first live document at or past the bound. */
  method DeleteByTerm(docs: seq<Doc>, deleted: array<bool>, t: Term, limit: int, start: int) returns (any: bool)
    requires deleted.Length == |docs|
    modifies deleted
    ensures Marked(old(deleted[..]), deleted[..], k => 0 <= k < |docs| && t in docs[k].terms && start + k < limit)
    ensures !any ==> deleted[..] == old(deleted[..])
  {
    any := false;
    for j := 0 to |docs|
      invariant forall k :: 0 <= k < j ==> (deleted[k] <==>
                  old(deleted[k]) || (t in docs[k].terms && start + k < limit))
      invariant forall k :: j <= k < |docs| ==> deleted[k] == old(deleted[k])
      invariant !any ==> deleted[..] == old(deleted[..])
    {
      if t in docs[j].terms && !deleted[j] {
        if start + j >= limit { break; }
        deleted[j] := true;
        any := true;
      }
    }
  }

  predicate TermHit(d: Deletes, done: set<Term>, doc: Doc, g: int) {
    exists t :: t in doc.terms && t in done && t in d.terms && g < d.terms[t]
  }

  lemma TermHitStep(d: Deletes, done: set<Term>, t: Term, doc: Doc, g: int)
    requires t in d.terms
    ensures TermHit(d, done + {t}, doc, g) <==> TermHit(d, done, doc, g) || (t in doc.terms && g < d.terms[t])
  {
    if TermHit(d, done, doc, g) {
      var u :| u in doc.terms && u in done && u in d.terms && g < d.terms[u];
      assert u in done + {t};
    }
    if t in doc.terms && g < d.terms[t] { assert t in done + {t}; }
  }

  method DeleteByTerms(docs: seq<Doc>, deleted: array<bool>, d: Deletes, start: int) returns (any: bool)
    requires deleted.Length == |docs|
    modifies deleted
    ensures Marked(old(deleted[..]), deleted[..], k => 0 <= k < |docs| && TermHit(d, d.terms.Keys, docs[k], start + k))
    ensures !any ==> deleted[..] == old(deleted[..])
  {
    any := false;
    var keys := d.terms.Keys;
    ghost var done: set<Term> := {};
    while keys != {}
      invariant keys + done == d.terms.Keys
      invariant Marked(old(deleted[..]), deleted[..], k => 0 <= k < |docs| && TermHit(d, done, docs[k], start + k))
      invariant !any ==> deleted[..] == old(deleted[..])
      decreases |keys|
    {
      var t :| t in keys;
      var hit := DeleteByTerm(docs, deleted, t, d.terms[t], start);
      any := any || hit;
      forall k | 0 <= k < |docs|
        ensures TermHit(d, done + {t}, docs[k], start + k) <==>
                TermHit(d, done, docs[k], start + k) || (t in docs[k].terms && start + k < d.terms[t])
      {
        TermHitStep(d, done, t, docs[k], start + k);
      }
      keys, done := keys - {t}, done + {t};
    }
    assert done == d.terms.Keys;
  }

  method DeleteByDocIDs(deleted: array<bool>, docIDs: seq<int>, start: int) returns (any: bool)
    modifies deleted
    ensures Marked(old(deleted[..]), deleted[..], k => start + k in docIDs)
    ensures !any ==> deleted[..] == old(deleted[..])
  {
    any := false;
    for i := 0 to |docIDs|
      invariant Marked(old(deleted[..]), deleted[..], k => start + k in docIDs[..i])
      invariant !any ==> deleted[..] == old(deleted[..])
    {
      assert docIDs[..i + 1] == docIDs[..i] + [docIDs[i]];
      if start <= docIDs[i] < start + deleted.Length {
        deleted[docIDs[i] - start] := true;
        any := true;
      }
    }
    assert docIDs[..|docIDs|] == docIDs;
  }

  /** A query's matches are walked in order up to the first document at or past the bound. */
  method DeleteByQuery(docs: seq<Doc>, deleted: array<bool>, q: Query, limit: int, start: int) returns (any: bool)
    requires deleted.Length == |docs|
    modifies deleted
    ensures Marked(old(deleted[..]), deleted[..], k => 0 <= k < |docs| && q in docs[k].matchedBy && start + k < limit)
    ensures !any ==> deleted[..] == old(deleted[..])
  {
    any := false;
    for j := 0 to |docs|
      invariant forall k :: 0 <= k < j ==> (deleted[k] <==>
                  old(deleted[k]) || (q in docs[k].matchedBy && start + k < limit))
      invariant forall k :: j <= k < |docs| ==> deleted[k] == old(deleted[k])
      invariant !any ==> deleted[..] == old(deleted[..])
    {
      if q in docs[j].matchedBy && !deleted[j] {
        if start + j >= limit { break; }
        deleted[j] := true;
        any := true;
      }
    }
  }

  predicate QueryHit(d: Deletes, done: set<Query>, doc: Doc, g: int) {
    exists q :: q in doc.matchedBy && q in done && q in d.queries && g < d.queries[q]
  }

  lemma QueryHitStep(d: Deletes, done: set<Query>, q: Query, doc: Doc, g: int)
    requires q in d.queries
    ensures QueryHit(d, done + {q}, doc, g) <==> QueryHit(d, done, doc, g) || (q in doc.matchedBy && g < d.queries[q])
  {
    if QueryHit(d, done, doc, g) {
      var u :| u in doc.matchedBy && u in done && u in d.queries && g < d.queries[u];
      assert u in done + {q};
    }
    if q in doc.matchedBy && g < d.queries[q] { assert q in done + {q}; }
  }

  method DeleteByQueries(docs: seq<Doc>, deleted: array<bool>, d: Deletes, start: int) returns (any: bool)
    requires deleted.Length == |docs|
    modifies deleted
    ensures Marked(old(deleted[..]), deleted[..], k => 0 <= k < |docs|
              && QueryHit(d, d.queries.Keys, docs[k], start + k))
    ensures !any ==> deleted[..] == old(deleted[..])
  {
    any := false;
    var keys := d.queries.Keys;
    ghost var done: set<Query> := {};
    while keys != {}
      invariant keys + done == d.queries.Keys
      invariant Marked(old(deleted[..]), deleted[..], k => 0 <= k < |docs| && QueryHit(d, done, docs[k], start + k))
      invariant !any ==> deleted[..] == old(deleted[..])
      decreases |keys|
    {
      var q :| q in keys;
      var hit := DeleteByQuery(docs, deleted, q, d.queries[q], start);
      any := any || hit;
      forall k | 0 <= k < |docs|
        ensures QueryHit(d, done + {q}, docs[k], start + k) <==>
                QueryHit(d, done, docs[k], start + k) || (q in docs[k].matchedBy && start + k < d.queries[q])
      {
        QueryHitStep(d, done, q, docs[k], start + k);
      }
      keys, done := keys - {q}, done + {q};
    }
    assert done == d.queries.Keys;
  }

  lemma HitParts(d: Deletes, doc: Doc, g: int)
    ensures Hit(d, doc, g) <==>
              TermHit(d, d.terms.Keys, doc, g) || g in d.docIDs || QueryHit(d, d.queries.Keys, doc, g)
  {
    if exists t :: t in doc.terms && t in d.terms && g < d.terms[t] {
      var t :| t in doc.terms && t in d.terms && g < d.terms[t];
      assert t in d.terms.Keys;
    }
    if exists q :: q in doc.matchedBy && q in d.queries && g < d.queries[q] {
      var q :| q in doc.matchedBy && q in d.queries && g < d.queries[q];
      assert q in d.queries.Keys;
    }
  }

  /** Terms, then docIDs, then queries, on the segment whose first document is `start`. */
  method ApplyDeletesTo(docs: seq<Doc>, deleted: array<bool>, d: Deletes, start: int) returns (any: bool)
    requires deleted.Length == |docs|
    modifies deleted
    ensures forall k :: 0 <= k < |docs| ==> (deleted[k] <==> old(deleted[k]) || Hit(d, docs[k], start + k))
    ensures !any ==> deleted[..] == old(deleted[..])
  {
    var a := DeleteByTerms(docs, deleted, d, start);
    var b := DeleteByDocIDs(deleted, d.docIDs, start);
    var c := DeleteByQueries(docs, deleted, d, start);
    any := a || b || c;
    forall k | 0 <= k < |docs| ensures deleted[k] <==> old(deleted[k]) || Hit(d, docs[k], start + k) {
      HitParts(d, docs[k], start + k);
      assert deleted[..][k] == deleted[k] && old(deleted[..])[k] == old(deleted[k]);
    }
  }

  // ---------- deletions that arrived while a merge ran ----------

  /** The current deletion flags of the documents the merge kept. */
  function Pick(prev: seq<bool>, cur: seq<bool>): seq<bool>
    requires |prev| == |cur|
  {
    if prev == [] then []
    else Pick(prev[..|prev| - 1], cur[..|prev| - 1]) + if prev[|prev| - 1] then [] else [cur[|prev| - 1]]
  }

  predicate Paired(prev: seq<seq<bool>>, cur: seq<seq<bool>>) {
    && |prev| == |cur|
    && forall i :: 0 <= i < |prev| ==>
         |prev[i]| == |cur[i]| && forall k :: 0 <= k < |prev[i]| && prev[i][k] ==> cur[i][k]
  }

  function Carried(prev: seq<seq<bool>>, cur: seq<seq<bool>>): seq<bool>
    requires Paired(prev, cur)
  {
    if prev == [] then []
    else
      var n := |prev| - 1;
      Carried(prev[..n], cur[..n]) + Pick(prev[n], cur[n])
  }

  lemma {:induction false} PickSize(prev: seq<bool>, cur: seq<bool>)
    requires |prev| == |cur|
    ensures |Pick(prev, cur)| == CountLive(prev)
  {
    if prev != [] {
      var n := |prev| - 1;
      PickSize(prev[..n], cur[..n]);
      CountLiveStep(prev, n);
      assert prev[..n + 1] == prev;
    }
  }

  lemma {:induction false} CarriedSize(prev: seq<seq<bool>>, cur: seq<seq<bool>>)
    requires Paired(prev, cur)
    ensures |Carried(prev, cur)| == Live(prev)
  {
    if prev != [] {
      var n := |prev| - 1;
      CarriedSize(prev[..n], cur[..n]);
      PickSize(prev[n], cur[n]);
      SizePrefix(prev, n);
      assert prev[..n + 1] == prev;
    }
  }

  /** No new deletion: the same count of deletions, none of them undone, is the same deletions. */
  lemma {:induction false} SameCountNothingNew(prev: seq<bool>, cur: seq<bool>)
    requires |prev| == |cur| && forall k :: 0 <= k < |prev| && prev[k] ==> cur[k]
    ensures CountLive(cur) <= CountLive(prev)
    ensures CountLive(cur) == CountLive(prev) ==> true !in Pick(prev, cur)
  {
    if prev != [] {
      var n := |prev| - 1;
      SameCountNothingNew(prev[..n], cur[..n]);
      CountLiveStep(prev, n);
      CountLiveStep(cur, n);
      assert prev[..n + 1] == prev && cur[..n + 1] == cur;
    }
  }

  lemma PickStep(prev: seq<bool>, cur: seq<bool>, j: nat)
    requires |prev| == |cur| && j < |prev|
    ensures Pick(prev[..j + 1], cur[..j + 1]) == Pick(prev[..j], cur[..j]) + if prev[j] then [] else [cur[j]]
  {
    assert prev[..j + 1][..j] == prev[..j] && cur[..j + 1][..j] == cur[..j];
  }

  ghost predicate WrittenUpTo(flags: seq<bool>, done: seq<bool>) {
    && |done| <= |flags| && flags[..|done|] == done
    && forall k :: |done| <= k < |flags| ==> !flags[k]
  }

  /** A segment that had deletions when the merge started and has more now. */
  method CarryIntoGaps(prev: seq<bool>, cur: seq<bool>, merged: array<bool>, docUpto0: nat) returns (docUpto: nat)
    requires |prev| == |cur| && docUpto0 + CountLive(prev) <= merged.Length
    requires WrittenUpTo(merged[..], merged[..docUpto0])
    modifies merged
    ensures docUpto == docUpto0 + CountLive(prev)
    ensures WrittenUpTo(merged[..], old(merged[..docUpto0]) + Pick(prev, cur))
  {
    docUpto := docUpto0;
    assert prev[..|prev|] == prev && cur[..|prev|] == cur;
    for j := 0 to |prev|
      invariant docUpto == docUpto0 + CountLive(prev[..j])
      invariant WrittenUpTo(merged[..], old(merged[..docUpto0]) + Pick(prev[..j], cur[..j]))
    {
      PickStep(prev, cur, j);
      PickSize(prev[..j], cur[..j]);
      CountLiveStep(prev, j);
      CountLiveMonotone(prev, j + 1, |prev|);
      if !prev[j] {
        if cur[j] { merged[docUpto] := true; }
        docUpto := docUpto + 1;
      }
    }
  }

  /** A segment that had no deletions when the merge started but has some now. */
  method CarryIntoWhole(prev: seq<bool>, cur: seq<bool>, merged: array<bool>, docUpto0: nat) returns (docUpto: nat)
    requires |prev| == |cur| && CountLive(prev) == |prev| && docUpto0 + |prev| <= merged.Length
    requires WrittenUpTo(merged[..], merged[..docUpto0])
    modifies merged
    ensures docUpto == docUpto0 + |prev|
    ensures WrittenUpTo(merged[..], old(merged[..docUpto0]) + Pick(prev, cur))
  {
    docUpto := docUpto0;
    assert prev[..|prev|] == prev && cur[..|prev|] == cur;
    for j := 0 to |prev|
      invariant docUpto == docUpto0 + j
      invariant WrittenUpTo(merged[..], old(merged[..docUpto0]) + Pick(prev[..j], cur[..j]))
    {
      PickStep(prev, cur, j);
      AllLive(prev, j);
      PickSize(prev[..j], cur[..j]);
      if cur[j] { merged[docUpto] := true; }
      docUpto := docUpto + 1;
    }
  }

  lemma NothingPicked(flags: seq<bool>, done: seq<bool>, prev: seq<bool>, cur: seq<bool>)
    requires |prev| == |cur| && true !in Pick(prev, cur)
    requires WrittenUpTo(flags, done) && |done| + CountLive(prev) <= |flags|
    ensures WrittenUpTo(flags, done + Pick(prev, cur))
  {
    PickSize(prev, cur);
    var pick := Pick(prev, cur);
    forall k | 0 <= k < |pick| ensures !pick[k] {
      assert pick[k] in pick;
    }
    var all := done + pick;
    forall k | 0 <= k < |all| ensures flags[..|all|][k] == all[k] {
      if k < |done| { assert flags[..|done|][k] == done[k]; }
    }
  }

  /** One source segment: its documents were `prev` deleted when the merge started, `cur` now. */
  method CarryDeletes(prev: seq<bool>, cur: seq<bool>, merged: array<bool>, docUpto0: nat) returns (docUpto: nat)
    requires |prev| == |cur| && forall k :: 0 <= k < |prev| && prev[k] ==> cur[k]
    requires docUpto0 + CountLive(prev) <= merged.Length
    requires WrittenUpTo(merged[..], merged[..docUpto0])
    modifies merged
    ensures docUpto == docUpto0 + CountLive(prev)
    ensures WrittenUpTo(merged[..], old(merged[..docUpto0]) + Pick(prev, cur))
  {
    SameCountNothingNew(prev, cur);
    if CountLive(prev) < |prev| {
      if CountLive(cur) < CountLive(prev) {
        docUpto := CarryIntoGaps(prev, cur, merged, docUpto0);
      } else {
        docUpto := docUpto0 + CountLive(prev);
        NothingPicked(merged[..], merged[..docUpto0], prev, cur);
      }
    } else {
      AtMostAll(prev);
      if CountLive(cur) < |cur| {
        docUpto := CarryIntoWhole(prev, cur, merged, docUpto0);
      } else {
        AtMostAll(cur);
        docUpto := docUpto0 + |prev|;
        NothingPicked(merged[..], merged[..docUpto0], prev, cur);
      }
    }
  }

  lemma AtMostAll(snap: seq<bool>)
    ensures CountLive(snap) <= |snap|
  {
    assert snap[..|snap|] == snap && snap[..0] == [];
    CountLiveMonotone(snap, 0, |snap|);
  }

  lemma AllLive(snap: seq<bool>, j: nat)
    requires CountLive(snap) == |snap| && j < |snap|
    ensures !snap[j] && CountLive(snap[..j]) == j
  {
    assert snap[..|snap|] == snap && snap[..0] == [];
    CountLiveMonotone(snap, 0, j);
    CountLiveStep(snap, j);
    CountLiveMonotone(snap, j + 1, |snap|);
  }

  method CommitMergedDeletes(prev: seq<seq<bool>>, cur: seq<seq<bool>>, merged: array<bool>)
    requires Paired(prev, cur) && merged.Length == Live(prev)
    requires forall k :: 0 <= k < merged.Length ==> !merged[k]
    modifies merged
    ensures merged[..] == Carried(prev, cur)
  {
    var docUpto := 0;
    for i := 0 to |prev|
      invariant docUpto == Live(prev[..i])
      invariant WrittenUpTo(merged[..], Carried(prev[..i], cur[..i]))
    {
      CarriedSize(prev[..i], cur[..i]);
      SizePrefix(prev, i);
      LiveMonotone(prev, i + 1);
      assert merged[..docUpto] == Carried(prev[..i], cur[..i]);
      docUpto := CarryDeletes(prev[i], cur[i], merged, docUpto);
      assert prev[..i + 1][..i] == prev[..i] && cur[..i + 1][..i] == cur[..i];
    }
    assert prev[..|prev|] == prev && cur[..|prev|] == cur;
    CarriedSize(prev, cur);
  }

  lemma {:induction false} LiveMonotone(snaps: seq<seq<bool>>, i: nat)
    requires i <= |snaps|
    ensures Live(snaps[..i]) <= Live(snaps)
    decreases |snaps| - i
  {
    if i < |snaps| {
      LiveMonotone(snaps, i + 1);
      SizePrefix(snaps, i);
    } else {
      assert snaps[..i] == snaps;
    }
  }
}
