/**
 Renumbering documents when a merge drops the deleted ones: the docID maps built by the
 merger, MergeDocIDRemapper's tables and binary search, and what the renumbering means.
 */
module MergeDocIDs {
  import opened OperationLog
  import opened IndexState

  function Flat(snaps: seq<seq<bool>>): seq<bool> {
    if snaps == [] then [] else snaps[0] + Flat(snaps[1..])
  }

  lemma {:induction false} CountLiveAppend(a: seq<bool>, b: seq<bool>)
    ensures CountLive(a + b) == CountLive(a) + CountLive(b)
  {
    if a == [] {
      assert a + b == b;
    } else {
      CountLiveAppend(a[1..], b);
      assert (a + b)[1..] == a[1..] + b;
    }
  }

  lemma CountLiveStep(snap: seq<bool>, k: nat)
    requires k < |snap|
    ensures CountLive(snap[..k + 1]) == CountLive(snap[..k]) + if snap[k] then 0 else 1
  {
    assert snap[..k + 1] == snap[..k] + [snap[k]];
    CountLiveAppend(snap[..k], [snap[k]]);
  }

  lemma {:induction false} CountLiveMonotone(snap: seq<bool>, i: nat, j: nat)
    requires i <= j <= |snap|
    ensures CountLive(snap[..i]) <= CountLive(snap[..j]) <= CountLive(snap[..i]) + (j - i)
    decreases j
  {
    if i < j {
      CountLiveMonotone(snap, i, j - 1);
      CountLiveStep(snap, j - 1);
    }
  }

  lemma {:induction false} FlatSize(snaps: seq<seq<bool>>)
    ensures |Flat(snaps)| == Size(snaps) && CountLive(Flat(snaps)) == Live(snaps)
  {
    if snaps != [] {
      FlatSize(snaps[1..]);
      CountLiveAppend(snaps[0], Flat(snaps[1..]));
    }
  }

  // ---------- what renumbering means ----------

  /** How many of the merged documents below docID `x` had been deleted. */
  function DeletedBelow(snaps: seq<seq<bool>>, min: int, x: int): int {
    FlatSize(snaps);
    if x < min then 0
    else if x >= min + Size(snaps) then Size(snaps) - Live(snaps)
    else (x - min) - CountLive(Flat(snaps)[..x - min])
  }

  predicate Survivor(snaps: seq<seq<bool>>, min: int, x: int) {
    FlatSize(snaps);
    min <= x < min + Size(snaps) ==> !Flat(snaps)[x - min]
  }

  lemma {:induction false} RemapInSurvivor(snaps: seq<seq<bool>>, base: int, off: nat)
    requires off < Size(snaps) && |Flat(snaps)| == Size(snaps)
    ensures !Flat(snaps)[off] ==> RemapIn(snaps, base, off) == base + CountLive(Flat(snaps)[..off])
    ensures Flat(snaps)[off] ==> base - 1 <= RemapIn(snaps, base, off) <= base + CountLive(Flat(snaps)[..off]) - 1
  {
    var n := |snaps[0]|;
    if off < n {
      assert Flat(snaps)[..off] == snaps[0][..off];
    } else {
      FlatSize(snaps[1..]);
      RemapInSurvivor(snaps[1..], base + CountLive(snaps[0]), off - n);
      assert Flat(snaps)[..off] == snaps[0] + Flat(snaps[1..])[..off - n];
      CountLiveAppend(snaps[0], Flat(snaps[1..])[..off - n]);
    }
  }

  /** A surviving document moves down by exactly the deleted documents before it. */
  lemma RemapSubtractsDeleted(snaps: seq<seq<bool>>, min: int, x: int)
    requires Survivor(snaps, min, x)
    ensures Remap(snaps, min, x) == x - DeletedBelow(snaps, min, x)
  {
    FlatSize(snaps);
    if min <= x < min + Size(snaps) { RemapInSurvivor(snaps, min, x - min); }
  }

  /** Survivors keep their order and never collide. */
  lemma RemapIncreasing(snaps: seq<seq<bool>>, min: int, x: int, y: int)
    requires Survivor(snaps, min, x) && Survivor(snaps, min, y) && x < y
    ensures Remap(snaps, min, x) < Remap(snaps, min, y)
  {
    FlatSize(snaps);
    RemapSubtractsDeleted(snaps, min, x);
    RemapSubtractsDeleted(snaps, min, y);
    var flat := Flat(snaps);
    assert flat[..|flat|] == flat;
    if min <= x < min + Size(snaps) {
      CountLiveStep(flat, x - min);
      CountLiveMonotone(flat, x - min + 1, if y < min + Size(snaps) then y - min else |flat|);
    } else if x < min <= y {
      CountLiveMonotone(flat, 0, if y < min + Size(snaps) then y - min else |flat|);
    }
  }

  // ---------- a delete bound is not a document ----------

  /** Renumbering `x` keeps it a bound: the surviving documents below it are the same ones. */
  ghost predicate BoundExact(snaps: seq<seq<bool>>, min: int, x: int) {
    forall g: nat :: Survivor(snaps, min, g) ==> (g < x <==> Remap(snaps, min, g) < Remap(snaps, min, x))
  }

  ghost predicate NoSurvivorBelow(snaps: seq<seq<bool>>, min: int, x: int) {
    forall g: nat :: g < x ==> !Survivor(snaps, min, g)
  }

  lemma {:induction false} LastLive(snap: seq<bool>, k: nat) returns (j: nat)
    requires k <= |snap| && CountLive(snap[..k]) > 0
    ensures j < k && !snap[j] && CountLive(snap[..j]) == CountLive(snap[..k]) - 1
  {
    CountLiveStep(snap, k - 1);
    if snap[k - 1] { j := LastLive(snap, k - 1); } else { j := k - 1; }
  }

  /** The survivor just below a deleted document lands on or above the number given to it. */
  lemma DeletedBoundLosesOne(snaps: seq<seq<bool>>, min: nat, x: nat) returns (g: nat)
    requires !Survivor(snaps, min, x) && !NoSurvivorBelow(snaps, min, x)
    ensures Survivor(snaps, min, g) && g < x && Remap(snaps, min, x) <= Remap(snaps, min, g)
  {
    FlatSize(snaps);
    var flat, k := Flat(snaps), x - min;
    RemapInSurvivor(snaps, min, k);
    if CountLive(flat[..k]) > 0 {
      var j := LastLive(flat, k);
      g := min + j;
      RemapSubtractsDeleted(snaps, min, g);
    } else if min > 0 {
      g := min - 1;
    } else {
      var w: nat :| w < x && Survivor(snaps, min, w);
      CountLiveStep(flat, w);
      CountLiveMonotone(flat, w + 1, k);
      assert false;
    }
  }

  /** Remapping is right for a delete bound exactly when the bound does not fall on a document
      deleted before the merge, or when no surviving document lies below it. */
  lemma BoundExactIff(snaps: seq<seq<bool>>, min: nat, x: nat)
    ensures BoundExact(snaps, min, x) <==> Survivor(snaps, min, x) || NoSurvivorBelow(snaps, min, x)
  {
    if Survivor(snaps, min, x) {
      forall g: nat | Survivor(snaps, min, g) ensures g < x <==> Remap(snaps, min, g) < Remap(snaps, min, x) {
        if g < x { RemapIncreasing(snaps, min, g, x); }
        if x < g { RemapIncreasing(snaps, min, x, g); }
      }
    } else if NoSurvivorBelow(snaps, min, x) {
      DeletedBoundIsLow(snaps, min, x);
      forall g: nat | Survivor(snaps, min, g) ensures g < x <==> Remap(snaps, min, g) < Remap(snaps, min, x) {
        RemapSubtractsDeleted(snaps, min, g);
        DeletedBelowBounded(snaps, min, g);
      }
    } else {
      var g := DeletedBoundLosesOne(snaps, min, x);
    }
  }

  lemma DeletedBoundIsLow(snaps: seq<seq<bool>>, min: nat, x: nat)
    requires !Survivor(snaps, min, x) && NoSurvivorBelow(snaps, min, x)
    ensures min == 0 && Remap(snaps, min, x) < 0
  {
    FlatSize(snaps);
    assert min > 0 ==> Survivor(snaps, min, 0);
    var flat := Flat(snaps);
    RemapInSurvivor(snaps, 0, x);
    forall j | 0 <= j < x ensures flat[j] { assert !Survivor(snaps, min, j); }
    if CountLive(flat[..x]) > 0 {
      var j := LastLive(flat, x);
      assert false;
    }
  }

  lemma DeletedBelowBounded(snaps: seq<seq<bool>>, min: nat, g: nat)
    ensures DeletedBelow(snaps, min, g) <= g
  {
    FlatSize(snaps);
    var flat := Flat(snaps);
    if g >= min + Size(snaps) { assert flat[..|flat|] == flat; CountLiveMonotone(flat, 0, |flat|); }
  }

  /** A bound on the second of two documents, the second deleted, loses the first. */
  lemma DeletedBoundExample()
    ensures var snaps := [[false, true]];
      Remap(snaps, 0, 1) == -1 && Remap(snaps, 0, 0) == 0 && !BoundExact(snaps, 0, 1)
  {
    var snaps := [[false, true]];
    assert snaps[0][..1] == [false];
    assert Flat(snaps) == [false, true];
    assert Size(snaps) == 2 && Live(snaps) == 1 by {
      assert snaps[1..] == [] && [false, true][1..] == [true] && [true][1..] == [];
    }
    assert CountLive([]) == 0;
    assert snaps[0][..0] == [];
    assert Survivor(snaps, 0, 0);
  }

  // ---------- the merger's maps and the remapper's tables ----------

  /** One entry per document: its number among the live ones, or -1 when deleted. */
  function DocMap(snap: seq<bool>): seq<int> {
    seq(|snap|, k requires 0 <= k < |snap| => if snap[k] then -1 else CountLive(snap[..k]))
  }

  method GetDocMap(snap: seq<bool>) returns (docMap: seq<int>, delCount: nat)
    ensures docMap == DocMap(snap) && delCount == |snap| - CountLive(snap)
  {
    docMap, delCount := [], 0;
    var j := 0;
    for i := 0 to |snap|
      invariant docMap == DocMap(snap)[..i]
      invariant j == CountLive(snap[..i]) && delCount == i - j
    {
      CountLiveStep(snap, i);
      if snap[i] {
        delCount := delCount + 1;
        docMap := docMap + [-1];
      } else {
        docMap := docMap + [j];
        j := j + 1;
      }
    }
    assert snap[..|snap|] == snap;
  }

  /** What the merger hands over: a map for every segment that had deletions. */
  ghost predicate MapsFor(snaps: seq<seq<bool>>, docMaps: seq<Option<seq<int>>>, delCounts: seq<int>) {
    && |docMaps| == |delCounts| == |snaps|
    && (forall j :: 0 <= j < |snaps| ==> delCounts[j] == |snaps[j]| - CountLive(snaps[j]))
    && (forall j :: 0 <= j < |snaps| ==>
          match docMaps[j]
          case Some(m) => m == DocMap(snaps[j])
          case None => true !in snaps[j])
  }

  lemma {:induction false} SizePrefix(snaps: seq<seq<bool>>, i: nat)
    requires i < |snaps|
    ensures Size(snaps[..i + 1]) == Size(snaps[..i]) + |snaps[i]|
    ensures Live(snaps[..i + 1]) == Live(snaps[..i]) + CountLive(snaps[i])
  {
    if i == 0 {
      assert snaps[..1][1..] == [] && snaps[..0] == [];
    } else {
      SizePrefix(snaps[1..], i - 1);
      assert snaps[..i + 1][1..] == snaps[1..][..i] && snaps[..i][1..] == snaps[1..][..i - 1];
    }
  }

  lemma {:induction false} SizeMonotone(snaps: seq<seq<bool>>, i: nat, j: nat)
    requires i <= j <= |snaps|
    ensures Size(snaps[..i]) <= Size(snaps[..j])
    decreases j
  {
    if i < j {
      SizeMonotone(snaps, i, j - 1);
      SizePrefix(snaps, j - 1);
    }
  }

  lemma {:induction false} RemapInAt(snaps: seq<seq<bool>>, base: int, j: nat, k: nat)
    requires j < |snaps| && k < |snaps[j]|
    ensures Size(snaps[..j]) + k < Size(snaps)
    ensures RemapIn(snaps, base, Size(snaps[..j]) + k) ==
              base + Live(snaps[..j]) + if snaps[j][k] then -1 else CountLive(snaps[j][..k])
  {
    if j == 0 {
      assert snaps[..0] == [];
    } else {
      RemapInAt(snaps[1..], base + CountLive(snaps[0]), j - 1, k);
      assert snaps[..j][1..] == snaps[1..][..j - 1];
    }
  }

  lemma {:induction false} NoneDead(snap: seq<bool>, k: nat)
    requires true !in snap && k <= |snap|
    ensures CountLive(snap[..k]) == k
  {
    if k > 0 {
      NoneDead(snap, k - 1);
      CountLiveStep(snap, k - 1);
      assert snap[k - 1] in snap;
    }
  }

  class MergeDocIDRemapper {
    var starts: array<int>
    var newStarts: array<int>
    var docMaps: seq<Option<seq<int>>>
    var minDocID: int
    var maxDocID: int
    var docShift: int

    /** The tables describe the merge of segments with deletions `snaps` starting at `minDocID`. */
    ghost predicate Valid(snaps: seq<seq<bool>>)
      reads this, starts, newStarts
    {
      && |docMaps| == |snaps| > 0 && starts.Length == newStarts.Length == |snaps|
      && maxDocID == minDocID + Size(snaps)
      && docShift == Size(snaps) - Live(snaps)
      && (forall j :: 0 <= j < |snaps| ==> starts[j] == minDocID + Size(snaps[..j]))
      && (forall j :: 0 <= j < |snaps| ==> newStarts[j] == minDocID + Live(snaps[..j]))
      && (forall j :: 0 <= j < |snaps| ==>
            match docMaps[j]
            case Some(m) => m == DocMap(snaps[j])
            case None => true !in snaps[j])
    }

    /** Where each merged segment starts before the merge, and where its first live document goes. */
    static method StartsOf(infos: seq<nat>, first: nat, min: int, delCounts: seq<int>,
                           ghost docMaps: seq<Option<seq<int>>>, ghost snaps: seq<seq<bool>>)
      returns (st: array<int>, ns: array<int>)
      requires |snaps| > 0 && first + |snaps| <= |infos| && MapsFor(snaps, docMaps, delCounts)
      requires forall j :: 0 <= j < |snaps| ==> infos[first + j] == |snaps[j]|
      ensures fresh(st) && fresh(ns) && st.Length == ns.Length == |snaps|
      ensures forall j :: 0 <= j < |snaps| ==> st[j] == min + Size(snaps[..j]) && ns[j] == min + Live(snaps[..j])
    {
      st, ns := new int[|delCounts|], new int[|delCounts|];
      st[0], ns[0] := min, min;
      var i := 1;
      while i < |delCounts|
        invariant 1 <= i <= |delCounts|
        invariant forall j :: 0 <= j < i ==> st[j] == min + Size(snaps[..j]) && ns[j] == min + Live(snaps[..j])
      {
        SizePrefix(snaps, i - 1);
        var lastDocCount := infos[first + i - 1];
        st[i] := st[i - 1] + lastDocCount;
        ns[i] := ns[i - 1] + lastDocCount - delCounts[i - 1];
        i := i + 1;
      }
    }

    /** `infos` are the document counts of all segments, the merged ones standing at `first`. */
    constructor (infos: seq<nat>, first: nat, docMaps: seq<Option<seq<int>>>, delCounts: seq<int>,
                 mergedDocCount: int, ghost snaps: seq<seq<bool>>)
      requires |snaps| > 0 && first + |snaps| <= |infos|
      requires forall j :: 0 <= j < |snaps| ==> infos[first + j] == |snaps[j]|
      requires MapsFor(snaps, docMaps, delCounts) && mergedDocCount == Live(snaps)
      ensures Valid(snaps) && fresh(starts) && fresh(newStarts)
      ensures minDocID == SumOf(infos[..first])
    {
      var min, i := 0, 0;
      while i != first
        invariant 0 <= i <= first && min == SumOf(infos[..i])
        decreases first - i
      {
        SumOfStep(infos, i);
        min := min + infos[i];
        i := i + 1;
      }
      var numDocs := 0;
      for j := 0 to |docMaps|
        invariant i == first + j && numDocs == Size(snaps[..j])
      {
        SizePrefix(snaps, j);
        numDocs := numDocs + infos[i];
        i := i + 1;
      }
      assert snaps[..|snaps|] == snaps;
      var st, ns := StartsOf(infos, first, min, delCounts, docMaps, snaps);
      this.docMaps := docMaps;
      minDocID, maxDocID, docShift := min, min + numDocs, numDocs - mergedDocCount;
      starts, newStarts := st, ns;
    }

    /** std::upper_bound: the first position whose start lies beyond `docID`. */
    method UpperBound(docID: int, ghost snaps: seq<seq<bool>>) returns (p: nat)
      requires Valid(snaps)
      ensures p <= starts.Length
      ensures forall j :: 0 <= j < p ==> starts[j] <= docID
      ensures forall j :: p <= j < starts.Length ==> docID < starts[j]
    {
      var lo, hi := 0, starts.Length;
      while lo < hi
        invariant 0 <= lo <= hi <= starts.Length
        invariant forall j :: 0 <= j < lo ==> starts[j] <= docID
        invariant forall j :: hi <= j < starts.Length ==> docID < starts[j]
      {
        var mid := (lo + hi) / 2;
        forall j | 0 <= j < starts.Length ensures j <= mid ==> starts[j] <= starts[mid] {
          if j <= mid { SizeMonotone(snaps, j, mid); }
        }
        forall j | 0 <= j < starts.Length ensures j >= mid ==> starts[j] >= starts[mid] {
          if j >= mid { SizeMonotone(snaps, mid, j); }
        }
        if docID < starts[mid] { hi := mid; } else { lo := mid + 1; }
      }
      p := lo;
    }

    method Renumber(oldDocID: int, ghost snaps: seq<seq<bool>>) returns (newDocID: int)
      requires Valid(snaps)
      ensures newDocID == Remap(snaps, minDocID, oldDocID)
    {
      if oldDocID < minDocID {
        return oldDocID;
      } else if oldDocID >= maxDocID {
        return oldDocID - docShift;
      }
      var p := UpperBound(oldDocID, snaps);
      assert snaps[..0] == [] && starts[0] == minDocID;
      var docMap := p - 1;
      ghost var k := oldDocID - starts[docMap];
      SizePrefix(snaps, docMap);
      assert k < |snaps[docMap]| by {
        if docMap + 1 == |snaps| { assert snaps[..|snaps|] == snaps; }
      }
      RemapInAt(snaps, minDocID, docMap, k);
      if docMaps[docMap].Some? {
        newDocID := newStarts[docMap] + docMaps[docMap].value[oldDocID - starts[docMap]];
      } else {
        NoneDead(snaps[docMap], k);
        assert snaps[docMap][k] in snaps[docMap];
        newDocID := newStarts[docMap] + oldDocID - starts[docMap];
      }
    }
  }

  function SumOf(counts: seq<nat>): nat {
    if counts == [] then 0 else SumOf(counts[..|counts| - 1]) + counts[|counts| - 1]
  }

  lemma SumOfStep(counts: seq<nat>, i: nat)
    requires i < |counts|
    ensures SumOf(counts[..i + 1]) == SumOf(counts[..i]) + counts[i]
  {
    assert counts[..i + 1][..i] == counts[..i];
  }
}
