/**
 FuzzyTermEnum: edit distance in two rows, abandoned early, against the distance itself.
 */
module FuzzyTerms {

  type Text = seq<nat>

  function Min(a: int, b: int): int { if b < a then b else a }

  /** The edit distance, by its recurrence. */
  function Distance(a: Text, b: Text): nat
    decreases |a| + |b|
  {
    if a == [] then |b|
    else if b == [] then |a|
    else
      var a', b' := a[..|a| - 1], b[..|b| - 1];
      Min(Min(Distance(a, b') + 1, Distance(a', b) + 1), Distance(a', b') + if a[|a| - 1] == b[|b| - 1] then 0 else 1)
  }

  // ---------- what the distance means ----------

  datatype Edit = Keep | Replace(c: nat) | Delete | Insert(c: nat)

  datatype Option<+T> = None | Some(value: T)

  /** What the edits make of a text: each accounts for one character of it, or of the result. */
  function Apply(edits: seq<Edit>, a: Text): Option<Text>
    decreases |edits|
  {
    if edits == [] then (if a == [] then Some([]) else None)
    else
      var n := |edits| - 1;
      var e := edits[n];
      if e.Insert? then
        var r := Apply(edits[..n], a);
        if r.None? then None else Some(r.value + [e.c])
      else if a == [] then None
      else
        var r := Apply(edits[..n], a[..|a| - 1]);
        if r.None? then None
        else if e.Keep? then Some(r.value + [a[|a| - 1]])
        else if e.Replace? then Some(r.value + [e.c])
        else r
  }

  function Cost(edits: seq<Edit>): nat {
    if edits == [] then 0 else Cost(edits[..|edits| - 1]) + if edits[|edits| - 1].Keep? then 0 else 1
  }

  /** No edits that lead from one text to the other cost less than the distance. */
  lemma {:induction false} DistanceIsLeast(edits: seq<Edit>, a: Text, b: Text)
    requires Apply(edits, a) == Some(b)
    ensures Cost(edits) >= Distance(a, b)
    decreases |edits|
  {
    if edits != [] {
      var n := |edits| - 1;
      var e := edits[n];
      if e.Insert? {
        var r := Apply(edits[..n], a).value;
        assert b[..|b| - 1] == r;
        DistanceIsLeast(edits[..n], a, r);
      } else {
        var a' := a[..|a| - 1];
        var r := Apply(edits[..n], a').value;
        DistanceIsLeast(edits[..n], a', r);
        if !e.Delete? { assert b[..|b| - 1] == r; }
      }
    }
  }

  /** And some cost just that. */
  lemma {:induction false} DistanceIsReached(a: Text, b: Text) returns (edits: seq<Edit>)
    ensures Apply(edits, a) == Some(b) && Cost(edits) == Distance(a, b)
    decreases |a| + |b|
  {
    if a == [] && b == [] {
      edits := [];
    } else if a != [] && (b == [] || Distance(a, b) == Distance(a[..|a| - 1], b) + 1) {
      var rest := DistanceIsReached(a[..|a| - 1], b);
      edits := rest + [Delete];
      assert edits[..|rest|] == rest;
    } else if b != [] && (a == [] || Distance(a, b) == Distance(a, b[..|b| - 1]) + 1) {
      var rest := DistanceIsReached(a, b[..|b| - 1]);
      edits := rest + [Insert(b[|b| - 1])];
      assert edits[..|rest|] == rest && b == b[..|b| - 1] + [b[|b| - 1]];
    } else {
      var rest := DistanceIsReached(a[..|a| - 1], b[..|b| - 1]);
      edits := rest + [if a[|a| - 1] == b[|b| - 1] then Keep else Replace(b[|b| - 1])];
      assert edits[..|rest|] == rest && b == b[..|b| - 1] + [b[|b| - 1]];
    }
  }

  // ---------- bounds ----------

  /** The distance is at least the difference in length. */
  lemma {:induction false} LengthsApart(a: Text, b: Text)
    ensures |a| - |b| <= Distance(a, b) && |b| - |a| <= Distance(a, b)
    decreases |a| + |b|
  {
    if a != [] && b != [] {
      LengthsApart(a, b[..|b| - 1]);
      LengthsApart(a[..|a| - 1], b);
      LengthsApart(a[..|a| - 1], b[..|b| - 1]);
    }
  }

  /** The distances of the prefixes of a text to the first `j` characters of another. */
  ghost predicate RowBeyond(text: Text, target: Text, j: nat, limit: int)
    requires j <= |target|
  {
    forall i :: 0 <= i <= |text| ==> Distance(text[..i], target[..j]) > limit
  }

  /** Once a whole row is beyond the limit, so is every row after it. */
  lemma {:induction false} RowStaysBeyond(text: Text, target: Text, j: nat, limit: int)
    requires j < |target| && RowBeyond(text, target, j, limit)
    ensures RowBeyond(text, target, j + 1, limit)
  {
    RowCells(text, target, j, limit, |text|);
  }

  lemma {:induction false} RowCells(text: Text, target: Text, j: nat, limit: int, n: nat)
    requires j < |target| && n <= |text| && RowBeyond(text, target, j, limit)
    ensures forall i :: 0 <= i <= n ==> Distance(text[..i], target[..j + 1]) > limit
  {
    assert target[..j + 1][..j] == target[..j];
    if n == 0 {
      assert Distance(text[..0], target[..j]) == j;
    } else {
      RowCells(text, target, j, limit, n - 1);
      assert text[..n][..n - 1] == text[..n - 1];
    }
  }

  lemma {:induction false} EndBeyond(text: Text, target: Text, j: nat, limit: int)
    requires j <= |target| && RowBeyond(text, target, j, limit)
    ensures Distance(text, target) > limit
    decreases |target| - j
  {
    if j < |target| {
      RowStaysBeyond(text, target, j, limit);
      EndBeyond(text, target, j + 1, limit);
    } else {
      assert text[..|text|] == text && target[..j] == target;
    }
  }

  lemma CellIs(text: Text, target: Text, i: nat, j: nat)
    requires 1 <= i <= |text| && 1 <= j <= |target|
    ensures Distance(text[..i], target[..j]) ==
              Min(Min(Distance(text[..i], target[..j - 1]) + 1, Distance(text[..i - 1], target[..j]) + 1),
                  Distance(text[..i - 1], target[..j - 1]) + if text[i - 1] == target[j - 1] then 0 else 1)
  {
    assert text[..i][..i - 1] == text[..i - 1] && target[..j][..j - 1] == target[..j - 1];
  }

  function SimilarityOf(distance: int, length: int): real
    requires length > 0
  {
    1.0 - distance as real / length as real
  }

  /** The greatest distance of interest, truncated to a whole number. */
  function Limit(minimum: real, length: int): int { ((1.0 - minimum) * length as real).Floor }

  /** A distance beyond the truncated limit is too far to be accepted. */
  lemma TooFar(distance: nat, length: nat, minimum: real)
    requires length > 0 && 0.0 <= minimum < 1.0 && distance > Limit(minimum, length)
    ensures SimilarityOf(distance, length) < minimum
  {
    var x, d, l := (1.0 - minimum) * length as real, distance as real, length as real;
    assert d >= (x.Floor + 1) as real > x;
    Above(d, l, 1.0 - minimum);
  }

  lemma Above(d: real, l: real, r: real)
    requires l > 0.0 && d > r * l
    ensures d / l > r
  {
    var q := d / l;
    assert q * l == d;
    Scaled(q, r, l);
  }

  lemma Scaled(q: real, r: real, l: real)
    requires l > 0.0
    ensures q <= r ==> q * l <= r * l
  {
    if q <= r {
      assert (r - q) * l >= 0.0;
      assert (r - q) * l == r * l - q * l;
    }
  }

  // ---------- the enumeration ----------

  class FuzzyTermEnum {
    const field: Text
    const minimumSimilarity: real
    const text: Text
    const prefix: Text
    var p: array<int>
    var d: array<int>
    var lastSimilarity: real
    var endEnum: bool

    ghost predicate Valid()
      reads this
    {
      0.0 <= minimumSimilarity < 1.0 && p != d && p.Length == d.Length == |text| + 1
    }

    /** The text is split at the prefix that has to match, which may be all of it. */
    constructor (field: Text, term: Text, minimumSimilarity: real, prefixLength: nat)
      requires 0.0 <= minimumSimilarity < 1.0
      ensures Valid() && fresh(p) && fresh(d) && this.minimumSimilarity == minimumSimilarity && this.field == field
      ensures prefix + text == term && |prefix| == Min(prefixLength, |term|)
    {
      var realPrefixLength := if prefixLength > |term| then |term| else prefixLength;
      this.field, this.minimumSimilarity := field, minimumSimilarity;
      text, prefix := term[realPrefixLength..], term[..realPrefixLength];
      p, d := new int[|term| - realPrefixLength + 1], new int[|term| - realPrefixLength + 1];
      lastSimilarity, endEnum := 0.0, false;
    }

    /** The length of the shorter term, prefix included. */
    function Length(target: Text): nat { |prefix| + Min(|text|, |target|) }

    /** 1 - distance / length, unless there is no length to divide by. */
    function FullSimilarity(target: Text): real {
      if Length(target) == 0 then 0.0 else SimilarityOf(Distance(text, target), Length(target))
    }

    function MaxDistance(m: nat): int { Limit(minimumSimilarity, Min(|text|, m) + |prefix|) }

    /** A target is accepted exactly when its full similarity is above the minimum, and that is then
        the similarity returned: leaving early never loses a match. */
    method Similarity(target: Text) returns (similarity: real)
      requires Valid()
      modifies this`p, this`d, p, d
      ensures Valid() && {p, d} == old({p, d})
      ensures similarity > minimumSimilarity <==> FullSimilarity(target) > minimumSimilarity
      ensures similarity > minimumSimilarity ==> similarity == FullSimilarity(target)
    {
      hide Distance, SimilarityOf, Limit;
      EmptySide(target);
      var m, n := |target|, |text|;
      if n == 0 {
        return if prefix == [] then 0.0 else SimilarityOf(m, |prefix|);
      }
      if m == 0 {
        return if prefix == [] then 0.0 else SimilarityOf(n, |prefix|);
      }
      var maxDistance := MaxDistance(m);
      if maxDistance < (if m - n < 0 then n - m else m - n) {
        LengthsApart(text, target);
        TooFar(Distance(text, target), Length(target), minimumSimilarity);
        return 0.0;
      }
      var early := Rows(target, maxDistance);
      if early {
        TooFar(Distance(text, target), Length(target), minimumSimilarity);
        return 0.0;
      }
      return SimilarityOf(p[n], |prefix| + Min(n, m));
    }

    lemma EmptySide(target: Text)
      ensures text == [] ==> Distance(text, target) == |target|
      ensures target == [] ==> Distance(text, target) == |text|
    {
    }

    /** The rows one after the other, unless one of them is wholly beyond the limit. */
    method Rows(target: Text, maxDistance: int) returns (early: bool)
      requires Valid()
      modifies this`p, this`d, p, d
      ensures Valid() && {p, d} == old({p, d})
      ensures if early then Distance(text, target) > maxDistance else p[|text|] == Distance(text, target)
    {
      hide Distance;
      FirstRow();
      assert IsRow(p[..], target, 0);
      for j := 1 to |target| + 1
        invariant Valid() && {p, d} == old({p, d})
        invariant IsRow(p[..], target, j - 1)
      {
        var bestPossibleEditDistance := NextRow(target, j, maxDistance);
        if j > maxDistance && bestPossibleEditDistance > maxDistance {
          EndBeyond(text, target, j, maxDistance);
          return true;
        }
        p, d := d, p;
      }
      assert text[..|text|] == text && target[..|target|] == target;
      return false;
    }

    ghost predicate IsRow(row: seq<int>, target: Text, j: nat)
      requires j <= |target|
    {
      |row| == |text| + 1 && forall i :: 0 <= i <= |text| ==> row[i] == Distance(text[..i], target[..j])
    }

    method FirstRow()
      requires Valid()
      modifies p
      ensures forall target: Text :: IsRow(p[..], target, 0)
    {
      for i := 0 to |text| + 1
        invariant forall k :: 0 <= k < i ==> p[k] == k
      {
        p[i] := i;
      }
    }

    lemma FirstCell(target: Text, j: nat)
      requires j <= |target|
      ensures Distance(text[..0], target[..j]) == j
    {
    }

    /** One row from the one before, and its best possible distance. */
    method NextRow(target: Text, j: nat, ghost limit: int) returns (best: int)
      requires Valid() && 1 <= j <= |target| && IsRow(p[..], target, j - 1)
      modifies d
      ensures IsRow(d[..], target, j)
      ensures best > limit && j > limit ==> RowBeyond(text, target, j, limit)
    {
      hide Distance;
      FirstCell(target, j);
      best := |target|;
      var c := target[j - 1];
      d[0] := j;
      for i := 1 to |text| + 1
        invariant p[..] == old(p[..])
        invariant forall k :: 0 <= k < i ==> d[k] == Distance(text[..k], target[..j])
        invariant best > limit ==> forall k :: 1 <= k < i ==> d[k] > limit
      {
        CellIs(text, target, i, j);
        if c != text[i - 1] {
          d[i] := Min(Min(d[i - 1], p[i]), p[i - 1]) + 1;
        } else {
          d[i] := Min(Min(d[i - 1] + 1, p[i] + 1), p[i - 1]);
        }
        best := Min(best, d[i]);
      }
    }

    /** Terms of the field that have the prefix are compared beyond it; the first other one ends the enumeration. */
    method TermCompare(termField: Text, term: Text) returns (accepted: bool)
      requires Valid()
      modifies this`p, this`d, this`lastSimilarity, this`endEnum, p, d
      ensures Valid() && {p, d} == old({p, d})
      ensures accepted <==> termField == field && prefix <= term && FullSimilarity(term[|prefix|..]) > minimumSimilarity
      ensures accepted ==> lastSimilarity == FullSimilarity(term[|prefix|..])
      ensures endEnum == (old(endEnum) || termField != field || !(prefix <= term))
    {
      if field == termField && prefix <= term {
        lastSimilarity := Similarity(term[|prefix|..]);
        return lastSimilarity > minimumSimilarity;
      }
      endEnum := true;
      return false;
    }
  }
}
