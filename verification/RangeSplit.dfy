/**
 NumericUtils::splitRange: a range of numbers cut into ranges of prefix codes, coarser in the
 middle.  The loop works on 64-bit registers, whose wrap-around its stop test relies on.
 */
module RangeSplit {
  import opened PrefixCode

  /** One addRange call: all codes at `shift` from that of `min` to that of `max`. */
  datatype Range = Range(min: int, max: int, shift: nat)

  // ---------- the 64-bit register operations ----------

  function Wrap64(x: int): int {
    var u := x % TWO64;
    if u >= TWO64 / 2 then u - TWO64 else u
  }

  /** The `step` bits of `x` above its low `shift` bits, as selected by the mask. */
  function Digit(x: int, shift: nat, step: nat): int {
    Shr(x, shift) - Shl(Shr(x, shift + step), step)
  }

  /** x & ~mask */
  function ClearDigit(x: int, shift: nat, step: nat): int { x - Shl(Digit(x, shift, step), shift) }

  /** x | mask */
  function FillDigit(x: int, shift: nat, step: nat): int {
    x + Shl(Pow2(step) - 1 - Digit(x, shift, step), shift)
  }

  /** x | (2^shift - 1) */
  function FillLow(x: int, shift: nat): int { Shl(Shr(x, shift), shift) + Pow2(shift) - 1 }

  function AddRange(min: int, max: int, shift: nat): Range { Range(min, FillLow(max, shift), shift) }

  function HasLower(min: int, shift: nat, step: nat): bool { Digit(min, shift, step) != 0 }

  function HasUpper(max: int, shift: nat, step: nat): bool { Digit(max, shift, step) != Pow2(step) - 1 }

  function NextMin(min: int, shift: nat, step: nat): int {
    ClearDigit(if HasLower(min, shift, step) then Wrap64(min + Pow2(shift + step)) else min, shift, step)
  }

  function NextMax(max: int, shift: nat, step: nat): int {
    ClearDigit(if HasUpper(max, shift, step) then Wrap64(max - Pow2(shift + step)) else max, shift, step)
  }

  /** The lowest precision, or no room left for the next one. */
  predicate LastLevel(w: Width, step: nat, shift: nat, min: int, max: int) {
    || shift + step >= Bits(w)
    || NextMin(min, shift, step) > NextMax(max, shift, step)
    || NextMin(min, shift, step) < min
    || NextMax(max, shift, step) > max
  }

  function Edges(step: nat, shift: nat, min: int, max: int): seq<Range> {
    (if HasLower(min, shift, step) then [AddRange(min, FillDigit(min, shift, step), shift)] else [])
    + (if HasUpper(max, shift, step) then [AddRange(ClearDigit(max, shift, step), max, shift)] else [])
  }

  function SplitFrom(w: Width, step: nat, shift: nat, min: int, max: int): seq<Range>
    requires step >= 1
    decreases Bits(w) - shift
  {
    if LastLevel(w, step, shift, min, max) then [AddRange(min, max, shift)]
    else Edges(step, shift, min, max)
         + SplitFrom(w, step, shift + step, NextMin(min, shift, step), NextMax(max, shift, step))
  }

  function Split(w: Width, step: nat, min: int, max: int): seq<Range>
    requires step >= 1
  {
    if min > max then [] else SplitFrom(w, step, 0, min, max)
  }

  method SplitRange(w: Width, precisionStep: int, minBound: int, maxBound: int) returns (r: Result<seq<Range>>)
    ensures precisionStep < 1 ==> r == Err(IllegalArgument)
    ensures precisionStep >= 1 ==> r == Ok(Split(w, precisionStep, minBound, maxBound))
  {
    if precisionStep < 1 { return Err(IllegalArgument); }
    if minBound > maxBound { return Ok([]); }
    var ranges: seq<Range> := [];
    var shift: nat, min, max := 0, minBound, maxBound;
    while true
      invariant Split(w, precisionStep, minBound, maxBound) == ranges + SplitFrom(w, precisionStep, shift, min, max)
      decreases Bits(w) - shift
    {
      var last, nextMin, nextMax := NextBounds(w, precisionStep, shift, min, max);
      if last {
        return Ok(ranges + [AddRange(min, max, shift)]);
      }
      var edges := EdgeRanges(precisionStep, shift, min, max);
      SplitStep(w, precisionStep, shift, min, max, ranges);
      ranges := ranges + edges;
      shift, min, max := shift + precisionStep, nextMin, nextMax;
    }
  }

  /** The bounds for the next precision, and whether it is out of reach. */
  method NextBounds(w: Width, step: nat, shift: nat, min: int, max: int) returns (last: bool, nextMin: int,
                    nextMax: int)
    ensures nextMin == NextMin(min, shift, step) && nextMax == NextMax(max, shift, step)
    ensures last == LastLevel(w, step, shift, min, max)
  {
    nextMin, nextMax := NextMin(min, shift, step), NextMax(max, shift, step);
    last := shift + step >= Bits(w) || nextMin > nextMax || nextMin < min || nextMax > max;
  }

  method EdgeRanges(step: nat, shift: nat, min: int, max: int) returns (edges: seq<Range>)
    ensures edges == Edges(step, shift, min, max)
  {
    edges := [];
    if HasLower(min, shift, step) {
      edges := edges + [AddRange(min, FillDigit(min, shift, step), shift)];
    }
    if HasUpper(max, shift, step) {
      edges := edges + [AddRange(ClearDigit(max, shift, step), max, shift)];
    }
  }

  lemma SplitStep(w: Width, step: nat, shift: nat, min: int, max: int, ranges: seq<Range>)
    requires step >= 1 && !LastLevel(w, step, shift, min, max)
    ensures ranges + SplitFrom(w, step, shift, min, max) ==
              ranges + Edges(step, shift, min, max)
              + SplitFrom(w, step, shift + step, NextMin(min, shift, step), NextMax(max, shift, step))
    ensures shift < Bits(w)
  {
  }

  // ---------- blocks ----------

  /** The low `shift` bits of `x` are zero. */
  predicate Aligned(x: int, shift: nat) { Shl(Shr(x, shift), shift) == x }

  lemma {:induction false} ShrOrder(x: int, k: int, s: nat)
    ensures x < Shl(k, s) <==> Shr(x, s) < k
    decreases s
  {
    if s > 0 { ShrOrder(x / 2, k, s - 1); }
  }

  lemma DigitRange(x: int, shift: nat, step: nat)
    ensures 0 <= Digit(x, shift, step) < Pow2(step)
    ensures Shr(x, shift + step) == Shr(Shr(x, shift), step)
  {
    ShrShr(x, shift, step);
    var a := Shr(x, shift);
    ShrBlock(a, Shr(a, step), step);
    ShlLinear(Shr(a, step), 1, step);
  }

  /** Clearing the digit of an aligned number leaves the block above. */
  lemma ClearAligned(x: int, shift: nat, step: nat)
    requires Aligned(x, shift)
    ensures ClearDigit(x, shift, step) == Shl(Shr(x, shift + step), shift + step)
    ensures Aligned(ClearDigit(x, shift, step), shift + step)
    ensures Shr(ClearDigit(x, shift, step), shift + step) == Shr(x, shift + step)
    ensures Shr(ClearDigit(x, shift, step), shift) == Shl(Shr(x, shift + step), step)
  {
    var a, top := Shr(x, shift), Shr(x, shift + step);
    ShlLinear(a, -Shl(top, step), shift);
    ShlLinear(Shl(top, step), 0, shift);
    ShlShl(top, step, shift);
    ShrOfShl(top, shift + step);
    ShrOfShl(Shl(top, step), shift);
  }

  lemma ClearBelow(x: int, shift: nat, step: nat)
    ensures ClearDigit(x, shift, step) <= x
  {
    DigitRange(x, shift, step);
    ShlMonotone(0, Digit(x, shift, step), shift);
    ShlLinear(0, 0, shift);
  }

  lemma AddBlock(x: int, k: int, shift: nat, step: nat)
    requires Aligned(x, shift)
    ensures Aligned(x + Shl(k, shift + step), shift)
    ensures Shr(x + Shl(k, shift + step), shift + step) == Shr(x, shift + step) + k
  {
    ShrOffset(x, k, shift + step);
    ShlShl(k, step, shift);
    ShrOffset(x, Shl(k, step), shift);
    ShlLinear(Shr(x, shift), Shl(k, step), shift);
  }

  lemma InRangeIs64(w: Width, x: int)
    requires InRange(w, x)
    ensures -TWO64 / 2 <= x < TWO64 / 2
  {
    WidthIs(w);
  }

  lemma Pow2Below64(w: Width, n: nat)
    requires n < Bits(w)
    ensures 0 < Pow2(n) <= TWO64 / 2
  {
    WidthIs(w);
    ShlFits(1, 1, n);
    ShlShl(1, n, Bits(w) - 1 - n);
    ShlFits(0, Pow2(n), Bits(w) - 1 - n);
  }

  lemma Wrap64Is(x: int)
    requires -TWO64 <= x < TWO64
    ensures Wrap64(x) == if x < -TWO64 / 2 then x + TWO64 else if x < TWO64 / 2 then x else x - TWO64
  {
  }

  /** Unless it wrapped, which shows as a step backwards, the next lower bound opens the first
      coarser block that starts at or above the bound. */
  lemma NextMinBlock(w: Width, min: int, shift: nat, step: nat)
    requires InRange(w, min) && Aligned(min, shift) && shift + step < Bits(w)
    requires NextMin(min, shift, step) >= min
    ensures Aligned(NextMin(min, shift, step), shift + step)
    ensures Shr(NextMin(min, shift, step), shift + step) ==
              Shr(min, shift + step) + if HasLower(min, shift, step) then 1 else 0
  {
    InRangeIs64(w, min);
    Pow2Below64(w, shift + step);
    if HasLower(min, shift, step) {
      NextMinAdds(min, shift, step);
    } else {
      ClearAligned(min, shift, step);
    }
  }

  lemma NextMinAdds(min: int, shift: nat, step: nat)
    requires -TWO64 / 2 <= min < TWO64 / 2 && 0 < Pow2(shift + step) <= TWO64 / 2 && Aligned(min, shift)
    requires ClearDigit(Wrap64(min + Pow2(shift + step)), shift, step) >= min
    ensures var next := ClearDigit(Wrap64(min + Pow2(shift + step)), shift, step);
      Aligned(next, shift + step) && Shr(next, shift + step) == Shr(min, shift + step) + 1
  {
    var y := min + Pow2(shift + step);
    Wrap64Is(y);
    ClearBelow(Wrap64(y), shift, step);
    AddBlock(min, 1, shift, step);
    ClearAligned(y, shift, step);
  }

  lemma NextMaxBlock(w: Width, max: int, shift: nat, step: nat)
    requires InRange(w, max) && Aligned(max, shift) && shift + step < Bits(w)
    requires NextMax(max, shift, step) <= max
    ensures Aligned(NextMax(max, shift, step), shift + step)
    ensures Shr(NextMax(max, shift, step), shift + step) ==
              Shr(max, shift + step) - if HasUpper(max, shift, step) then 1 else 0
  {
    InRangeIs64(w, max);
    Pow2Below64(w, shift + step);
    if HasUpper(max, shift, step) {
      NextMaxSubtracts(max, shift, step);
    } else {
      ClearAligned(max, shift, step);
    }
  }

  lemma NextMaxSubtracts(max: int, shift: nat, step: nat)
    requires -TWO64 / 2 <= max < TWO64 / 2 && 0 < Pow2(shift + step) <= TWO64 / 2 && Aligned(max, shift)
    requires ClearDigit(Wrap64(max - Pow2(shift + step)), shift, step) <= max
    ensures var next := ClearDigit(Wrap64(max - Pow2(shift + step)), shift, step);
      Aligned(next, shift + step) && Shr(next, shift + step) == Shr(max, shift + step) - 1
  {
    var y := max - Pow2(shift + step);
    Wrap64Is(y);
    if y < -TWO64 / 2 { WrappedUp(max, y, shift, step); }
    ShlLinear(1, 0, shift + step);
    AddBlock(max, -1, shift, step);
    ClearAligned(y, shift, step);
  }

  /** Below the least register value the difference comes back near the greatest one. */
  lemma WrappedUp(max: int, y: int, shift: nat, step: nat)
    requires -TWO64 / 2 <= max < TWO64 / 2 && y == max - Pow2(shift + step) < -TWO64 / 2
    requires 0 < Pow2(shift + step) <= TWO64 / 2
    ensures ClearDigit(Wrap64(y), shift, step) > max
  {
    Wrap64Is(y);
    var z := Wrap64(y);
    var d := Digit(z, shift, step);
    DigitRange(z, shift, step);
    ShlMonotone(d, Pow2(step) - 1, shift);
    ShlLinear(Pow2(step), -1, shift);
    ShlLinear(1, 0, shift);
    ShlShl(1, step, shift);
    ShlFits(1, 1, shift);
  }

  /** Where the two edge ranges of a level lie, in blocks of that level. */
  lemma EdgeBlocks(min: int, max: int, shift: nat, step: nat)
    requires Aligned(min, shift) && Aligned(max, shift)
    ensures Shr(FillLow(FillDigit(min, shift, step), shift), shift) == Shl(Shr(min, shift + step) + 1, step) - 1
    ensures Shr(ClearDigit(max, shift, step), shift) == Shl(Shr(max, shift + step), step)
    ensures Shr(FillLow(max, shift), shift) == Shr(max, shift)
  {
    DigitRange(min, shift, step);
    var d := Pow2(step) - 1 - Digit(min, shift, step);
    ShrOffset(min, d, shift);
    ShlLinear(Shr(min, shift + step), 1, step);
    FillLowBlock(FillDigit(min, shift, step), shift);
    ClearAligned(max, shift, step);
    FillLowBlock(max, shift);
  }

  lemma FillLowBlock(x: int, shift: nat)
    ensures Shr(FillLow(x, shift), shift) == Shr(x, shift)
  {
    ShlLinear(Shr(x, shift), 1, shift);
    ShlFits(1, 1, shift);
    ShrBlock(FillLow(x, shift), Shr(x, shift), shift);
  }

  // ---------- exactness ----------

  predicate Matches(r: Range, v: int) {
    Shr(r.min, r.shift) <= Shr(v, r.shift) <= Shr(r.max, r.shift)
  }

  function CountMatching(rs: seq<Range>, v: int): nat {
    if rs == [] then 0 else (if Matches(rs[0], v) then 1 else 0) + CountMatching(rs[1..], v)
  }

  lemma {:induction false} CountAppend(a: seq<Range>, b: seq<Range>, v: int)
    ensures CountMatching(a + b, v) == CountMatching(a, v) + CountMatching(b, v)
  {
    if a == [] {
      assert a + b == b;
    } else {
      CountAppend(a[1..], b, v);
      assert (a + b)[1..] == a[1..] + b;
    }
  }

  function One(b: bool): nat { if b then 1 else 0 }

  lemma CountEdges(step: nat, shift: nat, min: int, max: int, v: int)
    requires Aligned(min, shift) && Aligned(max, shift)
    ensures CountMatching(Edges(step, shift, min, max), v) ==
              One(HasLower(min, shift, step) && Shr(min, shift) <= Shr(v, shift)
                  && Shr(v, shift + step) <= Shr(min, shift + step))
              + One(HasUpper(max, shift, step) && Shr(max, shift + step) <= Shr(v, shift + step)
                    && Shr(v, shift) <= Shr(max, shift))
  {
    EdgeBlocks(min, max, shift, step);
    var x := Shr(v, shift);
    DigitRange(v, shift, step);
    ShrOrder(x, Shr(min, shift + step) + 1, step);
    ShrOrder(x, Shr(max, shift + step), step);
    var lo := AddRange(min, FillDigit(min, shift, step), shift);
    var hi := AddRange(ClearDigit(max, shift, step), max, shift);
    assert Matches(lo, v) <==> Shr(min, shift) <= x && Shr(v, shift + step) <= Shr(min, shift + step);
    assert Matches(hi, v) <==> Shr(max, shift + step) <= Shr(v, shift + step) && x <= Shr(max, shift);
    CountAppend(if HasLower(min, shift, step) then [lo] else [], if HasUpper(max, shift, step) then [hi] else [], v);
    assert CountMatching([lo], v) == One(Matches(lo, v)) by { assert [lo][1..] == []; }
    assert CountMatching([hi], v) == One(Matches(hi, v)) by { assert [hi][1..] == []; }
  }

  /** Whether a bound falls inside its coarser block, or on its edge. */
  lemma BoundBlocks(min: int, max: int, v: int, shift: nat, step: nat)
    ensures var a, b, x := Shr(min, shift), Shr(max, shift), Shr(v, shift);
      var a', b', x' := Shr(min, shift + step), Shr(max, shift + step), Shr(v, shift + step);
      && (x' > a' ==> a <= x) && (x' < b' ==> x <= b) && (a <= x ==> a' <= x') && (x <= b ==> x' <= b')
      && (!HasLower(min, shift, step) && x' == a' ==> a <= x)
      && (!HasUpper(max, shift, step) && x' == b' ==> x <= b)
  {
    var a, b, x := Shr(min, shift), Shr(max, shift), Shr(v, shift);
    DigitRange(min, shift, step);
    DigitRange(max, shift, step);
    DigitRange(v, shift, step);
    var a', b', x' := Shr(a, step), Shr(b, step), Shr(x, step);
    ShrBlock(a, a', step);
    ShrBlock(b, b', step);
    ShrBlock(x, x', step);
    if x' > a' { ShlMonotone(a' + 1, x', step); }
    if x' < b' { ShlMonotone(x' + 1, b', step); }
    if a <= x { ShrMonotone(a, x, step); }
    if x <= b { ShrMonotone(x, b, step); }
    ShlLinear(b', 1, step);
  }

  /** The ranges hold every number between the bounds once, and no other number. */
  lemma {:induction false} SplitCounts(w: Width, step: nat, shift: nat, min: int, max: int, v: int)
    requires step >= 1 && shift < Bits(w) && min <= max
    requires InRange(w, min) && InRange(w, max) && Aligned(min, shift) && Aligned(max, shift)
    ensures CountMatching(SplitFrom(w, step, shift, min, max), v) ==
              One(Shr(min, shift) <= Shr(v, shift) <= Shr(max, shift))
    decreases Bits(w) - shift
  {
    if LastLevel(w, step, shift, min, max) {
      var r := AddRange(min, max, shift);
      FillLowBlock(max, shift);
      assert CountMatching([r], v) == One(Matches(r, v)) by { assert [r][1..] == []; }
    } else {
      NextMinBlock(w, min, shift, step);
      NextMaxBlock(w, max, shift, step);
      var nextMin, nextMax := NextMin(min, shift, step), NextMax(max, shift, step);
      SplitCounts(w, step, shift + step, nextMin, nextMax, v);
      ShrMonotone(nextMin, nextMax, shift + step);
      CountEdges(step, shift, min, max, v);
      CountAppend(Edges(step, shift, min, max), SplitFrom(w, step, shift + step, nextMin, nextMax), v);
      BoundBlocks(min, max, v, shift, step);
    }
  }

  /** splitRange is exact and its ranges are disjoint: numbers in the range match one emitted
      range, all others none. */
  lemma SplitExact(w: Width, step: nat, min: int, max: int, v: int)
    requires step >= 1 && InRange(w, min) && InRange(w, max)
    ensures CountMatching(Split(w, step, min, max), v) == if min <= v <= max then 1 else 0
  {
    if min <= max { SplitCounts(w, step, 0, min, max, v); }
  }
}
