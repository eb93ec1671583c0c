/**
 Searching by prefix codes: the tokens indexed for a number, the ranges a query visits, that
 the two meet exactly for numbers in the range, and how many terms a query can visit.
 */
module TrieSearch {
  import opened PrefixCode
  import opened RangeSplit

  // ---------- tokens ----------

  datatype Token = Token(text: Code, fullPrecision: bool, positionIncrement: nat)

  function TokenAt(w: Width, value: int, shift: nat): Token
    requires InRange(w, value) && shift < Bits(w)
  {
    Token(Encode(w, value, shift), shift == 0, if shift == 0 then 1 else 0)
  }

  /** The tokens still to come from `shift` on. */
  function Tokens(w: Width, value: int, step: nat, shift: nat): seq<Token>
    requires InRange(w, value) && step >= 1
    decreases Bits(w) - shift
  {
    if shift >= Bits(w) then [] else [TokenAt(w, value, shift)] + Tokens(w, value, step, shift + step)
  }

  class NumericTokenStream {
    var shift: nat
    var valSize: nat
    var value: int
    const precisionStep: nat

    ghost predicate Valid()
      reads this
    {
      precisionStep >= 1 && valSize in {0, 32, 64} && (valSize != 0 ==> InRange(WidthOf(), value))
    }

    ghost function WidthOf(): Width
      reads this
    {
      if valSize == 32 then Int32 else Int64
    }

    /** The tokens a consumer has yet to see. */
    ghost function Remaining(): seq<Token>
      reads this
      requires Valid() && valSize != 0
    {
      Tokens(WidthOf(), value, precisionStep, shift)
    }

    constructor (precisionStep: nat)
      requires precisionStep >= 1
      ensures Valid() && valSize == 0 && this.precisionStep == precisionStep
    {
      this.precisionStep, shift, valSize, value := precisionStep, 0, 0, 0;
    }

    method SetValue(w: Width, value: int)
      requires Valid() && InRange(w, value)
      modifies this
      ensures Valid() && valSize == Bits(w) && Remaining() == Tokens(w, value, precisionStep, 0)
    {
      this.value, valSize, shift := value, Bits(w), 0;
    }

    method Reset() returns (r: Result<()>)
      requires Valid()
      modifies this`shift
      ensures Valid() && (r == Err(IllegalState) <==> valSize == 0)
      ensures valSize != 0 ==> Remaining() == Tokens(WidthOf(), value, precisionStep, 0)
    {
      if valSize == 0 { return Err(IllegalState); }
      shift := 0;
      return Ok(());
    }

    /** An empty sequence at the end of the stream, else the next token. */
    method IncrementToken() returns (r: Result<seq<Token>>)
      requires Valid()
      modifies this`shift
      ensures Valid() && (r == Err(IllegalState) <==> valSize == 0)
      ensures valSize != 0 ==> r.Ok? && old(Remaining()) == r.value + Remaining()
      ensures valSize != 0 ==> |r.value| == if old(Remaining()) == [] then 0 else 1
    {
      if valSize == 0 { return Err(IllegalState); }
      if shift >= valSize { return Ok([]); }
      var w := if valSize == 32 then Int32 else Int64;
      var buffer := new nat[(Bits(w) - 1) / 7 + 2];
      var len := ToPrefixCoded(w, value, shift, buffer);
      var token := Token(buffer[..len.value], shift == 0, if shift == 0 then 1 else 0);
      shift := shift + precisionStep;
      return Ok([token]);
    }
  }

  // ---------- visiting ranges of terms ----------

  /** The terms from that of r.min to that of r.max, in the term dictionary's order. */
  predicate InTerms(w: Width, r: Range, term: Code)
    requires r.shift < Bits(w) && InRange(w, r.min) && InRange(w, r.max)
  {
    AtMost(Encode(w, r.min, r.shift), term) && AtMost(term, Encode(w, r.max, r.shift))
  }

  ghost predicate GoodRange(w: Width, step: nat, r: Range)
    requires step >= 1
  {
    r.shift < Bits(w) && r.shift % step == 0 && InRange(w, r.min) && InRange(w, r.max)
  }

  lemma FillLowInRange(w: Width, x: int, shift: nat)
    requires InRange(w, x) && shift < Bits(w)
    ensures InRange(w, FillLow(x, shift))
  {
    WidthIs(w);
    var b := Bits(w) - 1;
    ShrBlock(x, Shr(x, shift), shift);
    ShlLinear(Shr(x, shift), 1, shift);
    ShlFits(1, 1, shift);
    ShrShr(x, shift, b - shift);
    ShrOrder(x, 1, b);
    ShrOrder(Shr(x, shift), 1, b - shift);
    ShlMonotone(Shr(x, shift) + 1, Pow2(b - shift), shift);
    ShlShl(1, b - shift, shift);
  }

  lemma {:induction false} SplitGood(w: Width, step: nat, shift: nat, min: int, max: int)
    requires step >= 1 && shift < Bits(w) && shift % step == 0 && min <= max
    requires InRange(w, min) && InRange(w, max) && Aligned(min, shift) && Aligned(max, shift)
    ensures forall r :: r in SplitFrom(w, step, shift, min, max) ==> GoodRange(w, step, r)
    decreases Bits(w) - shift
  {
    FillLowInRange(w, max, shift);
    if !LastLevel(w, step, shift, min, max) {
      NextMinBlock(w, min, shift, step);
      NextMaxBlock(w, max, shift, step);
      NextMultiple(shift, step);
      SplitGood(w, step, shift + step, NextMin(min, shift, step), NextMax(max, shift, step));
      EdgesInRange(w, step, shift, min, max);
    }
  }

  lemma NextMultiple(x: nat, step: nat)
    requires step >= 1 && x % step == 0
    ensures (x + step) % step == 0
  {
    var k := x / step;
    assert x + step == (k + 1) * step;
    MultipleMod(k + 1, step);
  }

  lemma {:induction false} MultipleMod(k: nat, d: nat)
    requires d >= 1
    ensures (k * d) % d == 0
  {
    if k > 0 {
      MultipleMod(k - 1, d);
      var x := (k - 1) * d;
      assert k * d == x + d;
      assert x == (x / d) * d;
      assert x + d == (x / d + 1) * d + 0;
      ModUnique(x + d, d, x / d + 1);
    }
  }

  lemma ModUnique(x: int, d: int, q: int)
    requires d > 0 && x == q * d
    ensures x % d == 0
  {
    var m, e := x % d, x / d;
    assert x == e * d + m && 0 <= m < d;
    assert (q - e) * d == m;
    SmallMultiple(q - e, d);
  }

  lemma SmallMultiple(k: int, d: int)
    requires d > 0 && 0 <= k * d < d
    ensures k == 0
  {
  }

  lemma EdgesInRange(w: Width, step: nat, shift: nat, min: int, max: int)
    requires step >= 1 && shift + step < Bits(w) && InRange(w, min) && InRange(w, max)
    requires Aligned(min, shift) && Aligned(max, shift)
    ensures InRange(w, FillLow(FillDigit(min, shift, step), shift)) && InRange(w, ClearDigit(max, shift, step))
  {
    FillLowInRange(w, min, shift + step);
    ClearAligned(max, shift, step);
    ClearBelow(max, shift, step);
    WidthIs(w);
    var b := Bits(w) - 1;
    // The cleared bound is the lower edge of a coarser block, which holds the least value or more.
    ShlShl(-1, b - shift - step, shift + step);
    ShrOfShl(Shl(-1, b - shift - step), shift + step);
    ShrMonotone(MinValue(w), max, shift + step);
    ShlMonotone(Shl(-1, b - shift - step), Shr(max, shift + step), shift + step);
    // The filled bound is the upper edge of the coarser block of `min`.
    FilledEdge(min, shift, step);
  }

  lemma FilledEdge(min: int, shift: nat, step: nat)
    requires Aligned(min, shift)
    ensures FillLow(FillDigit(min, shift, step), shift) == FillLow(min, shift + step)
  {
    EdgeBlocks(min, min, shift, step);
    FillLowBlock(FillDigit(min, shift, step), shift);
    var top := Shr(min, shift + step);
    ShlLinear(Shl(top + 1, step), -1, shift);
    ShlLinear(1, 0, shift);
    ShlShl(top + 1, step, shift);
    ShlLinear(top, 1, shift + step);
  }

  /** A token falls between a range's end terms exactly when it has the range's shift and its
      shifted number lies between theirs. */
  lemma TermsOfRange(w: Width, step: nat, r: Range, v: int, shift: nat)
    requires step >= 1 && GoodRange(w, step, r) && InRange(w, v) && shift < Bits(w)
    ensures InTerms(w, r, Encode(w, v, shift)) <==> shift == r.shift && Matches(r, v)
  {
    if shift < r.shift {
      ShiftsSeparate(w, v, shift, r.min, r.shift);
    } else if shift > r.shift {
      ShiftsSeparate(w, r.max, r.shift, v, shift);
    } else {
      OrderIsomorphism(w, r.min, v, shift);
      OrderIsomorphism(w, v, r.max, shift);
    }
  }

  lemma {:induction false} TokensAre(w: Width, v: int, step: nat, from: nat, t: Token)
    requires InRange(w, v) && step >= 1 && t in Tokens(w, v, step, from)
    ensures exists shift: nat :: from <= shift < Bits(w) && t == TokenAt(w, v, shift)
    decreases Bits(w) - from
  {
    if t != TokenAt(w, v, from) { TokensAre(w, v, step, from + step, t); }
  }

  lemma {:induction false} TokensHave(w: Width, v: int, step: nat, from: nat, shift: nat)
    requires InRange(w, v) && step >= 1 && from <= shift < Bits(w)
    requires from % step == 0 && shift % step == 0
    ensures TokenAt(w, v, shift) in Tokens(w, v, step, from)
    decreases Bits(w) - from
  {
    if from != shift {
      NextMultiple(from, step);
      MultipleGap(from, shift, step);
      TokensHave(w, v, step, from + step, shift);
    }
  }

  lemma MultipleGap(x: nat, y: nat, d: nat)
    requires d >= 1 && x < y && x % d == 0 && y % d == 0
    ensures x + d <= y
  {
    var i, j := x / d, y / d;
    assert x == i * d && y == j * d;
    if j <= i { MulLe(j, i, d); } else { MulLe(i + 1, j, d); }
  }

  lemma MulLe(i: nat, j: nat, d: nat)
    requires i <= j
    ensures i * d <= j * d
  {
  }

  lemma MultipleOfMultiple(x: nat, q: nat, i: nat)
    requires q >= 1 && i >= 1 && x % q == 0 && q % i == 0
    ensures x % i == 0
  {
    var a, b := x / q, q / i;
    assert x == a * q && q == b * i;
    assert x == (a * b) * i by { assert a * (b * i) == (a * b) * i; }
    MultipleMod(a * b, i);
  }

  /** Some token of the number lies among the terms some range visits. */
  ghost predicate Found(w: Width, tokens: seq<Token>, ranges: seq<Range>) {
    exists t, r :: t in tokens && r in ranges && r.shift < Bits(w) && InRange(w, r.min) && InRange(w, r.max)
                   && InTerms(w, r, t.text)
  }

  lemma {:induction false} CountPositive(rs: seq<Range>, v: int)
    ensures CountMatching(rs, v) > 0 <==> exists r :: r in rs && Matches(r, v)
  {
    if rs != [] {
      CountPositive(rs[1..], v);
      assert rs == [rs[0]] + rs[1..];
    }
  }

  /** Trie search is exact: a number indexed with one precision step is found by a range query
      with a multiple of that step if and only if it lies in the range. */
  lemma TrieSearchExact(w: Width, indexStep: nat, queryStep: nat, v: int, min: int, max: int)
    requires indexStep >= 1 && queryStep >= 1 && queryStep % indexStep == 0
    requires InRange(w, v) && InRange(w, min) && InRange(w, max)
    ensures Found(w, Tokens(w, v, indexStep, 0), Split(w, queryStep, min, max)) <==> min <= v <= max
  {
    var tokens, ranges := Tokens(w, v, indexStep, 0), Split(w, queryStep, min, max);
    SplitExact(w, queryStep, min, max, v);
    CountPositive(ranges, v);
    if min <= max { SplitGood(w, queryStep, 0, min, max); }
    if Found(w, tokens, ranges) {
      var t, r :| t in tokens && r in ranges && r.shift < Bits(w) && InRange(w, r.min) && InRange(w, r.max)
                  && InTerms(w, r, t.text);
      TokensAre(w, v, indexStep, 0, t);
      var shift: nat :| shift < Bits(w) && t == TokenAt(w, v, shift);
      TermsOfRange(w, queryStep, r, v, shift);
    }
    if min <= v <= max {
      var r :| r in ranges && Matches(r, v);
      MultipleOfMultiple(r.shift, queryStep, indexStep);
      TokensHave(w, v, indexStep, 0, r.shift);
      TermsOfRange(w, queryStep, r, v, r.shift);
      assert TokenAt(w, v, r.shift) in tokens && InTerms(w, r, TokenAt(w, v, r.shift).text);
    }
  }

  // ---------- queries ----------

  datatype Bound = Open | At(value: int, inclusive: bool)

  predicate AboveLower(lower: Bound, v: int) {
    lower.At? ==> lower.value < v || (lower.inclusive && v == lower.value)
  }

  predicate BelowUpper(upper: Bound, v: int) {
    upper.At? ==> v < upper.value || (upper.inclusive && v == upper.value)
  }

  /** NumericRangeTermEnum: turns the query's bounds into inclusive ones; a bound that excludes the
      extreme value leaves nothing to visit. */
  function QueryRanges(w: Width, step: nat, lower: Bound, upper: Bound): seq<Range>
    requires step >= 1
  {
    if lower.At? && !lower.inclusive && lower.value == MaxValue(w) then []
    else if upper.At? && !upper.inclusive && upper.value == MinValue(w) then []
    else
      var min := if lower.Open? then MinValue(w) else if lower.inclusive then lower.value else lower.value + 1;
      var max := if upper.Open? then MaxValue(w) else if upper.inclusive then upper.value else upper.value - 1;
      Split(w, step, min, max)
  }

  /** A range query finds exactly the numbers between its bounds, open or closed. */
  lemma QueryExact(w: Width, indexStep: nat, queryStep: nat, v: int, lower: Bound, upper: Bound)
    requires indexStep >= 1 && queryStep >= 1 && queryStep % indexStep == 0 && InRange(w, v)
    requires (lower.At? ==> InRange(w, lower.value)) && (upper.At? ==> InRange(w, upper.value))
    ensures Found(w, Tokens(w, v, indexStep, 0), QueryRanges(w, queryStep, lower, upper)) <==>
              AboveLower(lower, v) && BelowUpper(upper, v)
  {
    WidthIs(w);
    var ranges := QueryRanges(w, queryStep, lower, upper);
    if lower.At? && !lower.inclusive && lower.value == MaxValue(w) {
      assert ranges == [];
    } else if upper.At? && !upper.inclusive && upper.value == MinValue(w) {
      assert ranges == [];
    } else {
      var min := if lower.Open? then MinValue(w) else if lower.inclusive then lower.value else lower.value + 1;
      var max := if upper.Open? then MaxValue(w) else if upper.inclusive then upper.value else upper.value - 1;
      TrieSearchExact(w, indexStep, queryStep, v, min, max);
    }
  }

  // ---------- how many terms a query can visit ----------

  function Terms(rs: seq<Range>): int {
    if rs == [] then 0
    else Shr(rs[0].max, rs[0].shift) - Shr(rs[0].min, rs[0].shift) + 1 + Terms(rs[1..])
  }

  lemma {:induction false} TermsAppend(a: seq<Range>, b: seq<Range>)
    ensures Terms(a + b) == Terms(a) + Terms(b)
  {
    if a == [] {
      assert a + b == b;
    } else {
      TermsAppend(a[1..], b);
      assert (a + b)[1..] == a[1..] + b;
    }
  }

  lemma TermsOfOne(min: int, max: int, shift: nat)
    ensures Terms([AddRange(min, max, shift)]) == Shr(max, shift) - Shr(min, shift) + 1
  {
    FillLowBlock(max, shift);
    assert [AddRange(min, max, shift)][1..] == [];
  }

  /** The two edges of a level hold fewer than 2^step terms each. */
  lemma TermsOfEdges(step: nat, shift: nat, min: int, max: int)
    requires Aligned(min, shift) && Aligned(max, shift)
    ensures 0 <= Terms(Edges(step, shift, min, max)) <= 2 * (Pow2(step) - 1)
    ensures !HasLower(min, shift, step) || !HasUpper(max, shift, step) ==>
              Terms(Edges(step, shift, min, max)) <= Pow2(step) - 1
    ensures !HasLower(min, shift, step) && !HasUpper(max, shift, step) ==> Terms(Edges(step, shift, min, max)) == 0
  {
    EdgeBlocks(min, max, shift, step);
    DigitRange(min, shift, step);
    DigitRange(max, shift, step);
    ShlLinear(Shr(min, shift + step), 1, step);
    var filled, cleared := FillDigit(min, shift, step), ClearDigit(max, shift, step);
    FillLowBlock(filled, shift);
    TermsOfOne(min, filled, shift);
    TermsOfOne(cleared, max, shift);
    TermsAppend(if HasLower(min, shift, step) then [AddRange(min, filled, shift)] else [],
                if HasUpper(max, shift, step) then [AddRange(cleared, max, shift)] else []);
  }

  /** Whether the bounds still span every value. */
  predicate Whole(w: Width, shift: nat, min: int, max: int) {
    min == MinValue(w) && FillLow(max, shift) == MaxValue(w)
  }

  /** A number whose block does not lie beyond that of a 64-bit value is a 64-bit value. */
  lemma BlockKeeps64(x: int, y: int, n: nat)
    requires n < 64
    ensures y < TWO64 / 2 && Shr(x, n) <= Shr(y, n) ==> x < TWO64 / 2
    ensures -TWO64 / 2 <= y && Shr(y, n) <= Shr(x, n) ==> -TWO64 / 2 <= x
  {
    var k := Pow2(63 - n);
    WidthIs(Int64);
    ShlShl(1, 63 - n, n);
    assert Shl(k, n) == TWO64 / 2;
    ShlLinear(k, 0, n);
    ShrOrder(x, k, n);
    ShrOrder(y, k, n);
    ShrOrder(x, -k, n);
    ShrOrder(y, -k, n);
  }

  function Bump(b: bool): int { if b then 1 else 0 }

  /** With room for it, the next lower bound is the edge of its block and did not wrap. */
  lemma NextMinExact(w: Width, min: int, max: int, shift: nat, step: nat)
    requires InRange(w, min) && InRange(w, max) && Aligned(min, shift) && shift + step < Bits(w)
    requires Shr(min, shift + step) + Bump(HasLower(min, shift, step)) <= Shr(max, shift + step)
    ensures NextMin(min, shift, step) == Shl(Shr(min, shift + step) + Bump(HasLower(min, shift, step)), shift + step)
    ensures NextMin(min, shift, step) >= min
  {
    var n, a' := shift + step, Shr(min, shift + step);
    InRangeIs64(w, min);
    InRangeIs64(w, max);
    Pow2Below64(w, n);
    ShrBlock(min, a', n);
    if HasLower(min, shift, step) {
      var y := min + Pow2(n);
      AddBlock(min, 1, shift, step);
      BlockKeeps64(y, max, n);
      Wrap64Is(y);
      ClearAligned(y, shift, step);
    } else {
      ShlLinear(0, 0, shift);
      ClearAligned(min, shift, step);
    }
  }

  lemma NextMaxExact(w: Width, min: int, max: int, shift: nat, step: nat)
    requires InRange(w, min) && InRange(w, max) && Aligned(max, shift) && shift + step < Bits(w)
    requires Shr(min, shift + step) <= Shr(max, shift + step) - Bump(HasUpper(max, shift, step))
    ensures NextMax(max, shift, step) == Shl(Shr(max, shift + step) - Bump(HasUpper(max, shift, step)), shift + step)
    ensures NextMax(max, shift, step) <= max
  {
    var n, b' := shift + step, Shr(max, shift + step);
    InRangeIs64(w, min);
    InRangeIs64(w, max);
    Pow2Below64(w, n);
    ShrBlock(max, b', n);
    ShlMonotone(b' - 1, b', n);
    if HasUpper(max, shift, step) {
      var y := max - Pow2(n);
      ShlLinear(1, 0, n);
      AddBlock(max, -1, shift, step);
      BlockKeeps64(y, min, n);
      Wrap64Is(y);
      ClearAligned(y, shift, step);
    } else {
      ClearAligned(max, shift, step);
    }
  }

  /** A split that stops before the lowest precision has no whole coarser block left. */
  lemma LastMeansCrossed(w: Width, step: nat, shift: nat, min: int, max: int)
    requires shift + step < Bits(w) && LastLevel(w, step, shift, min, max)
    requires InRange(w, min) && InRange(w, max) && Aligned(min, shift) && Aligned(max, shift)
    ensures Shr(min, shift + step) + Bump(HasLower(min, shift, step)) >
              Shr(max, shift + step) - Bump(HasUpper(max, shift, step))
  {
    var lo := Shr(min, shift + step) + Bump(HasLower(min, shift, step));
    var hi := Shr(max, shift + step) - Bump(HasUpper(max, shift, step));
    if lo <= hi {
      NextMinExact(w, min, max, shift, step);
      NextMaxExact(w, min, max, shift, step);
      ShlMonotone(lo, hi, shift + step);
    }
  }

  lemma LastLevelTerms(w: Width, step: nat, shift: nat, min: int, max: int)
    requires step >= 1 && shift + step < Bits(w) && LastLevel(w, step, shift, min, max)
    requires InRange(w, min) && InRange(w, max) && Aligned(min, shift) && Aligned(max, shift)
    ensures Shr(max, shift) - Shr(min, shift) + 1 <= 2 * (Pow2(step) - 1)
  {
    LastMeansCrossed(w, step, shift, min, max);
    DigitRange(min, shift, step);
    DigitRange(max, shift, step);
    CrossedCount(Shr(min, shift + step), Digit(min, shift, step), Shr(max, shift + step), Digit(max, shift, step),
        step);
  }

  /** Bounds given by block and digit, with no whole block between them. */
  lemma CrossedCount(a: int, da: int, b: int, db: int, step: nat)
    requires step >= 1 && 0 <= da < Pow2(step) && 0 <= db < Pow2(step)
    requires a + Bump(da != 0) > b - Bump(db != Pow2(step) - 1)
    ensures (Shl(b, step) + db) - (Shl(a, step) + da) + 1 <= 2 * (Pow2(step) - 1)
  {
    ShlFits(1, 1, step - 1);
    ShlLinear(a, 1, step);
    if b <= a {
      ShlMonotone(b, a, step);
    } else {
      assert b == a + 1;
    }
  }

  /** The closed form of the header: (levels - 1) * (2^step - 1) * 2 + (2^step - 1). */
  function MaxTerms(levels: nat, step: nat): int {
    (levels - 1) * (Pow2(step) - 1) * 2 + (Pow2(step) - 1)
  }

  lemma MaxTermsStep(levels: nat, step: nat)
    ensures MaxTerms(levels + 1, step) == MaxTerms(levels, step) + 2 * (Pow2(step) - 1)
  {
  }

  /** At the lowest precision there are 2^step blocks, and all of them only if nothing was cut off. */
  lemma TopLevelTerms(w: Width, step: nat, shift: nat, min: int, max: int)
    requires step >= 1 && shift + step == Bits(w) && InRange(w, min) && InRange(w, max)
    requires Aligned(min, shift) && Aligned(max, shift)
    ensures Shr(max, shift) - Shr(min, shift) + 1 <= Pow2(step) - 1 + Bump(Whole(w, shift, min, max))
  {
    WidthIs(w);
    var half := Pow2(step - 1);
    ShlShl(1, step - 1, shift);
    ShlLinear(half, 0, shift);
    ShrOrder(min, -half, shift);
    ShrOrder(max, half, shift);
    ShlLinear(half, -1, shift);
    ShlLinear(1, 0, shift);
  }

  lemma NotWholeOnceCut(w: Width, step: nat, shift: nat, min: int, max: int)
    requires shift + step < Bits(w) && !LastLevel(w, step, shift, min, max)
    requires InRange(w, min) && InRange(w, max) && Aligned(min, shift) && Aligned(max, shift)
    requires Whole(w, shift + step, NextMin(min, shift, step), NextMax(max, shift, step))
    ensures !HasLower(min, shift, step) && !HasUpper(max, shift, step)
  {
    NextMinBlock(w, min, shift, step);
    NextMaxBlock(w, max, shift, step);
    var n := shift + step;
    var nextMax := NextMax(max, shift, step);
    ShlLinear(Shr(nextMax, n), 1, n);
    ShrBlock(max, Shr(max, n), n);
  }

  lemma {:induction false} SplitTerms(w: Width, step: nat, levels: nat, shift: nat, min: int, max: int)
    requires step >= 1 && levels >= 1 && shift + levels * step == Bits(w) && min <= max
    requires InRange(w, min) && InRange(w, max) && Aligned(min, shift) && Aligned(max, shift)
    ensures Terms(SplitFrom(w, step, shift, min, max)) <=
              MaxTerms(levels, step) + if levels == 1 then Bump(Whole(w, shift, min, max)) else 0
    decreases levels
  {
    TermsOfOne(min, max, shift);
    ShlFits(1, 1, step - 1);
    if levels == 1 {
      TopLevelTerms(w, step, shift, min, max);
    } else {
      MaxTermsStep(levels - 1, step);
      LevelsLeft(levels, step);
      if LastLevel(w, step, shift, min, max) {
        LastLevelTerms(w, step, shift, min, max);
        MaxTermsPositive(levels - 1, step);
      } else {
        NextMinBlock(w, min, shift, step);
        NextMaxBlock(w, max, shift, step);
        var nextMin, nextMax := NextMin(min, shift, step), NextMax(max, shift, step);
        SplitTerms(w, step, levels - 1, shift + step, nextMin, nextMax);
        TermsOfEdges(step, shift, min, max);
        TermsAppend(Edges(step, shift, min, max), SplitFrom(w, step, shift + step, nextMin, nextMax));
        if Whole(w, shift + step, nextMin, nextMax) { NotWholeOnceCut(w, step, shift, min, max); }
      }
    }
  }

  lemma LevelsLeft(levels: nat, step: nat)
    requires levels >= 2 && step >= 1
    ensures levels * step == (levels - 1) * step + step && (levels - 1) * step >= 1
  {
  }

  lemma {:induction false} MaxTermsPositive(levels: nat, step: nat)
    requires levels >= 1
    ensures MaxTerms(levels, step) >= 0
  {
    ShlFits(1, 1, step);
    if levels > 1 {
      MaxTermsPositive(levels - 1, step);
      MaxTermsStep(levels - 1, step);
    }
  }

  /** The bound the documentation gives for the number of terms a range query visits, when the
      step divides the width and leaves at least two levels. */
  lemma TermCountBound(w: Width, step: nat, min: int, max: int)
    requires step >= 1 && Bits(w) % step == 0 && Bits(w) / step >= 2
    requires InRange(w, min) && InRange(w, max)
    ensures Terms(Split(w, step, min, max)) <= MaxTerms(Bits(w) / step, step)
  {
    var levels := Bits(w) / step;
    assert Bits(w) == levels * step;
    MaxTermsPositive(levels, step);
    if min <= max { SplitTerms(w, step, levels, 0, min, max); }
  }
}
