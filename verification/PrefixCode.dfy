/**
 NumericUtils' prefix code: a signed number, with its low `shift` bits dropped, written as a
 shift character followed by 7-bit digits, most significant first.
 */
module PrefixCode {

  datatype Width = Int32 | Int64

  datatype Error = IllegalArgument | NumberFormat | IllegalState | Unsupported

  datatype Result<+T> = Ok(value: T) | Err(error: Error)

  /** A term's text; characters are their code points. */
  type Code = seq<nat>

  function Bits(w: Width): nat { if w.Int32? then 32 else 64 }

  /** SHIFT_START_INT and SHIFT_START_LONG. */
  function ShiftStart(w: Width): nat { if w.Int32? then 0x60 else 0x20 }

  /** Arithmetic shifts, one bit at a time. */
  function Shl(x: int, s: nat): int { if s == 0 then x else 2 * Shl(x, s - 1) }

  function Shr(x: int, s: nat): int
    decreases s
  {
    if s == 0 then x else Shr(x / 2, s - 1)
  }

  function Pow2(n: nat): int { Shl(1, n) }

  function MinValue(w: Width): int { Shl(-1, Bits(w) - 1) }

  function MaxValue(w: Width): int { Pow2(Bits(w) - 1) - 1 }

  predicate InRange(w: Width, v: int) { MinValue(w) <= v <= MaxValue(w) }

  // ---------- shifts ----------

  lemma {:induction false} ShlLinear(x: int, y: int, s: nat)
    ensures Shl(x + y, s) == Shl(x, s) + Shl(y, s) && Shl(-x, s) == -Shl(x, s)
  {
    if s > 0 { ShlLinear(x, y, s - 1); }
  }

  lemma {:induction false} ShlMonotone(x: int, y: int, s: nat)
    ensures x <= y <==> Shl(x, s) <= Shl(y, s)
    ensures x == y <==> Shl(x, s) == Shl(y, s)
  {
    if s > 0 { ShlMonotone(x, y, s - 1); }
  }

  lemma {:induction false} ShlShl(x: int, s: nat, t: nat)
    ensures Shl(Shl(x, s), t) == Shl(x, s + t)
  {
    if t > 0 { ShlShl(x, s, t - 1); }
  }

  lemma {:induction false} ShlFits(x: int, y: int, s: nat)
    requires 0 <= x <= y
    ensures 0 <= Shl(x, s) <= Shl(y, s) && y <= Shl(y, s)
  {
    if s > 0 { ShlFits(x, y, s - 1); }
  }

  lemma {:induction false} ShrShr(x: int, s: nat, t: nat)
    ensures Shr(Shr(x, s), t) == Shr(x, s + t)
    decreases s
  {
    if s > 0 { ShrShr(x / 2, s - 1, t); }
  }

  lemma {:induction false} ShrMonotone(x: int, y: int, s: nat)
    requires x <= y
    ensures Shr(x, s) <= Shr(y, s)
    decreases s
  {
    if s > 0 { ShrMonotone(x / 2, y / 2, s - 1); }
  }

  /** Adding a multiple of 2^s adds to the shifted number. */
  lemma {:induction false} ShrOffset(x: int, k: int, s: nat)
    ensures Shr(x + Shl(k, s), s) == Shr(x, s) + k
    decreases s
  {
    if s > 0 {
      ShrOffset(x / 2, k, s - 1);
      assert (x + 2 * Shl(k, s - 1)) / 2 == x / 2 + Shl(k, s - 1);
    }
  }

  lemma {:induction false} ShrOfShl(k: int, s: nat)
    ensures Shr(Shl(k, s), s) == k
  {
    if s > 0 { ShrOfShl(k, s - 1); }
  }

  /** Which numbers shift down to a given one. */
  lemma {:induction false} ShrBlock(x: int, k: int, s: nat)
    ensures Shr(x, s) == k <==> Shl(k, s) <= x < Shl(k + 1, s)
    decreases s
  {
    if s > 0 { ShrBlock(x / 2, k, s - 1); }
  }

  lemma {:induction false} ShrNat(x: nat, s: nat)
    ensures Shr(x, s) >= 0
  {
    if s > 0 { ShrNat(x / 2, s - 1); }
  }

  // ---------- the code ----------

  /** Flipping the sign bit of a two's complement number, read as an unsigned number. */
  function Sortable(w: Width, v: int): int { v - MinValue(w) }

  function NChars(w: Width, shift: nat): nat
    requires shift < Bits(w)
  {
    (Bits(w) - 1 - shift) / 7 + 1
  }

  /** `n` 7-bit digits of `x`, most significant first. */
  function Digits(x: nat, n: nat): (ds: Code)
    ensures |ds| == n && forall i :: 0 <= i < n ==> ds[i] <= 0x7f
  {
    if n == 0 then [] else Digits(x / 128, n - 1) + [x % 128]
  }

  function Encode(w: Width, v: int, shift: nat): Code
    requires InRange(w, v) && shift < Bits(w)
  {
    ShrNat(Sortable(w, v), shift);
    [ShiftStart(w) + shift] + Digits(Shr(Sortable(w, v), shift), NChars(w, shift))
  }

  /** longToPrefixCoded / intToPrefixCoded: fills `buffer` from the right, returns the length. */
  method ToPrefixCoded(w: Width, val: int, shift: int, buffer: array<nat>) returns (len: Result<nat>)
    requires InRange(w, val) && buffer.Length >= (Bits(w) - 1) / 7 + 2
    modifies buffer
    ensures len.Ok? <==> 0 <= shift < Bits(w)
    ensures len.Err? ==> len.error == IllegalArgument && buffer[..] == old(buffer[..])
    ensures len.Ok? ==> len.value <= buffer.Length && buffer[..len.value] == Encode(w, val, shift)
  {
    if shift > Bits(w) - 1 || shift < 0 {
      return Err(IllegalArgument);
    }
    ShrNat(Sortable(w, val), shift);
    var nChars := NChars(w, shift);
    buffer[0] := ShiftStart(w) + shift;
    FillDigits(Shr(Sortable(w, val), shift), nChars, buffer);
    assert buffer[..nChars + 1] == [buffer[0]] + buffer[1..nChars + 1];
    return Ok(nChars + 1);
  }

  method FillDigits(bits: nat, n: nat, buffer: array<nat>)
    requires n < buffer.Length
    modifies buffer
    ensures buffer[0] == old(buffer[0]) && buffer[1..n + 1] == Digits(bits, n)
  {
    var nChars, sortableBits := n, bits;
    while nChars >= 1
      invariant 0 <= nChars <= n
      invariant buffer[0] == old(buffer[0])
      invariant Digits(bits, n) == Digits(sortableBits, nChars) + buffer[nChars + 1..n + 1]
    {
      buffer[nChars] := sortableBits % 128;
      nChars := nChars - 1;
      sortableBits := sortableBits / 128;
      assert buffer[nChars + 1..n + 1] == [buffer[nChars + 1]] + buffer[nChars + 2..n + 1];
    }
  }

  /** The digits folded back, wrapping at the width as the shifted register does. */
  function Gather(w: Width, ds: Code): nat {
    if ds == [] then 0 else Wrap(w, Gather(w, ds[..|ds| - 1]) * 128 + ds[|ds| - 1])
  }

  const TWO32 := 0x1_0000_0000
  const TWO64 := 0x1_0000_0000_0000_0000

  function Wrap(w: Width, x: int): nat { if w.Int32? then x % TWO32 else x % TWO64 }

  lemma Shl8(x: int)
    ensures Shl(x, 7) == 128 * x && Shl(x, 8) == 256 * x
  {
    assert Shl(x, 1) == 2 * x;
    assert Shl(x, 2) == 4 * x;
    assert Shl(x, 3) == 8 * x;
    assert Shl(x, 4) == 16 * x;
    assert Shl(x, 5) == 32 * x;
    assert Shl(x, 6) == 64 * x;
  }

  lemma Shl32(x: int)
    ensures Shl(x, 32) == TWO32 * x
  {
    Shl8(x);
    Shl8(256 * x);
    ShlShl(x, 8, 8);
    Shl8(65536 * x);
    ShlShl(x, 16, 8);
    Shl8(65536 * 256 * x);
    ShlShl(x, 24, 8);
  }

  lemma WidthIs(w: Width)
    ensures Pow2(Bits(w)) == if w.Int32? then TWO32 else TWO64
    ensures 2 * Pow2(Bits(w) - 1) == Pow2(Bits(w)) && MinValue(w) == -Pow2(Bits(w) - 1)
  {
    ShlLinear(1, 0, Bits(w) - 1);
    Shl32(1);
    Shl32(TWO32);
    ShlShl(1, 32, 32);
  }

  function Decode(w: Width, code: Code): Result<int> {
    if code == [] || code[0] < ShiftStart(w) || code[0] - ShiftStart(w) >= Bits(w) then Err(NumberFormat)
    else if exists i :: 1 <= i < |code| && code[i] > 0x7f then Err(NumberFormat)
    else
      var shift := code[0] - ShiftStart(w);
      Ok(Wrap(w, Shl(Gather(w, code[1..]), shift)) + MinValue(w))
  }

  /** prefixCodedToLong / prefixCodedToInt. */
  method FromPrefixCoded(w: Width, code: Code) returns (v: Result<int>)
    ensures v == Decode(w, code)
    ensures v.Ok? ==> InRange(w, v.value)
  {
    if code == [] || code[0] < ShiftStart(w) || code[0] - ShiftStart(w) > Bits(w) - 1 {
      return Err(NumberFormat);
    }
    var shift := code[0] - ShiftStart(w);
    var sortableBits: nat := 0;
    for i := 1 to |code|
      invariant sortableBits == Gather(w, code[1..i])
      invariant forall j :: 1 <= j < i ==> code[j] <= 0x7f
    {
      if code[i] > 0x7f { return Err(NumberFormat); }
      sortableBits := Wrap(w, sortableBits * 128 + code[i]);
      assert code[1..i + 1][..i - 1] == code[1..i];
    }
    assert code[1..|code|] == code[1..];
    WidthIs(w);
    return Ok(Wrap(w, Shl(sortableBits, shift)) + MinValue(w));
  }

  // ---------- round trip ----------

  lemma {:induction false} GatherDigits(w: Width, x: nat, n: nat)
    requires x < Pow2(7 * n) && x < Pow2(Bits(w))
    ensures Gather(w, Digits(x, n)) == x
  {
    if n > 0 {
      SevenBits(n);
      WidthIs(w);
      GatherDigits(w, x / 128, n - 1);
      assert Digits(x, n)[..n - 1] == Digits(x / 128, n - 1);
    }
  }

  lemma SevenBits(n: nat)
    requires n > 0
    ensures Pow2(7 * n) == 128 * Pow2(7 * (n - 1))
  {
    var p := Pow2(7 * (n - 1));
    ShlShl(1, 7 * (n - 1), 7);
    assert 7 * (n - 1) + 7 == 7 * n;
    Shl8(p);
  }

  /** The shifted number fits the width, and the digits given to it. */
  lemma ShiftedFits(w: Width, v: int, shift: nat)
    requires InRange(w, v) && shift < Bits(w)
    ensures 0 <= Shr(Sortable(w, v), shift) < Pow2(Bits(w) - shift) <= Pow2(7 * NChars(w, shift))
    ensures Pow2(Bits(w) - shift) <= Pow2(Bits(w))
  {
    var b, n := Bits(w), 7 * NChars(w, shift);
    WidthIs(w);
    ShrNat(Sortable(w, v), shift);
    ShrMonotone(Sortable(w, v), Pow2(b) - 1, shift);
    ShlShl(1, b - shift, shift);
    ShlLinear(Pow2(b - shift), -1, shift);
    ShlFits(1, 1, shift);
    ShlLinear(1, 0, shift);
    ShrBlock(Pow2(b) - 1, Pow2(b - shift) - 1, shift);
    ShlShl(1, b - shift, n - (b - shift));
    ShlFits(0, Pow2(b - shift), n - (b - shift)) by { ShlFits(0, 1, b - shift); }
    ShlFits(0, Pow2(b - shift), shift) by { ShlFits(0, 1, b - shift); }
  }

  /** `v` with its low `shift` bits cleared. */
  function Truncate(v: int, shift: nat): int { Shl(Shr(v, shift), shift) }

  lemma SortableBlock(w: Width, v: int, shift: nat)
    requires shift < Bits(w)
    ensures Shr(Sortable(w, v), shift) == Shr(v, shift) + Pow2(Bits(w) - 1 - shift)
    ensures Shl(Pow2(Bits(w) - 1 - shift), shift) == -MinValue(w)
  {
    WidthIs(w);
    ShlShl(1, Bits(w) - 1 - shift, shift);
    ShrOffset(v, Pow2(Bits(w) - 1 - shift), shift);
  }

  lemma DecodeEncoded(w: Width, v: int, shift: nat)
    requires InRange(w, v) && shift < Bits(w)
    ensures Decode(w, Encode(w, v, shift)) == Ok(Wrap(w, Shl(Shr(Sortable(w, v), shift), shift)) + MinValue(w))
  {
    var code, n := Encode(w, v, shift), NChars(w, shift);
    var x := Shr(Sortable(w, v), shift);
    ShiftedFits(w, v, shift);
    GatherDigits(w, x, n);
    assert code[1..] == Digits(x, n);
    forall i | 1 <= i < |code| ensures code[i] <= 0x7f { assert code[i] == code[1..][i - 1]; }
  }

  lemma BackInPlace(w: Width, v: int, shift: nat)
    requires InRange(w, v) && shift < Bits(w)
    ensures Shl(Shr(Sortable(w, v), shift), shift) == Truncate(v, shift) - MinValue(w)
    ensures 0 <= Truncate(v, shift) - MinValue(w) && Truncate(v, shift) <= v
  {
    hide Shl, Shr;
    SortableBlock(w, v, shift);
    ShlLinear(Shr(v, shift), Pow2(Bits(w) - 1 - shift), shift);
    ShrBlock(v, Shr(v, shift), shift);
    ShrNat(Sortable(w, v), shift);
    ShlMonotone(0, Shr(Sortable(w, v), shift), shift);
    ShlLinear(0, 0, shift);
  }

  /** Decoding gives back the number with its low `shift` bits cleared. */
  lemma RoundTrip(w: Width, v: int, shift: nat)
    requires InRange(w, v) && shift < Bits(w)
    ensures Decode(w, Encode(w, v, shift)) == Ok(Truncate(v, shift))
  {
    hide Decode, Encode, Shl, Shr, Truncate, NChars;
    DecodeEncoded(w, v, shift);
    BackInPlace(w, v, shift);
    WidthIs(w);
  }

  // ---------- order ----------

  /** Lexicographic order on terms, by code point. */
  predicate Less(a: Code, b: Code) {
    b != [] && (a == [] || a[0] < b[0] || (a[0] == b[0] && Less(a[1..], b[1..])))
  }

  predicate AtMost(a: Code, b: Code) { a == b || Less(a, b) }

  lemma {:induction false} LessAppend(a: Code, b: Code, c: nat, d: nat)
    requires |a| == |b|
    ensures Less(a + [c], b + [d]) <==> Less(a, b) || (a == b && c < d)
  {
    if a == [] {
      assert a + [c] == [c] && b + [d] == [d];
    } else {
      LessAppend(a[1..], b[1..], c, d);
      assert (a + [c])[1..] == a[1..] + [c] && (b + [d])[1..] == b[1..] + [d];
      assert a == b <==> a[0] == b[0] && a[1..] == b[1..] by {
        assert a == [a[0]] + a[1..] && b == [b[0]] + b[1..];
      }
    }
  }

  lemma {:induction false} DigitsOrder(x: nat, y: nat, n: nat)
    requires x < Pow2(7 * n) && y < Pow2(7 * n)
    ensures Less(Digits(x, n), Digits(y, n)) <==> x < y
    ensures Digits(x, n) == Digits(y, n) <==> x == y
  {
    if n > 0 {
      SevenBits(n);
      DigitsOrder(x / 128, y / 128, n - 1);
      LessAppend(Digits(x / 128, n - 1), Digits(y / 128, n - 1), x % 128, y % 128);
      assert Digits(x, n)[..n - 1] == Digits(x / 128, n - 1) && Digits(y, n)[..n - 1] == Digits(y / 128, n - 1);
      assert Digits(x, n)[n - 1] == x % 128 && Digits(y, n)[n - 1] == y % 128;
    }
  }

  /** At one shift, the codes are ordered, and equal, exactly as the shifted numbers are. */
  lemma OrderIsomorphism(w: Width, a: int, b: int, shift: nat)
    requires InRange(w, a) && InRange(w, b) && shift < Bits(w)
    ensures Less(Encode(w, a, shift), Encode(w, b, shift)) <==> Shr(a, shift) < Shr(b, shift)
    ensures Encode(w, a, shift) == Encode(w, b, shift) <==> Shr(a, shift) == Shr(b, shift)
  {
    ShiftedFits(w, a, shift);
    ShiftedFits(w, b, shift);
    SortableBlock(w, a, shift);
    SortableBlock(w, b, shift);
    var x, y, n := Shr(Sortable(w, a), shift), Shr(Sortable(w, b), shift), NChars(w, shift);
    DigitsOrder(x, y, n);
    assert Encode(w, a, shift)[1..] == Digits(x, n) && Encode(w, b, shift)[1..] == Digits(y, n);
    assert Encode(w, a, shift)[0] == Encode(w, b, shift)[0];
  }

  /** Codes at different shifts never coincide, and sort by shift. */
  lemma ShiftsSeparate(w: Width, a: int, s: nat, b: int, t: nat)
    requires InRange(w, a) && InRange(w, b) && s < t < Bits(w)
    ensures Less(Encode(w, a, s), Encode(w, b, t)) && Encode(w, a, s) != Encode(w, b, t)
    ensures !Less(Encode(w, b, t), Encode(w, a, s))
  {
    assert Encode(w, a, s)[0] < Encode(w, b, t)[0];
  }

  // ---------- doubles ----------

  const SIGN := 0x8000_0000_0000_0000

  /** A double's 64 raw bits as a signed number: the sign bit weighs -2^63. */
  function AsSigned(raw: nat): int { if raw >= SIGN then raw - 2 * SIGN else raw }

  /** doubleToSortableLong after doubleToRawLongBits: xor with 0x7fff... turns the magnitude `m`
      of a negative into 2^63 - 1 - m and leaves its sign bit alone. */
  function FlipNegative(f: int): int {
    if f < 0 then -SIGN + (SIGN - 1 - (f + SIGN)) else f
  }

  /** totalOrder of section 5.10 of IEEE 754-2008 on the encodings of section 3.4: negatives come
      first, by falling magnitude, then the others by rising magnitude. */
  predicate TotalOrderLess(a: nat, b: nat) {
    var magA, magB := a % SIGN, b % SIGN;
    if a >= SIGN && b >= SIGN then magB < magA
    else if a >= SIGN || b >= SIGN then a >= SIGN
    else magA < magB
  }

  /** The sortable form of a double can be undone, fits 64 bits and sorts as the double does. */
  lemma SortableDouble(a: nat, b: nat)
    requires a < 2 * SIGN && b < 2 * SIGN
    ensures FlipNegative(FlipNegative(AsSigned(a))) == AsSigned(a)
    ensures -SIGN <= FlipNegative(AsSigned(a)) < SIGN
    ensures FlipNegative(AsSigned(a)) < FlipNegative(AsSigned(b)) <==> TotalOrderLess(a, b)
  {
    assert a % SIGN == if a >= SIGN then a - SIGN else a;
    assert b % SIGN == if b >= SIGN then b - SIGN else b;
  }
}
