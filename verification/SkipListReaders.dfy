/**
 MultiLevelSkipListReader: skipping through the levels lands where a scan of level 0 alone would.
 */
module SkipListReaders {
  import opened Quotients
  import opened SkipLists
  import opened SkipListWriters

  const INT_MAX := 0x7FFF_FFFF

  function Mul(x: nat, y: nat): nat { x * y }

  predicate Rising(l: seq<nat>) {
    (forall i, j :: 0 <= i < j < |l| ==> l[i] <= l[j]) && forall i :: 0 <= i < |l| ==> l[i] < INT_MAX
  }

  /** The document of the `c`-th entry of a level: 0 before the first, INT_MAX after the last. */
  function DocOf(l: seq<nat>, c: nat): int { if c == 0 then 0 else if c <= |l| then l[c - 1] else INT_MAX }

  /** The scan of one level: on from entry `c` until the entry is not before the target. */
  function Scan(l: seq<nat>, c: nat, target: int): nat
    decreases |l| + 1 - c
  {
    if c > |l| || target <= DocOf(l, c) then c else Scan(l, c + 1, target)
  }

  lemma {:induction false} ScanIs(l: seq<nat>, c: nat, c': nat, target: int)
    requires Rising(l) && c <= c' <= |l| + 1 && target <= DocOf(l, c') && (c' == c || DocOf(l, c' - 1) < target)
    ensures Scan(l, c, target) == c'
    decreases |l| + 1 - c
  {
    if c < c' {
      assert DocOf(l, c) <= DocOf(l, c' - 1);
      ScanIs(l, c + 1, c', target);
    }
  }

  lemma {:induction false} RisingLevel(docs: seq<nat>, interval: nat, i: nat)
    requires interval >= 2 && Rising(docs)
    ensures Rising(Level(docs, interval, i))
  {
    if i > 0 {
      RisingLevel(docs, interval, i - 1);
      var l, t := Level(docs, interval, i - 1), Level(docs, interval, i);
      forall a, b | 0 <= a <= b < |t| ensures t[a] <= t[b] < INT_MAX {
        ThinAt(l, interval, a);
        ThinAt(l, interval, b);
        MulMono(interval, a + 1, b + 1);
        assert Below(interval, a) == interval * (a + 1) - 1 && Below(interval, b) == interval * (b + 1) - 1;
      }
    }
  }

  /** Entry `c` of a level is entry `c * interval` of the level below. */
  lemma DocBelow(docs: seq<nat>, interval: nat, i: nat, c: nat)
    requires interval >= 2 && i > 0 && c <= |Level(docs, interval, i)|
    ensures Mul(c, interval) <= |Level(docs, interval, i - 1)| && (c > 0 ==> Mul(c, interval) > 0)
    ensures DocOf(Level(docs, interval, i), c) == DocOf(Level(docs, interval, i - 1), Mul(c, interval))
  {
    if c > 0 {
      ThinAt(Level(docs, interval, i - 1), interval, c - 1);
      assert Below(interval, c - 1) == c * interval - 1;
      MulMono(interval, 1, c);
      assert interval * c == c * interval;
    } else {
      assert 0 * interval == 0;
    }
  }

  // ---------- the file ----------

  /** Each level lies at its base, the higher ones first. */
  ghost predicate LaidOut(stream: seq<int>, bases: seq<int>, docs: seq<nat>, interval: nat)
    requires interval >= 2
  {
    && (forall i :: 0 <= i < |bases| ==>
          0 <= bases[i] && bases[i] + |Buffer(docs, interval, i)| <= |stream|
          && stream[bases[i]..bases[i] + |Buffer(docs, interval, i)|] == Buffer(docs, interval, i))
    && forall i :: 0 < i < |bases| ==> bases[i] + |Buffer(docs, interval, i)| <= bases[i - 1]
  }

  /** Reading an entry from its place. */
  lemma EntryAt(stream: seq<int>, bases: seq<int>, docs: seq<nat>, interval: nat, i: nat, j: nat)
    requires interval >= 2 && LaidOut(stream, bases, docs, interval) && i < |bases| && j < |Level(docs, interval, i)|
    ensures var l := Level(docs, interval, i); var p := bases[i] + Width(i) * j;
      && 0 <= p && p + Width(i) <= bases[i] + Width(i) * |l| <= |stream|
      && stream[p] == DocOf(l, j + 1) - DocOf(l, j)
      && (i > 0 ==> stream[p + 1] == ChildPos(interval, i, j))
  {
    hide Level, Tokens, ChildPos;
    var l := Level(docs, interval, i);
    var b := Buffer(docs, interval, i);
    TokenAt(l, interval, i, |l|, j);
    if i == 0 {
      SliceAt(stream, b, bases[i], j);
    } else {
      SliceAt(stream, b, bases[i], 2 * j);
      SliceAt(stream, b, bases[i], 2 * j + 1);
    }
  }

  lemma SliceAt(s: seq<int>, b: seq<int>, off: nat, k: nat)
    requires off + |b| <= |s| && s[off..off + |b|] == b && k < |b|
    ensures s[off + k] == b[k]
  {
    assert s[off..off + |b|][k] == s[off + k];
  }

  /** What the reader is to hold for a level that stands on its `c`-th entry. */
  datatype LevelState = LevelState(numSkipped: int, skipDoc: int, childPointer: int, pos: int)

  function Read(l: seq<nat>, c: nat): nat { if c <= |l| then c else |l| }

  function Pointer(bases: seq<int>, interval: nat, i: nat, c: nat): int
    requires interval >= 2 && i < |bases|
  {
    if i == 0 || c == 0 then 0 else bases[i - 1] + ChildPos(interval, i, c - 1)
  }

  function Standing(bases: seq<int>, docs: seq<nat>, interval: nat, i: nat, c: nat): LevelState
    requires interval >= 2 && i < |bases|
  {
    var l := Level(docs, interval, i);
    LevelState(Mul(c, Pow(interval, i + 1)), DocOf(l, c), Pointer(bases, interval, i, Read(l, c)),
        bases[i] + Width(i) * Read(l, c))
  }

  /** The levels above those in use take no room in the file. */
  lemma {:induction false} FileTop(buffers: seq<seq<int>>, top: nat, used: nat)
    requires used <= top < |buffers| && forall i :: used < i <= top ==> buffers[i] == []
    ensures File(buffers, top) == File(buffers, used)
  {
    if used < top {
      FileTop(buffers, top - 1, used);
      assert [] + File(buffers, top - 1) == File(buffers, top - 1);
    }
  }

  /** The file from a level on starts with the level's length, its numbers, and the levels below. */
  lemma FileHead(stream: seq<int>, p: nat, buffers: seq<seq<int>>, level: nat)
    requires 0 < level < |buffers| && buffers[level] != []
    requires p + |File(buffers, level)| <= |stream| && stream[p..p + |File(buffers, level)|] == File(buffers, level)
    ensures var n := |buffers[level]|; var q := p + 1 + n;
      && p + 1 + n + |File(buffers, level - 1)| <= |stream| && stream[p] == n && stream[p + 1..q] == buffers[level]
      && stream[q..q + |File(buffers, level - 1)|] == File(buffers, level - 1)
  {
    var f, n, rest := File(buffers, level), |buffers[level]|, File(buffers, level - 1);
    assert f == [n] + buffers[level] + rest;
    SliceAt(stream, f, p, 0);
    SubSlice(stream, f, p, 1, 1 + n);
    SubSlice(stream, f, p, 1 + n, |f|);
    assert f[1..1 + n] == buffers[level] && f[1 + n..] == rest;
  }

  lemma SubSlice(s: seq<int>, f: seq<int>, p: nat, a: nat, b: nat)
    requires p + |f| <= |s| && s[p..p + |f|] == f && a <= b <= |f|
    ensures s[p + a..p + b] == f[a..b]
  {
    var x, y := s[p + a..p + b], f[a..b];
    forall k | 0 <= k < b - a ensures x[k] == y[k] { assert s[p..p + |f|][a + k] == s[p + a + k]; }
  }

  /** What a writer left at a place of the stream, for documents counted to `df`. */
  ghost predicate Written(stream: seq<int>, start: nat, docs: seq<nat>, interval: nat, df: nat, buffers: seq<seq<int>>)
    requires interval >= 2
  {
    && Rising(docs) && |docs| == df / interval && 1 <= |buffers| && FloorLog(interval, df) <= |buffers|
    && (forall i :: 0 <= i < |buffers| ==> buffers[i] == Buffer(docs, interval, i))
    && start + |File(buffers, |buffers| - 1)| <= |stream|
    && stream[start..start + |File(buffers, |buffers| - 1)|] == File(buffers, |buffers| - 1)
  }

  lemma WrittenUsed(stream: seq<int>, start: nat, docs: seq<nat>, interval: nat, df: nat, buffers: seq<seq<int>>)
    requires interval >= 2 && Written(stream, start, docs, interval, df, buffers)
    ensures var used := FloorLog(interval, df); var top := if used == 0 then 0 else used - 1;
      && top < |buffers| && FileAt(stream, start, buffers, top) && forall i :: 0 <= i < used ==> buffers[i] != []
  {
    hide File, Buffer, Level;
    var used := FloorLog(interval, df);
    forall i | 0 <= i < |buffers| ensures buffers[i] == [] <==> i >= used { BufferUsed(docs, interval, df, i); }
    FileTop(buffers, |buffers| - 1, if used == 0 then 0 else used - 1);
  }

  lemma BufferUsed(docs: seq<nat>, interval: nat, df: nat, i: nat)
    requires interval >= 2 && |docs| == df / interval
    ensures Buffer(docs, interval, i) == [] <==> i >= FloorLog(interval, df)
  {
    LevelsUsed(docs, interval, df, i);
    assert |Buffer(docs, interval, i)| == Width(i) * |Level(docs, interval, i)|;
  }

  /** Where the writer put the levels up to `top`, in a file that starts at `p`. */
  function WrittenAt(p: int, buffers: seq<seq<int>>, top: nat): (bases: seq<int>)
    requires top < |buffers|
    ensures |bases| == top + 1
    decreases top
  {
    if top == 0 then [p] else WrittenAt(p + 1 + |buffers[top]|, buffers, top - 1) + [p + 1]
  }

  /** Where a reader of levels up to `top` takes them to be: loadSkipLevels, from the lengths it reads. */
  function FoundAt(stream: seq<int>, p: int, top: nat): (bases: seq<int>)
    ensures |bases| == top + 1
    decreases top
  {
    if top == 0 then [p]
    else FoundAt(stream, p + 1 + (if 0 <= p < |stream| then stream[p] else 0), top - 1) + [p + 1]
  }

  /** The file from level `top` on lies at `p`. */
  ghost predicate FileAt(stream: seq<int>, p: int, buffers: seq<seq<int>>, top: nat)
    requires top < |buffers|
  {
    0 <= p && p + |File(buffers, top)| <= |stream| && stream[p..p + |File(buffers, top)|] == File(buffers, top)
  }

  /** Each level lies where it was put, and a higher one before a lower one. */
  lemma {:induction false} WrittenLies(stream: seq<int>, p: int, buffers: seq<seq<int>>, top: nat)
    requires top < |buffers| && FileAt(stream, p, buffers, top) && forall i :: 0 < i <= top ==> buffers[i] != []
    ensures var b := WrittenAt(p, buffers, top);
      && (forall i :: 0 <= i <= top ==>
            p <= b[i] && b[i] + |buffers[i]| <= |stream| && stream[b[i]..b[i] + |buffers[i]|] == buffers[i])
      && (forall i :: 0 < i <= top ==> p < b[i] && b[i] + |buffers[i]| <= b[i - 1])
    decreases top
  {
    if top > 0 {
      FileHead(stream, p, buffers, top);
      WrittenLies(stream, p + 1 + |buffers[top]|, buffers, top - 1);
    } else {
      OnlyLowest(buffers);
    }
  }

  lemma {:induction false} HigherBefore(p: int, buffers: seq<seq<int>>, top: nat, i: nat, j: nat)
    requires i < j <= top < |buffers| && buffers[j] != []
    ensures WrittenAt(p, buffers, top)[j] < WrittenAt(p, buffers, top)[i]
    decreases top
  {
    if j < top {
      HigherBefore(p + 1 + |buffers[top]|, buffers, top - 1, i, j);
    } else {
      WrittenFrom(p + 1 + |buffers[top]|, buffers, top - 1, i);
    }
  }

  lemma {:induction false} WrittenFrom(p: int, buffers: seq<seq<int>>, top: nat, i: nat)
    requires i <= top < |buffers|
    ensures p <= WrittenAt(p, buffers, top)[i] && (0 < i ==> p < WrittenAt(p, buffers, top)[i])
    ensures i < top ==> p < WrittenAt(p, buffers, top)[i]
    decreases top
  {
    if i < top { WrittenFrom(p + 1 + |buffers[top]|, buffers, top - 1, i); }
  }

  /** A reader of fewer levels takes the highest for its own highest, and so on down: each level is found where a higher
      one lies, the lowest where the length of one stands. */
  lemma {:induction false} FoundShifted(stream: seq<int>, p: int, buffers: seq<seq<int>>, top: nat, size: nat)
    requires size <= top < |buffers| && FileAt(stream, p, buffers, top) && forall i :: 0 < i <= top ==> buffers[i] != []
    ensures var f, b := FoundAt(stream, p, size), WrittenAt(p, buffers, top);
      && (forall i :: 0 < i <= size ==> f[i] == b[i + top - size])
         && f[0] == b[top - size] - if size < top then 1 else 0
    decreases top
  {
    if size > 0 {
      FileHead(stream, p, buffers, top);
      FoundShifted(stream, p + 1 + |buffers[top]|, buffers, top - 1, size - 1);
    }
  }

  /** How many levels a reader reads, at least the lowest. */
  function LevelsRead(interval: nat, df: nat, maxSkipLevels: nat): nat
    requires interval >= 2
  {
    var n := if FloorLog(interval, df) > maxSkipLevels then maxSkipLevels else FloorLog(interval, df);
    if n == 0 then 1 else n
  }

  /** The reader finds a level where the writer put it if and only if the levels in use are within the maximum: the
      writer does not keep to it.  Beyond the maximum no level is found in its place. */
  lemma FoundIffWithin(stream: seq<int>, start: nat, docs: seq<nat>, interval: nat, df: nat, buffers: seq<seq<int>>,
                       maxSkipLevels: nat,
                       level: nat)
    requires interval >= 2 && Written(stream, start, docs, interval, df, buffers) && maxSkipLevels >= 1
    requires level < LevelsRead(interval, df, maxSkipLevels)
    ensures var used := FloorLog(interval, df); var top := if used == 0 then 0 else used - 1;
      && LevelsRead(interval, df, maxSkipLevels) - 1 <= top < |buffers|
      && (used <= maxSkipLevels <==>
            FoundAt(stream, start, LevelsRead(interval, df, maxSkipLevels) - 1)[level]
            == WrittenAt(start, buffers, top)[level])
  {
    hide File, FloorLog, Buffer, WrittenAt, FoundAt;
    var used, size := FloorLog(interval, df), LevelsRead(interval, df, maxSkipLevels) - 1;
    var top := if used == 0 then 0 else used - 1;
    WrittenUsed(stream, start, docs, interval, df, buffers);
    FoundShifted(stream, start, buffers, top, size);
    if size < top { HigherBefore(start, buffers, top, level, level + top - size); }
  }

  /** Four postings, an entry for every two: there are two levels, and a reader of one takes the length of the upper
      level for the first entry of the lower. */
  lemma CapExample()
    ensures var docs, buffers := [3, 5], [[3, 2], [5, 2]];
      && Written([2, 5, 2, 3, 2], 0, docs, 2, 4, buffers) && FloorLog(2, 4) == 2
      && FoundAt([2, 5, 2, 3, 2], 0, LevelsRead(2, 4, 1) - 1) == [0] && WrittenAt(0, buffers, 1) == [3, 1]
  {
    var docs: seq<nat>, stream, buffers := [3, 5], [2, 5, 2, 3, 2], [[3, 2], [5, 2]];
    assert Level(docs, 2, 0) == docs;
    assert docs[2..] == [];
    assert Thin(docs, 2) == [5] + Thin(docs[2..], 2) == [5];
    assert Level(docs, 2, 1) == [5];
    assert Tokens(docs, 2, 0, 1) == [3] && Tokens(docs, 2, 0, 2) == [3, 2];
    assert Buffer(docs, 2, 0) == [3, 2];
    assert Tokens([5], 2, 1, 0) == [] && Entry([5], 2, 1, 0) == [5, 2];
    assert Buffer(docs, 2, 1) == [5, 2];
    assert File(buffers, 0) == [3, 2];
    assert File(buffers, 1) == stream;
    assert stream[0..5] == stream;
    assert FloorLog(2, 1) == 0 && FloorLog(2, 2) == 1;
  }

  lemma {:induction false} LogBelow(interval: nat, n: nat, k: nat)
    requires interval >= 2 && n < Pow(interval, k + 1)
    ensures FloorLog(interval, n) <= k
    decreases k
  {
    if k > 0 && n >= interval {
      Shrinks(n, interval);
      assert Pow(interval, k + 1) == interval * Pow(interval, k);
      Rest(n, interval);
      if n / interval >= Pow(interval, k) { MulMono(interval, Pow(interval, k), n / interval); }
      LogBelow(interval, n / interval, k - 1);
    } else if k == 0 {
      assert Pow(interval, 1) == interval * Pow(interval, 0) == interval;
    }
  }

  const SKIP_INTERVAL := 16
  const MAX_SKIP_LEVELS := 10

  /** With the interval and the maximum that terms are written with, no 32-bit document count has more levels than
      seven. */
  lemma WithinWhenWritten(df: nat)
    requires df <= INT_MAX
    ensures FloorLog(SKIP_INTERVAL, df) <= 7 <= MAX_SKIP_LEVELS
  {
    assert Pow(16, 4) == 0x1_0000 by { assert Pow(16, 2) == 0x100; }
    assert Pow(16, 8) == 0x1_0000_0000 by { assert Pow(16, 6) == 0x100_0000; }
    LogBelow(SKIP_INTERVAL, df, 7);
  }

  lemma TopIsShort(docs: seq<nat>, interval: nat, df: nat)
    requires interval >= 2 && |docs| == df / interval
    ensures var used := FloorLog(interval, df); |Level(docs, interval, if used == 0 then 0 else used - 1)| < interval
  {
    var used := FloorLog(interval, df);
    LevelsUsed(docs, interval, df, used);
    if used > 0 {
      var l := Level(docs, interval, used - 1);
      ThinCount(l, interval);
      Shrinks(|l|, interval);
    }
  }

  lemma NotStarted(bases: seq<int>, docs: seq<nat>, interval: nat, i: nat)
    requires interval >= 2 && i < |bases|
    ensures Standing(bases, docs, interval, i, 0) == LevelState(0, 0, 0, bases[i])
  {
  }

  lemma FileStarts(stream: seq<int>, p: nat, buffers: seq<seq<int>>, level: nat)
    requires 0 < level < |buffers| && buffers[level] != [] && FileAt(stream, p, buffers, level)
    ensures p < |stream| && stream[p] == |buffers[level]| && FileAt(stream, p + 1 + stream[p], buffers, level - 1)
  {
    FileHead(stream, p, buffers, level);
  }

  lemma FoundLies(stream: seq<int>, start: nat, docs: seq<nat>, interval: nat, df: nat, buffers: seq<seq<int>>)
    requires interval >= 2 && Written(stream, start, docs, interval, df, buffers)
    ensures var used := FloorLog(interval, df);
      LaidOut(stream, FoundAt(stream, start, if used == 0 then 0 else used - 1), docs, interval)
  {
    hide File, FloorLog, Buffer;
    var used := FloorLog(interval, df);
    var top := if used == 0 then 0 else used - 1;
    WrittenUsed(stream, start, docs, interval, df, buffers);
    FoundShifted(stream, start, buffers, top, top);
    WrittenLies(stream, start, buffers, top);
    assert forall i :: 0 <= i <= top ==> buffers[i] == Buffer(docs, interval, i);
  }

  class MultiLevelSkipListReader {
    const stream: seq<int>
    const interval: nat
    const maxNumberOfSkipLevels: nat
    const docCount: nat
    ghost const docs: seq<nat>
    var skipPointer: seq<int>
    var levels: seq<LevelState>
    var numberOfSkipLevels: nat
    var lastDoc: int
    var lastChildPointer: int
    ghost var at: seq<nat>
    /** How many entries have been read on each level. */
    ghost var loads: seq<nat>

    /** The levels stand on the entries `at`; what is not exhausted is in order. */
    ghost predicate Valid()
      reads this
    {
      && interval >= 2 && Rising(docs) && |docs| == docCount / interval && LaidOut(stream, skipPointer, docs, interval)
      && |levels| == |at| == |loads| == |skipPointer| >= 1 && numberOfSkipLevels <= |levels|
      && (forall i :: 0 <= i < |at| ==> Stands(i))
      && (forall i :: 0 <= i < numberOfSkipLevels ==> at[i] <= |L(i)|)
      && (forall i :: 0 < i < numberOfSkipLevels ==> at[i - 1] <= Mul(at[i], interval))
    }

    /** init and loadSkipLevels.  The reader keeps to the maximum; so must have the writer. */
    constructor (stream: seq<int>, maxSkipLevels: nat, interval: nat, start: nat, df: nat,
                 ghost docs: seq<nat>, ghost buffers: seq<seq<int>>)
      requires interval >= 2 && maxSkipLevels >= 1 && Written(stream, start, docs, interval, df, buffers)
      requires FloorLog(interval, df) <= maxSkipLevels
      ensures Valid() && this.docs == docs && this.interval == interval && docCount == df
      ensures Fresh()
      ensures numberOfSkipLevels == FloorLog(interval, df)
              && |levels| == if numberOfSkipLevels == 0 then 1 else numberOfSkipLevels
    {
      hide File, Buffer, Level, LaidOut;
      var n := if df == 0 then 0 else FloorLog(interval, df);
      if n > maxSkipLevels { n := maxSkipLevels; }
      this.stream, this.interval, maxNumberOfSkipLevels, docCount, this.docs := stream, interval, maxSkipLevels, df,
          docs;
      numberOfSkipLevels, lastDoc, lastChildPointer := n, 0, 0;
      var bases := LoadSkipLevels(stream, interval, start, df, n, docs, buffers);
      skipPointer := bases;
      levels := seq(|bases|, j requires 0 <= j < |bases| => LevelState(0, 0, 0, bases[j]));
      at := seq(|bases|, _ => 0);
      loads := seq(|bases|, _ => 0);
      new;
      forall j | 0 <= j < |at| ensures Stands(j) { NotStarted(skipPointer, docs, interval, j); }
      forall j | 0 < j < |at| ensures at[j - 1] <= Mul(at[j], interval) {}
      TopIsShort(docs, interval, df);
    }

    /** Where each level starts, from the lengths in the file. */
    static method LoadSkipLevels(stream: seq<int>, interval: nat, start: nat, df: nat, n: nat,
                                 ghost docs: seq<nat>, ghost buffers: seq<seq<int>>)
      returns (bases: seq<int>)
      requires interval >= 2 && Written(stream, start, docs, interval, df, buffers) && n <= FloorLog(interval, df)
      ensures bases == FoundAt(stream, start, if n == 0 then 0 else n - 1)
      ensures n == FloorLog(interval, df) ==> LaidOut(stream, bases, docs, interval)
    {
      hide File, Buffer, Level, FloorLog, FileAt, LaidOut, Written;
      var size := if n == 0 then 1 else n;
      WrittenUsed(stream, start, docs, interval, df, buffers);
      bases := seq(size, _ => 0);
      var p: nat := start;
      var i := size - 1;
      ghost var used := FloorLog(interval, df);
      ghost var more := if used == 0 then 0 else used - size;
      while i > 0
        invariant 0 <= i < size == |bases| && i + more < |buffers| && FileAt(stream, p, buffers, i + more)
        invariant FoundAt(stream, start, size - 1) == FoundAt(stream, p, i) + bases[i + 1..]
      {
        FileStarts(stream, p, buffers, i + more);
        var length := stream[p];
        bases := bases[i := p + 1];
        p := p + 1 + length;
        i := i - 1;
      }
      bases := bases[0 := p];
      if n == used { FoundLies(stream, start, docs, interval, df, buffers); }
    }

    ghost function L(i: nat): seq<nat>
      requires interval >= 2
    {
      Level(docs, interval, i)
    }

    ghost predicate Stands(i: nat)
      requires interval >= 2 && |levels| == |at| == |skipPointer| && i < |at|
      reads this
    {
      at[i] <= |L(i)| + 1 && levels[i] == Standing(skipPointer, docs, interval, i, at[i])
    }

    /** skipInterval[level]. */
    function SkipInterval(level: nat): nat { Pow(interval, level + 1) }

    lemma CountOf(i: nat)
      requires interval >= 2 && |docs| == docCount / interval
      ensures Pow(interval, i + 1) >= 1 && |L(i)| == docCount / Pow(interval, i + 1)
    {
      LevelCount(docs, interval, docCount, i);
    }

    method SetLastSkipData(level: nat)
      requires level < |levels|
      modifies this`lastDoc, this`lastChildPointer
      ensures lastDoc == levels[level].skipDoc && lastChildPointer == levels[level].childPointer
    {
      lastDoc := levels[level].skipDoc;
      lastChildPointer := levels[level].childPointer;
    }

    /** The level moves on by one entry, or is found to be exhausted. */
    method LoadNextSkip(level: nat) returns (more: bool)
      requires interval >= 2 && |docs| == docCount / interval && LaidOut(stream, skipPointer, docs, interval)
      requires |levels| == |at| == |loads| == |skipPointer| && level < |levels| && Stands(level)
               && at[level] <= |L(level)|
      modifies this`levels, this`at, this`numberOfSkipLevels, this`lastDoc, this`lastChildPointer, this`loads
      ensures at == old(at)[level := old(at[level]) + 1] && |levels| == |at| && Stands(level)
      ensures loads == old(loads)[level := old(loads)[level] + 1]
      ensures forall i :: 0 <= i < |levels| && i != level ==> levels[i] == old(levels[i])
      ensures lastDoc == DocOf(L(level), old(at[level]))
              && lastChildPointer == Pointer(skipPointer, interval, level, old(at[level]))
      ensures more <==> at[level] <= |L(level)|
      ensures numberOfSkipLevels == if !more && old(numberOfSkipLevels) > level then level else old(numberOfSkipLevels)
    {
      hide Mul, Pow, Level, ChildPos, LaidOut;
      SetLastSkipData(level);
      ghost var c := at[level];
      NextCount(level, c);
      var s := levels[level].(numSkipped := levels[level].numSkipped + SkipInterval(level));
      at := at[level := c + 1];
      loads := loads[level := loads[level] + 1];
      if s.numSkipped > docCount {
        levels := levels[level := s.(skipDoc := INT_MAX)];
        if numberOfSkipLevels > level { numberOfSkipLevels := level; }
        return false;
      }
      EntryAt(stream, skipPointer, docs, interval, level, c);
      s := s.(skipDoc := s.skipDoc + stream[s.pos], pos := s.pos + 1);
      if level != 0 {
        s := s.(childPointer := stream[s.pos] + skipPointer[level - 1], pos := s.pos + 1);
      }
      levels := levels[level := s];
      return true;
    }

    /** The count after one more entry, and whether there is one. */
    lemma NextCount(level: nat, c: nat)
      requires interval >= 2 && |docs| == docCount / interval
      ensures Mul(c, SkipInterval(level)) + SkipInterval(level) == Mul(c + 1, SkipInterval(level))
      ensures Mul(c + 1, SkipInterval(level)) > docCount <==> c + 1 > |L(level)|
    {
      var p := Pow(interval, level + 1);
      CountOf(level);
      Rest(docCount, p);
      MulMono(p, c + 1, |L(level)|);
      MulStep(p, |L(level)|, c + 1);
      assert p * (c + 1) == (c + 1) * p;
    }

    /** The level below goes to the entry that the last one read above points to. */
    method SeekChild(level: nat)
      requires interval >= 2 && LaidOut(stream, skipPointer, docs, interval)
      requires |levels| == |at| == |skipPointer| && level + 1 < |levels| && Stands(level) && Stands(level + 1)
      requires 2 <= at[level + 1]
      requires lastDoc == DocOf(L(level + 1), at[level + 1] - 1)
      requires lastChildPointer == Pointer(skipPointer, interval, level + 1, at[level + 1] - 1)
      modifies this`levels, this`at
      ensures at == old(at)[level := Mul(old(at[level + 1]) - 1, interval)] && |levels| == |at| && Stands(level)
      ensures at[level] <= |L(level)| && DocOf(L(level), at[level]) == lastDoc
      ensures forall i :: 0 <= i < |levels| && i != level ==> levels[i] == old(levels[i])
    {
      hide Mul, Pow, Level, ChildPos, LaidOut;
      ghost var c := at[level + 1] - 1;
      DocBelow(docs, interval, level + 1, c);
      ChildEntry(level, c);
      var s := levels[level].(pos := lastChildPointer,
          numSkipped := levels[level + 1].numSkipped - SkipInterval(level + 1), skipDoc := lastDoc);
      at := at[level := Mul(c, interval)];
      if level > 0 {
        EntryAt(stream, skipPointer, docs, interval, level, Mul(c, interval) - 1);
        s := s.(childPointer := stream[s.pos] + skipPointer[level - 1], pos := s.pos + 1);
      }
      levels := levels[level := s];
    }

    lemma ChildEntry(level: nat, c: nat)
      requires interval >= 2 && 1 <= c
      ensures Mul(c + 1, SkipInterval(level + 1)) - SkipInterval(level + 1) ==
              Mul(Mul(c, interval), SkipInterval(level))
      ensures ChildPos(interval, level + 1, c - 1) == if level == 0 then Mul(c, interval) else 2 * Mul(c, interval) - 1
      ensures Mul(c, interval) >= 1
    {
      var p := Pow(interval, level + 1);
      assert Pow(interval, level + 2) == interval * p;
      assert (c + 1) * (interval * p) == c * (interval * p) + interval * p;
      assert c * (interval * p) == c * interval * p;
      MulMono(interval, 1, c);
      assert interval * c == c * interval;
    }

    lemma DocMono(i: nat, a: nat, b: nat)
      requires interval >= 2 && Rising(docs)
      ensures a <= b <= |L(i)| + 1 ==> DocOf(L(i), a) <= DocOf(L(i), b)
    {
      RisingLevel(docs, interval, i);
    }

    /** A level that is not exhausted stands at or beyond the one below. */
    lemma InOrder(i: nat)
      requires Valid() && 0 < i < numberOfSkipLevels
      ensures levels[i - 1].skipDoc <= levels[i].skipDoc
    {
      assert Stands(i - 1) && Stands(i);
      DocBelow(docs, interval, i, at[i]);
      DocMono(i - 1, at[i - 1], Mul(at[i], interval));
    }

    /** The entry that the last step on a level left behind. */
    ghost predicate LastIs(level: nat)
      requires interval >= 2 && level < |at| && |at| <= |skipPointer|
      reads this
    {
      && at[level] >= 1 && lastDoc == DocOf(L(level), at[level] - 1)
      && lastChildPointer == Pointer(skipPointer, interval, level, at[level] - 1)
    }

    /** What holds of the levels around `level` while the reader comes down to a target. */
    ghost predicate Down(level: nat, target: int)
      requires |levels| >= numberOfSkipLevels && level < |levels|
      reads this
    {
      && (level + 1 < numberOfSkipLevels ==> target <= levels[level + 1].skipDoc)
      && forall i :: 0 <= i < level ==> levels[i].skipDoc < target
    }

    /** Walks up to the highest level that still has entries before the target. */
    method FindLevel(target: int) returns (level: nat)
      requires Valid()
      ensures level < |levels| && Down(level, target) && (level > 0 ==> levels[level].skipDoc < target)
    {
      level := 0;
      while level + 1 < numberOfSkipLevels && target > levels[level + 1].skipDoc
        invariant level < |levels| && (level > 0 ==> level < numberOfSkipLevels && levels[level].skipDoc < target)
        invariant forall i :: 0 <= i < level ==> levels[i].skipDoc < target
        decreases numberOfSkipLevels - level
      {
        InOrder(level + 1);
        level := level + 1;
      }
    }

    /** One entry further on a level that stands before the target. */
    method StepOn(level: nat, target: int)
      requires Valid() && level < |levels| && Down(level, target) && levels[level].skipDoc < target <= INT_MAX
      modifies this`levels, this`at, this`numberOfSkipLevels, this`lastDoc, this`lastChildPointer, this`loads
      ensures loads == old(loads)[level := old(loads)[level] + 1]
      ensures Valid() && |levels| == |old(levels)| && Down(level, target) && LastIs(level) && lastDoc < target
      ensures at == old(at)[level := old(at[level]) + 1] && skipPointer == old(skipPointer)
      ensures numberOfSkipLevels == if at[level] > |L(level)| && old(numberOfSkipLevels) > level then level
                else old(numberOfSkipLevels)
    {
      hide Mul, Level, ChildPos, LaidOut, Rising, Pow, Pointer, Standing;
      StandsAt(level);
      if level + 1 < numberOfSkipLevels { NotBeyond(level, target); }
      Exhausting(level);
      label Before:
      var _ := LoadNextSkip(level);
      StepKept@Before(level);
    }

    /** After the step the levels are in order as before. */
    twostate lemma StepKept(level: nat)
      requires old(Valid()) && level < |old(levels)| && old(at[level]) <= |L(level)|
      requires skipPointer == old(skipPointer) && |levels| == |at| == |loads|
      requires at == old(at)[level := old(at[level]) + 1] && Stands(level)
      requires forall i :: 0 <= i < |levels| && i != level ==> levels[i] == old(levels[i])
      requires numberOfSkipLevels == if at[level] > |L(level)| && old(numberOfSkipLevels) > level then level
                 else old(numberOfSkipLevels)
      requires level + 1 < old(numberOfSkipLevels) ==> at[level] <= Mul(at[level + 1], interval)
      ensures Valid()
    {
      hide Mul, Level, LaidOut, Rising, Pow, Pointer, Standing;
      forall i | 0 <= i < |at| ensures Stands(i) {
        if i != level { assert old(Stands(i)); }
      }
      Kept(level, old(at), at);
    }

    lemma StandsAt(i: nat)
      requires interval >= 2 && |levels| == |at| == |skipPointer| && i < |at| && Stands(i)
      ensures levels[i].skipDoc == DocOf(L(i), at[i]) && at[i] <= |L(i)| + 1
    {
    }

    lemma Exhausting(level: nat)
      requires Valid() && level < |levels| && levels[level].skipDoc < INT_MAX
      ensures at[level] <= |L(level)|
    {
      assert Stands(level);
    }

    /** The next entry is not beyond the one the level above stands on. */
    lemma NotBeyond(level: nat, target: int)
      requires Valid() && level + 1 < numberOfSkipLevels && levels[level].skipDoc < target <= levels[level + 1].skipDoc
      ensures at[level] + 1 <= Mul(at[level + 1], interval)
    {
      assert Stands(level) && Stands(level + 1);
      DocBelow(docs, interval, level + 1, at[level + 1]);
      DocMono(level, Mul(at[level + 1], interval), at[level]);
    }

    /** The order of the levels survives a step of one of them. */
    lemma Kept(level: nat, was: seq<nat>, now: seq<nat>)
      requires level < |was| && now == was[level := was[level] + 1]
      ensures forall i :: 0 < i < |was| && was[i - 1] <= Mul(was[i], interval) && i - 1 != level ==>
                now[i - 1] <= Mul(now[i], interval)
    {
      forall i | 0 < i < |was| && was[i - 1] <= Mul(was[i], interval) && i - 1 != level
        ensures now[i - 1] <= Mul(now[i], interval) {
        if i == level {
          MulMono(interval, was[i], now[i]);
          assert interval * was[i] == was[i] * interval && interval * now[i] == now[i] * interval;
        }
      }
    }

    /** Goes down one level, to the child of the entry left behind if that lies further on. */
    method GoDown(level: nat, target: int)
      requires Valid() && 0 < level < |levels| && Down(level, target) && LastIs(level)
               && lastDoc < target <= levels[level].skipDoc
      requires target <= INT_MAX
      modifies this`levels, this`at
      ensures Valid() && |levels| == |old(levels)| && Down(level - 1, target) && levels[level - 1].skipDoc < target
      ensures at[0] >= old(at[0]) && (level - 1 > 0 ==> at[0] == old(at[0])) && |at| == |old(at)|
      ensures numberOfSkipLevels == old(numberOfSkipLevels)
      ensures at[level] == old(at)[level] >= 1
      ensures at[level - 1] == (if Mul(at[level] - 1, interval) > old(at[level - 1]) then Mul(at[level] - 1, interval)
                else old(at[level - 1]))
      ensures forall i :: 0 <= i < |at| && i != level - 1 ==> at[i] == old(at)[i]
    {
      hide Mul, Level, ChildPos, LaidOut, Rising, Pow;
      assert Stands(level) && Stands(level - 1);
      Exhausting(level - 1);
      ChildAhead(level);
      if lastChildPointer > levels[level - 1].pos {
        SeekChild(level - 1);
        forall i | 0 <= i < |at| ensures Stands(i) {
          if i != level - 1 { assert old(Stands(i)); }
        }
        ChildKept(level, old(at), at);
      }
    }

    /** The child pointer leads further on exactly when the child entry is further on. */
    lemma ChildAhead(level: nat)
      requires Valid() && 0 < level < |levels| && LastIs(level) && at[level - 1] <= |L(level - 1)|
      ensures lastChildPointer > levels[level - 1].pos <==> Mul(at[level] - 1, interval) > at[level - 1]
      ensures lastChildPointer > levels[level - 1].pos ==> at[level] >= 2
    {
      hide Mul, Level, ChildPos, Rising, Pow;
      assert Stands(level) && Stands(level - 1);
      assert skipPointer[level - 1] >= 0;
      if at[level] >= 2 { ChildEntry(level - 1, at[level] - 1); } else { NoTimes(interval); }
      assert levels[level - 1].pos == skipPointer[level - 1] + Width(level - 1) * at[level - 1];
      assert lastChildPointer == if at[level] == 1 then 0
          else skipPointer[level - 1] + ChildPos(interval, level, at[level] - 2);
      hide Stands, Standing, Pointer, LaidOut;
    }

    lemma NoTimes(x: nat)
      ensures Mul(0, x) == 0
    {
    }

    lemma ChildKept(level: nat, was: seq<nat>, now: seq<nat>)
      requires 0 < level < |was| && was[level] >= 2 && now == was[level - 1 := Mul(was[level] - 1, interval)]
      requires now[level - 1] > was[level - 1]
      ensures forall i :: 0 < i < |was| && was[i - 1] <= Mul(was[i], interval) ==> now[i - 1] <= Mul(now[i], interval)
    {
      forall i | 0 < i < |was| && was[i - 1] <= Mul(was[i], interval) ensures now[i - 1] <= Mul(now[i], interval) {
        MulMono(interval, was[i], now[i]);
        MulMono(interval, was[level] - 1, was[level]);
        assert interval * was[i] == was[i] * interval && interval * now[i] == now[i] * interval;
        assert interval * (was[level] - 1) == (was[level] - 1) * interval
            && interval * was[level] == was[level] * interval;
      }
    }

    /** Whatever the targets before were, skipping lands on the entry of level 0 at which a scan of
        level 0 alone would have stopped, and remembers the entry before it. */
    method SkipTo(target: int) returns (count: int)
      requires Valid() && target <= INT_MAX
      modifies this`levels, this`at, this`numberOfSkipLevels, this`lastDoc, this`lastChildPointer, this`loads
      ensures Valid() && at[0] == Scan(docs, old(at)[0], target)
      ensures at[0] > old(at)[0] ==> lastDoc == DocOf(docs, at[0] - 1)
      ensures count == at[0] * interval - interval - 1
      ensures |loads| == |levels| == |old(loads)|
      ensures old(Fresh()) ==> forall i :: 0 <= i < |levels| ==> loads[i] - old(loads)[i] <= interval
    {
      hide Mul, Level, ChildPos, LaidOut, Rising, Pow, Fresh, OnLevel, Standing, Pointer, Down, LastIs, Counted;
      var level: int := FindLevel(target);
      ghost var loaded := false;
      ghost var anew := Fresh();
      ghost var was := loads;
      StartsCounted(level, anew, target);
      while level >= 0
        invariant Valid() && -1 <= level < |levels| == |old(levels)| && |at| == |old(at)|
        invariant level >= 0 ==> Down(level, target)
        invariant level >= 0 && loaded ==> LastIs(level) && lastDoc < target
        invariant level >= 0 && !loaded ==> levels[level].skipDoc < target || (level == 0 && at[0] == old(at)[0])
        invariant at[0] >= old(at)[0] && (level > 0 ==> at[0] == old(at)[0])
        invariant level == -1 ==> target <= levels[0].skipDoc
        invariant level == -1 ==> at[0] == old(at)[0] || (LastIs(0) && lastDoc < target)
        invariant Counted(was, level, anew, target)
        decreases level, if level >= 0 then |L(level)| + 1 - at[level] else 0
      {
        assert Stands(level);
        if target > levels[level].skipDoc {
          StepCounted(level, target, anew, was);
          loaded := true;
        } else {
          if level > 0 {
            DownCounted(level, target, anew, was);
            loaded := false;
          } else {
            LastCounted(was, anew, target);
          }
          level := level - 1;
        }
      }
      Landed(old(at)[0], target);
      AllCounted(was, anew, target);
      count := levels[0].numSkipped - SkipInterval(0) - 1;
    }

    /** What was read since `was`: nothing below the level, and if the reader was new, no more than an interval of
        entries on each level above. */
    ghost predicate Counted(was: seq<nat>, level: int, anew: bool, target: int)
      requires interval >= 2
      reads this
    {
      && |was| == |loads| == |at| <= |levels| && (forall i :: 0 <= i < level && i < |was| ==> loads[i] == was[i])
      && (anew && 0 <= level < |at| ==> Bounded(level, loads[level] as int - was[level] as int, target))
      && (anew ==> forall i :: 0 <= i < |was| && level < i ==> loads[i] - was[i] <= interval)
    }

    lemma StartsCounted(level: nat, anew: bool, target: int)
      requires Valid() && level < |levels| && Down(level, target) && (level > 0 ==> levels[level].skipDoc < target)
               && anew == Fresh()
      ensures Counted(loads, level, anew, target)
    {
      if anew { StartsBounded(level, target); }
    }

    lemma LastCounted(was: seq<nat>, anew: bool, target: int)
      requires Valid() && Counted(was, 0, anew, target)
      ensures Counted(was, -1, anew, target)
    {
      if anew { LevelDone(0, loads[0] as int - was[0] as int, target); }
    }

    lemma AllCounted(was: seq<nat>, anew: bool, target: int)
      requires interval >= 2 && Counted(was, -1, anew, target)
      ensures |was| == |loads| && (anew ==> forall i :: 0 <= i < |was| ==> loads[i] - was[i] <= interval)
    {
    }

    /** StepOn, counting. */
    method StepCounted(level: nat, target: int, ghost anew: bool, ghost was: seq<nat>)
      requires Valid() && level < |levels| && Down(level, target) && levels[level].skipDoc < target <= INT_MAX
      requires Counted(was, level, anew, target)
      modifies this`levels, this`at, this`numberOfSkipLevels, this`lastDoc, this`lastChildPointer, this`loads
      ensures Valid() && |levels| == |old(levels)| && Down(level, target) && LastIs(level) && lastDoc < target
      ensures at == old(at)[level := old(at[level]) + 1] && at[level] <= |L(level)| + 1
              && Counted(was, level, anew, target)
    {
      hide Mul, Level, ChildPos, LaidOut, Rising, Pow, OnLevel;
      assert Stands(level);
      Exhausting(level);
      if level + 1 < numberOfSkipLevels { NotBeyond(level, target); }
      ghost var stood, used, n := at, numberOfSkipLevels, loads[level] as int - was[level] as int;
      StepOn(level, target);
      if anew { OnLevelStep(stood, used, numberOfSkipLevels, level, n); }
    }

    /** GoDown, counting. */
    method DownCounted(level: nat, target: int, ghost anew: bool, ghost was: seq<nat>)
      requires Valid() && 0 < level < |levels| && Down(level, target) && LastIs(level)
               && lastDoc < target <= levels[level].skipDoc
      requires target <= INT_MAX && Counted(was, level, anew, target)
      modifies this`levels, this`at
      ensures Valid() && |levels| == |old(levels)| && Down(level - 1, target) && levels[level - 1].skipDoc < target
      ensures at[0] >= old(at[0]) && (level - 1 > 0 ==> at[0] == old(at[0])) && |at| == |old(at)|
      ensures Counted(was, level - 1, anew, target)
    {
      hide Mul, Level, ChildPos, LaidOut, Rising, Pow;
      assert Stands(level);
      ghost var stood, n := at, loads[level] as int - was[level] as int;
      if anew { LevelDone(level, n, target); }
      GoDown(level, target);
      if anew {
        if at[level] == 1 { Times(0, interval); }
        OnLevelDown(stood, at, numberOfSkipLevels, level, n);
      }
    }

    /** Nothing has been read yet, and the top level is short since the levels were not capped. */
    ghost predicate Fresh()
      requires interval >= 2
      reads this
    {
      && (forall i :: 0 <= i < |at| ==> at[i] == 0)
      && |levels| == |at| == (if numberOfSkipLevels == 0 then 1 else numberOfSkipLevels) && |L(|levels| - 1)| < interval
    }

    /** How many entries of the level have been read so far. */
    ghost predicate OnLevel(at: seq<nat>, used: nat, level: nat, n: int)
      requires interval >= 2 && level < |at|
    {
      && |L(|at| - 1)| < interval && (forall i :: 0 <= i < level ==> at[i] == 0)
      && level <= used && (0 < level == used ==> at[level] == |L(level)| + 1)
      && if level == |at| - 1 then n <= at[level]
         else
           && at[level + 1] >= 1 && Mul(at[level + 1] - 1, interval) <= at[level] <= Mul(at[level + 1], interval)
           && n <= at[level] - Mul(at[level + 1] - 1, interval)
           && (level + 1 >= used ==> at[level + 1] == |L(level + 1)| + 1 || at[level] == |L(level)| + 1)
    }

    ghost predicate Bounded(level: nat, n: int, target: int)
      requires interval >= 2 && level < |at| <= |levels|
      reads this
    {
      (n == 0 && level == 0 && target <= levels[0].skipDoc) || OnLevel(at, numberOfSkipLevels, level, n)
    }

    lemma StartsBounded(level: nat, target: int)
      requires Valid() && Fresh() && level < |levels| && Down(level, target)
               && (level > 0 ==> levels[level].skipDoc < target)
      ensures Bounded(level, 0, target)
    {
      forall i | 0 <= i < |at| ensures levels[i].skipDoc == 0 { StandsAt(i); }
    }

    lemma OnLevelStep(was: seq<nat>, used: nat, used': nat, level: nat, n: int)
      requires interval >= 2 && level < |was| && OnLevel(was, used, level, n) && was[level] <= |L(level)|
      requires used <= |was| && (level + 1 < used ==> was[level] + 1 <= Mul(was[level + 1], interval))
      requires used' == if was[level] + 1 > |L(level)| && used > level then level else used
      ensures OnLevel(was[level := was[level] + 1], used', level, n + 1)
    {
      if level + 1 < |was| && level + 1 >= used { Shorter(level, was[level + 1]); }
    }

    /** The entries of a level, and one more, fit under those of the level above and one more. */
    lemma Shorter(level: nat, c: nat)
      requires interval >= 2 && c == |L(level + 1)| + 1
      ensures |L(level)| + 1 <= Mul(c, interval)
    {
      ThinCount(L(level), interval);
      Rest(|L(level)|, interval);
      assert interval * (c - 1) + interval == interval * c == c * interval;
    }

    /** On any level at most an interval of entries is read. */
    lemma LevelDone(level: nat, n: int, target: int)
      requires Valid() && level < |at| && Bounded(level, n, target)
      ensures n <= interval
    {
      hide Mul, Level, LaidOut, Rising, Pow, Standing, Pointer;
      assert Stands(level);
      if level + 1 < |at| && at[level + 1] >= 1 { Times(at[level + 1] - 1, interval); }
      Times(0, interval);
    }

    lemma Times(k: nat, x: nat)
      ensures Mul(k + 1, x) == Mul(k, x) + x && Mul(0, x) == 0 && Mul(k, x) >= 0
    {
    }

    /** Arriving on the next level down. */
    lemma OnLevelDown(was: seq<nat>, now: seq<nat>, used: nat, level: nat, n: int)
      requires interval >= 2 && 0 < level < |was| && was[level] >= 1
      requires OnLevel(was, used, level, n) && now == was[level - 1 := Mul(was[level] - 1, interval)]
      ensures OnLevel(now, used, level - 1, 0)
    {
      Times(was[level] - 1, interval);
    }

    lemma Landed(was: nat, target: int)
      requires Valid() && was <= at[0] && target <= levels[0].skipDoc
      requires at[0] == was || (LastIs(0) && lastDoc < target)
      ensures at[0] == Scan(docs, was, target) && L(0) == docs
      ensures at[0] > was ==> lastDoc == DocOf(docs, at[0] - 1)
      ensures levels[0].numSkipped == at[0] * interval && SkipInterval(0) == interval
    {
      assert Stands(0);
      ScanIs(docs, was, at[0], target);
      assert Pow(interval, 1) == interval * Pow(interval, 0) == interval;
    }
  }
}
