/**
 MultiLevelSkipListWriter: one buffer for each level, and the file made of them.
 */
module SkipListWriters {
  import opened Quotients
  import opened SkipLists

  lemma {:induction false} GrowsBelow(docs: seq<nat>, interval: nat, m: nat, i: nat)
    requires interval >= 2 && !Grows(docs, interval, m) && m <= i
    ensures !Grows(docs, interval, i)
  {
    if m < i { GrowsBelow(docs, interval, m, i - 1); }
  }

  /** A new entry on a level is the one below that completes an interval. */
  lemma NewEntryBelow(docs: seq<nat>, interval: nat, i: nat)
    requires interval >= 2 && i > 0 && Grows(docs, interval, i)
    ensures Below(interval, |Level(docs, interval, i)|) == |Level(docs, interval, i - 1)|
    ensures (|Level(docs, interval, i - 1)| + 1) / interval == |Level(docs, interval, i)| + 1
  {
    var m := |Level(docs, interval, i - 1)|;
    ThinCount(Level(docs, interval, i - 1), interval);
    Rest(m + 1, interval);
    assert interval * ((m + 1) / interval - 1) == interval * ((m + 1) / interval) - interval;
    MulStep(interval, (m + 1) / interval, 1);
    Quotient(m, interval, (m + 1) / interval - 1);
    assert (m / interval + 1) * interval == interval * (m / interval + 1);
  }

  lemma TokensGrow(l: seq<nat>, x: nat, interval: nat, i: nat)
    requires interval >= 2
    ensures Tokens(l + [x], interval, i, |l| + 1) == Tokens(l, interval, i, |l|) + Entry(l + [x], interval, i, |l|)
  {
    TokensPrefix(l, x, interval, i, |l|);
  }

  lemma BufferGrows(docs: seq<nat>, x: nat, interval: nat, i: nat)
    requires interval >= 2
    ensures Buffer(docs + [x], interval, i) ==
              Buffer(docs, interval, i) +
              if Grows(docs, interval, i) then Entry(Level(docs, interval, i) + [x], interval, i,
                  |Level(docs, interval, i)|) else []
  {
    hide Level, Grows, Entry, Tokens;
    var l := Level(docs, interval, i);
    LevelGrows(docs, x, interval, i);
    if Grows(docs, interval, i) {
      TokensGrow(l, x, interval, i);
    } else {
      assert l + [] == l;
      assert Buffer(docs, interval, i) + [] == Buffer(docs, interval, i);
    }
  }

  lemma OnlyLowest(buffers: seq<seq<int>>)
    requires buffers != []
    ensures File(buffers, 0) == buffers[0]
  {
  }

  lemma FileStep(out: seq<int>, buffers: seq<seq<int>>, level: nat)
    requires 0 < level < |buffers|
    ensures buffers[level] == [] ==> out + File(buffers, level - 1) == out + File(buffers, level)
    ensures buffers[level] != [] ==>
              out + [|buffers[level]|] + buffers[level] + File(buffers, level - 1) == out + File(buffers, level)
  {
    assert [] + File(buffers, level - 1) == File(buffers, level - 1);
  }

  function Last(l: seq<nat>): nat { if l == [] then 0 else l[|l| - 1] }

  /** A level's buffer, and the document its next entry is counted from. */
  ghost predicate LevelOk(buffer: seq<int>, last: nat, docs: seq<nat>, interval: nat, i: nat)
    requires interval >= 2
  {
    buffer == Buffer(docs, interval, i) && last == Last(Level(docs, interval, i))
  }

  lemma LevelStays(buffer: seq<int>, last: nat, docs: seq<nat>, x: nat, interval: nat, i: nat)
    requires interval >= 2 && LevelOk(buffer, last, docs, interval, i) && !Grows(docs, interval, i)
    ensures LevelOk(buffer, last, docs + [x], interval, i)
  {
    BufferGrows(docs, x, interval, i);
    LevelGrows(docs, x, interval, i);
    assert Level(docs, interval, i) + [] == Level(docs, interval, i);
    assert Buffer(docs, interval, i) + [] == Buffer(docs, interval, i);
  }

  class MultiLevelSkipListWriter {
    const skipInterval: nat
    const numberOfSkipLevels: nat
    var skipBuffer: seq<seq<int>>
    var lastSkipDoc: seq<nat>
    ghost var docs: seq<nat>

    /** Every buffer holds its level of the entries so far. */
    ghost predicate Valid()
      reads this
    {
      && skipInterval >= 2 && |skipBuffer| == |lastSkipDoc| == numberOfSkipLevels
      && forall i :: 0 <= i < numberOfSkipLevels ==> LevelOk(skipBuffer[i], lastSkipDoc[i], docs, skipInterval, i)
    }

    /** The number of levels is to stay within the maximum, but the greater of the two is taken. */
    constructor (skipInterval: nat, maxSkipLevels: nat, df: nat)
      requires skipInterval >= 2
      ensures Valid() && docs == [] && this.skipInterval == skipInterval
      ensures numberOfSkipLevels >= maxSkipLevels && numberOfSkipLevels >= FloorLog(skipInterval, df)
      ensures numberOfSkipLevels == maxSkipLevels || numberOfSkipLevels == FloorLog(skipInterval, df)
    {
      this.skipInterval := skipInterval;
      var levels := if df == 0 then 0 else FloorLog(skipInterval, df);
      numberOfSkipLevels := if levels < maxSkipLevels then maxSkipLevels else levels;
      new;
      skipBuffer, lastSkipDoc, docs := seq(numberOfSkipLevels, _ => []), seq(numberOfSkipLevels, _ => 0), [];
      forall i | 0 <= i < numberOfSkipLevels ensures LevelOk(skipBuffer[i], lastSkipDoc[i], [], skipInterval, i) {
        EmptyLevel(skipInterval, i);
      }
    }

    /** setSkipData and bufferSkip, at a document count that completes an interval. */
    method BufferSkip(df: nat, curDoc: nat)
      requires Valid() && df == (|docs| + 1) * skipInterval
      modifies this
      ensures Valid() && docs == old(docs) + [curDoc]
    {
      hide LevelOk, Level, Grows;
      var numLevels := CountLevels(df);
      docs := docs + [curDoc];
      ghost var was := old(docs);
      var childPointer := 0;
      for level := 0 to numLevels
        invariant |skipBuffer| == |lastSkipDoc| == numberOfSkipLevels && docs == was + [curDoc]
        invariant forall i :: 0 <= i < level ==> LevelOk(skipBuffer[i], lastSkipDoc[i], docs, skipInterval, i)
        invariant forall i :: level <= i < numberOfSkipLevels ==>
                    LevelOk(skipBuffer[i], lastSkipDoc[i], was, skipInterval, i)
        invariant childPointer == if level == 0 then 0 else Width(level - 1) * |Level(was, skipInterval, level - 1)| + 1
      {
        childPointer := WriteLevel(level, curDoc, childPointer, was);
      }
      forall i | numLevels <= i < numberOfSkipLevels
        ensures LevelOk(skipBuffer[i], lastSkipDoc[i], docs, skipInterval, i) {
        LevelStays(skipBuffer[i], lastSkipDoc[i], was, curDoc, skipInterval, i);
      }
    }

    /** How often the count can be divided: the levels that get an entry. */
    method CountLevels(df: nat) returns (numLevels: nat)
      requires Valid() && df == (|docs| + 1) * skipInterval
      ensures numLevels <= numberOfSkipLevels
      ensures forall i :: 0 <= i < numberOfSkipLevels ==> (Grows(docs, skipInterval, i) <==> i < numLevels)
    {
      numLevels := 0;
      var d := df;
      assert df == skipInterval * (|docs| + 1);
      Quotient(df, skipInterval, |docs| + 1);
      while d % skipInterval == 0 && numLevels < numberOfSkipLevels
        invariant numLevels <= numberOfSkipLevels && forall i :: 0 <= i < numLevels ==> Grows(docs, skipInterval, i)
        invariant d == if numLevels == 0 then df else |Level(docs, skipInterval, numLevels - 1)| + 1
        decreases numberOfSkipLevels - numLevels
      {
        if numLevels > 0 { NewEntryBelow(docs, skipInterval, numLevels); }
        numLevels := numLevels + 1;
        d := d / skipInterval;
      }
      forall i | numLevels <= i < numberOfSkipLevels ensures !Grows(docs, skipInterval, i) {
        GrowsBelow(docs, skipInterval, numLevels, i);
      }
    }

    /** writeSkipData for one level, and the pointer to the entry below. */
    method WriteLevel(level: nat, curDoc: nat, childPointer: int, ghost was: seq<nat>) returns (newChildPointer: int)
      requires skipInterval >= 2 && level < |skipBuffer| == |lastSkipDoc| && Grows(was, skipInterval, level)
      requires LevelOk(skipBuffer[level], lastSkipDoc[level], was, skipInterval, level)
      requires childPointer == if level == 0 then 0 else Width(level - 1) * |Level(was, skipInterval, level - 1)| + 1
      modifies this`skipBuffer, this`lastSkipDoc
      ensures |skipBuffer| == |old(skipBuffer)| && |lastSkipDoc| == |old(lastSkipDoc)|
      ensures LevelOk(skipBuffer[level], lastSkipDoc[level], was + [curDoc], skipInterval, level)
      ensures forall i :: 0 <= i < |skipBuffer| && i != level ==>
                skipBuffer[i] == old(skipBuffer[i]) && lastSkipDoc[i] == old(lastSkipDoc[i])
      ensures newChildPointer == Width(level) * |Level(was, skipInterval, level)| + 1
    {
      BufferGrows(was, curDoc, skipInterval, level);
      LevelGrows(was, curDoc, skipInterval, level);
      if level > 0 { NewEntryBelow(was, skipInterval, level); }
      var buffer := skipBuffer[level] + [curDoc as int - lastSkipDoc[level] as int];
      newChildPointer := |buffer|;
      if level != 0 {
        buffer := buffer + [childPointer];
        assert buffer == skipBuffer[level] + [curDoc as int - lastSkipDoc[level] as int, childPointer];
      }
      skipBuffer := skipBuffer[level := buffer];
      lastSkipDoc := lastSkipDoc[level := curDoc];
    }

    method WriteSkip(output: seq<int>) returns (skipPointer: nat, out: seq<int>)
      requires Valid()
      ensures skipPointer == |output|
      ensures out == output + if numberOfSkipLevels == 0 then [] else File(skipBuffer, numberOfSkipLevels - 1)
    {
      hide File;
      skipPointer := |output|;
      out := output;
      if |skipBuffer| == 0 { return; }
      var level := numberOfSkipLevels - 1;
      while level > 0
        invariant 0 <= level < numberOfSkipLevels == |skipBuffer|
        invariant out + File(skipBuffer, level) == output + File(skipBuffer, numberOfSkipLevels - 1)
      {
        FileStep(out, skipBuffer, level);
        var length := |skipBuffer[level]|;
        if length > 0 {
          out := out + [length];
          out := out + skipBuffer[level];
        }
        level := level - 1;
      }
      OnlyLowest(skipBuffer);
      out := out + skipBuffer[0];
    }
  }
}
