/**
 WaitQueue: document states finished out of order wait in a ring buffer until their turn comes.
 */
module WaitQueues {

  datatype Option<+T> = None | Some(value: T)

  /** What a document leaves to be written; the shared writer of skipped documents takes no room. */
  datatype DocWriter = Doc(size: nat) | Skip

  type Slots = seq<Option<DocWriter>>

  function SizeOf(d: DocWriter): nat { if d.Doc? then d.size else 0 }

  function Count(w: Slots): nat { if w == [] then 0 else Count(w[..|w| - 1]) + if w[|w| - 1].Some? then 1 else 0 }

  function Bytes(w: Slots): nat {
    if w == [] then 0 else Bytes(w[..|w| - 1]) + if w[|w| - 1].Some? then SizeOf(w[|w| - 1].value) else 0
  }

  lemma {:induction false} TotalsAppend(a: Slots, b: Slots)
    ensures Count(a + b) == Count(a) + Count(b) && Bytes(a + b) == Bytes(a) + Bytes(b)
  {
    if b == [] {
      assert a + b == a;
    } else {
      TotalsAppend(a, b[..|b| - 1]);
      assert (a + b)[..|a| + |b| - 1] == a + b[..|b| - 1];
    }
  }

  lemma {:induction false} TotalsSet(w: Slots, i: nat, x: Option<DocWriter>)
    requires i < |w|
    ensures Count(w[i := x]) == Count(w) - (if w[i].Some? then 1 else 0) + if x.Some? then 1 else 0
    ensures Bytes(w[i := x]) ==
              Bytes(w) - (if w[i].Some? then SizeOf(w[i].value) else 0) + if x.Some? then SizeOf(x.value) else 0
  {
    var n := |w| - 1;
    if i < n {
      TotalsSet(w[..n], i, x);
      assert w[i := x][..n] == w[..n][i := x];
    } else {
      assert w[i := x][..n] == w[..n];
    }
  }

  function Nones(n: nat): Slots { seq(n, _ => None) }

  lemma {:induction false} TotalsNone(w: Slots)
    requires forall i :: 0 <= i < |w| ==> w[i].None?
    ensures Count(w) == 0 && Bytes(w) == 0
  {
    if w != [] { TotalsNone(w[..|w| - 1]); }
  }

  /** The buffer read from the write position around. */
  function Ring(w: Slots, loc: nat): (q: Slots)
    requires loc <= |w|
    ensures |q| == |w|
  {
    w[loc..] + w[..loc]
  }

  /** Where the `gap`-th slot from the write position lies. */
  function SlotAt(w: Slots, loc: nat, gap: nat): int { if loc + gap >= |w| then loc + gap - |w| else loc + gap }

  lemma RingSet(w: Slots, loc: nat, gap: nat, x: Option<DocWriter>)
    requires loc < |w| && gap < |w|
    ensures 0 <= SlotAt(w, loc, gap) < |w| && Ring(w, loc)[gap] == w[SlotAt(w, loc, gap)]
    ensures Ring(w[SlotAt(w, loc, gap) := x], loc) == Ring(w, loc)[gap := x]
  {
  }

  lemma RingStep(w: Slots, loc: nat)
    requires loc < |w|
    ensures Ring(w, if loc + 1 == |w| then 0 else loc + 1) == Ring(w, loc)[1..] + [Ring(w, loc)[0]]
  {
  }

  function NextSize(targetSize: nat): nat { targetSize / 8 + (if targetSize < 9 then 3 else 6) + targetSize }

  /** Every document handed in has been written in its turn, waits in its place, or is in hand. */
  ghost predicate InPlace(q: Slots, next: nat, log: seq<DocWriter>, added: map<nat, DocWriter>, hand: int) {
    && |log| == next
    && (forall k :: 0 <= k < |q| && q[k].Some? ==> next + k in added && added[next + k] == q[k].value)
    && (forall id :: id in added && id >= next && id != hand ==> id - next < |q| && q[id - next] == Some(added[id]))
    && (forall id :: 0 <= id < next ==> id in added && log[id] == added[id])
  }

  lemma Accepted(q: Slots, log: seq<DocWriter>, added: map<nat, DocWriter>, doc: DocWriter)
    requires InPlace(q, |log|, log, added, -1) && |log| !in added && q != []
    ensures InPlace(q, |log|, log, added[|log| := doc], |log|) && q[0].None?
  {
  }

  lemma Written(q: Slots, log: seq<DocWriter>, added: map<nat, DocWriter>)
    requires InPlace(q, |log|, log, added, |log|) && |log| in added && q != [] && q[0].None?
    ensures InPlace(q[1..] + [q[0]], |log| + 1, log + [added[|log|]], added, -1)
  {
    var q' := q[1..] + [q[0]];
    forall k | 0 <= k < |q'| && q'[k].Some? ensures |log| + 1 + k in added && added[|log| + 1 + k] == q'[k].value {
      assert q'[k] == q[k + 1] && |log| + 1 + k == |log| + (k + 1);
    }
    forall id | id in added && id >= |log| + 1 ensures id - (|log| + 1) < |q'|
        && q'[id - (|log| + 1)] == Some(added[id]) {
      assert q[id - |log|] == Some(added[id]);
    }
  }

  lemma TakenOut(q: Slots, log: seq<DocWriter>, added: map<nat, DocWriter>)
    requires InPlace(q, |log|, log, added, -1) && q != []
    ensures q[0].None? <==> |log| !in added
    ensures q[0].Some? ==> added[|log|] == q[0].value && InPlace(q[0 := None], |log|, log, added, |log|)
  {
  }

  lemma PutIn(q: Slots, log: seq<DocWriter>, added: map<nat, DocWriter>, id: nat, doc: DocWriter)
    requires InPlace(q, |log|, log, added, -1) && id !in added && |log| <= id < |log| + |q|
    ensures q[id - |log|].None? && InPlace(q[id - |log| := Some(doc)], |log|, log, added[id := doc], -1)
  {
    assert |log| + (id - |log|) == id;
  }

  lemma Widened(q: Slots, log: seq<DocWriter>, added: map<nat, DocWriter>, n: nat)
    requires InPlace(q, |log|, log, added, -1)
    ensures InPlace(q + Nones(n), |log|, log, added, -1)
  {
  }

  lemma CutOff(q: Slots, log: seq<DocWriter>, added: map<nat, DocWriter>, n: nat)
    requires InPlace(q, |log|, log, added, -1)
    ensures InPlace(Nones(n), |log|, log, map id | id in added && id < |log| :: added[id], -1)
  {
  }

  lemma RingTotals(w: Slots, loc: nat)
    requires loc <= |w|
    ensures Count(Ring(w, loc)) == Count(w) && Bytes(Ring(w, loc)) == Bytes(w)
  {
    hide Count, Bytes;
    TotalsAppend(w[loc..], w[..loc]);
    TotalsAppend(w[..loc], w[loc..]);
    assert w == w[..loc] + w[loc..];
  }

  /** A ring that was unrolled and widened. */
  lemma Unrolled(w: Slots, loc: nat, n: nat)
    requires loc <= |w|
    ensures Ring(Ring(w, loc) + Nones(n), 0) == Ring(w, loc) + Nones(n)
    ensures Count(Ring(w, loc) + Nones(n)) == Count(w) && Bytes(Ring(w, loc) + Nones(n)) == Bytes(w)
  {
    hide Count, Bytes;
    RingTotals(w, loc);
    TotalsNone(Nones(n));
    TotalsAppend(Ring(w, loc), Nones(n));
    FromStart(Ring(w, loc) + Nones(n));
  }

  lemma FromStart(w: Slots)
    ensures Ring(w, 0) == w
  {
  }

  lemma EmptyRing(w: Slots, loc: nat)
    requires loc < |w| && forall i :: 0 <= i < |w| ==> w[i].None?
    ensures Ring(w, loc) == Nones(|w|)
  {
  }

  lemma {:induction false} NoneWaiting(w: Slots)
    requires Count(w) == 0
    ensures forall i :: 0 <= i < |w| ==> w[i].None?
  {
    if w != [] { NoneWaiting(w[..|w| - 1]); }
  }

  class WaitQueue {
    var waiting: Slots
    var nextWriteDocID: nat
    var nextWriteLoc: nat
    var numWaiting: int
    var waitingBytes: int
    /** What was written, in order, and what was handed in, by document number. */
    ghost var log: seq<DocWriter>
    ghost var added: map<nat, DocWriter>

    ghost predicate Shape(hand: int)
      reads this
    {
      && nextWriteLoc < |waiting| && |log| == nextWriteDocID
      && numWaiting == Count(waiting) && waitingBytes == Bytes(waiting)
      && InPlace(Ring(waiting, nextWriteLoc), |log|, log, added, hand)
    }

    /** Between calls the document whose turn it is has not come in. */
    ghost predicate Valid()
      reads this
    {
      Shape(-1) && nextWriteDocID !in added
    }

    constructor ()
      ensures Valid() && added == map[] && log == []
    {
      waiting := Nones(10);
      nextWriteDocID, nextWriteLoc, numWaiting, waitingBytes := 0, 0, 0, 0;
      log, added := [], map[];
      new;
      TotalsNone(waiting);
      EmptyRing(waiting, 0);
    }

    method Reset()
      requires Valid() && numWaiting == 0
      modifies this
      ensures Valid() && added == map[] && log == []
    {
      nextWriteDocID := 0;
      log, added := [], map[];
      NoneWaiting(waiting);
      EmptyRing(waiting, nextWriteLoc);
    }

    /** Drops whatever waits; what was written stays written. */
    method Abort()
      requires Valid()
      modifies this
      ensures Valid() && log == old(log) && numWaiting == 0 && waitingBytes == 0
      ensures added == map id | id in old(added) && id < |log| :: old(added)[id]
    {
      hide InPlace;
      CutOff(Ring(waiting, nextWriteLoc), log, added, |waiting|);
      var count := 0;
      for i := 0 to |waiting|
        invariant |waiting| == |old(waiting)| && nextWriteLoc == old(nextWriteLoc)
                  && nextWriteDocID == old(nextWriteDocID)
        invariant log == old(log) && added == old(added) && numWaiting == old(numWaiting)
        invariant forall j :: 0 <= j < i ==> waiting[j].None?
        invariant Count(waiting) + count == numWaiting
      {
        if waiting[i].Some? {
          TotalsSet(waiting, i, None);
          waiting := waiting[i := None];
          count := count + 1;
        }
      }
      TotalsNone(waiting);
      assert count == numWaiting;
      waitingBytes := 0;
      numWaiting := 0;
      added := map id | id in added && id < |log| :: added[id];
      EmptyRing(waiting, nextWriteLoc);
    }

    /** The document's turn: it is written, and the turn passes on. */
    method WriteDocument(doc: DocWriter)
      requires Shape(nextWriteDocID) && nextWriteDocID in added && added[nextWriteDocID] == doc
               && waiting[nextWriteLoc].None?
      modifies this`nextWriteDocID, this`nextWriteLoc, this`log
      ensures Shape(-1) && log == old(log) + [doc] && nextWriteDocID == old(nextWriteDocID) + 1
    {
      hide InPlace, Ring, Count, Bytes;
      RingSet(waiting, nextWriteLoc, 0, None);
      Written(Ring(waiting, nextWriteLoc), log, added);
      RingStep(waiting, nextWriteLoc);
      nextWriteDocID := nextWriteDocID + 1;
      log := log + [doc];
      nextWriteLoc := nextWriteLoc + 1;
      if nextWriteLoc == |waiting| {
        nextWriteLoc := 0;
      }
    }

    /** Takes out the document whose turn it is, if it waits. */
    method TakeNext() returns (doc: Option<DocWriter>)
      requires Shape(-1)
      modifies this`waiting, this`numWaiting, this`waitingBytes
      ensures doc == old(waiting[nextWriteLoc]) && (doc.None? <==> nextWriteDocID !in added)
      ensures if doc.None? then Shape(-1) && numWaiting == old(numWaiting)
              else Shape(nextWriteDocID) && added[nextWriteDocID] == doc.value && waiting[nextWriteLoc].None?
                   && numWaiting == old(numWaiting) - 1
      ensures waitingBytes == old(waitingBytes) - if doc.Some? then SizeOf(doc.value) else 0
    {
      hide InPlace, Ring;
      doc := waiting[nextWriteLoc];
      RingSet(waiting, nextWriteLoc, 0, None);
      TakenOut(Ring(waiting, nextWriteLoc), log, added);
      if doc.Some? {
        TotalsSet(waiting, nextWriteLoc, None);
        numWaiting := numWaiting - 1;
        waiting := waiting[nextWriteLoc := None];
        waitingBytes := waitingBytes - SizeOf(doc.value);
      }
    }

    /** A document comes in.  It is written if it is its turn, with those behind it that were waiting
        for it; otherwise it waits in its place, in a larger buffer if need be. */
    method Add(docID: nat, doc: DocWriter) returns (written: nat)
      requires Valid() && docID >= nextWriteDocID && docID !in added
      modifies this
      ensures Valid() && added == old(added)[docID := doc] && old(log) <= log && |log| == |old(log)| + written
      ensures written > 0 <==> docID == old(nextWriteDocID)
      ensures numWaiting == old(numWaiting) + 1 - written
    {
      if docID == nextWriteDocID {
        written := WriteFrom(docID, doc);
      } else {
        Park(docID, doc);
        written := 0;
      }
    }

    method WriteFrom(docID: nat, doc: DocWriter) returns (written: nat)
      requires Valid() && docID == nextWriteDocID
      modifies this
      ensures Valid() && added == old(added)[docID := doc] && old(log) <= log && |log| == |old(log)| + written
              && written > 0
      ensures numWaiting == old(numWaiting) + 1 - written
    {
      hide InPlace, Ring;
      Accepted(Ring(waiting, nextWriteLoc), log, added, doc);
      RingSet(waiting, nextWriteLoc, 0, None);
      added := added[docID := doc];
      WriteDocument(doc);
      written := 1;
      while true
        invariant Shape(-1) && added == old(added)[docID := doc]
        invariant old(log) <= log && |log| == |old(log)| + written && written > 0
                  && numWaiting == old(numWaiting) + 1 - written
        decreases numWaiting
      {
        var next := TakeNext();
        if next.None? { return; }
        WriteDocument(next.value);
        written := written + 1;
      }
    }

    method Park(docID: nat, doc: DocWriter)
      requires Valid() && docID > nextWriteDocID && docID !in added
      modifies this`waiting, this`nextWriteLoc, this`numWaiting, this`waitingBytes, this`added
      ensures Valid() && added == old(added)[docID := doc] && numWaiting == old(numWaiting) + 1
    {
      hide InPlace, Ring;
      var gap := docID - nextWriteDocID;
      if gap >= |waiting| {
        Grow(gap);
      }
      var loc := SlotAt(waiting, nextWriteLoc, gap);
      RingSet(waiting, nextWriteLoc, gap, Some(doc));
      PutIn(Ring(waiting, nextWriteLoc), log, added, docID, doc);
      TotalsSet(waiting, loc, Some(doc));
      waiting := waiting[loc := Some(doc)];
      numWaiting := numWaiting + 1;
      waitingBytes := waitingBytes + SizeOf(doc);
      added := added[docID := doc];
    }

    /** The ring is unrolled into a buffer with room for the gap. */
    method Grow(gap: nat)
      requires Valid() && gap >= |waiting|
      modifies this`waiting, this`nextWriteLoc
      ensures Valid() && gap < |waiting| && numWaiting == old(numWaiting)
    {
      hide InPlace;
      var more := NextSize(gap) - |waiting|;
      Unrolled(waiting, nextWriteLoc, more);
      Widened(Ring(waiting, nextWriteLoc), log, added, more);
      hide Ring;
      waiting := Ring(waiting, nextWriteLoc) + Nones(more);
      nextWriteLoc := 0;
    }
  }
}
