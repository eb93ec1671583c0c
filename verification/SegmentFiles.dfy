/**
 What the files of an index hold: the documents of a segment, its deletions, and the list of segments that a
 segments_N names, read back in that order.
 */
module SegmentFiles {
  import opened OperationLog
  import opened IndexState
  import C = CommitFiles

  /** An entry of segments_N: a segment, and the generation of its deletions, 0 for none. */
  datatype Info = Info(name: nat, delGen: nat)

  /** File 0 of a segment holds its documents, the file of a later generation its deletions.  A segments_N also keeps
      the counter that segments are named from. */
  datatype Content =
    | Docs(cells: seq<Cell>)
    | Deletions(dead: seq<bool>)
    | Infos(infos: seq<Info>, counter: nat)

  type Contents = map<C.Name, Content>

  function DocsFile(i: Info): C.Name { C.Data(i.name, 0) }

  function DeletionsFile(i: Info): C.Name { C.Data(i.name, i.delGen) }

  function FilesOf(infos: seq<Info>): set<C.Name> {
    (set i | i in infos :: DocsFile(i)) + (set i | i in infos :: DeletionsFile(i))
  }

  // ---------- writing ----------

  function Undeleted(cells: seq<Cell>): seq<Cell> {
    seq(|cells|, k requires 0 <= k < |cells| => cells[k].(dead := false))
  }

  function SegmentNamed(segs: seq<Segment>, name: nat): Option<Segment> {
    if segs == [] then None else if segs[0].name == name then Some(segs[0]) else SegmentNamed(segs[1..], name)
  }

  /** What is written to a file of one of the segments, as it stands. */
  function Image(segs: seq<Segment>, n: C.Name): Option<Content> {
    if n.Listing? || SegmentNamed(segs, n.segment).None? then None
    else
      var cells := SegmentNamed(segs, n.segment).value.cells;
      Some(if n.id == 0 then Docs(Undeleted(cells)) else Deletions(DeadFlags(cells)))
  }

  function Written(cs: Contents, segs: seq<Segment>, n: C.Name): Contents {
    match Image(segs, n)
    case Some(c) => cs[n := c]
    case None => cs - {n}
  }

  // ---------- reading ----------

  function Marked(cells: seq<Cell>, dead: seq<bool>): seq<Cell>
    requires |cells| == |dead|
  {
    seq(|cells|, k requires 0 <= k < |cells| => cells[k].(dead := dead[k]))
  }

  function ReadSegment(cs: Contents, i: Info): Option<Segment> {
    if DocsFile(i) !in cs || !cs[DocsFile(i)].Docs? then None
    else
      var cells := cs[DocsFile(i)].cells;
      if i.delGen == 0 then Some(Segment(i.name, cells))
      else if DeletionsFile(i) in cs && cs[DeletionsFile(i)].Deletions? && |cs[DeletionsFile(i)].dead| == |cells| then
        Some(Segment(i.name, Marked(cells, cs[DeletionsFile(i)].dead)))
      else None
  }

  function ReadSegments(cs: Contents, infos: seq<Info>): Option<seq<Segment>> {
    if infos == [] then Some([])
    else
      var first, rest := ReadSegment(cs, infos[0]), ReadSegments(cs, infos[1..]);
      if first.Some? && rest.Some? then Some([first.value] + rest.value) else None
  }

  /** The live documents of the segments that a segments_N lists. */
  function Documents(cs: Contents, gen: nat): Option<seq<Entry>> {
    if C.Listing(gen) !in cs || !cs[C.Listing(gen)].Infos? then None
    else
      var segs := ReadSegments(cs, cs[C.Listing(gen)].infos);
      if segs.Some? then Some(LiveCells(Flatten(segs.value))) else None
  }

  /** A segment whose documents and deletions were written as they stand is read back as it stands; without a file of
      deletions, exactly when none of its documents is deleted. */
  lemma WrittenIsRead(cs: Contents, seg: Segment, delGen: nat)
    requires var i := Info(seg.name, delGen);
      && DocsFile(i) in cs && cs[DocsFile(i)] == Docs(Undeleted(seg.cells))
      && (delGen > 0 ==> DeletionsFile(i) in cs && cs[DeletionsFile(i)] == Deletions(DeadFlags(seg.cells)))
    ensures ReadSegment(cs, Info(seg.name, delGen)) == Some(seg) <==>
            delGen > 0 || forall k :: 0 <= k < |seg.cells| ==> !seg.cells[k].dead
  {
    if delGen > 0 {
      assert Marked(Undeleted(seg.cells), DeadFlags(seg.cells)) == seg.cells;
    } else if forall k :: 0 <= k < |seg.cells| ==> !seg.cells[k].dead {
      assert Undeleted(seg.cells) == seg.cells;
    } else {
      var k :| 0 <= k < |seg.cells| && seg.cells[k].dead;
      assert !Undeleted(seg.cells)[k].dead;
    }
  }

  ghost predicate Agree(cs: Contents, cs': Contents, n: C.Name) {
    (n in cs <==> n in cs') && (n in cs ==> cs'[n] == cs[n])
  }

  /** What is read depends on nothing but the files that are named. */
  lemma {:induction false} SameFilesRead(cs: Contents, cs': Contents, infos: seq<Info>)
    requires forall n :: n in FilesOf(infos) ==> Agree(cs, cs', n)
    ensures ReadSegments(cs', infos) == ReadSegments(cs, infos)
  {
    if infos != [] {
      assert infos[0] in infos && forall i :: i in infos[1..] ==> i in infos;
      assert DocsFile(infos[0]) in FilesOf(infos) && DeletionsFile(infos[0]) in FilesOf(infos);
      assert Agree(cs, cs', DocsFile(infos[0])) && Agree(cs, cs', DeletionsFile(infos[0]));
      assert FilesOf(infos[1..]) <= FilesOf(infos);
      SameFilesRead(cs, cs', infos[1..]);
    }
  }
}
