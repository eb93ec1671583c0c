/**
 The log of operations an index writer is asked to perform, and its plain
 sequential reading: the documents that survive when the operations are carried
 out one after the other, with nothing buffered.
 */
module OperationLog {

  type Term = string
  type Query = string

  datatype Option<+T> = None | Some(value: T)

  /** What a delete can see of a document: its terms and the queries that match it. */
  datatype Doc = Doc(terms: set<Term>, matchedBy: set<Query>)

  /** `Write` is addDocument (no `del`) or updateDocument; `ok` turns false when
      indexing the document fails after its docID was assigned. */
  datatype Op =
    | Write(del: Option<Term>, doc: Doc, ok: bool)
    | DeleteTerm(term: Term)
    | DeleteQuery(query: Query)

  /** A document together with the position of its write in the log. */
  datatype Entry = Entry(id: nat, doc: Doc)

  predicate Kills(op: Op, d: Doc) {
    match op
    case Write(del, _, _) => del.Some? && del.value in d.terms
    case DeleteTerm(t) => t in d.terms
    case DeleteQuery(q) => q in d.matchedBy
  }

  function Without(es: seq<Entry>, op: Op): seq<Entry> {
    if es == [] then []
    else if Kills(op, es[0].doc) then Without(es[1..], op)
    else [es[0]] + Without(es[1..], op)
  }

  /** The sequential reading: every operation takes effect at once, on the documents before it. */
  function Replay(log: seq<Op>): seq<Entry> {
    if log == [] then []
    else
      var n := |log| - 1;
      var before := Without(Replay(log[..n]), log[n]);
      if log[n].Write? && log[n].ok then before + [Entry(n, log[n].doc)] else before
  }

  predicate Survives(log: seq<Op>, k: nat) {
    && k < |log|
    && log[k].Write? && log[k].ok
    && forall j :: k < j < |log| ==> !Kills(log[j], log[k].doc)
  }

  ghost predicate Increasing(es: seq<Entry>) {
    forall i, j :: 0 <= i < j < |es| ==> es[i].id < es[j].id
  }

  lemma {:induction false} WithoutHolds(es: seq<Entry>, op: Op, e: Entry)
    ensures e in Without(es, op) <==> e in es && !Kills(op, e.doc)
  {
    if es != [] {
      WithoutHolds(es[1..], op, e);
      assert es == [es[0]] + es[1..];
    }
  }

  lemma {:induction false} WithoutIncreasing(es: seq<Entry>, op: Op)
    requires Increasing(es)
    ensures Increasing(Without(es, op))
  {
    if es != [] {
      WithoutIncreasing(es[1..], op);
      var w := Without(es[1..], op);
      forall i | 0 <= i < |w| ensures es[0].id < w[i].id {
        WithoutHolds(es[1..], op, w[i]);
        var j :| 0 <= j < |es[1..]| && es[1..][j] == w[i];
        assert es[j + 1] == w[i];
      }
    }
  }

  /** The reading holds exactly the writes that succeeded and that no later operation kills. */
  lemma {:induction false} ReplaySpec(log: seq<Op>)
    ensures Increasing(Replay(log))
    ensures forall e :: e in Replay(log) <==> Survives(log, e.id) && e.doc == log[e.id].doc
  {
    if log != [] {
      var n := |log| - 1;
      var prefix := log[..n];
      ReplaySpec(prefix);
      WithoutIncreasing(Replay(prefix), log[n]);
      var w := Without(Replay(prefix), log[n]);
      forall e ensures e in w <==> e in Replay(prefix) && !Kills(log[n], e.doc) {
        WithoutHolds(Replay(prefix), log[n], e);
      }
      assert forall k: nat :: k < n ==> (Survives(log, k) <==> Survives(prefix, k) && !Kills(log[n], log[k].doc));
      forall i | 0 <= i < |w| ensures w[i].id < n {
        assert w[i] in w;
      }
      assert forall k: nat :: Survives(log, k) ==> k <= n;
    }
  }

  ghost predicate Included(a: seq<Entry>, b: seq<Entry>) {
    forall i :: 0 <= i < |a| ==> a[i] in b
  }

  lemma IncludedLast(a: seq<Entry>, b: seq<Entry>)
    requires Increasing(a) && Increasing(b) && Included(a, b) && Included(b, a) && a != [] && b != []
    ensures a[|a| - 1] == b[|b| - 1]
    ensures Included(a[..|a| - 1], b[..|b| - 1])
  {
    var m, n := |a| - 1, |b| - 1;
    assert a[m] in b && b[n] in a;
    var i :| 0 <= i <= n && b[i] == a[m];
    var j :| 0 <= j <= m && a[j] == b[n];
    forall k | 0 <= k < m ensures a[..m][k] in b[..n] {
      var l :| 0 <= l <= n && b[l] == a[k];
      assert b[..n][l] == a[k];
    }
  }

  /** Increasing lists of entries with the same members are the same list. */
  lemma {:induction false} IncreasingUnique(a: seq<Entry>, b: seq<Entry>)
    requires Increasing(a) && Increasing(b) && Included(a, b) && Included(b, a)
    ensures a == b
  {
    if a != [] {
      assert a[0] in b;
      IncludedLast(a, b);
      IncludedLast(b, a);
      IncreasingUnique(a[..|a| - 1], b[..|b| - 1]);
    }
  }

  /** Logs of one length that read the same go on reading the same. */
  lemma {:induction false} ReplayGoesOn(a: seq<Op>, b: seq<Op>, more: seq<Op>)
    requires |a| == |b| && Replay(a) == Replay(b)
    ensures Replay(a + more) == Replay(b + more)
  {
    if more == [] {
      assert a + [] == a && b + [] == b;
    } else {
      var n := |more| - 1;
      ReplayGoesOn(a, b, more[..n]);
      assert (a + more)[..|a| + n] == a + more[..n] && (b + more)[..|b| + n] == b + more[..n];
    }
  }
}
