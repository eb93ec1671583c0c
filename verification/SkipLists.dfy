/**
 Multi-level skip lists: what each level holds, how the writer lays the levels out, and the writer
 itself.  A stream is a sequence of numbers, and a position in it counts numbers.
 */
module SkipLists {
  import opened Quotients

  /** Every `interval`-th entry. */
  function Thin(docs: seq<nat>, interval: nat): seq<nat>
    requires interval >= 2
  {
    if |docs| < interval then [] else [docs[interval - 1]] + Thin(docs[interval..], interval)
  }

  /** The index, one level down, of entry `j`. */
  function Below(interval: nat, j: nat): int { (j + 1) * interval - 1 }

  lemma BelowNext(interval: nat, j: nat)
    ensures Below(interval, j + 1) == Below(interval, j) + interval && Below(interval, 0) == interval - 1
  {
  }

  lemma {:induction false} ThinCount(docs: seq<nat>, interval: nat)
    requires interval >= 2
    ensures |Thin(docs, interval)| == |docs| / interval
  {
    if |docs| < interval {
      assert interval * 0 == 0;
      Quotient(|docs|, interval, 0);
    } else {
      ThinCount(docs[interval..], interval);
      OneLess(|docs|, interval);
    }
  }

  lemma {:induction false} ThinAt(docs: seq<nat>, interval: nat, j: nat)
    requires interval >= 2 && j < |Thin(docs, interval)|
    ensures j <= Below(interval, j) < |docs| && Thin(docs, interval)[j] == docs[Below(interval, j)]
  {
    if j == 0 {
      BelowNext(interval, 0);
    } else {
      ThinAt(docs[interval..], interval, j - 1);
      BelowNext(interval, j - 1);
    }
  }

  /** The documents of the entries on a level; on level 0 there is one for each `interval` postings. */
  function Level(docs: seq<nat>, interval: nat, i: nat): seq<nat>
    requires interval >= 2
  {
    if i == 0 then docs else Thin(Level(docs, interval, i - 1), interval)
  }

  function Pow(x: nat, n: nat): nat { if n == 0 then 1 else x * Pow(x, n - 1) }

  lemma {:induction false} PowPositive(x: nat, n: nat)
    requires x >= 1
    ensures Pow(x, n) >= 1
  {
    if n > 0 {
      PowPositive(x, n - 1);
      assert x * Pow(x, n - 1) >= 1 * Pow(x, n - 1) by { assert (x - 1) * Pow(x, n - 1) >= 0; }
    }
  }

  /** Level i holds exactly floor(df / interval^(i + 1)) entries. */
  lemma {:induction false} LevelCount(docs: seq<nat>, interval: nat, df: nat, i: nat)
    requires interval >= 2 && |docs| == df / interval
    ensures Pow(interval, i + 1) >= 1 && |Level(docs, interval, i)| == df / Pow(interval, i + 1)
  {
    PowPositive(interval, i + 1);
    if i == 0 {
      assert Pow(interval, 1) == interval * Pow(interval, 0);
    } else {
      LevelCount(docs, interval, df, i - 1);
      ThinCount(Level(docs, interval, i - 1), interval);
      DivDiv(df, Pow(interval, i), interval);
      assert Pow(interval, i + 1) == interval * Pow(interval, i) == Pow(interval, i) * interval;
    }
  }

  /** floor(log(n) / log(interval)). */
  function FloorLog(interval: nat, n: nat): nat
    requires interval >= 2
    decreases n
  {
    if n < interval then 0
    else
      Shrinks(n, interval);
      1 + FloorLog(interval, n / interval)
  }

  /** As many levels as that hold an entry. */
  lemma {:induction false} LevelsUsed(docs: seq<nat>, interval: nat, df: nat, i: nat)
    requires interval >= 2 && |docs| == df / interval
    ensures |Level(docs, interval, i)| > 0 <==> i < FloorLog(interval, df)
    decreases i
  {
    if df < interval {
      assert interval * 0 == 0;
      Quotient(df, interval, 0);
      EmptyLevel(interval, i);
    } else {
      Shrinks(df, interval);
      if i > 0 {
        LevelTail(docs, interval, i);
        ThinCount(docs, interval);
        LevelsUsed(Thin(docs, interval), interval, |docs|, i - 1);
      }
    }
  }

  lemma {:induction false} LevelTail(docs: seq<nat>, interval: nat, i: nat)
    requires interval >= 2 && i > 0
    ensures Level(docs, interval, i) == Level(Thin(docs, interval), interval, i - 1)
  {
    if i > 1 { LevelTail(docs, interval, i - 1); }
  }

  lemma {:induction false} EmptyLevel(interval: nat, i: nat)
    requires interval >= 2
    ensures Level([], interval, i) == []
  {
    if i > 0 { EmptyLevel(interval, i - 1); }
  }

  // ---------- what is written ----------

  function Delta(l: seq<nat>, j: nat): int
    requires j < |l|
  {
    l[j] as int - if j == 0 then 0 else l[j - 1] as int
  }

  /** Where, on the level below, the entry that entry `j` of level `i` repeats has been read. */
  function ChildPos(interval: nat, i: nat, j: nat): int
    requires i > 0 && interval >= 2
  {
    if i == 1 then Below(interval, j) + 1 else 2 * Below(interval, j) + 1
  }

  /** How many numbers an entry takes: above level 0 it has a child pointer. */
  function Width(i: nat): nat { if i == 0 then 1 else 2 }

  function Entry(l: seq<nat>, interval: nat, i: nat, j: nat): seq<int>
    requires interval >= 2 && j < |l|
  {
    if i == 0 then [Delta(l, j)] else [Delta(l, j), ChildPos(interval, i, j)]
  }

  /** The numbers of the first `n` entries of a level. */
  function Tokens(l: seq<nat>, interval: nat, i: nat, n: nat): (t: seq<int>)
    requires interval >= 2 && n <= |l|
    ensures |t| == Width(i) * n
  {
    if n == 0 then [] else Tokens(l, interval, i, n - 1) + Entry(l, interval, i, n - 1)
  }

  function Buffer(docs: seq<nat>, interval: nat, i: nat): seq<int>
    requires interval >= 2
  {
    var l := Level(docs, interval, i);
    Tokens(l, interval, i, |l|)
  }

  lemma {:induction false} TokenAt(l: seq<nat>, interval: nat, i: nat, n: nat, j: nat)
    requires interval >= 2 && j < n <= |l|
    ensures var t := Tokens(l, interval, i, n);
      && Width(i) * (j + 1) <= |t| && t[Width(i) * j] == Delta(l, j)
      && (i > 0 ==> t[2 * j + 1] == ChildPos(interval, i, j))
  {
    if j < n - 1 { TokenAt(l, interval, i, n - 1, j); }
  }

  lemma {:induction false} TokensPrefix(l: seq<nat>, x: nat, interval: nat, i: nat, n: nat)
    requires interval >= 2 && n <= |l|
    ensures Tokens(l + [x], interval, i, n) == Tokens(l, interval, i, n)
  {
    if n > 0 { TokensPrefix(l, x, interval, i, n - 1); }
  }

  /** The file: the levels that hold anything, highest first, each with its length; level 0 last. */
  function File(buffers: seq<seq<int>>, top: nat): seq<int>
    requires top < |buffers|
  {
    if top == 0 then buffers[0]
    else (if buffers[top] == [] then [] else [|buffers[top]|] + buffers[top]) + File(buffers, top - 1)
  }

  // ---------- growing ----------

  /** Does another level-0 entry add one to level `i`? */
  predicate Grows(docs: seq<nat>, interval: nat, i: nat)
    requires interval >= 2
  {
    i == 0 || (Grows(docs, interval, i - 1) && (|Level(docs, interval, i - 1)| + 1) % interval == 0)
  }

  lemma {:induction false} ThinGrows(l: seq<nat>, x: nat, interval: nat)
    requires interval >= 2
    ensures Thin(l + [x], interval) == Thin(l, interval) + if (|l| + 1) % interval == 0 then [x] else []
  {
    if |l| < interval {
      if |l| + 1 == interval {
        assert (l + [x])[interval..] == [];
        assert interval * 1 == interval;
        Quotient(interval, interval, 1);
      } else {
        assert interval * 0 == 0;
        Quotient(|l| + 1, interval, 0);
      }
    } else {
      ThinGrows(l[interval..], x, interval);
      assert (l + [x])[interval..] == l[interval..] + [x];
      OneLess(|l| + 1, interval);
    }
  }

  lemma {:induction false} LevelGrows(docs: seq<nat>, x: nat, interval: nat, i: nat)
    requires interval >= 2
    ensures Level(docs + [x], interval, i) == Level(docs, interval, i) + if Grows(docs, interval, i) then [x] else []
  {
    if i > 0 {
      LevelGrows(docs, x, interval, i - 1);
      var l := Level(docs, interval, i - 1);
      if Grows(docs, interval, i - 1) {
        ThinGrows(l, x, interval);
      } else {
        assert l + [] == l && Thin(l, interval) + [] == Thin(l, interval);
      }
    }
  }
}
