/**
 The read/write lock of an IndexWriter, as the steps its threads take under the object lock:
 any number of readers, or one writer, and a reader may upgrade while the other readers upgrade too.
 */
module WriteLocks {

  /** A thread's id; zero stands for no thread. */
  type Thread = t: int | t != 0 witness 1

  datatype Call = ForRead | ForWrite | ForUpgrade

  /** The three fields of the lock, with each thread's read locks and the call it is blocked in. */
  datatype Locks = Locks(
    readCount: int, upgradeCount: int, writeThread: int,
    readers: multiset<Thread>, waiting: map<Thread, Call>)

  /** `Enter` begins a call; `Pass` is the turn of its wait loop that lets it through;
      `GiveUp` is an acquireWrite that comes through its loop and finds the writer closed. */
  datatype Event =
    | Enter(t: Thread, call: Call)
    | Pass(t: Thread)
    | GiveUp(t: Thread)
    | ReleaseRead(t: Thread)
    | ReleaseWrite(t: Thread)

  function Upgraders(s: Locks): set<Thread> { set t | t in s.waiting && s.waiting[t] == ForUpgrade }

  /** The wait loop of `call` ends for thread `t`. */
  predicate MayPass(s: Locks, t: Thread, call: Call) {
    match call
    case ForRead => s.writeThread == 0 || s.writeThread == t
    case ForWrite => s.writeThread == 0 && s.readCount <= 0
    case ForUpgrade => s.readCount <= s.upgradeCount && s.writeThread == 0
  }

  /** What a thread can do next: begin what its caller is entitled to, go on when its loop ends, or give back. */
  predicate Allowed(s: Locks, e: Event) {
    match e
    case Enter(t, call) =>
      t !in s.waiting && (call.ForWrite? ==> s.writeThread != t) && (call.ForUpgrade? ==> t in s.readers)
    case Pass(t) => t in s.waiting && MayPass(s, t, s.waiting[t])
    case GiveUp(t) => t in s.waiting && s.waiting[t] == ForWrite && MayPass(s, t, ForWrite)
    case ReleaseRead(t) => t !in s.waiting && t in s.readers
    case ReleaseWrite(t) => t !in s.waiting && s.writeThread == t
  }

  function Passed(s: Locks, t: Thread): Locks
    requires t in s.waiting
  {
    var rest := s.(waiting := s.waiting - {t});
    match s.waiting[t]
    case ForRead => rest.(readCount := s.readCount + 1, readers := s.readers + multiset{t})
    case ForWrite => rest.(writeThread := t)
    case ForUpgrade =>
      rest.(writeThread := t, readCount := s.readCount - 1, upgradeCount := s.upgradeCount - 1,
            readers := s.readers - multiset{t})
  }

  function Step(s: Locks, e: Event): Locks
    requires Allowed(s, e)
  {
    match e
    case Enter(t, call) =>
      s.(waiting := s.waiting[t := call], upgradeCount := s.upgradeCount + if call.ForUpgrade? then 1 else 0)
    case Pass(t) => Passed(s, t)
    case GiveUp(t) => s.(waiting := s.waiting - {t})
    case ReleaseRead(t) => s.(readCount := s.readCount - 1, readers := s.readers - multiset{t})
    case ReleaseWrite(t) => s.(writeThread := 0)
  }

  const UNLOCKED := Locks(0, 0, 0, multiset{}, map[])

  predicate IsRun(s: Locks, es: seq<Event>)
    decreases |es|
  {
    es == [] || (Allowed(s, es[0]) && IsRun(Step(s, es[0]), es[1..]))
  }

  function After(s: Locks, es: seq<Event>): Locks
    requires IsRun(s, es)
    decreases |es|
  {
    if es == [] then s else After(Step(s, es[0]), es[1..])
  }

  /** The threads that were let through to write and have not released the write lock, told from the run alone. */
  function Writing(s: Locks, es: seq<Event>, held: set<Thread>): set<Thread>
    requires IsRun(s, es)
    decreases |es|
  {
    if es == [] then held
    else
      Writing(Step(s, es[0]), es[1..],
              match es[0]
              case Pass(t) => if s.waiting[t] == ForRead then held else held + {t}
              case ReleaseWrite(t) => held - {t}
              case _ => held)
  }

  /** While a thread writes, every other thread with a read lock has one, and is blocked in upgradeReadToWrite. */
  ghost predicate Exclusive(s: Locks) {
    s.writeThread != 0 ==>
      forall t: Thread :: t in s.readers && t != s.writeThread ==> t in Upgraders(s) && s.readers[t] == 1
  }

  ghost predicate Counted(s: Locks) {
    && s.readCount == |s.readers|
    && s.upgradeCount == |Upgraders(s)|
    && (forall t :: t in Upgraders(s) ==> t in s.readers)
    && (forall t :: t in s.waiting && s.waiting[t] == ForWrite ==> s.writeThread != t)
  }

  /** A set of readers is no larger than the read locks held, and only as large when they are all there is. */
  lemma {:induction false} ReadersBound(readers: multiset<Thread>, some: set<Thread>)
    requires forall t :: t in some ==> t in readers
    ensures |some| <= |readers|
    ensures |some| == |readers| <==> (forall t :: t in readers ==> t in some && readers[t] == 1)
  {
    if some == {} {
      if readers != multiset{} { var t :| t in readers; }
    } else {
      var t :| t in some;
      var n := readers[t];
      var others := readers[t := 0];
      assert readers == others[t := n];
      ReadersBound(others, some - {t});
      if |some| == |readers| {
        forall u | u in readers ensures u in some && readers[u] == 1 {
          if u != t { assert u in others && others[u] == readers[u]; }
        }
      }
      if forall u :: u in readers ==> u in some && readers[u] == 1 {
        assert forall u :: u in others ==> u in some - {t} && others[u] == 1;
      }
    }
  }

  lemma UpgradeKeeps(s: Locks, t: Thread)
    requires Counted(s) && Allowed(s, Pass(t)) && s.waiting[t] == ForUpgrade
    ensures Counted(Passed(s, t)) && Exclusive(Passed(s, t))
  {
    var r := Passed(s, t);
    ReadersBound(s.readers, Upgraders(s));
    assert Upgraders(r) == Upgraders(s) - {t};
    forall u: Thread | u in r.readers && u != t ensures u in Upgraders(r) && r.readers[u] == 1 {
      assert u in s.readers;
    }
    forall u | u in Upgraders(r) ensures u in r.readers {
      assert u in s.readers && u != t;
    }
  }

  lemma PassKeeps(s: Locks, t: Thread)
    requires Counted(s) && Exclusive(s) && Allowed(s, Pass(t))
    ensures Counted(Passed(s, t)) && Exclusive(Passed(s, t))
  {
    if s.waiting[t] == ForUpgrade {
      UpgradeKeeps(s, t);
    } else {
      assert Upgraders(Passed(s, t)) == Upgraders(s);
      assert s.waiting[t] == ForWrite ==> s.readers == multiset{};
    }
  }

  lemma ReleaseReadKeeps(s: Locks, t: Thread)
    requires Counted(s) && Exclusive(s) && Allowed(s, ReleaseRead(t))
    ensures Counted(Step(s, ReleaseRead(t))) && Exclusive(Step(s, ReleaseRead(t)))
  {
    var r := Step(s, ReleaseRead(t));
    assert Upgraders(r) == Upgraders(s);
    forall u | u in Upgraders(r) ensures u in r.readers {
      assert u in s.readers && u != t;
    }
  }

  lemma StepKeeps(s: Locks, e: Event)
    requires Counted(s) && Exclusive(s) && Allowed(s, e)
    ensures Counted(Step(s, e)) && Exclusive(Step(s, e))
  {
    match e {
      case Enter(t, call) =>
        assert Upgraders(Step(s, e)) == if call.ForUpgrade? then Upgraders(s) + {t} else Upgraders(s);
      case Pass(t) => PassKeeps(s, t);
      case ReleaseRead(t) => ReleaseReadKeeps(s, t);
      case GiveUp(_) => assert Upgraders(Step(s, e)) == Upgraders(s);
      case ReleaseWrite(_) => assert Upgraders(Step(s, e)) == Upgraders(s);
    }
  }

  lemma {:induction false} RunKeeps(s: Locks, es: seq<Event>, held: set<Thread>)
    requires Counted(s) && Exclusive(s) && IsRun(s, es)
    requires held == if s.writeThread == 0 then {} else {s.writeThread}
    ensures Counted(After(s, es)) && Exclusive(After(s, es))
    ensures Writing(s, es, held) == if After(s, es).writeThread == 0 then {} else {After(s, es).writeThread}
    decreases |es|
  {
    if es != [] {
      StepKeeps(s, es[0]);
      var next := match es[0]
        case Pass(t) => if s.waiting[t] == ForRead then held else held + {t}
        case ReleaseWrite(t) => held - {t}
        case _ => held;
      RunKeeps(Step(s, es[0]), es[1..], next);
    }
  }

  /** In every run at most one thread holds the write lock, and while it does no other thread reads:
      whoever else has a read lock is blocked in upgradeReadToWrite. The counters are what they say. */
  lemma WritersExclude(es: seq<Event>)
    requires IsRun(UNLOCKED, es)
    ensures var s := After(UNLOCKED, es);
            && Writing(UNLOCKED, es, {}) == (if s.writeThread == 0 then {} else {s.writeThread})
            && (forall w, t :: w in Writing(UNLOCKED, es, {}) && t in s.readers && t != w ==>
                                 t in s.waiting && s.waiting[t] == ForUpgrade)
            && s.readCount == |s.readers| && s.upgradeCount == |Upgraders(s)|
  {
    RunKeeps(UNLOCKED, es, {});
  }

  /** `t` waits for a lock it holds itself. */
  predicate SelfBlocked(s: Locks, t: Thread) {
    && t in s.waiting
    && match s.waiting[t]
       case ForRead => false
       case ForWrite => t in s.readers
       case ForUpgrade => s.writeThread == t || s.readers[t] > 1
  }

  /** Everyone who holds a lock is blocked, so that only a wait loop that ends can move the lock on. */
  ghost predicate HoldersBlocked(s: Locks) {
    && (forall t :: t in s.readers ==> t in s.waiting)
    && (forall t: Thread :: s.writeThread == t ==> t in s.waiting)
  }

  /** Once every holder is blocked the lock is dead exactly when some thread waits for a lock it holds itself
      and no reader can be let in: readers that upgrade never block each other for good. */
  lemma DeadlockIff(es: seq<Event>)
    requires IsRun(UNLOCKED, es)
    requires HoldersBlocked(After(UNLOCKED, es)) && After(UNLOCKED, es).waiting != map[]
    ensures var s := After(UNLOCKED, es);
            (forall t :: t in s.waiting ==> !MayPass(s, t, s.waiting[t])) <==>
            && (exists t :: SelfBlocked(s, t))
            && (forall t :: t in s.waiting && s.waiting[t] == ForRead ==> !MayPass(s, t, ForRead))
  {
    RunKeeps(UNLOCKED, es, {});
    var s := After(UNLOCKED, es);
    ReadersBound(s.readers, Upgraders(s));
    if t :| SelfBlocked(s, t) {
      SelfBlockedStops(s, t);
    }
    if forall t :: t in s.waiting ==> !MayPass(s, t, s.waiting[t]) {
      SomeoneBlocksItself(s);
    }
  }

  /** Such a run: a thread that reads asks to write without upgrading. */
  lemma ReaderBlocksItself(t: Thread)
    ensures var es := [Enter(t, ForRead), Pass(t), Enter(t, ForWrite)];
      && IsRun(UNLOCKED, es) && HoldersBlocked(After(UNLOCKED, es)) && After(UNLOCKED, es).waiting == map[t := ForWrite]
      && SelfBlocked(After(UNLOCKED, es), t) && !MayPass(After(UNLOCKED, es), t, ForWrite)
  {
    var one := Step(UNLOCKED, Enter(t, ForRead));
    var two := Step(one, Pass(t));
    assert two.waiting == map[];
    var es := [Enter(t, ForRead), Pass(t), Enter(t, ForWrite)];
    assert es[1..] == [Pass(t), Enter(t, ForWrite)] && es[1..][1..] == [Enter(t, ForWrite)] && es[1..][1..][1..] == [];
    assert After(two, es[1..][1..]) == Step(two, Enter(t, ForWrite));
  }

  lemma SelfBlockedStops(s: Locks, t: Thread)
    requires Counted(s) && Exclusive(s) && SelfBlocked(s, t)
    ensures forall u :: u in s.waiting && s.waiting[u] != ForRead ==> !MayPass(s, u, s.waiting[u])
  {
    ReadersBound(s.readers, Upgraders(s));
    assert s.writeThread == 0 ==> t in s.readers && s.readers[t] <= |s.readers|;
  }

  lemma SomeoneBlocksItself(s: Locks)
    requires Counted(s) && Exclusive(s) && HoldersBlocked(s) && s.waiting != map[]
    requires forall t :: t in s.waiting ==> !MayPass(s, t, s.waiting[t])
    ensures exists t :: SelfBlocked(s, t)
  {
    if s.writeThread != 0 {
      var w: Thread := s.writeThread;
      assert w in s.waiting && !MayPass(s, w, s.waiting[w]);
      assert SelfBlocked(s, w);
    } else {
      var t :| t in s.waiting;
      assert !MayPass(s, t, s.waiting[t]);
      assert t in s.readers || s.readCount > 0;
      var r :| r in s.readers;
      assert !MayPass(s, r, s.waiting[r]);
      if s.waiting[r] == ForWrite {
        assert SelfBlocked(s, r);
      } else {
        ReadersBound(s.readers, Upgraders(s));
        var u :| u in s.readers && !(u in Upgraders(s) && s.readers[u] == 1);
        assert !MayPass(s, u, s.waiting[u]);
        assert SelfBlocked(s, u);
      }
    }
  }

  /** The fields as the methods of IndexWriter change them; a blocking method takes a turn of its wait loop
      per call, and `done` says whether the turn let it through. */
  class WriteLock {
    var readCount: int
    var upgradeCount: int
    var writeThread: int
    ghost var readers: multiset<Thread>
    ghost var waiting: map<Thread, Call>

    ghost function State(): Locks
      reads this
    {
      Locks(readCount, upgradeCount, writeThread, readers, waiting)
    }

    constructor ()
      ensures State() == UNLOCKED
    {
      readCount, upgradeCount, writeThread := 0, 0, 0;
      readers, waiting := multiset{}, map[];
    }

    /** The start of acquireWrite or acquireRead, and of upgradeReadToWrite, which makes its wish known at once. */
    method Begin(t: Thread, call: Call)
      requires Allowed(State(), Enter(t, call))
      modifies this
      ensures State() == Step(old(State()), Enter(t, call))
    {
      if call == ForUpgrade { upgradeCount := upgradeCount + 1; }
      waiting := waiting[t := call];
    }

    method AcquireWrite(t: Thread, open: bool) returns (done: bool)
      requires t in waiting && waiting[t] == ForWrite
      modifies this
      ensures done == MayPass(old(State()), t, ForWrite)
      ensures State() == if !done then old(State())
                         else if open then Step(old(State()), Pass(t)) else Step(old(State()), GiveUp(t))
    {
      done := !(writeThread != 0 || readCount > 0);
      if done {
        if open { writeThread := t; }
        waiting := waiting - {t};
      }
    }

    method AcquireRead(t: Thread) returns (done: bool)
      requires t in waiting && waiting[t] == ForRead
      modifies this
      ensures done == MayPass(old(State()), t, ForRead)
      ensures State() == if done then Step(old(State()), Pass(t)) else old(State())
    {
      done := !(writeThread != 0 && writeThread != t);
      if done {
        readCount := readCount + 1;
        readers, waiting := readers + multiset{t}, waiting - {t};
      }
    }

    method UpgradeReadToWrite(t: Thread) returns (done: bool)
      requires t in waiting && waiting[t] == ForUpgrade
      modifies this
      ensures done == MayPass(old(State()), t, ForUpgrade)
      ensures State() == if done then Step(old(State()), Pass(t)) else old(State())
    {
      done := !(readCount > upgradeCount || writeThread != 0);
      if done {
        ghost var next := Passed(State(), t);
        writeThread := t;
        readCount := readCount - 1;
        upgradeCount := upgradeCount - 1;
        readers, waiting := next.readers, next.waiting;
      }
    }

    method ReleaseRead(t: Thread)
      requires Allowed(State(), Event.ReleaseRead(t))
      modifies this
      ensures State() == Step(old(State()), Event.ReleaseRead(t))
    {
      readCount := readCount - 1;
      readers := readers - multiset{t};
    }

    method ReleaseWrite(t: Thread)
      requires Allowed(State(), Event.ReleaseWrite(t))
      modifies this
      ensures State() == Step(old(State()), Event.ReleaseWrite(t))
    {
      writeThread := 0;
    }
  }
}
