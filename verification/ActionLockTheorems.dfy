/**
 What the action lock promises in every reachable state.
 */
module ActionLockTheorems {
  import opened ContainerPaths
  import opened ActionLock
  import opened ActionLockProtocol
  import opened ActionLockSafety
  import opened Sums

  // ---------- exclusion ----------

  /** Write-origin holders form an antichain; an exclusive lock that was never downgraded owns its subtree. */
  lemma Exclusion(s: State, t: Tid, u: Tid)
    requires Reachable(s) && t in s.threads && u in s.threads && t != u
    ensures WriteOrigin(s.threads[t]) && WriteOrigin(s.threads[u])
      ==> !AtOrAbove(s.threads[t].at, s.threads[u].at) && !AtOrAbove(s.threads[u].at, s.threads[t].at)
    ensures s.threads[t].Holding? && s.threads[t].mode == Exclusive && Holds(s.threads[u])
      ==> !AtOrAbove(s.threads[t].at, s.threads[u].at)
    ensures InWriteMode(s.threads[t]) && Holds(s.threads[u]) ==> s.threads[t].at != s.threads[u].at
  {
    ReachableInv(s);
    if InWriteMode(s.threads[t]) && Holds(s.threads[u]) {
      HolderCounted(s, t);
      assert u !in HoldersAt(s.threads, s.threads[t].at);
    }
  }

  /** The assertions in `UnlockAction` and `DowngradeActionLock` never fire for a holder. */
  lemma AssertionsHold(s: State, t: Tid)
    requires Reachable(s) && t in s.threads && Holds(s.threads[t])
    ensures MayGiveBack(s.nodes, s.threads[t].at)
    ensures InWriteMode(s.threads[t]) ==> s.nodes[s.threads[t].at].actionLocked == -1
  {
    ReachableInv(s);
    HolderCounted(s, t);
  }

  // ---------- admission, told in terms of holders instead of counters ----------

  ghost predicate HolderAtOrAbove(ts: Threads, c: Path) {
    exists t :: t in ts && Holds(ts[t]) && AtOrAbove(ts[t].at, c)
  }

  lemma WriterAtIsOver(ts: Threads, a: Path, c: Path)
    ensures WriterAt(ts, a) && AtOrAbove(a, c) ==> WriterOver(ts, c)
  {
  }

  ghost predicate HolderBelow(ts: Threads, c: Path) {
    exists t :: t in ts && HoldsBelow(ts[t], c)
  }

  ghost predicate MarkAbove(nodes: Nodes, c: Path) {
    exists a :: a in nodes && Above(a, c) && nodes[a].pendingWrite
  }

  /**
   A live container admits a reader exactly when no writer is at or above it and no writer waits at or above it:
   who holds locks below it does not matter.
   */
  lemma SharedAdmission(s: State, c: Path)
    requires Reachable(s) && c in s.nodes && !s.nodes[c].destroyed
    ensures PassOutcome(s.nodes, c, true) == Acquired
      <==> !WriterOver(s.threads, c) && !s.nodes[c].pendingWrite && !MarkAbove(s.nodes, c)
  {
    ReachableInv(s);
    if WriterOver(s.threads, c) {
      var h :| h in s.threads && InWriteMode(s.threads[h]) && AtOrAbove(s.threads[h].at, c);
      HolderCounted(s, h);
      if Above(s.threads[h].at, c) {
        assert BlocksFromAbove(s.nodes[s.threads[h].at], true);
      }
      assert Busy(s.nodes, c, true);
    } else if MarkAbove(s.nodes, c) {
      var a :| a in s.nodes && Above(a, c) && s.nodes[a].pendingWrite;
      assert BlocksFromAbove(s.nodes[a], true);
    } else if !s.nodes[c].pendingWrite {
      forall a | a in s.nodes && AtOrAbove(a, c)
        ensures s.nodes[a].actionLocked >= 0
      {
        CountSign(s, a);
        WriterAtIsOver(s.threads, a, c);
      }
    }
  }

  /**
   It admits a writer exactly when nobody holds a lock at, above or below it and no writer waits above it.
   */
  lemma ExclusiveAdmission(s: State, c: Path)
    requires Reachable(s) && c in s.nodes && !s.nodes[c].destroyed
    ensures PassOutcome(s.nodes, c, false) == Acquired
      <==> !HolderAtOrAbove(s.threads, c) && !HolderBelow(s.threads, c) && !MarkAbove(s.nodes, c)
  {
    ReachableInv(s);
    if HolderAtOrAbove(s.threads, c) {
      var h :| h in s.threads && Holds(s.threads[h]) && AtOrAbove(s.threads[h].at, c);
      HolderCounted(s, h);
      if Above(s.threads[h].at, c) {
        assert BlocksFromAbove(s.nodes[s.threads[h].at], false);
      }
      assert Busy(s.nodes, c, false);
    } else if HolderBelow(s.threads, c) {
      var h :| h in s.threads && HoldsBelow(s.threads[h], c);
      HolderCounted(s, h);
      assert BlocksAtSelf(s.nodes[c], false);
    } else if MarkAbove(s.nodes, c) {
      var a :| a in s.nodes && Above(a, c) && s.nodes[a].pendingWrite;
      assert BlocksFromAbove(s.nodes[a], false);
    } else {
      NothingHeldMeansZero(s, c);
    }
  }

  lemma NothingHeldMeansZero(s: State, c: Path)
    requires Inv(s) && c in s.nodes && !HolderAtOrAbove(s.threads, c) && !HolderBelow(s.threads, c)
    ensures s.nodes[c].subtreeRead == 0
    ensures forall a :: a in s.nodes && AtOrAbove(a, c) ==> s.nodes[a].actionLocked == 0
  {
    assert CountAt(s, c);
    assert HoldersBelow(s.threads, c) == {};
    forall a | a in s.nodes && AtOrAbove(a, c)
      ensures s.nodes[a].actionLocked == 0
    {
      assert CountAt(s, a);
      assert HoldersAt(s.threads, a) == {};
    }
  }

  // ---------- the counters ----------

  /** The registered strict descendants. */
  function Descendants(nodes: Nodes, c: Path): set<Path> {
    set p | p in nodes && Above(c, p)
  }

  /** The number of locks held at a container, as its own count says. */
  function LocksAt(nodes: Nodes): Path -> int {
    (p: Path) => if p !in nodes then 0 else if nodes[p].actionLocked < 0 then -nodes[p].actionLocked else nodes[p].actionLocked
  }

  function HoldersIn(ts: Threads, d: set<Path>): set<Tid> {
    set t | t in ts && Holds(ts[t]) && ts[t].at in d
  }

  lemma HoldersSplit(ts: Threads, d: set<Path>, p: Path)
    requires p in d
    ensures |HoldersIn(ts, d)| == |HoldersIn(ts, d - {p})| + |HoldersAt(ts, p)|
  {
    assert HoldersIn(ts, d) == HoldersIn(ts, d - {p}) + HoldersAt(ts, p);
    assert HoldersIn(ts, d - {p}) !! HoldersAt(ts, p);
  }

  lemma LocksAreHolders(s: State, p: Path)
    requires p in s.nodes && CountAt(s, p)
    ensures LocksAt(s.nodes)(p) == |HoldersAt(s.threads, p)|
  {
  }

  lemma {:induction false} SumCountsHolders(s: State, d: set<Path>)
    requires CountInv(s) && d <= s.nodes.Keys
    ensures Sum(d, LocksAt(s.nodes)) == |HoldersIn(s.threads, d)|
    decreases |d|
  {
    if d == {} {
      assert HoldersIn(s.threads, d) == {};
    } else {
      var p := Pick(d);
      LocksAreHolders(s, p);
      HoldersSplit(s.threads, d, p);
      SumCountsHolders(s, d - {p});
    }
  }

  /** `SubtreeRead` is the sum of |`ActionLocked`| over the strict descendants, and `ActionLocked` is at least -1. */
  lemma CountersAgree(s: State, c: Path)
    requires Reachable(s) && c in s.nodes
    ensures s.nodes[c].subtreeRead == Sum(Descendants(s.nodes, c), LocksAt(s.nodes))
    ensures s.nodes[c].actionLocked >= -1
  {
    ReachableInv(s);
    assert CountAt(s, c);
    var below := Descendants(s.nodes, c);
    SumCountsHolders(s, below);
    assert HoldersIn(s.threads, below) == HoldersBelow(s.threads, c);
  }

  // ---------- no lost wake-up, no deadlock ----------

  /** The thread waits, and its guard is true. */
  ghost predicate Ready(nodes: Nodes, st: Status) {
    Waits(st) && st.at in nodes && Guard(nodes, st)
  }

  lemma SleeperStays(s: State, e: Event, u: Tid)
    requires May(s, e) && u in s.threads && Asleep(s.threads[u])
    ensures u in Next(s, e).threads
    ensures Asleep(Next(s, e).threads[u]) ==> Next(s, e).threads[u] == s.threads[u]
    ensures !Asleep(Next(s, e).threads[u]) ==> e == Spurious(u) || e.Unlock? || e.Downgrade? || e.Abandon?
  {
  }

  lemma DestroyedByUnregister(s: State, e: Event, p: Path)
    requires May(s, e) && p in s.nodes && !s.nodes[p].destroyed
    ensures p in Next(s, e).nodes
    ensures Next(s, e).nodes[p].destroyed ==> e.Abandon? || (e.Unregister? && e.c == p)
  {
  }

  /** A sleeper sleeps on through the destruction of its container, and could go on. */
  lemma DestroyedIsReady(s: State, e: Event, u: Tid)
    requires May(s, e) && e.Unregister? && u in s.threads && Asleep(s.threads[u]) && s.threads[u].Locking?
    requires e.c == s.threads[u].at
    ensures u in Next(s, e).threads && Asleep(Next(s, e).threads[u]) && Ready(Next(s, e).nodes, Next(s, e).threads[u])
  {
  }

  /**
   A step leaves a sleeper behind whose condition it made true exactly when it is the destruction of the container
   that the sleeper wants to lock; and then the destroyer has still to unlock.
   */
  lemma NoLostWakeup(s: State, e: Event, u: Tid)
    requires Reachable(s) && May(s, e)
    requires u in s.threads && Asleep(s.threads[u]) && !Ready(s.nodes, s.threads[u])
    ensures u in Next(s, e).threads
    ensures Asleep(Next(s, e).threads[u]) && Ready(Next(s, e).nodes, Next(s, e).threads[u])
      <==> e.Unregister? && e.c == s.threads[u].at && s.threads[u].Locking?
    ensures Asleep(Next(s, e).threads[u]) && Ready(Next(s, e).nodes, Next(s, e).threads[u])
      ==> WriterOver(Next(s, e).threads, s.threads[u].at)
  {
    ReachableInv(s);
    StepKeepsInv(s, e);
    SleeperStays(s, e, u);
    assert WakeOf(Next(s, e), Next(s, e).threads[u]);
    LeftBehind(s, e, u);
    if e.Unregister? && e.c == s.threads[u].at && s.threads[u].Locking? {
      DestroyedIsReady(s, e, u);
    }
  }

  lemma LeftBehind(s: State, e: Event, u: Tid)
    requires May(s, e) && u in s.threads && Asleep(s.threads[u]) && s.threads[u].at in s.nodes
    requires !Ready(s.nodes, s.threads[u])
    requires u in Next(s, e).threads && WakeOf(Next(s, e), Next(s, e).threads[u])
    ensures Asleep(Next(s, e).threads[u]) && Ready(Next(s, e).nodes, Next(s, e).threads[u])
      ==> && e.Unregister? && e.c == s.threads[u].at && s.threads[u].Locking?
          && WriterOver(Next(s, e).threads, s.threads[u].at)
  {
    SleeperStays(s, e, u);
    if !s.nodes[s.threads[u].at].destroyed {
      DestroyedByUnregister(s, e, s.threads[u].at);
    }
  }

  /** Some blocked thread can go on whenever no holder is running. */
  lemma DeadlockFree(s: State, w: Tid) returns (u: Tid)
    requires Inv(s) && w in s.threads && Waits(s.threads[w])
    requires forall h :: h in s.threads ==> !s.threads[h].Holding?
    ensures u in s.threads && Ready(s.nodes, s.threads[u])
  {
    if g :| g in s.threads && s.threads[g].Upgrading? {
      OnlyUpgraderLeft(s, g);
      return g;
    }
    forall h | h in s.threads
      ensures !Holds(s.threads[h])
    {
    }
    if d :| d in s.threads && s.threads[d].Locking? && s.nodes[s.threads[d].at].destroyed {
      return d;
    }
    u := HighestWaiter(s, w);
  }

  lemma OnlyUpgraderLeft(s: State, g: Tid)
    requires Inv(s) && g in s.threads && s.threads[g].Upgrading?
    requires forall h :: h in s.threads ==> !s.threads[h].Holding?
    ensures s.nodes[s.threads[g].at].actionLocked == 1
  {
    var c := s.threads[g].at;
    assert CountAt(s, c);
    forall h | h in HoldersAt(s.threads, c)
      ensures h == g
    {
      assert WriteOrigin(s.threads[h]) && WriteOrigin(s.threads[g]);
    }
    assert g in HoldersAt(s.threads, c);
    assert HoldersAt(s.threads, c) == {g};
  }

  /** With no holder and no destroyed target, the waiting writer nearest to the root can go on; else any reader. */
  lemma {:induction false} HighestWaiter(s: State, w: Tid) returns (u: Tid)
    requires Inv(s) && w in s.threads && s.threads[w].Locking?
    requires forall h :: h in s.threads ==> !Holds(s.threads[h])
    requires forall d :: d in s.threads && s.threads[d].Locking? ==> !s.nodes[s.threads[d].at].destroyed
    ensures u in s.threads && Ready(s.nodes, s.threads[u])
    decreases |s.threads[w].at|, s.threads[w].shared
  {
    var c := s.threads[w].at;
    NothingHeldMeansZero(s, c);
    if MarkAbove(s.nodes, c) {
      var a :| a in s.nodes && Above(a, c) && s.nodes[a].pendingWrite;
      assert WriteWaiter(s.threads, a);
      var v :| v in s.threads && WantsWrite(s.threads[v], a);
      u := HighestWaiter(s, v);
    } else if s.threads[w].shared && s.nodes[c].pendingWrite {
      assert WriteWaiter(s.threads, c);
      var v :| v in s.threads && WantsWrite(s.threads[v], c);
      u := HighestWaiter(s, v);
    } else {
      u := w;
      forall a | a in s.nodes && Above(a, c)
        ensures !BlocksFromAbove(s.nodes[a], s.threads[w].shared)
      {
        assert !s.nodes[a].pendingWrite;
      }
      assert !Busy(s.nodes, c, s.threads[w].shared);
    }
  }

  /** In every reachable state with a waiting thread, a holder is running or an awake waiter can go on. */
  lemma NeverStuck(s: State, w: Tid) returns (u: Tid)
    requires Reachable(s) && w in s.threads && Waits(s.threads[w])
    ensures u in s.threads
    ensures s.threads[u].Holding? || (Ready(s.nodes, s.threads[u]) && s.threads[u].awake)
  {
    ReachableInv(s);
    if h :| h in s.threads && s.threads[h].Holding? {
      return h;
    }
    u := DeadlockFree(s, w);
  }

  // ---------- upgrade ----------

  /** A thread becomes a holder only by a pass that acquires. */
  lemma HolderEntersByPass(s: State, e: Event, u: Tid)
    requires May(s, e) && u in Next(s, e).threads && Holds(Next(s, e).threads[u])
    ensures u in s.threads
    ensures Holds(s.threads[u]) ==> Next(s, e).threads[u].at == s.threads[u].at
    ensures !Holds(s.threads[u]) ==> e == LockPass(u) && Next(s, e).threads[u].at == s.threads[u].at
    ensures !Holds(s.threads[u]) ==> PassOutcome(s.nodes, s.threads[u].at, s.threads[u].shared) == Acquired
  {
  }

  /** While an exclusive holder keeps write mode, nobody enters its container or its subtree. */
  lemma WriterAdmitsNobody(s: State, e: Event, t: Tid)
    requires Reachable(s) && May(s, e) && t in s.threads && InWriteMode(s.threads[t])
    requires t in Next(s, e).threads && Next(s, e).threads[t] == s.threads[t]
    ensures HoldersAt(Next(s, e).threads, s.threads[t].at) == {t}
    ensures HoldersBelow(Next(s, e).threads, s.threads[t].at) <= HoldersBelow(s.threads, s.threads[t].at)
  {
    ReachableInv(s);
    StepKeepsInv(s, e);
    HolderCounted(Next(s, e), t);
    forall u | u in HoldersBelow(Next(s, e).threads, s.threads[t].at)
      ensures u in HoldersBelow(s.threads, s.threads[t].at)
    {
      HolderEntersByPass(s, e, u);
      WriterBlocksBelow(s, t, s.threads[u].at, true);
      WriterBlocksBelow(s, t, s.threads[u].at, false);
    }
  }

  lemma WriterBlocksBelow(s: State, t: Tid, d: Path, shared: bool)
    requires Inv(s) && t in s.threads && InWriteMode(s.threads[t]) && d in s.nodes && AtOrAbove(s.threads[t].at, d)
    ensures PassOutcome(s.nodes, d, shared) != Acquired
  {
    var c := s.threads[t].at;
    HolderCounted(s, t);
    if c != d {
      assert Above(c, d) && BlocksFromAbove(s.nodes[c], shared);
    }
  }

  /**
   The upgrade gives the subtree back to its holder exactly when nobody held a lock below: the wait loop of
   `UpgradeActionLock` tests `ActionLocked` and not `SubtreeRead`.
   */
  lemma UpgradeOwnsSubtree(s: State, t: Tid)
    requires Reachable(s) && May(s, UpgradePass(t)) && Guard(s.nodes, s.threads[t])
    ensures InWriteMode(Next(s, UpgradePass(t)).threads[t])
    ensures HoldersAt(Next(s, UpgradePass(t)).threads, s.threads[t].at) == {t}
    ensures HoldersBelow(Next(s, UpgradePass(t)).threads, s.threads[t].at) == {} <==> s.nodes[s.threads[t].at].subtreeRead == 0
  {
    ReachableInv(s);
    var c, s' := s.threads[t].at, Next(s, UpgradePass(t));
    StepKeepsInv(s, UpgradePass(t));
    HolderCounted(s', t);
    assert CountAt(s', c);
  }

  /** The unlocks in a run by threads that hold a lock at `c`. */
  ghost function UnlocksAt(s: State, run: seq<Event>, c: Path): nat
    requires Feasible(s, run)
    decreases |run|
  {
    if run == [] then 0
    else
      (if run[0].Unlock? && HoldsAt(s.threads[run[0].t], c) then 1 else 0)
      + UnlocksAt(Next(s, run[0]), run[1..], c)
  }

  /** The thread stays in `UpgradeActionLock` all through the run. */
  ghost predicate StaysUpgrading(s: State, run: seq<Event>, t: Tid, c: Path)
    requires Feasible(s, run)
    decreases |run|
  {
    && t in s.threads && s.threads[t].Upgrading? && s.threads[t].at == c
    && (run == [] || StaysUpgrading(Next(s, run[0]), run[1..], t, c))
  }

  /** No second holder can be in or on its way back to write mode on the container of an upgrade. */
  lemma OtherHoldersRead(s: State, u: Tid, t: Tid)
    requires Inv(s) && t in s.threads && s.threads[t].Upgrading? && u in s.threads && u != t
    requires WriteOrigin(s.threads[u])
    ensures s.threads[u].at != s.threads[t].at
  {
    assert WriteOrigin(s.threads[t]) && !AtOrAbove(s.threads[u].at, s.threads[t].at);
  }

  /** On a marked container held by readers, only an unlock there moves the count. */
  lemma MarkedCountMoves(s: State, e: Event, c: Path)
    requires May(s, e) && c in s.nodes && s.nodes[c].pendingWrite && s.nodes[c].actionLocked >= 1
    requires e.Downgrade? || e.Abandon? ==> s.threads[e.t].at != c
    requires e.UpgradePass? && s.threads[e.t].at == c ==> s.nodes[c].actionLocked != 1
    ensures c in Next(s, e).nodes
    ensures Next(s, e).nodes[c].actionLocked
      == s.nodes[c].actionLocked - (if e.Unlock? && HoldsAt(s.threads[e.t], c) then 1 else 0)
  {
    assert BlocksAtSelf(s.nodes[c], true) && BlocksAtSelf(s.nodes[c], false);
  }

  lemma UpgradeStepCount(s: State, e: Event, t: Tid)
    requires Inv(s) && May(s, e) && t in s.threads && s.threads[t].Upgrading?
    requires t in Next(s, e).threads && Next(s, e).threads[t].Upgrading?
    ensures s.threads[t].at in s.nodes && s.threads[t].at in Next(s, e).nodes
    ensures Next(s, e).nodes[s.threads[t].at].actionLocked
      == s.nodes[s.threads[t].at].actionLocked - (if e.Unlock? && HoldsAt(s.threads[e.t], s.threads[t].at) then 1 else 0)
  {
    HolderCounted(s, t);
    if e.t != t && WriteOrigin(s.threads[e.t]) {
      OtherHoldersRead(s, e.t, t);
    }
    MarkedCountMoves(s, e, s.threads[t].at);
  }

  /** An upgrade that found `n` holders is admitted after exactly `n - 1` of them have unlocked; nobody new gets in. */
  lemma {:induction false} UpgradeCountdown(s: State, run: seq<Event>, t: Tid, c: Path)
    requires Inv(s) && c in s.nodes && Feasible(s, run) && StaysUpgrading(s, run, t, c)
    ensures c in After(s, run).nodes && After(s, run).nodes[c].actionLocked == s.nodes[c].actionLocked - UnlocksAt(s, run, c)
    ensures t in After(s, run).threads
    ensures Ready(After(s, run).nodes, After(s, run).threads[t]) <==> UnlocksAt(s, run, c) == s.nodes[c].actionLocked - 1
    decreases |run|
  {
    if run != [] {
      UpgradeStepCount(s, run[0], t);
      StepKeepsInv(s, run[0]);
      UpgradeCountdown(Next(s, run[0]), run[1..], t, c);
    }
  }
}
