/**
 What the writer's mark does against starvation: while a writer sleeps, no reader
 is let in at or below its container. A writer that was woken has no such
 protection: the mark goes with the first writer that gets the lock.
 */
module ActionLockStarvation {
  import opened ContainerPaths
  import opened ActionLock
  import opened ActionLockProtocol
  import opened ActionLockSafety
  import opened ActionLockTheorems
  import opened ActionLockWitness

  predicate SleepsToWrite(st: Status) {
    Asleep(st) && st.Locking? && !st.shared
  }

  /** Where a writer sleeps there is its mark, or a lock in write mode. */
  ghost predicate ShutsOut(s: State, st: Status) {
    SleepsToWrite(st) && st.at in s.nodes ==> s.nodes[st.at].pendingWrite || WriterAt(s.threads, st.at)
  }

  ghost predicate SleeperInv(s: State) {
    forall t :: t in s.threads ==> ShutsOut(s, s.threads[t])
  }

  // ---------- every step keeps it ----------

  lemma QuietShutsOut(s: State, t: Tid, st: Status, c: Path, mark: bool)
    requires SleeperInv(s) && t in s.threads && c in s.nodes && SameRole(s.threads[t], st)
    requires SleepsToWrite(st) ==> mark && c == st.at
    ensures SleeperInv(Quiet(s, t, st, c, mark))
  {
    var s' := Quiet(s, t, st, c, mark);
    SameRoleHolders(s.threads, t, st);
    forall u | u in s'.threads
      ensures ShutsOut(s', s'.threads[u])
    {
      if u != t && s.threads[u] != Idle {
        assert ShutsOut(s, s.threads[u]);
        SameHoldersSets(s.threads, s'.threads, s.threads[u].at);
      }
    }
  }

  lemma TakeShutsOutOf(s: State, t: Tid, w: Status)
    requires CountInv(s) && MayTake(s, t) && ShutsOut(s, w)
    ensures ShutsOut(Taken(s, t), w)
  {
    var c := s.threads[t].at;
    if SleepsToWrite(w) && w.at in s.nodes {
      HolderAdded(s.threads, t, Taken(s, t).threads[t], w.at);
      if w.at == c {
        CountSign(s, c);
        assert !BlocksAtSelf(s.nodes[c], s.threads[t].shared);
      }
    }
  }

  lemma TakeShutsOut(s: State, t: Tid)
    requires CountInv(s) && MayTake(s, t) && SleeperInv(s)
    ensures SleeperInv(Taken(s, t))
  {
    forall u | u in Taken(s, t).threads
      ensures ShutsOut(Taken(s, t), Taken(s, t).threads[u])
    {
      if u != t {
        TakeShutsOutOf(s, t, s.threads[u]);
      }
    }
  }

  lemma UpgradeShutsOut(s: State, t: Tid)
    requires SleeperInv(s) && t in s.threads && s.threads[t].Upgrading? && s.threads[t].at in s.nodes
    ensures SleeperInv(UpgradeDone(s, t))
  {
    var s' := UpgradeDone(s, t);
    forall u | u in s'.threads
      ensures ShutsOut(s', s'.threads[u])
    {
      if u != t && s.threads[u] != Idle {
        assert ShutsOut(s, s.threads[u]);
        ChangeHolders(s.threads, t, s'.threads[t], s.threads[u].at);
      }
    }
  }

  lemma NotifiedShutsOut(s: State)
    ensures SleeperInv(Notified(s))
  {
  }

  lemma TreeShutsOut(s: State, nodes: Nodes)
    requires SleeperInv(s) && TreeInv(s)
    requires forall p :: p in s.nodes ==> p in nodes && nodes[p].pendingWrite == s.nodes[p].pendingWrite
    ensures SleeperInv(State(nodes, s.threads))
  {
    forall u | u in s.threads
      ensures ShutsOut(State(nodes, s.threads), s.threads[u])
    {
      assert ShutsOut(s, s.threads[u]);
    }
  }

  lemma PassShutsOut(s: State, t: Tid)
    requires CountInv(s) && SleeperInv(s) && May(s, LockPass(t))
    ensures SleeperInv(Next(s, LockPass(t)))
  {
    var c, shared := s.threads[t].at, s.threads[t].shared;
    match PassOutcome(s.nodes, c, shared)
    case Gone => QuietShutsOut(s, t, Idle, c, false);
    case Blocked => QuietShutsOut(s, t, Locking(c, shared, false), c, !shared);
    case Acquired => TakeShutsOut(s, t);
  }

  lemma UpgradePassShutsOut(s: State, t: Tid)
    requires SleeperInv(s) && May(s, UpgradePass(t))
    ensures SleeperInv(Next(s, UpgradePass(t)))
  {
    if s.nodes[s.threads[t].at].actionLocked == 1 {
      UpgradeShutsOut(s, t);
    } else {
      QuietShutsOut(s, t, Upgrading(s.threads[t].at, false), s.threads[t].at, false);
    }
  }

  lemma StepShutsOut(s: State, e: Event)
    requires TreeInv(s) && CountInv(s) && SleeperInv(s) && May(s, e)
    ensures SleeperInv(Next(s, e))
  {
    match e
    case Call(t, c, shared) => QuietShutsOut(s, t, Locking(c, shared, true), c, false);
    case Spurious(t) => QuietShutsOut(s, t, Woken(s.threads[t]), s.threads[t].at, false);
    case LockPass(t) => PassShutsOut(s, t);
    case UpgradePass(t) => UpgradePassShutsOut(s, t);
    case BeginUpgrade(t) => QuietShutsOut(s, t, Upgrading(s.threads[t].at, true), s.threads[t].at, true);
    case Unlock(t) => UnlockNext(s, t); NotifiedShutsOut(Released(s, t));
    case Downgrade(t) => DowngradeNext(s, t); NotifiedShutsOut(Changed(s, t, Downgraded, DowngradedNodes(s, t)));
    case Abandon(t) => AbandonNext(s, t); NotifiedShutsOut(Abandoned(s, t));
    case Register(_, _, _) => TreeShutsOut(s, Next(s, e).nodes);
    case Unregister(_, _) => TreeShutsOut(s, Next(s, e).nodes);
  }

  lemma {:induction false} RunShutsOut(s: State, run: seq<Event>)
    requires Inv(s) && SleeperInv(s) && Feasible(s, run)
    ensures SleeperInv(After(s, run))
    decreases |run|
  {
    if run != [] {
      StepKeepsInv(s, run[0]);
      StepShutsOut(s, run[0]);
      RunShutsOut(Next(s, run[0]), run[1..]);
    }
  }

  lemma ReachableShutsOut(s: State)
    requires Reachable(s)
    ensures SleeperInv(s)
  {
    var s0, run :| Init(s0) && Feasible(s0, run) && After(s0, run) == s;
    InitInv(s0);
    RunShutsOut(s0, run);
  }

  // ---------- what it is good for ----------

  /** While a writer sleeps no reader is let in at its container or anywhere below it. */
  lemma NoReaderPastSleepingWriter(s: State, w: Tid, d: Path)
    requires Reachable(s) && w in s.threads && SleepsToWrite(s.threads[w])
    requires d in s.nodes && AtOrAbove(s.threads[w].at, d)
    ensures PassOutcome(s.nodes, d, true) != Acquired
  {
    ReachableInv(s);
    ReachableShutsOut(s);
    var c := s.threads[w].at;
    assert ShutsOut(s, s.threads[w]);
    CountSign(s, c);
    assert BlocksAtSelf(s.nodes[c], true) && BlocksFromAbove(s.nodes[c], true);
  }

  /**
   Exactly when no reader is let in at a live container or anywhere below it: its mark stands, or a mark above,
   or a lock in write mode at or above it.
   */
  lemma ReadersShutOutIff(s: State, c: Path)
    requires Reachable(s) && c in s.nodes && !s.nodes[c].destroyed
    ensures (forall d :: d in s.nodes && AtOrAbove(c, d) ==> PassOutcome(s.nodes, d, true) != Acquired)
      <==> s.nodes[c].pendingWrite || WriterOver(s.threads, c) || MarkAbove(s.nodes, c)
  {
    SharedAdmission(s, c);
    if s.nodes[c].pendingWrite || WriterOver(s.threads, c) || MarkAbove(s.nodes, c) {
      forall d | d in s.nodes && AtOrAbove(c, d)
        ensures PassOutcome(s.nodes, d, true) != Acquired
      {
        ShutOutBelow(s, c, d);
      }
    }
  }

  lemma ShutOutBelow(s: State, c: Path, d: Path)
    requires Reachable(s) && c in s.nodes && d in s.nodes && AtOrAbove(c, d)
    requires s.nodes[c].pendingWrite || WriterOver(s.threads, c) || MarkAbove(s.nodes, c)
    ensures PassOutcome(s.nodes, d, true) != Acquired
  {
    if !s.nodes[d].destroyed {
      SharedAdmission(s, d);
      if WriterOver(s.threads, c) {
        var h :| h in s.threads && InWriteMode(s.threads[h]) && AtOrAbove(s.threads[h].at, c);
        AboveTransitive(s.threads[h].at, c, d);
        assert h in s.threads && InWriteMode(s.threads[h]) && AtOrAbove(s.threads[h].at, d);
      } else if MarkAbove(s.nodes, c) {
        var a :| a in s.nodes && Above(a, c) && s.nodes[a].pendingWrite;
        AboveTransitive(a, c, d);
        assert a in s.nodes && Above(a, d) && s.nodes[a].pendingWrite;
      }
    }
  }

  /** The thread of this step gets write mode at `c`. */
  ghost predicate EntersToWrite(s: State, e: Event, c: Path)
    requires May(s, e)
  {
    && (e.LockPass? || e.UpgradePass?) && s.threads[e.t].at == c
    && e.t in Next(s, e).threads && InWriteMode(Next(s, e).threads[e.t])
  }

  /** Exactly a writer that gets the lock takes the mark of its container away. */
  lemma MarkGoesWith(s: State, e: Event, c: Path)
    requires May(s, e) && c in s.nodes && s.nodes[c].pendingWrite
    ensures c in Next(s, e).nodes
    ensures !Next(s, e).nodes[c].pendingWrite <==> EntersToWrite(s, e, c)
  {
    assert BlocksAtSelf(s.nodes[c], true);
  }

  /** The plain readers at or below `c`. */
  function ReadersUnder(ts: Threads, c: Path): set<Tid> {
    set t | t in ts && ts[t].Holding? && ts[t].mode == Reader && AtOrAbove(c, ts[t].at)
  }

  /** No step lets a reader in at or below a marked container. */
  lemma MarkAdmitsNobody(s: State, e: Event, c: Path)
    requires Reachable(s) && May(s, e) && c in s.nodes && s.nodes[c].pendingWrite
    ensures ReadersUnder(Next(s, e).threads, c) <= ReadersUnder(s.threads, c)
  {
    ReachableInv(s);
    forall u | u in ReadersUnder(Next(s, e).threads, c)
      ensures u in ReadersUnder(s.threads, c)
    {
      ReaderEnters(s, e, u);
      if !Holds(s.threads[u]) {
        ShutOutBelow(s, c, s.threads[u].at);
      }
    }
  }

  lemma ReaderEnters(s: State, e: Event, u: Tid)
    requires May(s, e) && u in Next(s, e).threads
    requires Next(s, e).threads[u].Holding? && Next(s, e).threads[u].mode == Reader
    ensures u in s.threads
    ensures Holds(s.threads[u]) ==> s.threads[u] == Next(s, e).threads[u]
    ensures !Holds(s.threads[u]) ==> e == LockPass(u) && s.threads[u].shared && s.threads[u].at == Next(s, e).threads[u].at
    ensures !Holds(s.threads[u]) ==> PassOutcome(s.nodes, s.threads[u].at, true) == Acquired
  {
  }

  ghost predicate NobodyEntersToWrite(s: State, run: seq<Event>, c: Path)
    requires Feasible(s, run)
    decreases |run|
  {
    run == [] || (!EntersToWrite(s, run[0], c) && NobodyEntersToWrite(Next(s, run[0]), run[1..], c))
  }

  /**
   Through any run in which no writer gets the lock of a marked container, the mark stands and no reader comes in
   at or below it: a waiting writer is overtaken by readers only after another writer has had the lock.
   */
  lemma {:induction false} MarkProtects(s: State, run: seq<Event>, c: Path)
    requires Reachable(s) && Feasible(s, run) && c in s.nodes && s.nodes[c].pendingWrite && NobodyEntersToWrite(s, run, c)
    ensures c in After(s, run).nodes && After(s, run).nodes[c].pendingWrite
    ensures ReadersUnder(After(s, run).threads, c) <= ReadersUnder(s.threads, c)
    decreases |run|
  {
    if run != [] {
      MarkGoesWith(s, run[0], c);
      MarkAdmitsNobody(s, run[0], c);
      ReachableStep(s, run[0]);
      MarkProtects(Next(s, run[0]), run[1..], c);
    }
  }

  // ---------- a woken writer is overtaken ----------

  /** Only the root container, with these lock fields. */
  function Alone(n: Node, ts: Threads): State {
    State(map[[] := n], ts)
  }

  /** An idle thread asks for the exclusive lock and makes one pass. */
  lemma AskRoot(n: Node, ts: Threads, t: Tid) returns (s: State)
    requires Reachable(Alone(n, ts)) && t in ts && ts[t] == Idle && !n.destroyed
    ensures Reachable(s)
    ensures s == if BlocksAtSelf(n, false) then Alone(n.(pendingWrite := true), ts[t := Locking([], false, false)])
                 else Alone(n.(actionLocked := n.actionLocked - 1, pendingWrite := false), ts[t := Holding([], Exclusive)])
  {
    ReachableStep(Alone(n, ts), Call(t, [], false));
    var ts' := ts[t := Locking([], false, true)];
    assert Next(Alone(n, ts), Call(t, [], false)) == Alone(n, ts');
    s := PassRoot(n, ts', t);
    assert ts'[t := Locking([], false, false)] == ts[t := Locking([], false, false)];
    assert ts'[t := Holding([], Exclusive)] == ts[t := Holding([], Exclusive)];
  }

  lemma PassRoot(n: Node, ts: Threads, t: Tid) returns (s: State)
    requires Reachable(Alone(n, ts)) && t in ts && ts[t] == Locking([], false, true) && !n.destroyed
    ensures Reachable(s)
    ensures s == if BlocksAtSelf(n, false) then Alone(n.(pendingWrite := true), ts[t := Locking([], false, false)])
                 else Alone(n.(actionLocked := n.actionLocked - 1, pendingWrite := false), ts[t := Holding([], Exclusive)])
  {
    RootPass(Alone(n, ts).nodes, false);
    ReachableStep(Alone(n, ts), LockPass(t));
    s := Next(Alone(n, ts), LockPass(t));
    assert s.nodes.Keys == {[]};
  }

  lemma UnlockRoot(n: Node, ts: Threads, t: Tid) returns (s: State)
    requires Reachable(Alone(n, ts)) && t in ts && ts[t] == Holding([], Exclusive) && n.actionLocked == -1
    ensures Reachable(s) && s == Alone(n.(actionLocked := 0), NotifyAll(ts[t := Idle]))
  {
    ReachableStep(Alone(n, ts), Unlock(t));
    s := Next(Alone(n, ts), Unlock(t));
    assert s.nodes.Keys == {[]};
  }

  lemma StartsReachable(ts: Threads)
    requires forall t :: t in ts ==> ts[t] == Idle
    ensures Reachable(Alone(FreshNode, ts))
  {
    var s := Alone(FreshNode, ts);
    assert Init(s) && Feasible(s, []) && After(s, []) == s;
  }

  lemma OneOwner() returns (s: State)
    ensures Reachable(s)
    ensures s == Alone(Node(-1, 0, false, false), map[0 := Holding([], Exclusive), 1 := Idle, 2 := Idle])
  {
    var ts := map[0 := Idle, 1 := Idle, 2 := Idle];
    StartsReachable(ts);
    s := AskRoot(FreshNode, ts, 0);
  }

  lemma OneWriterAsleep() returns (s: State)
    ensures Reachable(s)
    ensures s == Alone(Node(-1, 0, true, false), map[0 := Holding([], Exclusive), 1 := Locking([], false, false), 2 := Idle])
  {
    s := OneOwner();
    s := AskRoot(Node(-1, 0, false, false), s.threads, 1);
  }

  lemma TwoWritersAsleep() returns (s: State)
    ensures Reachable(s)
    ensures s == Alone(Node(-1, 0, true, false),
                       map[0 := Holding([], Exclusive), 1 := Locking([], false, false), 2 := Locking([], false, false)])
  {
    s := OneWriterAsleep();
    s := AskRoot(Node(-1, 0, true, false), s.threads, 2);
  }

  lemma TwoWritersAwake() returns (s: State)
    ensures Reachable(s)
    ensures s == Alone(Node(0, 0, true, false), map[0 := Idle, 1 := Locking([], false, true), 2 := Locking([], false, true)])
  {
    s := TwoWritersAsleep();
    s := UnlockRoot(Node(-1, 0, true, false), s.threads, 0);
    assert s.threads == map[0 := Idle, 1 := Locking([], false, true), 2 := Locking([], false, true)];
  }

  lemma OneWriterLeft() returns (s: State)
    ensures Reachable(s)
    ensures s == Alone(FreshNode, map[0 := Idle, 1 := Idle, 2 := Locking([], false, true)])
  {
    s := TwoWritersAwake();
    s := PassRoot(Node(0, 0, true, false), s.threads, 1);
    s := UnlockRoot(Node(-1, 0, false, false), s.threads, 1);
    assert s.threads == map[0 := Idle, 1 := Idle, 2 := Locking([], false, true)];
  }

  /** A state with a waiting writer, awake, and no mark: a reader is let in before it. */
  lemma ReaderOvertakes() returns (s: State)
    ensures Reachable(s) && 2 in s.threads && s.threads[2] == Locking([], false, true)
    ensures [] in s.nodes && PassOutcome(s.nodes, [], true) == Acquired
  {
    s := OneWriterLeft();
    RootPass(s.nodes, true);
  }
}
