/**
 A run in which an upgraded lock does not own its subtree: a reader entered below
 while the lock was downgraded, and `UpgradeActionLock` does not wait for it.
 */
module ActionLockWitness {
  import opened ContainerPaths
  import opened ActionLock
  import opened ActionLockProtocol

  lemma {:induction false} AfterAppend(s: State, run: seq<Event>, e: Event)
    requires Feasible(s, run) && May(After(s, run), e)
    ensures Feasible(s, run + [e]) && After(s, run + [e]) == Next(After(s, run), e)
    decreases |run|
  {
    if run == [] {
      assert [e][1..] == [];
      assert After(Next(s, e), []) == Next(s, e);
      assert run + [e] == [e];
    } else {
      AfterAppend(Next(s, run[0]), run[1..], e);
      assert (run + [e])[1..] == run[1..] + [e];
    }
  }

  lemma ReachableStep(s: State, e: Event)
    requires Reachable(s) && May(s, e)
    ensures Reachable(Next(s, e))
  {
    var s0, run :| Init(s0) && Feasible(s0, run) && After(s0, run) == s;
    AfterAppend(s0, run, e);
  }

  const KID: Path := [7]

  function Two(root: Node, kid: Node): Nodes {
    map[[] := root, KID := kid]
  }

  lemma RootPass(nodes: Nodes, shared: bool)
    requires [] in nodes && !nodes[[]].destroyed
    ensures PassOutcome(nodes, [], shared) == if BlocksAtSelf(nodes[[]], shared) then Blocked else Acquired
  {
  }

  lemma KidPass(root: Node, kid: Node, shared: bool)
    requires !kid.destroyed && !BlocksAtSelf(kid, shared) && !BlocksFromAbove(root, shared)
    ensures PassOutcome(Two(root, kid), KID, shared) == Acquired
    ensures PassNodes(Two(root, kid), KID, shared)
      == Two(root.(subtreeRead := root.subtreeRead + 1), TakenAt(kid, KID, KID, shared))
  {
    assert Above([], KID);
  }

  /** Thread 0 takes the shared lock of the root, which is the only container. */
  lemma RootRead() returns (s: State)
    ensures Reachable(s)
    ensures s == State(map[[] := Node(1, 0, false, false)], map[0 := Holding([], Reader), 1 := Idle])
  {
    var s0 := State(map[[] := FreshNode], map[0 := Idle, 1 := Idle]);
    assert Init(s0) && Feasible(s0, []) && After(s0, []) == s0;
    ReachableStep(s0, Call(0, [], true));
    var s1 := State(s0.nodes, map[0 := Locking([], true, true), 1 := Idle]);
    assert s1 == Next(s0, Call(0, [], true));
    RootPass(s1.nodes, true);
    ReachableStep(s1, LockPass(0));
    s := Next(s1, LockPass(0));
  }

  /** It creates a child container under that lock. */
  lemma KidRegistered() returns (s: State)
    ensures Reachable(s)
    ensures s == State(Two(Node(1, 0, false, false), FreshNode), map[0 := Holding([], Reader), 1 := Idle])
  {
    var s0 := RootRead();
    ReachableStep(s0, Register(0, [], 7));
    s := Next(s0, Register(0, [], 7));
    assert [] + [7] == KID;
    assert s.nodes == Two(Node(1, 0, false, false), FreshNode);
  }

  /** It unlocks. */
  lemma KidBuilt() returns (s: State)
    ensures Reachable(s)
    ensures s == State(Two(FreshNode, FreshNode), map[0 := Idle, 1 := Idle])
  {
    var s0 := KidRegistered();
    ReachableStep(s0, Unlock(0));
    s := Next(s0, Unlock(0));
    assert s.nodes == Two(FreshNode, FreshNode);
    assert s.threads == map[0 := Idle, 1 := Idle];
  }

  /** Thread 0 takes the exclusive lock of the root. */
  lemma RootOwned() returns (s: State)
    ensures Reachable(s)
    ensures s == State(Two(Node(-1, 0, false, false), FreshNode), map[0 := Holding([], Exclusive), 1 := Idle])
  {
    var s0 := KidBuilt();
    ReachableStep(s0, Call(0, [], false));
    var s1 := State(s0.nodes, map[0 := Locking([], false, true), 1 := Idle]);
    assert s1 == Next(s0, Call(0, [], false));
    RootPass(s1.nodes, false);
    ReachableStep(s1, LockPass(0));
    s := Next(s1, LockPass(0));
    RootTaken();
  }

  lemma RootTaken()
    ensures Take(Two(FreshNode, FreshNode), [], false) == Two(Node(-1, 0, false, false), FreshNode)
  {
  }

  /** It downgrades the lock. */
  lemma Shared() returns (s: State)
    ensures Reachable(s)
    ensures s == State(Two(Node(1, 0, false, false), FreshNode), map[0 := Holding([], Downgraded), 1 := Idle])
  {
    var s0 := RootOwned();
    ReachableStep(s0, Downgrade(0));
    s := Next(s0, Downgrade(0));
    assert s.nodes == Two(Node(1, 0, false, false), FreshNode);
    assert s.threads == map[0 := Holding([], Downgraded), 1 := Idle];
  }

  /** Thread 1 reads the child meanwhile. */
  lemma Entered() returns (s: State)
    ensures Reachable(s)
    ensures s == State(Two(Node(1, 1, false, false), Node(1, 0, false, false)),
                       map[0 := Holding([], Downgraded), 1 := Holding(KID, Reader)])
  {
    var s0 := Shared();
    ReachableStep(s0, Call(1, KID, true));
    var s1 := State(s0.nodes, map[0 := Holding([], Downgraded), 1 := Locking(KID, true, true)]);
    assert s1 == Next(s0, Call(1, KID, true));
    KidPass(Node(1, 0, false, false), FreshNode, true);
    ReachableStep(s1, LockPass(1));
    s := Next(s1, LockPass(1));
  }

  /** Thread 0 asks for its exclusive lock back. */
  lemma Asked() returns (s: State)
    ensures Reachable(s)
    ensures s == State(Two(Node(1, 1, true, false), Node(1, 0, false, false)),
                       map[0 := Upgrading([], true), 1 := Holding(KID, Reader)])
  {
    var s0 := Entered();
    ReachableStep(s0, BeginUpgrade(0));
    s := Next(s0, BeginUpgrade(0));
    assert s.nodes == Two(Node(1, 1, true, false), Node(1, 0, false, false));
  }

  /** The upgrade goes through over the reader below. */
  lemma UpgradedOverReader() returns (s: State)
    ensures Reachable(s)
    ensures s.threads == map[0 := Holding([], Upgraded), 1 := Holding(KID, Reader)]
    ensures InWriteMode(s.threads[0]) && HoldersBelow(s.threads, s.threads[0].at) != {}
  {
    var s0 := Asked();
    ReachableStep(s0, UpgradePass(0));
    s := Next(s0, UpgradePass(0));
    assert 1 in HoldersBelow(s.threads, []);
  }
}
