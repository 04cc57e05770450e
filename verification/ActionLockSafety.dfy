/**
 Every step of the action lock keeps the invariant of `ActionLockProtocol`, so
 it holds in every reachable state.
 */
module ActionLockSafety {
  import opened ContainerPaths
  import opened ActionLock
  import opened ActionLockProtocol

  // ---------- one thread changes its status ----------

  lemma WriterOverKept(ts: Threads, t: Tid, st: Status, c: Path)
    requires t in ts && (InWriteMode(ts[t]) ==> InWriteMode(st) && st.at == ts[t].at)
    ensures WriterOver(ts, c) ==> WriterOver(ts[t := st], c)
  {
    if WriterOver(ts, c) {
      var h :| h in ts && InWriteMode(ts[h]) && AtOrAbove(ts[h].at, c);
      var ts' := ts[t := st];
      assert h in ts' && InWriteMode(ts'[h]) && AtOrAbove(ts'[h].at, c);
    }
  }

  lemma WaiterKept(ts: Threads, t: Tid, st: Status, c: Path)
    requires t in ts && (WantsWrite(ts[t], c) ==> WantsWrite(st, c))
    ensures WriteWaiter(ts, c) ==> WriteWaiter(ts[t := st], c)
  {
    if WriteWaiter(ts, c) {
      var w :| w in ts && WantsWrite(ts[w], c);
      var ts' := ts[t := st];
      assert w in ts' && WantsWrite(ts'[w], c);
    }
  }

  /** A sleeper stays as it was through a step of another thread that does not enable it. */
  lemma SleeperKept(s: State, nodes: Nodes, t: Tid, st: Status, w: Status)
    requires t in s.threads && nodes.Keys == s.nodes.Keys && WakeOf(s, w)
    requires InWriteMode(s.threads[t]) ==> InWriteMode(st) && st.at == s.threads[t].at
    requires Waits(w) && w.at in s.nodes ==>
               && (s.nodes[w.at].destroyed ==> nodes[w.at].destroyed)
               && (!Guard(s.nodes, w) ==> !Guard(nodes, w))
    ensures WakeOf(State(nodes, s.threads[t := st]), w)
  {
    if Asleep(w) && w.at in s.nodes && Guard(s.nodes, w) {
      WriterOverKept(s.threads, t, st, w.at);
    }
  }

  // ---------- which steps enable nobody ----------

  /** `nodes'` blocks wherever `nodes` did. */
  ghost predicate BlocksNoLess(nodes: Nodes, nodes': Nodes, shared: bool) {
    forall p :: p in nodes ==>
      && p in nodes'
      && (BlocksAtSelf(nodes[p], shared) ==> BlocksAtSelf(nodes'[p], shared))
      && (BlocksFromAbove(nodes[p], shared) ==> BlocksFromAbove(nodes'[p], shared))
  }

  lemma BusyKept(nodes: Nodes, nodes': Nodes, c: Path, shared: bool)
    requires c in nodes && BlocksNoLess(nodes, nodes', shared)
    requires Busy(nodes, c, shared)
    ensures c in nodes' && Busy(nodes', c, shared)
  {
    if !BlocksAtSelf(nodes[c], shared) {
      var a :| a in nodes && Above(a, c) && BlocksFromAbove(nodes[a], shared);
      assert a in nodes' && Above(a, c) && BlocksFromAbove(nodes'[a], shared);
    }
  }

  /** A step that blocks no less and destroys nothing at `st.at` enables no thread that waits there. */
  lemma EnablesNobody(nodes: Nodes, nodes': Nodes, st: Status)
    requires Waits(st) && st.at in nodes && st.at in nodes'
    requires st.Locking? ==> BlocksNoLess(nodes, nodes', st.shared) && nodes'[st.at].destroyed == nodes[st.at].destroyed
    requires st.Upgrading? ==> nodes[st.at].actionLocked != 1 ==> nodes'[st.at].actionLocked != 1
    ensures !Guard(nodes, st) ==> !Guard(nodes', st)
  {
    if st.Locking? && Busy(nodes, st.at, st.shared) {
      BusyKept(nodes, nodes', st.at, st.shared);
    }
  }

  /** Marking a writer enables nobody. */
  lemma PendingEnablesNobody(nodes: Nodes, c: Path, st: Status)
    requires c in nodes && Waits(st) && st.at in nodes
    ensures !Guard(nodes, st) ==> !Guard(SetPending(nodes, c), st)
  {
    EnablesNobody(nodes, SetPending(nodes, c), st);
  }

  /** Finishing an upgrade enables nobody: what the mark blocked, the exclusive lock blocks. */
  lemma UpgradeEnablesNobody(nodes: Nodes, c: Path, st: Status)
    requires c in nodes && nodes[c].actionLocked == 1
    requires Waits(st) && st.at in nodes
    ensures !Guard(nodes, st) ==> !Guard(UpgradeNode(nodes, c), st)
  {
    EnablesNobody(nodes, UpgradeNode(nodes, c), st);
  }

  // ---------- steps that move no lock ----------

  /** The thread holds what it held before, in the same way. */
  predicate SameRole(a: Status, b: Status) {
    && Holds(a) == Holds(b) && (Holds(a) ==> a.at == b.at)
    && InWriteMode(a) == InWriteMode(b) && WriteOrigin(a) == WriteOrigin(b)
  }

  function Marked(nodes: Nodes, c: Path, mark: bool): (r: Nodes)
    requires c in nodes
    ensures r.Keys == nodes.Keys
  {
    if mark then SetPending(nodes, c) else nodes
  }

  /** Thread `t` goes to status `st` and may leave the writer's mark at `c`. */
  function Quiet(s: State, t: Tid, st: Status, c: Path, mark: bool): State
    requires c in s.nodes
  {
    State(Marked(s.nodes, c, mark), s.threads[t := st])
  }

  lemma QuietTree(s: State, t: Tid, st: Status, c: Path, mark: bool)
    requires TreeInv(s) && t in s.threads && c in s.nodes && (st == Idle || st.at in s.nodes)
    ensures TreeInv(Quiet(s, t, st, c, mark))
  {
  }

  lemma SameRoleHolders(ts: Threads, t: Tid, st: Status)
    requires t in ts && SameRole(ts[t], st)
    ensures SameHolders(ts, ts[t := st])
  {
  }

  lemma QuietCounts(s: State, t: Tid, st: Status, c: Path, mark: bool)
    requires CountInv(s) && t in s.threads && c in s.nodes && SameRole(s.threads[t], st)
    ensures CountInv(Quiet(s, t, st, c, mark))
  {
    SameRoleHolders(s.threads, t, st);
    CountKept(s, Quiet(s, t, st, c, mark));
  }

  lemma SameHoldersExclusion(ts: Threads, ts': Threads)
    requires SameHolders(ts, ts') && Antichain(ts) && SoleHolder(ts)
    requires forall t :: t in ts && ts'[t].Holding? && ts'[t].mode == Exclusive ==> ts[t] == ts'[t]
    ensures Antichain(ts') && SoleHolder(ts')
  {
  }

  lemma QuietExclusion(ts: Threads, t: Tid, st: Status)
    requires Antichain(ts) && SoleHolder(ts) && t in ts && SameRole(ts[t], st) && !st.Holding?
    ensures Antichain(ts[t := st]) && SoleHolder(ts[t := st])
  {
    SameRoleHolders(ts, t, st);
    SameHoldersExclusion(ts, ts[t := st]);
  }

  /** A waiting writer goes away from a destroyed container only, a mark is left by a waiting writer. */
  ghost predicate MarksKept(s: State, t: Tid, st: Status, c: Path, mark: bool)
    requires t in s.threads && c in s.nodes
  {
    var was := s.threads[t];
    && (mark ==> WantsWrite(st, c))
    && (Waits(was) && was.at in s.nodes && WantsWrite(was, was.at) ==> WantsWrite(st, was.at) || s.nodes[was.at].destroyed)
    && MarkOf(Marked(s.nodes, c, mark), st)
  }

  lemma QuietMarkAt(s: State, t: Tid, st: Status, c: Path, mark: bool, p: Path)
    requires t in s.threads && c in s.nodes && MarksKept(s, t, st, c, mark) && p in s.nodes && MarkAt(s, p)
    ensures MarkAt(Quiet(s, t, st, c, mark), p)
  {
    if mark && p == c {
      var ts' := s.threads[t := st];
      assert t in ts' && WantsWrite(ts'[t], c);
    } else if !s.nodes[p].destroyed {
      WaiterKept(s.threads, t, st, p);
    }
  }

  lemma QuietPending(s: State, t: Tid, st: Status, c: Path, mark: bool)
    requires PendingInv(s) && t in s.threads && c in s.nodes && MarksKept(s, t, st, c, mark)
    ensures PendingInv(Quiet(s, t, st, c, mark))
  {
    var s' := Quiet(s, t, st, c, mark);
    forall p | p in s'.nodes
      ensures MarkAt(s', p)
    {
      QuietMarkAt(s, t, st, c, mark, p);
    }
    forall u | u in s'.threads
      ensures MarkOf(s'.nodes, s'.threads[u])
    {
      assert MarkOf(s.nodes, s.threads[u]);
    }
  }

  lemma QuietWakeOf(s: State, t: Tid, st: Status, c: Path, mark: bool, w: Status)
    requires t in s.threads && c in s.nodes && SameRole(s.threads[t], st) && WakeOf(s, w)
    ensures WakeOf(Quiet(s, t, st, c, mark), w)
  {
    if Waits(w) && w.at in s.nodes && mark {
      PendingEnablesNobody(s.nodes, c, w);
    }
    SleeperKept(s, Marked(s.nodes, c, mark), t, st, w);
  }

  lemma QuietWake(s: State, t: Tid, st: Status, c: Path, mark: bool)
    requires WakeInv(s) && t in s.threads && c in s.nodes && SameRole(s.threads[t], st)
    requires Asleep(st) && st.at in s.nodes ==> !Guard(Marked(s.nodes, c, mark), st)
    ensures WakeInv(Quiet(s, t, st, c, mark))
  {
    var s' := Quiet(s, t, st, c, mark);
    forall u | u in s'.threads
      ensures WakeOf(s', s'.threads[u])
    {
      if u != t {
        QuietWakeOf(s, t, st, c, mark, s.threads[u]);
      }
    }
  }

  lemma QuietStep(s: State, t: Tid, st: Status, c: Path, mark: bool)
    requires Inv(s) && t in s.threads && c in s.nodes && (st == Idle || st.at in s.nodes)
    requires SameRole(s.threads[t], st) && !st.Holding? && MarksKept(s, t, st, c, mark)
    requires Asleep(st) ==> !Guard(Marked(s.nodes, c, mark), st)
    ensures Inv(Quiet(s, t, st, c, mark))
  {
    QuietTree(s, t, st, c, mark);
    QuietCounts(s, t, st, c, mark);
    QuietExclusion(s.threads, t, st);
    QuietPending(s, t, st, c, mark);
    QuietWake(s, t, st, c, mark);
  }

  lemma CallStep(s: State, e: Event)
    requires Inv(s) && May(s, e) && (e.Call? || e.Spurious?)
    ensures Inv(Next(s, e))
  {
    var st := Next(s, e).threads[e.t];
    QuietStep(s, e.t, st, st.at, false);
  }

  lemma GoneStep(s: State, t: Tid)
    requires Inv(s) && May(s, LockPass(t))
    requires PassOutcome(s.nodes, s.threads[t].at, s.threads[t].shared) == Gone
    ensures Inv(Next(s, LockPass(t)))
  {
    QuietStep(s, t, Idle, s.threads[t].at, false);
  }

  lemma BlockStep(s: State, t: Tid)
    requires Inv(s) && May(s, LockPass(t))
    requires PassOutcome(s.nodes, s.threads[t].at, s.threads[t].shared) == Blocked
    ensures Inv(Next(s, LockPass(t)))
  {
    var c, shared := s.threads[t].at, s.threads[t].shared;
    var st := Locking(c, shared, false);
    assert !Guard(s.nodes, st);
    PendingEnablesNobody(s.nodes, c, st);
    QuietStep(s, t, st, c, !shared);
  }

  lemma BeginUpgradeStep(s: State, t: Tid)
    requires Inv(s) && May(s, BeginUpgrade(t))
    ensures Inv(Next(s, BeginUpgrade(t)))
  {
    var c := s.threads[t].at;
    QuietStep(s, t, Upgrading(c, true), c, true);
  }

  lemma UpgradeBlockStep(s: State, t: Tid)
    requires Inv(s) && May(s, UpgradePass(t)) && s.nodes[s.threads[t].at].actionLocked != 1
    ensures Inv(Next(s, UpgradePass(t)))
  {
    var c := s.threads[t].at;
    assert MarkOf(s.nodes, s.threads[t]);
    QuietStep(s, t, Upgrading(c, false), c, false);
  }

  // ---------- taking a lock ----------

  /** What a waiting thread takes at the container it waits for. */
  function Taken(s: State, t: Tid): State
    requires t in s.threads && s.threads[t].Locking?
  {
    var c, shared := s.threads[t].at, s.threads[t].shared;
    State(Take(s.nodes, c, shared), s.threads[t := Holding(c, if shared then Reader else Exclusive)])
  }

  ghost predicate MayTake(s: State, t: Tid) {
    && t in s.threads && s.threads[t].Locking? && s.threads[t].at in s.nodes
    && PassOutcome(s.nodes, s.threads[t].at, s.threads[t].shared) == Acquired
  }

  lemma TakeCountAt(s: State, t: Tid, p: Path)
    requires t in s.threads && s.threads[t].Locking? && p in s.nodes && CountAt(s, p)
    requires p == s.threads[t].at ==> !BlocksAtSelf(s.nodes[p], s.threads[t].shared)
    ensures CountAt(Taken(s, t), p)
  {
    HolderAdded(s.threads, t, Taken(s, t).threads[t], p);
  }

  lemma TakeKeepsCounts(s: State, t: Tid)
    requires CountInv(s) && MayTake(s, t)
    ensures CountInv(Taken(s, t))
  {
    assert !BlocksAtSelf(s.nodes[s.threads[t].at], s.threads[t].shared);
    forall p | p in Taken(s, t).nodes
      ensures CountAt(Taken(s, t), p)
    {
      assert CountAt(s, p);
      TakeCountAt(s, t, p);
    }
  }

  /** What the new lock leaves no room for. */
  lemma TakeIsApart(s: State, t: Tid, u: Tid)
    requires TreeInv(s) && CountInv(s) && MayTake(s, t) && u in s.threads && Holds(s.threads[u])
    ensures var c, shared, d := s.threads[t].at, s.threads[t].shared, s.threads[u].at;
            && (!shared ==> !AtOrAbove(d, c) && !AtOrAbove(c, d))
            && (shared && InWriteMode(s.threads[u]) ==> !AtOrAbove(d, c))
  {
    var c, shared, d := s.threads[t].at, s.threads[t].shared, s.threads[u].at;
    HolderCounted(s, u);
    assert !BlocksAtSelf(s.nodes[c], shared);
    if Above(d, c) {
      assert !BlocksFromAbove(s.nodes[d], shared);
    }
    if !shared {
      NoHoldersBelow(s, c);
      assert !HoldsBelow(s.threads[u], c);
    }
  }

  lemma TakeKeepsExclusion(s: State, t: Tid)
    requires TreeInv(s) && CountInv(s) && Antichain(s.threads) && SoleHolder(s.threads) && MayTake(s, t)
    ensures Antichain(Taken(s, t).threads) && SoleHolder(Taken(s, t).threads)
  {
    forall u | u in s.threads && Holds(s.threads[u])
      ensures var c, shared, d := s.threads[t].at, s.threads[t].shared, s.threads[u].at;
              && (!shared ==> !AtOrAbove(d, c) && !AtOrAbove(c, d))
              && (shared && InWriteMode(s.threads[u]) ==> !AtOrAbove(d, c))
    {
      TakeIsApart(s, t, u);
    }
    NewHolderApart(s.threads, t, s.threads[t].at, s.threads[t].shared);
  }

  lemma NewHolderApart(ts: Threads, t: Tid, c: Path, shared: bool)
    requires Antichain(ts) && SoleHolder(ts) && t in ts
    requires forall u :: u in ts && Holds(ts[u]) ==>
               && (!shared ==> !AtOrAbove(ts[u].at, c) && !AtOrAbove(c, ts[u].at))
               && (shared && InWriteMode(ts[u]) ==> !AtOrAbove(ts[u].at, c))
    ensures Antichain(ts[t := Holding(c, if shared then Reader else Exclusive)])
    ensures SoleHolder(ts[t := Holding(c, if shared then Reader else Exclusive)])
  {
  }

  lemma TakeMarkAt(s: State, t: Tid, p: Path)
    requires t in s.threads && s.threads[t].Locking? && p in s.nodes && MarkAt(s, p)
    ensures MarkAt(Taken(s, t), p)
  {
    if p != s.threads[t].at {
      WaiterKept(s.threads, t, Taken(s, t).threads[t], p);
    }
  }

  lemma TakeMarkOf(s: State, t: Tid, u: Tid)
    requires TreeInv(s) && CountInv(s) && MayTake(s, t) && u in s.threads && MarkOf(s.nodes, s.threads[u])
    ensures MarkOf(Taken(s, t).nodes, s.threads[u])
  {
    assert !BlocksAtSelf(s.nodes[s.threads[t].at], s.threads[t].shared);
    if s.threads[u].Upgrading? {
      HolderCounted(s, u);
    }
  }

  lemma TakeKeepsPending(s: State, t: Tid)
    requires TreeInv(s) && CountInv(s) && PendingInv(s) && MayTake(s, t)
    ensures PendingInv(Taken(s, t))
  {
    var s' := Taken(s, t);
    forall p | p in s'.nodes
      ensures MarkAt(s', p)
    {
      TakeMarkAt(s, t, p);
    }
    forall u | u in s'.threads
      ensures MarkOf(s'.nodes, s'.threads[u])
    {
      if u != t {
        TakeMarkOf(s, t, u);
      }
    }
  }

  lemma TakeBlocksNoLess(s: State, c: Path, shared: bool, forShared: bool)
    requires CountInv(s) && c in s.nodes && PassOutcome(s.nodes, c, shared) == Acquired
    ensures BlocksNoLess(s.nodes, Take(s.nodes, c, shared), forShared)
  {
    assert !BlocksAtSelf(s.nodes[c], shared);
    forall p | p in s.nodes
      ensures s.nodes[p].actionLocked >= -1 && s.nodes[p].subtreeRead >= 0
    {
      CountSign(s, p);
    }
  }

  /** Taking a lock enables nobody. */
  lemma TakeEnablesNobody(s: State, c: Path, shared: bool, st: Status)
    requires CountInv(s) && c in s.nodes && PassOutcome(s.nodes, c, shared) == Acquired
    requires Waits(st) && st.at in s.nodes
    requires st.Upgrading? ==> s.nodes[st.at].actionLocked >= 1
    ensures !Guard(s.nodes, st) ==> !Guard(Take(s.nodes, c, shared), st)
  {
    assert !BlocksAtSelf(s.nodes[c], shared);
    if st.Locking? {
      TakeBlocksNoLess(s, c, shared, st.shared);
    }
    EnablesNobody(s.nodes, Take(s.nodes, c, shared), st);
  }

  lemma TakeWakeOf(s: State, t: Tid, u: Tid)
    requires TreeInv(s) && CountInv(s) && MayTake(s, t) && u in s.threads && WakeOf(s, s.threads[u])
    ensures WakeOf(Taken(s, t), s.threads[u])
  {
    var w := s.threads[u];
    if w.Upgrading? {
      HolderCounted(s, u);
    }
    if Waits(w) && w.at in s.nodes {
      TakeEnablesNobody(s, s.threads[t].at, s.threads[t].shared, w);
    }
    SleeperKept(s, Taken(s, t).nodes, t, Taken(s, t).threads[t], w);
  }

  lemma TakeKeepsWake(s: State, t: Tid)
    requires TreeInv(s) && CountInv(s) && WakeInv(s) && MayTake(s, t)
    ensures WakeInv(Taken(s, t))
  {
    var s' := Taken(s, t);
    forall u | u in s'.threads
      ensures WakeOf(s', s'.threads[u])
    {
      if u != t {
        TakeWakeOf(s, t, u);
      }
    }
  }

  lemma TakeKeepsTree(s: State, t: Tid)
    requires TreeInv(s) && t in s.threads && s.threads[t].Locking?
    ensures TreeInv(Taken(s, t))
  {
  }

  lemma AcquireStep(s: State, t: Tid)
    requires Inv(s) && May(s, LockPass(t)) && MayTake(s, t)
    ensures Inv(Next(s, LockPass(t)))
  {
    TakeKeepsTree(s, t);
    TakeKeepsCounts(s, t);
    TakeKeepsExclusion(s, t);
    TakeKeepsPending(s, t);
    TakeKeepsWake(s, t);
    assert Next(s, LockPass(t)) == Taken(s, t);
  }

  // ---------- changing the mode of a lock ----------

  /** The only holder at its container goes to or from write mode. */
  function Changed(s: State, t: Tid, mode: Mode, nodes: Nodes): State
    requires t in s.threads && s.threads[t] != Idle
  {
    State(nodes, s.threads[t := Holding(s.threads[t].at, mode)])
  }

  ghost predicate ModeChange(s: State, t: Tid, mode: Mode, nodes: Nodes) {
    && t in s.threads && Holds(s.threads[t]) && s.threads[t].at in s.nodes
    && HoldersAt(s.threads, s.threads[t].at) == {t}
    && (mode == Downgraded || mode == Upgraded)
    && nodes.Keys == s.nodes.Keys
    && (forall p :: p in s.nodes && p != s.threads[t].at ==> nodes[p] == s.nodes[p])
    && nodes[s.threads[t].at].subtreeRead == s.nodes[s.threads[t].at].subtreeRead
    && nodes[s.threads[t].at].actionLocked == if mode == Upgraded then -1 else 1
  }

  lemma ChangeHolders(ts: Threads, t: Tid, st: Status, p: Path)
    requires t in ts && Holds(ts[t]) && Holds(st) && st.at == ts[t].at
    ensures HoldersAt(ts[t := st], p) == HoldersAt(ts, p)
    ensures HoldersBelow(ts[t := st], p) == HoldersBelow(ts, p)
    ensures p != st.at ==> WriterAt(ts[t := st], p) == WriterAt(ts, p)
    ensures InWriteMode(st) ==> WriterAt(ts[t := st], st.at)
  {
    var ts' := ts[t := st];
    if InWriteMode(st) {
      assert t in ts' && HoldsAt(ts'[t], st.at) && InWriteMode(ts'[t]);
    }
    if p != st.at && WriterAt(ts, p) {
      var u :| u in ts && HoldsAt(ts[u], p) && InWriteMode(ts[u]);
      assert u in ts' && HoldsAt(ts'[u], p) && InWriteMode(ts'[u]);
    }
  }

  lemma ChangeCountAt(s: State, t: Tid, mode: Mode, nodes: Nodes, p: Path)
    requires ModeChange(s, t, mode, nodes) && p in s.nodes && CountAt(s, p)
    ensures CountAt(Changed(s, t, mode, nodes), p)
  {
    var ts' := Changed(s, t, mode, nodes).threads;
    ChangeHolders(s.threads, t, ts'[t], p);
    if p == s.threads[t].at {
      forall u | u in ts' && HoldsAt(ts'[u], p)
        ensures u == t
      {
        assert u in HoldersAt(ts', p);
      }
    }
  }

  lemma ChangeKeepsCounts(s: State, t: Tid, mode: Mode, nodes: Nodes)
    requires CountInv(s) && ModeChange(s, t, mode, nodes)
    ensures CountInv(Changed(s, t, mode, nodes))
  {
    forall p | p in nodes
      ensures CountAt(Changed(s, t, mode, nodes), p)
    {
      assert CountAt(s, p);
      ChangeCountAt(s, t, mode, nodes, p);
    }
  }

  lemma ChangeKeepsExclusion(ts: Threads, t: Tid, mode: Mode)
    requires Antichain(ts) && SoleHolder(ts) && t in ts && WriteOrigin(ts[t])
    requires mode == Downgraded || mode == Upgraded
    ensures Antichain(ts[t := Holding(ts[t].at, mode)]) && SoleHolder(ts[t := Holding(ts[t].at, mode)])
  {
  }

  function UpgradeDone(s: State, t: Tid): State
    requires t in s.threads && s.threads[t].Upgrading? && s.threads[t].at in s.nodes
  {
    Changed(s, t, Upgraded, UpgradeNode(s.nodes, s.threads[t].at))
  }

  lemma UpgradeKeepsPending(s: State, t: Tid)
    requires PendingInv(s) && Antichain(s.threads) && t in s.threads && s.threads[t].Upgrading? && s.threads[t].at in s.nodes
    ensures PendingInv(UpgradeDone(s, t))
  {
    var c, s' := s.threads[t].at, UpgradeDone(s, t);
    forall p | p in s'.nodes
      ensures MarkAt(s', p)
    {
      assert MarkAt(s, p);
      if p != c {
        WaiterKept(s.threads, t, s'.threads[t], p);
      }
    }
    forall u | u in s'.threads
      ensures MarkOf(s'.nodes, s'.threads[u])
    {
      assert MarkOf(s.nodes, s.threads[u]);
      assert u != t && WriteOrigin(s.threads[u]) ==> !AtOrAbove(s.threads[u].at, c);
    }
  }

  lemma UpgradeKeepsWake(s: State, t: Tid)
    requires WakeInv(s) && t in s.threads && s.threads[t].Upgrading? && s.threads[t].at in s.nodes
    requires s.nodes[s.threads[t].at].actionLocked == 1
    ensures WakeInv(UpgradeDone(s, t))
  {
    var c, s' := s.threads[t].at, UpgradeDone(s, t);
    forall u | u in s'.threads
      ensures WakeOf(s', s'.threads[u])
    {
      if u != t {
        var w := s.threads[u];
        if Waits(w) && w.at in s.nodes {
          UpgradeEnablesNobody(s.nodes, c, w);
        }
        SleeperKept(s, s'.nodes, t, s'.threads[t], w);
      }
    }
  }

  lemma ChangeKeepsTree(s: State, t: Tid, mode: Mode, nodes: Nodes)
    requires TreeInv(s) && t in s.threads && s.threads[t] != Idle && nodes.Keys == s.nodes.Keys
    requires forall p :: p in nodes ==> nodes[p].destroyed == s.nodes[p].destroyed
    ensures TreeInv(Changed(s, t, mode, nodes))
  {
  }

  lemma UpgradeStep(s: State, t: Tid)
    requires Inv(s) && May(s, UpgradePass(t)) && s.nodes[s.threads[t].at].actionLocked == 1
    ensures Inv(Next(s, UpgradePass(t)))
  {
    var nodes := UpgradeNode(s.nodes, s.threads[t].at);
    HolderCounted(s, t);
    ChangeKeepsTree(s, t, Upgraded, nodes);
    ChangeKeepsCounts(s, t, Upgraded, nodes);
    ChangeKeepsExclusion(s.threads, t, Upgraded);
    UpgradeKeepsPending(s, t);
    UpgradeKeepsWake(s, t);
    assert Next(s, UpgradePass(t)) == UpgradeDone(s, t);
  }

  // ---------- steps that wake everybody ----------

  function Notified(s: State): State {
    State(s.nodes, NotifyAll(s.threads))
  }

  lemma NotifyTree(s: State)
    requires TreeInv(s)
    ensures TreeInv(Notified(s))
  {
  }

  lemma NotifyCounts(s: State)
    requires CountInv(s)
    ensures CountInv(Notified(s))
  {
    NotifyKeepsHolders(s.threads);
    CountKept(s, Notified(s));
  }

  lemma NotifyExclusion(ts: Threads)
    requires Antichain(ts) && SoleHolder(ts)
    ensures Antichain(NotifyAll(ts)) && SoleHolder(NotifyAll(ts))
  {
    NotifyKeepsHolders(ts);
    SameHoldersExclusion(ts, NotifyAll(ts));
  }

  lemma NotifyWaiters(ts: Threads, c: Path)
    ensures WriteWaiter(ts, c) ==> WriteWaiter(NotifyAll(ts), c)
  {
    if WriteWaiter(ts, c) {
      var w :| w in ts && WantsWrite(ts[w], c);
      assert w in NotifyAll(ts) && WantsWrite(NotifyAll(ts)[w], c);
    }
  }

  lemma NotifyPending(s: State)
    requires PendingInv(s)
    ensures PendingInv(Notified(s))
  {
    forall p | p in s.nodes
      ensures MarkAt(Notified(s), p)
    {
      assert MarkAt(s, p);
      NotifyWaiters(s.threads, p);
    }
    forall u | u in Notified(s).threads
      ensures MarkOf(s.nodes, Notified(s).threads[u])
    {
      assert MarkOf(s.nodes, s.threads[u]);
    }
  }

  lemma NobodySleeps(s: State)
    ensures WakeInv(Notified(s))
  {
  }

  lemma NotifyStep(s: State)
    requires TreeInv(s) && CountInv(s) && Antichain(s.threads) && SoleHolder(s.threads) && PendingInv(s)
    ensures Inv(Notified(s))
  {
    NotifyTree(s);
    NotifyCounts(s);
    NotifyExclusion(s.threads);
    NotifyPending(s);
    NobodySleeps(s);
  }

  /** A thread that does not wait to write changes, and so does a count. */
  lemma MarksUntouched(s: State, t: Tid, st: Status, nodes: Nodes)
    requires PendingInv(s) && t in s.threads && s.threads[t].Holding? && !Waits(st) && nodes.Keys == s.nodes.Keys
    requires forall p :: p in nodes ==>
               nodes[p].destroyed == s.nodes[p].destroyed && nodes[p].pendingWrite == s.nodes[p].pendingWrite
    ensures PendingInv(State(nodes, s.threads[t := st]))
  {
    var s' := State(nodes, s.threads[t := st]);
    forall p | p in nodes
      ensures MarkAt(s', p)
    {
      assert MarkAt(s, p);
      WaiterKept(s.threads, t, st, p);
    }
    forall u | u in s'.threads
      ensures MarkOf(nodes, s'.threads[u])
    {
      assert MarkOf(s.nodes, s.threads[u]);
    }
  }

  function DowngradedNodes(s: State, t: Tid): Nodes
    requires t in s.threads && s.threads[t].Holding? && s.threads[t].at in s.nodes
  {
    s.nodes[s.threads[t].at := s.nodes[s.threads[t].at].(actionLocked := 1)]
  }

  lemma DowngradeKeepsPending(s: State, t: Tid)
    requires PendingInv(s) && t in s.threads && s.threads[t].Holding? && s.threads[t].at in s.nodes
    ensures PendingInv(Changed(s, t, Downgraded, DowngradedNodes(s, t)))
  {
    MarksUntouched(s, t, Holding(s.threads[t].at, Downgraded), DowngradedNodes(s, t));
  }

  lemma DowngradeKeepsCounts(s: State, t: Tid)
    requires TreeInv(s) && CountInv(s) && May(s, Downgrade(t))
    ensures CountInv(Changed(s, t, Downgraded, DowngradedNodes(s, t)))
  {
    HolderCounted(s, t);
    ChangeKeepsCounts(s, t, Downgraded, DowngradedNodes(s, t));
  }

  lemma DowngradeKeepsTree(s: State, t: Tid)
    requires TreeInv(s) && May(s, Downgrade(t))
    ensures TreeInv(Changed(s, t, Downgraded, DowngradedNodes(s, t)))
  {
    ChangeKeepsTree(s, t, Downgraded, DowngradedNodes(s, t));
  }

  lemma DowngradeNext(s: State, t: Tid)
    requires May(s, Downgrade(t))
    ensures Next(s, Downgrade(t)) == Notified(Changed(s, t, Downgraded, DowngradedNodes(s, t)))
  {
  }

  lemma DowngradeStep(s: State, t: Tid)
    requires Inv(s) && May(s, Downgrade(t))
    ensures Inv(Next(s, Downgrade(t)))
  {
    DowngradeKeepsTree(s, t);
    DowngradeKeepsCounts(s, t);
    ChangeKeepsExclusion(s.threads, t, Downgraded);
    DowngradeKeepsPending(s, t);
    NotifyStep(Changed(s, t, Downgraded, DowngradedNodes(s, t)));
    DowngradeNext(s, t);
  }

  // ---------- giving a lock back ----------

  lemma HolderRemoved(ts: Threads, t: Tid, p: Path)
    requires t in ts && Holds(ts[t])
    ensures HoldersAt(ts[t := Idle], p) == HoldersAt(ts, p) - {t}
    ensures HoldersBelow(ts[t := Idle], p) == HoldersBelow(ts, p) - {t}
    ensures t in HoldersAt(ts, p) <==> p == ts[t].at
    ensures t in HoldersBelow(ts, p) <==> Above(p, ts[t].at)
    ensures p != ts[t].at ==> WriterAt(ts[t := Idle], p) == WriterAt(ts, p)
    ensures !WriterAt(ts, p) ==> !WriterAt(ts[t := Idle], p)
  {
    var ts' := ts[t := Idle];
    if p != ts[t].at && WriterAt(ts, p) {
      var u :| u in ts && HoldsAt(ts[u], p) && InWriteMode(ts[u]);
      assert u in ts' && HoldsAt(ts'[u], p) && InWriteMode(ts'[u]);
    }
    if WriterAt(ts', p) {
      var u :| u in ts' && HoldsAt(ts'[u], p) && InWriteMode(ts'[u]);
      assert u in ts && HoldsAt(ts[u], p) && InWriteMode(ts[u]);
    }
  }

  function Released(s: State, t: Tid): State
    requires t in s.threads && s.threads[t].Holding?
  {
    State(GiveBack(s.nodes, s.threads[t].at), s.threads[t := Idle])
  }

  lemma ReleaseCountAt(s: State, t: Tid, p: Path)
    requires t in s.threads && s.threads[t].Holding? && p in s.nodes && CountAt(s, p)
    ensures CountAt(Released(s, t), p)
  {
    var ts' := s.threads[t := Idle];
    HolderRemoved(s.threads, t, p);
    if p == s.threads[t].at && WriterAt(s.threads, p) {
      assert |HoldersAt(ts', p)| == 0;
      forall u | u in ts'
        ensures !HoldsAt(ts'[u], p)
      {
        assert u !in HoldersAt(ts', p);
      }
    }
  }

  lemma ReleaseKeepsCounts(s: State, t: Tid)
    requires CountInv(s) && t in s.threads && s.threads[t].Holding?
    ensures CountInv(Released(s, t))
  {
    forall p | p in Released(s, t).nodes
      ensures CountAt(Released(s, t), p)
    {
      assert CountAt(s, p);
      ReleaseCountAt(s, t, p);
    }
  }

  lemma ReleaseKeepsExclusion(ts: Threads, t: Tid)
    requires Antichain(ts) && SoleHolder(ts) && t in ts
    ensures Antichain(ts[t := Idle]) && SoleHolder(ts[t := Idle])
  {
  }

  lemma ReleaseKeepsTree(s: State, t: Tid)
    requires TreeInv(s) && t in s.threads && s.threads[t].Holding?
    ensures TreeInv(Released(s, t))
  {
  }

  lemma ReleaseKeepsPending(s: State, t: Tid)
    requires PendingInv(s) && t in s.threads && s.threads[t].Holding?
    ensures PendingInv(Released(s, t))
  {
    MarksUntouched(s, t, Idle, GiveBack(s.nodes, s.threads[t].at));
  }

  lemma UnlockNext(s: State, t: Tid)
    requires May(s, Unlock(t))
    ensures Next(s, Unlock(t)) == Notified(Released(s, t))
  {
  }

  lemma UnlockStep(s: State, t: Tid)
    requires Inv(s) && May(s, Unlock(t))
    ensures Inv(Next(s, Unlock(t)))
  {
    ReleaseKeepsTree(s, t);
    ReleaseKeepsCounts(s, t);
    ReleaseKeepsExclusion(s.threads, t);
    ReleaseKeepsPending(s, t);
    NotifyStep(Released(s, t));
    UnlockNext(s, t);
  }

  // ---------- the tree grows and shrinks ----------

  function Grown(s: State, c: Path): State {
    State(s.nodes[c := FreshNode], s.threads)
  }

  lemma GrowCountAt(s: State, c: Path, p: Path)
    requires TreeInv(s) && CountInv(s) && c !in s.nodes && p in Grown(s, c).nodes
    ensures CountAt(Grown(s, c), p)
  {
    if p == c {
      assert HoldersAt(s.threads, c) == {};
      assert HoldersBelow(s.threads, c) == {};
    } else {
      assert CountAt(s, p);
    }
  }

  lemma GrowKeepsTree(s: State, q: Path, id: nat)
    requires TreeInv(s) && q in s.nodes && !s.nodes[q].destroyed && q + [id] !in s.nodes
    ensures TreeInv(Grown(s, q + [id]))
  {
    var c := q + [id];
    assert ParentOf(c) == q;
    forall p, a | p in Grown(s, c).nodes && Above(a, p)
      ensures a in Grown(s, c).nodes && (Grown(s, c).nodes[a].destroyed ==> Grown(s, c).nodes[p].destroyed)
    {
      if p == c {
        AncestorsOfChild(a, c);
      }
    }
  }

  /** A new container enables nobody who waits elsewhere. */
  lemma GrowEnablesNobody(nodes: Nodes, c: Path, st: Status)
    requires c !in nodes && Waits(st) && st.at in nodes
    ensures !Guard(nodes, st) ==> !Guard(nodes[c := FreshNode], st)
  {
    EnablesNobody(nodes, nodes[c := FreshNode], st);
  }

  lemma GrowKeepsWaits(s: State, c: Path)
    requires TreeInv(s) && PendingInv(s) && WakeInv(s) && c !in s.nodes
    ensures PendingInv(Grown(s, c)) && WakeInv(Grown(s, c))
  {
    var s' := Grown(s, c);
    forall p | p in s'.nodes
      ensures MarkAt(s', p)
    {
      assert p != c ==> MarkAt(s, p);
    }
    forall u | u in s.threads
      ensures MarkOf(s'.nodes, s.threads[u]) && WakeOf(s', s.threads[u])
    {
      assert MarkOf(s.nodes, s.threads[u]) && WakeOf(s, s.threads[u]);
      if Waits(s.threads[u]) {
        GrowEnablesNobody(s.nodes, c, s.threads[u]);
      }
    }
  }

  lemma RegisterStep(s: State, t: Tid, p: Path, id: nat)
    requires Inv(s) && May(s, Register(t, p, id))
    ensures Inv(Next(s, Register(t, p, id)))
  {
    var c := p + [id];
    GrowKeepsTree(s, p, id);
    forall q | q in Grown(s, c).nodes
      ensures CountAt(Grown(s, c), q)
    {
      GrowCountAt(s, c, q);
    }
    GrowKeepsWaits(s, c);
    assert Next(s, Register(t, p, id)) == Grown(s, c);
  }

  function Shrunk(s: State, c: Path): State
    requires c in s.nodes
  {
    State(Destroyed(s.nodes, c), s.threads)
  }

  lemma ShrinkKeepsTree(s: State, c: Path)
    requires TreeInv(s) && c in s.nodes && c != []
    requires forall p :: p in s.nodes && Above(c, p) ==> s.nodes[p].destroyed
    ensures TreeInv(Shrunk(s, c))
  {
  }

  /** Destroying `c` enables only threads that wait at `c`. */
  lemma ShrinkEnablesOnlyThere(nodes: Nodes, c: Path, st: Status)
    requires c in nodes && Waits(st) && st.at in nodes && (st.Upgrading? || st.at != c)
    ensures !Guard(nodes, st) ==> !Guard(Destroyed(nodes, c), st)
  {
    EnablesNobody(nodes, Destroyed(nodes, c), st);
  }

  lemma ShrinkKeepsPending(s: State, c: Path)
    requires PendingInv(s) && c in s.nodes
    ensures PendingInv(Shrunk(s, c))
  {
    var s' := Shrunk(s, c);
    forall p | p in s'.nodes
      ensures MarkAt(s', p)
    {
      assert MarkAt(s, p);
    }
    forall u | u in s.threads
      ensures MarkOf(s'.nodes, s.threads[u])
    {
      assert MarkOf(s.nodes, s.threads[u]);
    }
  }

  lemma ShrinkWakeOf(s: State, c: Path, w: Status)
    requires c in s.nodes && WakeOf(s, w) && WriterOver(s.threads, c)
    ensures WakeOf(Shrunk(s, c), w)
  {
    if Waits(w) && w.at in s.nodes && (w.Upgrading? || w.at != c) {
      ShrinkEnablesOnlyThere(s.nodes, c, w);
    }
  }

  lemma UnregisterStep(s: State, t: Tid, c: Path)
    requires Inv(s) && May(s, Unregister(t, c))
    ensures Inv(Next(s, Unregister(t, c)))
  {
    var s' := Shrunk(s, c);
    ShrinkKeepsTree(s, c);
    CountKept(s, s');
    ShrinkKeepsPending(s, c);
    assert t in s.threads && InWriteMode(s.threads[t]) && AtOrAbove(s.threads[t].at, c);
    assert WriterOver(s.threads, c);
    forall u | u in s.threads
      ensures WakeOf(s', s.threads[u])
    {
      ShrinkWakeOf(s, c, s.threads[u]);
    }
    assert Next(s, Unregister(t, c)) == s';
  }

  /** A lock given back and its container destroyed, before anybody is told. */
  function Abandoned(s: State, t: Tid): State
    requires t in s.threads && s.threads[t].Holding? && s.threads[t].at in s.nodes
  {
    Shrunk(Released(s, t), s.threads[t].at)
  }

  lemma AbandonNext(s: State, t: Tid)
    requires May(s, Abandon(t))
    ensures Next(s, Abandon(t)) == Notified(Abandoned(s, t))
  {
  }

  lemma AbandonKeepsTree(s: State, t: Tid)
    requires TreeInv(s) && May(s, Abandon(t))
    ensures TreeInv(Abandoned(s, t))
  {
    ReleaseKeepsTree(s, t);
    ShrinkKeepsTree(Released(s, t), s.threads[t].at);
  }

  lemma ShrinkKeepsCounts(s: State, c: Path)
    requires CountInv(s) && c in s.nodes
    ensures CountInv(Shrunk(s, c))
  {
    CountKept(s, Shrunk(s, c));
  }

  lemma AbandonStep(s: State, t: Tid)
    requires Inv(s) && May(s, Abandon(t))
    ensures Inv(Next(s, Abandon(t)))
  {
    var c := s.threads[t].at;
    AbandonKeepsTree(s, t);
    ReleaseKeepsCounts(s, t);
    ShrinkKeepsCounts(Released(s, t), c);
    ReleaseKeepsExclusion(s.threads, t);
    ReleaseKeepsPending(s, t);
    ShrinkKeepsPending(Released(s, t), c);
    NotifyStep(Abandoned(s, t));
    AbandonNext(s, t);
  }

  // ---------- whole runs ----------

  lemma StepKeepsInv(s: State, e: Event)
    requires Inv(s) && May(s, e)
    ensures Inv(Next(s, e))
  {
    match e
    case Call(_, _, _) => CallStep(s, e);
    case Spurious(_) => CallStep(s, e);
    case LockPass(t) =>
      match PassOutcome(s.nodes, s.threads[t].at, s.threads[t].shared) {
        case Gone => GoneStep(s, t);
        case Blocked => BlockStep(s, t);
        case Acquired => AcquireStep(s, t);
      }
    case Unlock(t) => UnlockStep(s, t);
    case Downgrade(t) => DowngradeStep(s, t);
    case BeginUpgrade(t) => BeginUpgradeStep(s, t);
    case UpgradePass(t) =>
      if s.nodes[s.threads[t].at].actionLocked == 1 { UpgradeStep(s, t); } else { UpgradeBlockStep(s, t); }
    case Register(t, p, id) => RegisterStep(s, t, p, id);
    case Abandon(t) => AbandonStep(s, t);
    case Unregister(t, c) => UnregisterStep(s, t, c);
  }

  lemma InitInv(s: State)
    requires Init(s)
    ensures Inv(s)
  {
    forall c | c in s.nodes
      ensures CountAt(s, c)
    {
      assert HoldersAt(s.threads, c) == {};
      assert HoldersBelow(s.threads, c) == {};
    }
  }

  lemma {:induction false} RunKeepsInv(s: State, run: seq<Event>)
    requires Inv(s) && Feasible(s, run)
    ensures Inv(After(s, run))
    decreases |run|
  {
    if run != [] {
      StepKeepsInv(s, run[0]);
      RunKeepsInv(Next(s, run[0]), run[1..]);
    }
  }

  lemma ReachableInv(s: State)
    requires Reachable(s)
    ensures Inv(s)
  {
    var s0, run :| Init(s0) && Feasible(s0, run) && After(s0, run) == s;
    InitInv(s0);
    RunKeepsInv(s0, run);
  }
}
