/**
 Threads running the action lock on a growing and shrinking container tree.

 One event is one critical section under the containers mutex. A thread that
 finds its guard false goes to sleep on the condition variable; `notify_all`
 wakes every sleeper, and a sleeper may also wake for no reason. A thread holds
 at most one action lock and waits while holding only inside `UpgradeActionLock`:
 clients release their container before they lock another one.

 Ghost knowledge about each holder is kept in its `Mode`: a plain reader, a
 holder that took the exclusive lock, one that downgraded it, and one that
 upgraded it again.
 */
module ActionLockProtocol {
  import opened ContainerPaths
  import opened ActionLock

  type Tid = nat

  datatype Mode = Reader | Exclusive | Downgraded | Upgraded

  datatype Status =
    | Idle
    | Locking(at: Path, shared: bool, awake: bool)
    | Holding(at: Path, mode: Mode)
    | Upgrading(at: Path, awake: bool)

  type Threads = map<Tid, Status>

  datatype State = State(nodes: Nodes, threads: Threads)

  datatype Event =
    | Call(t: Tid, c: Path, shared: bool)  // enter LockAction
    | LockPass(t: Tid)                     // one pass of its wait loop
    | Unlock(t: Tid)
    | Downgrade(t: Tid)
    | BeginUpgrade(t: Tid)
    | UpgradePass(t: Tid)                  // one pass of the wait loop of UpgradeActionLock
    | Register(t: Tid, p: Path, id: nat)   // a new child of p, whoever holds locks there
    | Unregister(t: Tid, c: Path)          // c is destroyed by an exclusive holder above it
    | Abandon(t: Tid)                      // t gives its exclusive lock back and destroys the container at once
    | Spurious(t: Tid)                     // a sleeper wakes without a notification

  // ---------- what a status means ----------

  predicate Holds(st: Status) {
    st.Holding? || st.Upgrading?
  }

  predicate HoldsAt(st: Status, c: Path) {
    Holds(st) && st.at == c
  }

  predicate HoldsBelow(st: Status, c: Path) {
    Holds(st) && Above(c, st.at)
  }

  /** The holder may write now. */
  predicate InWriteMode(st: Status) {
    st.Holding? && (st.mode == Exclusive || st.mode == Upgraded)
  }

  /** The holder took the exclusive lock, whatever it did with it since. */
  predicate WriteOrigin(st: Status) {
    st.Upgrading? || (st.Holding? && st.mode != Reader)
  }

  predicate Waits(st: Status) {
    st.Locking? || st.Upgrading?
  }

  predicate Asleep(st: Status) {
    Waits(st) && !st.awake
  }

  /** A thread that waits for the exclusive lock at `c`. */
  predicate WantsWrite(st: Status, c: Path) {
    Waits(st) && st.at == c && (st.Locking? ==> !st.shared)
  }

  /** The condition that ends the wait. */
  ghost predicate Guard(nodes: Nodes, st: Status)
    requires Waits(st) && st.at in nodes
  {
    match st
    case Locking(c, shared, _) => PassOutcome(nodes, c, shared) != Blocked
    case Upgrading(c, _) => nodes[c].actionLocked == 1
  }

  function Woken(st: Status): Status {
    if Waits(st) then st.(awake := true) else st
  }

  function NotifyAll(ts: Threads): (r: Threads)
    ensures r.Keys == ts.Keys
  {
    map t | t in ts :: Woken(ts[t])
  }

  // ---------- the steps ----------

  ghost predicate May(s: State, e: Event) {
    e.t in s.threads &&
    var st := s.threads[e.t];
    (st.Idle? || st.at in s.nodes) &&
    match e
    case Call(_, c, _) => st.Idle? && c in s.nodes
    case LockPass(_) => st.Locking? && st.awake
    case Unlock(_) => st.Holding?
    case Downgrade(_) => InWriteMode(st)
    case BeginUpgrade(_) => st.Holding? && st.mode == Downgraded
    case UpgradePass(_) => st.Upgrading? && st.awake
    case Register(_, p, id) => p in s.nodes && !s.nodes[p].destroyed && p + [id] !in s.nodes
    case Unregister(_, c) =>
      && InWriteMode(st) && AtOrAbove(st.at, c) && c in s.nodes && c != []
      && forall p :: p in s.nodes && Above(c, p) ==> s.nodes[p].destroyed
    case Abandon(_) =>
      && InWriteMode(st) && st.at != []
      && forall p :: p in s.nodes && Above(st.at, p) ==> s.nodes[p].destroyed
    case Spurious(_) => Asleep(st)
  }

  const FreshNode := Node(0, 0, false, false)

  function Destroyed(nodes: Nodes, c: Path): (r: Nodes)
    requires c in nodes
    ensures r.Keys == nodes.Keys
  {
    nodes[c := nodes[c].(destroyed := true)]
  }

  ghost function Next(s: State, e: Event): State
    requires May(s, e)
  {
    var st := s.threads[e.t];
    match e
    case Call(t, c, shared) => s.(threads := s.threads[t := Locking(c, shared, true)])
    case LockPass(t) =>
      State(PassNodes(s.nodes, st.at, st.shared),
            s.threads[t := match PassOutcome(s.nodes, st.at, st.shared)
                           case Gone => Idle
                           case Blocked => Locking(st.at, st.shared, false)
                           case Acquired => Holding(st.at, if st.shared then Reader else Exclusive)])
    case Unlock(t) => State(GiveBack(s.nodes, st.at), NotifyAll(s.threads[t := Idle]))
    case Downgrade(t) =>
      State(s.nodes[st.at := s.nodes[st.at].(actionLocked := 1)],
            NotifyAll(s.threads[t := Holding(st.at, Downgraded)]))
    case BeginUpgrade(t) => State(SetPending(s.nodes, st.at), s.threads[t := Upgrading(st.at, true)])
    case UpgradePass(t) =>
      if s.nodes[st.at].actionLocked == 1
      then State(UpgradeNode(s.nodes, st.at), s.threads[t := Holding(st.at, Upgraded)])
      else s.(threads := s.threads[t := Upgrading(st.at, false)])
    case Register(_, p, id) => s.(nodes := s.nodes[p + [id] := FreshNode])
    case Unregister(_, c) => s.(nodes := Destroyed(s.nodes, c))
    case Abandon(t) => State(Destroyed(GiveBack(s.nodes, st.at), st.at), NotifyAll(s.threads[t := Idle]))
    case Spurious(t) => s.(threads := s.threads[t := Woken(st)])
  }

  ghost predicate Init(s: State) {
    && s.nodes == map[[] := FreshNode]
    && forall t :: t in s.threads ==> s.threads[t] == Idle
  }

  ghost predicate Feasible(s: State, run: seq<Event>)
    decreases |run|
  {
    run == [] || (May(s, run[0]) && Feasible(Next(s, run[0]), run[1..]))
  }

  ghost function After(s: State, run: seq<Event>): State
    requires Feasible(s, run)
    decreases |run|
  {
    if run == [] then s else After(Next(s, run[0]), run[1..])
  }

  ghost predicate Reachable(s: State) {
    exists s0, run :: Init(s0) && Feasible(s0, run) && After(s0, run) == s
  }

  // ---------- the invariant ----------

  function HoldersAt(ts: Threads, c: Path): set<Tid> {
    set t | t in ts && HoldsAt(ts[t], c)
  }

  function HoldersBelow(ts: Threads, c: Path): set<Tid> {
    set t | t in ts && HoldsBelow(ts[t], c)
  }

  ghost predicate WriterAt(ts: Threads, c: Path) {
    exists t :: t in ts && HoldsAt(ts[t], c) && InWriteMode(ts[t])
  }

  /** Containers are registered below registered ones, and below a destroyed one all are destroyed. */
  ghost predicate TreeInv(s: State) {
    && [] in s.nodes && !s.nodes[[]].destroyed
    && (forall p, a :: p in s.nodes && Above(a, p) ==> a in s.nodes && (s.nodes[a].destroyed ==> s.nodes[p].destroyed))
    && forall t :: t in s.threads && s.threads[t] != Idle ==> s.threads[t].at in s.nodes
  }

  /** The two counters of one container say exactly who holds locks at and below it. */
  ghost predicate CountAt(s: State, c: Path)
    requires c in s.nodes
  {
    && s.nodes[c].subtreeRead == |HoldersBelow(s.threads, c)|
    && s.nodes[c].actionLocked == (if WriterAt(s.threads, c) then -1 else |HoldersAt(s.threads, c)|)
    && (WriterAt(s.threads, c) ==> |HoldersAt(s.threads, c)| == 1)
  }

  ghost predicate CountInv(s: State) {
    forall c :: c in s.nodes ==> CountAt(s, c)
  }

  /** No two write-origin holders are on one container or on an ancestor and a descendant. */
  ghost predicate Antichain(ts: Threads) {
    forall t, u :: t in ts && u in ts && t != u && WriteOrigin(ts[t]) && WriteOrigin(ts[u])
      ==> !AtOrAbove(ts[t].at, ts[u].at)
  }

  /** A holder that took the exclusive lock and kept it has its whole subtree for itself. */
  ghost predicate SoleHolder(ts: Threads) {
    forall t, u :: t in ts && u in ts && t != u && ts[t].Holding? && ts[t].mode == Exclusive && Holds(ts[u])
      ==> !AtOrAbove(ts[t].at, ts[u].at)
  }

  ghost predicate WriteWaiter(ts: Threads, c: Path) {
    exists t :: t in ts && WantsWrite(ts[t], c)
  }

  /** On a live container the mark means that somebody waits to write. */
  ghost predicate MarkAt(s: State, c: Path)
    requires c in s.nodes
  {
    !s.nodes[c].destroyed && s.nodes[c].pendingWrite ==> WriteWaiter(s.threads, c)
  }

  /** An upgrade leaves the mark. */
  ghost predicate MarkOf(nodes: Nodes, st: Status) {
    st.Upgrading? && st.at in nodes ==> nodes[st.at].pendingWrite
  }

  ghost predicate PendingInv(s: State) {
    && (forall c :: c in s.nodes ==> MarkAt(s, c))
    && forall t :: t in s.threads ==> MarkOf(s.nodes, s.threads[t])
  }

  ghost predicate WriterOver(ts: Threads, c: Path) {
    exists h :: h in ts && InWriteMode(ts[h]) && AtOrAbove(ts[h].at, c)
  }

  /** A sleeper that could go on is one whose container was just destroyed, by a holder that has still to unlock. */
  ghost predicate WakeOf(s: State, st: Status) {
    Asleep(st) && st.at in s.nodes && Guard(s.nodes, st) ==>
      st.Locking? && s.nodes[st.at].destroyed && WriterOver(s.threads, st.at)
  }

  ghost predicate WakeInv(s: State) {
    forall t :: t in s.threads ==> WakeOf(s, s.threads[t])
  }

  ghost predicate Inv(s: State) {
    TreeInv(s) && CountInv(s) && Antichain(s.threads) && SoleHolder(s.threads) && PendingInv(s) && WakeInv(s)
  }

  // ---------- counting ----------

  /** Nobody starts or stops holding a lock, and nobody changes mode. */
  ghost predicate SameHolders(ts: Threads, ts': Threads) {
    && ts'.Keys == ts.Keys
    && forall t :: t in ts ==>
         && Holds(ts'[t]) == Holds(ts[t])
         && (Holds(ts[t]) ==> ts'[t].at == ts[t].at)
         && InWriteMode(ts'[t]) == InWriteMode(ts[t])
         && WriteOrigin(ts'[t]) == WriteOrigin(ts[t])
  }

  ghost predicate SameCounts(nodes: Nodes, nodes': Nodes) {
    && nodes'.Keys == nodes.Keys
    && forall p :: p in nodes ==>
         nodes'[p].actionLocked == nodes[p].actionLocked && nodes'[p].subtreeRead == nodes[p].subtreeRead
  }

  lemma SameHoldersSets(ts: Threads, ts': Threads, c: Path)
    requires SameHolders(ts, ts')
    ensures HoldersAt(ts', c) == HoldersAt(ts, c)
    ensures HoldersBelow(ts', c) == HoldersBelow(ts, c)
    ensures WriterAt(ts', c) == WriterAt(ts, c)
  {
    if WriterAt(ts, c) {
      var t :| t in ts && HoldsAt(ts[t], c) && InWriteMode(ts[t]);
      assert t in ts' && HoldsAt(ts'[t], c) && InWriteMode(ts'[t]);
    }
    if WriterAt(ts', c) {
      var t :| t in ts' && HoldsAt(ts'[t], c) && InWriteMode(ts'[t]);
      assert t in ts && HoldsAt(ts[t], c) && InWriteMode(ts[t]);
    }
  }

  lemma CountKept(s: State, s': State)
    requires CountInv(s) && SameHolders(s.threads, s'.threads) && SameCounts(s.nodes, s'.nodes)
    ensures CountInv(s')
  {
    forall c | c in s'.nodes
      ensures CountAt(s', c)
    {
      assert CountAt(s, c);
      SameHoldersSets(s.threads, s'.threads, c);
    }
  }

  lemma NotifyKeepsHolders(ts: Threads)
    ensures SameHolders(ts, NotifyAll(ts))
  {
  }

  /** One more thread holds a lock at `c`. */
  lemma HolderAdded(ts: Threads, t: Tid, st: Status, p: Path)
    requires t in ts && !Holds(ts[t]) && Holds(st)
    ensures HoldersAt(ts[t := st], p) == if p == st.at then HoldersAt(ts, p) + {t} else HoldersAt(ts, p)
    ensures HoldersBelow(ts[t := st], p) == if Above(p, st.at) then HoldersBelow(ts, p) + {t} else HoldersBelow(ts, p)
    ensures t !in HoldersAt(ts, p) && t !in HoldersBelow(ts, p)
    ensures WriterAt(ts[t := st], p) <==> WriterAt(ts, p) || (p == st.at && InWriteMode(st))
  {
    var ts' := ts[t := st];
    if WriterAt(ts, p) {
      var u :| u in ts && HoldsAt(ts[u], p) && InWriteMode(ts[u]);
      assert u in ts' && HoldsAt(ts'[u], p) && InWriteMode(ts'[u]);
    }
    if p == st.at && InWriteMode(st) {
      assert t in ts' && HoldsAt(ts'[t], p) && InWriteMode(ts'[t]);
    }
  }

  lemma NoHoldersBelow(s: State, c: Path)
    requires CountInv(s) && c in s.nodes && s.nodes[c].subtreeRead == 0
    ensures forall t :: t in s.threads ==> !HoldsBelow(s.threads[t], c)
  {
    assert CountAt(s, c);
    forall t | t in s.threads
      ensures !HoldsBelow(s.threads[t], c)
    {
      assert t !in HoldersBelow(s.threads, c);
    }
  }

  /** A negative count is one exclusive holder; a count of one is one holder. */
  lemma CountSign(s: State, c: Path)
    requires CountInv(s) && c in s.nodes
    ensures s.nodes[c].actionLocked >= -1 && s.nodes[c].subtreeRead >= 0
    ensures s.nodes[c].actionLocked < 0 <==> WriterAt(s.threads, c)
  {
    assert CountAt(s, c);
  }

  lemma HolderCounted(s: State, t: Tid)
    requires TreeInv(s) && CountInv(s) && t in s.threads && Holds(s.threads[t])
    ensures MayGiveBack(s.nodes, s.threads[t].at)
    ensures InWriteMode(s.threads[t]) ==> s.nodes[s.threads[t].at].actionLocked == -1
    ensures !InWriteMode(s.threads[t]) ==> s.nodes[s.threads[t].at].actionLocked >= 1
    ensures s.nodes[s.threads[t].at].actionLocked == 1 ==> HoldersAt(s.threads, s.threads[t].at) == {t}
    ensures s.nodes[s.threads[t].at].actionLocked == -1 ==> HoldersAt(s.threads, s.threads[t].at) == {t}
  {
    var c := s.threads[t].at;
    assert CountAt(s, c);
    var h := HoldersAt(s.threads, c);
    assert t in h;
    if |h| == 1 {
      SingletonSet(h, t);
    }
    if WriterAt(s.threads, c) {
      var u :| u in s.threads && HoldsAt(s.threads[u], c) && InWriteMode(s.threads[u]);
      assert u in h;
    } else {
      assert |h| >= 1;
    }
    forall a | a in s.nodes && Above(a, c)
      ensures s.nodes[a].subtreeRead > 0
    {
      assert CountAt(s, a);
      assert t in HoldersBelow(s.threads, a);
    }
  }

  lemma SingletonSet(h: set<Tid>, t: Tid)
    requires t in h && |h| == 1
    ensures h == {t}
  {
    assert |h - {t}| == 0;
  }
}
