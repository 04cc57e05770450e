/**
 The hierarchical action lock of a container: `LockAction`, `UnlockAction`,
 `DowngradeActionLock` and `UpgradeActionLock`.

 Every method below is one critical section under the global containers mutex:
 one pass of the wait loop, or a whole call that never waits. Each is proved
 against a function on the snapshot of all containers, and those functions are
 the steps of the protocol in `ActionLockProtocol`.
 */
module ActionLock {
  import opened ContainerPaths

  /** The lock fields of one container. */
  datatype Node = Node(actionLocked: int, subtreeRead: int, pendingWrite: bool, destroyed: bool)

  /** The lock fields of all containers that were ever registered. */
  type Nodes = map<Path, Node>

  /** How one pass of the wait loop of `LockAction` ends. */
  datatype Outcome = Gone | Acquired | Blocked

  /** Why the container itself may refuse the lock. */
  predicate BlocksAtSelf(n: Node, shared: bool) {
    if shared then n.actionLocked < 0 || n.pendingWrite
    else n.actionLocked != 0 || n.subtreeRead != 0
  }

  /** Why an ancestor may refuse the lock. */
  predicate BlocksFromAbove(n: Node, shared: bool) {
    n.pendingWrite || (if shared then n.actionLocked < 0 else n.actionLocked != 0)
  }

  ghost predicate Busy(nodes: Nodes, c: Path, shared: bool)
    requires c in nodes
  {
    || BlocksAtSelf(nodes[c], shared)
    || exists a :: a in nodes && Above(a, c) && BlocksFromAbove(nodes[a], shared)
  }

  /** A lock taken at `c`: the container's own count moves, every strict ancestor counts one more reader. */
  function TakenAt(n: Node, p: Path, c: Path, shared: bool): Node {
    if p == c then n.(actionLocked := n.actionLocked + (if shared then 1 else -1), pendingWrite := false)
    else if Above(p, c) then n.(subtreeRead := n.subtreeRead + 1)
    else n
  }

  function Take(nodes: Nodes, c: Path, shared: bool): (r: Nodes)
    ensures r.Keys == nodes.Keys
  {
    map p | p in nodes :: TakenAt(nodes[p], p, c, shared)
  }

  function SetPending(nodes: Nodes, c: Path): (r: Nodes)
    requires c in nodes
    ensures r.Keys == nodes.Keys
  {
    nodes[c := nodes[c].(pendingWrite := true)]
  }

  ghost function PassOutcome(nodes: Nodes, c: Path, shared: bool): Outcome
    requires c in nodes
  {
    if nodes[c].destroyed then Gone
    else if Busy(nodes, c, shared) then Blocked
    else Acquired
  }

  ghost function PassNodes(nodes: Nodes, c: Path, shared: bool): (r: Nodes)
    requires c in nodes
    ensures r.Keys == nodes.Keys
  {
    match PassOutcome(nodes, c, shared)
    case Gone => nodes
    case Blocked => if shared then nodes else SetPending(nodes, c)
    case Acquired => Take(nodes, c, shared)
  }

  /** A lock at `c` given back, shared or exclusive as the sign of the count says. */
  function GivenBackAt(n: Node, p: Path, c: Path): Node {
    if p == c then n.(actionLocked := n.actionLocked + (if n.actionLocked > 0 then -1 else 1))
    else if Above(p, c) then n.(subtreeRead := n.subtreeRead - 1)
    else n
  }

  function GiveBack(nodes: Nodes, c: Path): (r: Nodes)
    ensures r.Keys == nodes.Keys
  {
    map p | p in nodes :: GivenBackAt(nodes[p], p, c)
  }

  /** The assertions in `UnlockAction`. */
  ghost predicate MayGiveBack(nodes: Nodes, c: Path) {
    && c in nodes && nodes[c].actionLocked != 0
    && forall a :: a in nodes && Above(a, c) ==> nodes[a].subtreeRead > 0
  }

  /** All registered containers, by address. */
  type Registry = map<Path, Container>

  /** Addresses and `Parent` pointers agree. Both are constant, so nothing here reads the heap. */
  ghost predicate Registered(reg: Registry) {
    forall p | p in reg ::
      && reg[p].path == p
      && (if p == [] then reg[p].parent == null
          else ParentOf(p) in reg && reg[p].parent == reg[ParentOf(p)])
  }

  ghost function Snapshot(reg: Registry): Nodes
    reads reg.Values
  {
    map p | p in reg ::
      Node(reg[p].actionLocked, reg[p].subtreeRead, reg[p].pendingWrite, reg[p].destroyed)
  }

  class Container {
    const path: Path
    const parent: Container?
    var actionLocked: int
    var subtreeRead: int
    var pendingWrite: bool
    var destroyed: bool

    constructor Root()
      ensures path == [] && parent == null
      ensures actionLocked == 0 && subtreeRead == 0 && !pendingWrite && !destroyed
    {
      path, parent := [], null;
      actionLocked, subtreeRead, pendingWrite, destroyed := 0, 0, false, false;
    }

    constructor Child(p: Container, id: nat)
      ensures path == p.path + [id] && parent == p
      ensures actionLocked == 0 && subtreeRead == 0 && !pendingWrite && !destroyed
    {
      path, parent := p.path + [id], p;
      actionLocked, subtreeRead, pendingWrite, destroyed := 0, 0, false, false;
    }

    ghost predicate In(reg: Registry) {
      Registered(reg) && path in reg && reg[path] == this
    }

    /** The test of the wait loop: the container itself, then its ancestors bottom up, stopping early. */
    method IsBusy(shared: bool, ghost reg: Registry) returns (busy: bool)
      requires In(reg)
      ensures busy == Busy(Snapshot(reg), path, shared)
    {
      ghost var nodes := Snapshot(reg);
      if shared {
        busy := actionLocked < 0 || pendingWrite;
      } else {
        busy := actionLocked != 0 || subtreeRead != 0;
      }
      assert busy == BlocksAtSelf(nodes[path], shared);
      var ct := parent;
      ghost var below := path;
      while !busy && ct != null
        invariant AtOrAbove(below, path)
        invariant below in reg && reg[below].parent == ct
        invariant busy ==> Busy(nodes, path, shared)
        invariant !busy ==> !BlocksAtSelf(nodes[path], shared)
        invariant !busy ==> forall a :: a in nodes && Above(a, path) && !Above(a, below) ==> !BlocksFromAbove(nodes[a], shared)
        decreases if ct == null then 0 else |ct.path| + 1
      {
        AncestorsOfChild(ct.path, below);
        AboveTransitive(ct.path, below, path);
        busy := ct.pendingWrite || (if shared then ct.actionLocked < 0 else ct.actionLocked != 0);
        assert busy == BlocksFromAbove(nodes[ct.path], shared);
        forall a | a in nodes && Above(a, path) && !Above(a, ct.path) && a != ct.path
          ensures !Above(a, below)
        {
          AncestorsOfChild(a, below);
        }
        below := ct.path;
        ct := ct.parent;
      }
      if !busy {
        forall a | a in nodes && Above(a, path)
          ensures !BlocksFromAbove(nodes[a], shared)
        {
          assert below == [];
          assert !Above(a, below);
        }
      }
    }

    /** One pass of the loop in `LockAction`. */
    method TryLockAction(shared: bool, ghost reg: Registry) returns (r: Outcome)
      requires In(reg)
      modifies reg.Values
      ensures r == PassOutcome(old(Snapshot(reg)), path, shared)
      ensures Snapshot(reg) == PassNodes(old(Snapshot(reg)), path, shared)
    {
      if destroyed {
        return Gone;
      }
      var busy := IsBusy(shared, reg);
      if !busy {
        CountLock(shared, reg);
        return Acquired;
      }
      if !shared {
        MarkPending(reg);
      }
      return Blocked;
    }

    /** The part of `LockAction` after its wait loop. */
    method CountLock(shared: bool, ghost reg: Registry)
      requires In(reg)
      modifies reg.Values
      ensures Snapshot(reg) == Take(old(Snapshot(reg)), path, shared)
    {
      pendingWrite := false;
      actionLocked := actionLocked + (if shared then 1 else -1);
      MoveSubtreeRead(1, reg);
      forall p | p in reg
        ensures Snapshot(reg)[p] == TakenAt(old(Snapshot(reg))[p], p, path, shared)
      {
      }
    }

    /** The loops over the strict ancestors that count or uncount a reader. */
    method MoveSubtreeRead(d: int, ghost reg: Registry)
      requires In(reg)
      requires d == 1 || d == -1
      modifies reg.Values
      ensures forall p :: p in reg ==>
        && reg[p].subtreeRead == old(reg[p].subtreeRead) + (if Above(p, path) then d else 0)
        && reg[p].actionLocked == old(reg[p].actionLocked)
        && reg[p].pendingWrite == old(reg[p].pendingWrite)
        && reg[p].destroyed == old(reg[p].destroyed)
    {
      var ct := parent;
      ghost var below := path;
      while ct != null
        invariant AtOrAbove(below, path)
        invariant below in reg && reg[below].parent == ct
        invariant forall p :: p in reg ==>
          && reg[p].subtreeRead == old(reg[p].subtreeRead) + (if Above(p, path) && !Above(p, below) then d else 0)
          && reg[p].actionLocked == old(reg[p].actionLocked)
          && reg[p].pendingWrite == old(reg[p].pendingWrite)
          && reg[p].destroyed == old(reg[p].destroyed)
        decreases if ct == null then 0 else |ct.path| + 1
      {
        AncestorsOfChild(ct.path, below);
        AboveTransitive(ct.path, below, path);
        ct.subtreeRead := ct.subtreeRead + d;
        forall p | p in reg
          ensures Above(p, below) <==> p == ct.path || Above(p, ct.path)
        {
          AncestorsOfChild(p, below);
        }
        below := ct.path;
        ct := ct.parent;
      }
    }

    method UnlockAction(ghost reg: Registry)
      requires In(reg)
      requires MayGiveBack(Snapshot(reg), path)
      modifies reg.Values
      ensures Snapshot(reg) == GiveBack(old(Snapshot(reg)), path)
    {
      MoveSubtreeRead(-1, reg);
      actionLocked := actionLocked + (if actionLocked > 0 then -1 else 1);
      forall p | p in reg
        ensures Snapshot(reg)[p] == GivenBackAt(old(Snapshot(reg))[p], p, path)
      {
      }
    }

    method DowngradeActionLock(ghost reg: Registry)
      requires In(reg)
      requires actionLocked == -1
      modifies this`actionLocked
      ensures Snapshot(reg) == old(Snapshot(reg))[path := old(Snapshot(reg))[path].(actionLocked := 1)]
    {
      actionLocked := 1;
    }

    /** The writer's mark, left by a blocked `LockAction` and by `UpgradeActionLock` before its wait loop. */
    method MarkPending(ghost reg: Registry)
      requires In(reg)
      modifies this`pendingWrite
      ensures Snapshot(reg) == SetPending(old(Snapshot(reg)), path)
    {
      pendingWrite := true;
    }

    /** One pass of the loop in `UpgradeActionLock`, which looks at this container only. */
    method TryUpgrade(ghost reg: Registry) returns (done: bool)
      requires In(reg)
      modifies this`pendingWrite, this`actionLocked
      ensures done == (old(actionLocked) == 1)
      ensures Snapshot(reg) == if done then UpgradeNode(old(Snapshot(reg)), path) else old(Snapshot(reg))
    {
      done := actionLocked == 1;
      if done {
        actionLocked := -1;
        pendingWrite := false;
      }
    }
  }

  function UpgradeNode(nodes: Nodes, c: Path): (r: Nodes)
    requires c in nodes
    ensures r.Keys == nodes.Keys
  {
    nodes[c := nodes[c].(actionLocked := -1, pendingWrite := false)]
  }
}
