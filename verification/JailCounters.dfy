/**
 The four counters of the CPU jail allocator, and the allocations they count.

 A jail is given a number of cpus, on one NUMA node or anywhere. The allocator
 keeps, for every cpu, how many jails use it; for every node, the sum of that; and
 the number of cpus requested, per node and without a node.
 */
module JailCounters {
  import opened Sums

  type Cpu = nat
  type SpecId = nat

  /**
   The host: the node of every cpu index below `HostCpus.Size()` (0 where the cpu is offline), the online cpus,
   the online nodes, and for every cpu its sibling threads.
   */
  datatype Topology = Topology(nodeOf: seq<nat>, online: set<Cpu>, nodes: set<nat>, nodeCount: nat, siblings: seq<set<Cpu>>)

  ghost predicate WellFormed(top: Topology) {
    && |top.siblings| == |top.nodeOf|
    && (forall i :: 0 <= i < |top.nodeOf| ==> top.nodeOf[i] < top.nodeCount)
    && (forall i :: i in top.online ==> i < |top.nodeOf| && top.nodeOf[i] in top.nodes)
    && (forall n :: n in top.nodes ==> n < top.nodeCount)
  }

  /** All cpu indices of a node, and those of them that are online (`NodeThreads`). */
  function NodeCpus(top: Topology, n: nat): set<Cpu> {
    set i | 0 <= i < |top.nodeOf| && top.nodeOf[i] == n
  }

  function NodeThreads(top: Topology, n: nat): set<Cpu> {
    set i | i in top.online && i < |top.nodeOf| && top.nodeOf[i] == n
  }

  datatype Counters = Counters(usage: seq<nat>, nodeUsage: seq<nat>, nodeRequest: seq<nat>, unbound: nat)

  ghost predicate Sized(top: Topology, c: Counters) {
    |c.usage| == |top.nodeOf| && |c.nodeUsage| == |c.nodeRequest| == top.nodeCount
  }

  /** A jail: how many cpus, on which node (negative for any), and what it has; nothing when not allocated. */
  datatype Jail = Jail(size: nat, node: int, cpus: set<Cpu>)

  type Jails = map<SpecId, Jail>

  ghost predicate JailOk(top: Topology, j: Jail) {
    j.cpus <= top.online && (j.node >= 0 ==> j.node in top.nodes)
  }

  // ---------- what the counters count ----------

  function Users(jails: Jails, cpu: Cpu): set<SpecId> {
    set s | s in jails && cpu in jails[s].cpus
  }

  function OnNode(jails: Jails, node: int): set<SpecId> {
    set s | s in jails && (if node < 0 then jails[s].node < 0 else jails[s].node == node)
  }

  /** A vector as a function of the index. */
  function At(v: seq<nat>): nat -> int {
    (i: nat) => if i < |v| then v[i] else 0
  }

  function HasCpus(jails: Jails): SpecId -> int {
    (s: SpecId) => if s in jails then |jails[s].cpus| else 0
  }

  function Request(c: Counters, node: int): nat {
    if node < 0 then c.unbound else if node < |c.nodeRequest| then c.nodeRequest[node] else 0
  }

  ghost predicate UsageMatches(c: Counters, jails: Jails) {
    forall i :: 0 <= i < |c.usage| ==> c.usage[i] == |Users(jails, i)|
  }

  ghost function UsedOn(top: Topology, c: Counters, n: nat): int {
    Sum(NodeCpus(top, n), At(c.usage))
  }

  ghost function RequestedOn(jails: Jails, n: int): int {
    Sum(OnNode(jails, n), HasCpus(jails))
  }

  ghost predicate NodeUsageMatches(top: Topology, c: Counters) {
    forall n :: 0 <= n < |c.nodeUsage| ==> c.nodeUsage[n] == UsedOn(top, c, n)
  }

  ghost predicate RequestMatches(c: Counters, jails: Jails) {
    forall n: int :: n < |c.nodeRequest| ==> Request(c, n) == RequestedOn(jails, n)
  }

  /** What is used on the online nodes is what was requested. */
  ghost predicate Balanced(top: Topology, c: Counters) {
    Sum(top.nodes, At(c.nodeUsage)) == Sum(top.nodes, At(c.nodeRequest)) + c.unbound
  }

  ghost predicate Matches(top: Topology, c: Counters, jails: Jails) {
    && Sized(top, c) && UsageMatches(c, jails) && NodeUsageMatches(top, c) && RequestMatches(c, jails)
    && Balanced(top, c)
  }

  /** The allocations determine the counters. */
  lemma MatchesUnique(top: Topology, c: Counters, c': Counters, jails: Jails)
    requires Matches(top, c, jails) && Matches(top, c', jails)
    ensures c == c'
  {
    assert c.usage == c'.usage;
    forall n | 0 <= n < top.nodeCount
      ensures c.nodeUsage[n] == c'.nodeUsage[n] && c.nodeRequest[n] == c'.nodeRequest[n]
    {
      SumSame(NodeCpus(top, n), At(c.usage), At(c'.usage));
      assert Request(c, n) == Request(c', n);
    }
    assert Request(c, -1) == Request(c', -1);
  }

  // ---------- one cpu more or less ----------

  function AddTo(s: seq<nat>, i: int, d: int): (r: seq<nat>)
    requires 0 <= i < |s| && s[i] + d >= 0
    ensures |r| == |s|
  {
    s[i := s[i] + d]
  }

  predicate MayMove(top: Topology, c: Counters, node: int, cpu: Cpu, d: int) {
    && cpu < |c.usage| && cpu < |top.nodeOf| && top.nodeOf[cpu] < |c.nodeUsage| && node < |c.nodeRequest|
    && c.usage[cpu] + d >= 0 && c.nodeUsage[top.nodeOf[cpu]] + d >= 0 && Request(c, node) + d >= 0
  }

  /** A jail bound to `node` gets (`d` is 1) or loses (`d` is -1) a cpu. */
  function Move(top: Topology, c: Counters, node: int, cpu: Cpu, d: int): Counters
    requires MayMove(top, c, node, cpu, d)
  {
    Counters(AddTo(c.usage, cpu, d),
             AddTo(c.nodeUsage, top.nodeOf[cpu], d),
             if node < 0 then c.nodeRequest else AddTo(c.nodeRequest, node, d),
             if node < 0 then c.unbound + d else c.unbound)
  }

  function With(jails: Jails, s: SpecId, cpus: set<Cpu>): Jails
    requires s in jails
  {
    jails[s := jails[s].(cpus := cpus)]
  }

  /** The jail's cpus after the move. */
  function Moved(cpus: set<Cpu>, cpu: Cpu, d: int): set<Cpu> {
    if d > 0 then cpus + {cpu} else cpus - {cpu}
  }

  lemma MovedUsers(jails: Jails, s: SpecId, cpus: set<Cpu>, i: Cpu)
    requires s in jails
    ensures Users(With(jails, s, cpus), i) == if i in cpus then Users(jails, i) + {s} else Users(jails, i) - {s}
    ensures s in Users(jails, i) <==> i in jails[s].cpus
  {
  }

  lemma MoveUsers(jails: Jails, s: SpecId, cpu: Cpu, d: int, i: Cpu)
    requires s in jails && (d == 1 || d == -1) && (cpu in jails[s].cpus <==> d == -1)
    ensures |Users(With(jails, s, Moved(jails[s].cpus, cpu, d)), i)| == |Users(jails, i)| + (if i == cpu then d else 0)
  {
    MovedUsers(jails, s, Moved(jails[s].cpus, cpu, d), i);
  }

  lemma MoveRequest(jails: Jails, s: SpecId, cpu: Cpu, d: int, n: int)
    requires s in jails && (d == 1 || d == -1) && (cpu in jails[s].cpus <==> d == -1)
    ensures RequestedOn(With(jails, s, Moved(jails[s].cpus, cpu, d)), n)
      == RequestedOn(jails, n) + (if s in OnNode(jails, n) then d else 0)
  {
    var jails' := With(jails, s, Moved(jails[s].cpus, cpu, d));
    assert OnNode(jails', n) == OnNode(jails, n);
    if s in OnNode(jails, n) {
      SumChange(OnNode(jails, n), HasCpus(jails), HasCpus(jails'), s);
    } else {
      SumSame(OnNode(jails, n), HasCpus(jails), HasCpus(jails'));
    }
  }

  lemma MoveNodeUsage(top: Topology, c: Counters, c': Counters, cpu: Cpu, d: int, n: nat)
    requires WellFormed(top) && |c.usage| == |c'.usage| == |top.nodeOf| && cpu < |c.usage|
    requires forall i :: 0 <= i < |c.usage| ==> c'.usage[i] == c.usage[i] + (if i == cpu then d else 0)
    ensures UsedOn(top, c', n) == UsedOn(top, c, n) + (if top.nodeOf[cpu] == n then d else 0)
  {
    if top.nodeOf[cpu] == n {
      assert cpu in NodeCpus(top, n);
      SumChange(NodeCpus(top, n), At(c.usage), At(c'.usage), cpu);
    } else {
      SumSame(NodeCpus(top, n), At(c.usage), At(c'.usage));
    }
  }

  lemma MoveBalanced(top: Topology, c: Counters, node: int, cpu: Cpu, d: int)
    requires WellFormed(top) && Sized(top, c) && Balanced(top, c) && MayMove(top, c, node, cpu, d)
    requires cpu in top.online && (node >= 0 ==> node in top.nodes)
    ensures Balanced(top, Move(top, c, node, cpu, d))
  {
    var c' := Move(top, c, node, cpu, d);
    SumChange(top.nodes, At(c.nodeUsage), At(c'.nodeUsage), top.nodeOf[cpu]);
    if node >= 0 {
      var m: nat := node;
      SumChange(top.nodes, At(c.nodeRequest), At(c'.nodeRequest), m);
    } else {
      SumSame(top.nodes, At(c.nodeRequest), At(c'.nodeRequest));
    }
  }

  /** A cpu that a jail has is counted, so it can be taken away. */
  lemma MayTakeAway(top: Topology, c: Counters, jails: Jails, s: SpecId, cpu: Cpu)
    requires WellFormed(top) && Matches(top, c, jails) && s in jails && JailOk(top, jails[s]) && cpu in jails[s].cpus
    ensures MayMove(top, c, jails[s].node, cpu, -1)
  {
    assert s in Users(jails, cpu);
    var n := top.nodeOf[cpu];
    assert cpu in NodeCpus(top, n);
    SumRemove(NodeCpus(top, n), At(c.usage), cpu);
    SumNatural(NodeCpus(top, n) - {cpu}, At(c.usage));
    assert s in OnNode(jails, jails[s].node);
    SumRemove(OnNode(jails, jails[s].node), HasCpus(jails), s);
    SumNatural(OnNode(jails, jails[s].node) - {s}, HasCpus(jails));
    assert |jails[s].cpus| > 0;
    assert Request(c, jails[s].node) == RequestedOn(jails, jails[s].node);
  }

  lemma MoveUsageMatches(top: Topology, c: Counters, jails: Jails, s: SpecId, cpu: Cpu, d: int)
    requires UsageMatches(c, jails) && s in jails && MayMove(top, c, jails[s].node, cpu, d)
    requires (d == 1 || d == -1) && (cpu in jails[s].cpus <==> d == -1)
    ensures UsageMatches(Move(top, c, jails[s].node, cpu, d), With(jails, s, Moved(jails[s].cpus, cpu, d)))
  {
    var c', jails' := Move(top, c, jails[s].node, cpu, d), With(jails, s, Moved(jails[s].cpus, cpu, d));
    forall i | 0 <= i < |c'.usage|
      ensures c'.usage[i] == |Users(jails', i)|
    {
      MoveUsers(jails, s, cpu, d, i);
    }
  }

  lemma MoveNodeUsageMatches(top: Topology, c: Counters, node: int, cpu: Cpu, d: int)
    requires WellFormed(top) && Sized(top, c) && NodeUsageMatches(top, c) && MayMove(top, c, node, cpu, d)
    ensures NodeUsageMatches(top, Move(top, c, node, cpu, d))
  {
    var c' := Move(top, c, node, cpu, d);
    forall n | 0 <= n < |c'.nodeUsage|
      ensures c'.nodeUsage[n] == UsedOn(top, c', n)
    {
      MoveNodeUsage(top, c, c', cpu, d, n);
    }
  }

  lemma MoveRequestMatches(top: Topology, c: Counters, jails: Jails, s: SpecId, cpu: Cpu, d: int)
    requires RequestMatches(c, jails) && s in jails && MayMove(top, c, jails[s].node, cpu, d)
    requires (d == 1 || d == -1) && (cpu in jails[s].cpus <==> d == -1)
    ensures RequestMatches(Move(top, c, jails[s].node, cpu, d), With(jails, s, Moved(jails[s].cpus, cpu, d)))
  {
    var c', jails' := Move(top, c, jails[s].node, cpu, d), With(jails, s, Moved(jails[s].cpus, cpu, d));
    forall n: int | n < |c'.nodeRequest|
      ensures Request(c', n) == RequestedOn(jails', n)
    {
      MoveRequest(jails, s, cpu, d, n);
      assert Request(c, n) == RequestedOn(jails, n);
    }
  }

  /** Moving one cpu in the counters is moving it in the jails. */
  lemma MoveMatches(top: Topology, c: Counters, jails: Jails, s: SpecId, cpu: Cpu, d: int)
    requires WellFormed(top) && Matches(top, c, jails) && s in jails && JailOk(top, jails[s]) && cpu in top.online
    requires (d == 1 || d == -1) && (cpu in jails[s].cpus <==> d == -1)
    requires MayMove(top, c, jails[s].node, cpu, d)
    ensures Matches(top, Move(top, c, jails[s].node, cpu, d), With(jails, s, Moved(jails[s].cpus, cpu, d)))
  {
    MoveUsageMatches(top, c, jails, s, cpu, d);
    MoveNodeUsageMatches(top, c, jails[s].node, cpu, d);
    MoveRequestMatches(top, c, jails, s, cpu, d);
    MoveBalanced(top, c, jails[s].node, cpu, d);
  }
}
