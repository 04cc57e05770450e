/**
 The search for overloaded cpus (`FindUnbalancedJailCpus`): a node above its
 wanted use is reported whole, inside the other nodes the most used cpus are.
 */
module JailBalance {
  import opened Sums
  import opened JailCounters
  import opened JailPicker
  import opened NodeRequest

  const UINT_MAX: nat := 0xFFFF_FFFF

  function CeilDiv(x: nat, y: nat): nat
    requires y > 0
  {
    x / y + (if x % y != 0 then 1 else 0)
  }

  /** The least number per cpu that makes up for `x` over `y` cpus. */
  lemma CeilDivIsLeast(x: nat, y: nat, d: nat)
    requires y > 0
    ensures CeilDiv(x, y) * y >= x
    ensures d * y >= x ==> CeilDiv(x, y) <= d
  {
    assert x == (x / y) * y + x % y;
    if d < CeilDiv(x, y) {
      var e: nat := CeilDiv(x, y) - 1 - d;
      assert (CeilDiv(x, y) - 1) * y == d * y + e * y;
      assert e * y >= 0;
      if x % y == 0 {
        assert (CeilDiv(x, y) - 1) * y == x - y;
      } else {
        assert (CeilDiv(x, y) - 1) * y == x - x % y;
      }
    }
  }

  // ---------- inside a node ----------

  ghost predicate Indexes(threads: set<Cpu>, usage: seq<nat>) {
    forall x :: x in threads ==> x < |usage| && usage[x] <= UINT_MAX
  }

  /** What the scan takes for the least use, once the indices below `i` are done. */
  function SeenMin(threads: set<Cpu>, usage: seq<nat>, i: nat): nat
    requires i <= |usage|
  {
    if i == 0 then UINT_MAX
    else if i - 1 !in threads || SeenMin(threads, usage, i - 1) == 0 then SeenMin(threads, usage, i - 1)
    else usage[i - 1]
  }

  /** The scan takes zero if it is there, and otherwise the last cpu for the least used. */
  lemma {:induction false} SeenMinIs(threads: set<Cpu>, usage: seq<nat>, i: nat)
    requires i <= |usage|
    ensures (forall x :: x in threads ==> x >= i) ==> SeenMin(threads, usage, i) == UINT_MAX
    ensures (exists x :: x in threads && x < i && usage[x] == 0) <==> SeenMin(threads, usage, i) == 0
    ensures forall last :: last in threads && last < i && (forall x :: x in threads && x < i ==> x <= last) ==>
              SeenMin(threads, usage, i) == 0 || SeenMin(threads, usage, i) == usage[last]
    decreases i
  {
    if i > 0 {
      SeenMinIs(threads, usage, i - 1);
    }
  }

  predicate Rising(s: seq<Cpu>) {
    forall i, j :: 0 <= i < j < |s| ==> s[i] < s[j]
  }

  /** No cpu is reported twice. */
  predicate EachOnce(found: seq<(Cpu, nat)>) {
    forall i, j :: 0 <= i < j < |found| ==> found[i].0 != found[j].0
  }

  method ScanNode(threads: set<Cpu>, usage: seq<nat>) returns (minUsage: nat, maxUsage: nat, maxCpus: seq<Cpu>)
    requires Indexes(threads, usage)
    ensures minUsage == SeenMin(threads, usage, |usage|) && maxUsage <= UINT_MAX
    ensures threads == {} ==> maxUsage == 0
    ensures forall x :: x in maxCpus <==> x in threads && usage[x] == maxUsage
    ensures forall x :: x in threads ==> usage[x] <= maxUsage
    ensures threads != {} ==> maxCpus != []
    ensures Rising(maxCpus)
  {
    minUsage, maxUsage, maxCpus := UINT_MAX, 0, [];
    for cpu := 0 to |usage|
      invariant minUsage == SeenMin(threads, usage, cpu) && maxUsage <= UINT_MAX
      invariant forall x :: x in maxCpus <==> x in threads && x < cpu && usage[x] == maxUsage
      invariant forall x :: x in threads && x < cpu ==> usage[x] <= maxUsage
      invariant (exists x :: x in threads && x < cpu) ==> maxCpus != []
      invariant maxUsage > 0 ==> maxCpus != []
      invariant Rising(maxCpus)
    {
      if cpu in threads {
        if usage[cpu] >= maxUsage {
          if usage[cpu] > maxUsage {
            maxCpus := [];
          }
          assert forall i :: 0 <= i < |maxCpus| ==> maxCpus[i] in maxCpus;
          maxUsage, maxCpus := usage[cpu], maxCpus + [cpu];
        }
        if minUsage != 0 {
          minUsage := usage[cpu];
        }
      }
    }
    assert maxUsage > 0 ==> maxCpus[0] in maxCpus;
  }

  /** A most used cpu of its node, `d + 1` above what the scan took for the least use. */
  ghost predicate MostUsed(threads: set<Cpu>, usage: seq<nat>, cpu: Cpu, d: nat)
    requires Indexes(threads, usage)
  {
    && cpu in threads && (forall x :: x in threads ==> usage[x] <= usage[cpu])
    && d >= 1 && usage[cpu] == SeenMin(threads, usage, |usage|) + d + 1
  }

  lemma SeenMinIsUsed(threads: set<Cpu>, usage: seq<nat>) returns (x: Cpu)
    requires Indexes(threads, usage) && threads != {}
    ensures x in threads && usage[x] == SeenMin(threads, usage, |usage|)
  {
    SeenMinIs(threads, usage, |usage|);
    if y :| y in threads && usage[y] == 0 {
      x := y;
    } else {
      x := Greatest(threads);
    }
  }

  lemma {:induction false} Greatest(s: set<nat>) returns (last: nat)
    requires s != {}
    ensures last in s && forall x :: x in s ==> x <= last
    decreases |s|
  {
    last := Pick(s);
    var rest := s - {last};
    assert s == rest + {last};
    if rest != {} {
      var other := Greatest(rest);
      assert forall x :: x in s ==> x == last || x in rest;
      last := if other > last then other else last;
    }
  }

  method WithOverload(cpus: seq<Cpu>, d: nat) returns (found: seq<(Cpu, nat)>)
    requires Rising(cpus)
    ensures forall cpu: nat, e: nat :: (cpu, e) in found <==> cpu in cpus && e == d
    ensures EachOnce(found)
  {
    found := [];
    for k := 0 to |cpus|
      invariant |found| == k && forall m :: 0 <= m < k ==> found[m] == (cpus[m], d)
    {
      found := found + [(cpus[k], d)];
    }
    forall cpu: nat, e: nat | cpu in cpus && e == d
      ensures (cpu, e) in found
    {
      var m :| 0 <= m < |cpus| && cpus[m] == cpu;
      assert found[m] == (cpu, e);
    }
  }

  /** The difference wraps around below zero on a node without cpus. */
  method OverloadInside(threads: set<Cpu>, usage: seq<nat>) returns (found: seq<(Cpu, nat)>)
    requires Indexes(threads, usage)
    ensures forall cpu: nat, d: nat :: (cpu, d) in found <==> MostUsed(threads, usage, cpu, d)
    ensures EachOnce(found)
  {
    var minUsage, maxUsage, maxCpus := ScanNode(threads, usage);
    var delta := (maxUsage - minUsage) % (UINT_MAX + 1);
    found := [];
    SeenMinIs(threads, usage, |usage|);
    if threads != {} {
      ghost var x := SeenMinIsUsed(threads, usage);
      assert maxCpus[0] in maxCpus;
      assert delta == maxUsage - minUsage;
    }
    if delta < 2 {
      return;
    }
    found := WithOverload(maxCpus, delta - 1);
  }

  // ---------- all nodes ----------

  ghost predicate Reported(top: Topology, c: Counters, want: seq<nat>, n: nat, cpu: Cpu, d: nat)
    requires Sized(top, c) && |want| == top.nodeCount && n < top.nodeCount && Indexes(NodeThreads(top, n), c.usage)
  {
    if c.nodeUsage[n] > want[n] then
      cpu in NodeThreads(top, n) && d == CeilDiv(c.nodeUsage[n] - want[n], |NodeThreads(top, n)|)
    else
      MostUsed(NodeThreads(top, n), c.usage, cpu, d)
  }

  ghost predicate Scannable(top: Topology, c: Counters) {
    && WellFormed(top) && Sized(top, c)
    && forall n :: n in top.nodes ==> Indexes(NodeThreads(top, n), c.usage)
  }

  /** A node in use has cpus that are online. */
  lemma UsedHasThreads(top: Topology, c: Counters, jails: Jails, n: nat)
    requires WellFormed(top) && Matches(top, c, jails) && n < top.nodeCount && c.nodeUsage[n] > 0
    requires forall s :: s in jails ==> JailOk(top, jails[s])
    ensures NodeThreads(top, n) != {}
  {
    if forall i :: i in NodeCpus(top, n) ==> At(c.usage)(i) == 0 {
      SumOfZeros(NodeCpus(top, n), At(c.usage));
    }
    var i :| i in NodeCpus(top, n) && At(c.usage)(i) != 0;
    assert |Users(jails, i)| > 0;
    var s :| s in Users(jails, i);
    assert i in NodeThreads(top, n);
  }

  method WholeNode(threads: set<Cpu>, n: nat, d: nat) returns (found: seq<(Cpu, nat)>)
    requires forall x :: x in threads ==> x < n
    ensures forall cpu: nat, e: nat :: (cpu, e) in found <==> cpu in threads && e == d
    ensures EachOnce(found)
  {
    found := [];
    for cpu := 0 to n
      invariant forall x: nat, e: nat :: (x, e) in found <==> x in threads && x < cpu && e == d
      invariant EachOnce(found) && forall m :: 0 <= m < |found| ==> found[m].0 < cpu
    {
      if cpu in threads {
        found := found + [(cpu, d)];
      }
    }
  }

  method FindInNode(top: Topology, c: Counters, want: seq<nat>, n: nat) returns (found: seq<(Cpu, nat)>)
    requires Scannable(top, c) && |want| == top.nodeCount && n in top.nodes
    requires c.nodeUsage[n] > want[n] ==> NodeThreads(top, n) != {}
    ensures forall cpu: nat, d: nat :: (cpu, d) in found <==> Reported(top, c, want, n, cpu, d)
    ensures EachOnce(found)
  {
    var threads := NodeThreads(top, n);
    if c.nodeUsage[n] > want[n] {
      found := WholeNode(threads, |c.usage|, CeilDiv(c.nodeUsage[n] - want[n], |threads|));
    } else {
      found := OverloadInside(threads, c.usage);
    }
  }

  /** Reported for one of the online nodes below `n`. */
  ghost predicate ReportedBelow(top: Topology, c: Counters, want: seq<nat>, n: nat, cpu: Cpu, d: nat)
    requires Scannable(top, c) && |want| == top.nodeCount
  {
    exists m :: m in top.nodes && m < n && Reported(top, c, want, m, cpu, d)
  }

  lemma ReportedOneMore(top: Topology, c: Counters, want: seq<nat>, n: nat, cpu: Cpu, d: nat)
    requires Scannable(top, c) && |want| == top.nodeCount && n < top.nodeCount
    ensures ReportedBelow(top, c, want, n + 1, cpu, d) <==>
              ReportedBelow(top, c, want, n, cpu, d) || (n in top.nodes && Reported(top, c, want, n, cpu, d))
  {
  }

  /** A cpu belongs to one node, so the reports for different nodes do not meet. */
  lemma OnceMore(top: Topology, c: Counters, want: seq<nat>, n: nat, a: seq<(Cpu, nat)>, b: seq<(Cpu, nat)>)
    requires Scannable(top, c) && |want| == top.nodeCount && n in top.nodes && EachOnce(a) && EachOnce(b)
    requires forall cpu: nat, d: nat :: (cpu, d) in a ==> ReportedBelow(top, c, want, n, cpu, d)
    requires forall cpu: nat, d: nat :: (cpu, d) in b ==> Reported(top, c, want, n, cpu, d)
    ensures EachOnce(a + b)
  {
    forall i | 0 <= i < |a|
      ensures a[i].0 < |top.nodeOf| && top.nodeOf[a[i].0] < n
    {
      assert (a[i].0, a[i].1) in a;
      assert ReportedBelow(top, c, want, n, a[i].0, a[i].1);
    }
    forall j | 0 <= j < |b|
      ensures b[j].0 < |top.nodeOf| && top.nodeOf[b[j].0] == n
    {
      assert (b[j].0, b[j].1) in b;
      assert Reported(top, c, want, n, b[j].0, b[j].1);
    }
  }

  /** The pairs (cpu, overload), and the wanted use of every node they were found with. */
  method FindUnbalancedJailCpus(top: Topology, c: Counters, ghost jails: Jails)
    returns (unbalanced: seq<(Cpu, nat)>, want: seq<nat>)
    requires Scannable(top, c) && top.nodes != {} && Matches(top, c, jails)
    requires forall s :: s in jails ==> JailOk(top, jails[s])
    ensures Distributes(top.nodes, c.nodeRequest, c.unbound, want) && Level(top.nodes, c.nodeRequest, want)
    ensures FavoursUsed(top.nodes, c.nodeRequest, c.nodeUsage, want)
    ensures forall cpu: nat, d: nat :: (cpu, d) in unbalanced <==> ReportedBelow(top, c, want, top.nodeCount, cpu, d)
    ensures EachOnce(unbalanced)
  {
    want := GetNodeRequest(top.nodes, c.nodeRequest, c.nodeUsage, c.unbound);
    unbalanced := [];
    for n := 0 to top.nodeCount
      invariant forall cpu: nat, d: nat :: (cpu, d) in unbalanced <==> ReportedBelow(top, c, want, n, cpu, d)
      invariant EachOnce(unbalanced)
    {
      if n in top.nodes {
        if c.nodeUsage[n] > want[n] {
          UsedHasThreads(top, c, jails, n);
        }
        var found := FindInNode(top, c, want, n);
        OnceMore(top, c, want, n, unbalanced, found);
        unbalanced := unbalanced + found;
      }
      forall cpu: nat, d: nat
        ensures ReportedBelow(top, c, want, n + 1, cpu, d) <==>
                  ReportedBelow(top, c, want, n, cpu, d) || (n in top.nodes && Reported(top, c, want, n, cpu, d))
      {
        ReportedOneMore(top, c, want, n, cpu, d);
      }
    }
  }

  // ---------- what is found and what is missed ----------

  /** Inside a node every report is real: another cpu of the node has at least that much less. */
  lemma ReportIsReal(threads: set<Cpu>, usage: seq<nat>, cpu: Cpu, d: nat) returns (x: Cpu)
    requires Indexes(threads, usage) && MostUsed(threads, usage, cpu, d)
    ensures x in threads && usage[cpu] == usage[x] + d + 1
  {
    x := SeenMinIsUsed(threads, usage);
  }

  /** A node is found uneven exactly when a cpu is two above an unused one, or two above the last one. */
  lemma FoundIff(threads: set<Cpu>, usage: seq<nat>, last: Cpu)
    requires Indexes(threads, usage) && last in threads && forall x :: x in threads ==> x <= last
    ensures (exists cpu: nat, d: nat :: MostUsed(threads, usage, cpu, d)) <==>
            exists x, y :: x in threads && y in threads && usage[x] >= usage[y] + 2 && (usage[y] == 0 || y == last)
  {
    SeenMinIs(threads, usage, |usage|);
    if cpu: nat, d: nat :| MostUsed(threads, usage, cpu, d) {
      if y :| y in threads && usage[y] == 0 {
        assert usage[cpu] >= usage[y] + 2;
      } else {
        assert usage[cpu] >= usage[last] + 2;
      }
    }
    if x, y :| x in threads && y in threads && usage[x] >= usage[y] + 2 && (usage[y] == 0 || y == last) {
      var top := MostUsedOf(threads, usage);
      var d := usage[top] - SeenMin(threads, usage, |usage|) - 1;
      assert MostUsed(threads, usage, top, d);
    }
  }

  lemma {:induction false} MostUsedOf(threads: set<Cpu>, usage: seq<nat>) returns (cpu: Cpu)
    requires Indexes(threads, usage) && threads != {}
    ensures cpu in threads && forall x :: x in threads ==> usage[x] <= usage[cpu]
    decreases |threads|
  {
    cpu := Pick(threads);
    var rest := threads - {cpu};
    assert threads == rest + {cpu};
    if rest != {} {
      var other := MostUsedOf(rest, usage);
      assert forall x :: x in threads ==> x == cpu || x in rest;
      cpu := if usage[other] > usage[cpu] then other else cpu;
    }
  }

  /** If nothing is found every online node is used exactly as wanted. */
  lemma QuietMeansWanted(top: Topology, c: Counters, jails: Jails, want: seq<nat>)
    requires Scannable(top, c) && Matches(top, c, jails)
    requires forall s :: s in jails ==> JailOk(top, jails[s])
    requires Distributes(top.nodes, c.nodeRequest, c.unbound, want)
    requires forall n, cpu, d :: n in top.nodes ==> !Reported(top, c, want, n, cpu, d)
    ensures forall n :: n in top.nodes ==> c.nodeUsage[n] == want[n]
  {
    forall n | n in top.nodes
      ensures c.nodeUsage[n] <= want[n]
    {
      if c.nodeUsage[n] > want[n] {
        UsedHasThreads(top, c, jails, n);
        var cpu :| cpu in NodeThreads(top, n);
        assert Reported(top, c, want, n, cpu, CeilDiv(c.nodeUsage[n] - want[n], |NodeThreads(top, n)|));
      }
    }
    NothingMisplaced(top, c, want);
  }

  /** On even nodes used as wanted nothing is found. */
  lemma EvenIsQuiet(top: Topology, c: Counters, want: seq<nat>, n: nat, cpu: Cpu, d: nat)
    requires Scannable(top, c) && |want| == top.nodeCount && n in top.nodes
    requires c.nodeUsage[n] <= want[n] && Even(top, c, n)
    ensures !Reported(top, c, want, n, cpu, d)
  {
    assert NodeThreads(top, n) <= NodeCpus(top, n);
    if Reported(top, c, want, n, cpu, d) {
      var x := ReportIsReal(NodeThreads(top, n), c.usage, cpu, d);
    }
  }
}
