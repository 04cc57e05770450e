/**
 The wanted number of used cpus per NUMA node (`getNodeRequest`): what is requested
 on the node itself, plus a share of the requests that name no node.
 */
module NodeRequest {
  import opened Sums
  import opened JailCounters

  ghost function TotalOf(nodes: set<nat>, v: seq<nat>): int {
    Sum(nodes, At(v))
  }

  ghost predicate Vectors(nodes: set<nat>, v: seq<nat>, w: seq<nat>) {
    |v| == |w| && forall n :: n in nodes ==> n < |v|
  }

  /** Requests on nodes stay, the others are handed out to online nodes. */
  ghost predicate Distributes(nodes: set<nat>, bound: seq<nat>, unbound: nat, r: seq<nat>) {
    && Vectors(nodes, bound, r)
    && (forall n :: 0 <= n < |r| ==> r[n] >= bound[n] && (n !in nodes ==> r[n] == bound[n]))
    && TotalOf(nodes, r) == TotalOf(nodes, bound) + unbound
  }

  /** A node that was given something is at most one above any other online node. */
  ghost predicate Level(nodes: set<nat>, bound: seq<nat>, r: seq<nat>)
    requires Vectors(nodes, bound, r)
  {
    forall n, m :: n in nodes && m in nodes && r[n] > bound[n] ==> r[n] <= r[m] + 1
  }

  /** A node that was given more than another one could take is used at least as much. */
  ghost predicate FavoursUsed(nodes: set<nat>, bound: seq<nat>, usage: seq<nat>, r: seq<nat>)
    requires Vectors(nodes, bound, r) && |usage| == |r|
  {
    forall n, m :: n in nodes && m in nodes && r[n] > bound[n] && r[m] < r[n] ==> usage[n] >= usage[m]
  }

  /** The heap order: `m` would come out before `n`. */
  predicate Before(r: seq<nat>, usage: seq<nat>, m: nat, n: nat)
    requires n < |r| && m < |r| && |usage| == |r|
  {
    if r[n] == r[m] then usage[n] < usage[m] else r[n] > r[m]
  }

  /** What may come out of the heap next. */
  ghost predicate Top(nodes: set<nat>, r: seq<nat>, usage: seq<nat>, n: nat)
    requires |usage| == |r| && forall m :: m in nodes ==> m < |r|
  {
    n in nodes && forall m :: m in nodes ==> !Before(r, usage, m, n)
  }

  lemma {:induction false} TopExists(nodes: set<nat>, r: seq<nat>, usage: seq<nat>) returns (n: nat)
    requires |usage| == |r| && nodes != {} && forall m :: m in nodes ==> m < |r|
    ensures Top(nodes, r, usage, n)
    decreases |nodes|
  {
    var first := Pick(nodes);
    var rest := nodes - {first};
    assert nodes == rest + {first};
    n := first;
    if rest != {} {
      var m := TopExists(rest, r, usage);
      n := if Before(r, usage, m, first) then m else first;
      forall x | x in nodes
        ensures !Before(r, usage, x, n)
      {
        assert x == first || x in rest;
      }
    }
  }

  /** One request more for the node on top of the heap. */
  lemma RaiseTop(nodes: set<nat>, bound: seq<nat>, usage: seq<nat>, i: nat, r: seq<nat>, n: nat)
    requires Distributes(nodes, bound, i, r) && Level(nodes, bound, r)
    requires |usage| == |r| && FavoursUsed(nodes, bound, usage, r) && Top(nodes, r, usage, n)
    ensures Distributes(nodes, bound, i + 1, r[n := r[n] + 1])
    ensures Level(nodes, bound, r[n := r[n] + 1]) && FavoursUsed(nodes, bound, usage, r[n := r[n] + 1])
  {
    SumChange(nodes, At(r), At(r[n := r[n] + 1]), n);
  }

  /** Hands out the unbound requests one at a time. */
  method GetNodeRequest(nodes: set<nat>, bound: seq<nat>, usage: seq<nat>, unbound: nat) returns (r: seq<nat>)
    requires nodes != {} && |usage| == |bound| && forall n :: n in nodes ==> n < |bound|
    ensures Distributes(nodes, bound, unbound, r)
    ensures Level(nodes, bound, r) && FavoursUsed(nodes, bound, usage, r)
  {
    r := bound;
    for i := 0 to unbound
      invariant Distributes(nodes, bound, i, r) && Level(nodes, bound, r) && FavoursUsed(nodes, bound, usage, r)
    {
      ghost var t := TopExists(nodes, r, usage);
      var n: nat :| n in nodes && forall m :: m in nodes ==> !Before(r, usage, m, n);
      RaiseTop(nodes, bound, usage, i, r, n);
      r := r[n := r[n] + 1];
    }
  }

  // ---------- what makes it the best ----------

  /** No other distribution keeps every online node at or below a smaller level. */
  lemma LeastLevel(nodes: set<nat>, bound: seq<nat>, unbound: nat, r: seq<nat>, q: seq<nat>, level: nat)
    requires Distributes(nodes, bound, unbound, r) && Level(nodes, bound, r)
    requires Distributes(nodes, bound, unbound, q) && forall n :: n in nodes ==> q[n] <= level
    ensures forall n :: n in nodes ==> r[n] <= level
  {
    forall n | n in nodes
      ensures r[n] <= level
    {
      if r[n] > level {
        assert forall m :: m in nodes ==> r[n] <= r[m] + 1;
        SumAtMost(nodes, At(q), At(r));
      }
    }
  }

  function Excess(v: seq<nat>, r: seq<nat>): nat -> int {
    (n: nat) => if n < |v| && n < |r| && v[n] > r[n] then v[n] - r[n] else 0
  }

  function Gain(q: seq<nat>, r: seq<nat>): nat -> int {
    (n: nat) => At(r)(n) - At(q)(n)
  }

  function Saved(usage: seq<nat>, q: seq<nat>, r: seq<nat>): nat -> int {
    (n: nat) => Excess(usage, q)(n) - Excess(usage, r)(n)
  }

  /** Uses beyond what is wanted, over all online nodes: what would have to move. */
  ghost function Misplaced(nodes: set<nat>, usage: seq<nat>, r: seq<nat>): int {
    Sum(nodes, Excess(usage, r))
  }

  /** Two level distributions differ by at most one anywhere, and where they do they meet at the same two levels. */
  lemma LevelsMeet(nodes: set<nat>, bound: seq<nat>, unbound: nat, r: seq<nat>, q: seq<nat>, n: nat)
    requires Distributes(nodes, bound, unbound, r) && Level(nodes, bound, r)
    requires Distributes(nodes, bound, unbound, q) && Level(nodes, bound, q)
    requires n in nodes && r[n] > q[n]
    ensures r[n] == q[n] + 1
    ensures exists m :: m in nodes && q[m] > r[m]
    ensures forall m :: m in nodes && q[m] > r[m] ==> r[m] == q[n] && q[m] == r[n]
  {
    if forall m :: m in nodes ==> q[m] <= r[m] {
      SumAtMost(nodes, At(q), At(r));
    }
    var m :| m in nodes && q[m] > r[m];
    assert r[n] <= r[m] + 1 && q[m] <= q[n] + 1;
    forall k | k in nodes && q[k] > r[k]
      ensures r[k] == q[n] && q[k] == r[n]
    {
      assert r[n] <= r[k] + 1 && q[k] <= q[n] + 1;
    }
  }

  /** Of all level distributions, the one that favours used nodes asks for the fewest moves. */
  lemma FewestMoves(nodes: set<nat>, bound: seq<nat>, unbound: nat, usage: seq<nat>, r: seq<nat>, q: seq<nat>)
    requires Distributes(nodes, bound, unbound, r) && Level(nodes, bound, r)
    requires |usage| == |r| && FavoursUsed(nodes, bound, usage, r)
    requires Distributes(nodes, bound, unbound, q) && Level(nodes, bound, q)
    ensures Misplaced(nodes, usage, r) <= Misplaced(nodes, usage, q)
  {
    if n :| n in nodes && r[n] > q[n] && usage[n] <= q[n] {
      // Nobody who got more from `q` is used beyond that level, so `q` saves nothing there.
      LevelsMeet(nodes, bound, unbound, r, q, n);
      SumAtMost(nodes, Excess(usage, r), Excess(usage, q));
    } else {
      // Whatever `r` gives beyond `q` it saves; `q` saves at most what it gives beyond `r`.
      SumPlus(nodes, At(q), Gain(q, r), At(r));
      SumPlus(nodes, Excess(usage, r), Saved(usage, q, r), Excess(usage, q));
      forall n | n in nodes
        ensures Gain(q, r)(n) <= Saved(usage, q, r)(n)
      {
        if r[n] > q[n] {
          LevelsMeet(nodes, bound, unbound, r, q, n);
        }
      }
      SumAtMost(nodes, Gain(q, r), Saved(usage, q, r));
    }
  }

  /** If no online node is used beyond what is wanted, every one is used exactly as wanted. */
  lemma NothingMisplaced(top: Topology, c: Counters, r: seq<nat>)
    requires WellFormed(top) && Sized(top, c) && Balanced(top, c)
    requires Distributes(top.nodes, c.nodeRequest, c.unbound, r)
    requires forall n :: n in top.nodes ==> c.nodeUsage[n] <= r[n]
    ensures forall n :: n in top.nodes ==> c.nodeUsage[n] == r[n]
  {
    SumAtMost(top.nodes, At(c.nodeUsage), At(r));
  }
}
