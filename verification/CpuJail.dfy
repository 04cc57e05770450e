/**
 The CPU jail allocator: the shared counters (`JailState`) and the cpu-set
 specification of one container (`JailSpec`, the source's `TJailSpec`).
 */
module CpuJail {
  import opened Options
  import opened Sums
  import opened JailCounters
  import opened JailPicker

  /** Every jail has nothing, or exactly what it asked for, on its node if it is bound to one. */
  ghost predicate AllWhole(top: Topology, jails: Jails) {
    forall s :: s in jails ==> Whole(top, jails[s])
  }

  ghost predicate Whole(top: Topology, j: Jail) {
    && JailOk(top, j)
    && (j.cpus == {} || (|j.cpus| == j.size && (j.node >= 0 ==> j.cpus <= NodeThreads(top, j.node))))
  }

  /** The cpus of a jail on its way from `curr` to `next`, once the indices below `i` are done. */
  function Between(curr: set<Cpu>, next: set<Cpu>, i: nat): set<Cpu> {
    (set x | x in next && x < i) + (set x | x in curr && x >= i)
  }

  class JailState {
    const top: Topology
    var c: Counters
    ghost var jails: Jails

    constructor (top: Topology)
      requires WellFormed(top)
      ensures this.top == top && jails == map[] && Valid() && c == Idle(top)
    {
      this.top, c, jails := top, Idle(top), map[];
      new;
      IdleMatches(top);
    }

    ghost predicate WholeJails()
      reads this
    {
      WellFormed(top) && AllWhole(top, jails)
    }

    /** The counters count the jails, and every jail has nothing or all it asked for. */
    ghost predicate Valid()
      reads this
    {
      WholeJails() && Matches(top, c, jails)
    }
  }

  lemma IdleMatches(top: Topology)
    requires WellFormed(top)
    ensures Matches(top, Idle(top), map[])
  {
    var c: Counters, jails: Jails := Idle(top), map[];
    forall i | 0 <= i < |c.usage|
      ensures c.usage[i] == |Users(jails, i)|
    {
      assert Users(jails, i) == {};
    }
    forall n | 0 <= n < |c.nodeUsage|
      ensures c.nodeUsage[n] == UsedOn(top, c, n)
    {
      SumOfZeros(NodeCpus(top, n), At(c.usage));
    }
    forall n: int | n < |c.nodeRequest|
      ensures Request(c, n) == RequestedOn(jails, n)
    {
      assert OnNode(jails, n) == {};
    }
    SumOfZeros(top.nodes, At(c.nodeUsage));
    SumOfZeros(top.nodes, At(c.nodeRequest));
  }

  // ---------- one jail comes into being ----------

  lemma RegisterOnNode(jails: Jails, s: SpecId, j: Jail, n: int)
    requires s !in jails
    ensures s !in OnNode(jails, n)
    ensures OnNode(jails[s := j], n) == OnNode(jails, n) || OnNode(jails[s := j], n) == OnNode(jails, n) + {s}
  {
    if s !in OnNode(jails[s := j], n) {
      assert OnNode(jails[s := j], n) == OnNode(jails, n);
    }
  }

  lemma RegisterRequest(jails: Jails, s: SpecId, j: Jail, n: int)
    requires s !in jails && j.cpus == {}
    ensures RequestedOn(jails[s := j], n) == RequestedOn(jails, n)
  {
    var f, f' := HasCpus(jails), HasCpus(jails[s := j]);
    RegisterOnNode(jails, s, j, n);
    SumSame(OnNode(jails, n), f, f');
    SumAdd(OnNode(jails, n), f', s);
  }

  lemma RegisterUsers(jails: Jails, s: SpecId, j: Jail, i: Cpu)
    requires s !in jails && j.cpus == {}
    ensures Users(jails[s := j], i) == Users(jails, i)
  {
  }

  lemma RegisterMatches(top: Topology, c: Counters, jails: Jails, s: SpecId, j: Jail)
    requires Matches(top, c, jails) && s !in jails && j.cpus == {}
    ensures Matches(top, c, jails[s := j])
  {
    forall i | 0 <= i < |c.usage|
      ensures c.usage[i] == |Users(jails[s := j], i)|
    {
      RegisterUsers(jails, s, j, i);
    }
    forall n: int | n < |c.nodeRequest|
      ensures Request(c, n) == RequestedOn(jails[s := j], n)
    {
      RegisterRequest(jails, s, j, n);
    }
  }

  // ---------- moving a jail from one cpu set to another ----------

  lemma BetweenStep(curr: set<Cpu>, next: set<Cpu>, i: nat)
    ensures (i in curr) == (i in next) ==> Between(curr, next, i + 1) == Between(curr, next, i)
    ensures i in next && i !in curr ==>
              Between(curr, next, i + 1) == Moved(Between(curr, next, i), i, 1) && i !in Between(curr, next, i)
    ensures i in curr && i !in next ==>
              Between(curr, next, i + 1) == Moved(Between(curr, next, i), i, -1) && i in Between(curr, next, i)
  {
  }

  lemma BetweenEnds(curr: set<Cpu>, next: set<Cpu>, n: nat)
    requires forall x :: x in curr || x in next ==> x < n
    ensures Between(curr, next, 0) == curr && Between(curr, next, n) == next
  {
  }

  /** One index of the loop of `UpdateJailCpuState`: the move is possible and keeps counters and jails together. */
  lemma MoveTracks(top: Topology, c: Counters, jails: Jails, s: SpecId, cpus: set<Cpu>, cpu: Cpu, d: int)
    requires WellFormed(top) && Tracks(top, c, jails, s, cpus) && jails[s].node < top.nodeCount
    requires cpu in top.online && (d == 1 || d == -1) && (cpu in cpus <==> d == -1)
    ensures MayMove(top, c, jails[s].node, cpu, d)
    ensures Tracks(top, Move(top, c, jails[s].node, cpu, d), jails, s, Moved(cpus, cpu, d))
  {
    var jails' := With(jails, s, cpus);
    if d == -1 {
      MayTakeAway(top, c, jails', s, cpu);
    }
    MoveMatches(top, c, jails', s, cpu, d);
    WithTwice(jails, s, cpus, Moved(cpus, cpu, d));
  }

  lemma WithSame(jails: Jails, s: SpecId)
    requires s in jails
    ensures With(jails, s, jails[s].cpus) == jails
  {
  }

  class JailSpec {
    const id: SpecId
    const size: nat
    const node: int
    const state: JailState
    var granted: Option<set<Cpu>>

    constructor (state: JailState, id: SpecId, size: nat, node: int)
      requires state.Valid() && id !in state.jails
      requires CheckJail(state.top, size, node) && (node >= 0 ==> node in state.top.nodes)
      modifies state
      ensures this.state == state && this.id == id && this.size == size && this.node == node && granted == None
      ensures state.jails == old(state.jails)[id := Jail(size, node, {})] && state.c == old(state.c)
      ensures state.Valid() && Linked()
    {
      this.state, this.id, this.size, this.node, granted := state, id, size, node, None;
      RegisterMatches(state.top, state.c, state.jails, id, Jail(size, node, {}));
      new;
      state.jails := state.jails[id := Jail(size, node, {})];
    }

    function Cpus(): set<Cpu>
      reads this
    {
      if granted.Some? then granted.value else {}
    }

    /** The shared state knows this jail and what it has. */
    ghost predicate Linked()
      reads this, state
    {
      && id in state.jails && state.jails[id] == Jail(size, node, Cpus())
      && size > 0 && node < state.top.nodeCount && (granted.Some? ==> granted.value != {})
    }

    /** Counters and jails agree while this jail has got `cpus`. */
    ghost predicate Has(cpus: set<Cpu>)
      reads this, state
    {
      && WellFormed(state.top) && node < state.top.nodeCount
      && Tracks(state.top, state.c, state.jails, id, cpus) && state.jails[id].node == node
    }

    /** The counters follow one CPU that this jail gets or loses. */
    method MoveOne(cpu: Cpu, d: int, ghost cpus: set<Cpu>)
      requires Has(cpus) && cpu in state.top.online && (d == 1 || d == -1) && (cpu in cpus <==> d == -1)
      modifies state`c
      ensures Has(Moved(cpus, cpu, d))
    {
      MoveTracks(state.top, state.c, state.jails, id, cpus, cpu, d);
      assert d == 1 || state.c.usage[cpu] > 0;
      state.c := Move(state.top, state.c, node, cpu, d);
    }

    method UpdateJailCpuState(curr: set<Cpu>, next: set<Cpu>)
      requires Has(curr) && curr <= state.top.online && next <= state.top.online
      modifies state`c
      ensures Has(next)
    {
      var n := |state.top.nodeOf|;
      BetweenEnds(curr, next, n);
      for cpu := 0 to n
        invariant Has(Between(curr, next, cpu))
      {
        BetweenStep(curr, next, cpu);
        if (cpu in curr) != (cpu in next) {
          MoveOne(cpu, if cpu in next then 1 else -1, Between(curr, next, cpu));
        }
      }
    }

    /** One pick: the best cpu of all indices, refused when it is not online. */
    method NextJailCpu(affinity: set<Cpu>) returns (ok: bool, next: set<Cpu>)
      requires Has(affinity)
      modifies state`c
      ensures PickStep(state.top, node, Filled(old(state.c), affinity, true), Filled(state.c, next, ok))
      ensures Has(next)
    {
      NextPickTracks(state.top, state.c, state.jails, id, affinity);
      var best := FindBest(state.top, state.c, node, affinity);
      if best.None? || best.value !in state.top.online {
        return false, affinity;
      }
      state.c := Move(state.top, state.c, node, best.value, 1);
      return true, affinity + {best.value};
    }

    predicate Satisfies(affinity: set<Cpu>) {
      |affinity| == size && (node >= 0 ==> affinity <= NodeThreads(state.top, node))
    }

    /** The jail's entry in the shared state follows its cpus. */
    ghost method Settle(cpus: set<Cpu>)
      requires state.WholeJails() && Has(cpus) && state.jails[id].size == size && (cpus == {} || Satisfies(cpus))
      modifies state`jails
      ensures state.jails == With(old(state.jails), id, cpus) && state.Valid()
    {
      state.jails := With(state.jails, id, cpus);
    }

    /** Adopt what the container already runs on. */
    method Restore(current: set<Cpu>)
      requires state.Valid() && Linked() && current <= state.top.online && Satisfies(current)
      modifies this`granted, state
      ensures state.Valid() && Linked() && granted == Some(current)
      ensures state.jails == With(old(state.jails), id, current)
    {
      WithSame(state.jails, id);
      UpdateJailCpuState(Cpus(), current);
      Settle(current);
      granted := Some(current);
    }

    method Release()
      requires state.Valid() && Linked()
      modifies this`granted, state
      ensures state.Valid() && Linked() && granted == None
      ensures state.jails == With(old(state.jails), id, {})
    {
      WithSame(state.jails, id);
      if granted.None? {
        return;
      }
      UpdateJailCpuState(Cpus(), {});
      Settle({});
      granted := None;
    }

    /** Pick after pick; `trace` records the states passed. */
    method PickAll() returns (ok: bool, target: set<Cpu>, ghost trace: seq<Filled>)
      requires Has({})
      modifies state`c
      ensures Has(target) && Picks(state.top, node, trace)
      ensures trace[0] == Filled(old(state.c), {}, true) && trace[|trace| - 1] == Filled(state.c, target, ok)
      ensures if ok then |trace| - 1 == size else |trace| - 1 <= size
    {
      target, trace := {}, [Filled(state.c, {}, true)];
      for i := 0 to size
        invariant Has(target) && Picks(state.top, node, trace) && |trace| == i + 1
        invariant trace[0] == Filled(old(state.c), {}, true) && trace[i] == Filled(state.c, target, true)
      {
        ok, target := NextJailCpu(target);
        PicksMore(state.top, node, trace, trace[i], Filled(state.c, target, ok));
        trace := trace + [Filled(state.c, target, ok)];
        if !ok {
          return;
        }
      }
      ok := true;
    }

    /** Everything is undone after a failed pick. */
    method AllocateFresh() returns (ok: bool, target: set<Cpu>)
      requires Has({})
      modifies state`c
      ensures FillPre(state.top, old(state.c), node)
      ensures var fill := Fill(state.top, old(state.c), node, {}, size);
              ok == fill.ok && (ok ==> target == fill.cpus && state.c == fill.c)
      ensures Has(if ok then target else {})
    {
      ghost var trace;
      ok, target, trace := PickAll();
      PicksFill(state.top, node, trace, size);
      if !ok {
        UpdateJailCpuState(target, {});
      }
    }

    /** A jail without cpus gets fresh ones, or everything stays as it was. */
    method AllocateNew() returns (ok: bool, target: set<Cpu>)
      requires state.Valid() && Linked() && granted == None
      modifies this`granted, state
      ensures state.Valid() && Linked()
      ensures FillPre(state.top, old(state.c), node)
      ensures var fill := Fill(state.top, old(state.c), node, {}, size);
              ok == fill.ok && (ok ==> target == fill.cpus && state.c == fill.c)
      ensures ok ==> granted == Some(target) && Satisfies(target) && state.jails == With(old(state.jails), id, target)
      ensures !ok ==> granted == None && state.jails == old(state.jails) && state.c == old(state.c)
    {
      WithSame(state.jails, id);
      FillWhole(state.top, state.c, node, size);
      ok, target := AllocateFresh();
      if ok {
        Settle(target);
        granted := Some(target);
      } else {
        MatchesUnique(state.top, state.c, old(state.c), state.jails);
      }
    }

    /**
     The container runs on `current`. A jail that is satisfied with that adopts it, one that has cpus keeps
     them, and any other gets fresh ones or leaves everything as it was.
     */
    method Allocate(current: set<Cpu>) returns (ok: bool, target: set<Cpu>)
      requires state.Valid() && Linked() && current <= state.top.online
      modifies this`granted, state
      ensures state.Valid() && Linked()
      ensures ok ==> granted == Some(target) && Satisfies(target) && state.jails == With(old(state.jails), id, target)
      ensures !ok ==> granted == None && state.jails == old(state.jails) && state.c == old(state.c)
      ensures Satisfies(current) ==> ok && target == current
      ensures !Satisfies(current) && old(granted).Some? ==> ok && target == old(granted).value && state.c == old(state.c)
      ensures FillPre(state.top, old(state.c), node)
      ensures !Satisfies(current) && old(granted).None? ==>
                var fill := Fill(state.top, old(state.c), node, {}, size);
                ok == fill.ok && (ok ==> target == fill.cpus && state.c == fill.c)
    {
      WithSame(state.jails, id);
      if Satisfies(current) && (granted.None? || granted.value != current) {
        Restore(current);
      }
      if granted.Some? {
        return true, granted.value;
      }
      ok, target := AllocateNew();
    }
  }
}
