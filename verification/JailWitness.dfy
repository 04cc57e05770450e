/**
 Three jails, restored on a host with one node of three cpus, that leave a spread of
 two which `FindUnbalancedJailCpus` does not notice.
 */
module JailWitness {
  import opened Sums
  import opened JailCounters
  import opened JailPicker
  import opened CpuJail
  import opened NodeRequest
  import opened JailBalance

  const ALL: set<nat> := {0, 1, 2}
  const TWO: set<nat> := {1, 2}
  const HOST := Topology([0, 0, 0], ALL, {0}, 1, [{}, {}, {}])
  const FIRST: Jails := map[0 := Jail(3, -1, ALL)]
  const SECOND: Jails := map[0 := Jail(3, -1, ALL), 1 := Jail(2, -1, TWO)]
  const JAILS: Jails := map[0 := Jail(3, -1, ALL), 1 := Jail(2, -1, TWO), 2 := Jail(2, -1, TWO)]
  const COUNTERS := Counters([1, 3, 3], [7], [0], 7)

  // ---------- the allocator gets there ----------

  /** A container comes up with the cpus it already runs on. */
  method Adopt(state: JailState, id: SpecId, cpus: set<Cpu>)
    requires state.Valid() && id !in state.jails && cpus != {} && cpus <= state.top.online && |cpus| <= |state.top.online|
    modifies state
    ensures state.Valid() && state.jails == old(state.jails)[id := Jail(|cpus|, -1, cpus)]
  {
    assert |cpus| != 0;
    var spec := new JailSpec(state, id, |cpus|, -1);
    spec.Restore(cpus);
  }

  lemma OneByOne()
    ensures map[][0 := Jail(|ALL|, -1, ALL)] == FIRST && 1 !in FIRST
    ensures FIRST[1 := Jail(|TWO|, -1, TWO)] == SECOND && 2 !in SECOND
    ensures SECOND[2 := Jail(|TWO|, -1, TWO)] == JAILS
  {
    Sizes();
  }

  method Restored() returns (state: JailState)
    ensures fresh(state) && state.Valid() && state.top == HOST && state.jails == JAILS
  {
    Sizes();
    OneByOne();
    state := new JailState(HOST);
    Adopt(state, 0, ALL);
    Adopt(state, 1, TWO);
    Adopt(state, 2, TWO);
  }

  // ---------- what the counters are ----------

  lemma Sizes()
    ensures |ALL| == 3 && |TWO| == 2 && TWO <= ALL && ALL != {} && TWO != {} && WellFormed(HOST)
  {
    assert |{0}| == 1;
  }

  lemma HostUsers()
    ensures |Users(JAILS, 0)| == 1 && |Users(JAILS, 1)| == 3 && |Users(JAILS, 2)| == 3
  {
    assert Users(JAILS, 0) == {0} && Users(JAILS, 1) == ALL && Users(JAILS, 2) == ALL;
    Sizes();
  }

  lemma HostNodes()
    ensures OnNode(JAILS, -1) == ALL && NodeCpus(HOST, 0) == ALL && NodeThreads(HOST, 0) == ALL
    ensures forall n: int :: n < 1 ==> OnNode(JAILS, n) == if n < 0 then ALL else {}
  {
  }

  lemma SumOfThree(f: nat -> int)
    ensures Sum(ALL, f) == f(0) + f(1) + f(2)
  {
    var none: set<nat> := {};
    SumAdd(none, f, 0);
    SumAdd(none + {0}, f, 1);
    SumAdd(none + {0} + {1}, f, 2);
    assert none + {0} + {1} + {2} == ALL;
  }

  lemma SumOfOne(f: nat -> int)
    ensures Sum(HOST.nodes, f) == f(0)
  {
    var none: set<nat> := {};
    SumAdd(none, f, 0);
    assert none + {0} == HOST.nodes;
  }

  lemma HostRequests()
    ensures RequestMatches(COUNTERS, JAILS)
  {
    HostNodes();
    Sizes();
    SumOfThree(HasCpus(JAILS));
  }

  lemma HostUsage()
    ensures UsageMatches(COUNTERS, JAILS)
  {
    HostUsers();
  }

  lemma HostUse()
    ensures NodeUsageMatches(HOST, COUNTERS) && Balanced(HOST, COUNTERS)
  {
    HostNodes();
    SumOfThree(At(COUNTERS.usage));
    SumOfOne(At(COUNTERS.nodeUsage));
    SumOfOne(At(COUNTERS.nodeRequest));
  }

  // ---------- what is missed ----------

  lemma WantedIsSeven(want: seq<nat>)
    requires Distributes(HOST.nodes, [0], 7, want)
    ensures want == [7]
  {
    SumOfOne(At(want));
    SumOfOne(At([0]));
  }

  lemma NothingFound(want: seq<nat>, n: nat, cpu: Cpu, d: nat)
    requires want == [7] && n in HOST.nodes
    ensures Scannable(HOST, COUNTERS) && !Reported(HOST, COUNTERS, want, n, cpu, d)
  {
    HostNodes();
    Sizes();
    FoundIff(ALL, [1, 3, 3], 2);
  }

  /** Counters, jails and wanted use all agree, one cpu has two users more than another, and nothing is reported. */
  lemma MissedSpread(c: Counters, want: seq<nat>)
    requires Matches(HOST, c, JAILS) && Distributes(HOST.nodes, c.nodeRequest, c.unbound, want)
    ensures |c.usage| == 3 && c.usage[1] == c.usage[0] + 2
    ensures Scannable(HOST, c) && |want| == 1 && forall n, cpu, d :: n in HOST.nodes ==> !Reported(HOST, c, want, n, cpu, d)
  {
    HostRequests();
    HostUsage();
    HostUse();
    MatchesUnique(HOST, c, COUNTERS, JAILS);
    WantedIsSeven(want);
    forall n, cpu, d | n in HOST.nodes
      ensures Scannable(HOST, c) && !Reported(HOST, c, want, n, cpu, d)
    {
      NothingFound(want, n, cpu, d);
    }
    NothingFound(want, 0, 0, 0);
  }
}
