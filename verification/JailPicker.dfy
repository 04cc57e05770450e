/**
 How a fresh jail gets its cpus: one at a time, each time the cpu with the least
 score (users of the cpu, use of its node, "no sibling chosen yet"), the lowest
 index first among equals.
 */
module JailPicker {
  import opened Options
  import opened JailCounters

  predicate Eligible(top: Topology, node: int, chosen: set<Cpu>, cpu: Cpu) {
    cpu < |top.nodeOf| && cpu !in chosen && (node >= 0 ==> top.nodeOf[cpu] == node)
  }

  datatype Score = Score(usage: nat, nodeUsage: nat, alone: bool)

  /** The lexicographic order of the score tuples. */
  predicate Less(a: Score, b: Score) {
    || a.usage < b.usage
    || (a.usage == b.usage && a.nodeUsage < b.nodeUsage)
    || (a.usage == b.usage && a.nodeUsage == b.nodeUsage && !a.alone && b.alone)
  }

  predicate InRange(top: Topology, c: Counters, cpu: Cpu) {
    cpu < |top.nodeOf| && cpu < |top.siblings| && cpu < |c.usage| && top.nodeOf[cpu] < |c.nodeUsage|
  }

  function ScoreOf(top: Topology, c: Counters, chosen: set<Cpu>, cpu: Cpu): Score
    requires InRange(top, c, cpu)
  {
    Score(c.usage[cpu], c.nodeUsage[top.nodeOf[cpu]], top.siblings[cpu] * chosen == {})
  }

  /** The best cpu among the indices below `n`. */
  function Best(top: Topology, c: Counters, node: int, chosen: set<Cpu>, n: nat): (r: Option<Cpu>)
    requires forall i :: 0 <= i < n ==> InRange(top, c, i)
    ensures r.Some? ==> r.value < n
  {
    if n == 0 then None
    else
      var best, cpu := Best(top, c, node, chosen, n - 1), n - 1;
      if Eligible(top, node, chosen, cpu)
         && (best.None? || Less(ScoreOf(top, c, chosen, cpu), ScoreOf(top, c, chosen, best.value)))
      then Some(cpu) else best
  }

  /** The best cpu is eligible, nobody eligible scores less, and nobody before it scores the same. */
  lemma {:induction false} BestIsLeast(top: Topology, c: Counters, node: int, chosen: set<Cpu>, n: nat)
    requires forall i :: 0 <= i < n ==> InRange(top, c, i)
    ensures Best(top, c, node, chosen, n).None? <==> forall i :: 0 <= i < n ==> !Eligible(top, node, chosen, i)
    ensures var r := Best(top, c, node, chosen, n);
            r.Some? ==>
              && Eligible(top, node, chosen, r.value)
              && (forall i :: 0 <= i < n && Eligible(top, node, chosen, i) ==>
                    !Less(ScoreOf(top, c, chosen, i), ScoreOf(top, c, chosen, r.value)))
              && (forall i :: 0 <= i < r.value && Eligible(top, node, chosen, i) ==>
                    Less(ScoreOf(top, c, chosen, r.value), ScoreOf(top, c, chosen, i)))
    decreases n
  {
    if n > 0 {
      BestIsLeast(top, c, node, chosen, n - 1);
    }
  }

  /** The scan over all indices. */
  method FindBest(top: Topology, c: Counters, node: int, chosen: set<Cpu>) returns (best: Option<Cpu>)
    requires forall i :: 0 <= i < |top.nodeOf| ==> InRange(top, c, i)
    ensures best == Best(top, c, node, chosen, |top.nodeOf|)
  {
    best := None;
    for cpu := 0 to |top.nodeOf|
      invariant best == Best(top, c, node, chosen, cpu)
    {
      if Eligible(top, node, chosen, cpu) {
        var score := ScoreOf(top, c, chosen, cpu);
        if best.None? || Less(score, ScoreOf(top, c, chosen, best.value)) {
          best := Some(cpu);
        }
      }
    }
  }

  datatype Filled = Filled(c: Counters, cpus: set<Cpu>, ok: bool)

  ghost predicate FillPre(top: Topology, c: Counters, node: int) {
    WellFormed(top) && Sized(top, c) && node < top.nodeCount
  }

  /** The loop of a fresh allocation: `k` more cpus, or as many as could be had before a pick failed. */
  ghost function Fill(top: Topology, c: Counters, node: int, chosen: set<Cpu>, k: nat): Filled
    requires FillPre(top, c, node)
    decreases k
  {
    if k == 0 then Filled(c, chosen, true)
    else
      var b := Best(top, c, node, chosen, |top.nodeOf|);
      if b.None? || b.value !in top.online then Filled(c, chosen, false)
      else Fill(top, Move(top, c, node, b.value, 1), node, chosen + {b.value}, k - 1)
  }

  /** One pick: the best of all indices, refused when there is none or it is not online. */
  ghost predicate PickStep(top: Topology, node: int, f: Filled, g: Filled) {
    && FillPre(top, f.c, node)
    && var b := Best(top, f.c, node, f.cpus, |top.nodeOf|);
       if b.None? || b.value !in top.online then g == Filled(f.c, f.cpus, false)
       else g == Filled(Move(top, f.c, node, b.value, 1), f.cpus + {b.value}, true)
  }

  /** Pick after pick, each one but the last successful. */
  ghost predicate Picks(top: Topology, node: int, trace: seq<Filled>) {
    && trace != []
    && (forall i :: 0 <= i < |trace| - 1 ==> trace[i].ok && PickStep(top, node, trace[i], trace[i + 1]))
  }

  lemma PicksMore(top: Topology, node: int, trace: seq<Filled>, f: Filled, g: Filled)
    requires Picks(top, node, trace) && trace[|trace| - 1] == f && f.ok && PickStep(top, node, f, g)
    ensures Picks(top, node, trace + [g])
  {
  }

  lemma {:induction false} PicksFill(top: Topology, node: int, trace: seq<Filled>, k: nat)
    requires Picks(top, node, trace) && trace[0].ok && FillPre(top, trace[0].c, node)
    requires k == |trace| - 1 || (k >= |trace| - 1 && !trace[|trace| - 1].ok)
    ensures Fill(top, trace[0].c, node, trace[0].cpus, k) == trace[|trace| - 1]
    decreases |trace|
  {
    if |trace| > 1 {
      assert PickStep(top, node, trace[0], trace[1]);
      assert |trace| > 2 ==> trace[1].ok;
      if trace[1].ok {
        PicksFill(top, node, trace[1..], k - 1);
      }
    }
  }

  /** What was chosen beyond `chosen`, how much, and what it did to the use of every cpu. */
  ghost predicate Chooses(top: Topology, c: Counters, node: int, chosen: set<Cpu>, k: nat, r: Filled) {
    && chosen <= r.cpus && Sized(top, r.c) && |c.usage| == |top.nodeOf|
    && (forall i :: i in r.cpus && i !in chosen ==> i in top.online && Eligible(top, node, chosen, i))
    && (r.ok ==> |r.cpus| == |chosen| + k)
    && forall i :: 0 <= i < |c.usage| ==> r.c.usage[i] == c.usage[i] + (if i in r.cpus && i !in chosen then 1 else 0)
  }

  lemma ChoosesOneMore(top: Topology, c: Counters, node: int, chosen: set<Cpu>, k: nat, b: Cpu, r: Filled)
    requires k > 0 && |c.usage| == |top.nodeOf| && b in top.online && Eligible(top, node, chosen, b) && MayMove(top, c, node, b, 1)
    requires Chooses(top, Move(top, c, node, b, 1), node, chosen + {b}, k - 1, r)
    ensures Chooses(top, c, node, chosen, k, r)
  {
  }

  lemma ChoosesNothing(top: Topology, c: Counters, node: int, chosen: set<Cpu>, k: nat, ok: bool)
    requires FillPre(top, c, node) && (ok ==> k == 0)
    ensures Chooses(top, c, node, chosen, k, Filled(c, chosen, ok))
  {
  }

  lemma BestIsEligible(top: Topology, c: Counters, node: int, chosen: set<Cpu>)
    requires FillPre(top, c, node)
    ensures var b := Best(top, c, node, chosen, |top.nodeOf|); b.Some? ==> Eligible(top, node, chosen, b.value)
  {
    BestIsLeast(top, c, node, chosen, |top.nodeOf|);
  }

  lemma {:induction false} FillChooses(top: Topology, c: Counters, node: int, chosen: set<Cpu>, k: nat)
    requires FillPre(top, c, node)
    ensures Chooses(top, c, node, chosen, k, Fill(top, c, node, chosen, k))
    decreases k
  {
    var b := Best(top, c, node, chosen, |top.nodeOf|);
    if k == 0 {
      ChoosesNothing(top, c, node, chosen, k, true);
    } else if b.None? || b.value !in top.online {
      ChoosesNothing(top, c, node, chosen, k, false);
    } else {
      BestIsEligible(top, c, node, chosen);
      FillChooses(top, Move(top, c, node, b.value, 1), node, chosen + {b.value}, k - 1);
      ChoosesOneMore(top, c, node, chosen, k, b.value, Fill(top, c, node, chosen, k));
    }
  }

  /** A fresh allocation has the right size, and is on its node. */
  lemma FillWhole(top: Topology, c: Counters, node: int, k: nat)
    requires FillPre(top, c, node)
    ensures var r := Fill(top, c, node, {}, k);
            && r.cpus <= top.online
            && (node >= 0 ==> r.cpus <= NodeThreads(top, node))
            && (r.ok ==> |r.cpus| == k)
  {
    FillChooses(top, c, node, {}, k);
    var r := Fill(top, c, node, {}, k);
    assert r.cpus - {} == r.cpus;
  }

  lemma BestIsLeastUsed(top: Topology, c: Counters, node: int, chosen: set<Cpu>, b: Cpu, y: Cpu)
    requires FillPre(top, c, node) && Best(top, c, node, chosen, |top.nodeOf|) == Some(b) && Eligible(top, node, chosen, y)
    ensures b < |c.usage| && y < |c.usage| && c.usage[b] <= c.usage[y]
  {
    BestIsLeast(top, c, node, chosen, |top.nodeOf|);
    assert !Less(ScoreOf(top, c, chosen, y), ScoreOf(top, c, chosen, b));
  }

  /** No eligible cpu that was left out was used less than one that was taken. */
  lemma {:induction false} FillTakesLeastUsed(top: Topology, c: Counters, node: int, chosen: set<Cpu>, k: nat, r: Filled, x: Cpu, y: Cpu)
    requires FillPre(top, c, node) && r == Fill(top, c, node, chosen, k)
    requires x in r.cpus && x !in chosen && Eligible(top, node, r.cpus, y)
    ensures x < |c.usage| && y < |c.usage| && c.usage[x] <= c.usage[y]
    decreases k
  {
    var b := Best(top, c, node, chosen, |top.nodeOf|).value;
    FillChooses(top, Move(top, c, node, b, 1), node, chosen + {b}, k - 1);
    BestIsLeastUsed(top, c, node, chosen, b, y);
    if x != b {
      FillTakesLeastUsed(top, Move(top, c, node, b, 1), node, chosen + {b}, k - 1, r, x, y);
    }
  }

  /** Counters and jails agree while jail `s` has got `cpus` so far. */
  ghost predicate Tracks(top: Topology, c: Counters, jails: Jails, s: SpecId, cpus: set<Cpu>) {
    s in jails && JailOk(top, jails[s].(cpus := cpus)) && Matches(top, c, With(jails, s, cpus))
  }

  lemma WithTwice(jails: Jails, s: SpecId, a: set<Cpu>, b: set<Cpu>)
    requires s in jails
    ensures With(With(jails, s, a), s, b) == With(jails, s, b)
  {
  }

  lemma OnePickTracks(top: Topology, c: Counters, jails: Jails, s: SpecId, cpus: set<Cpu>, cpu: Cpu)
    requires WellFormed(top) && Tracks(top, c, jails, s, cpus) && jails[s].node < top.nodeCount
    requires cpu in top.online && cpu !in cpus
    ensures MayMove(top, c, jails[s].node, cpu, 1)
    ensures Tracks(top, Move(top, c, jails[s].node, cpu, 1), jails, s, cpus + {cpu})
  {
    MoveMatches(top, c, With(jails, s, cpus), s, cpu, 1);
    WithTwice(jails, s, cpus, cpus + {cpu});
  }

  /** The next pick of jail `s`, if it is online. */
  lemma NextPickTracks(top: Topology, c: Counters, jails: Jails, s: SpecId, cpus: set<Cpu>)
    requires WellFormed(top) && Tracks(top, c, jails, s, cpus) && jails[s].node < top.nodeCount
    ensures FillPre(top, c, jails[s].node)
    ensures var b := Best(top, c, jails[s].node, cpus, |top.nodeOf|);
            b.Some? && b.value in top.online ==>
              && MayMove(top, c, jails[s].node, b.value, 1)
              && Tracks(top, Move(top, c, jails[s].node, b.value, 1), jails, s, cpus + {b.value})
  {
    BestIsLeast(top, c, jails[s].node, cpus, |top.nodeOf|);
    var b := Best(top, c, jails[s].node, cpus, |top.nodeOf|);
    if b.Some? && b.value in top.online {
      OnePickTracks(top, c, jails, s, cpus, b.value);
    }
  }

  // ---------- when it succeeds ----------

  function Candidates(top: Topology, node: int): set<Cpu> {
    set i | 0 <= i < |top.nodeOf| && (node >= 0 ==> top.nodeOf[i] == node)
  }

  /** With every candidate online it succeeds when there are enough candidates. */
  lemma {:induction false} FillSucceeds(top: Topology, c: Counters, node: int, chosen: set<Cpu>, k: nat)
    requires FillPre(top, c, node) && Candidates(top, node) <= top.online
    requires |Candidates(top, node) - chosen| >= k
    ensures Fill(top, c, node, chosen, k).ok
    decreases k
  {
    if k > 0 {
      BestIsLeast(top, c, node, chosen, |top.nodeOf|);
      var b := Best(top, c, node, chosen, |top.nodeOf|);
      var free := Candidates(top, node) - chosen;
      var x :| x in free;
      assert Eligible(top, node, chosen, x);
      assert b.value in Candidates(top, node);
      assert Candidates(top, node) - (chosen + {b.value}) == free - {b.value};
      FillSucceeds(top, Move(top, c, node, b.value, 1), node, chosen + {b.value}, k - 1);
    }
  }

  predicate CheckJail(top: Topology, size: nat, node: int) {
    && size != 0
    && size <= |top.online|
    && (node >= 0 ==> size <= |NodeThreads(top, node)|)
  }

  /** The online cpus a jail may get. */
  function Available(top: Topology, node: int): set<Cpu> {
    if node < 0 then top.online else NodeThreads(top, node)
  }

  /** Every index the picker may choose is online. */
  predicate CandidatesOnline(top: Topology, node: int) {
    Candidates(top, node) <= top.online
  }

  lemma OnlineCandidates(top: Topology, node: int)
    requires WellFormed(top) && CandidatesOnline(top, node)
    ensures Candidates(top, node) == Available(top, node)
  {
  }

  /** Where every index it may choose is online an accepted jail always gets its cpus, whatever is in use. */
  lemma AcceptedSucceeds(top: Topology, c: Counters, size: nat, node: int)
    requires FillPre(top, c, node) && CandidatesOnline(top, node) && CheckJail(top, size, node)
    ensures Fill(top, c, node, {}, size).ok
    ensures |Fill(top, c, node, {}, size).cpus| == size
    ensures node >= 0 ==> Fill(top, c, node, {}, size).cpus <= NodeThreads(top, node)
  {
    OnlineCandidates(top, node);
    assert Candidates(top, node) - {} == Candidates(top, node);
    FillSucceeds(top, c, node, {}, size);
    FillWhole(top, c, node, size);
  }

  /** Counters of an idle host. */
  function Idle(top: Topology): Counters {
    Counters(seq(|top.nodeOf|, _ => 0), seq(top.nodeCount, _ => 0), seq(top.nodeCount, _ => 0), 0)
  }

  /** Everything available on the node is given to one jail. */
  ghost function Exhausted(top: Topology, node: int): Filled
    requires FillPre(top, Idle(top), node)
  {
    Fill(top, Idle(top), node, {}, |Available(top, node)|)
  }

  lemma ExhaustedTakesAll(top: Topology, node: int)
    requires FillPre(top, Idle(top), node)
    ensures Sized(top, Exhausted(top, node).c)
    ensures Exhausted(top, node).ok ==> Exhausted(top, node).cpus == Available(top, node)
    ensures forall i :: 0 <= i < |top.nodeOf| ==> Exhausted(top, node).c.usage[i] == if i in Exhausted(top, node).cpus then 1 else 0
  {
    FillChooses(top, Idle(top), node, {}, |Available(top, node)|);
    FillWhole(top, Idle(top), node, |Available(top, node)|);
    var r := Exhausted(top, node);
    assert r.cpus - {} == r.cpus;
    if r.ok {
      SubsetOfSameSize(r.cpus, Available(top, node));
    }
  }

  /** Once everything available is used, an index that is not online is the best one, and is refused. */
  lemma OfflineWins(top: Topology, node: int)
    requires FillPre(top, Idle(top), node) && Exhausted(top, node).ok && !CandidatesOnline(top, node)
    ensures Sized(top, Exhausted(top, node).c) && !Fill(top, Exhausted(top, node).c, node, {}, 1).ok
  {
    ExhaustedTakesAll(top, node);
    var c := Exhausted(top, node).c;
    var o: Cpu :| o in Candidates(top, node) && o !in top.online;
    BestIsLeast(top, c, node, {}, |top.nodeOf|);
    var b := Best(top, c, node, {}, |top.nodeOf|);
    assert Eligible(top, node, {}, o) && ScoreOf(top, c, {}, o).usage == 0;
    assert b.Some? && !Less(ScoreOf(top, c, {}, o), ScoreOf(top, c, {}, b.value));
  }

  /**
   With an index among its candidates that is not online an accepted jail can fail: of a jail over everything
   available on a node, or anywhere, and a one-cpu jail after it, both accepted, both succeed exactly when there
   is no such index.
   */
  lemma BothSucceedIffOnline(top: Topology, node: int)
    requires FillPre(top, Idle(top), node) && Available(top, node) != {}
    ensures CheckJail(top, |Available(top, node)|, node) && CheckJail(top, 1, node)
    ensures Sized(top, Exhausted(top, node).c)
    ensures (Exhausted(top, node).ok && Fill(top, Exhausted(top, node).c, node, {}, 1).ok) <==> CandidatesOnline(top, node)
  {
    ExhaustedTakesAll(top, node);
    AvailableFits(top, node);
    if CandidatesOnline(top, node) {
      AcceptedSucceeds(top, Idle(top), |Available(top, node)|, node);
      AcceptedSucceeds(top, Exhausted(top, node).c, 1, node);
    } else if Exhausted(top, node).ok {
      OfflineWins(top, node);
    }
  }

  lemma AvailableFits(top: Topology, node: int)
    requires Available(top, node) != {}
    ensures 1 <= |Available(top, node)| <= |top.online|
  {
    var a, rest := Available(top, node), top.online - Available(top, node);
    assert top.online == a + rest;
    assert |top.online| == |a| + |rest|;
    var x :| x in a;
    assert |a| == |a - {x}| + 1;
  }

  lemma {:induction false} SubsetOfSameSize(a: set<Cpu>, b: set<Cpu>)
    requires a <= b && |a| == |b|
    ensures a == b
  {
    assert b == a + (b - a);
    assert |b| == |a| + |b - a|;
  }

  /** Nobody uses a cpu that is not online. */
  lemma OfflineUnused(top: Topology, c: Counters, jails: Jails, o: Cpu)
    requires Matches(top, c, jails) && o < |top.nodeOf| && o !in top.online
    requires forall s :: s in jails ==> JailOk(top, jails[s])
    ensures c.usage[o] == 0
  {
    assert Users(jails, o) == {};
  }

  /** With a candidate that is unused and not online, a fresh allocation that succeeds takes unused cpus only. */
  lemma OfflineNeverShares(top: Topology, c: Counters, node: int, k: nat, o: Cpu, x: Cpu)
    requires FillPre(top, c, node) && o in Candidates(top, node) && o !in top.online && c.usage[o] == 0
    requires x in Fill(top, c, node, {}, k).cpus
    ensures x in Available(top, node) && x < |c.usage| && c.usage[x] == 0
  {
    var r := Fill(top, c, node, {}, k);
    FillWhole(top, c, node, k);
    FillTakesLeastUsed(top, c, node, {}, k, r, x, o);
  }

  /** The cpus a jail may get that nobody uses. */
  function Unused(top: Topology, c: Counters, node: int): set<Cpu> {
    set x | x in Available(top, node) && x < |c.usage| && c.usage[x] == 0
  }

  /** So it fails when there are fewer unused cpus than it needs, however many it could share. */
  lemma OfflineFailsWhenShort(top: Topology, c: Counters, node: int, k: nat, o: Cpu)
    requires FillPre(top, c, node) && o in Candidates(top, node) && o !in top.online && c.usage[o] == 0
    requires |Unused(top, c, node)| < k
    ensures !Fill(top, c, node, {}, k).ok
  {
    var r := Fill(top, c, node, {}, k);
    FillWhole(top, c, node, k);
    forall x | x in r.cpus
      ensures x in Unused(top, c, node)
    {
      OfflineNeverShares(top, c, node, k, o, x);
    }
    SubsetSize(r.cpus, Unused(top, c, node));
  }

  lemma SubsetSize(a: set<Cpu>, b: set<Cpu>)
    requires a <= b
    ensures |a| <= |b|
  {
    assert b == a + (b - a);
    assert |b| == |a| + |b - a|;
  }

  // ---------- the spread inside a node ----------

  /** Any two cpus of a node differ by at most one user. */
  ghost predicate Even(top: Topology, c: Counters, n: nat) {
    forall x, y :: x in NodeCpus(top, n) && y in NodeCpus(top, n) && x < |c.usage| && y < |c.usage|
      ==> c.usage[x] <= c.usage[y] + 1
  }

  /** A fresh allocation, bound to a node or not, keeps every node even. */
  lemma FillKeepsEven(top: Topology, c: Counters, node: int, k: nat, n: nat)
    requires FillPre(top, c, node) && Even(top, c, n)
    ensures Even(top, Fill(top, c, node, {}, k).c, n)
  {
    var r := Fill(top, c, node, {}, k);
    FillChooses(top, c, node, {}, k);
    forall x, y | x in NodeCpus(top, n) && y in NodeCpus(top, n) && x < |r.c.usage| && y < |r.c.usage|
      ensures r.c.usage[x] <= r.c.usage[y] + 1
    {
      if x in r.cpus && y !in r.cpus {
        assert Eligible(top, node, r.cpus, y);
        FillTakesLeastUsed(top, c, node, {}, k, r, x, y);
      }
    }
  }
}
