/**
 Lock-free counting of OOM kills: `getDelta` raises a container's counter to a
 value read from the kernel and returns by how much, and `CollectOomKills` adds
 that to the totals of the container and of all its ancestors.

 Any number of threads interleave; one event is one atomic access. A weak
 compare-and-swap may fail although the value matches. Nobody resets a counter.
 */
module OomKills {
  import opened ContainerPaths
  import opened Sums

  type Tid = nat

  datatype Pc =
    | Idle
    | Trying(c: Path, newv: nat, cur: nat)    // in getDelta, with its local copy of the counter
    | Adding(c: Path, delta: nat, at: Path)   // in the loop of CollectOomKills, next to add at `at`

  datatype State = State(
    kills: map<Path, nat>,             // OomKills
    total: map<Path, nat>,             // OomKillsTotal
    threads: map<Tid, Pc>,
    offered: map<Path, set<nat>>)      // every value ever passed to getDelta for a counter

  datatype Event =
    | Load(t: Tid, c: Path, newv: nat)
    | GiveUp(t: Tid)
    | SwapDone(t: Tid)
    | SwapFailed(t: Tid)
    | Add(t: Tid)

  function At(m: map<Path, nat>, c: Path): nat {
    if c in m then m[c] else 0
  }

  predicate May(s: State, e: Event) {
    e.t in s.threads &&
    match e
    case Load(t, c, _) => s.threads[t].Idle? && c in s.kills
    case GiveUp(t) => s.threads[t].Trying? && s.threads[t].newv <= s.threads[t].cur
    case SwapDone(t) => s.threads[t].Trying? && s.threads[t].newv > s.threads[t].cur == At(s.kills, s.threads[t].c)
    case SwapFailed(t) => s.threads[t].Trying? && s.threads[t].newv > s.threads[t].cur
    case Add(t) => s.threads[t].Adding?
  }

  function Offers(s: State, c: Path): set<nat> {
    if c in s.offered then s.offered[c] else {}
  }

  function Next(s: State, e: Event): State
    requires May(s, e)
  {
    match e
    case Load(t, c, newv) =>
      s.(threads := s.threads[t := Trying(c, newv, s.kills[c])],
         offered := s.offered[c := Offers(s, c) + {newv}])
    case GiveUp(t) => s.(threads := s.threads[t := Idle])
    case SwapDone(t) =>
      var p := s.threads[t];
      s.(kills := s.kills[p.c := p.newv], threads := s.threads[t := Adding(p.c, p.newv - p.cur, p.c)])
    case SwapFailed(t) =>
      var p := s.threads[t];
      s.(threads := s.threads[t := p.(cur := At(s.kills, p.c))])
    case Add(t) =>
      var p := s.threads[t];
      s.(total := s.total[p.at := At(s.total, p.at) + p.delta],
         threads := s.threads[t := if p.at == [] then Idle else p.(at := ParentOf(p.at))])
  }

  ghost predicate Init(s: State) {
    s.offered == map[] && forall t :: t in s.threads ==> s.threads[t] == Idle
  }

  ghost predicate Feasible(s: State, run: seq<Event>)
    decreases |run|
  {
    run == [] || (May(s, run[0]) && Feasible(Next(s, run[0]), run[1..]))
  }

  ghost function After(s: State, run: seq<Event>): State
    requires Feasible(s, run)
    decreases |run|
  {
    if run == [] then s else After(Next(s, run[0]), run[1..])
  }

  // ---------- one counter ----------

  /** A local copy is never ahead of the counter; the counter is where it began or at an offered value. */
  ghost predicate CounterInv(s0: State, s: State) {
    && s.kills.Keys == s0.kills.Keys
    && (forall t :: t in s.threads && s.threads[t].Trying? ==>
          && s.threads[t].c in s.kills && s.threads[t].cur <= At(s.kills, s.threads[t].c)
          && s.threads[t].newv in Offers(s, s.threads[t].c))
    && (forall c :: c in s.kills ==> At(s.kills, c) >= At(s0.kills, c))
    && (forall c :: c in s.kills ==> At(s.kills, c) == At(s0.kills, c) || At(s.kills, c) in Offers(s, c))
    && (forall c, v :: v in Offers(s, c) ==> v <= At(s.kills, c) || BeingTried(s, c, v))
  }

  ghost predicate BeingTried(s: State, c: Path, v: nat) {
    exists t :: t in s.threads && s.threads[t].Trying? && s.threads[t].c == c && s.threads[t].newv == v
  }

  /** No step lowers a counter, and an offer that is dropped was not above it. */
  lemma StepCounter(s0: State, s: State, e: Event)
    requires CounterInv(s0, s) && May(s, e)
    ensures CounterInv(s0, Next(s, e))
    ensures forall c :: At(s.kills, c) <= At(Next(s, e).kills, c)
  {
    var s' := Next(s, e);
    forall c, v | v in Offers(s', c)
      ensures v <= At(s'.kills, c) || BeingTried(s', c, v)
    {
      OfferKept(s0, s, e, c, v);
    }
  }

  lemma OfferKept(s0: State, s: State, e: Event, c: Path, v: nat)
    requires CounterInv(s0, s) && May(s, e) && v in Offers(Next(s, e), c)
    ensures v <= At(Next(s, e).kills, c) || BeingTried(Next(s, e), c, v)
  {
    var s' := Next(s, e);
    if v !in Offers(s, c) {
      assert e.t in s'.threads && s'.threads[e.t].Trying? && s'.threads[e.t].c == c && s'.threads[e.t].newv == v;
    } else if BeingTried(s, c, v) {
      var t :| t in s.threads && s.threads[t].Trying? && s.threads[t].c == c && s.threads[t].newv == v;
      if t != e.t || e.SwapFailed? {
        assert t in s'.threads && s'.threads[t].Trying? && s'.threads[t].c == c && s'.threads[t].newv == v;
      }
    }
  }

  // ---------- the totals ----------

  /** The containers at and below `a`. */
  function Below(s: State, a: Path): set<Path> {
    set c | c in s.kills && AtOrAbove(a, c)
  }

  ghost function Growth(s0: State, s: State): Path -> int {
    c => At(s.kills, c) - At(s0.kills, c)
  }

  /** What a thread has still to add at `a`. */
  function Owed(p: Pc, a: Path): nat {
    if p.Adding? && AtOrAbove(a, p.at) then p.delta else 0
  }

  ghost function Debt(s: State, a: Path): Tid -> int {
    t => if t in s.threads then Owed(s.threads[t], a) else 0
  }

  /** Each total is behind the growth below it by exactly what threads have still to add. */
  ghost predicate TotalAt(s0: State, s: State, a: Path) {
    At(s.total, a) + Sum(s.threads.Keys, Debt(s, a)) == At(s0.total, a) + Sum(Below(s0, a), Growth(s0, s))
  }

  ghost predicate TotalInv(s0: State, s: State) {
    && s.kills.Keys == s0.kills.Keys && s.threads.Keys == s0.threads.Keys
    && (forall t :: t in s.threads && s.threads[t].Adding? ==> AtOrAbove(s.threads[t].at, s.threads[t].c))
    && forall a :: TotalAt(s0, s, a)
  }

  /** One thread's debt changes. */
  lemma DebtChange(s: State, s': State, t: Tid, a: Path)
    requires t in s.threads && s'.threads.Keys == s.threads.Keys
    requires forall u :: u in s.threads && u != t ==> s'.threads[u] == s.threads[u]
    ensures Sum(s'.threads.Keys, Debt(s', a))
      == Sum(s.threads.Keys, Debt(s, a)) - Owed(s.threads[t], a) + Owed(s'.threads[t], a)
  {
    SumChange(s.threads.Keys, Debt(s, a), Debt(s', a), t);
  }

  lemma SameGrowth(s0: State, s: State, s': State, a: Path)
    requires s'.kills == s.kills
    ensures Sum(Below(s0, a), Growth(s0, s')) == Sum(Below(s0, a), Growth(s0, s))
  {
    SumSame(Below(s0, a), Growth(s0, s'), Growth(s0, s));
  }

  /** A successful swap puts the whole delta on the account of every container at or above. */
  lemma SwapTotal(s0: State, s: State, t: Tid, a: Path)
    requires CounterInv(s0, s) && TotalInv(s0, s) && May(s, SwapDone(t))
    ensures TotalAt(s0, Next(s, SwapDone(t)), a)
  {
    var s' := Next(s, SwapDone(t));
    var c := s.threads[t].c;
    assert TotalAt(s0, s, a);
    DebtChange(s, s', t, a);
    if AtOrAbove(a, c) {
      assert c in Below(s0, a);
      SumChange(Below(s0, a), Growth(s0, s), Growth(s0, s'), c);
    } else {
      SumSame(Below(s0, a), Growth(s0, s), Growth(s0, s'));
    }
  }

  lemma AddTotal(s0: State, s: State, t: Tid, a: Path)
    requires TotalInv(s0, s) && May(s, Add(t))
    ensures TotalAt(s0, Next(s, Add(t)), a)
  {
    var s' := Next(s, Add(t));
    assert TotalAt(s0, s, a);
    DebtChange(s, s', t, a);
    SameGrowth(s0, s, s', a);
    if s.threads[t].at != [] {
      AncestorsOfChild(a, s.threads[t].at);
    }
  }

  lemma QuietTotal(s0: State, s: State, e: Event, a: Path)
    requires TotalAt(s0, s, a) && May(s, e) && !e.SwapDone? && !e.Add?
    ensures TotalAt(s0, Next(s, e), a)
  {
    DebtChange(s, Next(s, e), e.t, a);
    SameGrowth(s0, s, Next(s, e), a);
  }

  lemma StepTotal(s0: State, s: State, e: Event)
    requires CounterInv(s0, s) && TotalInv(s0, s) && May(s, e)
    ensures TotalInv(s0, Next(s, e))
  {
    forall a
      ensures TotalAt(s0, Next(s, e), a)
    {
      if e.SwapDone? {
        SwapTotal(s0, s, e.t, a);
      } else if e.Add? {
        AddTotal(s0, s, e.t, a);
      } else {
        QuietTotal(s0, s, e, a);
      }
    }
    if e.Add? && s.threads[e.t].at != [] {
      AncestorsOfChild(ParentOf(s.threads[e.t].at), s.threads[e.t].at);
      AboveTransitive(ParentOf(s.threads[e.t].at), s.threads[e.t].at, s.threads[e.t].c);
    }
  }

  lemma InitInv(s: State)
    requires Init(s)
    ensures CounterInv(s, s) && TotalInv(s, s)
  {
    forall a
      ensures TotalAt(s, s, a)
    {
      SumOfZeros(s.threads.Keys, Debt(s, a));
      SumOfZeros(Below(s, a), Growth(s, s));
    }
  }

  lemma {:induction false} RunKeepsInv(s0: State, s: State, run: seq<Event>)
    requires CounterInv(s0, s) && TotalInv(s0, s) && Feasible(s, run)
    ensures CounterInv(s0, After(s, run)) && TotalInv(s0, After(s, run))
    ensures forall c :: At(s.kills, c) <= At(After(s, run).kills, c)
    decreases |run|
  {
    if run != [] {
      StepCounter(s0, s, run[0]);
      StepTotal(s0, s, run[0]);
      RunKeepsInv(s0, Next(s, run[0]), run[1..]);
    }
  }

  // ---------- what every run promises ----------

  ghost predicate IsMaximum(m: nat, first: nat, offers: set<nat>) {
    (m == first || m in offers) && m >= first && forall v :: v in offers ==> v <= m
  }

  /**
   When all calls have returned, a counter is the largest of its first value and all offered values, and every
   total has grown by exactly the growth of the counters at and below its container.
   */
  lemma Conserved(s0: State, run: seq<Event>, c: Path)
    requires Init(s0) && Feasible(s0, run) && c in s0.kills
    requires forall t :: t in After(s0, run).threads ==> After(s0, run).threads[t] == Idle
    ensures IsMaximum(At(After(s0, run).kills, c), At(s0.kills, c), Offers(After(s0, run), c))
    ensures At(After(s0, run).total, c) - At(s0.total, c) == Sum(Below(s0, c), Growth(s0, After(s0, run)))
  {
    InitInv(s0);
    RunKeepsInv(s0, s0, run);
    var s := After(s0, run);
    assert TotalAt(s0, s, c);
    SumOfZeros(s.threads.Keys, Debt(s, c));
    forall v | v in Offers(s, c)
      ensures v <= At(s.kills, c)
    {
      assert !BeingTried(s, c, v);
    }
  }

  /** The deltas that `getDelta` returned for a counter during a run. */
  ghost function Returned(s: State, run: seq<Event>, c: Path): nat
    requires Feasible(s, run)
    decreases |run|
  {
    if run == [] then 0
    else
      (if run[0].SwapDone? && s.threads[run[0].t].c == c
       then s.threads[run[0].t].newv - s.threads[run[0].t].cur else 0)
      + Returned(Next(s, run[0]), run[1..], c)
  }

  /** At every moment of every run the returned deltas add up to the growth of the counter. */
  lemma {:induction false} DeltasAddUp(s: State, run: seq<Event>, c: Path)
    requires Feasible(s, run)
    ensures At(After(s, run).kills, c) == At(s.kills, c) + Returned(s, run, c)
    decreases |run|
  {
    if run != [] {
      DeltasAddUp(Next(s, run[0]), run[1..], c);
    }
  }
}
