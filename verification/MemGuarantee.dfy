/**
 Memory guarantees: `GetTotalMemGuarantee` and the problem it solves.

 A container's guarantee covers its whole subtree, so guarantees of related
 containers are not added up. The total is the most that containers which are
 pairwise unrelated, and not stopped or below a stopped one, ask for together.
 */
module MemGuarantee {
  import opened ContainerPaths
  import opened Sums

  /** A container's guarantee, whether it is stopped, and the same of its children. */
  datatype Guarantees = Guarantees(guarantee: nat, stopped: bool, children: seq<Guarantees>)

  function Max(a: nat, b: nat): nat {
    if a < b then b else a
  }

  function Total(t: Guarantees): nat
    decreases t, 1
  {
    if t.stopped then 0 else Max(t.guarantee, TotalOf(t.children))
  }

  function TotalOf(ts: seq<Guarantees>): nat
    decreases ts, 0
  {
    if ts == [] then 0 else TotalOf(ts[..|ts| - 1]) + Total(ts[|ts| - 1])
  }

  method GetTotalMemGuarantee(t: Guarantees) returns (sum: nat)
    ensures sum == Total(t)
    decreases t
  {
    sum := 0;
    if t.stopped {
      return 0;
    }
    for i := 0 to |t.children|
      invariant sum == TotalOf(t.children[..i])
    {
      assert t.children[..i + 1][..i] == t.children[..i];
      var part := GetTotalMemGuarantee(t.children[i]);
      sum := sum + part;
    }
    assert t.children[..|t.children|] == t.children;
    sum := Max(t.guarantee, sum);
  }

  // ---------- the reference: choices of unrelated containers ----------

  /** Addresses inside the subtree: child positions, `[]` is its root. */
  predicate Live(t: Guarantees, p: Path)
    decreases |p|
  {
    !t.stopped && (p == [] || (p[0] < |t.children| && Live(t.children[p[0]], p[1..])))
  }

  function GuaranteeAt(t: Guarantees, p: Path): nat
    decreases |p|
  {
    if p == [] then t.guarantee
    else if p[0] < |t.children| then GuaranteeAt(t.children[p[0]], p[1..])
    else 0
  }

  ghost predicate Choice(t: Guarantees, s: set<Path>) {
    && (forall p :: p in s ==> Live(t, p))
    && forall p, q :: p in s && q in s ==> !Above(p, q)
  }

  ghost function Gain(t: Guarantees): Path -> int {
    p => GuaranteeAt(t, p)
  }

  ghost function Weight(t: Guarantees, s: set<Path>): int {
    Sum(s, Gain(t))
  }

  // ---------- splitting a choice by child ----------

  /** The members of `s` in the subtree of child `k`, seen from that child. */
  ghost function Inside(s: set<Path>, k: nat): set<Path> {
    set p | p in s && p != [] && p[0] == k :: p[1..]
  }

  ghost function Before(s: set<Path>, k: nat): set<Path> {
    set p | p in s && p != [] && p[0] < k
  }

  lemma AboveByChild(p: Path, q: Path)
    requires p != [] && q != []
    ensures Above(p, q) <==> p[0] == q[0] && Above(p[1..], q[1..])
  {
    assert p == [p[0]] + p[1..] && q == [q[0]] + q[1..];
  }

  lemma InsideIsChoice(t: Guarantees, s: set<Path>, k: nat)
    requires Choice(t, s) && k < |t.children|
    ensures Choice(t.children[k], Inside(s, k))
  {
    forall q | q in Inside(s, k)
      ensures Live(t.children[k], q) && [k] + q in s
    {
      var p :| p in s && p != [] && p[0] == k && p[1..] == q;
      assert p == [k] + q;
    }
    forall q, r | q in Inside(s, k) && r in Inside(s, k)
      ensures !Above(q, r)
    {
      assert ([k] + q)[1..] == q && ([k] + r)[1..] == r;
      AboveByChild([k] + q, [k] + r);
    }
  }

  function Tail(p: Path): Path {
    if p == [] then [] else p[1..]
  }

  /** The members of `s` in the subtree of child `k`. */
  ghost function Part(s: set<Path>, k: nat): set<Path> {
    set p | p in s && p != [] && p[0] == k
  }

  lemma InsideIsImage(s: set<Path>, k: nat, h: Path -> Path)
    requires forall p :: h(p) == Tail(p)
    ensures Inside(s, k) == set p | p in Part(s, k) :: h(p)
  {
    forall q | q in Inside(s, k)
      ensures exists p :: p in Part(s, k) && h(p) == q
    {
      var p :| p in s && p != [] && p[0] == k && p[1..] == q;
      assert p in Part(s, k) && h(p) == q;
    }
  }

  lemma PartGain(t: Guarantees, s: set<Path>, k: nat, p: Path, q: Path)
    requires k < |t.children| && p in Part(s, k)
    ensures Gain(t)(p) == Gain(t.children[k])(Tail(p))
    ensures q in Part(s, k) && Tail(p) == Tail(q) ==> p == q
  {
    assert p == [k] + Tail(p);
    if q in Part(s, k) {
      assert q == [k] + Tail(q);
    }
  }

  lemma InsideWeight(t: Guarantees, s: set<Path>, k: nat)
    requires k < |t.children|
    ensures Weight(t, Part(s, k)) == Weight(t.children[k], Inside(s, k))
  {
    var h: Path -> Path := Tail;
    var part := Part(s, k);
    InsideIsImage(s, k, h);
    forall p, q | p in part
      ensures Gain(t)(p) == Gain(t.children[k])(h(p))
      ensures q in part && h(p) == h(q) ==> p == q
    {
      PartGain(t, s, k, p, q);
    }
    SumImage(part, Inside(s, k), h, Gain(t.children[k]), Gain(t));
  }

  lemma BeforeWeight(t: Guarantees, s: set<Path>, k: nat)
    requires k < |t.children|
    ensures Weight(t, Before(s, k + 1)) == Weight(t, Before(s, k)) + Weight(t.children[k], Inside(s, k))
  {
    assert Before(s, k + 1) == Before(s, k) + Part(s, k);
    SumUnion(Before(s, k), Part(s, k), Gain(t));
    InsideWeight(t, s, k);
  }

  // ---------- no choice asks for more ----------

  lemma {:induction false} NoChoiceAbove(t: Guarantees, s: set<Path>)
    requires Choice(t, s)
    ensures Weight(t, s) <= Total(t)
    decreases t, 1, 0
  {
    if s == {} {
    } else if [] in s {
      forall p | p in s
        ensures p == []
      {
        assert !Above([], p);
      }
      assert s == {[]};
      SumAdd({}, Gain(t), []);
      assert {} + {[]} == s;
    } else {
      var p: Path :| p in s;
      assert Live(t, p);
      NoChoiceAboveChildren(t, s, |t.children|);
      assert t.children[..|t.children|] == t.children;
      assert Before(s, |t.children|) == s;
    }
  }

  lemma {:induction false} NoChoiceAboveChildren(t: Guarantees, s: set<Path>, k: nat)
    requires Choice(t, s) && k <= |t.children|
    ensures Weight(t, Before(s, k)) <= TotalOf(t.children[..k])
    decreases t, 0, k
  {
    if k == 0 {
      assert Before(s, 0) == {};
    } else {
      NoChoiceAboveChildren(t, s, k - 1);
      BeforeWeight(t, s, k - 1);
      InsideIsChoice(t, s, k - 1);
      NoChoiceAbove(t.children[k - 1], Inside(s, k - 1));
      assert t.children[..k][..k - 1] == t.children[..k - 1];
    }
  }

  // ---------- some choice asks for all of it ----------

  ghost function Below(k: nat, s: set<Path>): set<Path> {
    set p | p in s :: [k] + p
  }

  ghost function Best(t: Guarantees): set<Path>
    decreases t, 1
  {
    if t.stopped then {}
    else if t.guarantee >= TotalOf(t.children) then {[]}
    else BestOf(t.children)
  }

  ghost function BestOf(ts: seq<Guarantees>): set<Path>
    decreases ts, 0
  {
    if ts == [] then {} else BestOf(ts[..|ts| - 1]) + Below(|ts| - 1, Best(ts[|ts| - 1]))
  }

  lemma BelowInside(k: nat, s: set<Path>, j: nat)
    ensures Inside(Below(k, s), j) == if j == k then s else {}
    ensures forall p :: p in Below(k, s) ==> p != [] && p[0] == k && p[1..] in s
  {
    forall p | p in s
      ensures p in Inside(Below(k, s), k)
    {
      assert [k] + p in Below(k, s) && ([k] + p)[1..] == p;
    }
  }

  /** What the children contribute: each child its own best choice. */
  lemma {:induction false} BestOfInside(ts: seq<Guarantees>, j: nat)
    ensures Inside(BestOf(ts), j) == if j < |ts| then Best(ts[j]) else {}
    ensures forall p :: p in BestOf(ts) ==> p != [] && p[0] < |ts| && p[1..] in Best(ts[p[0]])
    decreases |ts|
  {
    if ts != [] {
      var k := |ts| - 1;
      BestOfInside(ts[..k], j);
      BelowInside(k, Best(ts[k]), j);
      assert Inside(BestOf(ts), j) == Inside(BestOf(ts[..k]), j) + Inside(Below(k, Best(ts[k])), j);
    }
  }

  lemma {:induction false} BestIsChoice(t: Guarantees)
    ensures Choice(t, Best(t))
    decreases t
  {
    if !t.stopped && t.guarantee < TotalOf(t.children) {
      var s := BestOf(t.children);
      BestOfInside(t.children, 0);
      forall p | p in s
        ensures Live(t, p)
      {
        BestIsChoice(t.children[p[0]]);
      }
      forall p, q | p in s && q in s
        ensures !Above(p, q)
      {
        if p[0] == q[0] {
          BestIsChoice(t.children[p[0]]);
          assert !Above(p[1..], q[1..]);
        }
        AboveByChild(p, q);
      }
    }
  }

  lemma {:induction false} BestWeight(t: Guarantees)
    ensures Weight(t, Best(t)) == Total(t)
    decreases t, 1, 0
  {
    if t.stopped {
    } else if t.guarantee >= TotalOf(t.children) {
      SumAdd({}, Gain(t), []);
      assert {} + {[]} == Best(t);
    } else {
      BestWeightChildren(t, |t.children|);
      assert t.children[..|t.children|] == t.children;
      BestOfInside(t.children, 0);
      assert Before(BestOf(t.children), |t.children|) == BestOf(t.children);
    }
  }

  lemma {:induction false} BestWeightChildren(t: Guarantees, k: nat)
    requires k <= |t.children|
    ensures Weight(t, Before(BestOf(t.children), k)) == TotalOf(t.children[..k])
    decreases t, 0, k
  {
    if k == 0 {
      assert Before(BestOf(t.children), 0) == {};
    } else {
      BestWeightChildren(t, k - 1);
      BeforeWeight(t, BestOf(t.children), k - 1);
      BestOfInside(t.children, k - 1);
      BestWeight(t.children[k - 1]);
      assert t.children[..k][..k - 1] == t.children[..k - 1];
    }
  }

  /** The total is the largest weight of a choice: an upper bound that is attained. */
  lemma TotalIsMaximum(t: Guarantees)
    ensures forall s :: Choice(t, s) ==> Weight(t, s) <= Total(t)
    ensures exists s :: Choice(t, s) && Weight(t, s) == Total(t)
  {
    forall s | Choice(t, s)
      ensures Weight(t, s) <= Total(t)
    {
      NoChoiceAbove(t, s);
    }
    BestIsChoice(t);
    BestWeight(t);
  }
}
