/**
 The kernel's side of cpu limits: what it accepts, and an order of writes that it
 always accepts. It refuses a limit above that of the nearest limited ancestor, or
 below that of a descendant.
 */
module CpuQuota {
  import opened ContainerTree
  import opened CpuBounds

  /** The container has a cpu cgroup. */
  predicate Active(n: Node) {
    n.running && n.cpu
  }

  /** What the kernel should have for a container. */
  function Target(n: Node): nat {
    if Active(n) && n.limit != 0 then n.bound else 0
  }

  /**
   Below a limited container nobody has a larger limit: `cap` is the applied limit of the nearest limited
   ancestor, or 0.
   */
  predicate Rule(t: Tree, cap: nat, st: Store)
    decreases t
  {
    var a := At(st, t.id).applied;
    && (a != 0 && cap != 0 ==> a <= cap)
    && forall k :: 0 <= k < |t.children| ==> Rule(t.children[k], if a != 0 then a else cap, st)
  }

  lemma {:induction false} RuleFrame(t: Tree, cap: nat, st: Store, st': Store)
    requires Distinct(t) && Rule(t, cap, st)
    requires forall y :: y in Members(t) ==> At(st', y).applied == At(st, y).applied
    ensures Rule(t, cap, st')
    decreases t
  {
    var a := At(st, t.id).applied;
    forall k | 0 <= k < |t.children|
      ensures Rule(t.children[k], if a != 0 then a else cap, st')
    {
      Apart(t, k);
      RuleFrame(t.children[k], if a != 0 then a else cap, st, st');
    }
  }

  /** Under a cap nobody is above it, limited in between or not. */
  lemma {:induction false} RuleCaps(t: Tree, cap: nat, st: Store, y: Id)
    requires Distinct(t) && Rule(t, cap, st) && cap != 0 && y in Members(t)
    ensures At(st, y).applied <= cap
    decreases t
  {
    if y != t.id {
      var k := ChildWith(t.children, y);
      Apart(t, k);
      var a := At(st, t.id).applied;
      RuleCaps(t.children[k], if a != 0 then a else cap, st, y);
    }
  }

  /** Below a limited container nobody is above it. */
  lemma {:induction false} RuleBelow(x: Tree, t: Tree, cap: nat, st: Store, y: Id)
    requires Distinct(t) && Within(x, t) && Rule(t, cap, st) && At(st, x.id).applied != 0 && y in MembersOf(x.children)
    ensures At(st, y).applied <= At(st, x.id).applied
    decreases t
  {
    var a := At(st, t.id).applied;
    if x == t {
      var k := ChildWith(t.children, y);
      Apart(t, k);
      RuleCaps(t.children[k], a, st, y);
    } else {
      var k :| 0 <= k < |t.children| && Within(x, t.children[k]);
      Apart(t, k);
      RuleBelow(x, t.children[k], if a != 0 then a else cap, st, y);
    }
  }

  // ---------- a reach that falls on the way down ----------

  datatype Shape = Shape(root: Tree, parent: map<Id, Id>)

  /** For each container a number its applied limit may be, if it is limited at all. */
  type Reach = map<Id, nat>

  function ReachAt(e: Reach, y: Id): nat {
    if y in e then e[y] else 0
  }

  datatype World = World(st: Store, e: Reach)

  ghost predicate FallsDown(parent: map<Id, Id>, e: Reach) {
    forall y {:trigger parent[y]} :: y in parent ==> ReachAt(e, y) <= ReachAt(e, parent[y])
  }

  /** Every applied limit is 0 or the reach, and the reach does not grow on the way down. */
  ghost predicate Falling(sh: Shape, w: World) {
    && (forall y :: y in Members(sh.root) ==> At(w.st, y).applied == 0 || At(w.st, y).applied == ReachAt(w.e, y))
    && FallsDown(sh.parent, w.e)
  }

  lemma {:induction false} FallsObeysRule(t: Tree, cap: nat, parent: map<Id, Id>, w: World)
    requires Distinct(t) && Agrees(t, parent) && FallsDown(parent, w.e)
    requires forall y :: y in Members(t) ==> At(w.st, y).applied == 0 || At(w.st, y).applied == ReachAt(w.e, y)
    requires cap != 0 ==> ReachAt(w.e, t.id) <= cap
    ensures Rule(t, cap, w.st)
    decreases t
  {
    var a := At(w.st, t.id).applied;
    forall k | 0 <= k < |t.children|
      ensures Rule(t.children[k], if a != 0 then a else cap, w.st)
    {
      Apart(t, k);
      FallsObeysRule(t.children[k], if a != 0 then a else cap, parent, w);
    }
  }

  /** A falling reach obeys the kernel's rule. */
  lemma FallingObeysRule(sh: Shape, w: World)
    requires Sub(sh.parent, sh.root) && Falling(sh, w)
    ensures Rule(sh.root, 0, w.st)
  {
    FallsObeysRule(sh.root, 0, sh.parent, w);
  }

  /** The world once `x` has its target, with its bound as the reach. */
  function Written(w: World, x: Id): World {
    var n := At(w.st, x);
    World(w.st[x := n.(applied := Target(n))], w.e[x := n.bound])
  }

  /** The bound of `x` fits between the reach of its parent and that of its children. */
  ghost predicate Fits(sh: Shape, w: World, x: Id) {
    && x in sh.parent && sh.parent[x] != x && At(w.st, x).bound <= ReachAt(w.e, sh.parent[x])
    && forall c :: c in sh.parent && sh.parent[c] == x ==> ReachAt(w.e, c) <= At(w.st, x).bound
  }

  /** A write that fits keeps the reach falling, so the kernel accepts it. */
  lemma WriteFits(sh: Shape, w: World, x: Id)
    requires Sub(sh.parent, sh.root) && Falling(sh, w) && Fits(sh, w, x)
    ensures Falling(sh, Written(w, x)) && Rule(sh.root, 0, Written(w, x).st)
  {
    FallingObeysRule(sh, Written(w, x));
  }

  /** `t` fits when its parent has room and its children reach no higher than its bound. */
  lemma FitsAbove(sh: Shape, t: Tree, w: World)
    requires Sub(sh.parent, t) && t.id in sh.parent && At(w.st, t.id).bound <= ReachAt(w.e, sh.parent[t.id])
    requires forall k :: 0 <= k < |t.children| ==> ReachAt(w.e, t.children[k].id) <= At(w.st, t.id).bound
    ensures Fits(sh, w, t.id)
  {
    assert t.id in Members(t);
  }

  /** The first write of `t` would be refused: its new limit is below an applied one underneath. */
  ghost predicate Doomed(sh: Shape, t: Tree, st: Store) {
    var n := At(st, t.id);
    && n.cur <= n.bound && Active(n) && n.limit != 0 && n.applied == 0
    && Rule(sh.root, 0, st) && !Rule(sh.root, 0, st[t.id := n.(applied := n.bound)])
  }
}
