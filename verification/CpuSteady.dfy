/**
 A container tree at rest: bounds are right, the kernel has them, and nothing is
 assumed of containers that are stopped or whose limit was never applied beyond
 what the code leaves behind. What a change of one limit means for such a tree.
 */
module CpuSteady {
  import opened ContainerTree
  import opened CpuBounds
  import opened CpuQuota
  import opened CpuPlan
  import opened TreeGrowth

  ghost predicate WholeShape(sh: Shape) {
    Sub(sh.parent, sh.root) && sh.root.id !in sh.parent && sh.parent.Keys == MembersOf(sh.root.children)
  }

  /** The root container has a limit and a bound, no cpu cgroup, and is never applied. */
  predicate Rooted(sh: Shape, st: Store) {
    var n := At(st, sh.root.id);
    n.limit == n.bound > 0 && n.cur == 0 && n.applied == 0 && n.running && !n.cpu
  }

  /** At rest, and running only below a running container. */
  ghost predicate Rest(parent: map<Id, Id>, y: Id, st: Store) {
    Done(parent, y, st) && (At(st, y).running ==> y in parent && At(st, parent[y]).running)
  }

  ghost predicate Steady(sh: Shape, st: Store) {
    && WholeShape(sh) && Rooted(sh, st) && Right(sh.root, At(st, sh.root.id).bound, st)
    && forall y :: y in MembersOf(sh.root.children) ==> Rest(sh.parent, y, st)
  }

  /** In a steady tree every bound is the smallest limit set on the way down from the root container. */
  lemma SteadyBounds(sh: Shape, st: Store, k: nat)
    requires Steady(sh, st) && k < |sh.root.children|
    ensures SmallestLimits(sh.root.children[k], [At(st, sh.root.id).limit], st)
  {
    var above := [At(st, sh.root.id).limit];
    assert above[..0] == [];
    RightIsSmallest(sh.root.children[k], above, st);
  }

  /** A steady tree obeys the kernel's rule. */
  lemma SteadyObeysRule(sh: Shape, st: Store)
    requires Steady(sh, st)
    ensures Rule(sh.root, 0, st)
  {
    forall y | y in Members(sh.root)
      ensures At(st, y).applied == 0 || At(st, y).applied == At(st, y).bound
    {
      assert y != sh.root.id ==> Rest(sh.parent, y, st);
    }
    BoundsFall(sh, st, st);
    FallingObeysRule(sh, World(st, BoundsOf(sh, st)));
  }

  // ---------- the bounds as the reach ----------

  function BoundsOf(sh: Shape, st: Store): Reach {
    map y | y in Members(sh.root) :: At(st, y).bound
  }

  lemma BoundsFall(sh: Shape, st: Store, st': Store)
    requires WholeShape(sh) && RightBelow(sh.root, st)
    requires forall y :: y in Members(sh.root) ==> At(st', y).applied == 0 || At(st', y).applied == At(st, y).bound
    ensures Falling(sh, World(st', BoundsOf(sh, st)))
  {
    var e := BoundsOf(sh, st);
    forall y | y in sh.parent
      ensures ReachAt(e, y) <= ReachAt(e, sh.parent[y])
    {
      RightFalls(sh.parent, sh.root, st, y);
      ParentInside(sh.parent, sh.root, y);
    }
  }

  // ---------- what is stopped ----------

  /** Below a stopped container everything is stopped. */
  lemma {:induction false} StoppedBelow(parent: map<Id, Id>, t: Tree, st: Store, y: Id)
    requires Distinct(t) && Agrees(t, parent) && !At(st, t.id).running && y in Members(t)
    requires forall z :: z in MembersOf(t.children) ==> Rest(parent, z, st)
    ensures !At(st, y).running
    decreases t
  {
    if y != t.id {
      var k := ChildWith(t.children, y);
      Apart(t, k);
      ChildOf(t.children, k);
      assert Rest(parent, t.children[k].id, st);
      StoppedBelow(parent, t.children[k], st, y);
    }
  }

  // ---------- bounds have changed below a container ----------

  /** From `st` to `st'` only bounds differ in the subtree, and both are right. */
  ghost predicate Rebound(t: Tree, st: Store, st': Store) {
    && RightBelow(t, st) && RightBelow(t, st') && At(st, t.id).bound > 0 && At(st', t.id).bound > 0
    && (forall y :: y in MembersOf(t.children) ==> At(st', y) == At(st, y).(bound := At(st', y).bound))
    && At(st', t.id).cur == At(st, t.id).cur && At(st', t.id).running == At(st, t.id).running
  }

  /** The reach is the old bound, or the new one where the kernel has that or nothing. */
  predicate Reached(n: Node, n': Node, reach: nat) {
    reach == n.bound || (reach == n'.bound && (n.applied == 0 || n.applied == n'.bound))
  }

  /** A container that was at rest may be applied with its new bound. */
  lemma LocalChanged(parent: map<Id, Id>, y: Id, st: Store, n': Node, reach: nat)
    requires Done(parent, y, st) && n' == At(st, y).(bound := n'.bound) && Reached(At(st, y), n', reach)
    ensures Local(n', reach)
  {
  }

  lemma StoppedDone(parent: map<Id, Id>, y: Id, st: Store, st': Store)
    requires Done(parent, y, st) && !At(st, y).running && At(st', y) == At(st, y).(bound := At(st', y).bound)
    requires y in parent ==> At(st', parent[y]).cur == At(st, parent[y]).cur
    ensures Done(parent, y, st')
  {
  }

  /** Where the new bound is what was applied last, everything below is at rest. */
  lemma SkipChanged(parent: map<Id, Id>, t: Tree, st: Store, st': Store)
    requires Distinct(t) && Agrees(t, parent) && Rebound(t, st, st')
    requires forall y :: y in MembersOf(t.children) ==> Rest(parent, y, st)
    requires At(st, t.id).running ==> At(st, t.id).cur == 0 || At(st, t.id).cur == At(st, t.id).bound
    requires At(st', t.id).cur == At(st', t.id).bound
    ensures BelowDone(parent, t, st')
  {
    forall y | y in MembersOf(t.children)
      ensures Done(parent, y, st')
    {
      assert Rest(parent, y, st);
      ParentInside(parent, t, y);
      if At(st, t.id).running {
        BoundsSame(t, st, st', y);
      } else {
        StoppedBelow(parent, t, st, y);
        StoppedDone(parent, y, st, st');
      }
    }
  }

  lemma ReboundChild(t: Tree, st: Store, st': Store, k: nat)
    requires Distinct(t) && Rebound(t, st, st') && k < |t.children|
    ensures Rebound(t.children[k], st, st')
    ensures At(st', t.children[k].id) == At(st, t.children[k].id).(bound := At(st', t.children[k].id).bound)
  {
    var c := t.children[k];
    Apart(t, k);
    ChildOf(t.children, k);
    assert Right(c, At(st, t.id).bound, st) && Right(c, At(st', t.id).bound, st');
    assert MembersOf(c.children) <= Members(c);
  }

  lemma {:induction false} PlanChanged(parent: map<Id, Id>, t: Tree, st: Store, w: World)
    requires Sub(parent, t) && Rebound(t, st, w.st) && (forall y :: y in MembersOf(t.children) ==> Rest(parent, y, st))
    requires forall y :: y in MembersOf(t.children) ==> Reached(At(st, y), At(w.st, y), ReachAt(w.e, y))
    ensures PlanBelow(parent, t, w)
    decreases t
  {
    forall k | 0 <= k < |t.children|
      ensures Plan(parent, t.children[k], w) && NeverSet(At(w.st, t.children[k].id))
    {
      var c := t.children[k];
      SubChild(parent, t, k);
      Apart(t, k);
      ReboundChild(t, st, w.st, k);
      assert Rest(parent, c.id, st);
      LocalChanged(parent, c.id, st, At(w.st, c.id), ReachAt(w.e, c.id));
      if At(w.st, c.id).cur == At(w.st, c.id).bound {
        SkipChanged(parent, c, st, w.st);
      }
      PlanChanged(parent, c, st, w);
    }
  }

  // ---------- one limit has changed ----------

  /** A new limit of `x` is stored and the bounds below it are right again; nothing else has changed. */
  ghost predicate Stored(sh: Shape, x: Tree, limit: nat, st: Store, st': Store) {
    && SameOff(Members(x), st, st') && x.id in sh.parent && Right(x, At(st', sh.parent[x.id]).bound, st')
    && (forall y :: y != x.id ==> At(st', y) == At(st, y).(bound := At(st', y).bound))
    && At(st', x.id) == At(st, x.id).(limit := limit, isSet := true, bound := At(st', x.id).bound)
  }

  /** Nobody starts or stops, and only `x` may get another limit, count as set or get the cpu controller. */
  ghost predicate OnlySetting(x: Id, st: Store, st': Store) {
    && At(st', x).running == At(st, x).running
    && forall y :: y != x ==> At(st', y) == At(st, y).(bound := At(st', y).bound, cur := At(st', y).cur, applied := At(st', y).applied)
  }

  lemma StoredOnlySetting(sh: Shape, x: Tree, limit: nat, st: Store, st': Store, st'': Store)
    requires Stored(sh, x, limit, st, st') && SameSettings(st', st'')
    ensures OnlySetting(x.id, st, st'') && At(st'', x.id).cpu == At(st, x.id).cpu && At(st'', x.id).limit == limit
  {
  }

  /** `x` is in the tree and not its root. */
  ghost predicate Inner(sh: Shape, x: Tree) {
    Within(x, sh.root) && x != sh.root
  }

  lemma StoredRight(sh: Shape, x: Tree, limit: nat, st: Store, st': Store)
    requires Steady(sh, st) && Inner(sh, x) && Stored(sh, x, limit, st, st')
    ensures Right(sh.root, At(st', sh.root.id).bound, st') && Rooted(sh, st')
    ensures At(st', x.id).bound == Bounded(limit, At(st, sh.parent[x.id]).bound) > 0
  {
    WithinSub(sh.parent, x, sh.root);
    RightGraft(sh.parent, sh.root, x, At(st, sh.root.id).bound, st, st');
    RightRange(sh.root, At(st', sh.root.id).bound, st', x.id);
    assert x.id in Members(x);
  }

  lemma StoredRebound(sh: Shape, x: Tree, limit: nat, st: Store, st': Store)
    requires Steady(sh, st) && Inner(sh, x) && Stored(sh, x, limit, st, st')
    ensures Rebound(x, st, st') && (forall y :: y in Members(x) ==> Rest(sh.parent, y, st))
    ensures Sub(sh.parent, x)
  {
    WithinSub(sh.parent, x, sh.root);
    StoredRight(sh, x, limit, st, st');
    RightInside(x, sh.root, At(st, sh.root.id).bound, st);
    RightRange(sh.root, At(st, sh.root.id).bound, st, x.id);
    assert x.id in Members(x) && x.id !in MembersOf(x.children);
  }

  /** A limit is set on a running container that never had one applied. */
  predicate First(n: Node) {
    n.cur == 0 && Active(n) && n.limit != 0
  }

  /** Somebody below has a larger limit. */
  ghost predicate Exceeded(x: Tree, st: Store, b: nat) {
    exists y :: y in MembersOf(x.children) && At(st, y).applied > b
  }

  /** With nobody above the new bound of `x`, the kernel has new bounds or nothing below. */
  lemma CutOff(sh: Shape, x: Tree, limit: nat, st: Store, st': Store, y: Id)
    requires Steady(sh, st) && Inner(sh, x) && Stored(sh, x, limit, st, st') && y in MembersOf(x.children)
    requires First(At(st', x.id)) && !Exceeded(x, st, At(st', x.id).bound)
    ensures At(st, y).applied == 0 || At(st, y).applied == At(st', y).bound
  {
    StoredRebound(sh, x, limit, st, st');
    StoredRight(sh, x, limit, st, st');
    assert Rest(sh.parent, x.id, st) && Rest(sh.parent, y, st);
    WithinSub(sh.parent, x, sh.root);
    RightFalls(sh.parent, sh.root, st, x.id);
    var k := ChildWith(x.children, y);
    Apart(x, k);
    ChildOf(x.children, k);
    BoundsCut(x.children[k], At(st, x.id).bound, At(st', x.id).bound, st, st', y);
  }

  lemma CutFalls(sh: Shape, x: Tree, limit: nat, st: Store, st': Store)
    requires Steady(sh, st) && Inner(sh, x) && Stored(sh, x, limit, st, st')
    requires First(At(st', x.id)) && !Exceeded(x, st, At(st', x.id).bound)
    ensures Falling(sh, World(st', BoundsOf(sh, st')))
  {
    StoredRight(sh, x, limit, st, st');
    StoredRebound(sh, x, limit, st, st');
    forall y | y in Members(sh.root)
      ensures At(st', y).applied == 0 || At(st', y).applied == At(st', y).bound
    {
      if y in MembersOf(x.children) {
        CutOff(sh, x, limit, st, st', y);
      } else if y != sh.root.id {
        assert Rest(sh.parent, y, st);
      }
    }
    BoundsFall(sh, st', st');
  }

  lemma OldFalls(sh: Shape, x: Tree, limit: nat, st: Store, st': Store)
    requires Steady(sh, st) && Inner(sh, x) && Stored(sh, x, limit, st, st')
    ensures Falling(sh, World(st', BoundsOf(sh, st)))
  {
    forall y | y in Members(sh.root)
      ensures At(st', y).applied == 0 || At(st', y).applied == At(st, y).bound
    {
      assert y != sh.root.id ==> Rest(sh.parent, y, st);
    }
    BoundsFall(sh, st, st');
  }

  /** What is applied after a change of the limit of a running container, and with which reach. */
  function ReachFor(sh: Shape, x: Tree, st: Store, st': Store): Reach {
    BoundsOf(sh, if First(At(st', x.id)) then st' else st)
  }

  lemma StoredPlanBelow(sh: Shape, x: Tree, limit: nat, st: Store, st': Store)
    requires Steady(sh, st) && Inner(sh, x) && Stored(sh, x, limit, st, st')
    requires !(First(At(st', x.id)) && Exceeded(x, st, At(st', x.id).bound))
    ensures PlanBelow(sh.parent, x, World(st', ReachFor(sh, x, st, st')))
  {
    StoredRebound(sh, x, limit, st, st');
    WithinSub(sh.parent, x, sh.root);
    var e := ReachFor(sh, x, st, st');
    forall y | y in MembersOf(x.children)
      ensures Reached(At(st, y), At(st', y), ReachAt(e, y))
    {
      if First(At(st', x.id)) {
        CutOff(sh, x, limit, st, st', y);
      }
    }
    PlanChanged(sh.parent, x, st, World(st', e));
  }

  /** Unless a first limit is exceeded below, the change may be applied. */
  lemma StoredPlan(sh: Shape, x: Tree, limit: nat, st: Store, st': Store)
    requires Steady(sh, st) && Inner(sh, x) && At(st, x.id).running && Stored(sh, x, limit, st, st')
    requires !(First(At(st', x.id)) && Exceeded(x, st, At(st', x.id).bound))
    ensures var w := World(st', ReachFor(sh, x, st, st'));
            && Falling(sh, w) && Plan(sh.parent, x, w) && At(st', x.id).bound <= ReachAt(w.e, sh.parent[x.id])
  {
    var w := World(st', ReachFor(sh, x, st, st'));
    StoredRebound(sh, x, limit, st, st');
    StoredRight(sh, x, limit, st, st');
    StoredPlanBelow(sh, x, limit, st, st');
    WithinSub(sh.parent, x, sh.root);
    assert Rest(sh.parent, x.id, st) && x.id in Members(x);
    if First(At(st', x.id)) {
      CutFalls(sh, x, limit, st, st');
    } else {
      OldFalls(sh, x, limit, st, st');
    }
    if At(st', x.id).cur == At(st', x.id).bound {
      SkipChanged(sh.parent, x, st, st');
    }
  }

  /** A stopped container and everything below it are at rest with any bounds. */
  lemma StoppedStored(sh: Shape, x: Tree, limit: nat, st: Store, st': Store)
    requires Steady(sh, st) && Inner(sh, x) && !At(st, x.id).running && Stored(sh, x, limit, st, st')
    ensures Steady(sh, st')
  {
    StoredRebound(sh, x, limit, st, st');
    StoredRight(sh, x, limit, st, st');
    forall y | y in MembersOf(sh.root.children)
      ensures Rest(sh.parent, y, st')
    {
      assert Rest(sh.parent, y, st);
      if y in Members(x) {
        StoppedBelow(sh.parent, x, st, y);
      }
    }
  }

  /** All but the subtree of `x` is at rest, and the limit of `x` counts as set. */
  ghost predicate AlmostSteady(sh: Shape, x: Tree, st: Store) {
    && WholeShape(sh) && Rooted(sh, st) && Right(sh.root, At(st, sh.root.id).bound, st) && At(st, x.id).isSet
    && forall y :: y in MembersOf(sh.root.children) ==>
         && (y !in Members(x) ==> Done(sh.parent, y, st))
         && (At(st, y).running ==> At(st, sh.parent[y]).running)
  }

  lemma StoredAlmost(sh: Shape, x: Tree, limit: nat, st: Store, st': Store)
    requires Steady(sh, st) && Inner(sh, x) && Stored(sh, x, limit, st, st')
    ensures AlmostSteady(sh, x, st')
  {
    StoredRight(sh, x, limit, st, st');
    forall y | y in MembersOf(sh.root.children)
      ensures y !in Members(x) ==> Done(sh.parent, y, st')
      ensures At(st', y).running ==> At(st', sh.parent[y]).running
    {
      assert Rest(sh.parent, y, st);
    }
  }

  /** The subtree of `x` has been applied. */
  lemma AppliedSteady(sh: Shape, x: Tree, w: World, w': World)
    requires AlmostSteady(sh, x, w.st) && Inner(sh, x)
    requires SameWorldOff(Members(x), w, w') && SameSettings(w.st, w'.st) && Finished(sh.parent, x, w')
    ensures Steady(sh, w'.st)
  {
    WithinSub(sh.parent, x, sh.root);
    RightFrame(sh.root, At(w.st, sh.root.id).bound, w.st, w'.st);
    forall y | y in MembersOf(sh.root.children)
      ensures Rest(sh.parent, y, w'.st)
    {
      if y !in Members(x) && sh.parent[y] in Members(x) {
        ChildInside(sh.parent, x, y);
      }
      assert y in MembersOf(x.children) ==> Done(sh.parent, y, w'.st);
    }
  }

  /** A first limit that is exceeded below is refused. */
  lemma StoredDoomed(sh: Shape, x: Tree, limit: nat, st: Store, st': Store)
    requires Steady(sh, st) && Inner(sh, x) && Stored(sh, x, limit, st, st')
    requires First(At(st', x.id)) && Exceeded(x, st, At(st', x.id).bound)
    ensures Doomed(sh, x, st')
  {
    var n := At(st', x.id);
    StoredRight(sh, x, limit, st, st');
    StoredRebound(sh, x, limit, st, st');
    WithinSub(sh.parent, x, sh.root);
    assert Rest(sh.parent, x.id, st) && x.id in Members(x);
    RightRange(sh.root, At(st, sh.root.id).bound, st, x.id);
    SteadyObeysRule(sh, st);
    RuleFrame(sh.root, 0, st, st');
    var y :| y in MembersOf(x.children) && At(st, y).applied > n.bound;
    var next := st'[x.id := n.(applied := n.bound)];
    if Rule(sh.root, 0, next) {
      RuleBelow(x, sh.root, 0, next, y);
    }
  }

  /** The old limit stored again: everything is as before, but the limit counts as set. */
  lemma StoredBack(sh: Shape, x: Tree, limit: nat, st: Store, st': Store, st'': Store)
    requires Steady(sh, st) && Inner(sh, x) && Stored(sh, x, limit, st, st') && Stored(sh, x, At(st, x.id).limit, st', st'')
    ensures forall y :: At(st'', y) == At(st, y).(isSet := At(st, y).isSet || y == x.id)
    ensures Steady(sh, st'')
  {
    assert Stored(sh, x, At(st, x.id).limit, st, st'');
    StoredRight(sh, x, At(st, x.id).limit, st, st'');
    WithinSub(sh.parent, x, sh.root);
    forall y
      ensures At(st'', y) == At(st, y).(isSet := At(st, y).isSet || y == x.id)
    {
      if y in Members(x) {
        BoundsSame(sh.root, st, st'', y);
      }
    }
    forall y | y in MembersOf(sh.root.children)
      ensures Rest(sh.parent, y, st'')
    {
      assert Rest(sh.parent, y, st);
    }
  }

  /** The new limit is the first one applied to `x`, and somebody below already has a larger one. */
  ghost predicate RefusedAt(sh: Shape, x: Tree, limit: nat, st: Store)
    requires x.id in sh.parent
  {
    && Active(At(st, x.id)) && At(st, x.id).cur == 0 && limit != 0
    && Exceeded(x, st, Bounded(limit, At(st, sh.parent[x.id]).bound))
  }

  lemma SameLimitAccepted(sh: Shape, x: Tree, st: Store)
    requires Steady(sh, st) && Inner(sh, x) && x.id in sh.parent
    ensures !RefusedAt(sh, x, At(st, x.id).limit, st)
  {
    WithinSub(sh.parent, x, sh.root);
    assert x.id in Members(x);
    assert Rest(sh.parent, x.id, st);
    RightRange(sh.root, At(st, sh.root.id).bound, st, x.id);
  }

  lemma EnabledFirst(x: Tree, st: Store, st': Store, st'': Store)
    requires st' == st || st' == st[x.id := At(st, x.id).(cpu := true)]
    requires SameOff(Members(x), st', st'') && OnlySetting(x.id, st', st'')
    ensures SameOff(Members(x), st, st'') && OnlySetting(x.id, st, st'')
  {
    assert x.id in Members(x);
  }

  /** One container that is not the root changes in a way that leaves limits, bounds and `CpuLimitCur` alone. */
  lemma OneChanged(sh: Shape, x: Id, st: Store, n: Node)
    requires Steady(sh, st) && x in MembersOf(sh.root.children)
    requires n.limit == At(st, x).limit && n.bound == At(st, x).bound && n.cur == At(st, x).cur
    requires At(st, x).running ==> n.running
    ensures Right(sh.root, At(st, sh.root.id).bound, st[x := n]) && Rooted(sh, st[x := n])
    ensures forall y :: y in MembersOf(sh.root.children) && y != x ==> Rest(sh.parent, y, st[x := n])
  {
    RightFrame(sh.root, At(st, sh.root.id).bound, st, st[x := n]);
    forall y | y in MembersOf(sh.root.children) && y != x
      ensures Rest(sh.parent, y, st[x := n])
    {
      assert Rest(sh.parent, y, st);
    }
  }

  lemma EnabledSteady(sh: Shape, x: Tree, st: Store)
    requires Steady(sh, st) && Inner(sh, x) && !At(st, x.id).running
    ensures Steady(sh, st[x.id := At(st, x.id).(cpu := true)])
  {
    WithinSub(sh.parent, x, sh.root);
    assert x.id in Members(x) && Rest(sh.parent, x.id, st);
    OneChanged(sh, x.id, st, At(st, x.id).(cpu := true));
  }

  // ---------- containers come, start and stop ----------

  function Started(st: Store, x: Id): Store {
    st[x := At(st, x).(running := true)]
  }

  /** A container whose limit was never set starts at rest: its bound was applied never or with its parent's. */
  lemma StartedUnset(sh: Shape, x: Tree, st: Store)
    requires Steady(sh, st) && Inner(sh, x) && x.id in sh.parent && At(st, sh.parent[x.id]).running && !At(st, x.id).running
    requires !At(st, x.id).isSet
    ensures Steady(sh, Started(st, x.id))
  {
    var st', p := Started(st, x.id), sh.parent[x.id];
    WithinSub(sh.parent, x, sh.root);
    assert x.id in Members(x) && Rest(sh.parent, x.id, st);
    assert p != sh.root.id ==> Rest(sh.parent, p, st);
    RightFalls(sh.parent, sh.root, st, x.id);
    OneChanged(sh, x.id, st, At(st', x.id));
  }

  lemma StartedAlmost(sh: Shape, x: Tree, st: Store)
    requires Steady(sh, st) && Inner(sh, x) && x.id in sh.parent && At(st, sh.parent[x.id]).running && At(st, x.id).isSet
    ensures AlmostSteady(sh, x, Started(st, x.id))
  {
    var st' := Started(st, x.id);
    WithinSub(sh.parent, x, sh.root);
    assert x.id in Members(x);
    OneChanged(sh, x.id, st, At(st', x.id));
    assert forall y :: y in MembersOf(sh.root.children) && y != x.id ==> Rest(sh.parent, y, st');
  }

  /** Everything below a container that starts is stopped and at rest. */
  lemma StartedBelow(sh: Shape, x: Tree, st: Store)
    requires Steady(sh, st) && Inner(sh, x) && !At(st, x.id).running
    ensures forall y :: y in MembersOf(x.children) ==> Rest(sh.parent, y, Started(st, x.id)) && At(st, y).applied == 0
    ensures At(st, x.id).applied == 0 && RightBelow(x, Started(st, x.id)) && At(st, x.id).bound > 0
  {
    var st' := Started(st, x.id);
    WithinSub(sh.parent, x, sh.root);
    assert x.id in Members(x) && Rest(sh.parent, x.id, st);
    RightInside(x, sh.root, At(st, sh.root.id).bound, st);
    RightRange(sh.root, At(st, sh.root.id).bound, st, x.id);
    forall k | 0 <= k < |x.children|
      ensures Right(x.children[k], At(st', x.id).bound, st')
    {
      Apart(x, k);
      RightFrame(x.children[k], At(st, x.id).bound, st, st');
    }
    forall y | y in MembersOf(x.children)
      ensures Rest(sh.parent, y, st') && At(st, y).applied == 0
    {
      StoppedBelow(sh.parent, x, st, y);
      assert Rest(sh.parent, y, st);
      ParentInside(sh.parent, x, y);
    }
  }

  lemma StartedPlan(sh: Shape, x: Tree, st: Store)
    requires Steady(sh, st) && Inner(sh, x) && x.id in sh.parent && !At(st, x.id).running
    ensures var w := World(Started(st, x.id), BoundsOf(sh, st));
            && Falling(sh, w) && Plan(sh.parent, x, w) && At(w.st, x.id).bound <= ReachAt(w.e, sh.parent[x.id])
  {
    var w := World(Started(st, x.id), BoundsOf(sh, st));
    WithinSub(sh.parent, x, sh.root);
    StartedBelow(sh, x, st);
    assert x.id in Members(x);
    forall y | y in Members(sh.root)
      ensures At(w.st, y).applied == 0 || At(w.st, y).applied == At(st, y).bound
    {
      assert y != sh.root.id ==> Rest(sh.parent, y, st);
    }
    BoundsFall(sh, st, w.st);
    RightFalls(sh.parent, sh.root, st, x.id);
    PlanChanged(sh.parent, x, w.st, w);
  }

  /** Everything in the subtree is stopped, and its cgroups are gone. */
  function Stopped(st: Store, x: Tree): Store {
    map y | y in st :: if y in Members(x) then st[y].(running := false, applied := 0) else st[y]
  }

  lemma StoppedSteady(sh: Shape, x: Tree, st: Store)
    requires Steady(sh, st) && Inner(sh, x)
    ensures Steady(sh, Stopped(st, x))
  {
    var st' := Stopped(st, x);
    WithinSub(sh.parent, x, sh.root);
    RightFrame(sh.root, At(st, sh.root.id).bound, st, st');
    forall y | y in MembersOf(sh.root.children)
      ensures Rest(sh.parent, y, st')
    {
      assert Rest(sh.parent, y, st);
      if sh.parent[y] in Members(x) {
        ChildInside(sh.parent, x, y);
      }
    }
  }

  /** A new container inherits the bound of its parent; only below the root container it has the cpu controller. */
  function NewNode(sh: Shape, st: Store, p: Id): Node {
    Node(0, At(st, p).bound, 0, 0, false, false, p == sh.root.id)
  }

  lemma {:induction false} GrownRight(t: Tree, p: Id, id: Id, above: nat, st: Store, n: Node)
    requires Distinct(t) && id !in Members(t) && Right(t, above, st) && n.limit == 0 && n.bound == At(st, p).bound
    ensures Right(Grown(t, p, id), above, st[id := n])
    decreases t
  {
    var t', st' := Grown(t, p, id), st[id := n];
    assert t.id in Members(t);
    forall k | 0 <= k < |t'.children|
      ensures Right(t'.children[k], At(st', t'.id).bound, st')
    {
      if k < |t.children| {
        GrownAt(t.children, p, id, k);
        Apart(t, k);
        GrownRight(t.children[k], p, id, At(st, t.id).bound, st, n);
      }
    }
  }

  lemma GrownSteady(sh: Shape, p: Id, id: Id, st: Store)
    requires Steady(sh, st) && p in Members(sh.root) && id !in Members(sh.root)
    ensures Steady(Shape(Grown(sh.root, p, id), sh.parent[id := p]), st[id := NewNode(sh, st, p)])
  {
    var sh', st' := Shape(Grown(sh.root, p, id), sh.parent[id := p]), st[id := NewNode(sh, st, p)];
    GrownWhole(sh.parent, sh.root, p, id);
    GrownRight(sh.root, p, id, At(st, sh.root.id).bound, st, NewNode(sh, st, p));
    assert sh.root.id in Members(sh.root);
    forall y | y in MembersOf(sh'.root.children)
      ensures Rest(sh'.parent, y, st')
    {
      if y != id {
        assert Rest(sh.parent, y, st);
        ParentInside(sh.parent, sh.root, y);
      }
    }
  }

  lemma AloneSteady(root: Id, cores: nat)
    requires cores > 0
    ensures Steady(Shape(Tree(root, []), map[]), map[root := Node(cores, cores, 0, 0, false, true, false)])
  {
    var sh := Shape(Tree(root, []), map[]);
    assert MembersOf(sh.root.children) == {};
    assert DistinctOf(sh.root.children);
  }
}
