/**
 CPU limits down the container tree: `PropogateCpuLimit`, which recomputes bounds
 and stops where nothing changes, and `ApplyCpuLimit`, which writes them to the
 kernel: raised bounds on the way down, lowered ones on the way up.
 */
module CpuLimit {
  import opened ContainerTree
  import opened CpuBounds
  import opened CpuQuota
  import opened CpuPlan
  import opened CpuSteady
  import opened TreeGrowth

  /** The first `i` children have right bounds again, the others are as they were. */
  ghost predicate PropagatedUpTo(t: Tree, i: nat, st: Store, st': Store) {
    && (forall k :: 0 <= k < |t.children| && k < i ==> Right(t.children[k], At(st', t.id).bound, st'))
    && (forall k :: i <= k < |t.children| ==> SameOn(Members(t.children[k]), st, st'))
  }

  lemma PropagatedMore(t: Tree, i: nat, st: Store, st': Store, st'': Store)
    requires Distinct(t) && i < |t.children| && OnlyBounds(Members(t), st, st') && PropagatedUpTo(t, i, st, st')
    requires OnlyBounds(Members(t.children[i]), st', st'') && Right(t.children[i], At(st'', t.id).bound, st'')
    ensures OnlyBounds(Members(t), st, st'') && PropagatedUpTo(t, i + 1, st, st'') && At(st'', t.id) == At(st', t.id)
  {
    Apart(t, i);
    forall k | 0 <= k < |t.children| && k != i
      ensures SameOn(Members(t.children[k]), st', st'')
    {
      SiblingsApart(t, i, k);
    }
    forall k | 0 <= k < i
      ensures Right(t.children[k], At(st'', t.id).bound, st'')
    {
      Apart(t, k);
      assert SameOn(Members(t.children[k]), st', st'');
      RightFrame(t.children[k], At(st', t.id).bound, st', st'');
    }
    forall k | i + 1 <= k < |t.children|
      ensures SameOn(Members(t.children[k]), st, st'')
    {
      assert SameOn(Members(t.children[k]), st, st') && SameOn(Members(t.children[k]), st', st'');
    }
  }

  lemma TopPropagated(t: Tree, st: Store, b: nat)
    requires Distinct(t)
    ensures var st' := st[t.id := At(st, t.id).(bound := b)];
            OnlyBounds(Members(t), st, st') && PropagatedUpTo(t, 0, st, st')
  {
    forall k | 0 <= k < |t.children|
      ensures SameOn(Members(t.children[k]), st, st[t.id := At(st, t.id).(bound := b)])
    {
      Apart(t, k);
    }
  }

  lemma RightBelowKept(t: Tree, st: Store, st': Store)
    requires Distinct(t) && RightBelow(t, st) && SameSettings(st, st')
    ensures RightBelow(t, st')
  {
    forall k | 0 <= k < |t.children|
      ensures Right(t.children[k], At(st', t.id).bound, st')
    {
      Apart(t, k);
      RightFrame(t.children[k], At(st, t.id).bound, st, st');
    }
  }

  /** What is planned is not doomed. */
  lemma PlanNotDoomed(sh: Shape, t: Tree, w: World)
    requires Sub(sh.parent, sh.root) && Sub(sh.parent, t) && t.id in sh.parent && Falling(sh, w)
    requires At(w.st, t.id).bound <= ReachAt(w.e, sh.parent[t.id]) && Local(At(w.st, t.id), ReachAt(w.e, t.id))
    ensures !Doomed(sh, t, w.st)
  {
    var n := At(w.st, t.id);
    if n.cur <= n.bound && Active(n) && n.limit != 0 && n.bound != 0 {
      FitsFirst(sh, t, w);
      WriteFits(sh, w, t.id);
    } else if n.bound == 0 && n.applied == 0 {
      RuleSame(sh, w.st, t.id);
    }
  }

  /** The first write of a planned container is accepted, and this is the world after it. */
  lemma FirstWorld(sh: Shape, t: Tree, w: World) returns (w': World)
    requires Sub(sh.parent, sh.root) && Sub(sh.parent, t) && t.id in sh.parent && Falling(sh, w)
    requires At(w.st, t.id).cur <= At(w.st, t.id).bound <= ReachAt(w.e, sh.parent[t.id])
    requires Local(At(w.st, t.id), ReachAt(w.e, t.id))
    ensures w'.st == w.st[t.id := At(w.st, t.id).(applied := Target(At(w.st, t.id)))]
    ensures Falling(sh, w') && OnlyApplied(t.id, w, w') && Rule(sh.root, 0, w'.st)
    ensures At(w.st, t.id).bound <= ReachAt(w'.e, t.id)
    ensures !Active(At(w.st, t.id)) ==> At(w.st, t.id).applied == 0 == Target(At(w.st, t.id))
  {
    w' := Written(w, t.id);
    if ReachAt(w.e, t.id) <= At(w.st, t.id).bound {
      FitsFirst(sh, t, w);
      WriteFits(sh, w, t.id);
    } else {
      w' := World(w'.st, w.e);
      FallingObeysRule(sh, w');
    }
  }

  lemma RuleSame(sh: Shape, st: Store, x: Id)
    requires Distinct(sh.root) && At(st, x).applied == 0
    ensures Rule(sh.root, 0, st) ==> Rule(sh.root, 0, st[x := At(st, x).(applied := 0)])
  {
    if Rule(sh.root, 0, st) {
      RuleFrame(sh.root, 0, st, st[x := At(st, x).(applied := 0)]);
    }
  }

  lemma BegunFrame(parent: map<Id, Id>, t: Tree, w: World, w': World)
    requires Distinct(t) && Agrees(t, parent) && Plan(parent, t, w) && RightBelow(t, w.st) && OnlyApplied(t.id, w, w')
    ensures PlanBelow(parent, t, w') && RightBelow(t, w'.st)
    ensures At(w'.st, t.id).cur == At(w'.st, t.id).bound ==> BelowDone(parent, t, w'.st)
  {
    PlanBelowFrame(parent, t, w, w');
    OnlyAppliedSettings(t.id, w, w');
    RightBelowKept(t, w.st, w'.st);
    if At(w.st, t.id).cur == At(w.st, t.id).bound {
      BelowDoneFrame(parent, t, w.st, w'.st);
    }
  }

  datatype Outcome = Ok | NotSupported | Refused

  lemma LimitKept(x: Tree, st: Store, st': Store)
    requires Distinct(x) && RightBelow(x, st) && SameOff({x.id}, st, st') && At(st', x.id).bound == At(st, x.id).bound
    ensures RightBelow(x, st')
  {
    forall k | 0 <= k < |x.children|
      ensures Right(x.children[k], At(st', x.id).bound, st')
    {
      Apart(x, k);
      RightFrame(x.children[k], At(st, x.id).bound, st, st');
    }
  }

  class CpuLimits {
    var sh: Shape
    var node: Store
    ghost var reach: Reach

    /** A host with its root container only; `cores` is what the host has. */
    constructor (root: Id, cores: nat)
      requires cores > 0
      ensures Steady(sh, node) && sh.root == Tree(root, []) && At(node, root).limit == cores
    {
      sh, node := Shape(Tree(root, []), map[]), map[root := Node(cores, cores, 0, 0, false, true, false)];
      reach := map[];
      AloneSteady(root, cores);
    }

    ghost function Now(): World
      reads this
    {
      World(node, reach)
    }

    /** Restores right bounds below a container whose own limit or whose parent's bound has changed. */
    method PropogateCpuLimit(t: Tree)
      requires Distinct(t) && Agrees(t, sh.parent) && t.id in sh.parent && sh.parent[t.id] !in Members(t)
      requires RightBelow(t, node)
      modifies this`node
      ensures OnlyBounds(Members(t), old(node), node) && Right(t, At(node, sh.parent[t.id]).bound, node)
      decreases t, 1
    {
      var n, above := At(node, t.id), At(node, sh.parent[t.id]).bound;
      var b := if n.limit != 0 then (if n.limit < above then n.limit else above) else above;
      if b == n.bound {
        return;
      }
      ghost var before := node;
      node := node[t.id := n.(bound := b)];
      TopPropagated(t, before, b);
      for i := 0 to |t.children|
        invariant At(node, t.id) == n.(bound := b) && OnlyBounds(Members(t), before, node)
        invariant PropagatedUpTo(t, i, before, node)
      {
        PropogateChild(t, i, before);
      }
    }

    method PropogateChild(t: Tree, i: nat, ghost before: Store)
      requires Distinct(t) && Agrees(t, sh.parent) && i < |t.children| && RightBelow(t, before)
      requires OnlyBounds(Members(t), before, node) && PropagatedUpTo(t, i, before, node)
      modifies this`node
      ensures OnlyBounds(Members(t), before, node) && PropagatedUpTo(t, i + 1, before, node)
      ensures At(node, t.id) == At(old(node), t.id)
      decreases t, 0
    {
      ghost var was := node;
      Apart(t, i);
      RightFrame(t.children[i], At(before, t.id).bound, before, node);
      PropogateCpuLimit(t.children[i]);
      PropagatedMore(t, i, before, was, node);
    }

    /** One write to the quota file; the kernel may refuse it. */
    method WriteQuota(x: Id, v: nat) returns (ok: bool)
      modifies this`node
      ensures ok == Rule(sh.root, 0, old(node)[x := At(old(node), x).(applied := v)])
      ensures node == if ok then old(node)[x := At(old(node), x).(applied := v)] else old(node)
    {
      var next := node[x := At(node, x).(applied := v)];
      ok := Rule(sh.root, 0, next);
      if ok {
        node := next;
      }
    }

    /**
     Containers without a cpu cgroup are skipped. A refused quota is taken off before it is tried once more, so a
     container whose limit stays refused ends without one.
     */
    method SetCpuLimit(x: Id, v: nat) returns (ok: bool)
      modifies this`node
      ensures !Active(At(old(node), x)) ==> ok && node == old(node)
      ensures Active(At(old(node), x)) ==> ok == Rule(sh.root, 0, old(node)[x := At(old(node), x).(applied := v)])
      ensures Active(At(old(node), x)) && ok ==> node == old(node)[x := At(old(node), x).(applied := v)]
      ensures !ok ==> node == old(node) || node == old(node)[x := At(old(node), x).(applied := 0)]
    {
      if !Active(At(node, x)) {
        return true;
      }
      ok := WriteQuota(x, v);
      if ok || v == 0 {
        return;
      }
      ok := WriteQuota(x, 0);
      if !ok {
        return;
      }
      ghost var off := node;
      assert off[x := At(off, x).(applied := v)] == old(node)[x := At(old(node), x).(applied := v)];
      ok := WriteQuota(x, v);
    }

    /** What a call on `t` may rely on. */
    ghost predicate Ready(t: Tree)
      reads this
    {
      && Sub(sh.parent, sh.root) && Sub(sh.parent, t) && t.id in sh.parent && Members(t) <= Members(sh.root)
      && Falling(sh, Now()) && RightBelow(t, node)
      && At(node, t.id).bound <= ReachAt(reach, sh.parent[t.id])
    }

    /** A write that fits is accepted. */
    method WriteBound(x: Id) returns (ok: bool)
      requires Sub(sh.parent, sh.root) && Falling(sh, Now()) && Fits(sh, Now(), x)
      requires !Active(At(node, x)) ==> At(node, x).applied == 0
      modifies this`node, this`reach
      ensures ok && Falling(sh, Now()) && OnlyApplied(x, old(Now()), Now())
      ensures At(node, x).applied == Target(At(node, x)) && ReachAt(reach, x) == At(node, x).bound
    {
      var n := At(node, x);
      WriteFits(sh, Now(), x);
      ok := SetCpuLimit(x, if n.limit != 0 then n.bound else 0);
      reach := reach[x := n.bound];
    }

    /** The reach follows the bound where nothing has to be written. */
    ghost method MoveReach(x: Id)
      requires Sub(sh.parent, sh.root) && Falling(sh, Now()) && Fits(sh, Now(), x)
      requires At(node, x).applied == Target(At(node, x))
      modifies this`reach
      ensures Falling(sh, Now()) && OnlyApplied(x, old(Now()), Now()) && ReachAt(reach, x) == At(node, x).bound
    {
      WriteFits(sh, Now(), x);
      reach := reach[x := At(node, x).bound];
    }

    /** The write of a container whose bound did not fall. */
    method FirstWrite(t: Tree) returns (ok: bool)
      requires At(node, t.id).cur <= At(node, t.id).bound
      requires !Doomed(sh, t, node) ==> Ready(t) && Local(At(node, t.id), ReachAt(reach, t.id))
      modifies this`node, this`reach
      ensures ok <==> !Doomed(sh, t, old(node))
      ensures ok ==> Falling(sh, Now()) && OnlyApplied(t.id, old(Now()), Now())
      ensures ok ==> At(node, t.id).bound <= ReachAt(reach, t.id) && At(node, t.id).applied == Target(At(node, t.id))
      ensures !ok ==> node == old(node)
    {
      var n := At(node, t.id);
      ghost var doomed, next := Doomed(sh, t, node), Now();
      if !doomed {
        next := FirstWorld(sh, t, next);
      }
      ok := SetCpuLimit(t.id, if n.limit != 0 then n.bound else 0);
      reach := next.e;
    }

    /** Up to the children. Afterwards they have room. */
    method Begin(t: Tree) returns (ok: bool)
      requires !Doomed(sh, t, node) ==> Ready(t) && Local(At(node, t.id), ReachAt(reach, t.id))
      modifies this`node, this`reach
      ensures ok <==> !Doomed(sh, t, old(node))
      ensures ok ==> Falling(sh, Now()) && OnlyApplied(t.id, old(Now()), Now())
      ensures ok ==> At(node, t.id).bound <= ReachAt(reach, t.id)
      ensures ok && !Active(At(node, t.id)) ==> At(node, t.id).applied == 0
      ensures ok && At(node, t.id).bound >= At(node, t.id).cur ==> At(node, t.id).applied == Target(At(node, t.id))
      ensures !ok ==> node == old(node)
    {
      var n := At(node, t.id);
      ok := true;
      if n.bound >= n.cur {
        ok := FirstWrite(t);
      } else if ReachAt(reach, t.id) < n.bound {
        FitsFirst(sh, t, Now());
        MoveReach(t.id);
      }
    }

    /** After the children: the write of a container whose bound fell. */
    method End(t: Tree) returns (ok: bool)
      requires Ready(t) && BelowFinished(sh.parent, t, Now())
      requires !Active(At(node, t.id)) ==> At(node, t.id).applied == 0
      requires At(node, t.id).bound >= At(node, t.id).cur ==> At(node, t.id).applied == Target(At(node, t.id))
      modifies this`node, this`reach
      ensures ok && Falling(sh, Now()) && OnlyApplied(t.id, old(Now()), Now())
      ensures ReachAt(reach, t.id) == At(node, t.id).bound && At(node, t.id).applied == Target(At(node, t.id))
    {
      var n := At(node, t.id);
      FitsLast(sh, t, Now());
      ok := true;
      if n.bound < n.cur {
        ok := WriteBound(t.id);
      } else {
        MoveReach(t.id);
      }
    }

    /** `CpuLimitCur` follows. */
    method Finish(t: Tree)
      requires Sub(sh.parent, t) && Falling(sh, Now()) && BelowFinished(sh.parent, t, Now())
      requires ReachAt(reach, t.id) == At(node, t.id).bound && At(node, t.id).applied == Target(At(node, t.id))
      modifies this`node
      ensures Falling(sh, Now()) && Finished(sh.parent, t, Now())
      ensures SameWorldOff({t.id}, old(Now()), Now()) && SameSettings(old(node), node)
    {
      FinishTop(sh.parent, t, Now());
      node := node[t.id := At(node, t.id).(cur := At(node, t.id).bound)];
    }

    /** One child: its parent already has, or still has, at least its new bound. */
    method ApplyChild(t: Tree, i: nat, ghost w0: World) returns (ok: bool)
      requires Sub(sh.parent, sh.root) && Sub(sh.parent, t) && Members(t) <= Members(sh.root) && Falling(sh, Now())
      requires PlanBelow(sh.parent, t, w0) && RightBelow(t, w0.st) && SameSettings(w0.st, node)
      requires At(w0.st, t.id).bound <= ReachAt(w0.e, t.id)
      requires i < |t.children| && ChildrenDone(sh.parent, t, i, w0, Now())
      modifies this`node, this`reach
      ensures ok && Falling(sh, Now()) && ChildrenDone(sh.parent, t, i + 1, w0, Now())
      ensures SameSettings(w0.st, node)
      decreases t, 0
    {
      ghost var was, c := Now(), t.children[i];
      SubChild(sh.parent, t, i);
      RightBelowKept(t, w0.st, node);
      PlanFrame(sh.parent, c, w0, was);
      assert Right(c, At(node, t.id).bound, node);
      PlanNotDoomed(sh, c, was);
      ok := ApplyCpuLimit(t.children[i]);
      ChildrenDoneStep(sh.parent, t, i, w0, was, Now());
    }

    method ApplyChildren(t: Tree) returns (ok: bool)
      requires Ready(t) && PlanBelow(sh.parent, t, Now()) && At(node, t.id).bound <= ReachAt(reach, t.id)
      modifies this`node, this`reach
      ensures ok && Falling(sh, Now()) && ChildrenDone(sh.parent, t, |t.children|, old(Now()), Now())
      ensures SameSettings(old(node), node)
      decreases t, 1
    {
      ghost var w0 := Now();
      ok := true;
      for i := 0 to |t.children|
        invariant ok && Falling(sh, Now()) && ChildrenDone(sh.parent, t, i, w0, Now())
        invariant SameSettings(w0.st, node)
      {
        ok := ApplyChild(t, i, w0);
        if !ok {
          return;
        }
      }
    }

    /** The children are applied, unless the bound of `t` is what was applied before. */
    method Middle(t: Tree) returns (ok: bool)
      requires Ready(t) && PlanBelow(sh.parent, t, Now()) && At(node, t.id).bound <= ReachAt(reach, t.id)
      requires At(node, t.id).cur == At(node, t.id).bound ==> BelowDone(sh.parent, t, node)
      modifies this`node, this`reach
      ensures ok && Falling(sh, Now()) && BelowFinished(sh.parent, t, Now())
      ensures SameWorldOff(MembersOf(t.children), old(Now()), Now()) && SameSettings(old(node), node)
      decreases t, 2
    {
      ok := true;
      if At(node, t.id).bound != At(node, t.id).cur {
        ghost var w0 := Now();
        ok := ApplyChildren(t);
        RightBelowKept(t, w0.st, node);
        AllChildrenFinished(sh.parent, t, Now());
      } else {
        SkipFalls(sh, t, Now());
        reach := Lowered(reach, t, node);
        SkipFinished(sh, t, Now());
      }
    }

    /**
     From a planned subtree no write is refused and the subtree is finished. Where the first write would be
     refused, it is, and nothing has changed.
     */
    method ApplyCpuLimit(t: Tree) returns (ok: bool)
      requires !Doomed(sh, t, node) ==> Ready(t) && Plan(sh.parent, t, Now())
      modifies this`node, this`reach
      ensures ok <==> !Doomed(sh, t, old(node))
      ensures ok ==> Falling(sh, Now()) && Finished(sh.parent, t, Now())
      ensures ok ==> SameWorldOff(Members(t), old(Now()), Now()) && SameSettings(old(node), node)
      ensures !ok ==> node == old(node)
      decreases t, 3
    {
      ghost var w0 := Now();
      ok := Begin(t);
      if !ok {
        return;
      }
      ghost var w1 := Now();
      OnlyAppliedSettings(t.id, w0, w1);
      BegunFrame(sh.parent, t, w0, w1);
      ok := Middle(t);
      ghost var w2 := Now();
      RightBelowKept(t, w1.st, w2.st);
      ok := End(t);
      ghost var w3 := Now();
      OnlyAppliedSettings(t.id, w2, w3);
      BelowFinishedFrame(sh.parent, t, w2, w3);
      Finish(t);
    }

    /** `Set` of the property: the limit is stored and propagated; nothing is written yet. */
    method Store(x: Tree, limit: nat)
      requires Sub(sh.parent, x) && x.id in sh.parent && RightBelow(x, node)
      modifies this`node
      ensures Stored(sh, x, limit, old(node), node)
    {
      ghost var before := node;
      node := node[x.id := At(node, x.id).(limit := limit, isSet := true)];
      LimitKept(x, before, node);
      PropogateCpuLimit(x);
      assert x.id in Members(x);
    }

    /** The limit of a container that supports it is stored, and applied or taken back. */
    method SetAndApply(x: Tree, limit: nat) returns (r: Outcome)
      requires Steady(sh, node) && Inner(sh, x) && x.id in sh.parent
      modifies this`node, this`reach
      ensures Steady(sh, node) && r != NotSupported && SameOff(Members(x), old(node), node)
      ensures r == Refused <==> RefusedAt(sh, x, limit, old(node))
      ensures OnlySetting(x.id, old(node), node) && At(node, x.id).cpu == At(old(node), x.id).cpu
      ensures r == Ok ==> At(node, x.id).limit == limit
      ensures r == Refused ==> forall y :: At(node, y) == At(old(node), y).(isSet := At(old(node), y).isSet || y == x.id)
    {
      ghost var st := node;
      var n := At(node, x.id);
      WithinSub(sh.parent, x, sh.root);
      RightInside(x, sh.root, At(node, sh.root.id).bound, node);
      Store(x, limit);
      ghost var st' := node;
      StoredRight(sh, x, limit, st, st');
      if !n.running {
        StoppedStored(sh, x, limit, st, st');
        StoredOnlySetting(sh, x, limit, st, st', node);
        return Ok;
      }
      Prepare(x, limit, st);
      var ok := ApplyCpuLimit(x);
      if ok {
        StoredOnlySetting(sh, x, limit, st, st', node);
        StoredAlmost(sh, x, limit, st, st');
        AppliedSteady(sh, x, World(st', ReachFor(sh, x, st, st')), Now());
        return Ok;
      }
      RightInside(x, sh.root, At(node, sh.root.id).bound, node);
      Store(x, n.limit);
      StoredBack(sh, x, limit, st, st', node);
      return Refused;
    }

    /** The reach is chosen, and whether the first write will be refused is known. */
    ghost method Prepare(x: Tree, limit: nat, st: Store)
      requires Steady(sh, st) && Inner(sh, x) && At(st, x.id).running && Stored(sh, x, limit, st, node)
      modifies this`reach
      ensures reach == ReachFor(sh, x, st, node)
      ensures Doomed(sh, x, node) <==> RefusedAt(sh, x, limit, st)
      ensures !Doomed(sh, x, node) ==> Ready(x) && Plan(sh.parent, x, Now())
    {
      reach := ReachFor(sh, x, st, node);
      WithinSub(sh.parent, x, sh.root);
      StoredRight(sh, x, limit, st, node);
      StoredRebound(sh, x, limit, st, node);
      if First(At(node, x.id)) && Exceeded(x, st, At(node, x.id).bound) {
        StoredDoomed(sh, x, limit, st, node);
      } else {
        StoredPlan(sh, x, limit, st, node);
        PlanNotDoomed(sh, x, Now());
      }
    }

    /** A stopped container gets the cpu controller. */
    method EnableControllers(x: Tree)
      requires Steady(sh, node) && Inner(sh, x) && !At(node, x.id).running
      modifies this`node
      ensures Steady(sh, node) && node == old(node)[x.id := At(old(node), x.id).(cpu := true)]
    {
      ghost var st := node;
      node := node[x.id := At(node, x.id).(cpu := true)];
      EnabledSteady(sh, x, st);
    }

    /**
     A new value of the `cpu_limit` property of `x`. It is not supported by a running container without the cpu
     controller. On a running container it is applied at once, and taken back if the kernel refuses: that happens
     exactly when it is the first limit ever applied there and somebody below already has a larger one. A stopped
     container gets the controller, and the limit when it starts.
     */
    method ChangeLimit(x: Tree, limit: nat) returns (r: Outcome)
      requires Steady(sh, node) && Inner(sh, x) && x.id in sh.parent
      modifies this`node, this`reach
      ensures Steady(sh, node) && SameOff(Members(x), old(node), node)
      ensures r == NotSupported <==> At(old(node), x.id).running && !At(old(node), x.id).cpu
      ensures r == Refused <==> RefusedAt(sh, x, limit, old(node))
      ensures OnlySetting(x.id, old(node), node)
      ensures r == Ok ==> At(node, x.id).limit == limit && At(node, x.id).cpu
      ensures r == NotSupported ==> node == old(node)
      ensures r == Refused ==> forall y :: At(node, y) == At(old(node), y).(isSet := At(old(node), y).isSet || y == x.id)
    {
      var n := At(node, x.id);
      if n.running && !n.cpu {
        return NotSupported;
      }
      if !n.cpu {
        EnableControllers(x);
      }
      ghost var enabled := node;
      r := SetProperty(x, limit);
      EnabledFirst(x, old(node), enabled, node);
    }

    /** A limit that is the one already set changes nothing. */
    method SetProperty(x: Tree, limit: nat) returns (r: Outcome)
      requires Steady(sh, node) && Inner(sh, x) && x.id in sh.parent
      modifies this`node, this`reach
      ensures Steady(sh, node) && r != NotSupported && SameOff(Members(x), old(node), node)
      ensures r == Refused <==> RefusedAt(sh, x, limit, old(node))
      ensures OnlySetting(x.id, old(node), node) && At(node, x.id).cpu == At(old(node), x.id).cpu
      ensures r == Ok ==> At(node, x.id).limit == limit
      ensures r == Refused ==> forall y :: At(node, y) == At(old(node), y).(isSet := At(old(node), y).isSet || y == x.id)
    {
      SameLimitAccepted(sh, x, node);
      if At(node, x.id).limit == limit {
        return Ok;
      }
      r := SetAndApply(x, limit);
    }

    /** A new container below `p`, stopped and without a limit. */
    method Create(p: Id, id: Id)
      requires Steady(sh, node) && p in Members(sh.root) && id !in Members(sh.root)
      modifies this`sh, this`node
      ensures Steady(sh, node)
      ensures sh == Shape(Grown(old(sh).root, p, id), old(sh).parent[id := p])
      ensures node == old(node)[id := NewNode(old(sh), old(node), p)]
    {
      var grown, more := Shape(Grown(sh.root, p, id), sh.parent[id := p]), node[id := NewNode(sh, node, p)];
      GrownSteady(sh, p, id, node);
      sh, node := grown, more;
    }

    /** A container below a running one starts. Its limit is applied if it was ever set; that is never refused. */
    method Start(x: Tree) returns (ok: bool)
      requires Steady(sh, node) && Inner(sh, x) && x.id in sh.parent
      requires !At(node, x.id).running && At(node, sh.parent[x.id]).running
      modifies this`node, this`reach
      ensures ok && Steady(sh, node) && SameSettings(Started(old(node), x.id), node)
    {
      ghost var st := node;
      node := node[x.id := At(node, x.id).(running := true)];
      ok := true;
      if At(node, x.id).isSet {
        ok := ApplyStarted(x, st);
      } else {
        StartedUnset(sh, x, st);
      }
    }

    method ApplyStarted(x: Tree, ghost st: Store) returns (ok: bool)
      requires Steady(sh, st) && Inner(sh, x) && x.id in sh.parent && node == Started(st, x.id)
      requires !At(st, x.id).running && At(st, sh.parent[x.id]).running && At(st, x.id).isSet
      modifies this`node, this`reach
      ensures ok && Steady(sh, node) && SameSettings(old(node), node)
    {
      WithinSub(sh.parent, x, sh.root);
      reach := BoundsOf(sh, st);
      StartedPlan(sh, x, st);
      StartedBelow(sh, x, st);
      StartedAlmost(sh, x, st);
      PlanNotDoomed(sh, x, Now());
      ghost var w := Now();
      ok := ApplyCpuLimit(x);
      AppliedSteady(sh, x, w, Now());
    }

    /** A container stops with everything below it. */
    method Stop(x: Tree)
      requires Steady(sh, node) && Inner(sh, x)
      modifies this`node
      ensures Steady(sh, node) && node == Stopped(old(node), x)
    {
      StoppedSteady(sh, x, node);
      node := map y | y in node :: if y in Members(x) then node[y].(running := false, applied := 0) else node[y];
    }
  }
}
