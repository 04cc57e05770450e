/**
 The stages of a subtree while `ApplyCpuLimit` goes through it: what must hold
 before, in between and after, and how one stage leads to the next.
 */
module CpuPlan {
  import opened ContainerTree
  import opened CpuBounds
  import opened CpuQuota

  ghost predicate SameWorldOn(ids: set<Id>, w: World, w': World) {
    forall y :: y in ids ==> At(w.st, y) == At(w'.st, y) && ReachAt(w.e, y) == ReachAt(w'.e, y)
  }

  ghost predicate SameWorldOff(ids: set<Id>, w: World, w': World) {
    forall y :: y !in ids ==> At(w.st, y) == At(w'.st, y) && ReachAt(w.e, y) == ReachAt(w'.e, y)
  }

  /** Only `CpuLimitCur` and what the kernel has may differ. */
  ghost predicate SameSettings(st: Store, st': Store) {
    forall y :: At(st', y) == At(st, y).(cur := At(st', y).cur, applied := At(st', y).applied)
  }

  /** From `w` to `w'` only `x` was written: its applied limit and its reach may differ. */
  ghost predicate OnlyApplied(x: Id, w: World, w': World) {
    && SameWorldOff({x}, w, w')
    && At(w'.st, x) == At(w.st, x).(applied := At(w'.st, x).applied)
  }

  lemma OnlyAppliedSettings(x: Id, w: World, w': World)
    requires OnlyApplied(x, w, w')
    ensures SameSettings(w.st, w'.st)
  {
  }

  // ---------- before ----------

  /**
   The kernel has the reach or nothing; and the code, which compares the bound with `CpuLimitCur`, orders its
   writes as the reach demands, or needs no order because nothing changes here.
   */
  predicate Local(n: Node, reach: nat) {
    && (n.applied == 0 || (n.applied == reach && Active(n)))
    && (n.cur == reach || n.bound == reach || (n.applied == 0 && Target(n) == 0))
  }

  predicate NeverSet(n: Node) {
    !n.isSet ==> n.limit == 0
  }

  /**
   A container at rest: the kernel has its target; if it runs, its bound was applied, or never and it has no
   limit; if its limit was never set, its bound was applied never or last together with its parent's.
   */
  ghost predicate Done(parent: map<Id, Id>, y: Id, st: Store) {
    var n := At(st, y);
    && n.applied == Target(n)
    && (n.running ==> n.cur == n.bound || (n.cur == 0 && n.limit == 0))
    && (!n.isSet ==> n.limit == 0 && y in parent && (n.cur == 0 || n.cur == At(st, parent[y]).cur))
  }

  ghost predicate BelowDone(parent: map<Id, Id>, t: Tree, st: Store) {
    forall y :: y in MembersOf(t.children) ==> Done(parent, y, st)
  }

  /** The subtree may be applied; where the code stops early, everything below is at rest already. */
  ghost predicate Plan(parent: map<Id, Id>, t: Tree, w: World)
    decreases t
  {
    && Local(At(w.st, t.id), ReachAt(w.e, t.id))
    && (At(w.st, t.id).cur == At(w.st, t.id).bound ==> BelowDone(parent, t, w.st))
    && forall k :: 0 <= k < |t.children| ==> Plan(parent, t.children[k], w) && NeverSet(At(w.st, t.children[k].id))
  }

  ghost predicate PlanBelow(parent: map<Id, Id>, t: Tree, w: World) {
    forall k :: 0 <= k < |t.children| ==> Plan(parent, t.children[k], w) && NeverSet(At(w.st, t.children[k].id))
  }

  lemma BelowDoneFrame(parent: map<Id, Id>, t: Tree, st: Store, st': Store)
    requires Distinct(t) && Agrees(t, parent) && BelowDone(parent, t, st)
    requires forall y :: y in MembersOf(t.children) ==> At(st', y) == At(st, y)
    requires At(st', t.id).cur == At(st, t.id).cur
    ensures BelowDone(parent, t, st')
  {
    forall y | y in MembersOf(t.children)
      ensures Done(parent, y, st')
    {
      assert Done(parent, y, st);
      ParentInside(parent, t, y);
    }
  }

  lemma {:induction false} PlanFrame(parent: map<Id, Id>, t: Tree, w: World, w': World)
    requires Distinct(t) && Agrees(t, parent) && Plan(parent, t, w) && SameWorldOn(Members(t), w, w')
    ensures Plan(parent, t, w')
    decreases t
  {
    assert t.id in Members(t);
    if At(w.st, t.id).cur == At(w.st, t.id).bound {
      BelowDoneFrame(parent, t, w.st, w'.st);
    }
    forall k | 0 <= k < |t.children|
      ensures Plan(parent, t.children[k], w') && NeverSet(At(w'.st, t.children[k].id))
    {
      Apart(t, k);
      PlanFrame(parent, t.children[k], w, w');
    }
  }

  lemma PlanBelowFrame(parent: map<Id, Id>, t: Tree, w: World, w': World)
    requires Distinct(t) && Agrees(t, parent) && PlanBelow(parent, t, w) && SameWorldOff({t.id}, w, w')
    ensures PlanBelow(parent, t, w')
  {
    forall k | 0 <= k < |t.children|
      ensures Plan(parent, t.children[k], w') && NeverSet(At(w'.st, t.children[k].id))
    {
      Apart(t, k);
      PlanFrame(parent, t.children[k], w, w');
    }
  }

  /** The reach of the children is no higher than that of the container. */
  lemma ChildReach(sh: Shape, t: Tree, w: World, k: nat)
    requires Sub(sh.parent, t) && Falling(sh, w) && k < |t.children|
    ensures ReachAt(w.e, t.children[k].id) <= ReachAt(w.e, t.id)
  {
    SubChild(sh.parent, t, k);
  }

  /** A container whose bound is not below its reach may be written before its children. */
  lemma FitsFirst(sh: Shape, t: Tree, w: World)
    requires Sub(sh.parent, t) && t.id in sh.parent && Falling(sh, w)
    requires ReachAt(w.e, t.id) <= At(w.st, t.id).bound <= ReachAt(w.e, sh.parent[t.id])
    ensures Fits(sh, w, t.id)
  {
    forall k | 0 <= k < |t.children|
      ensures ReachAt(w.e, t.children[k].id) <= At(w.st, t.id).bound
    {
      ChildReach(sh, t, w, k);
    }
    FitsAbove(sh, t, w);
  }

  // ---------- after ----------

  /** The kernel has the subtree's bounds, and everything below its top is at rest. */
  ghost predicate Finished(parent: map<Id, Id>, t: Tree, w: World) {
    && (forall y :: y in Members(t) ==>
          ReachAt(w.e, y) == At(w.st, y).bound && At(w.st, y).applied == Target(At(w.st, y)))
    && At(w.st, t.id).cur == At(w.st, t.id).bound
    && BelowDone(parent, t, w.st)
  }

  lemma FinishedFrame(parent: map<Id, Id>, t: Tree, w: World, w': World)
    requires Distinct(t) && Agrees(t, parent) && Finished(parent, t, w) && SameWorldOn(Members(t), w, w')
    ensures Finished(parent, t, w')
  {
    assert t.id in Members(t);
    BelowDoneFrame(parent, t, w.st, w'.st);
  }

  // ---------- in between ----------

  /** The loop over the children of `t` began in world `w0`, has done `i` of them and is now in `w`. */
  ghost predicate ChildrenDone(parent: map<Id, Id>, t: Tree, i: nat, w0: World, w: World) {
    && (forall k :: 0 <= k < |t.children| && k < i ==> Finished(parent, t.children[k], w))
    && (forall k :: i <= k < |t.children| ==> SameWorldOn(Members(t.children[k]), w0, w))
    && SameWorldOff(MembersOf(t.children), w0, w)
  }

  lemma ChildrenDoneStep(parent: map<Id, Id>, t: Tree, i: nat, w0: World, w: World, w': World)
    requires Distinct(t) && Agrees(t, parent) && i < |t.children| && ChildrenDone(parent, t, i, w0, w)
    requires Finished(parent, t.children[i], w') && SameWorldOff(Members(t.children[i]), w, w')
    ensures ChildrenDone(parent, t, i + 1, w0, w')
  {
    ChildOf(t.children, i);
    forall k | 0 <= k < |t.children| && k != i
      ensures SameWorldOn(Members(t.children[k]), w, w')
    {
      SiblingsApart(t, i, k);
    }
    forall k | i + 1 <= k < |t.children|
      ensures SameWorldOn(Members(t.children[k]), w0, w')
    {
      assert SameWorldOn(Members(t.children[k]), w0, w) && SameWorldOn(Members(t.children[k]), w, w');
    }
    forall k | 0 <= k < i
      ensures Finished(parent, t.children[k], w')
    {
      Apart(t, k);
      FinishedFrame(parent, t.children[k], w, w');
    }
  }

  /** The store once `CpuLimitCur` of `x` is set. */
  function CurSet(st: Store, x: Id): Store {
    st[x := At(st, x).(cur := At(st, x).bound)]
  }

  /** Everything below `t` is finished, and at rest as soon as `CpuLimitCur` of `t` is set. */
  ghost predicate BelowFinished(parent: map<Id, Id>, t: Tree, w: World) {
    forall y :: y in MembersOf(t.children) ==>
      ReachAt(w.e, y) == At(w.st, y).bound && Done(parent, y, CurSet(w.st, t.id))
  }

  lemma ChildrenFinished(parent: map<Id, Id>, t: Tree, w: World, y: Id)
    requires Distinct(t) && Agrees(t, parent) && RightBelow(t, w.st) && y in MembersOf(t.children)
    requires forall k :: 0 <= k < |t.children| ==> Finished(parent, t.children[k], w) && NeverSet(At(w.st, t.children[k].id))
    ensures ReachAt(w.e, y) == At(w.st, y).bound && Done(parent, y, CurSet(w.st, t.id))
  {
    var k := ChildWith(t.children, y);
    Apart(t, k);
    var c := t.children[k];
    assert Finished(parent, c, w);
    if y == c.id {
      assert Right(c, At(w.st, t.id).bound, w.st);
    } else {
      assert Done(parent, y, w.st);
      ParentInside(parent, c, y);
    }
  }

  lemma AllChildrenFinished(parent: map<Id, Id>, t: Tree, w: World)
    requires Distinct(t) && Agrees(t, parent) && RightBelow(t, w.st)
    requires forall k :: 0 <= k < |t.children| ==> Finished(parent, t.children[k], w) && NeverSet(At(w.st, t.children[k].id))
    ensures BelowFinished(parent, t, w)
  {
    forall y | y in MembersOf(t.children)
      ensures ReachAt(w.e, y) == At(w.st, y).bound && Done(parent, y, CurSet(w.st, t.id))
    {
      ChildrenFinished(parent, t, w, y);
    }
  }

  /** The reach, with the bounds below `t` in it. */
  function Lowered(e: Reach, t: Tree, st: Store): Reach {
    map y | y in e.Keys + MembersOf(t.children) :: if y in MembersOf(t.children) then At(st, y).bound else ReachAt(e, y)
  }

  /** Where the code stops early the reach below becomes the bounds. */
  lemma SkipFalls(sh: Shape, t: Tree, w: World)
    requires Sub(sh.parent, t) && Falling(sh, w) && RightBelow(t, w.st) && BelowDone(sh.parent, t, w.st)
    requires At(w.st, t.id).bound <= ReachAt(w.e, t.id)
    ensures Falling(sh, World(w.st, Lowered(w.e, t, w.st)))
    ensures forall y :: ReachAt(Lowered(w.e, t, w.st), y) == if y in MembersOf(t.children) then At(w.st, y).bound else ReachAt(w.e, y)
  {
    var e' := Lowered(w.e, t, w.st);
    forall y | y in Members(sh.root)
      ensures At(w.st, y).applied == 0 || At(w.st, y).applied == ReachAt(e', y)
    {
      if y in MembersOf(t.children) {
        assert Done(sh.parent, y, w.st);
      }
    }
    forall y | y in sh.parent
      ensures ReachAt(e', y) <= ReachAt(e', sh.parent[y])
    {
      SkipFallsAt(sh, t, w, y);
    }
  }

  lemma SkipFallsAt(sh: Shape, t: Tree, w: World, y: Id)
    requires Sub(sh.parent, t) && FallsDown(sh.parent, w.e) && RightBelow(t, w.st)
    requires At(w.st, t.id).bound <= ReachAt(w.e, t.id) && y in sh.parent
    ensures ReachAt(Lowered(w.e, t, w.st), y) <= ReachAt(Lowered(w.e, t, w.st), sh.parent[y])
  {
    if y in MembersOf(t.children) {
      RightFalls(sh.parent, t, w.st, y);
      ParentInside(sh.parent, t, y);
    } else if sh.parent[y] in MembersOf(t.children) {
      ChildInside(sh.parent, t, y);
    }
  }

  lemma SkipFinished(sh: Shape, t: Tree, w: World)
    requires Sub(sh.parent, t) && BelowDone(sh.parent, t, w.st) && At(w.st, t.id).cur == At(w.st, t.id).bound
    requires forall y :: y in MembersOf(t.children) ==> ReachAt(w.e, y) == At(w.st, y).bound
    ensures BelowFinished(sh.parent, t, w)
  {
    BelowDoneFrame(sh.parent, t, w.st, CurSet(w.st, t.id));
  }

  /** A container whose children are finished may be written. */
  lemma FitsLast(sh: Shape, t: Tree, w: World)
    requires Sub(sh.parent, t) && t.id in sh.parent && RightBelow(t, w.st) && BelowFinished(sh.parent, t, w)
    requires At(w.st, t.id).bound <= ReachAt(w.e, sh.parent[t.id])
    ensures Fits(sh, w, t.id)
  {
    forall k | 0 <= k < |t.children|
      ensures ReachAt(w.e, t.children[k].id) <= At(w.st, t.id).bound
    {
      Apart(t, k);
      ChildOf(t.children, k);
      assert Right(t.children[k], At(w.st, t.id).bound, w.st);
    }
    FitsAbove(sh, t, w);
  }

  lemma BelowFinishedFrame(parent: map<Id, Id>, t: Tree, w: World, w': World)
    requires Distinct(t) && Agrees(t, parent) && BelowFinished(parent, t, w) && SameWorldOff({t.id}, w, w')
    requires At(w'.st, t.id).bound == At(w.st, t.id).bound
    ensures BelowFinished(parent, t, w')
  {
    forall y | y in MembersOf(t.children)
      ensures ReachAt(w'.e, y) == At(w'.st, y).bound && Done(parent, y, CurSet(w'.st, t.id))
    {
      assert Done(parent, y, CurSet(w.st, t.id));
      ParentInside(parent, t, y);
    }
  }

  lemma FinishTop(parent: map<Id, Id>, t: Tree, w: World)
    requires Distinct(t) && BelowFinished(parent, t, w) && t.id !in MembersOf(t.children)
    requires ReachAt(w.e, t.id) == At(w.st, t.id).bound && At(w.st, t.id).applied == Target(At(w.st, t.id))
    ensures Finished(parent, t, World(CurSet(w.st, t.id), w.e))
  {
    forall y | y in MembersOf(t.children)
      ensures Done(parent, y, CurSet(w.st, t.id)) && ReachAt(w.e, y) == At(w.st, y).bound
    {
    }
  }
}
