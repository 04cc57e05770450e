/**
 Changing the cpus of a whole cgroup subtree: `Widen` and `ApplyCgSubtreeCpus`
 against a kernel that enforces the cgroup v1 rules "the cpus of a child are among
 the cpus of its parent" and "no empty cpu set", and refuses everything else.
 */
module CpusetTree {
  import opened ContainerTree

  type Cpus = set<nat>
  type Store = map<Id, Cpus>

  function At(st: Store, y: Id): Cpus {
    if y in st then st[y] else {}
  }

  /** Every cgroup has no more cpus than its parent. */
  predicate Nested(parent: map<Id, Id>, st: Store) {
    forall y {:trigger parent[y]} | y in parent :: At(st, y) <= At(st, parent[y])
  }

  /** No cgroup but these has other cpus. */
  ghost predicate CpusKept(ids: set<Id>, st: Store, st': Store) {
    forall y :: y !in ids ==> At(st, y) == At(st', y)
  }

  /** A set that lies between those of the children and that of the parent may be written. */
  lemma FitsNested(parent: map<Id, Id>, st: Store, x: Id, s: Cpus)
    requires Nested(parent, st)
    requires x in parent ==> parent[x] != x && s <= At(st, parent[x])
    requires forall c :: c in parent && parent[c] == x ==> At(st, c) <= s
    ensures Nested(parent, st[x := s])
  {
  }

  lemma ChildrenFit(t: Tree, parent: map<Id, Id>, st: Store, s: Cpus)
    requires Complete(t, parent)
    requires forall k :: 0 <= k < |t.children| ==> At(st, t.children[k].id) <= s
    ensures forall c :: c in parent && parent[c] == t.id ==> At(st, c) <= s
  {
  }

  /** Below a cgroup everything lies inside its cpus. */
  lemma {:induction false} NestedBelow(t: Tree, parent: map<Id, Id>, st: Store, y: Id)
    requires Distinct(t) && Agrees(t, parent) && Nested(parent, st) && y in Members(t)
    ensures At(st, y) <= At(st, t.id)
    decreases t
  {
    if y != t.id {
      var k := ChildWith(t.children, y);
      Apart(t, k);
      NestedBelow(t.children[k], parent, st, y);
      assert parent[t.children[k].id] == t.id;
    }
  }

  /** Children that were done stay done while the next one is worked on. */
  lemma DoneStays(t: Tree, i: nat, target: Cpus, st: Store, st': Store)
    requires Distinct(t) && i < |t.children| && CpusKept(Members(t.children[i]), st, st')
    requires forall k :: 0 <= k < i ==> At(st, t.children[k].id) == target
    ensures forall k :: 0 <= k < i ==> At(st', t.children[k].id) == target
    ensures At(st', t.id) == At(st, t.id)
  {
    Apart(t, i);
    forall k | 0 <= k < i
      ensures At(st', t.children[k].id) == target
    {
      Apart(t, k);
      SiblingsApart(t, k, i);
    }
  }

  class Cpuset {
    const parent: map<Id, Id>
    var cpus: Store

    constructor (parent: map<Id, Id>, cpus: Store)
      ensures this.parent == parent && this.cpus == cpus
    {
      this.parent, this.cpus := parent, cpus;
    }

    /** The kernel's side of a write. */
    method SetCpus(x: Id, s: Cpus) returns (ok: bool)
      modifies this
      ensures ok == (s != {} && Nested(parent, old(cpus)[x := s]))
      ensures cpus == if ok then old(cpus)[x := s] else old(cpus)
    {
      ok := s != {} && Nested(parent, cpus[x := s]);
      if ok {
        cpus := cpus[x := s];
      }
    }

    /** Adds the target to what the cgroup has; `wide` is the new value of the caller's `current`. */
    method Widen(t: Tree, current: Cpus, target: Cpus) returns (ok: bool, wide: Cpus)
      requires Sub(parent, t) && Nested(parent, cpus) && current == At(cpus, t.id) && target != {}
      requires t.id in parent ==> target <= At(cpus, parent[t.id])
      modifies this
      ensures ok && Nested(parent, cpus) && wide == current + target == At(cpus, t.id)
      ensures CpusKept({t.id}, old(cpus), cpus)
    {
      if target <= current {
        return true, current;
      }
      wide := current + target;
      forall k | 0 <= k < |t.children|
        ensures At(cpus, t.children[k].id) <= wide
      {
        assert parent[t.children[k].id] == t.id;
      }
      Fit(t, wide);
      ok := SetCpus(t.id, wide);
    }

    lemma Fit(t: Tree, s: Cpus)
      requires Sub(parent, t) && Nested(parent, cpus)
      requires t.id in parent ==> s <= At(cpus, parent[t.id])
      requires forall k :: 0 <= k < |t.children| ==> At(cpus, t.children[k].id) <= s
      ensures Nested(parent, cpus[t.id := s])
    {
      assert t.id in Members(t);
      ChildrenFit(t, parent, cpus, s);
      FitsNested(parent, cpus, t.id, s);
    }

    /**
     From any nested hierarchy, and for any non-empty target inside the parent's cpus: no write is refused, so
     the rules hold after every write; the cgroup ends with the target, everything below it inside the target.
     */
    method ApplyCgSubtreeCpus(t: Tree, target: Cpus) returns (ok: bool)
      requires Sub(parent, t) && Nested(parent, cpus) && target != {}
      requires t.id in parent ==> target <= At(cpus, parent[t.id])
      modifies this
      ensures ok && Nested(parent, cpus) && At(cpus, t.id) == target
      ensures forall y :: y in Members(t) ==> At(cpus, y) <= target
      ensures CpusKept(Members(t), old(cpus), cpus)
      decreases t
    {
      var current := At(cpus, t.id);
      if target == current {
        ok := true;
      } else if t.children == [] {
        Fit(t, target);
        ok := SetCpus(t.id, target);
      } else {
        ok, current := Widen(t, current, target);
        if !ok {
          return;
        }
        ok := ApplyChildren(t, target);
        if !ok {
          return;
        }
        if current != target {
          Fit(t, target);
          ok := SetCpus(t.id, target);
        }
      }
      forall y | y in Members(t)
        ensures At(cpus, y) <= At(cpus, t.id)
      {
        NestedBelow(t, parent, cpus, y);
      }
    }

    /** The loop over the children, whose parent has been widened. */
    method ApplyChildren(t: Tree, target: Cpus) returns (ok: bool)
      requires Sub(parent, t) && Nested(parent, cpus) && target != {} && target <= At(cpus, t.id)
      modifies this
      ensures ok && Nested(parent, cpus)
      ensures forall k :: 0 <= k < |t.children| ==> At(cpus, t.children[k].id) == target
      ensures CpusKept(MembersOf(t.children), old(cpus), cpus)
      decreases t, 0
    {
      ok := true;
      for i := 0 to |t.children|
        invariant ok && Nested(parent, cpus) && At(cpus, t.id) == At(old(cpus), t.id)
        invariant forall k :: 0 <= k < i ==> At(cpus, t.children[k].id) == target
        invariant CpusKept(MembersOf(t.children), old(cpus), cpus)
      {
        ghost var was := cpus;
        SubChild(parent, t, i);
        ok := ApplyCgSubtreeCpus(t.children[i], target);
        if !ok {
          return;
        }
        DoneStays(t, i, target, was, cpus);
      }
    }
  }
}
