/**
 A new container: one more leaf in the tree, below a container that is there.
 */
module TreeGrowth {
  import opened ContainerTree

  function Grown(t: Tree, p: Id, id: Id): Tree
    decreases t, 1
  {
    Tree(t.id, GrownOf(t.children, p, id) + (if t.id == p then [Tree(id, [])] else []))
  }

  function GrownOf(ts: seq<Tree>, p: Id, id: Id): (r: seq<Tree>)
    ensures |r| == |ts|
    decreases ts, 0
  {
    if ts == [] then [] else GrownOf(ts[..|ts| - 1], p, id) + [Grown(ts[|ts| - 1], p, id)]
  }

  lemma {:induction false} GrownAt(ts: seq<Tree>, p: Id, id: Id, k: nat)
    requires k < |ts|
    ensures GrownOf(ts, p, id)[k] == Grown(ts[k], p, id)
    decreases |ts|
  {
    if k < |ts| - 1 {
      GrownAt(ts[..|ts| - 1], p, id, k);
    }
  }

  lemma {:induction false} GrownMembers(t: Tree, p: Id, id: Id)
    ensures Members(Grown(t, p, id)) == Members(t) + (if p in Members(t) then {id} else {})
    decreases t, 1
  {
    GrownMembersOf(t.children, p, id);
    if t.id == p {
      LastMembers(GrownOf(t.children, p, id), Tree(id, []));
    } else {
      assert GrownOf(t.children, p, id) + [] == GrownOf(t.children, p, id);
    }
  }

  lemma LastMembers(ts: seq<Tree>, x: Tree)
    ensures MembersOf(ts + [x]) == MembersOf(ts) + Members(x)
    ensures DistinctOf(ts + [x]) == (DistinctOf(ts) && Distinct(x) && MembersOf(ts) !! Members(x))
  {
    assert (ts + [x])[..|ts + [x]| - 1] == ts;
  }

  lemma {:induction false} GrownMembersOf(ts: seq<Tree>, p: Id, id: Id)
    ensures MembersOf(GrownOf(ts, p, id)) == MembersOf(ts) + (if p in MembersOf(ts) then {id} else {})
    decreases ts, 0
  {
    if ts != [] {
      var rest, last := ts[..|ts| - 1], ts[|ts| - 1];
      GrownMembersOf(rest, p, id);
      GrownMembers(last, p, id);
      LastMembers(GrownOf(rest, p, id), Grown(last, p, id));
    }
  }

  lemma {:induction false} GrownDistinct(t: Tree, p: Id, id: Id)
    requires Distinct(t) && id !in Members(t)
    ensures Distinct(Grown(t, p, id))
    decreases t, 1
  {
    GrownDistinctOf(t.children, p, id);
    GrownMembersOf(t.children, p, id);
    if t.id == p {
      LastMembers(GrownOf(t.children, p, id), Tree(id, []));
    } else {
      assert GrownOf(t.children, p, id) + [] == GrownOf(t.children, p, id);
    }
  }

  lemma {:induction false} GrownDistinctOf(ts: seq<Tree>, p: Id, id: Id)
    requires DistinctOf(ts) && id !in MembersOf(ts)
    ensures DistinctOf(GrownOf(ts, p, id))
    decreases ts, 0
  {
    if ts != [] {
      var rest, last := ts[..|ts| - 1], ts[|ts| - 1];
      GrownDistinctOf(rest, p, id);
      GrownDistinct(last, p, id);
      GrownMembersOf(rest, p, id);
      GrownMembers(last, p, id);
      LastMembers(GrownOf(rest, p, id), Grown(last, p, id));
    }
  }

  lemma {:induction false} GrownAgrees(parent: map<Id, Id>, t: Tree, p: Id, id: Id)
    requires Distinct(t) && Agrees(t, parent) && id !in Members(t)
    ensures Agrees(Grown(t, p, id), parent[id := p])
    decreases t
  {
    var t', parent' := Grown(t, p, id), parent[id := p];
    forall k | 0 <= k < |t'.children|
      ensures t'.children[k].id in parent' && parent'[t'.children[k].id] == t'.id && Agrees(t'.children[k], parent')
    {
      if k < |t.children| {
        GrownAt(t.children, p, id, k);
        Apart(t, k);
        GrownAgrees(parent, t.children[k], p, id);
      }
    }
  }

  lemma {:induction false} GrownComplete(parent: map<Id, Id>, t: Tree, p: Id, id: Id)
    requires Distinct(t) && Complete(t, parent) && id !in Members(t) && id !in parent
    requires id !in parent.Values
    ensures Complete(Grown(t, p, id), parent[id := p])
    decreases t
  {
    var t', parent' := Grown(t, p, id), parent[id := p];
    forall c | c in parent' && parent'[c] == t'.id
      ensures exists k :: 0 <= k < |t'.children| && t'.children[k].id == c
    {
      if c == id {
        assert t'.children[|t.children|].id == c;
      } else {
        var k :| 0 <= k < |t.children| && t.children[k].id == c;
        GrownAt(t.children, p, id, k);
        assert t'.children[k].id == c;
      }
    }
    forall k | 0 <= k < |t'.children|
      ensures Complete(t'.children[k], parent')
    {
      if k < |t.children| {
        GrownAt(t.children, p, id, k);
        Apart(t, k);
        GrownComplete(parent, t.children[k], p, id);
      }
    }
  }

  lemma GrownChildren(t: Tree, p: Id, id: Id)
    ensures MembersOf(Grown(t, p, id).children) == MembersOf(t.children) + (if p in Members(t) then {id} else {})
  {
    GrownMembersOf(t.children, p, id);
    if t.id == p {
      LastMembers(GrownOf(t.children, p, id), Tree(id, []));
    } else {
      assert GrownOf(t.children, p, id) + [] == GrownOf(t.children, p, id);
    }
  }

  lemma NobodyBelowNew(parent: map<Id, Id>, t: Tree, id: Id)
    requires Sub(parent, t) && parent.Keys == MembersOf(t.children) && id !in Members(t)
    ensures id !in parent && id !in parent.Values
  {
    forall c | c in parent
      ensures parent[c] != id
    {
      ParentInside(parent, t, c);
    }
  }

  /** The grown tree is one hierarchy again, with one member more. */
  lemma GrownWhole(parent: map<Id, Id>, t: Tree, p: Id, id: Id)
    requires Sub(parent, t) && t.id !in parent && parent.Keys == MembersOf(t.children)
    requires p in Members(t) && id !in Members(t)
    ensures Sub(parent[id := p], Grown(t, p, id)) && t.id !in parent[id := p]
    ensures parent[id := p].Keys == MembersOf(Grown(t, p, id).children) == MembersOf(t.children) + {id}
  {
    GrownChildren(t, p, id);
    GrownDistinct(t, p, id);
    GrownAgrees(parent, t, p, id);
    NobodyBelowNew(parent, t, id);
    GrownComplete(parent, t, p, id);
    assert t.id in Members(t);
  }
}
