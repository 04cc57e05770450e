/**
 The shape of a container subtree: ids and `Children` lists. The lists change
 only under the containers mutex, so one operation sees one shape.
 */
module ContainerTree {

  type Id = nat

  datatype Tree = Tree(id: Id, children: seq<Tree>)

  function Members(t: Tree): set<Id>
    decreases t, 1
  {
    MembersOf(t.children) + {t.id}
  }

  function MembersOf(ts: seq<Tree>): set<Id>
    decreases ts, 0
  {
    if ts == [] then {} else MembersOf(ts[..|ts| - 1]) + Members(ts[|ts| - 1])
  }

  /** Every container of the subtree has an id of its own. */
  predicate Distinct(t: Tree)
    decreases t, 1
  {
    t.id !in MembersOf(t.children) && DistinctOf(t.children)
  }

  predicate DistinctOf(ts: seq<Tree>)
    decreases ts, 0
  {
    ts == [] ||
    (DistinctOf(ts[..|ts| - 1]) && Distinct(ts[|ts| - 1]) && MembersOf(ts[..|ts| - 1]) !! Members(ts[|ts| - 1]))
  }

  function Size(t: Tree): nat
    decreases t, 1
  {
    1 + SizeOf(t.children)
  }

  function SizeOf(ts: seq<Tree>): nat
    decreases ts, 0
  {
    if ts == [] then 0 else SizeOf(ts[..|ts| - 1]) + Size(ts[|ts| - 1])
  }

  /** The containers of a subtree in depth-first order, children before their parent. */
  function PostOrder(t: Tree): seq<Id>
    decreases t, 1
  {
    PostOrderOf(t.children) + [t.id]
  }

  function PostOrderOf(ts: seq<Tree>): seq<Id>
    decreases ts, 0
  {
    if ts == [] then [] else PostOrderOf(ts[..|ts| - 1]) + PostOrder(ts[|ts| - 1])
  }

  lemma {:induction false} SizeOfAppend(a: seq<Tree>, b: seq<Tree>)
    ensures SizeOf(a + b) == SizeOf(a) + SizeOf(b)
    decreases |b|
  {
    if b == [] {
      assert a + b == a;
    } else {
      var n := |b| - 1;
      assert (a + b)[..|a + b| - 1] == a + b[..n];
      SizeOfAppend(a, b[..n]);
    }
  }

  lemma PostOrderOfSnoc(ts: seq<Tree>, x: Tree)
    ensures PostOrderOf(ts + [x]) == PostOrderOf(ts) + PostOrder(x)
  {
    assert (ts + [x])[..|ts + [x]| - 1] == ts;
  }

  lemma {:induction false} PostOrderOfAppend(a: seq<Tree>, b: seq<Tree>)
    ensures PostOrderOf(a + b) == PostOrderOf(a) + PostOrderOf(b)
    decreases |b|
  {
    if b == [] {
      assert a + b == a;
    } else {
      var rest, last := b[..|b| - 1], b[|b| - 1];
      assert b == rest + [last];
      assert a + b == (a + rest) + [last];
      PostOrderOfAppend(a, rest);
      PostOrderOfSnoc(a + rest, last);
      PostOrderOfSnoc(rest, last);
    }
  }

  // ---------- each member once ----------

  ghost predicate NoRepeats(s: seq<Id>) {
    forall i, j :: 0 <= i < j < |s| ==> s[i] != s[j]
  }

  lemma NoRepeatsAppend(a: seq<Id>, b: seq<Id>)
    requires NoRepeats(a) && NoRepeats(b) && forall x :: x in a ==> x !in b
    ensures NoRepeats(a + b)
  {
    forall i, j | 0 <= i < j < |a + b|
      ensures (a + b)[i] != (a + b)[j]
    {
      if i < |a| <= j {
        assert a[i] in a && b[j - |a|] in b;
      }
    }
  }

  lemma {:induction false} PostOrderMembers(t: Tree)
    ensures forall x :: x in PostOrder(t) <==> x in Members(t)
    ensures Distinct(t) ==> NoRepeats(PostOrder(t))
    decreases t, 1
  {
    PostOrderMembersOf(t.children);
  }

  lemma {:induction false} PostOrderMembersOf(ts: seq<Tree>)
    ensures forall x :: x in PostOrderOf(ts) <==> x in MembersOf(ts)
    ensures DistinctOf(ts) ==> NoRepeats(PostOrderOf(ts))
    decreases ts, 0
  {
    if ts != [] {
      PostOrderMembersOf(ts[..|ts| - 1]);
      PostOrderMembers(ts[|ts| - 1]);
      if DistinctOf(ts) {
        NoRepeatsAppend(PostOrderOf(ts[..|ts| - 1]), PostOrder(ts[|ts| - 1]));
      }
    }
  }

  // ---------- children ----------

  lemma {:induction false} ChildOf(ts: seq<Tree>, k: nat)
    requires k < |ts|
    ensures Members(ts[k]) <= MembersOf(ts)
    ensures DistinctOf(ts) ==> Distinct(ts[k])
    decreases |ts|
  {
    if k < |ts| - 1 {
      ChildOf(ts[..|ts| - 1], k);
    }
  }

  lemma {:induction false} SiblingsOf(ts: seq<Tree>, j: nat, k: nat)
    requires DistinctOf(ts) && j < k < |ts|
    ensures Members(ts[j]) !! Members(ts[k])
    decreases |ts|
  {
    var rest := ts[..|ts| - 1];
    if k < |ts| - 1 {
      SiblingsOf(rest, j, k);
    } else {
      ChildOf(rest, j);
    }
  }

  /** A container is not in its children's subtrees. */
  lemma Apart(t: Tree, k: nat)
    requires Distinct(t) && k < |t.children|
    ensures Distinct(t.children[k]) && t.id !in Members(t.children[k]) && Members(t.children[k]) <= Members(t)
    ensures t.children[k].id in Members(t.children[k])
  {
    ChildOf(t.children, k);
  }

  /** The subtrees of two children are disjoint. */
  lemma SiblingsApart(t: Tree, j: nat, k: nat)
    requires Distinct(t) && j < |t.children| && k < |t.children| && j != k
    ensures Members(t.children[j]) !! Members(t.children[k])
  {
    SiblingsOf(t.children, if j < k then j else k, if j < k then k else j);
  }

  lemma {:induction false} ChildWith(ts: seq<Tree>, y: Id) returns (k: nat)
    requires y in MembersOf(ts)
    ensures k < |ts| && y in Members(ts[k])
    decreases |ts|
  {
    var n := |ts| - 1;
    if y in Members(ts[n]) {
      k := n;
    } else {
      k := ChildWith(ts[..n], y);
    }
  }

  // ---------- subtrees ----------

  /** `x` is `t` or hangs below it. */
  predicate Within(x: Tree, t: Tree)
    decreases t
  {
    x == t || exists k :: 0 <= k < |t.children| && Within(x, t.children[k])
  }

  lemma {:induction false} WithinMembers(x: Tree, t: Tree)
    requires Within(x, t)
    ensures Members(x) <= Members(t)
    ensures Distinct(t) ==> Distinct(x)
    decreases t
  {
    if x != t {
      var k :| 0 <= k < |t.children| && Within(x, t.children[k]);
      WithinMembers(x, t.children[k]);
      ChildOf(t.children, k);
    }
  }

  lemma {:induction false} PostOrderBlockOf(ts: seq<Tree>, k: nat) returns (a: seq<Id>, b: seq<Id>)
    requires k < |ts|
    ensures PostOrderOf(ts) == a + PostOrder(ts[k]) + b
  {
    a, b := PostOrderOf(ts[..k]), PostOrderOf(ts[k + 1..]);
    PostOrderOfAppend(ts[..k] + [ts[k]], ts[k + 1..]);
    PostOrderOfAppend(ts[..k], [ts[k]]);
    assert ts == ts[..k] + [ts[k]] + ts[k + 1..];
    assert [ts[k]][..0] == [];
    assert PostOrderOf([ts[k]]) == PostOrder(ts[k]);
  }

  /** Every subtree is one block of the order, and the block ends with the subtree's root. */
  lemma {:induction false} PostOrderBlock(x: Tree, t: Tree) returns (a: seq<Id>, b: seq<Id>)
    requires Within(x, t)
    ensures PostOrder(t) == a + PostOrder(x) + b
    decreases t
  {
    if x == t {
      a, b := [], [];
    } else {
      var k :| 0 <= k < |t.children| && Within(x, t.children[k]);
      var c, d := PostOrderBlockOf(t.children, k);
      a, b := PostOrderBlock(x, t.children[k]);
      a, b := c + a, b + d + [t.id];
      assert PostOrder(t) == a + PostOrder(x) + b;
    }
  }

  // ---------- parents ----------

  /** The `Parent` pointers inside the subtree, as a map, agree with the `Children` lists. */
  predicate Agrees(t: Tree, parent: map<Id, Id>)
    decreases t, 1
  {
    forall k :: 0 <= k < |t.children| ==>
      && t.children[k].id in parent && parent[t.children[k].id] == t.id
      && Agrees(t.children[k], parent)
  }

  /** `Children` lists miss nobody whose `Parent` they should list. */
  ghost predicate Complete(t: Tree, parent: map<Id, Id>)
    decreases t
  {
    && (forall c :: c in parent && parent[c] == t.id ==> exists k :: 0 <= k < |t.children| && t.children[k].id == c)
    && forall k :: 0 <= k < |t.children| ==> Complete(t.children[k], parent)
  }

  /** In the order every container but the last one stands before its parent. */
  lemma {:induction false} ParentLater(t: Tree, parent: map<Id, Id>, i: nat)
    requires Agrees(t, parent) && i < |PostOrder(t)| - 1
    ensures PostOrder(t)[i] in parent && parent[PostOrder(t)[i]] in PostOrder(t)[i + 1..]
    decreases t, |t.children| + 1
  {
    var front := PostOrderOf(t.children);
    assert t.children[..|t.children|] == t.children;
    ParentLaterOf(t, parent, i, |t.children|);
    assert PostOrder(t)[i] == front[i];
    assert PostOrder(t)[i + 1..] == front[i + 1..] + [t.id];
  }

  lemma {:induction false} ParentLaterOf(t: Tree, parent: map<Id, Id>, i: nat, n: nat)
    requires Agrees(t, parent) && n <= |t.children| && i < |PostOrderOf(t.children[..n])|
    ensures var x := PostOrderOf(t.children[..n])[i];
            x in parent && (parent[x] == t.id || parent[x] in PostOrderOf(t.children[..n])[i + 1..])
    decreases t, n
  {
    var ts := t.children[..n];
    assert ts[..n - 1] == t.children[..n - 1];
    var front := PostOrderOf(t.children[..n - 1]);
    if i < |front| {
      ParentLaterOf(t, parent, i, n - 1);
      assert PostOrderOf(ts)[i + 1..] == front[i + 1..] + PostOrder(ts[n - 1]);
    } else {
      var c := ts[n - 1];
      var j := i - |front|;
      if j < |PostOrder(c)| - 1 {
        ParentLater(c, parent, j);
        assert PostOrderOf(ts)[i + 1..] == PostOrder(c)[j + 1..];
      } else {
        assert PostOrder(c)[j] == c.id;
      }
    }
  }

  /** `t` is a subtree of the hierarchy, or all of it. */
  ghost predicate Sub(parent: map<Id, Id>, t: Tree) {
    && Distinct(t) && Agrees(t, parent) && Complete(t, parent)
    && (t.id in parent ==> parent[t.id] !in Members(t))
  }

  lemma SubChild(parent: map<Id, Id>, t: Tree, k: nat)
    requires Sub(parent, t) && k < |t.children|
    ensures Sub(parent, t.children[k]) && t.children[k].id in parent && parent[t.children[k].id] == t.id
    ensures Members(t.children[k]) <= MembersOf(t.children)
  {
    Apart(t, k);
    ChildOf(t.children, k);
  }

  lemma {:induction false} WithinSub(parent: map<Id, Id>, x: Tree, t: Tree)
    requires Sub(parent, t) && Within(x, t) && x != t
    ensures Sub(parent, x) && x.id in parent && parent[x.id] in Members(t)
    ensures Members(x) <= MembersOf(t.children) && t.id !in Members(x)
    decreases t
  {
    var k :| 0 <= k < |t.children| && Within(x, t.children[k]);
    SubChild(parent, t, k);
    Apart(t, k);
    if x != t.children[k] {
      WithinSub(parent, x, t.children[k]);
    }
  }

  /** A proper member of a subtree has its parent in the subtree. */
  lemma {:induction false} ParentInside(parent: map<Id, Id>, t: Tree, y: Id)
    requires Distinct(t) && Agrees(t, parent) && y in MembersOf(t.children)
    ensures y in parent && parent[y] in Members(t) && y != t.id
    decreases t
  {
    var k := ChildWith(t.children, y);
    Apart(t, k);
    if y != t.children[k].id {
      ParentInside(parent, t.children[k], y);
    }
  }

  /** Whoever has its parent in a subtree is in the subtree. */
  lemma {:induction false} ChildInside(parent: map<Id, Id>, t: Tree, y: Id)
    requires Sub(parent, t) && y in parent && parent[y] in Members(t)
    ensures y in MembersOf(t.children)
    decreases t
  {
    if parent[y] == t.id {
      var k :| 0 <= k < |t.children| && t.children[k].id == y;
      Apart(t, k);
      ChildOf(t.children, k);
    } else {
      var k := ChildWith(t.children, parent[y]);
      SubChild(parent, t, k);
      ChildInside(parent, t.children[k], y);
    }
  }
}
