/**
 A limit that the kernel refuses: a container without a limit runs above one that is
 limited to 8, and is then limited to 4. Creating, starting and limiting containers
 leads there.
 */
module CpuLimitWitness {
  import opened ContainerTree
  import opened TreeGrowth
  import opened CpuBounds
  import opened CpuQuota
  import opened CpuPlan
  import opened CpuSteady
  import opened CpuLimit

  const LEAF := Tree(2, [])
  const LONE := Tree(1, [])
  const MIDDLE := Tree(1, [LEAF])
  const FIRST := Shape(Tree(0, [LONE]), map[1 := 0])
  const HOST := Shape(Tree(0, [MIDDLE]), map[1 := 0, 2 := 1])

  // ---------- the shapes ----------

  lemma FirstShape()
    ensures Shape(Grown(Tree(0, []), 0, 1), map[][1 := 0]) == FIRST
  {
    assert GrownOf([], 0, 1) == [];
  }

  lemma HostShape()
    ensures Shape(Grown(FIRST.root, 1, 2), FIRST.parent[2 := 1]) == HOST
  {
    assert [LONE][..0] == [] && GrownOf([], 1, 2) == [];
    assert Grown(LONE, 1, 2) == MIDDLE;
    assert GrownOf([LONE], 1, 2) == [MIDDLE];
  }

  lemma FirstMembers()
    ensures Members(Tree(0, [])) == {0} && Members(FIRST.root) == {0, 1} && MembersOf(FIRST.root.children) == {1}
    ensures Inner(FIRST, LONE)
  {
    assert MembersOf([]) == {};
    assert [LONE][..0] == [];
    assert FIRST.root.children[0] == LONE && Within(LONE, LONE) && Within(LONE, FIRST.root);
    assert Members(LONE) == {1};
  }

  lemma HostMembers()
    ensures MembersOf(MIDDLE.children) == {2} && MembersOf(HOST.root.children) == {1, 2}
    ensures Members(LEAF) == {2} && MembersOf(LEAF.children) == {}
    ensures Inner(HOST, MIDDLE) && Inner(HOST, LEAF)
  {
    assert MembersOf([]) == {};
    assert [LEAF][..0] == [] && [MIDDLE][..0] == [];
    assert HOST.root.children[0] == MIDDLE && MIDDLE.children[0] == LEAF;
    assert Within(LEAF, LEAF) && Within(LEAF, MIDDLE) && Within(LEAF, HOST.root);
    assert Within(MIDDLE, MIDDLE) && Within(MIDDLE, HOST.root);
  }

  // ---------- what is known of the containers on the way ----------

  /** The root container, and a running container below it that never had a limit. */
  predicate Above(st: Store) {
    && At(st, 0).limit == 16
    && At(st, 1).running && At(st, 1).cpu && !At(st, 1).isSet
  }

  method FirstCreated() returns (c: CpuLimits)
    ensures fresh(c) && Steady(c.sh, c.node) && c.sh == FIRST && At(c.node, 0).limit == 16 && At(c.node, 0).running
    ensures At(c.node, 1).cpu && !At(c.node, 1).isSet && !At(c.node, 1).running
  {
    c := new CpuLimits(0, 16);
    FirstShape();
    FirstMembers();
    assert c.sh.parent == map[];
    c.Create(0, 1);
  }

  /** One running container below the root. */
  method FirstStarted() returns (c: CpuLimits)
    ensures fresh(c) && Steady(c.sh, c.node) && c.sh == FIRST && Above(c.node)
  {
    FirstMembers();
    c := FirstCreated();
    var ok := c.Start(LONE);
  }

  method SecondCreated() returns (c: CpuLimits)
    ensures fresh(c) && Steady(c.sh, c.node) && c.sh == HOST && Above(c.node) && !At(c.node, 2).running
  {
    c := FirstStarted();
    HostShape();
    FirstMembers();
    c.Create(1, 2);
  }

  method SecondLimited() returns (c: CpuLimits)
    ensures fresh(c) && Steady(c.sh, c.node) && c.sh == HOST && Above(c.node) && !At(c.node, 2).running
    ensures At(c.node, 2).limit == 8 && At(c.node, 2).cpu
  {
    HostMembers();
    c := SecondCreated();
    var r := c.ChangeLimit(LEAF, 8);
  }

  /** Two running containers; the lower one is limited to 8. */
  method SecondStarted() returns (c: CpuLimits)
    ensures fresh(c) && Steady(c.sh, c.node) && c.sh == HOST && Above(c.node)
    ensures At(c.node, 2).limit == 8 && At(c.node, 2).cpu && At(c.node, 2).running
  {
    HostMembers();
    c := SecondLimited();
    var ok := c.Start(LEAF);
  }

  /** In such a tree the lower container has its limit, and nothing was ever applied to the upper one. */
  lemma KernelHasEight(st: Store)
    requires Steady(HOST, st) && Above(st) && At(st, 2).limit == 8 && At(st, 2).cpu && At(st, 2).running
    ensures At(st, 1).cur == 0 && At(st, 1).limit == 0 && At(st, 1).applied == 0 && At(st, 2).applied == 8
    ensures RefusedAt(HOST, MIDDLE, 4, st)
  {
    HostMembers();
    assert Rest(HOST.parent, 1, st) && Rest(HOST.parent, 2, st);
    RightFalls(HOST.parent, HOST.root, st, 1);
    RightFalls(HOST.parent, HOST.root, st, 2);
    assert 2 in MembersOf(MIDDLE.children) && At(st, 2).applied == 8;
  }

  /** A limit of 4 is refused there, and everything stays as it was. */
  method LimitRefused() returns (c: CpuLimits, r: Outcome)
    ensures fresh(c) && Steady(c.sh, c.node) && c.sh == HOST && r == Refused
    ensures At(c.node, 1).limit == 0 && At(c.node, 1).applied == 0 && At(c.node, 2).applied == 8
  {
    HostMembers();
    c := SecondStarted();
    KernelHasEight(c.node);
    r := c.ChangeLimit(MIDDLE, 4);
  }
}
