/**
 Addresses in the container tree.

 A container is addressed by the ids met on the way down from the root
 container, whose own address is the empty sequence. `Parent` pointers never
 change during the life of a container, so an address never changes either, and
 "is a strict ancestor of" is "is a proper prefix of".
 */
module ContainerPaths {

  type Path = seq<nat>

  /** `a` is a strict ancestor of `c`. */
  predicate Above(a: Path, c: Path) {
    a < c
  }

  /** `a` is `c` or a strict ancestor of `c`. */
  predicate AtOrAbove(a: Path, c: Path) {
    a == c || Above(a, c)
  }

  /** The address of the parent container. */
  function ParentOf(c: Path): Path
    requires c != []
  {
    c[..|c| - 1]
  }

  lemma AboveTransitive(a: Path, b: Path, c: Path)
    requires AtOrAbove(a, b) && AtOrAbove(b, c)
    ensures AtOrAbove(a, c)
    ensures Above(a, b) || Above(b, c) ==> Above(a, c)
  {
  }

  /** The strict ancestors of a container are its parent and the parent's strict ancestors. */
  lemma AncestorsOfChild(a: Path, c: Path)
    requires c != []
    ensures Above(ParentOf(c), c)
    ensures Above(a, c) <==> AtOrAbove(a, ParentOf(c))
  {
    var p := ParentOf(c);
    if Above(a, c) && |a| == |p| {
      assert a == c[..|a|] == p;
    }
  }
}
