/**
 Container names: which ones are accepted, and how the name of a container is made
 of the names on its path from the root.
 */
module ContainerNames {
  const NAME_MAX := 128
  const PATH_MAX := 200
  const PATH_MAX_FOR_SUPERUSER := 220

  // ---------- accepted names ----------

  predicate Separator(c: char) {
    c == '/' || c == '\0'
  }

  predicate Plain(c: char) {
    'a' <= c <= 'z' || 'A' <= c <= 'Z' || '0' <= c <= '9' || c in "_-@:."
  }

  /** `name[a..b]` is a whole component of the name. */
  predicate IsPart(name: string, a: nat, b: nat) {
    && a <= b <= |name|
    && (a == 0 || Separator(name[a - 1])) && (b == |name| || Separator(name[b]))
    && forall i :: a <= i < b ==> !Separator(name[i])
  }

  predicate GoodPart(part: string) {
    0 < |part| <= NAME_MAX && part != "self" && part != "."
  }

  ghost predicate GoodName(name: string, max: nat) {
    && 0 < |name| <= max
    && (forall i :: 0 <= i < |name| ==> Separator(name[i]) || Plain(name[i]))
    && (forall a: nat, b: nat :: IsPart(name, a, b) ==> GoodPart(name[a..b]))
  }

  function PathMax(superuser: bool): nat {
    if superuser then PATH_MAX_FOR_SUPERUSER else PATH_MAX
  }

  /** A nul inside the name counts as a separator, like the one at its end. */
  method ValidName(name: string, superuser: bool) returns (ok: bool)
    ensures ok <==> name == "/" || GoodName(name, PathMax(superuser))
  {
    if |name| == 0 || |name| > PathMax(superuser) {
      return false;
    }
    if name[0] == '/' {
      assert IsPart(name, 0, 0) && name[0..0] == "";
      return name == "/";
    }
    var first := 0;
    for i := 0 to |name| + 1
      invariant first <= i && (first == 0 || first > |name| || Separator(name[first - 1]))
      invariant forall k :: first <= k < i && k < |name| ==> !Separator(name[k])
      invariant i == |name| + 1 ==> first == i
      invariant forall k :: 0 <= k < i && k < |name| ==> Separator(name[k]) || Plain(name[k])
      invariant forall a: nat, b: nat :: IsPart(name, a, b) && b < i ==> GoodPart(name[a..b])
    {
      var c := if i < |name| then name[i] else '\0';
      if Separator(c) {
        assert IsPart(name, first, i);
        if !GoodPart(name[first..i]) {
          return false;
        }
        forall a: nat, b: nat | IsPart(name, a, b) && b < i + 1
          ensures GoodPart(name[a..b])
        {
          if b == i {
            assert a == first;
          }
        }
        first := i + 1;
      } else if !Plain(c) {
        return false;
      }
    }
    return true;
  }

  // ---------- parents ----------

  /** The last slash, or -1. */
  function LastSlash(name: string): (r: int)
    ensures -1 <= r < |name| && (r >= 0 ==> name[r] == '/')
    ensures forall i :: r < i < |name| ==> name[i] != '/'
  {
    if name == "" then -1
    else if name[|name| - 1] == '/' then |name| - 1
    else LastSlash(name[..|name| - 1])
  }

  function ParentName(name: string): string {
    if LastSlash(name) < 0 then "/" else name[..LastSlash(name)]
  }

  /** The name of a container without that of its parent. */
  function FirstName(parent: string, name: string): string
    requires parent != "/" ==> |parent| < |name|
  {
    if parent == "/" then name else name[|parent| + 1..]
  }

  lemma NoEmptyPart(name: string, max: nat, a: nat)
    requires GoodName(name, max) && a <= |name|
    ensures !IsPart(name, a, a)
  {
    assert name[a..a] == "";
  }

  /** The parent of an accepted name is accepted. */
  lemma ParentIsGood(name: string, max: nat)
    requires GoodName(name, max)
    ensures ParentName(name) == "/" || GoodName(ParentName(name), max)
  {
    var k := LastSlash(name);
    if k >= 0 {
      var parent := name[..k];
      NoEmptyPart(name, max, 0);
      forall a: nat, b: nat | IsPart(parent, a, b)
        ensures GoodPart(parent[a..b])
      {
        assert forall i :: 0 <= i < |parent| ==> parent[i] == name[i];
        assert IsPart(name, a, b);
        assert parent[a..b] == name[a..b];
      }
    }
  }

  /** An accepted name is its parent's, a slash, and a first name without slash or percent sign. */
  lemma GoodSplit(name: string, max: nat)
    requires GoodName(name, max)
    ensures var parent := ParentName(name);
            if LastSlash(name) < 0 then parent == "/"
            else 0 < |parent| < |name| && parent != "/" && name == parent + "/" + FirstName(parent, name)
    ensures CleanPart(FirstName(ParentName(name), name))
  {
    NoEmptyPart(name, max, 0);
    NoEmptyPart(name, max, |name|);
    var k := LastSlash(name);
    if k >= 0 {
      assert name[0] != '/';
      assert name[..k][0] == name[0];
      assert name == name[..k] + "/" + name[k + 1..];
    }
  }

  // ---------- containers ----------

  /** A container as its parent chain; `enabled` and `job` are its settings where its cgroup is looked up. */
  datatype Container = Root | Child(parent: Container, first: string, enabled: bool, job: bool)

  function Name(ct: Container): string {
    match ct
    case Root => "/"
    case Child(Root, first, _, _) => first
    case Child(parent, first, _, _) => Name(parent) + "/" + first
  }

  predicate CleanPart(first: string) {
    first != "" && forall i :: 0 <= i < |first| ==> first[i] != '/' && first[i] != '%'
  }

  predicate Clean(ct: Container) {
    ct.Root? || (CleanPart(ct.first) && Clean(ct.parent))
  }

  /** The container that creating `name`, after its parents, leads to. */
  ghost function Created(name: string, max: nat, enabled: string -> bool, job: string -> bool): Container
    requires GoodName(name, max)
    decreases |name|
  {
    ParentIsGood(name, max);
    var parent := ParentName(name);
    Child(if parent == "/" then Root else Created(parent, max, enabled, job),
          FirstName(parent, name), enabled(name), job(name))
  }

  /** Its name is the one it was created with, and none of its components holds a slash or a percent sign. */
  lemma {:induction false} CreatedName(name: string, max: nat, enabled: string -> bool, job: string -> bool)
    requires GoodName(name, max)
    ensures Name(Created(name, max, enabled, job)) == name && Clean(Created(name, max, enabled, job))
    decreases |name|
  {
    GoodSplit(name, max);
    ParentIsGood(name, max);
    if LastSlash(name) >= 0 {
      CreatedName(ParentName(name), max, enabled, job);
    }
  }
}
