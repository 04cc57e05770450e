/**
 The cgroup of a container (`GetContainerCgroup`) and back (`FindTaskContainer`).
 A hierarchy holds a directory only for the containers enabled in it; the names of
 the others on the path are joined to it with percent signs.
 */
module CgroupNames {
  import opened ContainerNames
  import opened Options

  const PREFIX := "/porto"
  const DAEMON_CGROUP := "/portod"
  const HELPERS_CGROUP := "/portod-helpers"

  /** The kinds of hierarchy; `service` is where systemd put the daemon. */
  datatype Subsystem = Freezer | Cgroup2 | Systemd(service: string) | Other

  function RootCgroup(sub: Subsystem): string {
    if sub.Cgroup2? then PREFIX else "/"
  }

  /** `s` with every `from` replaced by `to`. */
  function Replace(s: string, from: char, to: char): (r: string)
    ensures |r| == |s| && forall i :: 0 <= i < |s| ==> r[i] == if s[i] == from then to else s[i]
  {
    seq(|s|, i requires 0 <= i < |s| => if s[i] == from then to else s[i])
  }

  // ---------- the directory, from the top ----------

  function Joint(ct: Container): char
    requires ct.Child?
  {
    if ct.enabled then '/' else '%'
  }

  /** The path below the prefix, as if the container were enabled. */
  function Relative(ct: Container): string
    requires ct.Child?
  {
    if ct.parent.Root? then ct.first else Relative(ct.parent) + [Joint(ct.parent)] + ct.first
  }

  function Path(ct: Container): string
    requires ct.Child?
  {
    PREFIX + "%" + Relative(ct)
  }

  /** The nearest enabled container at or above, the root if there is none. */
  function Nearest(ct: Container): Container {
    if ct.Root? || ct.enabled then ct else Nearest(ct.parent)
  }

  function CgroupOf(ct: Container): string {
    if ct.Root? then "/" else Path(ct)
  }

  /** Builds the path from the container upwards. */
  method BuildPath(container: Container) returns (cg: string)
    requires Clean(container)
    ensures cg == "" <==> Nearest(container).Root?
    ensures cg != "" ==> cg == Relative(Nearest(container))
  {
    cg := "";
    var ct := container;
    while !ct.Root?
      invariant Clean(ct)
      invariant cg == "" ==> Nearest(ct) == Nearest(container)
      invariant cg != "" ==> Nearest(container).Child?
      invariant cg != "" ==> Relative(Nearest(container)) == if ct.Root? then cg else Relative(ct) + [Joint(ct)] + cg
      decreases ct
    {
      if cg != "" {
        cg := [Joint(ct)] + cg;
      }
      if cg != "" || ct.enabled {
        cg := ct.first + cg;
      }
      ct := ct.parent;
    }
  }

  method GetContainerCgroup(container: Container, sub: Subsystem) returns (path: string)
    requires Clean(container)
    ensures container.Root? ==> path == RootCgroup(sub)
    ensures container.Child? && (sub.Freezer? || sub.Cgroup2?) ==>
              path == PREFIX + "/" + Name(if container.job then container.parent else container)
    ensures container.Child? && sub.Systemd? ==>
              path == if container.enabled then PREFIX + "%" + Replace(Name(container), '/', '%') else sub.service
    ensures container.Child? && sub.Other? ==> path == CgroupOf(Nearest(container))
  {
    if container.Root? {
      return RootCgroup(sub);
    }
    if sub.Freezer? || sub.Cgroup2? {
      return PREFIX + "/" + Name(if container.job then container.parent else container);
    }
    if sub.Systemd? {
      return if container.enabled then PREFIX + "%" + Replace(Name(container), '/', '%') else sub.service;
    }
    var cg := BuildPath(container);
    return if cg == "" then RootCgroup(sub) else PREFIX + "%" + cg;
  }

  // ---------- what the directory says ----------

  lemma ReplaceJoin(s: string, t: string, from: char, to: char)
    ensures Replace(s + t, from, to) == Replace(s, from, to) + Replace(t, from, to)
  {
  }

  /** With percent signs read as slashes the path below the prefix is the name. */
  lemma {:induction false} RelativeIsName(ct: Container)
    requires ct.Child? && Clean(ct)
    ensures Replace(Relative(ct), '%', '/') == Name(ct)
    decreases ct
  {
    assert Replace(ct.first, '%', '/') == ct.first;
    if ct.parent.Child? {
      RelativeIsName(ct.parent);
      ReplaceJoin(Relative(ct.parent) + [Joint(ct.parent)], ct.first, '%', '/');
      ReplaceJoin(Relative(ct.parent), [Joint(ct.parent)], '%', '/');
    }
  }

  /** The name `FindTaskContainer` looks up for a task found in a cgroup. */
  function NameIn(cgroup: string): string {
    var name := Replace(cgroup, '%', '/');
    if PREFIX + "/" <= name then name[|PREFIX| + 1..] else "/"
  }

  predicate Reserved(cgroup: string) {
    cgroup == DAEMON_CGROUP || cgroup == HELPERS_CGROUP
  }

  lemma NameInJoined(joint: char, rest: string)
    requires joint == '/' || joint == '%'
    ensures NameIn(PREFIX + [joint] + rest) == Replace(rest, '%', '/')
    ensures !Reserved(PREFIX + [joint] + rest)
  {
    var cgroup := PREFIX + [joint] + rest;
    ReplaceJoin(PREFIX + [joint], rest, '%', '/');
    assert Replace(PREFIX + [joint], '%', '/') == PREFIX + "/";
    assert cgroup[6] == joint && DAEMON_CGROUP[6] == 'd' && HELPERS_CGROUP[6] == 'd';
  }

  lemma NameInRoot()
    ensures NameIn("/") == "/" && NameIn(PREFIX) == "/"
    ensures !Reserved("/") && !Reserved(PREFIX)
  {
    assert |PREFIX| == 6 && |DAEMON_CGROUP| == 7 && |HELPERS_CGROUP| == 15;
  }

  /** The cgroup of a container leads back to its nearest enabled container at or above. */
  lemma CgroupLeadsBack(ct: Container)
    requires Clean(ct)
    ensures NameIn(CgroupOf(Nearest(ct))) == Name(Nearest(ct)) && !Reserved(CgroupOf(Nearest(ct)))
  {
    NearestClean(ct);
    if Nearest(ct).Root? {
      NameInRoot();
    } else {
      NameInJoined('%', Relative(Nearest(ct)));
      RelativeIsName(Nearest(ct));
    }
  }

  lemma {:induction false} NearestClean(ct: Container)
    requires Clean(ct)
    ensures Clean(Nearest(ct)) && (Nearest(ct).Root? || Nearest(ct).enabled)
    decreases ct
  {
    if ct.Child? && !ct.enabled {
      NearestClean(ct.parent);
    }
  }

  lemma {:induction false} NameHasNoPercent(ct: Container)
    requires Clean(ct)
    ensures '%' !in Name(ct)
    decreases ct
  {
    if ct.Child? {
      NameHasNoPercent(ct.parent);
    }
  }

  /** The freezer (or unified) cgroup leads back to the container itself, to the parent of a job. */
  lemma FreezerLeadsBack(ct: Container)
    requires Clean(ct) && ct.Child?
    ensures var owner := if ct.job then ct.parent else ct;
            NameIn(PREFIX + "/" + Name(owner)) == Name(owner) && !Reserved(PREFIX + "/" + Name(owner))
  {
    var owner := if ct.job then ct.parent else ct;
    NameHasNoPercent(owner);
    NameInJoined('/', Name(owner));
    assert Replace(Name(owner), '%', '/') == Name(owner);
  }

  /** So does the systemd cgroup. */
  lemma SystemdLeadsBack(ct: Container)
    requires Clean(ct) && ct.Child?
    ensures NameIn(PREFIX + "%" + Replace(Name(ct), '/', '%')) == Name(ct)
  {
    NameHasNoPercent(ct);
    NameInJoined('%', Replace(Name(ct), '/', '%'));
    assert Replace(Replace(Name(ct), '/', '%'), '%', '/') == Name(ct);
  }

  // ---------- no two containers share a directory ----------

  lemma SplitAtLast(s: string, x: char, f: string, t: string, y: char, g: string)
    requires s + [x] + f == t + [y] + g && CleanPart(f) && CleanPart(g)
    requires x in "/%" && y in "/%"
    ensures s == t && x == y && f == g
  {
    var whole := s + [x] + f;
    assert whole[|s|] == x && whole[|t|] == y;
    assert forall k :: |s| < k < |whole| ==> whole[k] == f[k - |s| - 1];
    assert forall k :: |t| < k < |whole| ==> whole[k] == g[k - |t| - 1];
    assert s == whole[..|s|] && t == whole[..|t|] && f == whole[|s| + 1..] && g == whole[|t| + 1..];
  }

  /** The path gives away the whole parent chain: every name and what is enabled above. */
  lemma {:induction false} PathIsUnique(a: Container, b: Container)
    requires a.Child? && b.Child? && Clean(a) && Clean(b) && Path(a) == Path(b)
    requires a.enabled == b.enabled
    ensures SameChain(a, b)
    decreases a
  {
    var s := if a.parent.Root? then PREFIX else Path(a.parent);
    var t := if b.parent.Root? then PREFIX else Path(b.parent);
    var x := if a.parent.Root? then '%' else Joint(a.parent);
    var y := if b.parent.Root? then '%' else Joint(b.parent);
    assert Path(a) == s + [x] + a.first && Path(b) == t + [y] + b.first;
    SplitAtLast(s, x, a.first, t, y, b.first);
    if a.parent.Child? && b.parent.Child? {
      PathIsUnique(a.parent, b.parent);
    }
  }

  /** The same names, enabled in the same places, from the root down. */
  predicate SameChain(a: Container, b: Container) {
    if a.Root? || b.Root? then a.Root? && b.Root?
    else a.first == b.first && a.enabled == b.enabled && SameChain(a.parent, b.parent)
  }

  lemma {:induction false} SameChainSameName(a: Container, b: Container)
    requires SameChain(a, b)
    ensures Name(a) == Name(b)
    decreases a
  {
    if a.Child? {
      SameChainSameName(a.parent, b.parent);
    }
  }

  /** Two containers share a cgroup exactly when they have the same nearest enabled container. */
  lemma SharedIff(a: Container, b: Container)
    requires Clean(a) && Clean(b)
    ensures CgroupOf(Nearest(a)) == CgroupOf(Nearest(b)) <==> SameChain(Nearest(a), Nearest(b))
    ensures CgroupOf(Nearest(a)) == CgroupOf(Nearest(b)) ==> Name(Nearest(a)) == Name(Nearest(b))
  {
    NearestClean(a);
    NearestClean(b);
    var m, n := Nearest(a), Nearest(b);
    if m.Child? && n.Child? && Path(m) == Path(n) {
      PathIsUnique(m, n);
    }
    if SameChain(m, n) {
      SameChainSameName(m, n);
      if m.Child? {
        SameChainPath(m, n);
      }
    }
  }

  lemma {:induction false} SameChainPath(a: Container, b: Container)
    requires SameChain(a, b) && a.Child?
    ensures Relative(a) == Relative(b)
    decreases a
  {
    if a.parent.Child? {
      SameChainPath(a.parent, b.parent);
    }
  }

  // ---------- directories nest like containers ----------

  function DirName(path: string): string {
    if LastSlash(path) <= 0 then "/" else path[..LastSlash(path)]
  }

  lemma LastSlashUnique(path: string, k: nat)
    requires k < |path| && path[k] == '/' && forall i :: k < i < |path| ==> path[i] != '/'
    ensures LastSlash(path) == k
  {
  }

  lemma LastSlashIn(path: string, s: string, rest: string)
    requires path == s + "/" + rest && '/' !in rest
    ensures LastSlash(path) == |s|
  {
    forall i | |s| < i < |path|
      ensures path[i] != '/'
    {
      assert path[i] == rest[i - |s| - 1];
    }
    LastSlashUnique(path, |s|);
  }

  /** The path of a container after that of its nearest enabled ancestor: no further directory. */
  lemma {:induction false} PathTail(ct: Container) returns (rest: string)
    requires ct.Child? && Clean(ct)
    ensures '/' !in rest
    ensures Path(ct) == (if Nearest(ct.parent).Root? then "" else Path(Nearest(ct.parent))) + "/" + rest
    decreases ct
  {
    if ct.parent.Root? {
      rest := "porto%" + ct.first;
      assert Path(ct) == "" + "/" + rest;
    } else if ct.parent.enabled {
      rest := ct.first;
      assert Path(ct) == Path(ct.parent) + "/" + rest;
    } else {
      var above := PathTail(ct.parent);
      rest := above + "%" + ct.first;
      assert Path(ct) == Path(ct.parent) + "%" + ct.first;
    }
  }

  /** The directory above the one of a container is the cgroup of its nearest enabled proper ancestor. */
  lemma DirectoryAbove(ct: Container)
    requires ct.Child? && Clean(ct)
    ensures DirName(Path(ct)) == CgroupOf(Nearest(ct.parent))
  {
    var rest := PathTail(ct);
    var above := if Nearest(ct.parent).Root? then "" else Path(Nearest(ct.parent));
    LastSlashIn(Path(ct), above, rest);
  }

  // ---------- looking a name up ----------

  /** `p` is `name` or what is left of it before one of its slashes. */
  predicate NamePrefix(p: string, name: string) {
    p <= name && (|p| < |name| ==> name[|p|] == '/')
  }

  /** The container of that name, or, when not strict, the one with the longest name it starts with. */
  method Find(containers: set<string>, name: string, strict: bool) returns (found: Option<string>)
    ensures strict ==> found == if name in containers then Some(name) else None
    ensures !strict && found.None? ==> forall p :: p in containers && p != "" ==> !NamePrefix(p, name)
    ensures !strict && found.Some? ==> found.value in containers && NamePrefix(found.value, name)
    ensures !strict && found.Some? ==> forall p :: p in containers && NamePrefix(p, name) ==> |p| <= |found.value|
  {
    if strict {
      return if name in containers then Some(name) else None;
    }
    var rest := name;
    while rest != ""
      invariant NamePrefix(rest, name)
      invariant forall p :: p in containers && NamePrefix(p, name) ==> |p| <= |rest|
      decreases |rest|
    {
      if rest in containers {
        return Some(rest);
      }
      var pos := LastSlash(rest);
      forall p | p in containers && NamePrefix(p, name)
        ensures |p| <= pos
      {
        assert p == name[..|p|] && rest == name[..|rest|];
      }
      if pos < 0 {
        break;
      }
      rest := rest[..pos];
    }
    return None;
  }
}
