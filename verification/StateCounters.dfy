/**
 The per-container counters of running and starting descendants, and who is told
 when a container changes its state (`SetState`).
 */
module StateCounters {
  import opened ContainerPaths

  datatype State = Stopped | Dead | Respawning | Starting | Running | Stopping | Paused | Meta | Destroyed

  type States = map<Path, State>
  type Counter = map<Path, int>

  /** The strict descendants of `p` in state `s`. */
  function Below(states: States, p: Path, s: State): set<Path> {
    set q | q in states && Above(p, q) && states[q] == s
  }

  function Number(states: States, p: Path, s: State): nat {
    |Below(states, p, s)|
  }

  ghost predicate Counts(states: States, counter: Counter, s: State) {
    counter.Keys == states.Keys && forall p :: p in states ==> counter[p] == Number(states, p, s)
  }

  ghost predicate Closed(states: States) {
    [] in states && forall p :: p in states && p != [] ==> ParentOf(p) in states
  }

  lemma {:induction false} AncestorsThere(states: States, c: Path, p: Path)
    requires Closed(states) && c in states && Above(p, c)
    ensures p in states
    decreases |c|
  {
    AncestorsOfChild(p, c);
    if p != ParentOf(c) {
      AncestorsThere(states, ParentOf(c), p);
    }
  }

  lemma AncestorsCounted(states: States, counter: Counter, c: Path)
    requires Closed(states) && c in states && counter.Keys == states.Keys
    ensures forall p :: Above(p, c) ==> p in counter
  {
    forall p | Above(p, c)
      ensures p in counter
    {
      AncestorsThere(states, c, p);
    }
  }

  function Change(prev: State, next: State, s: State): int {
    (if next == s then 1 else 0) - (if prev == s then 1 else 0)
  }

  lemma BelowChange(states: States, c: Path, next: State, p: Path, s: State)
    requires c in states
    ensures var now, later := Below(states, p, s), Below(states[c := next], p, s);
            && (c in now) == (Above(p, c) && states[c] == s)
            && later == if Above(p, c) && next == s then now + {c} else now - {c}
  {
  }

  lemma NumberChange(states: States, c: Path, next: State, p: Path, s: State)
    requires c in states
    ensures Number(states[c := next], p, s) == Number(states, p, s) + (if Above(p, c) then Change(states[c], next, s) else 0)
  {
    BelowChange(states, c, next, p, s);
    var now := Below(states, p, s);
    assert |now + {c}| == |now| + (if c in now then 0 else 1);
    assert |now - {c}| == |now| - (if c in now then 1 else 0);
  }

  /** Adds `d` to the counter of every strict ancestor. */
  method AddAlong(counter: Counter, c: Path, d: int) returns (r: Counter)
    requires forall p :: Above(p, c) ==> p in counter
    ensures r.Keys == counter.Keys
    ensures forall p :: p in counter ==> r[p] == counter[p] + (if Above(p, c) then d else 0)
  {
    r := counter;
    var ct := c;
    while ct != []
      invariant AtOrAbove(ct, c) && r.Keys == counter.Keys
      invariant forall p :: p in counter ==> r[p] == counter[p] + (if Above(p, c) && !Above(p, ct) then d else 0)
      decreases |ct|
    {
      var parent := ParentOf(ct);
      forall p: Path
        ensures Above(p, c) && !Above(p, parent) <==> p == parent || (Above(p, c) && !Above(p, ct))
      {
        AncestorsOfChild(p, ct);
        AboveTransitive(parent, ct, c);
      }
      r := r[parent := r[parent] + d];
      ct := parent;
    }
  }

  lemma CountsChange(states: States, counter: Counter, r: Counter, c: Path, next: State, d: int, s: State)
    requires c in states && Counts(states, counter, s) && r.Keys == counter.Keys && d == Change(states[c], next, s)
    requires forall p :: p in counter ==> r[p] == counter[p] + (if Above(p, c) then d else 0)
    ensures Counts(states[c := next], r, s)
  {
    var states' := states[c := next];
    assert states'.Keys == states.Keys;
    forall p | p in states'
      ensures r[p] == Number(states', p, s)
    {
      assert counter[p] == Number(states, p, s);
      NumberChange(states, c, next, p, s);
    }
  }

  /** The counter for state `s` once `c` has gone to `next`. */
  method Adjust(states: States, counter: Counter, c: Path, next: State, s: State) returns (r: Counter)
    requires Closed(states) && c in states && states[c] != next && Counts(states, counter, s)
    ensures Counts(states[c := next], r, s)
  {
    r := counter;
    if states[c] == s || next == s {
      AncestorsCounted(states, counter, c);
      var d := if next == s then 1 else -1;
      assert d == Change(states[c], next, s);
      r := AddAlong(counter, c, d);
    } else {
      assert Change(states[c], next, s) == 0;
    }
    CountsChange(states, counter, r, c, next, Change(states[c], next, s), s);
  }

  lemma SameState(states: States, c: Path)
    requires c in states
    ensures states[c := states[c]] == states
  {
  }

  lemma NewCounts(states: States, counter: Counter, c: Path, s: State)
    requires Counts(states, counter, s) && c !in states && s != Stopped
    requires forall p :: p in states ==> !Above(c, p)
    ensures Counts(states[c := Stopped], counter[c := 0], s)
  {
    var states', counter' := states[c := Stopped], counter[c := 0];
    assert counter'.Keys == states'.Keys;
    forall p | p in states'
      ensures counter'[p] == Number(states', p, s)
    {
      NewBelow(states, c, p, s);
      if p == c {
        assert Below(states, c, s) == {};
      } else {
        assert counter[p] == Number(states, p, s);
      }
    }
  }

  lemma NewBelow(states: States, c: Path, p: Path, s: State)
    requires c !in states && s != Stopped
    ensures Below(states[c := Stopped], p, s) == Below(states, p, s)
  {
  }

  /** A meta container with nothing running below it. */
  predicate IdleMeta(states: States, p: Path) {
    p in states && states[p] == Meta && Number(states, p, Running) == 0
  }

  /** The idle meta containers above `c`, nearest first. */
  function IdleChain(states: States, c: Path): seq<Path>
    decreases |c|
  {
    if c == [] then []
    else (if IdleMeta(states, ParentOf(c)) then [ParentOf(c)] else []) + IdleChain(states, ParentOf(c))
  }

  /** One turn of the loop up the parents. */
  lemma IdleChainStep(states: States, ct: Path, told: seq<Path>, more: seq<Path>)
    requires ct != [] && more == told + (if IdleMeta(states, ParentOf(ct)) then [ParentOf(ct)] else [])
    ensures more + IdleChain(states, ParentOf(ct)) == told + IdleChain(states, ct)
  {
    var head, rest := if IdleMeta(states, ParentOf(ct)) then [ParentOf(ct)] else [], IdleChain(states, ParentOf(ct));
    Regroup(told, head, rest);
  }

  lemma Regroup(a: seq<Path>, b: seq<Path>, c: seq<Path>)
    ensures (a + b) + c == a + (b + c)
  {
  }

  lemma {:induction false} IdleChainMembers(states: States, c: Path)
    ensures forall p :: p in IdleChain(states, c) <==> Above(p, c) && IdleMeta(states, p)
    ensures forall i, j :: 0 <= i < j < |IdleChain(states, c)| ==> |IdleChain(states, c)[j]| < |IdleChain(states, c)[i]|
    decreases |c|
  {
    if c != [] {
      var parent := ParentOf(c);
      IdleChainMembers(states, parent);
      var above := IdleChain(states, parent);
      assert forall i :: 0 <= i < |above| ==> above[i] in above;
      forall p: Path
        ensures Above(p, c) <==> p == parent || Above(p, parent)
      {
        AncestorsOfChild(p, c);
      }
    }
  }

  class Containers {
    var states: States
    var running: Counter
    var starting: Counter

    constructor ()
      ensures Valid() && states == map[[] := Meta]
    {
      states, running, starting := map[[] := Meta], map[[] := 0], map[[] := 0];
      new;
      assert Below(states, [], Running) == {} && Below(states, [], Starting) == {};
    }

    ghost predicate Valid()
      reads this
    {
      Closed(states) && Counts(states, running, Running) && Counts(states, starting, Starting)
    }

    method Recount(c: Path, next: State)
      requires Valid() && c in states && states[c] != next
      modifies this
      ensures Valid() && states == old(states)[c := next]
    {
      starting := Adjust(states, starting, c, next, Starting);
      running := Adjust(states, running, c, next, Running);
      states := states[c := next];
    }

    /** A new container is stopped, so nobody counts it. */
    method Register(parent: Path, id: nat)
      requires Valid() && parent in states && parent + [id] !in states
      modifies this
      ensures Valid() && states == old(states)[parent + [id] := Stopped]
    {
      var c := parent + [id];
      forall p | p in states
        ensures !Above(c, p)
      {
        if Above(c, p) {
          AncestorsThere(states, p, c);
        }
      }
      NewCounts(states, running, c, Running);
      NewCounts(states, starting, c, Starting);
      assert ParentOf(c) == parent;
      states, running, starting := states[c := Stopped], running[c := 0], starting[c := 0];
    }

    /**
     Changes the state of a container. Told are, when it began or stopped running, the meta containers above it
     that have nothing running below them, and the container itself.
     */
    method SetState(c: Path, next: State) returns (told: seq<Path>)
      requires Valid() && c in states
      modifies this
      ensures Valid() && states == old(states)[c := next]
      ensures old(states)[c] == next ==> told == []
      ensures old(states)[c] != next ==>
                told == (if old(states)[c] == Running || next == Running then IdleChain(states, c) else []) + [c]
    {
      told := [];
      if states[c] == next {
        SameState(states, c);
        return;
      }
      var prev := states[c];
      Recount(c, next);
      if prev == Running || next == Running {
        told := IdleAbove(c);
      }
      told := told + [c];
    }

    method TellParent(ct: Path) returns (told: seq<Path>)
      requires Valid() && ct in states && ct != []
      ensures told == if IdleMeta(states, ParentOf(ct)) then [ParentOf(ct)] else []
    {
      var parent := ParentOf(ct);
      told := if running[parent] == 0 && states[parent] == Meta then [parent] else [];
    }

    /** The loop that tells the meta containers above `c` with nothing running below. */
    method IdleAbove(c: Path) returns (told: seq<Path>)
      requires Valid() && c in states
      ensures told == IdleChain(states, c)
    {
      told := [];
      var ct := c;
      while ct != []
        invariant ct in states && told + IdleChain(states, ct) == IdleChain(states, c)
        decreases |ct|
      {
        var more := TellParent(ct);
        IdleChainStep(states, ct, told, told + more);
        ct, told := ParentOf(ct), told + more;
      }
    }
  }
}
