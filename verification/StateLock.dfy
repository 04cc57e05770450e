/**
 The state lock of a container: a reader/writer lock packed into the one integer
 `StateLocked`. Without a writer it is the number of readers; once a writer has
 arrived it is `-1 - readers`, so that it is -1 when the readers have drained.

 The methods are the critical sections under the containers mutex; `Next` runs
 threads through them.
 */
module StateLock {

  datatype WriteOutcome = Refused | Draining | Admitted

  // ---------- the critical sections ----------

  function AfterReadPass(v: int): int {
    if v < 0 then v else v + 1
  }

  function WritePassOutcome(v: int): WriteOutcome {
    if v < 0 then Refused else if v == 0 then Admitted else Draining
  }

  function AfterWritePass(v: int): int {
    if v < 0 then v else -1 - v
  }

  function AfterUnlock(v: int): int {
    if v > 0 then v - 1 else v + 1
  }

  /** Whether the unlock ends in `notify_all`. */
  predicate UnlockNotifies(v: int) {
    v <= 0 && v + 1 >= -1
  }

  /** The integer that stands for a number of readers and the presence of a writer. Every integer stands for one such pair. */
  function Encode(readers: nat, writer: bool): int {
    if writer then -1 - readers else readers
  }

  /** Each method is told, as `readers` and `writer`, what the integer stands for, and says what it stands for afterwards. */
  class StateLock {
    var stateLocked: int

    constructor ()
      ensures stateLocked == Encode(0, false)
    {
      stateLocked := 0;
    }

    /** One pass of the wait loop of `LockStateRead`: one reader more, unless a writer is there. */
    method TryLockStateRead(ghost readers: nat, ghost writer: bool) returns (ok: bool)
      requires stateLocked == Encode(readers, writer)
      modifies this
      ensures ok == !writer && stateLocked == Encode(if ok then readers + 1 else readers, writer)
      ensures stateLocked == AfterReadPass(old(stateLocked))
    {
      ok := !(stateLocked < 0);
      if ok {
        stateLocked := stateLocked + 1;
      }
    }

    /** `LockStateWrite` up to its first wait after this moment: the writer arrives, over whatever readers there are. */
    method TryLockStateWrite(ghost readers: nat, ghost writer: bool) returns (r: WriteOutcome)
      requires stateLocked == Encode(readers, writer)
      modifies this
      ensures stateLocked == Encode(readers, true)
      ensures r == if writer then Refused else if readers == 0 then Admitted else Draining
      ensures r == WritePassOutcome(old(stateLocked)) && stateLocked == AfterWritePass(old(stateLocked))
    {
      if stateLocked < 0 {
        return Refused;
      }
      stateLocked := -1 - stateLocked;
      if stateLocked != -1 {
        return Draining;
      }
      return Admitted;
    }

    /** One pass of the second wait loop of `LockStateWrite`: the writer is let in once there are no readers. */
    method TryFinishWrite(ghost readers: nat) returns (ok: bool)
      requires stateLocked == Encode(readers, true)
      ensures ok <==> readers == 0
    {
      ok := stateLocked == -1;
    }

    /** The writer, alone, becomes the only reader. */
    method DowngradeStateLock()
      requires stateLocked == Encode(0, true)
      modifies this
      ensures stateLocked == Encode(1, false)
    {
      stateLocked := 1;
    }

    /** A reader leaves, or the writer when there is none; the last one that a writer waits for tells everybody. */
    method UnlockState(ghost readers: nat, ghost writer: bool) returns (notify: bool)
      requires stateLocked == Encode(readers, writer) && (readers > 0 || writer)
      modifies this
      ensures stateLocked == if readers > 0 then Encode(readers - 1, writer) else Encode(0, false)
      ensures notify <==> writer && readers <= 1
      ensures stateLocked == AfterUnlock(old(stateLocked)) && notify == UnlockNotifies(old(stateLocked))
    {
      notify := false;
      if stateLocked > 0 {
        stateLocked := stateLocked - 1;
      } else {
        stateLocked := stateLocked + 1;
        notify := stateLocked >= -1;
      }
    }
  }

  // ---------- threads ----------

  type Tid = nat

  datatype Status =
    | Idle
    | WantRead(awake: bool)
    | WantWrite(awake: bool)   // no writer has been let in yet
    | Drain(awake: bool)       // arrived, waits for the readers to leave
    | Reading
    | Writing

  type Threads = map<Tid, Status>

  datatype State = State(v: int, threads: Threads)

  datatype Event =
    | CallRead(t: Tid)
    | CallWrite(t: Tid)
    | ReadPass(t: Tid)
    | WritePass(t: Tid)
    | DrainPass(t: Tid)
    | Downgrade(t: Tid)
    | Unlock(t: Tid)
    | Spurious(t: Tid)

  predicate Waits(st: Status) {
    st.WantRead? || st.WantWrite? || st.Drain?
  }

  predicate Asleep(st: Status) {
    Waits(st) && !st.awake
  }

  predicate Guard(v: int, st: Status)
    requires Waits(st)
  {
    if st.Drain? then v == -1 else v >= 0
  }

  /** A writer that arrived, let in or not. */
  predicate Arrived(st: Status) {
    st.Drain? || st.Writing?
  }

  function Woken(st: Status): Status {
    match st
    case WantRead(_) => WantRead(true)
    case WantWrite(_) => WantWrite(true)
    case Drain(_) => Drain(true)
    case _ => st
  }

  function NotifyAll(ts: Threads): (r: Threads)
    ensures r.Keys == ts.Keys
  {
    map t | t in ts :: Woken(ts[t])
  }

  predicate May(s: State, e: Event) {
    e.t in s.threads &&
    var st := s.threads[e.t];
    match e
    case CallRead(_) => st.Idle?
    case CallWrite(_) => st.Idle?
    case ReadPass(_) => st == WantRead(true)
    case WritePass(_) => st == WantWrite(true)
    case DrainPass(_) => st == Drain(true)
    case Downgrade(_) => st.Writing?
    case Unlock(_) => st.Reading? || st.Writing?
    case Spurious(_) => Asleep(st)
  }

  function Next(s: State, e: Event): State
    requires May(s, e)
  {
    match e
    case CallRead(t) => s.(threads := s.threads[t := WantRead(true)])
    case CallWrite(t) => s.(threads := s.threads[t := WantWrite(true)])
    case ReadPass(t) =>
      State(AfterReadPass(s.v), s.threads[t := if s.v < 0 then WantRead(false) else Reading])
    case WritePass(t) =>
      State(AfterWritePass(s.v), s.threads[t := match WritePassOutcome(s.v)
                                                case Refused => WantWrite(false)
                                                case Draining => Drain(false)
                                                case Admitted => Writing])
    case DrainPass(t) => s.(threads := s.threads[t := if s.v == -1 then Writing else Drain(false)])
    case Downgrade(t) => State(1, NotifyAll(s.threads[t := Reading]))
    case Unlock(t) =>
      var ts := s.threads[t := Idle];
      State(AfterUnlock(s.v), if UnlockNotifies(s.v) then NotifyAll(ts) else ts)
    case Spurious(t) => s.(threads := s.threads[t := Woken(s.threads[t])])
  }

  ghost predicate Init(s: State) {
    s.v == 0 && forall t :: t in s.threads ==> s.threads[t] == Idle
  }

  ghost predicate Feasible(s: State, run: seq<Event>)
    decreases |run|
  {
    run == [] || (May(s, run[0]) && Feasible(Next(s, run[0]), run[1..]))
  }

  ghost function After(s: State, run: seq<Event>): State
    requires Feasible(s, run)
    decreases |run|
  {
    if run == [] then s else After(Next(s, run[0]), run[1..])
  }

  ghost predicate Reachable(s: State) {
    exists s0, run :: Init(s0) && Feasible(s0, run) && After(s0, run) == s
  }

  // ---------- the invariant ----------

  function Readers(ts: Threads): set<Tid> {
    set t | t in ts && ts[t].Reading?
  }

  function Writers(ts: Threads): set<Tid> {
    set t | t in ts && Arrived(ts[t])
  }

  ghost predicate CodeInv(s: State) {
    && s.v == Encode(|Readers(s.threads)|, Writers(s.threads) != {})
    && |Writers(s.threads)| <= 1
    && forall t :: t in s.threads && s.threads[t].Writing? ==> Readers(s.threads) == {}
  }

  ghost predicate WakeInv(s: State) {
    forall t :: t in s.threads && Asleep(s.threads[t]) ==> !Guard(s.v, s.threads[t])
  }

  ghost predicate Inv(s: State) {
    CodeInv(s) && WakeInv(s)
  }

  lemma NotifySets(ts: Threads)
    ensures Readers(NotifyAll(ts)) == Readers(ts) && Writers(NotifyAll(ts)) == Writers(ts)
    ensures forall t :: t in ts && NotifyAll(ts)[t].Writing? ==> ts[t].Writing?
  {
  }

  /** How the two sets move when one thread changes status. */
  lemma StatusChange(ts: Threads, t: Tid, st: Status)
    requires t in ts
    ensures Readers(ts[t := st]) == if st.Reading? then Readers(ts) + {t} else Readers(ts) - {t}
    ensures Writers(ts[t := st]) == if Arrived(st) then Writers(ts) + {t} else Writers(ts) - {t}
    ensures t in Readers(ts) <==> ts[t].Reading?
    ensures t in Writers(ts) <==> Arrived(ts[t])
  {
  }

  lemma OnlyWriter(s: State, t: Tid)
    requires CodeInv(s) && t in s.threads && Arrived(s.threads[t])
    ensures Writers(s.threads) == {t}
  {
    assert t in Writers(s.threads);
    assert |Writers(s.threads) - {t}| == 0;
  }

  lemma QuietKeepsSets(ts: Threads, t: Tid, st: Status)
    requires t in ts && st.Reading? == ts[t].Reading? && Arrived(st) == Arrived(ts[t])
    ensures Readers(ts[t := st]) == Readers(ts) && Writers(ts[t := st]) == Writers(ts)
  {
  }

  /** A thread that neither holds nor has arrived, before and after. */
  lemma QuietKeepsCode(s: State, t: Tid, st: Status)
    requires CodeInv(s) && t in s.threads
    requires st.Reading? == s.threads[t].Reading? && Arrived(st) == Arrived(s.threads[t])
    requires st.Writing? ==> s.threads[t].Writing? || Readers(s.threads) == {}
    ensures CodeInv(State(s.v, s.threads[t := st]))
  {
    QuietKeepsSets(s.threads, t, st);
  }

  lemma ReadPassKeepsCode(s: State, t: Tid)
    requires CodeInv(s) && May(s, ReadPass(t)) && s.v >= 0
    ensures CodeInv(Next(s, ReadPass(t)))
  {
    StatusChange(s.threads, t, Reading);
    assert Writers(s.threads) == {};
    forall u | u in s.threads && u != t
      ensures !s.threads[u].Writing?
    {
      assert u !in Writers(s.threads);
    }
  }

  lemma WritePassKeepsCode(s: State, t: Tid)
    requires CodeInv(s) && May(s, WritePass(t)) && s.v >= 0
    ensures CodeInv(Next(s, WritePass(t)))
  {
    var st := Next(s, WritePass(t)).threads[t];
    StatusChange(s.threads, t, st);
    assert Writers(s.threads) == {};
    assert Readers(s.threads[t := st]) == Readers(s.threads);
    forall u | u in s.threads && u != t
      ensures !s.threads[u].Writing?
    {
      assert u !in Writers(s.threads);
    }
  }

  lemma DowngradeKeepsCode(s: State, t: Tid)
    requires CodeInv(s) && May(s, Downgrade(t))
    ensures CodeInv(Next(s, Downgrade(t)))
  {
    OnlyWriter(s, t);
    StatusChange(s.threads, t, Reading);
    NotifySets(s.threads[t := Reading]);
    forall u | u in s.threads && u != t
      ensures !s.threads[u].Writing?
    {
      assert u !in Writers(s.threads);
    }
  }

  lemma UnlockKeepsCode(s: State, t: Tid)
    requires CodeInv(s) && May(s, Unlock(t))
    ensures CodeInv(Next(s, Unlock(t)))
  {
    UnlockMovesCode(s, t);
    NotifySets(s.threads[t := Idle]);
  }

  lemma StepKeepsCode(s: State, e: Event)
    requires CodeInv(s) && May(s, e)
    ensures CodeInv(Next(s, e))
  {
    match e {
      case ReadPass(t) =>
        if s.v < 0 { QuietKeepsCode(s, t, WantRead(false)); } else { ReadPassKeepsCode(s, t); }
      case WritePass(t) =>
        if s.v < 0 { QuietKeepsCode(s, t, WantWrite(false)); } else { WritePassKeepsCode(s, t); }
      case DrainPass(t) =>
        OnlyWriter(s, t);
        QuietKeepsCode(s, t, Next(s, e).threads[t]);
      case Downgrade(t) => DowngradeKeepsCode(s, t);
      case Unlock(t) => UnlockKeepsCode(s, t);
      case CallRead(t) => QuietKeepsCode(s, t, WantRead(true));
      case CallWrite(t) => QuietKeepsCode(s, t, WantWrite(true));
      case Spurious(t) => QuietKeepsCode(s, t, Woken(s.threads[t]));
    }
  }

  lemma WriterUnlockMovesCode(s: State, t: Tid)
    requires CodeInv(s) && t in s.threads && s.threads[t].Writing?
    ensures CodeInv(State(AfterUnlock(s.v), s.threads[t := Idle]))
  {
    OnlyWriter(s, t);
    StatusChange(s.threads, t, Idle);
    assert Readers(s.threads) == {};
    assert Readers(s.threads[t := Idle]) == {} && Writers(s.threads[t := Idle]) == {};
  }

  lemma ReaderUnlockMovesCode(s: State, t: Tid)
    requires CodeInv(s) && t in s.threads && s.threads[t].Reading?
    ensures CodeInv(State(AfterUnlock(s.v), s.threads[t := Idle]))
  {
    StatusChange(s.threads, t, Idle);
    assert t in Readers(s.threads) && Readers(s.threads) != {};
    assert |Readers(s.threads[t := Idle])| == |Readers(s.threads)| - 1;
    assert Writers(s.threads[t := Idle]) == Writers(s.threads);
  }

  lemma UnlockMovesCode(s: State, t: Tid)
    requires CodeInv(s) && May(s, Unlock(t))
    ensures CodeInv(State(AfterUnlock(s.v), s.threads[t := Idle]))
  {
    if s.threads[t].Writing? {
      WriterUnlockMovesCode(s, t);
    } else {
      ReaderUnlockMovesCode(s, t);
    }
  }

  /** No step leaves a sleeper behind whose guard it made true. */
  lemma StepKeepsWake(s: State, e: Event)
    requires Inv(s) && May(s, e)
    ensures WakeInv(Next(s, e))
  {
    var s' := Next(s, e);
    forall u | u in s'.threads && Asleep(s'.threads[u])
      ensures !Guard(s'.v, s'.threads[u])
    {
      if s'.threads[u].Drain? && u != e.t {
        OnlyWriter(s, u);
      }
    }
  }

  lemma InitInv(s: State)
    requires Init(s)
    ensures Inv(s)
  {
    assert Readers(s.threads) == {} && Writers(s.threads) == {};
  }

  lemma {:induction false} RunKeepsInv(s: State, run: seq<Event>)
    requires Inv(s) && Feasible(s, run)
    ensures Inv(After(s, run))
    decreases |run|
  {
    if run != [] {
      StepKeepsCode(s, run[0]);
      StepKeepsWake(s, run[0]);
      RunKeepsInv(Next(s, run[0]), run[1..]);
    }
  }

  lemma ReachableInv(s: State)
    requires Reachable(s)
    ensures Inv(s)
  {
    var s0, run :| Init(s0) && Feasible(s0, run) && After(s0, run) == s;
    InitInv(s0);
    RunKeepsInv(s0, run);
  }

  // ---------- what the lock promises ----------

  /** The integer always encodes the readers and the one writer; a writer that was let in has no readers. */
  lemma EncodesHolders(s: State)
    requires Reachable(s)
    ensures s.v == Encode(|Readers(s.threads)|, Writers(s.threads) != {}) && |Writers(s.threads)| <= 1
    ensures forall t :: t in s.threads && s.threads[t].Writing? ==> Readers(s.threads) == {} && Writers(s.threads) == {t}
    ensures s.v == 0 <==> forall t :: t in s.threads ==> !s.threads[t].Reading? && !Arrived(s.threads[t])
  {
    ReachableInv(s);
    forall t | t in s.threads && s.threads[t].Writing?
      ensures Writers(s.threads) == {t}
    {
      OnlyWriter(s, t);
    }
    if s.v == 0 {
      assert Readers(s.threads) == {} && Writers(s.threads) == {};
      forall t | t in s.threads
        ensures !s.threads[t].Reading? && !Arrived(s.threads[t])
      {
        assert t !in Readers(s.threads) && t !in Writers(s.threads);
      }
    }
    if forall t :: t in s.threads ==> !s.threads[t].Reading? && !Arrived(s.threads[t]) {
      assert Readers(s.threads) == {} && Writers(s.threads) == {};
    }
  }

  /** A writer that was let in is alone, and two writers never both arrived. */
  lemma WriterIsAlone(s: State, t: Tid, u: Tid)
    requires Reachable(s) && t in s.threads && u in s.threads && t != u
    ensures s.threads[t].Writing? ==> s.v == -1 && !s.threads[u].Reading? && !Arrived(s.threads[u])
    ensures Arrived(s.threads[t]) ==> !Arrived(s.threads[u])
    ensures s.threads[t].Reading? || s.threads[t].Writing? ==> s.v != 0
  {
    ReachableInv(s);
    assert s.threads[u].Reading? ==> u in Readers(s.threads);
    assert s.threads[t].Reading? ==> t in Readers(s.threads);
    if Arrived(s.threads[t]) {
      OnlyWriter(s, t);
      assert Arrived(s.threads[u]) ==> u in Writers(s.threads);
    }
  }

  /** Once a writer has arrived, nobody else is let in or arrives until it downgrades or unlocks. */
  lemma ArrivalClosesTheDoor(s: State, e: Event, t: Tid, u: Tid)
    requires Reachable(s) && May(s, e)
    requires t in s.threads && Arrived(s.threads[t]) && u in s.threads && u != t
    requires !s.threads[u].Reading?
    requires !(e.t == t && (e.Downgrade? || e.Unlock?))
    ensures u in Next(s, e).threads && !Next(s, e).threads[u].Reading? && !Arrived(Next(s, e).threads[u])
  {
    ReachableInv(s);
    OnlyWriter(s, t);
    assert Arrived(s.threads[u]) ==> u in Writers(s.threads);
  }

  /** A waiting thread is never left alone: somebody holds the lock, or an awake waiter can go on. */
  lemma NeverStuck(s: State, w: Tid) returns (u: Tid)
    requires Reachable(s) && w in s.threads && Waits(s.threads[w])
    ensures u in s.threads
    ensures s.threads[u].Reading? || s.threads[u].Writing?
      || (Waits(s.threads[u]) && s.threads[u].awake && Guard(s.v, s.threads[u]))
  {
    ReachableInv(s);
    if r :| r in Readers(s.threads) {
      return r;
    }
    assert Readers(s.threads) == {};
    if d :| d in Writers(s.threads) {
      return d;
    }
    assert Writers(s.threads) == {} && w !in Writers(s.threads);
    return w;
  }

  ghost predicate StaysDraining(s: State, run: seq<Event>, t: Tid)
    requires Feasible(s, run)
    decreases |run|
  {
    && t in s.threads && s.threads[t].Drain?
    && (run == [] || StaysDraining(Next(s, run[0]), run[1..], t))
  }

  ghost function Unlocks(run: seq<Event>): nat {
    if run == [] then 0 else (if run[0].Unlock? then 1 else 0) + Unlocks(run[1..])
  }

  lemma DrainStep(s: State, e: Event, t: Tid)
    requires Inv(s) && May(s, e) && t in s.threads && s.threads[t].Drain?
    requires t in Next(s, e).threads && Next(s, e).threads[t].Drain?
    ensures Next(s, e).v == s.v + (if e.Unlock? then 1 else 0)
  {
    OnlyWriter(s, t);
    assert s.threads[e.t].Writing? ==> e.t in Writers(s.threads);
  }

  /** A writer that arrived over `r` readers is let in after exactly `r` unlocks, whatever else happens. */
  lemma {:induction false} DrainCountdown(s: State, run: seq<Event>, t: Tid, r: nat)
    requires Inv(s) && s.v == -1 - r && Feasible(s, run) && StaysDraining(s, run, t)
    ensures After(s, run).v == -1 - r + Unlocks(run)
    ensures t in After(s, run).threads && Waits(After(s, run).threads[t])
    ensures Guard(After(s, run).v, After(s, run).threads[t]) <==> Unlocks(run) == r
    decreases |run|
  {
    if run != [] {
      DrainStep(s, run[0], t);
      StepKeepsCode(s, run[0]);
      StepKeepsWake(s, run[0]);
      var s' := Next(s, run[0]);
      OnlyWriter(s', t);
      DrainCountdown(s', run[1..], t, -1 - s'.v);
    }
  }
}
