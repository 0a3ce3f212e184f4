/** Any number of FileStore instances, each used by any number of threads, on one
file: every lock, load, save and process stop of
internal/approval/filestore.go:139-264 as a step, and the proof that every
interleaving is a run of the atomic store. */
module StoreMachine {
  import opened Text
  import opened Records
  import opened Backend

  type Tid = nat
  type Inst = nat
  type Proc = nat

  /** Which lock `withLock` takes first. The program takes the mutex first; the
      other order is the one the source warns against. */
  datatype Order = MutexFirst | FlockFirst

  /** Each instance has its own time-to-live and lives in some process. */
  datatype Config = Config(order: Order, ttl: Inst -> int, proc: Inst -> Proc)

  datatype Pc =
    | Acquire1                                             // waiting for the first lock
    | Acquire2                                             // waiting for the second
    | Locked                                               // both held, nothing read yet
    | Loaded(local: Store)                                 // file read into memory
    | Saving(next: Store, answer: Answer, at: int)         // temp file created, being written
    | TempReady(next: Store, answer: Answer, at: int)      // temp file written, synced, closed
    | Release2(answer: Answer)                             // still holding both locks
    | Release1(answer: Answer)                             // still holding the first lock
    | Returned(answer: Answer)

  /** A store operation in progress; `since` is the length of the log when it was called. */
  datatype Frame = Frame(inst: Inst, op: Op, since: nat, pc: Pc)

  datatype Temp = Partial | Synced(records: Store)

  /** What happened, in order. `StoreDone` marks the instant an operation takes effect. */
  datatype Event =
    | StoreDone(t: Tid, op: Op, inst: Inst, at: int, answer: Answer)
    | Attempt(t: Tid, ref: string)
    | Wrote(t: Tid, ref: string, write: Write)

  datatype State = State(
    now: int,
    file: Store,
    temps: map<Tid, Temp>,
    osOwner: Option<Inst>,          // who holds the OS lock on the lock file
    mutexes: map<Inst, Tid>,        // locked in-process mutexes
    flags: set<Inst>,               // flock handles that believe they are locked
    frames: map<Tid, Frame>,        // store operations in progress
    down: set<Proc>,
    log: seq<Event>)

  datatype Action =
    | Tick(d: nat)
    | Invoke(t: Tid, inst: Inst, op: Op)
    | Acquire(t: Tid)
    | LockTimeout(t: Tid)
    | Load(t: Tid)
    | LoadFail(t: Tid)
    | Execute(t: Tid)
    | WriteTemp(t: Tid)
    | SaveFail(t: Tid)
    | Rename(t: Tid)
    | Release(t: Tid)
    | Return(t: Tid)
    | Stop(p: Proc)

  predicate IsMutex(c: Config, pc: Pc) {
    (pc.Acquire1? || pc.Release1?) == c.order.MutexFirst?
  }

  function Goto(s: State, t: Tid, pc: Pc): State
    requires t in s.frames
  {
    s.(frames := s.frames[t := s.frames[t].(pc := pc)])
  }

  function Forget(s: State, t: Tid): State {
    s.(frames := s.frames - {t})
  }

  /** `mu.Lock`: waits while another thread of the instance is inside. */
  function TakeMutex(s: State, t: Tid): (r: Option<State>)
    requires t in s.frames
  {
    var i := s.frames[t].inst;
    if i in s.mutexes then None else Some(s.(mutexes := s.mutexes[i := t]))
  }

  /** `TryLock`: at once if the handle believes it is locked, else if the OS lock is free. */
  function TakeFlock(s: State, t: Tid): (r: Option<State>)
    requires t in s.frames
  {
    var i := s.frames[t].inst;
    if i in s.flags then Some(s)
    else if s.osOwner.None? then Some(s.(osOwner := Some(i), flags := s.flags + {i}))
    else None
  }

  function DropMutex(s: State, t: Tid): State
    requires t in s.frames
  {
    s.(mutexes := s.mutexes - {s.frames[t].inst})
  }

  /** `Unlock`: does nothing unless the handle believes it is locked. */
  function DropFlock(s: State, t: Tid): State
    requires t in s.frames
  {
    var i := s.frames[t].inst;
    if i in s.flags then s.(osOwner := None, flags := s.flags - {i}) else s
  }

  function Record(s: State, t: Tid, at: int, answer: Answer): State
    requires t in s.frames
  {
    var f := s.frames[t];
    s.(log := s.log + [StoreDone(t, f.op, f.inst, at, answer)])
  }

  /** A call enters: field checks first, then `withLock`. */
  function Enter(s: State, t: Tid, inst: Inst, op: Op): State {
    match Precheck(op)
    case Some(e) => Record(s.(frames := s.frames[t := Frame(inst, op, |s.log|, Returned(Failed(e)))]), t, s.now,
                           Failed(e))
    case None => s.(frames := s.frames[t := Frame(inst, op, |s.log|, Acquire1)])
  }

  /** A process stops: its threads and mutexes vanish, the OS drops its lock, temp files stay. */
  function Halt(c: Config, s: State, p: Proc): State {
    s.(frames := map t | t in s.frames && c.proc(s.frames[t].inst) != p :: s.frames[t],
       mutexes := map i | i in s.mutexes && c.proc(i) != p :: s.mutexes[i],
       flags := (set i | i in s.flags && c.proc(i) != p),
       osOwner := if s.osOwner.Some? && c.proc(s.osOwner.value) == p then None else s.osOwner,
       down := s.down + {p})
  }

  /** Takes the first or the second lock, whichever it is that the thread waits for. */
  function AcquireStep(c: Config, s: State, t: Tid): (r: Option<State>)
    requires t in s.frames
  {
    var pc := s.frames[t].pc;
    if !pc.Acquire1? && !pc.Acquire2? then None
    else
      var r := if IsMutex(c, pc) then TakeMutex(s, t) else TakeFlock(s, t);
      if r.None? then None else Some(Goto(r.value, t, if pc.Acquire1? then Acquire2 else Locked))
  }

  /** Only the wait for the flock has a time limit. */
  function TimeoutStep(c: Config, s: State, t: Tid): (r: Option<State>)
    requires t in s.frames
  {
    var pc := s.frames[t].pc;
    if (!pc.Acquire1? && !pc.Acquire2?) || IsMutex(c, pc) then None
    else Some(Goto(s, t, if pc.Acquire1? then Returned(Failed(Unavailable)) else Release1(Failed(Unavailable))))
  }

  function LoadStep(s: State, t: Tid, ok: bool): (r: Option<State>)
    requires t in s.frames
  {
    if !s.frames[t].pc.Locked? then None
    else Some(Goto(s, t, if ok then Loaded(s.file) else Release2(Failed(Unavailable))))
  }

  /** The function under the lock: an answer at once, or the start of a save. */
  function ExecuteStep(c: Config, s: State, t: Tid): (r: Option<State>)
    requires t in s.frames
  {
    var f := s.frames[t];
    if !f.pc.Loaded? then None
    else
      match Body(f.pc.local, f.op, s.now, c.ttl(f.inst))
      case Reply(answer) => Some(Goto(Record(s, t, s.now, answer), t, Release2(answer)))
      case Save(next, answer) => Some(Goto(s.(temps := s.temps[t := Partial]), t, Saving(next, answer, s.now)))
  }

  function WriteTempStep(s: State, t: Tid): (r: Option<State>)
    requires t in s.frames
  {
    var pc := s.frames[t].pc;
    if !pc.Saving? then None
    else Some(Goto(s.(temps := s.temps[t := Synced(pc.next)]), t, TempReady(pc.next, pc.answer, pc.at)))
  }

  function SaveFailStep(s: State, t: Tid): (r: Option<State>)
    requires t in s.frames
  {
    var pc := s.frames[t].pc;
    if !pc.Saving? && !pc.TempReady? then None
    else Some(Goto(s.(temps := s.temps - {t}), t, Release2(Failed(Unavailable))))
  }

  function RenameStep(s: State, t: Tid): (r: Option<State>)
    requires t in s.frames
  {
    var pc := s.frames[t].pc;
    if !pc.TempReady? || t !in s.temps || !s.temps[t].Synced? then None
    else
      var saved := s.(file := s.temps[t].records, temps := s.temps - {t});
      Some(Goto(Record(saved, t, pc.at, pc.answer), t, Release2(pc.answer)))
  }

  /** Drops the second lock, then the first. */
  function ReleaseStep(c: Config, s: State, t: Tid): (r: Option<State>)
    requires t in s.frames
  {
    var pc := s.frames[t].pc;
    if !pc.Release2? && !pc.Release1? then None
    else
      var dropped := if IsMutex(c, pc) then DropMutex(s, t) else DropFlock(s, t);
      Some(Goto(dropped, t, if pc.Release2? then Release1(pc.answer) else Returned(pc.answer)))
  }

  function ReturnStep(s: State, t: Tid): (r: Option<State>)
    requires t in s.frames
  {
    if s.frames[t].pc.Returned? then Some(Forget(s, t)) else None
  }

  /** One step; None when it cannot happen now. */
  function Next(c: Config, s: State, a: Action): (r: Option<State>) {
    match a
    case Tick(d) => Some(s.(now := s.now + d))
    case Stop(p) => Some(Halt(c, s, p))
    case Invoke(t, inst, op) =>
      if t in s.frames || c.proc(inst) in s.down then None else Some(Enter(s, t, inst, op))
    case _ =>
      if a.t !in s.frames then None else ThreadStep(c, s, a)
  }

  function ThreadStep(c: Config, s: State, a: Action): (r: Option<State>)
    requires !a.Tick? && !a.Stop? && !a.Invoke? && a.t in s.frames
  {
    match a
    case Acquire(t) => AcquireStep(c, s, t)
    case LockTimeout(t) => TimeoutStep(c, s, t)
    case Load(t) => LoadStep(s, t, true)
    case LoadFail(t) => LoadStep(s, t, false)
    case Execute(t) => ExecuteStep(c, s, t)
    case WriteTemp(t) => WriteTempStep(s, t)
    case SaveFail(t) => SaveFailStep(s, t)
    case Rename(t) => RenameStep(s, t)
    case Release(t) => ReleaseStep(c, s, t)
    case Return(t) => ReturnStep(s, t)
  }

  function Run(c: Config, s: State, actions: seq<Action>): (r: Option<State>)
    decreases |actions|
  {
    if actions == [] then Some(s)
    else
      var n := Next(c, s, actions[0]);
      if n.None? then None else Run(c, n.value, actions[1..])
  }

  lemma {:induction false} RunAppend(c: Config, s: State, a: seq<Action>, b: seq<Action>)
    requires Run(c, s, a).Some?
    ensures Run(c, s, a + b) == Run(c, Run(c, s, a).value, b)
    decreases |a|
  {
    if a == [] {
      assert a + b == b;
    } else {
      assert (a + b)[1..] == a[1..] + b;
      RunAppend(c, Next(c, s, a[0]).value, a[1..], b);
    }
  }

  lemma RunJoin(c: Config, s: State, a: seq<Action>, m: State, b: seq<Action>, n: State)
    requires Run(c, s, a) == Some(m) && Run(c, m, b) == Some(n)
    ensures Run(c, s, a + b) == Some(n)
  {
    RunAppend(c, s, a, b);
  }

  /** One step of a thread is a run. */
  lemma RunOne(c: Config, s: State, a: Action, n: State)
    requires !a.Tick? && !a.Stop? && !a.Invoke? && a.t in s.frames && ThreadStep(c, s, a) == Some(n)
    ensures Run(c, s, [a]) == Some(n)
  {
    assert Next(c, s, a) == Some(n);
    assert [a][1..] == [];
  }

  /** Runs start from an existing file with nobody using it. */
  function Initial(file: Store, now: int): State {
    State(now, file, map[], None, map[], {}, map[], {}, [])
  }

  // ----- the atomic store the machine is compared with

  /** The records after the effects of all logged operations, taken one after another. */
  function Replay(c: Config, init: Store, log: seq<Event>): (m: Store)
    decreases |log|
  {
    if log == [] then init
    else
      var m := Replay(c, init, log[..|log| - 1]);
      match log[|log| - 1]
      case StoreDone(_, op, inst, at, _) => Atomic(m, op, at, c.ttl(inst)).0
      case _ => m
  }

  /** Event `i` reports what the atomic store answers at that point. */
  ghost predicate Explained(c: Config, init: Store, log: seq<Event>, i: nat)
    requires i < |log|
  {
    log[i].StoreDone? ==>
      log[i].answer == Atomic(Replay(c, init, log[..i]), log[i].op, log[i].at, c.ttl(log[i].inst)).1
  }

  ghost predicate Linearized(c: Config, init: Store, log: seq<Event>) {
    forall i | 0 <= i < |log| :: Explained(c, init, log, i)
  }

  ghost predicate OwnEvent(e: Event, t: Tid) {
    e.StoreDone? && e.t == t
  }

  /** Nothing of thread `t` took effect since the call. */
  ghost predicate Silent(log: seq<Event>, since: nat, t: Tid) {
    forall i | since <= i < |log| :: !OwnEvent(log[i], t)
  }

  /** The call took effect once, at position `i`, and got this answer there. */
  ghost predicate SettledAt(log: seq<Event>, since: nat, op: Op, inst: Inst, t: Tid, answer: Answer, i: nat) {
    && since <= i < |log| && OwnEvent(log[i], t)
    && log[i].op == op && log[i].inst == inst && log[i].answer == answer
    && forall j | since <= j < |log| && j != i :: !OwnEvent(log[j], t)
  }

  /** An unavailable store did nothing; any other answer is that of one atomic operation
      between the call and its return. */
  ghost predicate Settled(log: seq<Event>, since: nat, op: Op, inst: Inst, t: Tid, answer: Answer) {
    if answer == Failed(Unavailable) then Silent(log, since, t)
    else exists i :: SettledAt(log, since, op, inst, t, answer, i)
  }

  // ----- the invariant

  predicate HasMutex(pc: Pc) {
    pc.Acquire2? || pc.Locked? || pc.Loaded? || pc.Saving? || pc.TempReady? || pc.Release2? || pc.Release1?
  }

  predicate HasFlock(pc: Pc) {
    pc.Locked? || pc.Loaded? || pc.Saving? || pc.TempReady? || pc.Release2?
  }

  ghost predicate MutexInv(s: State) {
    && (forall i | i in s.mutexes ::
        s.mutexes[i] in s.frames && s.frames[s.mutexes[i]].inst == i && HasMutex(s.frames[s.mutexes[i]].pc))
    && (forall t | t in s.frames && HasMutex(s.frames[t].pc) ::
        s.frames[t].inst in s.mutexes && s.mutexes[s.frames[t].inst] == t)
  }

  ghost predicate FlockInv(s: State) {
    && (forall t | t in s.frames && HasFlock(s.frames[t].pc) :: s.osOwner == Some(s.frames[t].inst))
    && (forall i | i in s.flags :: i in s.mutexes && s.mutexes[i] in s.frames && HasFlock(s.frames[s.mutexes[i]].pc))
    && (forall i :: s.osOwner == Some(i) <==> i in s.flags)
  }

  /** A thread's memory agrees with the file for as long as it is inside. */
  ghost predicate FrameInv(c: Config, s: State, t: Tid)
    requires t in s.frames
  {
    var f := s.frames[t];
    && f.since <= |s.log|
    && match f.pc
       case Acquire1 => Silent(s.log, f.since, t) && Precheck(f.op).None?
       case Acquire2 => Silent(s.log, f.since, t) && Precheck(f.op).None?
       case Locked => Silent(s.log, f.since, t) && Precheck(f.op).None?
       case Loaded(local) => Silent(s.log, f.since, t) && Precheck(f.op).None? && local == s.file
       case Saving(next, answer, at) =>
         && Silent(s.log, f.since, t) && Precheck(f.op).None?
         && Body(s.file, f.op, at, c.ttl(f.inst)) == Save(next, answer)
       case TempReady(next, answer, at) =>
         && Silent(s.log, f.since, t) && Precheck(f.op).None?
         && Body(s.file, f.op, at, c.ttl(f.inst)) == Save(next, answer)
         && t in s.temps && s.temps[t] == Synced(next)
       case Release2(answer) => Settled(s.log, f.since, f.op, f.inst, t, answer)
       case Release1(answer) => Settled(s.log, f.since, f.op, f.inst, t, answer)
       case Returned(answer) => Settled(s.log, f.since, f.op, f.inst, t, answer)
  }

  ghost predicate Inv(c: Config, init: Store, s: State) {
    && MutexInv(s)
    && FlockInv(s)
    && (forall t | t in s.frames :: FrameInv(c, s, t))
    && s.file == Replay(c, init, s.log)
    && Linearized(c, init, s.log)
  }

  // ----- steps keep the invariant

  lemma LogStep(c: Config, init: Store, log: seq<Event>, e: Event)
    requires Linearized(c, init, log)
    requires e.StoreDone? ==> e.answer == Atomic(Replay(c, init, log), e.op, e.at, c.ttl(e.inst)).1
    ensures Linearized(c, init, log + [e])
    ensures Replay(c, init, log + [e]) ==
            if e.StoreDone? then Atomic(Replay(c, init, log), e.op, e.at, c.ttl(e.inst)).0 else Replay(c, init, log)
  {
    var log' := log + [e];
    assert log'[..|log|] == log;
    forall i | 0 <= i < |log'| ensures Explained(c, init, log', i) {
      if i < |log| {
        assert Explained(c, init, log, i);
        assert log'[..i] == log[..i];
      }
    }
  }

  /** Another thread's event leaves a call's history as it was. */
  lemma OthersUnmoved(log: seq<Event>, e: Event, f: Frame, t: Tid)
    requires !OwnEvent(e, t)
    ensures Silent(log, f.since, t) ==> Silent(log + [e], f.since, t)
    ensures forall answer | Settled(log, f.since, f.op, f.inst, t, answer) ::
        Settled(log + [e], f.since, f.op, f.inst, t, answer)
  {
    var log' := log + [e];
    assert forall i | 0 <= i < |log| :: log'[i] == log[i];
    forall answer | Settled(log, f.since, f.op, f.inst, t, answer)
        ensures Settled(log', f.since, f.op, f.inst, t, answer) {
      if answer != Failed(Unavailable) {
        var i :| SettledAt(log, f.since, f.op, f.inst, t, answer, i);
        assert SettledAt(log', f.since, f.op, f.inst, t, answer, i);
      }
    }
  }

  /** A thread's own event settles its call. */
  lemma OwnSettles(log: seq<Event>, f: Frame, t: Tid, at: int, answer: Answer)
    requires Silent(log, f.since, t) && f.since <= |log| && answer != Failed(Unavailable)
    ensures Settled(log + [StoreDone(t, f.op, f.inst, at, answer)], f.since, f.op, f.inst, t, answer)
  {
    assert SettledAt(log + [StoreDone(t, f.op, f.inst, at, answer)], f.since, f.op, f.inst, t, answer, |log|);
  }

  /** Only thread `t`'s frame changes, and it stays on its instance. */
  ghost predicate OneFrame(s: State, s': State, t: Tid) {
    && t in s.frames && t in s'.frames && s'.frames == s.frames[t := s'.frames[t]]
    && s'.frames[t].inst == s.frames[t].inst
  }

  /** The temp files of the others are as they were. */
  ghost predicate OtherTemps(s: State, s': State, t: Tid) {
    forall u | u in s.temps && u != t :: u in s'.temps && s'.temps[u] == s.temps[u]
  }

  /** No lock changes hands. */
  ghost predicate LocksStay(s: State, s': State, t: Tid) {
    && OneFrame(s, s', t) && s'.mutexes == s.mutexes && s'.flags == s.flags && s'.osOwner == s.osOwner
    && HasMutex(s'.frames[t].pc) == HasMutex(s.frames[t].pc) && HasFlock(s'.frames[t].pc) == HasFlock(s.frames[t].pc)
  }

  lemma MutexStays(s: State, s': State, t: Tid)
    requires MutexInv(s) && LocksStay(s, s', t)
    ensures MutexInv(s')
  {
  }

  lemma FlockStays(s: State, s': State, t: Tid)
    requires FlockInv(s) && LocksStay(s, s', t)
    ensures FlockInv(s')
  {
  }

  /** A thread whose frame, temp file and view of the file and the log are as they were. */
  lemma FrameSame(c: Config, s: State, s': State, u: Tid)
    requires u in s.frames && FrameInv(c, s, u) && u in s'.frames && s'.frames[u] == s.frames[u]
    requires s'.file == s.file && s'.log == s.log
    requires u in s.temps ==> u in s'.temps && s'.temps[u] == s.temps[u]
    ensures FrameInv(c, s', u)
  {
  }

  lemma SameFrames(c: Config, s: State, s': State, t: Tid)
    requires OneFrame(s, s', t) && s'.file == s.file && s'.log == s.log && OtherTemps(s, s', t)
    requires FrameInv(c, s', t) && forall u | u in s.frames :: FrameInv(c, s, u)
    ensures forall u | u in s'.frames :: FrameInv(c, s', u)
  {
    forall u | u in s'.frames ensures FrameInv(c, s', u) {
      if u != t { FrameSame(c, s, s', u); }
    }
  }

  /** A step of `t` that neither moves a lock nor takes effect. */
  lemma QuietKeeps(c: Config, init: Store, s: State, s': State, t: Tid)
    requires Inv(c, init, s) && LocksStay(s, s', t) && s'.file == s.file && s'.log == s.log && OtherTemps(s, s', t)
    requires FrameInv(c, s', t)
    ensures Inv(c, init, s')
  {
    MutexStays(s, s', t);
    FlockStays(s, s', t);
    SameFrames(c, s, s', t);
  }

  lemma FrameGrows(c: Config, s: State, s': State, u: Tid, e: Event)
    requires u in s.frames && FrameInv(c, s, u) && u in s'.frames && s'.frames[u] == s.frames[u]
    requires s'.log == s.log + [e] && !OwnEvent(e, u)
    requires s'.file == s.file || !HasFlock(s.frames[u].pc)
    requires u in s.temps ==> u in s'.temps && s'.temps[u] == s.temps[u]
    ensures FrameInv(c, s', u)
  {
    OthersUnmoved(s.log, e, s.frames[u], u);
  }

  /** Extending the log by `t`'s event keeps every other thread's part of the invariant. */
  lemma OthersKept(c: Config, s: State, s': State, t: Tid, e: Event)
    requires e.StoreDone? && e.t == t && s'.log == s.log + [e] && OtherTemps(s, s', t)
    requires t in s'.frames && s'.frames == s.frames[t := s'.frames[t]] && FrameInv(c, s', t)
    requires forall u | u in s.frames && u != t :: FrameInv(c, s, u)
    requires s'.file == s.file || forall u | u in s.frames && u != t :: !HasFlock(s.frames[u].pc)
    ensures forall u | u in s'.frames :: FrameInv(c, s', u)
  {
    forall u | u in s'.frames ensures FrameInv(c, s', u) {
      if u != t { FrameGrows(c, s, s', u, e); }
    }
  }

  /** A step of `t` in which its operation takes effect. */
  lemma EffectKeeps(c: Config, init: Store, s: State, s': State, t: Tid, e: Event)
    requires Inv(c, init, s) && LocksStay(s, s', t) && HasFlock(s.frames[t].pc) && OtherTemps(s, s', t)
    requires e.StoreDone? && e.t == t && s'.log == s.log + [e] && FrameInv(c, s', t)
    requires (s'.file, e.answer) == Atomic(s.file, e.op, e.at, c.ttl(e.inst))
    ensures Inv(c, init, s')
  {
    MutexStays(s, s', t);
    FlockStays(s, s', t);
    AllOthersOutside(s, t);
    OthersKept(c, s, s', t, e);
    LogStep(c, init, s.log, e);
  }

  lemma NeverUnavailable(m: Store, op: Op, now: int, ttl: int)
    ensures Atomic(m, op, now, ttl).1 != Failed(Unavailable)
    ensures Body(m, op, now, ttl).answer != Failed(Unavailable)
  {
  }

  lemma EnterLocks(s: State, s': State, t: Tid)
    requires MutexInv(s) && FlockInv(s) && t !in s.frames && t in s'.frames && s'.frames == s.frames[t := s'.frames[t]]
    requires !HasMutex(s'.frames[t].pc) && s'.mutexes == s.mutexes && s'.flags == s.flags && s'.osOwner == s.osOwner
    ensures MutexInv(s') && FlockInv(s')
  {
  }

  lemma RefusedKeeps(c: Config, init: Store, s: State, t: Tid, inst: Inst, op: Op)
    requires Inv(c, init, s) && t !in s.frames && Precheck(op).Some?
    ensures Inv(c, init, Enter(s, t, inst, op))
  {
    var s' := Enter(s, t, inst, op);
    var answer := Failed(Precheck(op).value);
    var e := StoreDone(t, op, inst, s.now, answer);
    LogStep(c, init, s.log, e);
    assert FrameInv(c, s', t) by {
      NeverUnavailable(s.file, op, s.now, c.ttl(inst));
      OwnSettles(s.log, s'.frames[t], t, s.now, answer);
    }
    OthersKept(c, s, s', t, e);
    EnterLocks(s, s', t);
  }

  lemma InvokeKeeps(c: Config, init: Store, s: State, t: Tid, inst: Inst, op: Op)
    requires Inv(c, init, s) && t !in s.frames
    ensures Inv(c, init, Enter(s, t, inst, op))
  {
    var s' := Enter(s, t, inst, op);
    if Precheck(op).Some? {
      RefusedKeeps(c, init, s, t, inst, op);
    } else {
      EnterLocks(s, s', t);
      forall u | u in s'.frames ensures FrameInv(c, s', u) {
        if u != t { FrameSame(c, s, s', u); }
      }
    }
  }

  lemma HaltLocks(c: Config, s: State, p: Proc)
    requires MutexInv(s) && FlockInv(s)
    ensures MutexInv(Halt(c, s, p)) && FlockInv(Halt(c, s, p))
  {
  }

  lemma HaltKeeps(c: Config, init: Store, s: State, p: Proc)
    requires Inv(c, init, s)
    ensures Inv(c, init, Halt(c, s, p))
  {
    var s' := Halt(c, s, p);
    HaltLocks(c, s, p);
    forall u | u in s'.frames ensures FrameInv(c, s', u) { FrameSame(c, s, s', u); }
  }

  /** Nobody else is inside while `t` is. */
  lemma Alone(s: State, t: Tid, u: Tid)
    requires MutexInv(s) && FlockInv(s)
    requires t in s.frames && u in s.frames && HasFlock(s.frames[t].pc) && HasFlock(s.frames[u].pc)
    ensures t == u
  {
  }

  lemma AllOthersOutside(s: State, t: Tid)
    requires MutexInv(s) && FlockInv(s) && t in s.frames && HasFlock(s.frames[t].pc)
    ensures forall u | u in s.frames && u != t :: !HasFlock(s.frames[u].pc)
  {
  }

  /** A thread that waits for the flock finds its own handle unlocked, so the
      handle's shortcut is never taken. */
  lemma NoShortcut(s: State, t: Tid)
    requires MutexInv(s) && FlockInv(s) && t in s.frames && s.frames[t].pc == Acquire2
    ensures s.frames[t].inst !in s.flags
  {
  }

  lemma TakeMutexKeeps(c: Config, init: Store, s: State, t: Tid)
    requires Inv(c, init, s) && t in s.frames && s.frames[t].pc == Acquire1 && TakeMutex(s, t).Some?
    ensures Inv(c, init, Goto(TakeMutex(s, t).value, t, Acquire2))
  {
    var s' := Goto(TakeMutex(s, t).value, t, Acquire2);
    assert FrameInv(c, s', t) by { assert FrameInv(c, s, t); }
    SameFrames(c, s, s', t);
    TakeMutexLocks(s, t);
  }

  lemma TakeMutexLocks(s: State, t: Tid)
    requires MutexInv(s) && FlockInv(s) && t in s.frames && s.frames[t].pc == Acquire1 && TakeMutex(s, t).Some?
    ensures MutexInv(Goto(TakeMutex(s, t).value, t, Acquire2)) && FlockInv(Goto(TakeMutex(s, t).value, t, Acquire2))
  {
  }

  lemma TakeFlockKeeps(c: Config, init: Store, s: State, t: Tid)
    requires Inv(c, init, s) && t in s.frames && s.frames[t].pc == Acquire2 && TakeFlock(s, t).Some?
    ensures Inv(c, init, Goto(TakeFlock(s, t).value, t, Locked))
  {
    var s' := Goto(TakeFlock(s, t).value, t, Locked);
    assert FrameInv(c, s', t) by { assert FrameInv(c, s, t); }
    SameFrames(c, s, s', t);
    TakeFlockLocks(s, t);
  }

  lemma TakeFlockLocks(s: State, t: Tid)
    requires MutexInv(s) && FlockInv(s) && t in s.frames && s.frames[t].pc == Acquire2 && TakeFlock(s, t).Some?
    ensures MutexInv(Goto(TakeFlock(s, t).value, t, Locked)) && FlockInv(Goto(TakeFlock(s, t).value, t, Locked))
  {
    NoShortcut(s, t);
  }

  lemma AcquireKeeps(c: Config, init: Store, s: State, t: Tid)
    requires c.order == MutexFirst && Inv(c, init, s) && t in s.frames && AcquireStep(c, s, t).Some?
    ensures Inv(c, init, AcquireStep(c, s, t).value)
  {
    if s.frames[t].pc == Acquire1 {
      TakeMutexKeeps(c, init, s, t);
    } else {
      TakeFlockKeeps(c, init, s, t);
    }
  }

  lemma TimeoutKeeps(c: Config, init: Store, s: State, t: Tid)
    requires c.order == MutexFirst && Inv(c, init, s) && t in s.frames && TimeoutStep(c, s, t).Some?
    ensures Inv(c, init, TimeoutStep(c, s, t).value)
  {
    assert FrameInv(c, s, t);
    QuietKeeps(c, init, s, TimeoutStep(c, s, t).value, t);
  }

  lemma LoadKeeps(c: Config, init: Store, s: State, t: Tid, ok: bool)
    requires Inv(c, init, s) && t in s.frames && LoadStep(s, t, ok).Some?
    ensures Inv(c, init, LoadStep(s, t, ok).value)
  {
    assert FrameInv(c, s, t);
    QuietKeeps(c, init, s, LoadStep(s, t, ok).value, t);
  }

  lemma AnswerKeeps(c: Config, init: Store, s: State, t: Tid, answer: Answer)
    requires Inv(c, init, s) && t in s.frames && s.frames[t].pc.Loaded?
    requires Atomic(s.file, s.frames[t].op, s.now, c.ttl(s.frames[t].inst)) == (s.file, answer)
    ensures Inv(c, init, Goto(Record(s, t, s.now, answer), t, Release2(answer)))
  {
    var s' := Goto(Record(s, t, s.now, answer), t, Release2(answer));
    var f := s.frames[t];
    var e := StoreDone(t, f.op, f.inst, s.now, answer);
    assert FrameInv(c, s', t) by {
      assert FrameInv(c, s, t);
      NeverUnavailable(s.file, f.op, s.now, c.ttl(f.inst));
      OwnSettles(s.log, f, t, s.now, answer);
    }
    EffectKeeps(c, init, s, s', t, e);
  }

  lemma BeginSaveKeeps(c: Config, init: Store, s: State, t: Tid, next: Store, answer: Answer)
    requires Inv(c, init, s) && t in s.frames && s.frames[t].pc.Loaded?
    requires Body(s.file, s.frames[t].op, s.now, c.ttl(s.frames[t].inst)) == Save(next, answer)
    ensures Inv(c, init, Goto(s.(temps := s.temps[t := Partial]), t, Saving(next, answer, s.now)))
  {
    var s' := Goto(s.(temps := s.temps[t := Partial]), t, Saving(next, answer, s.now));
    assert FrameInv(c, s', t) by { assert FrameInv(c, s, t); }
    QuietKeeps(c, init, s, s', t);
  }

  lemma ExecuteKeeps(c: Config, init: Store, s: State, t: Tid)
    requires Inv(c, init, s) && t in s.frames && ExecuteStep(c, s, t).Some?
    ensures Inv(c, init, ExecuteStep(c, s, t).value)
  {
    var f := s.frames[t];
    assert f.pc.local == s.file by { assert FrameInv(c, s, t); }
    assert Precheck(f.op).None? by { assert FrameInv(c, s, t); }
    match Body(s.file, f.op, s.now, c.ttl(f.inst))
    case Reply(answer) => AnswerKeeps(c, init, s, t, answer);
    case Save(next, answer) => BeginSaveKeeps(c, init, s, t, next, answer);
  }

  lemma WriteTempKeeps(c: Config, init: Store, s: State, t: Tid)
    requires Inv(c, init, s) && t in s.frames && WriteTempStep(s, t).Some?
    ensures Inv(c, init, WriteTempStep(s, t).value)
  {
    var s' := WriteTempStep(s, t).value;
    assert FrameInv(c, s', t) by { assert FrameInv(c, s, t); }
    QuietKeeps(c, init, s, s', t);
  }

  lemma SaveFailKeeps(c: Config, init: Store, s: State, t: Tid)
    requires Inv(c, init, s) && t in s.frames && SaveFailStep(s, t).Some?
    ensures Inv(c, init, SaveFailStep(s, t).value)
  {
    var s' := SaveFailStep(s, t).value;
    assert FrameInv(c, s', t) by { assert FrameInv(c, s, t); }
    QuietKeeps(c, init, s, s', t);
  }

  /** The rename publishes exactly what the atomic operation would have stored. */
  lemma RenameKeeps(c: Config, init: Store, s: State, t: Tid)
    requires Inv(c, init, s) && t in s.frames && RenameStep(s, t).Some?
    ensures Inv(c, init, RenameStep(s, t).value)
  {
    var s', f := RenameStep(s, t).value, s.frames[t];
    var e := StoreDone(t, f.op, f.inst, f.pc.at, f.pc.answer);
    assert FrameInv(c, s, t);
    assert FrameInv(c, s', t) by {
      NeverUnavailable(s.file, f.op, f.pc.at, c.ttl(f.inst));
      OwnSettles(s.log, f, t, f.pc.at, f.pc.answer);
    }
    EffectKeeps(c, init, s, s', t, e);
  }

  lemma DropFlockKeeps(c: Config, init: Store, s: State, t: Tid, answer: Answer)
    requires Inv(c, init, s) && t in s.frames && s.frames[t].pc == Release2(answer)
    ensures Inv(c, init, Goto(DropFlock(s, t), t, Release1(answer)))
  {
    var s' := Goto(DropFlock(s, t), t, Release1(answer));
    assert FrameInv(c, s', t) by { assert FrameInv(c, s, t); }
    SameFrames(c, s, s', t);
    DropFlockLocks(s, t, answer);
  }

  lemma DropFlockLocks(s: State, t: Tid, answer: Answer)
    requires MutexInv(s) && FlockInv(s) && t in s.frames && s.frames[t].pc == Release2(answer)
    ensures MutexInv(Goto(DropFlock(s, t), t, Release1(answer))) && FlockInv(Goto(DropFlock(s, t), t, Release1(answer)))
  {
    var s' := Goto(DropFlock(s, t), t, Release1(answer));
    AllOthersOutside(s, t);
    assert s.osOwner == Some(s.frames[t].inst) && s'.osOwner == None;
    assert s'.flags == {};
  }

  lemma DropMutexKeeps(c: Config, init: Store, s: State, t: Tid, answer: Answer)
    requires Inv(c, init, s) && t in s.frames && s.frames[t].pc == Release1(answer)
    ensures Inv(c, init, Goto(DropMutex(s, t), t, Returned(answer)))
  {
    var s' := Goto(DropMutex(s, t), t, Returned(answer));
    assert FrameInv(c, s', t) by { assert FrameInv(c, s, t); }
    SameFrames(c, s, s', t);
    DropMutexLocks(s, t, answer);
  }

  lemma DropMutexLocks(s: State, t: Tid, answer: Answer)
    requires MutexInv(s) && FlockInv(s) && t in s.frames && s.frames[t].pc == Release1(answer)
    ensures MutexInv(Goto(DropMutex(s, t), t, Returned(answer))) && FlockInv(Goto(DropMutex(s, t), t, Returned(answer)))
  {
    assert s.frames[t].inst !in s.flags;
  }

  lemma ReleaseKeeps(c: Config, init: Store, s: State, t: Tid)
    requires c.order == MutexFirst && Inv(c, init, s) && t in s.frames && ReleaseStep(c, s, t).Some?
    ensures Inv(c, init, ReleaseStep(c, s, t).value)
  {
    match s.frames[t].pc
    case Release2(answer) => DropFlockKeeps(c, init, s, t, answer);
    case Release1(answer) => DropMutexKeeps(c, init, s, t, answer);
  }

  lemma ReturnKeeps(c: Config, init: Store, s: State, t: Tid)
    requires Inv(c, init, s) && t in s.frames && s.frames[t].pc.Returned?
    ensures Inv(c, init, Forget(s, t))
  {
    var s' := Forget(s, t);
    assert MutexInv(s') && FlockInv(s');
    forall u | u in s'.frames ensures FrameInv(c, s', u) { FrameSame(c, s, s', u); }
  }

  lemma TickKeeps(c: Config, init: Store, s: State, d: nat)
    requires Inv(c, init, s)
    ensures Inv(c, init, s.(now := s.now + d))
  {
    var s' := s.(now := s.now + d);
    assert MutexInv(s') && FlockInv(s');
    forall u | u in s'.frames ensures FrameInv(c, s', u) { FrameSame(c, s, s', u); }
  }

  lemma LockStepKeeps(c: Config, init: Store, s: State, a: Action)
    requires c.order == MutexFirst && Inv(c, init, s) && (a.Acquire? || a.LockTimeout?)
    requires a.t in s.frames && ThreadStep(c, s, a).Some?
    ensures Inv(c, init, ThreadStep(c, s, a).value)
  {
    if a.Acquire? { AcquireKeeps(c, init, s, a.t); } else { TimeoutKeeps(c, init, s, a.t); }
  }

  lemma LeaveStepKeeps(c: Config, init: Store, s: State, a: Action)
    requires c.order == MutexFirst && Inv(c, init, s) && (a.Release? || a.Return?)
    requires a.t in s.frames && ThreadStep(c, s, a).Some?
    ensures Inv(c, init, ThreadStep(c, s, a).value)
  {
    if a.Release? { ReleaseKeeps(c, init, s, a.t); } else { ReturnKeeps(c, init, s, a.t); }
  }

  lemma FileStepKeeps(c: Config, init: Store, s: State, a: Action)
    requires Inv(c, init, s)
    requires a.Load? || a.LoadFail? || a.Execute? || a.WriteTemp? || a.SaveFail? || a.Rename?
    requires a.t in s.frames && ThreadStep(c, s, a).Some?
    ensures Inv(c, init, ThreadStep(c, s, a).value)
  {
    match a
    case Load(t) => LoadKeeps(c, init, s, t, true);
    case LoadFail(t) => LoadKeeps(c, init, s, t, false);
    case Execute(t) => ExecuteKeeps(c, init, s, t);
    case WriteTemp(t) => WriteTempKeeps(c, init, s, t);
    case SaveFail(t) => SaveFailKeeps(c, init, s, t);
    case Rename(t) => RenameKeeps(c, init, s, t);
  }

  lemma ThreadStepKeeps(c: Config, init: Store, s: State, a: Action)
    requires c.order == MutexFirst && Inv(c, init, s) && !a.Tick? && !a.Stop? && !a.Invoke?
    requires a.t in s.frames && ThreadStep(c, s, a).Some?
    ensures Inv(c, init, ThreadStep(c, s, a).value)
  {
    if a.Acquire? || a.LockTimeout? {
      LockStepKeeps(c, init, s, a);
    } else if a.Release? || a.Return? {
      LeaveStepKeeps(c, init, s, a);
    } else {
      FileStepKeeps(c, init, s, a);
    }
  }

  /** Every step of the mutex-first protocol keeps the invariant. */
  lemma StepKeeps(c: Config, init: Store, s: State, a: Action)
    requires c.order == MutexFirst && Inv(c, init, s) && Next(c, s, a).Some?
    ensures Inv(c, init, Next(c, s, a).value)
  {
    if a.Tick? {
      assert Next(c, s, a) == Some(s.(now := s.now + a.d));
      TickKeeps(c, init, s, a.d);
    } else if a.Stop? {
      assert Next(c, s, a) == Some(Halt(c, s, a.p));
      HaltKeeps(c, init, s, a.p);
    } else if a.Invoke? {
      assert Next(c, s, a) == Some(Enter(s, a.t, a.inst, a.op));
      InvokeKeeps(c, init, s, a.t, a.inst, a.op);
    } else {
      assert Next(c, s, a) == ThreadStep(c, s, a);
      ThreadStepKeeps(c, init, s, a);
    }
  }

  lemma {:induction false} RunKeeps(c: Config, init: Store, s: State, actions: seq<Action>)
    requires c.order == MutexFirst && Inv(c, init, s) && Run(c, s, actions).Some?
    ensures Inv(c, init, Run(c, s, actions).value)
    decreases |actions|
  {
    if actions != [] {
      StepKeeps(c, init, s, actions[0]);
      RunKeeps(c, init, Next(c, s, actions[0]).value, actions[1..]);
    }
  }
}
