/** The store protocol never gets stuck: from every reachable state the operations in progress can
run to their end, after which no lock is held, whatever failed or stopped before. */
module Progress {
  import opened Text
  import opened Records
  import opened StoreMachine
  import opened Handlers

  /** Steps a thread still has to make, at most. */
  function Rank(pc: Pc): (n: nat) {
    match pc
    case Acquire1 => 8
    case Acquire2 => 7
    case Locked => 6
    case Loaded(_) => 5
    case Saving(_, _, _) => 4
    case TempReady(_, _, _) => 3
    case Release2(_) => 2
    case Release1(_) => 1
    case Returned(_) => 0
  }

  /** Nobody stands between thread `t` and the end of its operation. */
  ghost predicate Clear(s: State, t: Tid) {
    && t in s.frames
    && (forall u | u in s.frames && u != t :: !HasFlock(s.frames[u].pc))
    && (s.frames[t].inst in s.mutexes ==> s.mutexes[s.frames[t].inst] == t)
  }

  /** The decided record `ref` is as it was. */
  ghost predicate Keeps(m: Store, n: Store, ref: string) {
    ref in m && m[ref].decision.Some? ==> ref in n && n[ref] == m[ref]
  }

  lemma OnlyConsumeTouches(m: Store, op: Op, now: int, ttl: int, ref: string)
    requires op != Consume(ref)
    ensures Keeps(m, Atomic(m, op, now, ttl).0, ref)
  {
  }

  /** Thread `t` has moved on, and nothing else has changed but the locks, its temp file and, by
      its own operation, the file. */
  ghost predicate Moved(s: State, s': State, t: Tid) {
    && t in s.frames && t in s'.frames
    && s'.frames == s.frames[t := s.frames[t].(pc := s'.frames[t].pc)]
    && s'.now == s.now && s'.down == s.down && s'.temps.Keys <= s.temps.Keys + {t}
    && (forall ref | s.frames[t].op != Consume(ref) :: Keeps(s.file, s'.file, ref))
  }

  ghost predicate Ahead(c: Config, s: State, t: Tid, a: Action, s': State) {
    && Internal(a) && !a.Tick? && a.t == t && t in s.frames && ThreadStep(c, s, a) == Some(s')
    && Moved(s, s', t) && Rank(s'.frames[t].pc) < Rank(s.frames[t].pc) && Clear(s', t)
  }

  lemma FindsMutexFree(s: State, t: Tid)
    requires MutexInv(s) && Clear(s, t) && s.frames[t].pc == Acquire1
    ensures s.frames[t].inst !in s.mutexes
  {
  }

  lemma FindsFlockFree(s: State, t: Tid)
    requires MutexInv(s) && FlockInv(s) && Clear(s, t) && s.frames[t].pc == Acquire2
    ensures s.frames[t].inst !in s.flags && s.osOwner.None?
  {
    match s.osOwner
    case None =>
    case Some(i) => assert false;
  }

  lemma Acquires(c: Config, s: State, t: Tid) returns (s': State)
    requires c.order == MutexFirst && MutexInv(s) && FlockInv(s) && Clear(s, t)
    requires s.frames[t].pc == Acquire1 || s.frames[t].pc == Acquire2
    ensures Ahead(c, s, t, Acquire(t), s')
  {
    var f := s.frames[t];
    if f.pc == Acquire1 {
      FindsMutexFree(s, t);
      s' := s.(mutexes := s.mutexes[f.inst := t], frames := s.frames[t := f.(pc := Acquire2)]);
    } else {
      FindsFlockFree(s, t);
      s' := s.(osOwner := Some(f.inst), flags := s.flags + {f.inst}, frames := s.frames[t := f.(pc := Locked)]);
    }
    assert AcquireStep(c, s, t) == Some(s');
  }

  lemma Loads(c: Config, s: State, t: Tid) returns (s': State)
    requires Clear(s, t) && s.frames[t].pc.Locked?
    ensures Ahead(c, s, t, Load(t), s')
  {
    s' := Goto(s, t, Loaded(s.file));
  }

  lemma Executes(c: Config, s: State, t: Tid) returns (s': State)
    requires Clear(s, t) && s.frames[t].pc.Loaded?
    ensures Ahead(c, s, t, Execute(t), s')
  {
    var f := s.frames[t];
    match Body(f.pc.local, f.op, s.now, c.ttl(f.inst))
    case Reply(answer) => s' := Goto(StoreMachine.Record(s, t, s.now, answer), t, Release2(answer));
    case Save(next, answer) => s' := Goto(s.(temps := s.temps[t := Partial]), t, Saving(next, answer, s.now));
  }

  lemma WritesTemp(c: Config, s: State, t: Tid) returns (s': State)
    requires Clear(s, t) && s.frames[t].pc.Saving?
    ensures Ahead(c, s, t, WriteTemp(t), s')
  {
    var pc := s.frames[t].pc;
    s' := Goto(s.(temps := s.temps[t := Synced(pc.next)]), t, TempReady(pc.next, pc.answer, pc.at));
  }

  lemma RenameTouches(c: Config, s: State, t: Tid)
    requires t in s.frames && FrameInv(c, s, t) && s.frames[t].pc.TempReady?
    ensures forall ref | s.frames[t].op != Consume(ref) :: Keeps(s.file, s.frames[t].pc.next, ref)
  {
    var f := s.frames[t];
    forall ref | f.op != Consume(ref) ensures Keeps(s.file, f.pc.next, ref) {
      OnlyConsumeTouches(s.file, f.op, f.pc.at, c.ttl(f.inst), ref);
    }
  }

  lemma Renames(c: Config, s: State, t: Tid) returns (s': State)
    requires Clear(s, t) && FrameInv(c, s, t) && s.frames[t].pc.TempReady?
    ensures Ahead(c, s, t, Rename(t), s')
  {
    RenameTouches(c, s, t);
    var pc := s.frames[t].pc;
    var saved := s.(file := pc.next, temps := s.temps - {t});
    s' := Goto(StoreMachine.Record(saved, t, pc.at, pc.answer), t, Release2(pc.answer));
    assert RenameStep(s, t) == Some(s');
  }

  lemma Releases(c: Config, s: State, t: Tid) returns (s': State)
    requires c.order == MutexFirst && Clear(s, t) && (s.frames[t].pc.Release2? || s.frames[t].pc.Release1?)
    ensures Ahead(c, s, t, Release(t), s')
  {
    var pc := s.frames[t].pc;
    if pc.Release2? {
      s' := Goto(DropFlock(s, t), t, Release1(pc.answer));
    } else {
      s' := Goto(DropMutex(s, t), t, Returned(pc.answer));
    }
    assert ReleaseStep(c, s, t) == Some(s');
  }

  lemma Advances(c: Config, init: Store, s: State, t: Tid) returns (a: Action, s': State)
    requires c.order == MutexFirst && Inv(c, init, s) && Clear(s, t) && !s.frames[t].pc.Returned?
    ensures Ahead(c, s, t, a, s')
  {
    assert FrameInv(c, s, t);
    match s.frames[t].pc
    case Acquire1 => a := Acquire(t); s' := Acquires(c, s, t);
    case Acquire2 => a := Acquire(t); s' := Acquires(c, s, t);
    case Locked => a := Load(t); s' := Loads(c, s, t);
    case Loaded(_) => a := Execute(t); s' := Executes(c, s, t);
    case Saving(_, _, _) => a := WriteTemp(t); s' := WritesTemp(c, s, t);
    case TempReady(_, _, _) => a := Rename(t); s' := Renames(c, s, t);
    case Release2(_) => a := Release(t); s' := Releases(c, s, t);
    case Release1(_) => a := Release(t); s' := Releases(c, s, t);
  }

  ghost predicate AllInternal(actions: seq<Action>) {
    forall i | 0 <= i < |actions| :: Internal(actions[i])
  }

  lemma MovedOn(s: State, m: State, s': State, t: Tid)
    requires Moved(s, m, t) && Moved(m, s', t)
    ensures Moved(s, s', t)
  {
  }

  /** A thread with nobody in its way runs to the end of its operation. */
  lemma {:induction false} Finishes(c: Config, init: Store, s: State, t: Tid) returns (actions: seq<Action>, s': State)
    requires c.order == MutexFirst && Inv(c, init, s) && Clear(s, t)
    ensures AllInternal(actions) && Run(c, s, actions) == Some(s') && Inv(c, init, s')
    ensures Moved(s, s', t) && s'.frames[t].pc.Returned?
    decreases Rank(s.frames[t].pc)
  {
    if s.frames[t].pc.Returned? {
      actions, s' := [], s;
    } else {
      var a, m := Advances(c, init, s, t);
      assert Inv(c, init, m) by { ThreadStepKeeps(c, init, s, a); }
      assert Run(c, s, [a]) == Some(m) by { RunOne(c, s, a, m); }
      var rest;
      rest, s' := Finishes(c, init, m, t);
      assert Moved(s, s', t) by { MovedOn(s, m, s', t); }
      RunJoin(c, s, [a], m, rest, s');
      actions := [a] + rest;
    }
  }

  ghost function Unfinished(s: State): (u: set<Tid>) {
    set t | t in s.frames && !s.frames[t].pc.Returned?
  }

  /** While something is in progress, someone can finish. */
  lemma SomeoneClear(s: State) returns (t: Tid)
    requires MutexInv(s) && FlockInv(s) && Unfinished(s) != {}
    ensures t in Unfinished(s) && Clear(s, t)
  {
    if u :| u in s.frames && HasFlock(s.frames[u].pc) {
      t := u;
      AllOthersOutside(s, t);
    } else if u :| u in s.frames && HasMutex(s.frames[u].pc) {
      t := u;
    } else {
      t :| t in Unfinished(s);
    }
  }

  /** No lock of any kind is held. */
  ghost predicate Unlocked(s: State) {
    s.mutexes == map[] && s.flags == {} && s.osOwner.None?
  }

  lemma RestMeansUnlocked(s: State)
    requires MutexInv(s) && FlockInv(s) && Unfinished(s) == {}
    ensures Unlocked(s)
  {
    assert s.osOwner.Some? ==> s.osOwner.value in s.flags;
    assert forall i | i in s.mutexes :: s.mutexes[i] in Unfinished(s);
    assert s.mutexes.Keys == {};
  }

  /** The operations in progress are the same ones, further on; a decided record that none of them
      consumes is untouched. */
  ghost predicate Settles(s: State, s': State) {
    && s'.frames.Keys == s.frames.Keys && s'.now == s.now && s'.down == s.down
    && (forall t | t in s.frames :: s'.frames[t].op == s.frames[t].op && s'.frames[t].inst == s.frames[t].inst)
    && s'.temps.Keys <= s.temps.Keys + s.frames.Keys
    && (forall ref | NoneConsumes(s, ref) :: Keeps(s.file, s'.file, ref))
  }

  ghost predicate NoneConsumes(s: State, ref: string) {
    forall t | t in s.frames :: s.frames[t].op != Consume(ref)
  }

  lemma MovedSettles(s: State, m: State, s': State, t: Tid)
    requires Moved(s, m, t) && Settles(m, s')
    ensures Settles(s, s')
  {
    assert m.frames.Keys == s.frames.Keys;
    forall ref | NoneConsumes(s, ref) ensures Keeps(s.file, s'.file, ref) {
      assert NoneConsumes(m, ref);
      assert Keeps(s.file, m.file, ref) && Keeps(m.file, s'.file, ref);
    }
  }

  lemma OneLess(s: State, m: State, t: Tid)
    requires t in Unfinished(s) && Moved(s, m, t) && m.frames[t].pc.Returned?
    ensures |Unfinished(m)| < |Unfinished(s)|
  {
    assert Unfinished(m) == Unfinished(s) - {t};
  }

  /** One of the operations in progress returns. */
  lemma OneFinishes(c: Config, init: Store, s: State) returns (t: Tid, actions: seq<Action>, m: State)
    requires c.order == MutexFirst && Inv(c, init, s) && Unfinished(s) != {}
    ensures AllInternal(actions) && Run(c, s, actions) == Some(m) && Inv(c, init, m)
    ensures Moved(s, m, t) && |Unfinished(m)| < |Unfinished(s)|
  {
    t := SomeoneClear(s);
    actions, m := Finishes(c, init, s, t);
    OneLess(s, m, t);
  }

  /** From every state of every run, the operations in progress can all return; then no lock is held. */
  lemma {:induction false} StoreSettles(c: Config, init: Store, s: State) returns (actions: seq<Action>, s': State)
    requires c.order == MutexFirst && Inv(c, init, s)
    ensures AllInternal(actions) && Run(c, s, actions) == Some(s') && Inv(c, init, s')
    ensures Unfinished(s') == {} && Unlocked(s') && Settles(s, s')
    decreases |Unfinished(s)|
  {
    if Unfinished(s) == {} {
      actions, s' := [], s;
      RestMeansUnlocked(s);
    } else {
      var t, first, m := OneFinishes(c, init, s);
      var rest;
      rest, s' := StoreSettles(c, init, m);
      assert Settles(s, s') by { MovedSettles(s, m, s', t); }
      RunAppend(c, s, first, rest);
      actions := first + rest;
    }
  }
}
