/** The other half of the story: an approved call that is left alone does what was approved, in
full. Without it, a system that never does anything would satisfy every safety theorem. */
module Completion {
  import opened Text
  import opened Fingerprint
  import opened Records
  import opened Backend
  import opened StoreMachine
  import opened Gates
  import opened Handlers
  import opened HandlerInvariant
  import opened HandlerTheorems
  import opened Progress

  /** Nobody is in the way of thread `t` using instance `inst`. */
  ghost predicate Free(c: Config, s: State, t: Tid, inst: Inst) {
    && t !in s.frames && t !in s.temps && inst !in s.mutexes && inst !in s.flags && s.osOwner.None?
    && c.proc(inst) !in s.down
  }

  /** Where a store operation that nobody disturbs ends: its effect, one log entry, locks free. */
  function Ended(c: Config, s: State, t: Tid, inst: Inst, op: Op): (r: State) {
    var (file, answer) := Atomic(s.file, op, s.now, c.ttl(inst));
    s.(file := file, log := s.log + [StoreDone(t, op, inst, s.now, answer)])
  }

  function Waiting(c: Config, s: State, t: Tid, inst: Inst, op: Op): (r: State) {
    var answer := Atomic(s.file, op, s.now, c.ttl(inst)).1;
    var e := Ended(c, s, t, inst, op);
    e.(frames := s.frames[t := Frame(inst, op, |s.log|, Returned(answer))])
  }

  /** Inside both locks, at `pc`. */
  function Inside(s: State, t: Tid, inst: Inst, op: Op, since: nat, pc: Pc): (r: State) {
    s.(osOwner := Some(inst), mutexes := s.mutexes[inst := t], flags := s.flags + {inst},
       frames := s.frames[t := Frame(inst, op, since, pc)])
  }

  /** Holding the mutex and waiting for the flock, or about to give the mutex back, at `pc`. */
  function WithMutex(s: State, t: Tid, inst: Inst, op: Op, since: nat, pc: Pc): (r: State) {
    s.(mutexes := s.mutexes[inst := t], frames := s.frames[t := Frame(inst, op, since, pc)])
  }

  function Outside(s: State, t: Tid, inst: Inst, op: Op, since: nat, pc: Pc): (r: State) {
    s.(frames := s.frames[t := Frame(inst, op, since, pc)])
  }

  lemma TakesMutex(c: Config, s: State, t: Tid, inst: Inst, op: Op, since: nat)
    requires c.order == MutexFirst && inst !in s.mutexes
    ensures AcquireStep(c, Outside(s, t, inst, op, since, Acquire1), t)
        == Some(WithMutex(s, t, inst, op, since, Acquire2))
  {
    var s0 := Outside(s, t, inst, op, since, Acquire1);
    assert s0.frames[t := s0.frames[t].(pc := Acquire2)] == WithMutex(s, t, inst, op, since, Acquire2).frames;
  }

  lemma TakesFlock(c: Config, s: State, t: Tid, inst: Inst, op: Op, since: nat)
    requires c.order == MutexFirst && inst !in s.flags && s.osOwner.None?
    ensures AcquireStep(c, WithMutex(s, t, inst, op, since, Acquire2), t) == Some(Inside(s, t, inst, op, since, Locked))
  {
    var s0 := WithMutex(s, t, inst, op, since, Acquire2);
    assert s0.frames[t := s0.frames[t].(pc := Locked)] == Inside(s, t, inst, op, since, Locked).frames;
  }

  lemma DropsFlock(c: Config, s: State, t: Tid, inst: Inst, op: Op, since: nat, answer: Answer)
    requires c.order == MutexFirst && inst !in s.flags && s.osOwner.None?
    ensures ReleaseStep(c, Inside(s, t, inst, op, since, Release2(answer)), t)
         == Some(WithMutex(s, t, inst, op, since, Release1(answer)))
  {
    var s0, s1 := Inside(s, t, inst, op, since, Release2(answer)), WithMutex(s, t, inst, op, since, Release1(answer));
    assert s0.flags - {inst} == s.flags;
    assert s0.frames[t := s0.frames[t].(pc := Release1(answer))] == s1.frames;
  }

  lemma DropsMutex(c: Config, s: State, t: Tid, inst: Inst, op: Op, since: nat, answer: Answer)
    requires c.order == MutexFirst && inst !in s.mutexes
    ensures ReleaseStep(c, WithMutex(s, t, inst, op, since, Release1(answer)), t)
         == Some(Outside(s, t, inst, op, since, Returned(answer)))
  {
    var s0, s1 := WithMutex(s, t, inst, op, since, Release1(answer)), Outside(s, t, inst, op, since, Returned(answer));
    assert s0.mutexes - {inst} == s.mutexes;
    assert s0.frames[t := s0.frames[t].(pc := Returned(answer))] == s1.frames;
  }

  lemma ComesIn(c: Config, s: State, t: Tid, inst: Inst, op: Op, n: nat)
    requires c.order == MutexFirst && Free(c, s, t, inst)
    ensures Run(c, Outside(s, t, inst, op, n, Acquire1), [Acquire(t)] + [Acquire(t)])
         == Some(Inside(s, t, inst, op, n, Locked))
  {
    var s0, s1 := Outside(s, t, inst, op, n, Acquire1), WithMutex(s, t, inst, op, n, Acquire2);
    TakesMutex(c, s, t, inst, op, n);
    RunOne(c, s0, Acquire(t), s1);
    TakesFlock(c, s, t, inst, op, n);
    RunOne(c, s1, Acquire(t), Inside(s, t, inst, op, n, Locked));
    RunJoin(c, s0, [Acquire(t)], s1, [Acquire(t)], Inside(s, t, inst, op, n, Locked));
  }

  /** Leaving both locks from `Release2`. */
  lemma GoesOut(c: Config, s: State, t: Tid, inst: Inst, op: Op, n: nat, answer: Answer)
    requires c.order == MutexFirst && Free(c, s, t, inst)
    ensures Run(c, Inside(s, t, inst, op, n, Release2(answer)), [Release(t)] + [Release(t)])
         == Some(Outside(s, t, inst, op, n, Returned(answer)))
  {
    var s0, s1 := Inside(s, t, inst, op, n, Release2(answer)), WithMutex(s, t, inst, op, n, Release1(answer));
    DropsFlock(c, s, t, inst, op, n, answer);
    RunOne(c, s0, Release(t), s1);
    DropsMutex(c, s, t, inst, op, n, answer);
    RunOne(c, s1, Release(t), Outside(s, t, inst, op, n, Returned(answer)));
    RunJoin(c, s0, [Release(t)], s1, [Release(t)], Outside(s, t, inst, op, n, Returned(answer)));
  }

  lemma Reads(c: Config, s: State, t: Tid, inst: Inst, op: Op, n: nat)
    ensures Run(c, Inside(s, t, inst, op, n, Locked), [Load(t)]) == Some(Inside(s, t, inst, op, n, Loaded(s.file)))
  {
    var s0, s1 := Inside(s, t, inst, op, n, Locked), Inside(s, t, inst, op, n, Loaded(s.file));
    assert s0.frames[t := s0.frames[t].(pc := Loaded(s.file))] == s1.frames;
    RunOne(c, s0, Load(t), s1);
  }

  function Logged(s: State, t: Tid, inst: Inst, op: Op, answer: Answer): (r: State) {
    s.(log := s.log + [StoreDone(t, op, inst, s.now, answer)])
  }

  /** The part under the locks, for an operation that only answers. */
  lemma Answers(c: Config, s: State, t: Tid, inst: Inst, op: Op, n: nat, answer: Answer)
    requires Body(s.file, op, s.now, c.ttl(inst)) == Reply(answer)
    ensures Run(c, Inside(s, t, inst, op, n, Loaded(s.file)), [Execute(t)])
         == Some(Inside(Logged(s, t, inst, op, answer), t, inst, op, n, Release2(answer)))
  {
    var s0 := Inside(s, t, inst, op, n, Loaded(s.file));
    var s1 := Inside(Logged(s, t, inst, op, answer), t, inst, op, n, Release2(answer));
    assert s0.frames[t := s0.frames[t].(pc := Release2(answer))] == s1.frames;
    RunOne(c, s0, Execute(t), s1);
  }

  function Staged(s: State, t: Tid, inst: Inst, op: Op, n: nat, temp: Temp, pc: Pc): (r: State) {
    Inside(s, t, inst, op, n, pc).(temps := s.temps[t := temp])
  }

  lemma BeginsSave(c: Config, s: State, t: Tid, inst: Inst, op: Op, n: nat, next: Store, answer: Answer)
    requires Body(s.file, op, s.now, c.ttl(inst)) == Save(next, answer)
    ensures Run(c, Inside(s, t, inst, op, n, Loaded(s.file)), [Execute(t)])
         == Some(Staged(s, t, inst, op, n, Partial, Saving(next, answer, s.now)))
  {
    var s0 := Inside(s, t, inst, op, n, Loaded(s.file));
    var s1 := Staged(s, t, inst, op, n, Partial, Saving(next, answer, s.now));
    assert s0.frames[t := s0.frames[t].(pc := Saving(next, answer, s.now))] == s1.frames;
    RunOne(c, s0, Execute(t), s1);
  }

  lemma WritesTemp(c: Config, s: State, t: Tid, inst: Inst, op: Op, n: nat, next: Store, answer: Answer)
    ensures Run(c, Staged(s, t, inst, op, n, Partial, Saving(next, answer, s.now)), [WriteTemp(t)])
         == Some(Staged(s, t, inst, op, n, Synced(next), TempReady(next, answer, s.now)))
  {
    var s0 := Staged(s, t, inst, op, n, Partial, Saving(next, answer, s.now));
    var s1 := Staged(s, t, inst, op, n, Synced(next), TempReady(next, answer, s.now));
    assert s0.frames[t := s0.frames[t].(pc := TempReady(next, answer, s.now))] == s1.frames;
    assert s0.temps[t := Synced(next)] == s1.temps;
    RunOne(c, s0, WriteTemp(t), s1);
  }

  lemma Renames(c: Config, s: State, t: Tid, inst: Inst, op: Op, n: nat, next: Store, answer: Answer)
    requires t !in s.temps
    ensures Run(c, Staged(s, t, inst, op, n, Synced(next), TempReady(next, answer, s.now)), [Action.Rename(t)])
         == Some(Inside(Logged(s.(file := next), t, inst, op, answer), t, inst, op, n, Release2(answer)))
  {
    var s0 := Staged(s, t, inst, op, n, Synced(next), TempReady(next, answer, s.now));
    var s1 := Inside(Logged(s.(file := next), t, inst, op, answer), t, inst, op, n, Release2(answer));
    assert s0.frames[t := s0.frames[t].(pc := Release2(answer))] == s1.frames;
    assert s0.temps - {t} == s.temps;
    RunOne(c, s0, Action.Rename(t), s1);
  }

  /** The part under the locks, for an operation that saves: the temp file, then the rename. */
  lemma Saves(c: Config, s: State, t: Tid, inst: Inst, op: Op, n: nat, next: Store, answer: Answer)
    requires Body(s.file, op, s.now, c.ttl(inst)) == Save(next, answer) && t !in s.temps
    ensures Run(c, Inside(s, t, inst, op, n, Loaded(s.file)), [Execute(t)] + [WriteTemp(t)] + [Action.Rename(t)])
         == Some(Inside(Logged(s.(file := next), t, inst, op, answer), t, inst, op, n, Release2(answer)))
  {
    var s0 := Inside(s, t, inst, op, n, Loaded(s.file));
    var s1 := Staged(s, t, inst, op, n, Partial, Saving(next, answer, s.now));
    var s2 := Staged(s, t, inst, op, n, Synced(next), TempReady(next, answer, s.now));
    var s3 := Inside(Logged(s.(file := next), t, inst, op, answer), t, inst, op, n, Release2(answer));
    BeginsSave(c, s, t, inst, op, n, next, answer);
    WritesTemp(c, s, t, inst, op, n, next, answer);
    RunJoin(c, s0, [Execute(t)], s1, [WriteTemp(t)], s2);
    Renames(c, s, t, inst, op, n, next, answer);
    RunJoin(c, s0, [Execute(t)] + [WriteTemp(t)], s2, [Action.Rename(t)], s3);
  }

  /** Under the locks, either way. */
  lemma Works(c: Config, s: State, t: Tid, inst: Inst, op: Op, n: nat) returns (actions: seq<Action>)
    requires Precheck(op).None? && t !in s.temps
    ensures AllInternal(actions)
    ensures Run(c, Inside(s, t, inst, op, n, Loaded(s.file)), actions)
         == Some(Inside(Ended(c, s, t, inst, op), t, inst, op, n, Release2(Atomic(s.file, op, s.now, c.ttl(inst)).1)))
  {
    match Body(s.file, op, s.now, c.ttl(inst))
    case Reply(a) =>
      actions := [Execute(t)];
      Answers(c, s, t, inst, op, n, a);
      assert Ended(c, s, t, inst, op) == Logged(s, t, inst, op, a);
    case Save(next, a) =>
      actions := [Execute(t)] + [WriteTemp(t)] + [Action.Rename(t)];
      Saves(c, s, t, inst, op, n, next, a);
      assert Ended(c, s, t, inst, op) == Logged(s.(file := next), t, inst, op, a);
  }

  lemma EnteredOutside(s: State, t: Tid, inst: Inst, op: Op)
    requires Precheck(op).None?
    ensures StoreMachine.Enter(s, t, inst, op) == Outside(s, t, inst, op, |s.log|, Acquire1)
  {
  }

  lemma EndedFree(c: Config, s: State, t: Tid, inst: Inst, op: Op)
    requires Free(c, s, t, inst)
    ensures Free(c, Ended(c, s, t, inst, op), t, inst)
    ensures Outside(Ended(c, s, t, inst, op), t, inst, op, |s.log|, Returned(Atomic(s.file, op, s.now, c.ttl(inst)).1))
         == Waiting(c, s, t, inst, op)
  {
  }

  /** A store operation that nobody disturbs runs to its end. */
  lemma OperationCompletes(c: Config, s: State, t: Tid, inst: Inst, op: Op) returns (actions: seq<Action>)
    requires c.order == MutexFirst && Free(c, s, t, inst) && Precheck(op).None?
    ensures AllInternal(actions)
    ensures Run(c, StoreMachine.Enter(s, t, inst, op), actions) == Some(Waiting(c, s, t, inst, op))
  {
    var n, answer, e := |s.log|, Atomic(s.file, op, s.now, c.ttl(inst)).1, Ended(c, s, t, inst, op);
    var s0 := StoreMachine.Enter(s, t, inst, op);
    var locked, loaded := Inside(s, t, inst, op, n, Locked), Inside(s, t, inst, op, n, Loaded(s.file));
    var done := Inside(e, t, inst, op, n, Release2(answer));
    var enter, leave := [Acquire(t)] + [Acquire(t)], [Release(t)] + [Release(t)];
    assert Run(c, s0, enter) == Some(locked) by {
      EnteredOutside(s, t, inst, op);
      ComesIn(c, s, t, inst, op, n);
    }
    assert Run(c, locked, [Load(t)]) == Some(loaded) by { Reads(c, s, t, inst, op, n); }
    var work := Works(c, s, t, inst, op, n);
    assert Run(c, done, leave) == Some(Waiting(c, s, t, inst, op)) by {
      EndedFree(c, s, t, inst, op);
      GoesOut(c, e, t, inst, op, n, answer);
    }
    actions := FourRuns(c, s0, enter, locked, [Load(t)], loaded, work, done, leave, Waiting(c, s, t, inst, op));
  }

  lemma FourRuns(c: Config, s: State, a: seq<Action>, s1: State, b: seq<Action>, s2: State, d: seq<Action>, s3: State,
                 e: seq<Action>, s4: State) returns (all: seq<Action>)
    requires Run(c, s, a) == Some(s1) && Run(c, s1, b) == Some(s2) && Run(c, s2, d) == Some(s3)
        && Run(c, s3, e) == Some(s4)
    requires AllInternal(a) && AllInternal(b) && AllInternal(d) && AllInternal(e)
    ensures Run(c, s, all) == Some(s4) && AllInternal(all)
  {
    RunJoin(c, s, a, s1, b, s2);
    RunJoin(c, s, a + b, s2, d, s3);
    RunJoin(c, s, a + b + d, s3, e, s4);
    all := a + b + d + e;
  }

  // ----- moves of the whole system

  lemma {:induction false} StepsAppend(c: Config, y: System, a: seq<Move>, b: seq<Move>)
    requires Steps(c, y, a).Some?
    ensures Steps(c, y, a + b) == Steps(c, Steps(c, y, a).value, b)
    decreases |a|
  {
    if a == [] {
      assert a + b == b;
    } else {
      assert (a + b)[1..] == a[1..] + b;
      StepsAppend(c, Step(c, y, a[0]).value, a[1..], b);
    }
  }

  /** `moves` lead from `y` to `z`. */
  ghost predicate Leads(c: Config, y: System, moves: seq<Move>, z: System) {
    Steps(c, y, moves) == Some(z)
  }

  lemma LeadsOn(c: Config, y: System, a: seq<Move>, m: System, b: seq<Move>, z: System)
    requires Leads(c, y, a, m) && Leads(c, m, b, z)
    ensures Leads(c, y, a + b, z)
  {
    StepsAppend(c, y, a, b);
  }

  lemma OneMove(c: Config, y: System, m: Move, z: System)
    requires Step(c, y, m) == Some(z)
    ensures Leads(c, y, [m], z)
  {
  }

  lemma {:induction false} InnerMoves(c: Config, y: System, actions: seq<Action>) returns (moves: seq<Move>)
    requires AllInternal(actions) && Run(c, y.store, actions).Some?
    ensures Leads(c, y, moves, y.(store := Run(c, y.store, actions).value))
    decreases |actions|
  {
    if actions == [] {
      moves := [];
    } else {
      var s := Next(c, y.store, actions[0]).value;
      var z := y.(store := s);
      assert Internal(actions[0]);
      OneMove(c, y, Inner(actions[0]), z);
      var rest := InnerMoves(c, z, actions[1..]);
      moves := [Inner(actions[0])] + rest;
      LeadsOn(c, y, [Inner(actions[0])], z, rest, y.(store := Run(c, y.store, actions).value));
    }
  }

  // ----- one call, step by step

  function At(s: State, calls: map<Tid, Call>, t: Tid, call: Call, stage: Stage): (y: System) {
    System(s, calls[t := call.(stage := stage)])
  }

  lemma MoveTo(y: System, s: State, calls: map<Tid, Call>, t: Tid, call: Call, from: Stage, to: Stage)
    requires y == At(s, calls, t, call, from)
    ensures To(y, t, to) == At(s, calls, t, call, to)
  {
  }

  /** A call's store operation that nobody disturbs runs until it can return. */
  lemma StoreWaits(c: Config, s: State, calls: map<Tid, Call>, t: Tid, call: Call, op: Op, stage: Stage)
    returns (moves: seq<Move>)
    requires c.order == MutexFirst && Free(c, s, t, call.inst) && Precheck(op).None?
    ensures Leads(c, At(StoreMachine.Enter(s, t, call.inst, op), calls, t, call, stage), moves,
                  At(Waiting(c, s, t, call.inst, op), calls, t, call, stage))
  {
    var actions := OperationCompletes(c, s, t, call.inst, op);
    moves := InnerMoves(c, At(StoreMachine.Enter(s, t, call.inst, op), calls, t, call, stage), actions);
  }

  lemma WaitingReturns(c: Config, s: State, t: Tid, inst: Inst, op: Op)
    requires t !in s.frames
    ensures Forget(Waiting(c, s, t, inst, op), t) == Ended(c, s, t, inst, op)
  {
    assert Waiting(c, s, t, inst, op).frames - {t} == s.frames;
  }

  lemma VerifyReturns(c: Config, s: State, calls: map<Tid, Call>, t: Tid, call: Call)
    requires t !in s.frames
    requires Approves(call.deps, Atomic(s.file, Get(call.ref), s.now, c.ttl(call.inst)).1, call.candidate)
    ensures VerifyReturnStep(At(Waiting(c, s, t, call.inst, Get(call.ref)), calls, t, call, Verifying), t)
         == Some(At(Ended(c, s, t, call.inst, Get(call.ref)), calls, t, call, Verified))
  {
    var e := Ended(c, s, t, call.inst, Get(call.ref));
    WaitingReturns(c, s, t, call.inst, Get(call.ref));
    MoveTo(At(e, calls, t, call, Verifying), e, calls, t, call, Verifying, Verified);
  }

  lemma ConsumeReturns(c: Config, s: State, calls: map<Tid, Call>, t: Tid, call: Call)
    requires t !in s.frames && call.ref in s.file && !s.file[call.ref].consumed
    ensures ConsumeReturnStep(At(Waiting(c, s, t, call.inst, Consume(call.ref)), calls, t, call, Consuming), t)
         == Some(At(Ended(c, s, t, call.inst, Consume(call.ref)), calls, t, call, Executing(0)))
  {
    var e := Ended(c, s, t, call.inst, Consume(call.ref));
    WaitingReturns(c, s, t, call.inst, Consume(call.ref));
    ConsumeOnce(s.file, call.ref, s.now, c.ttl(call.inst));
    MoveTo(At(e, calls, t, call, Consuming), e, calls, t, call, Consuming, Executing(0));
  }

  lemma OwnMove(c: Config, y: System, m: Move, z: System)
    requires CallsOwn(m) && m.t in y.calls && CallStep(y, m) == Some(z)
    ensures Leads(c, y, [m], z)
  {
    assert Step(c, y, m) == CallStep(y, m);
    OneMove(c, y, m, z);
  }

  /** The approval is read and accepted. */
  lemma Verifies(c: Config, s: State, calls: map<Tid, Call>, t: Tid, call: Call) returns (moves: seq<Move>)
    requires c.order == MutexFirst && Free(c, s, t, call.inst)
    requires Approves(call.deps, Atomic(s.file, Get(call.ref), s.now, c.ttl(call.inst)).1, call.candidate)
    ensures Leads(c, At(StoreMachine.Enter(s, t, call.inst, Get(call.ref)), calls, t, call, Verifying), moves,
                  At(Ended(c, s, t, call.inst, Get(call.ref)), calls, t, call, Verified))
  {
    var op := Get(call.ref);
    var y := At(StoreMachine.Enter(s, t, call.inst, op), calls, t, call, Verifying);
    var m := At(Waiting(c, s, t, call.inst, op), calls, t, call, Verifying);
    var z := At(Ended(c, s, t, call.inst, op), calls, t, call, Verified);
    var inner := StoreWaits(c, s, calls, t, call, op, Verifying);
    assert Leads(c, m, [VerifyReturn(t)], z) by {
      VerifyReturns(c, s, calls, t, call);
      OwnMove(c, m, VerifyReturn(t), z);
    }
    LeadsOn(c, y, inner, m, [VerifyReturn(t)], z);
    moves := inner + [VerifyReturn(t)];
  }

  lemma ConsumeBegins(c: Config, s: State, calls: map<Tid, Call>, t: Tid, call: Call)
    requires t !in s.frames
    ensures Leads(c, At(s, calls, t, call, Attempted), [BeginConsume(t)],
                  At(StoreMachine.Enter(s, t, call.inst, Consume(call.ref)), calls, t, call, Consuming))
  {
    var y, e := At(s, calls, t, call, Attempted), StoreMachine.Enter(s, t, call.inst, Consume(call.ref));
    MoveTo(At(e, calls, t, call, Attempted), e, calls, t, call, Attempted, Consuming);
    OwnMove(c, y, BeginConsume(t), At(e, calls, t, call, Consuming));
  }

  /** The approval is spent. */
  lemma Spends(c: Config, s: State, calls: map<Tid, Call>, t: Tid, call: Call) returns (moves: seq<Move>)
    requires c.order == MutexFirst && Free(c, s, t, call.inst) && call.ref in s.file && !s.file[call.ref].consumed
    ensures Leads(c, At(s, calls, t, call, Attempted), moves,
                  At(Ended(c, s, t, call.inst, Consume(call.ref)), calls, t, call, Executing(0)))
  {
    var op := Consume(call.ref);
    var y := At(s, calls, t, call, Attempted);
    var entered := At(StoreMachine.Enter(s, t, call.inst, op), calls, t, call, Consuming);
    var m := At(Waiting(c, s, t, call.inst, op), calls, t, call, Consuming);
    var z := At(Ended(c, s, t, call.inst, op), calls, t, call, Executing(0));
    ConsumeBegins(c, s, calls, t, call);
    var inner := StoreWaits(c, s, calls, t, call, op, Consuming);
    LeadsOn(c, y, [BeginConsume(t)], entered, inner, m);
    assert Leads(c, m, [ConsumeReturn(t)], z) by {
      ConsumeReturns(c, s, calls, t, call);
      OwnMove(c, m, ConsumeReturn(t), z);
    }
    LeadsOn(c, y, [BeginConsume(t)] + inner, m, [ConsumeReturn(t)], z);
    moves := [BeginConsume(t)] + inner + [ConsumeReturn(t)];
  }

  /** Backend ready, attempt on record. */
  lemma GetsReady(c: Config, s: State, calls: map<Tid, Call>, t: Tid, call: Call) returns (moves: seq<Move>)
    requires BackendReady(call.deps, call.op, call.scopeIDs)
    ensures Leads(c, At(s, calls, t, call, Verified), moves,
                  At(if call.deps.sink then Note(s, Attempt(t, call.ref)) else s, calls, t, call, Attempted))
  {
    var y, m := At(s, calls, t, call, Verified), At(s, calls, t, call, Ready);
    MoveTo(y, s, calls, t, call, Verified, Ready);
    OneMove(c, y, CheckBackend(t), m);
    var u := if call.deps.sink then Note(s, Attempt(t, call.ref)) else s;
    MoveTo(At(u, calls, t, call, Ready), u, calls, t, call, Ready, Attempted);
    OneMove(c, m, WriteAttempt(t, true), At(u, calls, t, call, Attempted));
    LeadsOn(c, y, [CheckBackend(t)], m, [WriteAttempt(t, true)], At(u, calls, t, call, Attempted));
    moves := [CheckBackend(t)] + [WriteAttempt(t, true)];
  }

  function Wrotes(t: Tid, ref: string, plan: seq<Write>): (log: seq<Event>)
    ensures |log| == |plan| && forall i | 0 <= i < |plan| :: log[i] == Wrote(t, ref, plan[i])
  {
    seq(|plan|, i requires 0 <= i < |plan| => Wrote(t, ref, plan[i]))
  }

  function After(s: State, t: Tid, call: Call, k: nat): (r: State)
    requires k <= |call.plan|
  {
    s.(log := s.log + Wrotes(t, call.ref, call.plan[..k]))
  }

  lemma {:induction false} WritesOut(c: Config, s: State, calls: map<Tid, Call>, t: Tid, call: Call, k: nat)
    returns (moves: seq<Move>)
    requires k <= |call.plan|
    ensures Leads(c, At(s, calls, t, call, Executing(0)), moves, At(After(s, t, call, k), calls, t, call, Executing(k)))
    decreases k
  {
    if k == 0 {
      assert s.log + Wrotes(t, call.ref, call.plan[..0]) == s.log;
      moves := [];
    } else {
      var before := WritesOut(c, s, calls, t, call, k - 1);
      var u, v := After(s, t, call, k - 1), After(s, t, call, k);
      assert Note(u, Wrote(t, call.ref, call.plan[k - 1])) == v by {
        assert u.log + [Wrote(t, call.ref, call.plan[k - 1])] == v.log;
      }
      var m := At(u, calls, t, call, Executing(k - 1));
      MoveTo(At(v, calls, t, call, Executing(k - 1)), v, calls, t, call, Executing(k - 1), Executing(k));
      OneMove(c, m, CallBackend(t, true), At(v, calls, t, call, Executing(k)));
      LeadsOn(c, At(s, calls, t, call, Executing(0)), before, m, [CallBackend(t, true)],
              At(v, calls, t, call, Executing(k)));
      moves := before + [CallBackend(t, true)];
    }
  }

  lemma Completes(c: Config, s: State, calls: map<Tid, Call>, t: Tid, call: Call) returns (moves: seq<Move>)
    ensures Leads(c, At(s, calls, t, call, Executing(0)), moves,
                  At(After(s, t, call, |call.plan|), calls, t, call, Finished(true)))
  {
    var n := |call.plan|;
    var writes := WritesOut(c, s, calls, t, call, n);
    var u := After(s, t, call, n);
    var m := At(u, calls, t, call, Executing(n));
    MoveTo(m, u, calls, t, call, Executing(n), Finished(true));
    OneMove(c, m, Complete(t), At(u, calls, t, call, Finished(true)));
    LeadsOn(c, At(s, calls, t, call, Executing(0)), writes, m, [Complete(t)], At(u, calls, t, call, Finished(true)));
    moves := writes + [Complete(t)];
  }

  // ----- the whole call

  lemma {:induction false} WrittenByWrotes(log: seq<Event>, t: Tid, ref: string, plan: seq<Write>)
    requires NoWrites(log, t)
    ensures WrittenBy(log + Wrotes(t, ref, plan), t) == plan
    decreases |plan|
  {
    if plan == [] {
      assert log + Wrotes(t, ref, plan) == log;
      NoneWritten(log, t);
    } else {
      var n := |plan| - 1;
      var all := log + Wrotes(t, ref, plan);
      assert all[..|all| - 1] == log + Wrotes(t, ref, plan[..n]);
      WrittenByWrotes(log, t, ref, plan[..n]);
    }
  }

  /** The state in which the approval has just been spent. */
  function Spent(c: Config, sink: bool, s: State, t: Tid, inst: Inst, ref: string): (r: State) {
    var read := Ended(c, s, t, inst, Get(ref));
    Ended(c, if sink then Note(read, Attempt(t, ref)) else read, t, inst, Consume(ref))
  }

  lemma SpentFacts(c: Config, sink: bool, s: State, t: Tid, inst: Inst, ref: string)
    requires ref in s.file && !s.file[ref].consumed && NoWrites(s.log, t)
    ensures Spent(c, sink, s, t, inst, ref).file == s.file[ref := s.file[ref].(consumed := true)]
    ensures NoWrites(Spent(c, sink, s, t, inst, ref).log, t)
  {
  }

  lemma ReachesSpent(c: Config, s: State, calls: map<Tid, Call>, t: Tid, call: Call) returns (moves: seq<Move>)
    requires c.order == MutexFirst && Free(c, s, t, call.inst) && BackendReady(call.deps, call.op, call.scopeIDs)
    requires Approves(call.deps, Atomic(s.file, Get(call.ref), s.now, c.ttl(call.inst)).1, call.candidate)
    ensures Leads(c, At(StoreMachine.Enter(s, t, call.inst, Get(call.ref)), calls, t, call, Verifying), moves,
                  At(Spent(c, call.deps.sink, s, t, call.inst, call.ref), calls, t, call, Executing(0)))
  {
    var y := At(StoreMachine.Enter(s, t, call.inst, Get(call.ref)), calls, t, call, Verifying);
    var read := Ended(c, s, t, call.inst, Get(call.ref));
    var noted := if call.deps.sink then Note(read, Attempt(t, call.ref)) else read;
    var a := Verifies(c, s, calls, t, call);
    var b := GetsReady(c, read, calls, t, call);
    var e := Spends(c, noted, calls, t, call);
    LeadsOn(c, y, a, At(read, calls, t, call, Verified), b, At(noted, calls, t, call, Attempted));
    LeadsOn(c, y, a + b, At(noted, calls, t, call, Attempted), e,
            At(Spent(c, call.deps.sink, s, t, call.inst, call.ref), calls, t, call, Executing(0)));
    moves := a + b + e;
  }

  /** From any state of the system in which the store is not in use, a call that passes its gates,
      whose reference holds a matching, unused, unexpired approval and whose backend is ready can
      run to its end: it makes exactly its planned writes and marks exactly its approval used. */
  lemma ApprovedCallCompletes(c: Config, y: System, t: Tid, inst: Inst, d: Deps, x: Input)
    returns (moves: seq<Move>, z: System)
    requires c.order == MutexFirst && Free(c, y.store, t, inst) && t !in y.calls && NoWrites(y.store.log, t)
    requires Admit(d, x).Admitted? && BackendReady(d, Admit(d, x).op, Admit(d, x).scopeIDs)
    requires Approves(d, Atomic(y.store.file, Get(x.common.reference), y.store.now, c.ttl(inst)).1,
                      Admit(d, x).candidate)
    ensures Steps(c, y, moves) == Some(z) && t in z.calls && z.calls[t].stage == Finished(true)
    ensures WrittenBy(z.store.log, t) == Admit(d, x).plan
    ensures x.common.reference in y.store.file
         && z.store.file == y.store.file[x.common.reference := y.store.file[x.common.reference].(consumed := true)]
  {
    var s, ref, a := y.store, x.common.reference, Admit(d, x);
    var call := Call(inst, ref, d, |y.store.log|, a.candidate, a.op, a.plan, a.scopeIDs, Verifying);
    var m := At(StoreMachine.Enter(s, t, inst, Get(ref)), y.calls, t, call, Verifying);
    assert Next(c, s, Invoke(t, inst, Get(ref))) == Some(StoreMachine.Enter(s, t, inst, Get(ref)));
    OneMove(c, y, Start(t, inst, d, x), m);
    var spend := ReachesSpent(c, s, y.calls, t, call);
    var spent := Spent(c, d.sink, s, t, inst, ref);
    var writes := Completes(c, spent, y.calls, t, call);
    z := At(After(spent, t, call, |call.plan|), y.calls, t, call, Finished(true));
    LeadsOn(c, y, [Start(t, inst, d, x)], m, spend, At(spent, y.calls, t, call, Executing(0)));
    LeadsOn(c, y, [Start(t, inst, d, x)] + spend, At(spent, y.calls, t, call, Executing(0)), writes, z);
    moves := [Start(t, inst, d, x)] + spend + writes;
    SpentFacts(c, d.sink, s, t, inst, ref);
    assert call.plan[..|call.plan|] == call.plan;
    WrittenByWrotes(spent.log, t, ref, call.plan);
  }

  // ----- from every reachable state

  lemma SettledIsFree(c: Config, s: State, s': State, t: Tid, inst: Inst)
    requires Unlocked(s') && Settles(s, s') && t !in s.frames && t !in s.temps && c.proc(inst) !in s.down
    ensures Free(c, s', t, inst)
  {
  }

  lemma StillApproves(d: Deps, s: State, s': State, ref: string, ttl: int, candidate: Request)
    requires Settles(s, s') && NoneConsumes(s, ref) && Approves(d, Atomic(s.file, Get(ref), s.now, ttl).1, candidate)
    ensures Approves(d, Atomic(s'.file, Get(ref), s'.now, ttl).1, candidate)
    ensures ref in s.file && ref in s'.file && s'.file[ref] == s.file[ref]
  {
    assert Keeps(s.file, s'.file, ref);
  }

  lemma NoWritesYet(y: System, s': State, t: Tid)
    requires WritesOwned(y.(store := s')) && t !in y.calls
    ensures NoWrites(s'.log, t)
  {
    assert y.(store := s').calls == y.calls;
  }

  /** Whatever the system has been through, the store can come to rest without touching the calls. */
  lemma SystemSettles(c: Config, init: Store, y: System) returns (moves: seq<Move>, s: State)
    requires c.order == MutexFirst && SysInv(c, init, y)
    ensures Leads(c, y, moves, y.(store := s)) && SysInv(c, init, y.(store := s))
    ensures Unfinished(s) == {} && Unlocked(s) && Settles(y.store, s)
  {
    var actions;
    actions, s := StoreSettles(c, init, y.store);
    moves := InnerMoves(c, y, actions);
    MovesKeep(c, init, y, moves);
  }

  lemma AdmittedCallCanComplete(c: Config, file: Store, now: int, past: seq<Move>, y: System,
                                t: Tid, inst: Inst, d: Deps, x: Input)
    returns (moves: seq<Move>, z: System)
    requires Reaches(c, file, now, past, y)
    requires t !in y.calls && t !in y.store.frames && t !in y.store.temps && c.proc(inst) !in y.store.down
    requires Admit(d, x).Admitted? && BackendReady(d, Admit(d, x).op, Admit(d, x).scopeIDs)
    requires Approves(d, Atomic(y.store.file, Get(x.common.reference), y.store.now, c.ttl(inst)).1,
                      Admit(d, x).candidate)
    requires NoneConsumes(y.store, x.common.reference)
    ensures Steps(c, y, moves) == Some(z) && t in z.calls && z.calls[t].stage == Finished(true)
    ensures WrittenBy(z.store.log, t) == Admit(d, x).plan
    ensures var ref := x.common.reference;
            ref in y.store.file && ref in z.store.file && z.store.file[ref] == y.store.file[ref].(consumed := true)
  {
    assert SysInv(c, file, y) by { ReachedInv(c, file, now, past, y); }
    var rest, s := SystemSettles(c, file, y);
    var m := y.(store := s);
    SettledIsFree(c, y.store, s, t, inst);
    StillApproves(d, y.store, s, x.common.reference, c.ttl(inst), Admit(d, x).candidate);
    NoWritesYet(y, s, t);
    var run;
    run, z := ApprovedCallCompletes(c, m, t, inst, d, x);
    LeadsOn(c, y, rest, m, run, z);
    moves := rest + run;
  }

  /** The gates hold, and the backend can do what the tool needs in the scope the call names. */
  ghost predicate Enabled(d: Deps, x: Input) {
    Gated(d, x) && d.client && d.supports(ToolOp(x)) && (d.realWrites ==> ScopeIDs(x) == [])
  }

  /** The record asks for what the call asks for, is approved, unused and not too old. */
  ghost predicate Allows(rec: Record, candidate: Request, now: int, ttl: int) {
    && SameTarget(rec.request, candidate) && rec.decision.Some? && rec.decision.value.approved && !rec.consumed
    && now <= rec.request.createdAt + ttl
  }

  lemma EnabledIsAdmitted(d: Deps, x: Input)
    requires Enabled(d, x)
    ensures Admit(d, x).Admitted? && BackendReady(d, Admit(d, x).op, Admit(d, x).scopeIDs)
  {
    AdmitExactly(d, x);
    AdmittedOps(d, x);
    ReadyExactly(d, ToolOp(x), ScopeIDs(x));
  }

  lemma AllowsIsApproved(d: Deps, digest: string -> string, m: Store, ref: string, now: int, ttl: int,
                         candidate: Request)
    requires Hashes(d, digest) && ref in m && Allows(m[ref], candidate, now, ttl)
    ensures Approves(d, Atomic(m, Get(ref), now, ttl).1, candidate)
  {
    StreamIdentifiesTarget(m[ref].request, candidate);
    ApprovesExactly(d, m, ref, now, ttl, candidate);
  }

  /** From every reachable state, a call by a new thread on a running instance whose gates hold and
      whose backend is able, and whose reference holds an approved, unused and not too old record
      that asks for the same and that nobody is just consuming, can run to its end: it makes exactly
      its planned writes, and its approval is then used and otherwise as it was. */
  lemma ApprovedCallCanComplete(c: Config, digest: string -> string, file: Store, now: int, past: seq<Move>, y: System,
                                t: Tid, inst: Inst, d: Deps, x: Input)
    returns (moves: seq<Move>, z: System)
    requires Reaches(c, file, now, past, y) && Hashes(d, digest) && Enabled(d, x)
    requires t !in y.calls && t !in y.store.frames && t !in y.store.temps && c.proc(inst) !in y.store.down
    requires x.common.reference in y.store.file && NoneConsumes(y.store, x.common.reference)
    requires Admit(d, x).Admitted? ==>
               Allows(y.store.file[x.common.reference], Admit(d, x).candidate, y.store.now, c.ttl(inst))
    ensures Admit(d, x).Admitted?
    ensures Steps(c, y, moves) == Some(z) && t in z.calls && z.calls[t].stage == Finished(true)
    ensures WrittenBy(z.store.log, t) == Admit(d, x).plan
    ensures var ref := x.common.reference;
            ref in z.store.file && z.store.file[ref] == y.store.file[ref].(consumed := true)
  {
    EnabledIsAdmitted(d, x);
    AllowsIsApproved(d, digest, y.store.file, x.common.reference, y.store.now, c.ttl(inst), Admit(d, x).candidate);
    moves, z := AdmittedCallCanComplete(c, file, now, past, y, t, inst, d, x);
  }
}
