/** Every move of every tool call, operator and process keeps the invariant of the
handler machine. */
module HandlerInvariant {
  import opened Text
  import opened Fingerprint
  import opened Records
  import opened Backend
  import opened StoreMachine
  import opened Gates
  import opened Handlers

  // ----- the log grows

  lemma VerifiedGrows(log: seq<Event>, e: Event, t: Tid, call: Call, g: nat)
    requires VerifiedAt(log, t, call, g)
    ensures VerifiedAt(log + [e], t, call, g)
  {
  }

  lemma AttemptGrows(log: seq<Event>, e: Event, t: Tid, ref: string, lo: nat, hi: nat, hi': nat)
    requires AttemptBetween(log, t, ref, lo, hi) && hi <= hi'
    ensures AttemptBetween(log + [e], t, ref, lo, hi')
  {
    var a :| lo < a < hi && a < |log| && log[a] == Attempt(t, ref);
    assert (log + [e])[a] == log[a];
  }

  lemma SpentGrows(log: seq<Event>, e: Event, t: Tid, call: Call)
    requires HasSpent(log, t, call)
    ensures HasSpent(log + [e], t, call)
  {
    var g: nat, q: nat :| SpentAt(log, t, call, g, q);
    VerifiedGrows(log, e, t, call, g);
    if call.deps.sink { AttemptGrows(log, e, t, call.ref, g, q, q); }
    assert SpentAt(log + [e], t, call, g, q);
  }

  lemma WrittenGrows(log: seq<Event>, e: Event, t: Tid)
    ensures WrittenBy(log + [e], t) == WrittenBy(log, t) + (if e.Wrote? && e.t == t then [e.write] else [])
  {
  }

  ghost predicate SamePlace(s: State, s': State, t: Tid) {
    && (t in s'.frames <==> t in s.frames)
    && (t in s.frames ==>
          && s'.frames[t].inst == s.frames[t].inst && s'.frames[t].op == s.frames[t].op
          && s'.frames[t].since == s.frames[t].since)
  }

  lemma VerifiedStays(log: seq<Event>, e: Event, t: Tid, call: Call)
    requires exists g: nat :: VerifiedAt(log, t, call, g)
    ensures exists g: nat :: VerifiedAt(log + [e], t, call, g)
  {
    var g: nat :| VerifiedAt(log, t, call, g);
    VerifiedGrows(log, e, t, call, g);
  }

  lemma AttemptedStays(log: seq<Event>, e: Event, t: Tid, call: Call)
    requires exists g: nat ::
        VerifiedAt(log, t, call, g) && (call.deps.sink ==> AttemptBetween(log, t, call.ref, g, |log|))
    ensures exists g: nat ::
        VerifiedAt(log + [e], t, call, g) && (call.deps.sink ==> AttemptBetween(log + [e], t, call.ref, g, |log + [e]|))
  {
    var g: nat :| VerifiedAt(log, t, call, g) && (call.deps.sink ==> AttemptBetween(log, t, call.ref, g, |log|));
    VerifiedGrows(log, e, t, call, g);
    if call.deps.sink { AttemptGrows(log, e, t, call.ref, g, |log|, |log + [e]|); }
  }

  lemma ConsumingStays(log: seq<Event>, e: Event, t: Tid, call: Call, since: nat)
    requires exists g: nat ::
        VerifiedAt(log, t, call, g) && g < since && (call.deps.sink ==> AttemptBetween(log, t, call.ref, g, since))
    ensures exists g: nat ::
        VerifiedAt(log + [e], t, call, g) && g < since
            && (call.deps.sink ==> AttemptBetween(log + [e], t, call.ref, g, since))
  {
    var g: nat :| VerifiedAt(log, t, call, g) && g < since
        && (call.deps.sink ==> AttemptBetween(log, t, call.ref, g, since));
    VerifiedGrows(log, e, t, call, g);
    if call.deps.sink { AttemptGrows(log, e, t, call.ref, g, since, since); }
  }

  lemma NothingNew(log: seq<Event>, e: Event, t: Tid, n: nat)
    requires !(e.Wrote? && e.t == t)
    requires e.StoreDone? && e.t == t && e.op.Consume? ==> n <= |log|
    ensures NoWrites(log, t) ==> NoWrites(log + [e], t)
    ensures NotSpent(log, t, n) ==> NotSpent(log + [e], t, n)
    ensures n == |log| && NotSpent(log, t, n) && !(e.StoreDone? && e.t == t && e.op.Consume?)
        ==> NotSpent(log + [e], t, n + 1)
  {
  }

  /** An event that is not a write of `t`, nor its consume, leaves what is known of call `t`. */
  lemma CallKept(s: State, s': State, t: Tid, call: Call, e: Event)
    requires StageInv(s, t, call) && SamePlace(s, s', t)
    requires s'.log == s.log + [e] && !(e.Wrote? && e.t == t)
    requires e.StoreDone? && e.t == t && e.op.Consume? ==> call.stage.Consuming? && s.frames[t].since <= |s.log|
    ensures StageInv(s', t, call)
  {
    WrittenGrows(s.log, e, t);
    NothingNew(s.log, e, t, if call.stage.Consuming? then s.frames[t].since else |s.log|);
    match call.stage
    case Verifying =>
    case Verified => VerifiedStays(s.log, e, t, call);
    case Ready => VerifiedStays(s.log, e, t, call);
    case Attempted => AttemptedStays(s.log, e, t, call);
    case Consuming => ConsumingStays(s.log, e, t, call, s.frames[t].since);
    case Executing(k) => SpentGrows(s.log, e, t, call);
    case Finished(spent) => if spent { SpentGrows(s.log, e, t, call); }
    case Stopped => if HasSpent(s.log, t, call) { SpentGrows(s.log, e, t, call); }
  }

  lemma CallSame(s: State, s': State, t: Tid, call: Call)
    requires StageInv(s, t, call) && SamePlace(s, s', t) && s'.log == s.log
    ensures StageInv(s', t, call)
  {
  }

  // ----- moves of the store

  /** What a step inside the store can do to the log and the frames. */
  ghost predicate InnerStep(s: State, s': State, a: Action) {
    && (s'.log == s.log ||
        (&& !a.Tick? && !a.Stop? && a.t in s.frames && |s'.log| == |s.log| + 1 && s'.log == s.log + [s'.log[|s.log|]]
         && s'.log[|s.log|].StoreDone? && s'.log[|s.log|].t == a.t && s'.log[|s.log|].op == s.frames[a.t].op))
    && forall t :: SamePlace(s, s', t)
  }

  ghost predicate PcMoves(s: State, s': State, t: Tid) {
    t in s.frames && exists pc :: s'.frames == s.frames[t := s.frames[t].(pc := pc)]
  }

  lemma LockMoves(c: Config, s: State, a: Action)
    requires (a.Acquire? || a.LockTimeout? || a.Release?) && a.t in s.frames && ThreadStep(c, s, a).Some?
    ensures PcMoves(s, ThreadStep(c, s, a).value, a.t)
  {
    var s' := ThreadStep(c, s, a).value;
    assert s'.frames == s.frames[a.t := s.frames[a.t].(pc := s'.frames[a.t].pc)];
  }

  lemma FileMoves(c: Config, s: State, a: Action)
    requires a.Load? || a.LoadFail? || a.Execute? || a.WriteTemp? || a.SaveFail? || a.Rename?
    requires a.t in s.frames && ThreadStep(c, s, a).Some?
    ensures PcMoves(s, ThreadStep(c, s, a).value, a.t)
  {
    var s' := ThreadStep(c, s, a).value;
    assert s'.frames == s.frames[a.t := s.frames[a.t].(pc := s'.frames[a.t].pc)];
  }

  lemma ThreadMoves(c: Config, s: State, a: Action)
    requires Internal(a) && !a.Tick? && Next(c, s, a).Some?
    ensures PcMoves(s, Next(c, s, a).value, a.t)
  {
    assert Next(c, s, a) == ThreadStep(c, s, a);
    if a.Acquire? || a.LockTimeout? || a.Release? { LockMoves(c, s, a); } else { FileMoves(c, s, a); }
  }

  lemma LogMoves(c: Config, s: State, a: Action)
    requires Internal(a) && !a.Tick? && Next(c, s, a).Some?
    ensures var s' := Next(c, s, a).value;
            || s'.log == s.log
            || exists at, answer :: s'.log == s.log + [StoreDone(a.t, s.frames[a.t].op, s.frames[a.t].inst, at, answer)]
  {
  }

  lemma InnerShape(c: Config, s: State, a: Action)
    requires Internal(a) && Next(c, s, a).Some?
    ensures InnerStep(s, Next(c, s, a).value, a)
  {
    if !a.Tick? {
      ThreadMoves(c, s, a);
      LogMoves(c, s, a);
    }
  }

  /** Who owns the writes and consumes of the log survives a step. */
  lemma OwnersKept(y: System, y': System)
    requires WritesOwned(y) && ConsumesOwned(y)
    requires forall t | t in y.calls :: t in y'.calls && y'.calls[t].ref == y.calls[t].ref
    requires || y'.store.log == y.store.log
             || (&& |y'.store.log| == |y.store.log| + 1 && y'.store.log[..|y.store.log|] == y.store.log
                 && var e := y'.store.log[|y.store.log|];
                    && (e.Wrote? ==> e.t in y'.calls && y'.calls[e.t].ref == e.ref)
                    && (e.StoreDone? && e.op.Consume? ==> e.t in y'.calls))
    requires forall t | t in y'.store.frames && y'.store.frames[t].op.Consume? ::
               t in y'.calls || (t in y.store.frames && y.store.frames[t].op == y'.store.frames[t].op)
    ensures WritesOwned(y') && ConsumesOwned(y')
  {
  }

  lemma InnerCalls(c: Config, y: System, s': State, a: Action)
    requires InnerStep(y.store, s', a)
    requires forall t | t in y.calls :: CallInv(y.store, t, y.calls[t])
    requires forall t | t in y.store.frames :: y.store.frames[t].since <= |y.store.log|
    ensures forall t | t in y.calls :: CallInv(s', t, y.calls[t])
  {
    var s := y.store;
    forall t | t in y.calls ensures CallInv(s', t, y.calls[t]) {
      assert CallInv(s, t, y.calls[t]);
      if s'.log == s.log {
        CallSame(s, s', t, y.calls[t]);
      } else {
        CallKept(s, s', t, y.calls[t], s'.log[|s.log|]);
      }
    }
  }

  lemma InnerOwners(y: System, s': State, a: Action)
    requires InnerStep(y.store, s', a) && WritesOwned(y) && ConsumesOwned(y)
    ensures WritesOwned(y.(store := s')) && ConsumesOwned(y.(store := s'))
  {
    forall t | t in s'.frames ensures t in y.store.frames && y.store.frames[t].op == s'.frames[t].op {
      assert SamePlace(y.store, s', t);
    }
    assert s'.log[..|y.store.log|] == y.store.log;
    OwnersKept(y, y.(store := s'));
  }

  lemma SinceBound(c: Config, init: Store, s: State)
    requires Inv(c, init, s)
    ensures forall t | t in s.frames :: s.frames[t].since <= |s.log|
  {
  }

  lemma InnerKeeps(c: Config, init: Store, y: System, a: Action)
    requires c.order == MutexFirst && SysInv(c, init, y) && Step(c, y, Inner(a)).Some?
    ensures SysInv(c, init, Step(c, y, Inner(a)).value)
  {
    var s' := Next(c, y.store, a).value;
    assert Step(c, y, Inner(a)) == Some(y.(store := s'));
    assert Inv(c, init, s') by { StepKeeps(c, init, y.store, a); }
    assert InnerStep(y.store, s', a) by { InnerShape(c, y.store, a); }
    assert forall t | t in y.calls :: CallInv(s', t, y.calls[t]) by {
      SinceBound(c, init, y.store);
      InnerCalls(c, y, s', a);
    }
    assert WritesOwned(y.(store := s')) && ConsumesOwned(y.(store := s')) by { InnerOwners(y, s', a); }
  }

  /** Only thread `u` moves, and adds at most one event of its own. */
  ghost predicate OnlyMoves(s: State, s': State, u: Tid) {
    && (forall t | t != u :: SamePlace(s, s', t))
    && (s'.log == s.log || exists e :: s'.log == s.log + [e] && e.t == u)
  }

  /** Such a step leaves every other call as it was. */
  lemma OtherCalls(y: System, s': State, u: Tid)
    requires forall t | t in y.calls && t != u :: CallInv(y.store, t, y.calls[t])
    requires OnlyMoves(y.store, s', u)
    ensures forall t | t in y.calls && t != u :: CallInv(s', t, y.calls[t])
  {
    forall t | t in y.calls && t != u ensures CallInv(s', t, y.calls[t]) {
      assert SamePlace(y.store, s', t);
      if s'.log == y.store.log {
        CallSame(y.store, s', t, y.calls[t]);
      } else {
        var e :| s'.log == y.store.log + [e] && e.t == u;
        CallKept(y.store, s', t, y.calls[t], e);
      }
    }
  }

  lemma EnterShape(s: State, u: Tid, inst: Inst, op: Op)
    requires u !in s.frames
    ensures var s' := Enter(s, u, inst, op);
            && OnlyMoves(s, s', u)
            && InStore(s', u, inst, op) && s'.frames[u].since == |s.log|
            && (s'.log == s.log || exists e ::
                s'.log == s.log + [e] && e.StoreDone? && e.t == u && e.op == op && e.answer.Failed?)
            && (Precheck(op).None? ==> s'.log == s.log)
  {
  }

  lemma ForgetShape(s: State, u: Tid)
    ensures OnlyMoves(s, Forget(s, u), u)
  {
  }

  lemma OperateKeeps(c: Config, init: Store, y: System, u: Tid, inst: Inst, op: Op)
    requires SysInv(c, init, y) && u !in y.calls && u !in y.store.frames && !op.Consume?
    ensures SysInv(c, init, y.(store := Enter(y.store, u, inst, op)))
  {
    var y' := y.(store := Enter(y.store, u, inst, op));
    assert Inv(c, init, y'.store) by { InvokeKeeps(c, init, y.store, u, inst, op); }
    EnterShape(y.store, u, inst, op);
    assert forall t | t in y.calls :: CallInv(y'.store, t, y.calls[t]) by { OtherCalls(y, y'.store, u); }
    EnterOwners(y, y', u, inst, op);
  }

  lemma EnterOwners(y: System, y': System, u: Tid, inst: Inst, op: Op)
    requires WritesOwned(y) && ConsumesOwned(y) && u !in y.store.frames
    requires y'.store == Enter(y.store, u, inst, op) && (op.Consume? ==> u in y'.calls)
    requires forall t | t in y.calls :: t in y'.calls && y'.calls[t].ref == y.calls[t].ref
    ensures WritesOwned(y') && ConsumesOwned(y')
  {
    EnterShape(y.store, u, inst, op);
    forall t | t in y'.store.frames && y'.store.frames[t].op.Consume?
      ensures t in y'.calls || (t in y.store.frames && y.store.frames[t].op == y'.store.frames[t].op)
    {
      if t != u { assert SamePlace(y.store, y'.store, t); }
    }
    OwnersKept(y, y');
  }

  lemma OperatorReturnKeeps(c: Config, init: Store, y: System, u: Tid)
    requires SysInv(c, init, y) && u !in y.calls && u in y.store.frames && y.store.frames[u].pc.Returned?
    ensures SysInv(c, init, y.(store := Forget(y.store, u)))
  {
    var y' := y.(store := Forget(y.store, u));
    assert Inv(c, init, y'.store) by { ReturnKeeps(c, init, y.store, u); }
    assert forall t | t in y.calls :: CallInv(y'.store, t, y.calls[t]) by {
      ForgetShape(y.store, u);
      OtherCalls(y, y'.store, u);
    }
    OwnersKept(y, y');
  }

  /** A call cut off by a process stop has made no write, or some of its writes after spending its approval. */
  lemma StopsClean(s: State, t: Tid, call: Call)
    requires CallInv(s, t, call)
    ensures || NoWrites(s.log, t)
            || (&& HasSpent(s.log, t, call) && BackendReady(call.deps, call.op, call.scopeIDs)
                && exists k | 1 <= k <= |call.plan| :: WrittenBy(s.log, t) == call.plan[..k])
  {
    if call.stage.Executing? && call.stage.next == 0 { NoneWritten(s.log, t); }
  }

  lemma {:induction false} NoneWritten(log: seq<Event>, t: Tid)
    ensures WrittenBy(log, t) == [] <==> NoWrites(log, t)
    decreases |log|
  {
    if log != [] {
      var n := |log| - 1;
      NoneWritten(log[..n], t);
      assert log == log[..n] + [log[n]];
    }
  }

  lemma StoppedCall(s: State, s': State, t: Tid, call: Call)
    requires CallInv(s, t, call) && s'.log == s.log && t !in s'.frames
    ensures CallInv(s', t, call.(stage := Stopped))
  {
    StopsClean(s, t, call);
    var call' := call.(stage := Stopped);
    assert Passed(call');
    if !NoWrites(s.log, t) {
      var g: nat, q: nat :| SpentAt(s.log, t, call, g, q);
      assert SpentAt(s'.log, t, call', g, q);
    }
  }

  lemma HaltedCall(c: Config, y: System, p: Proc, t: Tid)
    requires t in y.calls && CallInv(y.store, t, y.calls[t])
    ensures CallInv(Halted(c, y, p).store, t, Halted(c, y, p).calls[t])
  {
    var y' := Halted(c, y, p);
    if c.proc(y.calls[t].inst) == p {
      assert t in y.store.frames ==> y.store.frames[t].inst == y.calls[t].inst;
      StoppedCall(y.store, y'.store, t, y.calls[t]);
    } else {
      assert SamePlace(y.store, y'.store, t);
      CallSame(y.store, y'.store, t, y.calls[t]);
    }
  }

  lemma HaltMove(c: Config, init: Store, y: System, p: Proc)
    requires SysInv(c, init, y)
    ensures SysInv(c, init, Halted(c, y, p))
  {
    var y' := Halted(c, y, p);
    assert Inv(c, init, y'.store) by { HaltKeeps(c, init, y.store, p); }
    forall t | t in y'.calls ensures CallInv(y'.store, t, y'.calls[t]) { HaltedCall(c, y, p, t); }
    OwnersKept(y, y');
  }

  /** The store moves from `y.store` to `s'` and call `u` becomes `call`. */
  lemma CallMove(c: Config, init: Store, y: System, s': State, u: Tid, call: Call)
    requires forall t | t in y.calls :: CallInv(y.store, t, y.calls[t])
    requires Inv(c, init, s') && CallInv(s', u, call)
    requires OnlyMoves(y.store, s', u)
    requires WritesOwned(System(s', y.calls[u := call])) && ConsumesOwned(System(s', y.calls[u := call]))
    ensures SysInv(c, init, System(s', y.calls[u := call]))
  {
    OtherCalls(y, s', u);
  }

  /** Call `u` enters the store. */
  lemma EnterMove(c: Config, init: Store, y: System, u: Tid, inst: Inst, op: Op, call: Call)
    requires SysInv(c, init, y) && u !in y.store.frames && (u in y.calls ==> y.calls[u].ref == call.ref)
    requires CallInv(Enter(y.store, u, inst, op), u, call)
    ensures SysInv(c, init, System(Enter(y.store, u, inst, op), y.calls[u := call]))
  {
    var s' := Enter(y.store, u, inst, op);
    assert Inv(c, init, s') by { InvokeKeeps(c, init, y.store, u, inst, op); }
    assert OnlyMoves(y.store, s', u) by { EnterShape(y.store, u, inst, op); }
    EnterOwners(y, System(s', y.calls[u := call]), u, inst, op);
    CallMove(c, init, y, s', u, call);
  }

  lemma StartKeeps(c: Config, init: Store, y: System, u: Tid, inst: Inst, d: Deps, x: Input)
    requires SysInv(c, init, y) && u !in y.calls && u !in y.store.frames && Admit(d, x).Admitted?
    ensures var a := Admit(d, x);
            SysInv(c, init, System(Enter(y.store, u, inst, Get(x.common.reference)),
                                      y.calls[u := Call(inst, x.common.reference, d, |y.store.log|, a.candidate, a.op,
                                                        a.plan, a.scopeIDs, Verifying)]))
  {
    var a, op := Admit(d, x), Get(x.common.reference);
    var call := Call(inst, x.common.reference, d, |y.store.log|, a.candidate, a.op, a.plan, a.scopeIDs, Verifying);
    assert Passed(call) by {
      AdmitExactly(d, x);
      AdmittedOps(d, x);
      PlanAuthorized(d, x);
      AdmitScopes(d, x);
    }
    assert StageInv(Enter(y.store, u, inst, op), u, call) by {
      assert NoWrites(y.store.log, u);
      EnterShape(y.store, u, inst, op);
    }
    EnterMove(c, init, y, u, inst, op, call);
  }

  /** Moving call `u` to its next stage, with the log unchanged. */
  lemma QuietMove(c: Config, init: Store, y: System, u: Tid, stage: Stage)
    requires SysInv(c, init, y) && u in y.calls
    requires StageInv(y.store, u, y.calls[u].(stage := stage))
    ensures SysInv(c, init, To(y, u, stage))
  {
  }

  lemma ForgetOwners(y: System, u: Tid, call: Call)
    requires WritesOwned(y) && ConsumesOwned(y) && u in y.calls && call.ref == y.calls[u].ref
    ensures WritesOwned(System(Forget(y.store, u), y.calls[u := call]))
    ensures ConsumesOwned(System(Forget(y.store, u), y.calls[u := call]))
  {
    OwnersKept(y, System(Forget(y.store, u), y.calls[u := call]));
  }

  /** A store call of `u` returns. */
  lemma ReturnMove(c: Config, init: Store, y: System, u: Tid, stage: Stage)
    requires SysInv(c, init, y) && u in y.calls && u in y.store.frames && y.store.frames[u].pc.Returned?
    requires StageInv(Forget(y.store, u), u, y.calls[u].(stage := stage))
    ensures SysInv(c, init, To(y.(store := Forget(y.store, u)), u, stage))
  {
    var s', call := Forget(y.store, u), y.calls[u].(stage := stage);
    var y' := System(s', y.calls[u := call]);
    assert y' == To(y.(store := s'), u, stage);
    assert Inv(c, init, s') by { ReturnKeeps(c, init, y.store, u); }
    assert OnlyMoves(y.store, s', u) by { ForgetShape(y.store, u); }
    assert CallInv(s', u, call) by { PassedStays(y, u, stage); }
    assert WritesOwned(y') && ConsumesOwned(y') by { ForgetOwners(y, u, call); }
    assert SysInv(c, init, y') by { CallMove(c, init, y, s', u, call); }
  }

  lemma PassedStays(y: System, u: Tid, stage: Stage)
    requires u in y.calls && CallInv(y.store, u, y.calls[u])
    ensures Passed(y.calls[u].(stage := stage))
  {
  }

  lemma NoteKeepsStore(c: Config, init: Store, s: State, e: Event)
    requires Inv(c, init, s) && !e.StoreDone?
    ensures Inv(c, init, Note(s, e))
  {
    var s' := Note(s, e);
    LogStep(c, init, s.log, e);
    forall t | t in s'.frames ensures FrameInv(c, s', t) {
      assert FrameInv(c, s, t);
      OthersUnmoved(s.log, e, s.frames[t], t);
    }
  }

  lemma NoteOwners(y: System, u: Tid, e: Event, call: Call)
    requires WritesOwned(y) && ConsumesOwned(y) && u in y.calls && call.ref == y.calls[u].ref
    requires !e.StoreDone? && e.t == u && (e.Wrote? ==> e.ref == call.ref)
    ensures WritesOwned(System(Note(y.store, e), y.calls[u := call]))
        && ConsumesOwned(System(Note(y.store, e), y.calls[u := call]))
  {
  }

  lemma NoteShape(s: State, u: Tid, e: Event)
    requires e.t == u
    ensures OnlyMoves(s, Note(s, e), u)
  {
    assert Note(s, e).log == s.log + [e];
  }

  /** Call `u` adds an event of its own that is not a store operation. */
  lemma NoteMove(c: Config, init: Store, y: System, u: Tid, e: Event, stage: Stage)
    requires SysInv(c, init, y) && u in y.calls && !e.StoreDone? && e.t == u && (e.Wrote? ==> e.ref == y.calls[u].ref)
    requires StageInv(Note(y.store, e), u, y.calls[u].(stage := stage))
    ensures SysInv(c, init, To(y.(store := Note(y.store, e)), u, stage))
  {
    var s', call := Note(y.store, e), y.calls[u].(stage := stage);
    var y' := System(s', y.calls[u := call]);
    assert y' == To(y.(store := s'), u, stage);
    assert Inv(c, init, s') by { NoteKeepsStore(c, init, y.store, e); }
    assert OnlyMoves(y.store, s', u) by { NoteShape(y.store, u, e); }
    assert CallInv(s', u, call) by { PassedStays(y, u, stage); }
    assert WritesOwned(y') && ConsumesOwned(y') by { NoteOwners(y, u, e, call); }
    assert SysInv(c, init, y') by { CallMove(c, init, y, s', u, call); }
  }

  // ----- moves of a call

  lemma SameFacts(log: seq<Event>, t: Tid, a: Call, b: Call)
    requires a.(stage := b.stage) == b
    ensures forall g: nat :: VerifiedAt(log, t, a, g) <==> VerifiedAt(log, t, b, g)
    ensures HasSpent(log, t, a) <==> HasSpent(log, t, b)
  {
    forall g: nat, q: nat ensures SpentAt(log, t, a, g, q) <==> SpentAt(log, t, b, g, q) {}
  }

  lemma ApprovedRead(s: State, u: Tid, call: Call, f: Frame, answer: Answer)
    requires Settled(s.log, f.since, f.op, f.inst, u, answer) && f.op == Get(call.ref)
    requires Approves(call.deps, answer, call.candidate)
    ensures exists g: nat :: VerifiedAt(s.log, u, call, g)
  {
    var i :| SettledAt(s.log, f.since, f.op, f.inst, u, answer, i);
    assert VerifiedAt(s.log, u, call, i);
  }

  lemma VerifiedStage(c: Config, s: State, u: Tid, call: Call, next: Stage)
    requires u in s.frames && FrameInv(c, s, u) && StageInv(s, u, call) && call.stage == Verifying
    requires s.frames[u].pc.Returned?
    requires next == if Approves(call.deps, s.frames[u].pc.answer, call.candidate) then Verified else Finished(false)
    ensures StageInv(Forget(s, u), u, call.(stage := next))
  {
    var answer := s.frames[u].pc.answer;
    if Approves(call.deps, answer, call.candidate) {
      ApprovedRead(s, u, call, s.frames[u], answer);
      SameFacts(s.log, u, call, call.(stage := next));
    }
  }

  lemma VerifyReturnKeeps(c: Config, init: Store, y: System, u: Tid)
    requires SysInv(c, init, y) && u in y.calls && VerifyReturnStep(y, u).Some?
    ensures SysInv(c, init, VerifyReturnStep(y, u).value)
  {
    var s, call := y.store, y.calls[u];
    var next := if Approves(call.deps, s.frames[u].pc.answer, call.candidate) then Verified else Finished(false);
    assert StageInv(Forget(s, u), u, call.(stage := next)) by {
      assert FrameInv(c, s, u) && CallInv(s, u, call);
      VerifiedStage(c, s, u, call, next);
    }
    ReturnMove(c, init, y, u, next);
  }

  lemma CheckBackendKeeps(c: Config, init: Store, y: System, u: Tid)
    requires SysInv(c, init, y) && u in y.calls && CheckBackendStep(y, u).Some?
    ensures SysInv(c, init, CheckBackendStep(y, u).value)
  {
    var call := y.calls[u];
    var next := if BackendReady(call.deps, call.op, call.scopeIDs) then Ready else Finished(false);
    assert StageInv(y.store, u, call.(stage := next)) by {
      assert CallInv(y.store, u, call);
      SameFacts(y.store.log, u, call, call.(stage := next));
    }
    QuietMove(c, init, y, u, next);
  }

  lemma GiveUpKeeps(c: Config, init: Store, y: System, u: Tid)
    requires SysInv(c, init, y) && u in y.calls && (y.calls[u].stage == Ready || y.calls[u].stage == Attempted)
    ensures SysInv(c, init, To(y, u, Finished(false)))
  {
    assert StageInv(y.store, u, y.calls[u].(stage := Finished(false))) by { assert CallInv(y.store, u, y.calls[u]); }
    QuietMove(c, init, y, u, Finished(false));
  }

  lemma AttemptedStage(s: State, u: Tid, call: Call)
    requires StageInv(s, u, call) && call.stage == Ready
    ensures !call.deps.sink ==> StageInv(s, u, call.(stage := Attempted))
    ensures StageInv(Note(s, Attempt(u, call.ref)), u, call.(stage := Attempted))
  {
    var call', e := call.(stage := Attempted), Attempt(u, call.ref);
    var g: nat :| VerifiedAt(s.log, u, call, g);
    SameFacts(s.log, u, call, call');
    VerifiedGrows(s.log, e, u, call', g);
    NothingNew(s.log, e, u, |s.log|);
    assert (s.log + [e])[|s.log|] == e;
    assert AttemptBetween(s.log + [e], u, call.ref, g, |s.log| + 1);
  }

  lemma AttemptKeeps(c: Config, init: Store, y: System, u: Tid, ok: bool)
    requires SysInv(c, init, y) && u in y.calls && WriteAttemptStep(y, u, ok).Some?
    ensures SysInv(c, init, WriteAttemptStep(y, u, ok).value)
  {
    var call := y.calls[u];
    if call.deps.sink && !ok {
      GiveUpKeeps(c, init, y, u);
    } else {
      assert (call.deps.sink || StageInv(y.store, u, call.(stage := Attempted)))
          && StageInv(Note(y.store, Attempt(u, call.ref)), u, call.(stage := Attempted)) by {
        assert CallInv(y.store, u, call);
        AttemptedStage(y.store, u, call);
      }
      if call.deps.sink {
        NoteMove(c, init, y, u, Attempt(u, call.ref), Attempted);
      } else {
        QuietMove(c, init, y, u, Attempted);
      }
    }
  }

  lemma ConsumingStage(s: State, u: Tid, call: Call)
    requires StageInv(s, u, call) && call.stage == Attempted && u !in s.frames
    ensures StageInv(Enter(s, u, call.inst, Consume(call.ref)), u, call.(stage := Consuming))
  {
    EnterShape(s, u, call.inst, Consume(call.ref));
    SameFacts(s.log, u, call, call.(stage := Consuming));
  }

  lemma BeginConsumeKeeps(c: Config, init: Store, y: System, u: Tid)
    requires SysInv(c, init, y) && u in y.calls && BeginConsumeStep(y, u).Some?
    ensures SysInv(c, init, BeginConsumeStep(y, u).value)
  {
    var call := y.calls[u];
    var call', op := call.(stage := Consuming), Consume(call.ref);
    assert CallInv(Enter(y.store, u, call.inst, op), u, call') by {
      assert CallInv(y.store, u, call);
      assert Passed(call');
      ConsumingStage(y.store, u, call);
    }
    EnterMove(c, init, y, u, call.inst, op, call');
  }

  lemma ConsumeSettled(s: State, u: Tid, call: Call, f: Frame, answer: Answer)
    requires f.op == Consume(call.ref) && NoWrites(s.log, u) && NotSpent(s.log, u, f.since)
    requires Settled(s.log, f.since, f.op, f.inst, u, answer)
    requires exists g: nat :: VerifiedAt(s.log, u, call, g) && g < f.since
                         && (call.deps.sink ==> AttemptBetween(s.log, u, call.ref, g, f.since))
    ensures answer == Done ==> HasSpent(s.log, u, call)
    ensures answer != Done ==> NotSpent(s.log, u, |s.log|)
  {
    if answer == Done {
      var g: nat :| VerifiedAt(s.log, u, call, g) && g < f.since
                    && (call.deps.sink ==> AttemptBetween(s.log, u, call.ref, g, f.since));
      var q :| SettledAt(s.log, f.since, f.op, f.inst, u, answer, q);
      assert SpentAt(s.log, u, call, g, q);
    } else if answer != Failed(Unavailable) {
      var q :| SettledAt(s.log, f.since, f.op, f.inst, u, answer, q);
    }
  }

  lemma ConsumedStage(c: Config, s: State, u: Tid, call: Call, next: Stage)
    requires u in s.frames && FrameInv(c, s, u) && StageInv(s, u, call) && call.stage == Consuming
    requires s.frames[u].pc.Returned?
    requires next == if s.frames[u].pc.answer == Done then Executing(0) else Finished(false)
    ensures StageInv(Forget(s, u), u, call.(stage := next))
  {
    ConsumeSettled(s, u, call, s.frames[u], s.frames[u].pc.answer);
    SameFacts(s.log, u, call, call.(stage := next));
    NoneWritten(s.log, u);
  }

  lemma ConsumeReturnKeeps(c: Config, init: Store, y: System, u: Tid)
    requires SysInv(c, init, y) && u in y.calls && ConsumeReturnStep(y, u).Some?
    ensures SysInv(c, init, ConsumeReturnStep(y, u).value)
  {
    var s, call := y.store, y.calls[u];
    var next := if s.frames[u].pc.answer == Done then Executing(0) else Finished(false);
    assert StageInv(Forget(s, u), u, call.(stage := next)) by {
      assert FrameInv(c, s, u) && CallInv(s, u, call);
      ConsumedStage(c, s, u, call, next);
    }
    ReturnMove(c, init, y, u, next);
  }

  lemma WrittenStage(s: State, u: Tid, call: Call, k: nat)
    requires StageInv(s, u, call) && call.stage == Executing(k) && k < |call.plan|
    ensures WrittenBy(s.log + [Wrote(u, call.ref, call.plan[k])], u) == call.plan[..k + 1]
  {
    WrittenGrows(s.log, Wrote(u, call.ref, call.plan[k]), u);
    assert call.plan[..k] + [call.plan[k]] == call.plan[..k + 1];
  }

  lemma WroteStage(s: State, u: Tid, call: Call, k: nat, next: Stage)
    requires StageInv(s, u, call) && call.stage == Executing(k) && k < |call.plan|
    requires next == Executing(k + 1) || next == Finished(true)
    ensures StageInv(Note(s, Wrote(u, call.ref, call.plan[k])), u, call.(stage := next))
  {
    var e, call' := Wrote(u, call.ref, call.plan[k]), call.(stage := next);
    assert HasSpent(s.log + [e], u, call') by {
      SpentGrows(s.log, e, u, call);
      SameFacts(s.log + [e], u, call, call');
    }
    WrittenStage(s, u, call, k);
  }

  lemma BackendNoted(c: Config, init: Store, y: System, u: Tid, k: nat, next: Stage)
    requires SysInv(c, init, y) && u in y.calls && y.calls[u].stage == Executing(k) && k < |y.calls[u].plan|
    requires next == Executing(k + 1) || next == Finished(true)
    ensures SysInv(c, init, To(y.(store := Note(y.store, Wrote(u, y.calls[u].ref, y.calls[u].plan[k]))), u, next))
  {
    var call := y.calls[u];
    var e := Wrote(u, call.ref, call.plan[k]);
    assert StageInv(Note(y.store, e), u, call.(stage := next)) by {
      assert CallInv(y.store, u, call);
      WroteStage(y.store, u, call, k, next);
    }
    NoteMove(c, init, y, u, e, next);
  }

  lemma BackendShape(y: System, u: Tid, ok: bool, k: nat, next: Stage)
    requires u in y.calls && y.calls[u].stage == Executing(k) && k < |y.calls[u].plan|
    requires next == if ok then Executing(k + 1) else Finished(true)
    ensures CallBackendStep(y, u, ok)
        == Some(To(y.(store := Note(y.store, Wrote(u, y.calls[u].ref, y.calls[u].plan[k]))), u, next))
  {
  }

  lemma CallBackendKeeps(c: Config, init: Store, y: System, u: Tid, ok: bool)
    requires SysInv(c, init, y) && u in y.calls && CallBackendStep(y, u, ok).Some?
    ensures SysInv(c, init, CallBackendStep(y, u, ok).value)
  {
    var k := y.calls[u].stage.next;
    var next := if ok then Executing(k + 1) else Finished(true);
    BackendShape(y, u, ok, k, next);
    BackendNoted(c, init, y, u, k, next);
  }

  lemma CompleteKeeps(c: Config, init: Store, y: System, u: Tid)
    requires SysInv(c, init, y) && u in y.calls && CompleteStep(y, u).Some?
    ensures SysInv(c, init, CompleteStep(y, u).value)
  {
    var call := y.calls[u];
    assert StageInv(y.store, u, call.(stage := Finished(true))) by {
      assert CallInv(y.store, u, call);
      SameFacts(y.store.log, u, call, call.(stage := Finished(true)));
      assert WrittenBy(y.store.log, u) == call.plan[..|call.plan|];
    }
    QuietMove(c, init, y, u, Finished(true));
  }

  lemma GateMoveKeeps(c: Config, init: Store, y: System, m: Move)
    requires SysInv(c, init, y) && (m.VerifyReturn? || m.CheckBackend? || m.WriteAttempt? || m.DirFails?)
    requires m.t in y.calls && CallStep(y, m).Some?
    ensures SysInv(c, init, CallStep(y, m).value)
  {
    match m
    case VerifyReturn(t) => VerifyReturnKeeps(c, init, y, t);
    case CheckBackend(t) => CheckBackendKeeps(c, init, y, t);
    case WriteAttempt(t, ok) => AttemptKeeps(c, init, y, t, ok);
    case DirFails(t) => GiveUpKeeps(c, init, y, t);
  }

  lemma ConsumeMoveKeeps(c: Config, init: Store, y: System, m: Move)
    requires SysInv(c, init, y) && (m.BeginConsume? || m.ConsumeReturn?) && m.t in y.calls && CallStep(y, m).Some?
    ensures SysInv(c, init, CallStep(y, m).value)
  {
    if m.BeginConsume? { BeginConsumeKeeps(c, init, y, m.t); } else { ConsumeReturnKeeps(c, init, y, m.t); }
  }

  lemma BackendMoveKeeps(c: Config, init: Store, y: System, m: Move)
    requires SysInv(c, init, y) && (m.CallBackend? || m.Complete?) && m.t in y.calls && CallStep(y, m).Some?
    ensures SysInv(c, init, CallStep(y, m).value)
  {
    if m.CallBackend? { CallBackendKeeps(c, init, y, m.t, m.ok); } else { CompleteKeeps(c, init, y, m.t); }
  }

  lemma OperateMoveKeeps(c: Config, init: Store, y: System, m: Move)
    requires SysInv(c, init, y) && m.Operate? && Step(c, y, m).Some?
    ensures SysInv(c, init, Step(c, y, m).value)
  {
    var y' := y.(store := Enter(y.store, m.t, m.inst, m.op));
    assert Step(c, y, m) == Some(y');
    OperateKeeps(c, init, y, m.t, m.inst, m.op);
  }

  lemma OperatorReturnMoveKeeps(c: Config, init: Store, y: System, m: Move)
    requires SysInv(c, init, y) && m.OperatorReturn? && Step(c, y, m).Some?
    ensures SysInv(c, init, Step(c, y, m).value)
  {
    var y' := y.(store := Forget(y.store, m.t));
    assert Step(c, y, m) == Some(y');
    OperatorReturnKeeps(c, init, y, m.t);
  }

  lemma CallMoveKeeps(c: Config, init: Store, y: System, m: Move)
    requires SysInv(c, init, y) && CallsOwn(m) && m.t in y.calls && CallStep(y, m).Some?
    ensures SysInv(c, init, CallStep(y, m).value)
  {
    if m.BeginConsume? || m.ConsumeReturn? {
      ConsumeMoveKeeps(c, init, y, m);
    } else if m.CallBackend? || m.Complete? {
      BackendMoveKeeps(c, init, y, m);
    } else {
      GateMoveKeeps(c, init, y, m);
    }
  }

  /** Every move keeps the invariant. */
  lemma MoveKeeps(c: Config, init: Store, y: System, m: Move)
    requires c.order == MutexFirst && SysInv(c, init, y) && Step(c, y, m).Some?
    ensures SysInv(c, init, Step(c, y, m).value)
  {
    if m.Inner? {
      InnerKeeps(c, init, y, m.a);
    } else if m.HaltProcess? {
      HaltMove(c, init, y, m.p);
    } else if m.Operate? {
      OperateMoveKeeps(c, init, y, m);
    } else if m.OperatorReturn? {
      OperatorReturnMoveKeeps(c, init, y, m);
    } else if m.Start? {
      StartKeeps(c, init, y, m.t, m.inst, m.deps, m.input);
    } else {
      assert Step(c, y, m) == CallStep(y, m);
      CallMoveKeeps(c, init, y, m);
    }
  }

  lemma {:induction false} MovesKeep(c: Config, init: Store, y: System, moves: seq<Move>)
    requires c.order == MutexFirst && SysInv(c, init, y) && Steps(c, y, moves).Some?
    ensures SysInv(c, init, Steps(c, y, moves).value)
    decreases |moves|
  {
    if moves != [] {
      MoveKeeps(c, init, y, moves[0]);
      MovesKeep(c, init, Step(c, y, moves[0]).value, moves[1..]);
    }
  }
}
