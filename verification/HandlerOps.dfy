/** What a tool call does to the store: since its start, nothing but read its own reference and,
if it gets that far, consume it. */
module HandlerOps {
  import opened Text
  import opened Records
  import opened Backend
  import opened StoreMachine
  import opened Gates
  import opened Handlers
  import opened HandlerInvariant

  predicate OwnOp(call: Call, op: Op) {
    op == Get(call.ref) || op == Consume(call.ref)
  }

  ghost predicate LogOwn(log: seq<Event>, t: Tid, call: Call) {
    && call.begun <= |log|
    && forall i | call.begun <= i < |log| && OwnEvent(log[i], t) :: OwnOp(call, log[i].op)
  }

  ghost predicate Keeping(s: State, t: Tid, call: Call) {
    LogOwn(s.log, t, call) && (t in s.frames ==> OwnOp(call, s.frames[t].op))
  }

  ghost predicate AllKeeping(y: System) {
    forall t | t in y.calls :: Keeping(y.store, t, y.calls[t])
  }

  /** A step that adds at most one event, and frame `t` either stays, goes, or is for an own operation. */
  lemma KeepingStep(s: State, s': State, t: Tid, call: Call, call': Call)
    requires Keeping(s, t, call) && call'.ref == call.ref && call'.begun == call.begun
    requires s'.log == s.log || exists e :: s'.log == s.log + [e] && (OwnEvent(e, t) ==> OwnOp(call, e.op))
    requires t in s'.frames ==> OwnOp(call, s'.frames[t].op)
    ensures Keeping(s', t, call')
  {
  }

  lemma InnerKeeping(c: Config, y: System, a: Action)
    requires AllKeeping(y) && Internal(a) && Next(c, y.store, a).Some?
    ensures AllKeeping(y.(store := Next(c, y.store, a).value))
  {
    var s, s' := y.store, Next(c, y.store, a).value;
    InnerShape(c, s, a);
    forall t | t in y.calls ensures Keeping(s', t, y.calls[t]) {
      assert SamePlace(s, s', t);
      KeepingStep(s, s', t, y.calls[t], y.calls[t]);
    }
  }

  /** Thread `u` moves; the calls stay as they are except for the stage of `u`, if it is one. */
  lemma ThreadKeeping(y: System, s': State, calls: map<Tid, Call>, u: Tid)
    requires AllKeeping(y) && OnlyMoves(y.store, s', u)
    requires calls.Keys == y.calls.Keys
    requires forall t | t in calls :: calls[t].ref == y.calls[t].ref && calls[t].begun == y.calls[t].begun
    requires u in calls && u in s'.frames ==> OwnOp(calls[u], s'.frames[u].op)
    requires u in calls ==> s'.log == y.store.log || exists e :: s'.log == y.store.log + [e] && !e.StoreDone?
    ensures AllKeeping(System(s', calls))
  {
    forall t | t in calls ensures Keeping(s', t, calls[t]) {
      assert Keeping(y.store, t, y.calls[t]);
      if t != u { assert SamePlace(y.store, s', t); }
      KeepingStep(y.store, s', t, y.calls[t], calls[t]);
    }
  }

  lemma StartKeeping(y: System, u: Tid, inst: Inst, call: Call)
    requires AllKeeping(y) && u !in y.calls && u !in y.store.frames && call.begun == |y.store.log|
    ensures AllKeeping(System(Enter(y.store, u, inst, Get(call.ref)), y.calls[u := call]))
  {
    var s' := Enter(y.store, u, inst, Get(call.ref));
    EnterShape(y.store, u, inst, Get(call.ref));
    forall t | t in y.calls ensures Keeping(s', t, y.calls[t]) {
      assert SamePlace(y.store, s', t);
      KeepingStep(y.store, s', t, y.calls[t], y.calls[t]);
    }
  }

  lemma HaltKeeping(c: Config, y: System, p: Proc)
    requires AllKeeping(y)
    ensures AllKeeping(Halted(c, y, p))
  {
    var y' := Halted(c, y, p);
    forall t | t in y'.calls ensures Keeping(y'.store, t, y'.calls[t]) {
      KeepingStep(y.store, y'.store, t, y.calls[t], y'.calls[t]);
    }
  }

  lemma OperatorKeeping(c: Config, y: System, m: Move)
    requires AllKeeping(y) && (m.Operate? || m.OperatorReturn?) && Step(c, y, m).Some?
    ensures AllKeeping(Step(c, y, m).value)
  {
    var y' := Step(c, y, m).value;
    match m
    case Operate(t, inst, op) =>
      EnterShape(y.store, t, inst, op);
      ThreadKeeping(y, y'.store, y.calls, t);
    case OperatorReturn(t) =>
      ForgetShape(y.store, t);
      ThreadKeeping(y, y'.store, y.calls, t);
  }

  /** A call changes only its stage, its own frame and the log. */
  ghost predicate OwnChange(y: System, y': System, u: Tid) {
    && u in y.calls && y'.calls.Keys == y.calls.Keys
    && (forall t | t in y.calls :: y'.calls[t].ref == y.calls[t].ref && y'.calls[t].begun == y.calls[t].begun)
    && (u in y'.store.frames ==> u in y.store.frames || y'.store.frames[u].op == Consume(y.calls[u].ref))
    && (u in y'.store.frames && u in y.store.frames ==> y'.store.frames[u] == y.store.frames[u])
  }

  lemma GateShape(y: System, m: Move)
    requires (m.VerifyReturn? || m.CheckBackend? || m.WriteAttempt? || m.DirFails?) && m.t in y.calls
        && CallStep(y, m).Some?
    ensures OwnChange(y, CallStep(y, m).value, m.t)
  {
  }

  lemma ConsumeShape(y: System, m: Move)
    requires (m.BeginConsume? || m.ConsumeReturn?) && m.t in y.calls && CallStep(y, m).Some?
    ensures OwnChange(y, CallStep(y, m).value, m.t)
  {
  }

  lemma BackendShape(y: System, m: Move)
    requires (m.CallBackend? || m.Complete?) && m.t in y.calls && CallStep(y, m).Some?
    ensures OwnChange(y, CallStep(y, m).value, m.t)
  {
  }

  lemma CallShape(y: System, m: Move)
    requires CallsOwn(m) && m.t in y.calls && CallStep(y, m).Some?
    ensures OwnChange(y, CallStep(y, m).value, m.t)
  {
    if m.BeginConsume? || m.ConsumeReturn? {
      ConsumeShape(y, m);
    } else if m.CallBackend? || m.Complete? {
      BackendShape(y, m);
    } else {
      GateShape(y, m);
    }
  }

  lemma CallMoves(y: System, m: Move)
    requires CallsOwn(m) && m.t in y.calls
    requires CallStep(y, m).Some?
    ensures var s, s' := y.store, CallStep(y, m).value.store;
            && OnlyMoves(s, s', m.t)
            && (s'.log == s.log || exists e :: s'.log == s.log + [e] && !e.StoreDone?)
  {
    var u := m.t;
    var call := y.calls[u];
    match m
    case BeginConsume(_) => EnterShape(y.store, u, call.inst, Consume(call.ref));
    case VerifyReturn(_) => ForgetShape(y.store, u);
    case ConsumeReturn(_) => ForgetShape(y.store, u);
    case WriteAttempt(_, _) =>
    case CallBackend(_, _) =>
    case _ =>
  }

  lemma MoveKeeping(c: Config, y: System, m: Move)
    requires AllKeeping(y) && Step(c, y, m).Some?
    ensures AllKeeping(Step(c, y, m).value)
  {
    match m
    case Inner(a) => InnerKeeping(c, y, a);
    case HaltProcess(p) => HaltKeeping(c, y, p);
    case Operate(_, _, _) => OperatorKeeping(c, y, m);
    case OperatorReturn(_) => OperatorKeeping(c, y, m);
    case Start(t, inst, d, x) =>
      var y' := Step(c, y, m).value;
      StartKeeping(y, t, inst, y'.calls[t]);
    case _ =>
      var y' := CallStep(y, m).value;
      CallShape(y, m);
      CallMoves(y, m);
      assert Keeping(y.store, m.t, y.calls[m.t]);
      ThreadKeeping(y, y'.store, y'.calls, m.t);
  }

  /** In every run, the only store operations of a call are reads and consumes of its reference. */
  lemma {:induction false} MovesKeeping(c: Config, y: System, moves: seq<Move>)
    requires AllKeeping(y) && Steps(c, y, moves).Some?
    ensures AllKeeping(Steps(c, y, moves).value)
    decreases |moves|
  {
    if moves != [] {
      MoveKeeping(c, y, moves[0]);
      MovesKeeping(c, Step(c, y, moves[0]).value, moves[1..]);
    }
  }
}
