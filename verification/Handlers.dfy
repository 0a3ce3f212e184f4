/** Any number of concurrent tool calls and operator commands over the shared approval
store: gates, verify, backend check, audit attempt, consume, backend writes
(internal/mcpserver/server.go:218-355 and the handlers), interleaved with every step
of the store protocol and with process stops. */
module Handlers {
  import opened Text
  import opened Fingerprint
  import opened Records
  import opened Backend
  import opened StoreMachine
  import opened Gates

  datatype Stage =
    | Verifying                 // `Get` in progress
    | Verified
    | Ready                     // the backend can do it
    | Attempted                 // the attempt is on record
    | Consuming                 // `Consume` in progress
    | Executing(next: nat)      // `next` writes made
    | Finished(spent: bool)     // returned; `spent` says whether the approval was consumed
    | Stopped                   // its process is gone

  /** A tool call; `deps` is the configuration of the server it runs in, `begun` the length of the
      log when it started. */
  datatype Call = Call(
    inst: Inst, ref: string, deps: Deps, begun: nat,
    candidate: Request, op: BackendOp, plan: seq<Write>, scopeIDs: seq<string>, stage: Stage)

  datatype System = System(store: State, calls: map<Tid, Call>)

  datatype Move =
    | Inner(a: Action)                              // a store operation advances, or time does
    | HaltProcess(p: Proc)
    | Operate(t: Tid, inst: Inst, op: Op)           // the operator's command line calls the store
    | OperatorReturn(t: Tid)
    | Start(t: Tid, inst: Inst, deps: Deps, input: Input)   // each server has its own configuration
    | VerifyReturn(t: Tid)
    | CheckBackend(t: Tid)
    | WriteAttempt(t: Tid, ok: bool)
    | DirFails(t: Tid)                              // download only: the target directory cannot be made
    | BeginConsume(t: Tid)
    | ConsumeReturn(t: Tid)
    | CallBackend(t: Tid, ok: bool)
    | Complete(t: Tid)

  function To(y: System, t: Tid, stage: Stage): System
    requires t in y.calls
  {
    y.(calls := y.calls[t := y.calls[t].(stage := stage)])
  }

  function Note(s: State, e: Event): State {
    s.(log := s.log + [e])
  }

  /** A process stops: its store operations and its calls end where they are. */
  function Halted(c: Config, y: System, p: Proc): System {
    System(Halt(c, y.store, p),
           map t | t in y.calls :: if c.proc(y.calls[t].inst) == p then y.calls[t].(stage := Stopped) else y.calls[t])
  }

  predicate Internal(a: Action) {
    !a.Invoke? && !a.Return? && !a.Stop?
  }

  ghost function Step(c: Config, y: System, m: Move): (r: Option<System>) {
    match m
    case Inner(a) =>
      if !Internal(a) then None
      else
        var s := Next(c, y.store, a);
        if s.None? then None else Some(y.(store := s.value))
    case HaltProcess(p) =>
      Some(Halted(c, y, p))
    case Operate(t, inst, op) =>
      if t in y.calls || op.Consume? then None
      else
        var s := Next(c, y.store, Invoke(t, inst, op));
        if s.None? then None else Some(y.(store := s.value))
    case OperatorReturn(t) =>
      if t in y.calls then None
      else
        var s := Next(c, y.store, Return(t));
        if s.None? then None else Some(y.(store := s.value))
    case Start(t, inst, d, x) =>
      var a := Admit(d, x);
      if a.Refused? || t in y.calls then None
      else
        var s := Next(c, y.store, Invoke(t, inst, Get(x.common.reference)));
        if s.None? then None
        else Some(System(s.value,
                         y.calls[t := Call(inst, x.common.reference, d, |y.store.log|, a.candidate, a.op, a.plan,
                                           a.scopeIDs, Verifying)]))
    case _ =>
      if m.t !in y.calls then None else CallStep(y, m)
  }

  function VerifyReturnStep(y: System, t: Tid): (r: Option<System>)
    requires t in y.calls
  {
    var call := y.calls[t];
    if !call.stage.Verifying? || t !in y.store.frames || !y.store.frames[t].pc.Returned? then None
    else
      var ok := Approves(call.deps, y.store.frames[t].pc.answer, call.candidate);
      Some(To(y.(store := Forget(y.store, t)), t, if ok then Verified else Finished(false)))
  }

  function CheckBackendStep(y: System, t: Tid): (r: Option<System>)
    requires t in y.calls
  {
    var call := y.calls[t];
    if !call.stage.Verified? then None
    else Some(To(y, t, if BackendReady(call.deps, call.op, call.scopeIDs) then Ready else Finished(false)))
  }

  function WriteAttemptStep(y: System, t: Tid, ok: bool): (r: Option<System>)
    requires t in y.calls
  {
    var call := y.calls[t];
    if !call.stage.Ready? then None
    else if !call.deps.sink then Some(To(y, t, Attempted))
    else if ok then Some(To(y.(store := Note(y.store, Attempt(t, call.ref))), t, Attempted))
    else Some(To(y, t, Finished(false)))
  }

  function DirFailsStep(y: System, t: Tid): (r: Option<System>)
    requires t in y.calls
  {
    if y.calls[t].stage.Attempted? && y.calls[t].op == DownloadOp then Some(To(y, t, Finished(false))) else None
  }

  function BeginConsumeStep(y: System, t: Tid): (r: Option<System>)
    requires t in y.calls
  {
    var call := y.calls[t];
    if !call.stage.Attempted? || t in y.store.frames then None
    else Some(To(y.(store := Enter(y.store, t, call.inst, Consume(call.ref))), t, Consuming))
  }

  function ConsumeReturnStep(y: System, t: Tid): (r: Option<System>)
    requires t in y.calls
  {
    if !y.calls[t].stage.Consuming? || t !in y.store.frames || !y.store.frames[t].pc.Returned? then None
    else
      var ok := y.store.frames[t].pc.answer == Done;
      Some(To(y.(store := Forget(y.store, t)), t, if ok then Executing(0) else Finished(false)))
  }

  function CallBackendStep(y: System, t: Tid, ok: bool): (r: Option<System>)
    requires t in y.calls
  {
    var call := y.calls[t];
    if !call.stage.Executing? || call.stage.next >= |call.plan| then None
    else
      var k := call.stage.next;
      var noted := y.(store := Note(y.store, Wrote(t, call.ref, call.plan[k])));
      Some(To(noted, t, if ok then Executing(k + 1) else Finished(true)))
  }

  function CompleteStep(y: System, t: Tid): (r: Option<System>)
    requires t in y.calls
  {
    if y.calls[t].stage == Executing(|y.calls[t].plan|) then Some(To(y, t, Finished(true))) else None
  }

  predicate CallsOwn(m: Move) {
    !m.Inner? && !m.HaltProcess? && !m.Operate? && !m.OperatorReturn? && !m.Start?
  }

  function CallStep(y: System, m: Move): (r: Option<System>)
    requires CallsOwn(m) && m.t in y.calls
  {
    match m
    case VerifyReturn(t) => VerifyReturnStep(y, t)
    case CheckBackend(t) => CheckBackendStep(y, t)
    case WriteAttempt(t, ok) => WriteAttemptStep(y, t, ok)
    case DirFails(t) => DirFailsStep(y, t)
    case BeginConsume(t) => BeginConsumeStep(y, t)
    case ConsumeReturn(t) => ConsumeReturnStep(y, t)
    case CallBackend(t, ok) => CallBackendStep(y, t, ok)
    case Complete(t) => CompleteStep(y, t)
  }

  ghost function Steps(c: Config, y: System, moves: seq<Move>): (r: Option<System>)
    decreases |moves|
  {
    if moves == [] then Some(y)
    else
      var n := Step(c, y, moves[0]);
      if n.None? then None else Steps(c, n.value, moves[1..])
  }

  function Begin(file: Store, now: int): System {
    System(Initial(file, now), map[])
  }

  // ----- reading the log

  /** The writes made by call `t`, in order. */
  function WrittenBy(log: seq<Event>, t: Tid): (w: seq<Write>)
    decreases |log|
  {
    if log == [] then []
    else
      var e := log[|log| - 1];
      WrittenBy(log[..|log| - 1], t) + (if e.Wrote? && e.t == t then [e.write] else [])
  }

  /** The writes made under approval reference `ref`, in order. */
  function WrittenUnder(log: seq<Event>, ref: string): (w: seq<Write>)
    decreases |log|
  {
    if log == [] then []
    else
      var e := log[|log| - 1];
      WrittenUnder(log[..|log| - 1], ref) + (if e.Wrote? && e.ref == ref then [e.write] else [])
  }

  ghost predicate VerifiedAt(log: seq<Event>, t: Tid, call: Call, g: nat) {
    && g < |log| && log[g].StoreDone? && log[g].t == t && log[g].op == Get(call.ref)
    && Approves(call.deps, log[g].answer, call.candidate)
  }

  ghost predicate AttemptBetween(log: seq<Event>, t: Tid, ref: string, lo: nat, hi: nat) {
    exists a | lo < a < hi && a < |log| :: log[a] == Attempt(t, ref)
  }

  /** Call `t` was verified at `g` and consumed its approval at `q`; in between, if there is
      an audit sink, it put its attempt on record. */
  ghost predicate SpentAt(log: seq<Event>, t: Tid, call: Call, g: nat, q: nat) {
    && VerifiedAt(log, t, call, g)
    && g < q < |log| && log[q].StoreDone? && log[q].t == t && log[q].op == Consume(call.ref) && log[q].answer == Done
    && (call.deps.sink ==> AttemptBetween(log, t, call.ref, g, q))
    && (forall i | 0 <= i < |log| && log[i].Wrote? && log[i].t == t :: q < i)
  }

  ghost predicate NoWrites(log: seq<Event>, t: Tid) {
    forall i | 0 <= i < |log| :: !(log[i].Wrote? && log[i].t == t)
  }

  /** Nothing of call `t` has changed the store in the first `n` events. */
  ghost predicate NotSpent(log: seq<Event>, t: Tid, n: nat) {
    forall i | 0 <= i < |log| && i < n ::
        !(log[i].StoreDone? && log[i].t == t && log[i].op.Consume? && log[i].answer == Done)
  }

  // ----- the invariant

  ghost predicate HasSpent(log: seq<Event>, t: Tid, call: Call) {
    exists g: nat, q: nat :: SpentAt(log, t, call, g, q)
  }

  ghost predicate Passed(call: Call) {
    && MayWrite(call.deps) && OpsFit(call.plan, call.op) && call.plan != []
    && (forall i | 0 <= i < |call.plan| :: Authorizes(call.deps, call.candidate, call.plan[i]))
    && ScopesChecked(call.plan, call.scopeIDs)
  }

  ghost predicate InStore(s: State, t: Tid, inst: Inst, op: Op) {
    t in s.frames && s.frames[t].inst == inst && s.frames[t].op == op
  }

  ghost predicate CallInv(s: State, t: Tid, call: Call) {
    Passed(call) && StageInv(s, t, call)
  }

  ghost predicate StageInv(s: State, t: Tid, call: Call) {
    match call.stage
    case Verifying =>
      InStore(s, t, call.inst, Get(call.ref)) && NoWrites(s.log, t) && NotSpent(s.log, t, |s.log|)
    case Verified =>
      && t !in s.frames && NoWrites(s.log, t) && NotSpent(s.log, t, |s.log|)
      && exists g: nat :: VerifiedAt(s.log, t, call, g)
    case Ready =>
      && t !in s.frames && NoWrites(s.log, t) && NotSpent(s.log, t, |s.log|)
      && BackendReady(call.deps, call.op, call.scopeIDs)
      && exists g: nat :: VerifiedAt(s.log, t, call, g)
    case Attempted =>
      && t !in s.frames && NoWrites(s.log, t) && NotSpent(s.log, t, |s.log|)
      && BackendReady(call.deps, call.op, call.scopeIDs)
      && exists g: nat :: VerifiedAt(s.log, t, call, g)
          && (call.deps.sink ==> AttemptBetween(s.log, t, call.ref, g, |s.log|))
    case Consuming =>
      && InStore(s, t, call.inst, Consume(call.ref)) && NoWrites(s.log, t) && NotSpent(s.log, t, s.frames[t].since)
      && BackendReady(call.deps, call.op, call.scopeIDs)
      && exists g: nat :: VerifiedAt(s.log, t, call, g) && g < s.frames[t].since
                     && (call.deps.sink ==> AttemptBetween(s.log, t, call.ref, g, s.frames[t].since))
    case Executing(k) =>
      && t !in s.frames && k <= |call.plan| && WrittenBy(s.log, t) == call.plan[..k]
      && BackendReady(call.deps, call.op, call.scopeIDs)
      && HasSpent(s.log, t, call)
    case Finished(spent) =>
      && t !in s.frames
      && (!spent ==> NoWrites(s.log, t) && NotSpent(s.log, t, |s.log|))
      && (spent ==> && HasSpent(s.log, t, call) && BackendReady(call.deps, call.op, call.scopeIDs)
                    && exists k | 1 <= k <= |call.plan| :: WrittenBy(s.log, t) == call.plan[..k])
    case Stopped =>
      && t !in s.frames
      && (|| NoWrites(s.log, t)
          || (&& HasSpent(s.log, t, call) && BackendReady(call.deps, call.op, call.scopeIDs)
              && exists k | 1 <= k <= |call.plan| :: WrittenBy(s.log, t) == call.plan[..k]))
  }

  /** Every write in the log belongs to a call under that reference. */
  ghost predicate WritesOwned(y: System) {
    forall i | 0 <= i < |y.store.log| && y.store.log[i].Wrote? ::
      y.store.log[i].t in y.calls && y.calls[y.store.log[i].t].ref == y.store.log[i].ref
  }

  /** Only tool calls consume. */
  ghost predicate ConsumesOwned(y: System) {
    && (forall i | 0 <= i < |y.store.log| && y.store.log[i].StoreDone? && y.store.log[i].op.Consume? ::
        y.store.log[i].t in y.calls)
    && (forall t | t in y.store.frames && y.store.frames[t].op.Consume? :: t in y.calls)
  }

  ghost predicate SysInv(c: Config, init: Store, y: System) {
    && Inv(c, init, y.store)
    && (forall t | t in y.calls :: CallInv(y.store, t, y.calls[t]))
    && WritesOwned(y)
    && ConsumesOwned(y)
  }
}
