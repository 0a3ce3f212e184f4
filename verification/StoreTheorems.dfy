/** What every run of the store protocol guarantees. */
module StoreTheorems {
  import opened Text
  import opened Fingerprint
  import opened Records
  import opened StoreMachine

  /** Every interleaving of any number of threads over any number of instances, with
      timeouts, failed saves and process stops, is a run of the atomic store: the file
      is the result of the logged operations one after another, each answer is the
      atomic one, a call that answers "unavailable" did nothing, and at most one
      thread is between load and save. */
  lemma EveryInterleavingIsAtomic(c: Config, file: Store, now: int, actions: seq<Action>)
    requires c.order == MutexFirst && Run(c, Initial(file, now), actions).Some?
    ensures var s := Run(c, Initial(file, now), actions).value;
            && s.file == Replay(c, file, s.log)
            && Linearized(c, file, s.log)
            && (forall t | t in s.frames && s.frames[t].pc.Returned? ::
                  Settled(s.log, s.frames[t].since, s.frames[t].op, s.frames[t].inst, t, s.frames[t].pc.answer))
            && (forall t, u | t in s.frames && u in s.frames && HasFlock(s.frames[t].pc) && HasFlock(s.frames[u].pc) ::
                t == u)
  {
    RunKeeps(c, file, Initial(file, now), actions);
    var s := Run(c, Initial(file, now), actions).value;
    forall t | t in s.frames && s.frames[t].pc.Returned?
      ensures Settled(s.log, s.frames[t].since, s.frames[t].op, s.frames[t].inst, t, s.frames[t].pc.answer)
    {
      assert FrameInv(c, s, t);
    }
    forall t, u | t in s.frames && u in s.frames && HasFlock(s.frames[t].pc) && HasFlock(s.frames[u].pc)
        ensures t == u {
      Alone(s, t, u);
    }
  }

  /** From `s` to `s'` nothing happens, or one atomic operation, to the file and the log alike. */
  ghost predicate Simulated(c: Config, s: State, s': State) {
    || (s'.file == s.file && s'.log == s.log)
    || (&& |s'.log| == |s.log| + 1 && s'.log[..|s.log|] == s.log && s'.log[|s.log|].StoreDone?
        && var e := s'.log[|s.log|];
           (s'.file, e.answer) == Atomic(s.file, e.op, e.at, c.ttl(e.inst)))
  }

  /** A step that takes no effect: log, file, clock and the other threads are as they were, and the
      thread is no closer to the past. */
  ghost predicate Quiet(s: State, s': State, t: Tid) {
    && t in s.frames && s'.log == s.log && s'.file == s.file && s'.now == s.now
    && (forall u | u in s'.frames && u != t :: u in s.frames && s'.frames[u] == s.frames[u])
    && (t in s'.frames && PcClock(s.now, s.frames[t]) ==> PcClock(s.now, s'.frames[t]))
  }

  lemma LockQuiet(c: Config, s: State, a: Action)
    requires (a.Acquire? || a.LockTimeout? || a.Release? || a.Return?) && a.t in s.frames && ThreadStep(c, s, a).Some?
    ensures Quiet(s, ThreadStep(c, s, a).value, a.t)
  {
  }

  lemma FileQuiet(c: Config, s: State, a: Action)
    requires (a.Load? || a.LoadFail? || a.WriteTemp? || a.SaveFail?) && a.t in s.frames && ThreadStep(c, s, a).Some?
    ensures Quiet(s, ThreadStep(c, s, a).value, a.t)
  {
  }

  predicate Effectless(a: Action) {
    !a.Tick? && !a.Stop? && !a.Invoke? && !a.Execute? && !a.Rename?
  }

  lemma StepQuiet(c: Config, s: State, a: Action)
    requires Effectless(a) && Next(c, s, a).Some?
    ensures Quiet(s, Next(c, s, a).value, a.t)
  {
    assert Next(c, s, a) == ThreadStep(c, s, a);
    if a.Acquire? || a.LockTimeout? || a.Release? || a.Return? { LockQuiet(c, s, a); } else { FileQuiet(c, s, a); }
  }

  lemma ExecuteSimulates(c: Config, s: State, t: Tid)
    requires t in s.frames && FrameInv(c, s, t) && ExecuteStep(c, s, t).Some?
    ensures Simulated(c, s, ExecuteStep(c, s, t).value)
  {
  }

  lemma RenameSimulates(c: Config, s: State, t: Tid)
    requires t in s.frames && FrameInv(c, s, t) && RenameStep(s, t).Some?
    ensures Simulated(c, s, RenameStep(s, t).value)
  {
  }

  lemma EnterSimulates(c: Config, s: State, t: Tid, inst: Inst, op: Op)
    ensures Simulated(c, s, Enter(s, t, inst, op))
  {
  }

  /** One step of the protocol is nothing or one atomic operation, for the file and for
      the log alike; so wherever a process stops, the file is the old or the new map. */
  lemma StepSimulates(c: Config, init: Store, s: State, a: Action)
    requires c.order == MutexFirst && Inv(c, init, s) && Next(c, s, a).Some?
    ensures Simulated(c, s, Next(c, s, a).value)
  {
    if a.Invoke? {
      EnterSimulates(c, s, a.t, a.inst, a.op);
    } else if a.Execute? {
      assert FrameInv(c, s, a.t);
      ExecuteSimulates(c, s, a.t);
    } else if a.Rename? {
      assert FrameInv(c, s, a.t);
      RenameSimulates(c, s, a.t);
    } else if Effectless(a) {
      StepQuiet(c, s, a);
    }
  }

  /** In no run does a thread that comes to the file lock find its own handle marked locked, so
      the handle's shortcut is never taken. */
  lemma ShortcutNeverTaken(c: Config, file: Store, now: int, actions: seq<Action>, t: Tid)
    requires c.order == MutexFirst && Run(c, Initial(file, now), actions).Some?
    requires var s := Run(c, Initial(file, now), actions).value; t in s.frames && s.frames[t].pc == Acquire2
    ensures var s := Run(c, Initial(file, now), actions).value; s.frames[t].inst !in s.flags
  {
    RunKeeps(c, file, Initial(file, now), actions);
    NoShortcut(Run(c, Initial(file, now), actions).value, t);
  }

  // ----- what a linearized log implies

  lemma {:induction false} ReplayExtends(c: Config, init: Store, log: seq<Event>, i: nat, j: nat)
    requires i <= j <= |log|
    ensures Extends(Replay(c, init, log[..i]), Replay(c, init, log[..j]))
    decreases j
  {
    if i < j {
      ReplayExtends(c, init, log, i, j - 1);
      assert log[..j][..j - 1] == log[..j - 1];
      var m := Replay(c, init, log[..j - 1]);
      if log[j - 1].StoreDone? { AtomicExtends(m, log[j - 1].op, log[j - 1].at, c.ttl(log[j - 1].inst)); }
      ExtendsTransitive(Replay(c, init, log[..i]), m, Replay(c, init, log[..j]));
    }
  }

  lemma {:induction false} ReplayKeepsDeciders(c: Config, init: Store, log: seq<Event>)
    requires DecidersNamed(init)
    ensures DecidersNamed(Replay(c, init, log))
    decreases |log|
  {
    if log != [] {
      var n := |log| - 1;
      ReplayKeepsDeciders(c, init, log[..n]);
      if log[n].StoreDone? { AtomicKeepsDeciders(Replay(c, init, log[..n]), log[n].op, log[n].at, c.ttl(log[n].inst)); }
    }
  }

  ghost predicate Consumed(e: Event, id: string) {
    e.StoreDone? && e.op == Consume(id) && e.answer == Done
  }

  /** After a successful consume the reference stays consumed. */
  lemma ConsumeSticks(c: Config, init: Store, log: seq<Event>, i: nat, j: nat, id: string)
    requires Linearized(c, init, log) && i < j <= |log| && Consumed(log[i], id)
    ensures id in Replay(c, init, log[..j]) && Replay(c, init, log[..j])[id].consumed
  {
    assert Explained(c, init, log, i);
    var m := Replay(c, init, log[..i]);
    ConsumeOnce(m, id, log[i].at, c.ttl(log[i].inst));
    assert log[..i + 1][..i] == log[..i];
    assert Replay(c, init, log[..i + 1])[id].consumed;
    ReplayExtends(c, init, log, i + 1, j);
  }

  /** A reference is consumed at most once in a run. */
  lemma ConsumedAtMostOnce(c: Config, init: Store, log: seq<Event>, i: nat, j: nat, id: string)
    requires Linearized(c, init, log) && i < |log| && j < |log|
    requires Consumed(log[i], id) && Consumed(log[j], id)
    ensures i == j
  {
    var lo, hi := if i < j then i else j, if i < j then j else i;
    if lo < hi {
      ConsumeSticks(c, init, log, lo, hi, id);
      assert Explained(c, init, log, hi);
      ConsumeOnce(Replay(c, init, log[..hi]), id, log[hi].at, c.ttl(log[hi].inst));
      assert false;
    }
  }

  // ----- where the records come from

  /** Event `i` is a successful Decide for `id` that gave this decision. */
  ghost predicate DecidedAt(log: seq<Event>, id: string, dec: Decision, i: nat) {
    && i < |log| && log[i].StoreDone? && log[i].op.Decide? && log[i].answer == Done
    && log[i].op.dec.requestID == id && SameDecision(dec, log[i].op.dec, log[i].at)
  }

  /** Event `i` is a successful Create for `id` with this request. */
  ghost predicate CreatedAt(log: seq<Event>, id: string, req: Request, i: nat) {
    && i < |log| && log[i].StoreDone? && log[i].op.Create? && log[i].answer == Created(req)
    && log[i].op.req.id == id && SameRequest(req, log[i].op.req, log[i].at)
  }

  ghost predicate DecisionTraced(init: Store, log: seq<Event>, id: string, dec: Decision) {
    || (id in init && init[id].decision == Some(dec))
    || exists i: nat :: DecidedAt(log, id, dec, i)
  }

  ghost predicate RequestTraced(init: Store, log: seq<Event>, id: string, req: Request) {
    || (id in init && init[id].request == req)
    || exists i: nat :: CreatedAt(log, id, req, i)
  }

  ghost predicate UseTraced(init: Store, log: seq<Event>, id: string) {
    || (id in init && init[id].consumed)
    || exists i :: 0 <= i < |log| && Consumed(log[i], id)
  }

  /** Everything in a record was there at the start or was put there by a logged operation. */
  ghost predicate Traced(init: Store, log: seq<Event>, id: string, rec: Record) {
    && RequestTraced(init, log, id, rec.request)
    && (rec.decision.Some? ==> DecisionTraced(init, log, id, rec.decision.value))
    && (rec.consumed ==> UseTraced(init, log, id))
  }

  lemma TracedGrows(init: Store, log: seq<Event>, e: Event, id: string, rec: Record)
    requires Traced(init, log, id, rec)
    ensures Traced(init, log + [e], id, rec)
  {
    var log' := log + [e];
    assert forall i | 0 <= i < |log| :: log'[i] == log[i];
    if i: nat :| CreatedAt(log, id, rec.request, i) { assert CreatedAt(log', id, rec.request, i); }
    if rec.decision.Some? {
      if i: nat :| DecidedAt(log, id, rec.decision.value, i) { assert DecidedAt(log', id, rec.decision.value, i); }
    }
    if i :| 0 <= i < |log| && Consumed(log[i], id) { assert Consumed(log'[i], id); }
  }

  lemma CreateTraced(c: Config, init: Store, log: seq<Event>, m: Store, e: Event, id: string)
    requires e.StoreDone? && e.op.Create? && id in Atomic(m, e.op, e.at, c.ttl(e.inst)).0
    requires e.answer == Atomic(m, e.op, e.at, c.ttl(e.inst)).1
    requires id in m ==> Traced(init, log, id, m[id])
    ensures Traced(init, log + [e], id, Atomic(m, e.op, e.at, c.ttl(e.inst)).0[id])
  {
    CreateStores(m, e.op.req, e.at, c.ttl(e.inst));
    var n := Atomic(m, e.op, e.at, c.ttl(e.inst)).0;
    if id in m { TracedGrows(init, log, e, id, m[id]); } else { assert CreatedAt(log + [e], id, n[id].request, |log|); }
  }

  lemma DecideTraced(c: Config, init: Store, log: seq<Event>, m: Store, e: Event, id: string)
    requires e.StoreDone? && e.op.Decide? && id in Atomic(m, e.op, e.at, c.ttl(e.inst)).0
    requires e.answer == Atomic(m, e.op, e.at, c.ttl(e.inst)).1
    requires id in m ==> Traced(init, log, id, m[id])
    ensures Traced(init, log + [e], id, Atomic(m, e.op, e.at, c.ttl(e.inst)).0[id])
  {
    DecideStores(m, e.op.dec, e.at, c.ttl(e.inst));
    TracedGrows(init, log, e, id, m[id]);
    var n := Atomic(m, e.op, e.at, c.ttl(e.inst)).0;
    if e.answer == Done && id == e.op.dec.requestID { assert DecidedAt(log + [e], id, n[id].decision.value, |log|); }
  }

  lemma ConsumeTraced(c: Config, init: Store, log: seq<Event>, m: Store, e: Event, id: string)
    requires e.StoreDone? && e.op.Consume? && id in Atomic(m, e.op, e.at, c.ttl(e.inst)).0
    requires e.answer == Atomic(m, e.op, e.at, c.ttl(e.inst)).1
    requires id in m ==> Traced(init, log, id, m[id])
    ensures Traced(init, log + [e], id, Atomic(m, e.op, e.at, c.ttl(e.inst)).0[id])
  {
    ConsumeOnce(m, e.op.id, e.at, c.ttl(e.inst));
    TracedGrows(init, log, e, id, m[id]);
    if e.answer == Done && id == e.op.id { assert Consumed((log + [e])[|log|], id); }
  }

  lemma EventTraced(c: Config, init: Store, log: seq<Event>, m: Store, e: Event, id: string)
    requires e.StoreDone? && id in Atomic(m, e.op, e.at, c.ttl(e.inst)).0
    requires e.answer == Atomic(m, e.op, e.at, c.ttl(e.inst)).1
    requires id in m ==> Traced(init, log, id, m[id])
    ensures Traced(init, log + [e], id, Atomic(m, e.op, e.at, c.ttl(e.inst)).0[id])
  {
    match e.op
    case Create(_) => CreateTraced(c, init, log, m, e, id);
    case Decide(_) => DecideTraced(c, init, log, m, e, id);
    case Consume(_) => ConsumeTraced(c, init, log, m, e, id);
    case Get(_) => TracedGrows(init, log, e, id, m[id]);
  }

  lemma {:induction false} ReplayTraced(c: Config, init: Store, log: seq<Event>, id: string)
    requires Linearized(c, init, log) && id in Replay(c, init, log)
    ensures Traced(init, log, id, Replay(c, init, log)[id])
    decreases |log|
  {
    if log != [] {
      var n := |log| - 1;
      var before, e := log[..n], log[n];
      var m := Replay(c, init, before);
      assert before + [e] == log && Explained(c, init, log, n);
      PrefixLinearized(c, init, log, n);
      if id in m { ReplayTraced(c, init, before, id); }
      if e.StoreDone? { EventTraced(c, init, before, m, e, id); } else { TracedGrows(init, before, e, id, m[id]); }
    }
  }

  lemma PrefixLinearized(c: Config, init: Store, log: seq<Event>, n: nat)
    requires Linearized(c, init, log) && n <= |log|
    ensures Linearized(c, init, log[..n])
  {
    forall i | 0 <= i < n ensures Explained(c, init, log[..n], i) {
      assert Explained(c, init, log, i);
      assert log[..n][..i] == log[..i];
    }
  }

  /** In every run, every record on file is traced: its request was there at the start or came in by
      a logged Create, its decision was there or was given by a logged Decide with the same verdict
      by the same person, and it is used only if it was or a logged Consume succeeded. */
  lemma EveryRecordIsTraced(c: Config, file: Store, now: int, actions: seq<Action>, id: string)
    requires c.order == MutexFirst && Run(c, Initial(file, now), actions).Some?
    requires id in Run(c, Initial(file, now), actions).value.file
    ensures var s := Run(c, Initial(file, now), actions).value; Traced(file, s.log, id, s.file[id])
  {
    RunKeeps(c, file, Initial(file, now), actions);
    ReplayTraced(c, file, Run(c, Initial(file, now), actions).value.log, id);
  }

  // ----- the clock and the answers of IsApproved

  ghost predicate LogClock(now: int, log: seq<Event>) {
    && (forall i | 0 <= i < |log| && log[i].StoreDone? :: log[i].at <= now)
    && (forall i, j | 0 <= i < j < |log| && log[i].StoreDone? && log[j].StoreDone? && log[j].op.Get? ::
          log[i].at <= log[j].at)
  }

  ghost predicate PcClock(now: int, f: Frame) {
    match f.pc
    case Saving(_, _, at) => at <= now && !f.op.Get?
    case TempReady(_, _, at) => at <= now && !f.op.Get?
    case _ => true
  }

  ghost predicate ClockInv(s: State) {
    LogClock(s.now, s.log) && forall t | t in s.frames :: PcClock(s.now, s.frames[t])
  }

  lemma ClockAppend(now: int, log: seq<Event>, e: Event)
    requires LogClock(now, log) && e.StoreDone? && e.at <= now && (e.op.Get? ==> e.at == now)
    ensures LogClock(now, log + [e])
  {
  }

  lemma EnterClock(s: State, t: Tid, inst: Inst, op: Op)
    requires ClockInv(s) && t !in s.frames
    ensures ClockInv(Enter(s, t, inst, op))
  {
    if Precheck(op).Some? { ClockAppend(s.now, s.log, StoreDone(t, op, inst, s.now, Failed(Precheck(op).value))); }
  }

  lemma ExecuteClock(c: Config, s: State, t: Tid)
    requires ClockInv(s) && t in s.frames && ExecuteStep(c, s, t).Some?
    ensures ClockInv(ExecuteStep(c, s, t).value)
  {
    var f := s.frames[t];
    var e := Body(f.pc.local, f.op, s.now, c.ttl(f.inst));
    if e.Reply? { ClockAppend(s.now, s.log, StoreDone(t, f.op, f.inst, s.now, e.answer)); }
  }

  lemma RenameClock(s: State, t: Tid)
    requires ClockInv(s) && t in s.frames && RenameStep(s, t).Some?
    ensures ClockInv(RenameStep(s, t).value)
  {
    var f := s.frames[t];
    assert PcClock(s.now, f);
    ClockAppend(s.now, s.log, StoreDone(t, f.op, f.inst, f.pc.at, f.pc.answer));
  }

  lemma QuietClock(s: State, s': State, t: Tid)
    requires ClockInv(s) && Quiet(s, s', t)
    ensures ClockInv(s')
  {
    assert PcClock(s.now, s.frames[t]);
  }

  lemma ClockStep(c: Config, s: State, a: Action)
    requires ClockInv(s) && Next(c, s, a).Some?
    ensures ClockInv(Next(c, s, a).value)
  {
    var s' := Next(c, s, a).value;
    if a.Invoke? {
      EnterClock(s, a.t, a.inst, a.op);
    } else if a.Execute? {
      ExecuteClock(c, s, a.t);
    } else if a.Rename? {
      RenameClock(s, a.t);
    } else if Effectless(a) {
      assert Quiet(s, s', a.t) by { StepQuiet(c, s, a); }
      QuietClock(s, s', a.t);
    }
  }

  lemma {:induction false} ClockRun(c: Config, s: State, actions: seq<Action>)
    requires ClockInv(s) && Run(c, s, actions).Some?
    ensures ClockInv(Run(c, s, actions).value)
    decreases |actions|
  {
    if actions != [] {
      ClockStep(c, s, actions[0]);
      ClockRun(c, Next(c, s, actions[0]).value, actions[1..]);
    }
  }

  ghost predicate Asked(e: Event, inst: Inst, id: string, verdict: bool) {
    e.StoreDone? && e.inst == inst && e.op == Get(id) && Verdict(e.answer) == Some(verdict)
  }

  /** Over any run, the answers of `IsApproved` that one instance gives for one reference
      have the shape false*, true*, false*. */
  lemma ApprovalShape(c: Config, file: Store, now: int, actions: seq<Action>, inst: Inst, id: string, i: nat, j: nat,
                      k: nat)
    requires c.order == MutexFirst && Run(c, Initial(file, now), actions).Some?
    requires var log := Run(c, Initial(file, now), actions).value.log;
             i < j < k < |log| && Asked(log[i], inst, id, true) && Asked(log[j], inst, id, false)
    ensures !Asked(Run(c, Initial(file, now), actions).value.log[k], inst, id, true)
  {
    var s := Run(c, Initial(file, now), actions).value;
    EveryInterleavingIsAtomic(c, file, now, actions);
    ClockRun(c, Initial(file, now), actions);
    if Asked(s.log[k], inst, id, true) {
      assert Explained(c, file, s.log, i) && Explained(c, file, s.log, j) && Explained(c, file, s.log, k);
      ReplayExtends(c, file, s.log, i, j);
      ReplayExtends(c, file, s.log, j, k);
      ApprovalNeverReturns(Replay(c, file, s.log[..i]), Replay(c, file, s.log[..j]), Replay(c, file, s.log[..k]),
                           id, s.log[i].at, s.log[j].at, s.log[k].at, c.ttl(inst));
      assert false;
    }
  }
}
