/** What holds of every run of the whole system: any number of tool calls, operators,
instances, processes, failures and stops. */
module HandlerTheorems {
  import opened Text
  import opened Fingerprint
  import opened Records
  import opened Backend
  import opened Hunts
  import opened StoreMachine
  import opened StoreTheorems
  import opened Gates
  import opened Handlers
  import opened HandlerInvariant
  import opened HandlerOps

  /** `y` is reached from the existing store file `file` by `moves`, with the program's lock order. */
  ghost predicate Reaches(c: Config, file: Store, now: int, moves: seq<Move>, y: System) {
    c.order == MutexFirst && Steps(c, Begin(file, now), moves) == Some(y)
  }

  /** Every server computes its fingerprints with the same digest. */
  ghost predicate AllHash(y: System, digest: string -> string) {
    forall t | t in y.calls :: Hashes(y.calls[t].deps, digest)
  }

  lemma ReachedInv(c: Config, file: Store, now: int, moves: seq<Move>, y: System)
    requires Reaches(c, file, now, moves, y)
    ensures SysInv(c, file, y)
  {
    assert SysInv(c, file, Begin(file, now));
    MovesKeep(c, file, Begin(file, now), moves);
  }

  // ----- the call behind a write

  lemma {:induction false} WriteListed(log: seq<Event>, i: nat)
    requires i < |log| && log[i].Wrote?
    ensures log[i].write in WrittenBy(log, log[i].t)
    decreases |log|
  {
    var n := |log| - 1;
    if i < n {
      WriteListed(log[..n], i);
      assert log[i].write in WrittenBy(log[..n], log[i].t);
    }
  }

  /** A write belongs to a call that spent its approval, passed the backend check and planned it. */
  lemma WriterSpent(c: Config, init: Store, y: System, i: nat)
    requires SysInv(c, init, y) && i < |y.store.log| && y.store.log[i].Wrote?
    ensures var e := y.store.log[i];
            && e.t in y.calls && y.calls[e.t].ref == e.ref
            && HasSpent(y.store.log, e.t, y.calls[e.t])
            && BackendReady(y.calls[e.t].deps, y.calls[e.t].op, y.calls[e.t].scopeIDs)
            && (exists k | 1 <= k <= |y.calls[e.t].plan| :: WrittenBy(y.store.log, e.t) == y.calls[e.t].plan[..k])
            && e.write in y.calls[e.t].plan
  {
    var e := y.store.log[i];
    var call := y.calls[e.t];
    assert CallInv(y.store, e.t, call);
    assert !NoWrites(y.store.log, e.t);
    WriteListed(y.store.log, i);
    if call.stage.Executing? { assert WrittenBy(y.store.log, e.t) == call.plan[..call.stage.next]; }
    var k :| 1 <= k <= |call.plan| && WrittenBy(y.store.log, e.t) == call.plan[..k];
    assert e.write in call.plan[..k];
  }

  /** What a call saw when it was verified is still what the file says. */
  lemma StillApproved(c: Config, init: Store, y: System, t: Tid, call: Call, g: nat)
    requires Inv(c, init, y.store) && VerifiedAt(y.store.log, t, call, g)
    ensures && call.ref in y.store.file
            && y.store.file[call.ref].request == y.store.log[g].answer.status.request
            && y.store.file[call.ref].decision == y.store.log[g].answer.status.decision
  {
    var log := y.store.log;
    assert Explained(c, init, log, g);
    ReplayExtends(c, init, log, g, |log|);
    assert log[..|log|] == log;
  }

  // ----- the main theorem

  /** Event `i` is a backend write that a human approved: the record under its reference carries
      an approving decision by a named person and is spent; the call that wrote runs in a server
      that may write and whose backend supports the operation; it read that approval while it was
      unexpired, put its attempt on record if there is a sink, and only then spent it; the request
      and the decision were on file from the start or were made before that by a logged Create and a
      logged Decide of the same verdict by the same person; and the approved request asks for what
      the call asks for and covers the write, unless the digest collides on the two requests. */
  ghost predicate Sanctioned(digest: string -> string, file: Store, y: System, i: nat)
    requires i < |y.store.log| && y.store.log[i].Wrote?
  {
    var log, e := y.store.log, y.store.log[i];
    && e.ref in y.store.file && e.t in y.calls
    && var rec, call := y.store.file[e.ref], y.calls[e.t];
       && rec.consumed && rec.decision.Some? && rec.decision.value.approved && rec.decision.value.approvedBy != ""
       && MayWrite(call.deps) && call.deps.client && call.deps.supports(OpOf(e.write))
       && (|| (SameTarget(rec.request, call.candidate) && Authorizes(call.deps, rec.request, e.write))
           || Collision(digest, Stream(rec.request), Stream(call.candidate)))
       && exists g: nat, q: nat ::
            && ReadThenSpent(call.deps.sink, log, e.t, e.ref, rec, g, q) && q < i
            && MadeBefore(file, log, e.ref, rec, g)
  }

  /** The request and the decision of `rec` were on file from the start or were logged before `g`. */
  ghost predicate MadeBefore(file: Store, log: seq<Event>, ref: string, rec: Record, g: nat) {
    && g <= |log| && rec.decision.Some?
    && RequestTraced(file, log[..g], ref, rec.request)
    && DecisionTraced(file, log[..g], ref, rec.decision.value)
  }

  ghost predicate ReadThenSpent(sink: bool, log: seq<Event>, t: Tid, ref: string, rec: Record, g: nat, q: nat) {
    && g < q < |log|
    && log[g].StoreDone? && log[g].t == t && log[g].op == Get(ref)
    && log[g].answer == Found(Status(rec.request, rec.decision, false, false))
    && log[q].StoreDone? && log[q].t == t && log[q].op == Consume(ref) && log[q].answer == Done
    && (sink ==> AttemptBetween(log, t, ref, g, q))
  }

  /** What the call planned is covered by any stored request its candidate matched. */
  lemma Covered(digest: string -> string, call: Call, stored: Request, w: Write)
    requires Passed(call) && w in call.plan && Hashes(call.deps, digest)
        && call.deps.fingerprint(stored) == call.deps.fingerprint(call.candidate)
    ensures || (SameTarget(stored, call.candidate) && Authorizes(call.deps, stored, w))
            || Collision(digest, Stream(stored), Stream(call.candidate))
  {
    MatchMeansTarget(call.deps, digest, stored, call.candidate);
    var j :| 0 <= j < |call.plan| && call.plan[j] == w;
    if SameTarget(stored, call.candidate) { TargetDecides(call.deps, stored, call.candidate, w); }
  }

  /** What a call spent is on file as a used approval by a named person, read before it was spent. */
  lemma SpentOnFile(c: Config, init: Store, y: System, t: Tid, call: Call, g: nat, q: nat)
    requires Inv(c, init, y.store) && DecidersNamed(init) && SpentAt(y.store.log, t, call, g, q)
    ensures call.ref in y.store.file
    ensures var rec := y.store.file[call.ref];
            && rec.consumed && rec.decision.Some? && rec.decision.value.approved && rec.decision.value.approvedBy != ""
            && call.deps.fingerprint(rec.request) == call.deps.fingerprint(call.candidate)
            && ReadThenSpent(call.deps.sink, y.store.log, t, call.ref, rec, g, q)
  {
    var log := y.store.log;
    StillApproved(c, init, y, t, call, g);
    assert log[..|log|] == log;
    ConsumeSticks(c, init, log, q, |log|, call.ref);
    ReplayKeepsDeciders(c, init, log);
  }

  /** What was verified at `g` had been made before. */
  lemma VerifiedMadeBefore(c: Config, init: Store, y: System, t: Tid, call: Call, g: nat)
    requires Inv(c, init, y.store) && VerifiedAt(y.store.log, t, call, g)
    requires call.ref in y.store.file && y.store.file[call.ref].request == y.store.log[g].answer.status.request
    requires y.store.file[call.ref].decision == y.store.log[g].answer.status.decision
    ensures MadeBefore(init, y.store.log, call.ref, y.store.file[call.ref], g)
  {
    var log := y.store.log;
    assert Explained(c, init, log, g);
    PrefixLinearized(c, init, log, g);
    GetTells(Replay(c, init, log[..g]), call.ref, log[g].at, c.ttl(log[g].inst));
    ReplayTraced(c, init, log[..g], call.ref);
  }

  /** A call that may write at all is ready for each of its planned writes. */
  lemma ReadyToWrite(call: Call, w: Write)
    requires Passed(call) && w in call.plan && BackendReady(call.deps, call.op, call.scopeIDs)
    ensures MayWrite(call.deps) && call.deps.client && call.deps.supports(OpOf(w))
  {
    var j :| 0 <= j < |call.plan| && call.plan[j] == w;
    assert OpOf(call.plan[j]) == call.op;
  }

  lemma WriteIsSanctioned(c: Config, digest: string -> string, init: Store, y: System, i: nat)
    requires SysInv(c, init, y) && DecidersNamed(init) && AllHash(y, digest)
    requires i < |y.store.log| && y.store.log[i].Wrote?
    ensures Sanctioned(digest, init, y, i)
  {
    WriterSpent(c, init, y, i);
    var t := y.store.log[i].t;
    var call := y.calls[t];
    var g: nat, q: nat :| SpentAt(y.store.log, t, call, g, q);
    SpentOnFile(c, init, y, t, call, g, q);
    assert Passed(call) by { assert CallInv(y.store, t, call); }
    Covered(digest, call, y.store.file[call.ref].request, y.store.log[i].write);
    ReadyToWrite(call, y.store.log[i].write);
    StillApproved(c, init, y, t, call, g);
    VerifiedMadeBefore(c, init, y, t, call, g);
  }

  /** Every backend write in every run is the one a human approved. */
  lemma EveryWriteIsSanctioned(c: Config, digest: string -> string, file: Store, now: int, moves: seq<Move>, y: System)
    requires Reaches(c, file, now, moves, y) && DecidersNamed(file) && AllHash(y, digest)
    ensures forall i | 0 <= i < |y.store.log| && y.store.log[i].Wrote? :: Sanctioned(digest, file, y, i)
  {
    ReachedInv(c, file, now, moves, y);
    forall i | 0 <= i < |y.store.log| && y.store.log[i].Wrote? ensures Sanctioned(digest, file, y, i) {
      WriteIsSanctioned(c, digest, file, y, i);
    }
  }

  // ----- at most once

  lemma OneSpender(c: Config, init: Store, y: System, t: Tid, u: Tid)
    requires Inv(c, init, y.store) && t in y.calls && u in y.calls && y.calls[t].ref == y.calls[u].ref
    requires HasSpent(y.store.log, t, y.calls[t]) && HasSpent(y.store.log, u, y.calls[u])
    ensures t == u
  {
    var log := y.store.log;
    var g: nat, q: nat :| SpentAt(log, t, y.calls[t], g, q);
    var h: nat, r: nat :| SpentAt(log, u, y.calls[u], h, r);
    ConsumedAtMostOnce(c, init, log, q, r, y.calls[t].ref);
  }

  /** Two writes under one reference come from the same call, however many calls had verified it. */
  lemma OneCallPerApproval(c: Config, file: Store, now: int, moves: seq<Move>, y: System, i: nat, j: nat)
    requires Reaches(c, file, now, moves, y)
    requires i < |y.store.log| && j < |y.store.log| && y.store.log[i].Wrote? && y.store.log[j].Wrote?
    requires y.store.log[i].ref == y.store.log[j].ref
    ensures y.store.log[i].t == y.store.log[j].t
  {
    ReachedInv(c, file, now, moves, y);
    WriterSpent(c, file, y, i);
    WriterSpent(c, file, y, j);
    OneSpender(c, file, y, y.store.log[i].t, y.store.log[j].t);
  }

  lemma {:induction false} SameWrites(log: seq<Event>, t: Tid, ref: string)
    requires forall i | 0 <= i < |log| && log[i].Wrote? :: log[i].t == t <==> log[i].ref == ref
    ensures WrittenUnder(log, ref) == WrittenBy(log, t)
    decreases |log|
  {
    if log != [] {
      var n := |log| - 1;
      assert forall i | 0 <= i < n :: log[..n][i] == log[i];
      SameWrites(log[..n], t, ref);
    }
  }

  lemma {:induction false} SomeWrite(log: seq<Event>, ref: string) returns (i: nat)
    requires WrittenUnder(log, ref) != []
    ensures i < |log| && log[i].Wrote? && log[i].ref == ref
    decreases |log|
  {
    var n := |log| - 1;
    if log[n].Wrote? && log[n].ref == ref { i := n; } else { i := SomeWrite(log[..n], ref); }
  }

  ghost predicate OnePlan(y: System, ref: string) {
    || WrittenUnder(y.store.log, ref) == []
    || exists t, k :: t in y.calls && y.calls[t].ref == ref && 1 <= k <= |y.calls[t].plan|
                      && WrittenUnder(y.store.log, ref) == y.calls[t].plan[..k]
  }

  /** All backend writes ever made under one reference, in order, are the first few steps of the
      plan of one call: nothing is done twice and nothing else is done. */
  lemma WritesFollowOnePlan(c: Config, file: Store, now: int, moves: seq<Move>, y: System, ref: string)
    requires Reaches(c, file, now, moves, y)
    ensures OnePlan(y, ref)
  {
    var log := y.store.log;
    if WrittenUnder(log, ref) != [] {
      ReachedInv(c, file, now, moves, y);
      var i := SomeWrite(log, ref);
      var t := log[i].t;
      WriterSpent(c, file, y, i);
      forall j | 0 <= j < |log| && log[j].Wrote? ensures log[j].t == t <==> log[j].ref == ref {
        WriterSpent(c, file, y, j);
        if log[j].ref == ref { OneSpender(c, file, y, t, log[j].t); }
      }
      SameWrites(log, t, ref);
      var k :| 1 <= k <= |y.calls[t].plan| && WrittenBy(log, t) == y.calls[t].plan[..k];
    }
  }

  /** The whole promise: every backend write is the one a human approved, and under one approval
      the planned writes of one call happen at most once. */
  lemma ApprovedAndAtMostOnce(c: Config, digest: string -> string, file: Store, now: int, moves: seq<Move>, y: System)
    requires Reaches(c, file, now, moves, y) && DecidersNamed(file) && AllHash(y, digest)
    ensures forall i | 0 <= i < |y.store.log| && y.store.log[i].Wrote? :: Sanctioned(digest, file, y, i)
    ensures forall ref :: OnePlan(y, ref)
  {
    EveryWriteIsSanctioned(c, digest, file, now, moves, y);
    forall ref ensures OnePlan(y, ref) { WritesFollowOnePlan(c, file, now, moves, y, ref); }
  }

  // ----- approvals are not wasted, and refused calls do nothing

  lemma ReachedOwn(c: Config, file: Store, now: int, moves: seq<Move>, y: System)
    requires Reaches(c, file, now, moves, y)
    ensures AllKeeping(y)
  {
    MovesKeeping(c, Begin(file, now), moves);
  }

  /** No store operation of thread `t` from event `begun` on changes a record. */
  ghost predicate LeavesRecords(c: Config, file: Store, log: seq<Event>, t: Tid, begun: nat) {
    forall i | begun <= i < |log| && OwnEvent(log[i], t) :: SameRecords(c, file, log, i)
  }

  ghost predicate SameRecords(c: Config, file: Store, log: seq<Event>, i: nat)
    requires i < |log|
  {
    Replay(c, file, log[..i + 1]) == Replay(c, file, log[..i])
  }

  lemma UnspentLeavesRecords(c: Config, file: Store, log: seq<Event>, t: Tid, call: Call)
    requires Linearized(c, file, log) && LogOwn(log, t, call) && NotSpent(log, t, |log|)
    ensures LeavesRecords(c, file, log, t, call.begun)
  {
    forall i | call.begun <= i < |log| && OwnEvent(log[i], t) ensures SameRecords(c, file, log, i) {
      assert Explained(c, file, log, i);
      assert log[..i + 1][..i] == log[..i];
      ConsumeOnce(Replay(c, file, log[..i]), call.ref, log[i].at, c.ttl(log[i].inst));
    }
  }

  /** What a returned call has done. */
  ghost predicate Accounted(c: Config, file: Store, y: System, t: Tid)
    requires t in y.calls && y.calls[t].stage.Finished?
  {
    && LogOwn(y.store.log, t, y.calls[t])
    && (y.calls[t].stage.spent ==> WrittenBy(y.store.log, t) != [])
    && (!y.calls[t].stage.spent
        ==> NoWrites(y.store.log, t) && LeavesRecords(c, file, y.store.log, t, y.calls[t].begun))
  }

  lemma FinishedIsAccounted(c: Config, file: Store, y: System, t: Tid)
    requires SysInv(c, file, y) && AllKeeping(y) && t in y.calls && y.calls[t].stage.Finished?
    ensures Accounted(c, file, y, t)
  {
    var call := y.calls[t];
    assert Keeping(y.store, t, call) && CallInv(y.store, t, call);
    if call.stage.spent {
      var k :| 1 <= k <= |call.plan| && WrittenBy(y.store.log, t) == call.plan[..k];
      assert WrittenBy(y.store.log, t) != [];
    } else {
      UnspentLeavesRecords(c, file, y.store.log, t, call);
    }
  }

  /** A call that returned after spending its approval made a backend write; a call that returned
      without spending it (refused, unverified, backend not ready, attempt not recorded, consume
      failed) changed no record and wrote nothing. In both cases all it ever asked of the store
      was to read and to consume its own reference. */
  lemma SpentMeansWritten(c: Config, file: Store, now: int, moves: seq<Move>, y: System, t: Tid)
    requires Reaches(c, file, now, moves, y) && t in y.calls && y.calls[t].stage.Finished?
    ensures Accounted(c, file, y, t)
  {
    assert SysInv(c, file, y) by { ReachedInv(c, file, now, moves, y); }
    assert AllKeeping(y) by { ReachedOwn(c, file, now, moves, y); }
    FinishedIsAccounted(c, file, y, t);
  }

  // ----- hunts

  /** The hunt write `w` reaches CreateHunt with its own artifact, parameters and client limit, which
      is between 1 and the policy maximum, and without a condition only if policy allows all clients. */
  ghost predicate HuntCreated(d: Deps, w: Write) {
    && w.StartHunt? && CreateHunt(w).Some? && CreateHunt(w).value.artifact == w.artifact
    && CreateHunt(w).value.parameters == w.parameters && CreateHunt(w).value.clientLimit == w.maxClients
    && 1 <= CreateHunt(w).value.clientLimit <= MaxHuntClients(d)
    && (CreateHunt(w).value.condition == Everyone ==> AllGate(d, true))
  }

  /** A hunt that a ready call has planned reaches CreateHunt with the scope it planned. */
  lemma PlannedHunt(call: Call, w: Write)
    requires Passed(call) && w in call.plan && w.StartHunt?
    requires BackendReady(call.deps, call.op, call.scopeIDs) && call.deps.realWrites
    ensures HuntCreated(call.deps, w)
    ensures CreateHunt(w).value.condition == if w.scope.all then Everyone else Labels([w.scope.labelName])
  {
    var j :| 0 <= j < |call.plan| && call.plan[j] == w;
    assert Authorizes(call.deps, call.candidate, call.plan[j]);
    ScopeCheckAgrees(call.deps.valid, w.scope);
  }

  /** In real mode every hunt write of every run reaches CreateHunt, within the policy limits. */
  lemma HuntsAreCreated(c: Config, file: Store, now: int, moves: seq<Move>, y: System, i: nat)
    requires Reaches(c, file, now, moves, y)
    requires i < |y.store.log| && y.store.log[i].Wrote? && y.store.log[i].write.StartHunt?
    ensures var e := y.store.log[i];
            e.t in y.calls && (y.calls[e.t].deps.realWrites ==> HuntCreated(y.calls[e.t].deps, e.write))
  {
    ReachedInv(c, file, now, moves, y);
    WriterSpent(c, file, y, i);
    var e := y.store.log[i];
    assert CallInv(y.store, e.t, y.calls[e.t]);
    if y.calls[e.t].deps.realWrites { PlannedHunt(y.calls[e.t], e.write); }
  }

  ghost predicate HuntCall(call: Call) {
    call.candidate.operation in {"start_hunt", "start_dfir_hunt", "hunt_ioc"}
  }

  lemma HuntPlans(call: Call, w: Write)
    requires Passed(call) && HuntCall(call) && w in call.plan
    ensures w.StartHunt?
  {
    var j :| 0 <= j < |call.plan| && call.plan[j] == w;
    assert Authorizes(call.deps, call.candidate, call.plan[j]);
  }

  lemma {:induction false} ListedWrite(log: seq<Event>, t: Tid) returns (i: nat)
    requires WrittenBy(log, t) != []
    ensures i < |log| && log[i].Wrote? && log[i].t == t
    decreases |log|
  {
    var n := |log| - 1;
    if log[n].Wrote? && log[n].t == t { i := n; } else { i := ListedWrite(log[..n], t); }
  }

  /** In real mode a hunt call that returned after spending its approval has reached CreateHunt. */
  lemma SpentHuntIsCreated(c: Config, file: Store, now: int, moves: seq<Move>, y: System, t: Tid)
    requires Reaches(c, file, now, moves, y) && t in y.calls && y.calls[t].stage == Finished(true)
    requires HuntCall(y.calls[t]) && y.calls[t].deps.realWrites
    ensures exists i :: 0 <= i < |y.store.log| && y.store.log[i].Wrote? && y.store.log[i].t == t
                        && HuntCreated(y.calls[t].deps, y.store.log[i].write)
  {
    SpentMeansWritten(c, file, now, moves, y, t);
    var i := ListedWrite(y.store.log, t);
    assert SysInv(c, file, y) by { ReachedInv(c, file, now, moves, y); }
    WriterSpent(c, file, y, i);
    assert CallInv(y.store, t, y.calls[t]);
    HuntPlans(y.calls[t], y.store.log[i].write);
    HuntsAreCreated(c, file, now, moves, y, i);
  }

  /** The hunt is the one request `r` asks for: its artifact and parameters, or a member of its profile,
      for all clients exactly if it says so and else for its label. */
  ghost predicate HuntAsked(d: Deps, r: Request, hunt: Hunt) {
    && hunt.condition == (if r.targetAll then Everyone else Labels([r.labelName]))
    && (|| (r.operation in {"start_hunt", "hunt_ioc"} && hunt.artifact == r.artifact && hunt.parameters == r.parameters)
        || (r.operation == "start_dfir_hunt" && ProfileHolds(d, r.profile, hunt.artifact, hunt.parameters)))
  }

  lemma CoveredHunt(d: Deps, r: Request, w: Write)
    requires Authorizes(d, r, w) && HuntCreated(d, w)
    requires CreateHunt(w).value.condition == if w.scope.all then Everyone else Labels([w.scope.labelName])
    ensures HuntAsked(d, r, CreateHunt(w).value)
  {
  }

  lemma HuntFits(digest: string -> string, call: Call, stored: Request, w: Write)
    requires Passed(call) && w in call.plan && w.StartHunt?
    requires BackendReady(call.deps, call.op, call.scopeIDs) && call.deps.realWrites
    requires Hashes(call.deps, digest) && call.deps.fingerprint(stored) == call.deps.fingerprint(call.candidate)
    ensures HuntCreated(call.deps, w)
    ensures || HuntAsked(call.deps, stored, CreateHunt(w).value)
            || Collision(digest, Stream(stored), Stream(call.candidate))
  {
    PlannedHunt(call, w);
    assert Authorizes(call.deps, stored, w) || Collision(digest, Stream(stored), Stream(call.candidate)) by {
      Covered(digest, call, stored, w);
    }
    if Authorizes(call.deps, stored, w) { CoveredHunt(call.deps, stored, w); }
  }

  /** Hunt write `i` reaches CreateHunt; the hunt is the one the approved request asks for, unless
      the digest collides on the approved request and the call's own. */
  ghost predicate HuntInScope(digest: string -> string, y: System, i: nat)
    requires i < |y.store.log| && y.store.log[i].Wrote? && y.store.log[i].write.StartHunt?
  {
    var e := y.store.log[i];
    && e.ref in y.store.file && e.t in y.calls && HuntCreated(y.calls[e.t].deps, e.write)
    && var r := y.store.file[e.ref].request;
       (|| HuntAsked(y.calls[e.t].deps, r, CreateHunt(e.write).value)
        || Collision(digest, Stream(r), Stream(y.calls[e.t].candidate)))
  }

  lemma HuntStaysInScope(c: Config, digest: string -> string, init: Store, y: System, i: nat)
    requires SysInv(c, init, y) && DecidersNamed(init) && AllHash(y, digest)
    requires i < |y.store.log| && y.store.log[i].Wrote? && y.store.log[i].write.StartHunt?
    requires y.store.log[i].t in y.calls ==> y.calls[y.store.log[i].t].deps.realWrites
    ensures HuntInScope(digest, y, i)
  {
    WriterSpent(c, init, y, i);
    var e := y.store.log[i];
    var call := y.calls[e.t];
    var g: nat, q: nat :| SpentAt(y.store.log, e.t, call, g, q);
    SpentOnFile(c, init, y, e.t, call, g, q);
    assert Passed(call) by { assert CallInv(y.store, e.t, call); }
    HuntFits(digest, call, y.store.file[e.ref].request, e.write);
  }

  /** In real mode every hunt write of every run stays in the approved scope. */
  lemma HuntsStayInScope(c: Config, digest: string -> string, file: Store, now: int, moves: seq<Move>, y: System,
                         i: nat)
    requires Reaches(c, file, now, moves, y) && DecidersNamed(file) && AllHash(y, digest)
    requires i < |y.store.log| && y.store.log[i].Wrote? && y.store.log[i].write.StartHunt?
    requires y.store.log[i].t in y.calls ==> y.calls[y.store.log[i].t].deps.realWrites
    ensures HuntInScope(digest, y, i)
  {
    ReachedInv(c, file, now, moves, y);
    HuntStaysInScope(c, digest, file, y, i);
  }
}
