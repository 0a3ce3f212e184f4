/** One admitted tool call as the handlers run it, alone: verify, backend check, audit attempt,
consume, then the backend loop (internal/mcpserver/server.go:218-355,
internal/mcpserver/tools_collection.go:280-314). Handlers.dfy interleaves such calls. */
module HandlerCall {
  import opened Text
  import opened Fingerprint
  import opened Records
  import opened Backend
  import opened FileStoreClass
  import opened Gates

  /** What the surroundings do during one call; `backendOk(i)` is about the i-th backend call. */
  datatype CallEnv = CallEnv(read: Env, spend: Env, attemptOk: bool, dirOk: bool, backendOk: nat -> bool)

  /** Backend calls 0 to n-1 are made out of `total`: all but the last succeed, and it is the last
      because it failed or because nothing is left. */
  ghost predicate StopsAt(backendOk: nat -> bool, total: nat, n: nat) {
    && n <= total && (forall i: nat | i + 1 < n :: backendOk(i))
    && (n < total ==> n > 0 && !backendOk(n - 1))
  }

  class Handler {
    const store: FileStore
    var attempts: seq<string>
    var writes: seq<Write>

    constructor (store: FileStore)
      ensures this.store == store && attempts == [] && writes == []
    {
      this.store, attempts, writes := store, [], [];
    }

    /** `verifyApproval`: lets the call through only on a matching, approved, unused, unexpired
        record, and always on such a one when the store can be read. */
    method VerifyApproval(d: Deps, ref: string, candidate: Request, env: Env) returns (ok: bool)
      requires store.Idle()
      modifies store
      ensures store.Idle()
      ensures ok ==> Approves(d, Atomic(store.disk.file, Get(ref), env.now, store.ttl).1, candidate)
      ensures env.Healthy() && Approves(d, Atomic(store.disk.file, Get(ref), env.now, store.ttl).1, candidate) ==> ok
    {
      var answer := store.Get(ref, env);
      if !answer.Found? { return false; }
      var status := answer.status;
      if d.fingerprint(status.request) != d.fingerprint(candidate) { return false; }
      if status.decision.None? { return false; }
      if !status.decision.value.approved { return false; }
      if status.consumed { return false; }
      if status.expired { return false; }
      return true;
    }

    /** `gateAuditForWrite`. */
    method GateAudit(d: Deps, ref: string, writeOk: bool) returns (ok: bool)
      modifies this`attempts
      ensures ok == (!d.sink || writeOk)
      ensures attempts == old(attempts) + if d.sink && ok then [ref] else []
    {
      if !d.sink { return true; }
      if !writeOk { return false; }
      attempts := attempts + [ref];
      return true;
    }

    /** The backend loop: one call after the other until one fails. */
    method RunPlan(plan: seq<Write>, backendOk: nat -> bool) returns (n: nat, ok: bool)
      modifies this`writes
      ensures StopsAt(backendOk, |plan|, n) && writes == old(writes) + plan[..n]
      ensures ok <==> forall i: nat | i < |plan| :: backendOk(i)
    {
      n, ok := 0, true;
      while n < |plan|
        invariant 0 <= n <= |plan| && ok && writes == old(writes) + plan[..n]
        invariant forall i: nat | i < n :: backendOk(i)
      {
        writes := writes + [plan[n]];
        n := n + 1;
        if !backendOk(n - 1) {
          ok := false;
          break;
        }
      }
    }

    /** An admitted call. Either it spends its approval and makes the planned writes up to and
        including the first that fails, or it changes neither the store nor the backend; and it
        spends the approval whenever everything it depends on allows it. */
    method Handle(d: Deps, ref: string, a: Admission, env: CallEnv) returns (spent: bool, n: nat)
      requires store.Idle() && a.Admitted? && a.plan != []
      modifies this`attempts, this`writes, store, store.disk
      ensures store.Idle()
      ensures spent ==> && Approves(d, Atomic(old(store.disk.file), Get(ref), env.read.now, store.ttl).1, a.candidate)
                        && BackendReady(d, a.op, a.scopeIDs)
                        && attempts == old(attempts) + (if d.sink then [ref] else [])
                        && store.disk.file == old(store.disk.file)[ref := old(store.disk.file)[ref].(consumed := true)]
                        && n >= 1 && StopsAt(env.backendOk, |a.plan|, n) && writes == old(writes) + a.plan[..n]
      ensures !spent ==> n == 0 && store.disk.file == old(store.disk.file) && writes == old(writes)
      ensures && Approves(d, Atomic(old(store.disk.file), Get(ref), env.read.now, store.ttl).1, a.candidate)
              && BackendReady(d, a.op, a.scopeIDs) && (d.sink ==> env.attemptOk) && (a.op == DownloadOp ==> env.dirOk)
              && env.read.Healthy() && env.spend.Healthy()
              ==> spent
    {
      n := 0;
      var ok := VerifyApproval(d, ref, a.candidate, env.read);
      if !ok { return false, 0; }
      if !BackendReady(d, a.op, a.scopeIDs) { return false, 0; }
      ok := GateAudit(d, ref, env.attemptOk);
      if !ok { return false, 0; }
      if a.op == DownloadOp && !env.dirOk { return false, 0; }
      var answer := store.Consume(ref, env.spend);
      if answer != Done { return false, 0; }
      ConsumeOnce(old(store.disk.file), ref, env.spend.now, store.ttl);
      n, ok := RunPlan(a.plan, env.backendOk);
      return true, n;
    }
  }
}
