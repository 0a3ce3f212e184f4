/** One FileStore used by one caller at a time: the methods of
internal/approval/filestore.go:139-375 on a file that outlives them, with every
lock, read and write allowed to fail. StoreMachine.dfy interleaves them. */
module FileStoreClass {
  import opened Text
  import opened Fingerprint
  import opened Records

  /** A temp file: half written, or holding all of some records. */
  datatype TempFile = Partial | Whole(records: Store)

  /** The directory of the store: the store file and the temp files beside it, by name. */
  class Disk {
    var file: Store
    var temps: map<nat, TempFile>

    constructor (file: Store)
      ensures this.file == file && temps == map[]
    {
      this.file, temps := file, map[];
    }
  }

  /** How the system calls of one `save` turn out. */
  datatype SaveEnv = SaveEnv(createOk: bool, writeOk: bool, chmodOk: bool, syncOk: bool, closeOk: bool, renameOk: bool,
                             removeOk: bool) {
    predicate Works() { createOk && writeOk && chmodOk && syncOk && closeOk && renameOk }
  }

  /** What the surroundings do during one call. */
  datatype Env = Env(now: int, lockOk: bool, loadOk: bool, save: SaveEnv) {
    predicate Healthy() { lockOk && loadOk && save.Works() }
  }

  lemma {:induction false} UnusedName(names: set<nat>) returns (n: nat)
    ensures forall x | x in names :: x < n
    decreases |names|
  {
    if names == {} {
      n := 0;
    } else {
      var x :| x in names;
      var m := UnusedName(names - {x});
      n := if m <= x then x + 1 else m;
      forall y | y in names ensures y < n { if y != x { assert y in names - {x}; } }
    }
  }

  class FileStore {
    const disk: Disk
    const ttl: int
    var mu: bool
    var locked: bool
    var records: Store

    constructor (disk: Disk, ttl: int)
      ensures this.disk == disk && this.ttl == ttl && Idle()
    {
      this.disk, this.ttl, mu, locked, records := disk, ttl, false, false, map[];
    }

    ghost predicate Idle()
      reads this
    {
      !mu && !locked
    }

    /** `withLock` up to the call of its function: both locks, then a fresh copy of the file. */
    method Enter(env: Env) returns (ok: bool)
      requires Idle()
      modifies this
      ensures ok == (env.lockOk && env.loadOk)
      ensures ok ==> mu && locked && records == disk.file
      ensures !ok ==> Idle()
    {
      mu := true;
      if !env.lockOk {
        mu := false;
        return false;
      }
      locked := true;
      if !env.loadOk {
        Leave();
        return false;
      }
      records := disk.file;
      return true;
    }

    /** The deferred unlocks: flock, then mutex. */
    method Leave()
      modifies this
      ensures Idle() && records == old(records)
    {
      locked := false;
      mu := false;
    }

    /** `save`: temp file under an unused name, write, chmod, sync, close, rename, and the deferred
        removal. The store file is the old map or the whole new one, never anything else; no other
        temp file is touched, and its own is gone unless the save failed and removing it did too. */
    method SaveRecords(env: SaveEnv) returns (ok: bool)
      modifies disk
      ensures ok <==> env.Works()
      ensures disk.file == old(disk.file) || disk.file == records
      ensures ok ==> disk.file == records
      ensures !ok ==> disk.file == old(disk.file)
      ensures ok || env.removeOk ==> disk.temps == old(disk.temps)
      ensures forall n | n in old(disk.temps) :: n in disk.temps && disk.temps[n] == old(disk.temps)[n]
    {
      if !env.createOk { return false; }
      ghost var unused := UnusedName(disk.temps.Keys);
      assert unused !in disk.temps;
      var tmp: nat :| tmp !in disk.temps;
      disk.temps := disk.temps[tmp := Partial];
      if !env.writeOk {
        RemoveTemp(tmp, env.removeOk);
        return false;
      }
      disk.temps := disk.temps[tmp := Whole(records)];
      if !env.chmodOk || !env.syncOk || !env.closeOk {
        RemoveTemp(tmp, env.removeOk);
        return false;
      }
      if !env.renameOk {
        RemoveTemp(tmp, env.removeOk);
        return false;
      }
      disk.file := disk.temps[tmp].records;
      disk.temps := disk.temps - {tmp};
      return true;
    }

    /** The deferred `os.Remove`, whose error is ignored. */
    method RemoveTemp(tmp: nat, ok: bool)
      modifies disk
      ensures disk.file == old(disk.file)
      ensures disk.temps == if ok then old(disk.temps) - {tmp} else old(disk.temps)
    {
      if ok { disk.temps := disk.temps - {tmp}; }
    }

    method Create(req: Request, env: Env) returns (answer: Answer)
      requires Idle()
      modifies this, disk
      ensures Idle()
      ensures answer == Failed(Unavailable) ==> !env.Healthy() && disk.file == old(disk.file)
      ensures env.save.removeOk ==> disk.temps == old(disk.temps)
      ensures answer != Failed(Unavailable)
          ==> (disk.file, answer) == Atomic(old(disk.file), Op.Create(req), env.now, ttl)
    {
      if req.id == "" { return Failed(ReferenceRequired); }
      if req.caseID == "" { return Failed(CaseIDRequired); }
      if req.reason == "" { return Failed(ReasonRequired); }
      if req.requester == "" { return Failed(RequesterRequired); }
      var ok := Enter(env);
      if !ok { return Failed(Unavailable); }
      if req.id in records {
        Leave();
        return Failed(DuplicateReference);
      }
      var stamped := req;
      if req.createdAt == 0 { stamped := req.(createdAt := env.now); }
      records := records[req.id := Record(stamped, None, false)];
      ok := SaveRecords(env.save);
      Leave();
      return if ok then Created(stamped) else Failed(Unavailable);
    }

    method Decide(dec: Decision, env: Env) returns (answer: Answer)
      requires Idle()
      modifies this, disk
      ensures Idle()
      ensures answer == Failed(Unavailable) ==> !env.Healthy() && disk.file == old(disk.file)
      ensures env.save.removeOk ==> disk.temps == old(disk.temps)
      ensures answer != Failed(Unavailable)
          ==> (disk.file, answer) == Atomic(old(disk.file), Op.Decide(dec), env.now, ttl)
    {
      if dec.approvedBy == "" { return Failed(ApprovedByRequired); }
      var ok := Enter(env);
      if !ok { return Failed(Unavailable); }
      if dec.requestID !in records {
        Leave();
        return Failed(RequestNotFound);
      }
      if records[dec.requestID].decision.Some? {
        Leave();
        return Failed(AlreadyDecided);
      }
      var stamped := dec;
      if dec.decidedAt == 0 { stamped := dec.(decidedAt := env.now); }
      records := records[dec.requestID := records[dec.requestID].(decision := Some(stamped))];
      ok := SaveRecords(env.save);
      Leave();
      return if ok then Done else Failed(Unavailable);
    }

    method Get(id: string, env: Env) returns (answer: Answer)
      requires Idle()
      modifies this
      ensures Idle()
      ensures answer == Failed(Unavailable) ==> !env.Healthy()
      ensures answer != Failed(Unavailable) ==> (disk.file, answer) == Atomic(disk.file, Op.Get(id), env.now, ttl)
    {
      var ok := Enter(env);
      if !ok { return Failed(Unavailable); }
      if id !in records {
        Leave();
        return Failed(RequestNotFound);
      }
      var rec := records[id];
      Leave();
      return Found(Status(rec.request, rec.decision, rec.consumed, env.now - rec.request.createdAt > ttl));
    }

    /** `IsApproved`: None is an error. */
    method IsApproved(id: string, env: Env) returns (r: Option<bool>)
      requires Idle()
      modifies this
      ensures Idle()
      ensures r.None? ==> !env.Healthy()
      ensures r.Some? ==> r.value == Records.IsApproved(disk.file, id, env.now, ttl)
    {
      var answer := Get(id, env);
      match answer
      case Failed(e) => return if e == RequestNotFound then Some(false) else None;
      case Found(status) =>
        if status.consumed || status.expired || status.decision.None? { return Some(false); }
        return Some(status.decision.value.approved);
      case _ => assert false;
    }

    method Consume(id: string, env: Env) returns (answer: Answer)
      requires Idle()
      modifies this, disk
      ensures Idle()
      ensures answer == Failed(Unavailable) ==> !env.Healthy() && disk.file == old(disk.file)
      ensures env.save.removeOk ==> disk.temps == old(disk.temps)
      ensures answer != Failed(Unavailable)
          ==> (disk.file, answer) == Atomic(old(disk.file), Op.Consume(id), env.now, ttl)
    {
      var ok := Enter(env);
      if !ok { return Failed(Unavailable); }
      if id !in records {
        Leave();
        return Failed(RequestNotFound);
      }
      if records[id].consumed {
        Leave();
        return Failed(AlreadyConsumed);
      }
      records := records[id := records[id].(consumed := true)];
      ok := SaveRecords(env.save);
      Leave();
      return if ok then Done else Failed(Unavailable);
    }
  }
}
