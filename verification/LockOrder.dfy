/** Why `withLock` takes the mutex before the flock: in the other order, two threads
of one instance and one thread of another can undo a consume. The run below is the
one described at internal/approval/filestore.go:113-129. */
module LockOrder {
  import opened Text
  import opened Fingerprint
  import opened Records
  import opened StoreMachine

  /** States linked by single steps form a run. */
  lemma {:induction false} Follow(c: Config, states: seq<State>, actions: seq<Action>)
    requires |states| == |actions| + 1
    requires forall i | 0 <= i < |actions| :: Next(c, states[i], actions[i]) == Some(states[i + 1])
    ensures Run(c, states[0], actions) == Some(states[|actions|])
    decreases |actions|
  {
    if actions != [] { Follow(c, states[1..], actions[1..]); }
  }

  /** Thread 0 reads reference `id` through instance 0, thread 1 creates `req` through
      instance 0, thread 2 consumes `id` through instance 1. */
  datatype Scene = Scene(c: Config, file: Store, now: int, id: string, req: Request) {
    ghost predicate Valid() {
      && c.order == FlockFirst
      && id in file && !file[id].consumed && req.id !in file
      && Precheck(Create(req)).None?
    }

    function Seen(): Answer
      requires id in file
    {
      Found(Status(file[id].request, file[id].decision, file[id].consumed, Expired(file[id].request, now, c.ttl(0))))
    }

    function Stamped(): Request {
      if req.createdAt == 0 then req.(createdAt := now) else req
    }

    function ConsumedFile(): Store
      requires id in file
    {
      file[id := file[id].(consumed := true)]
    }

    function LateFile(): Store {
      file[req.id := Record(Stamped(), None, false)]
    }

    function Reader(pc: Pc): Frame { Frame(0, Get(id), 0, pc) }
    function Creator(pc: Pc): Frame { Frame(0, Create(req), 0, pc) }
    function Consumer(pc: Pc): Frame { Frame(1, Consume(id), 1, pc) }

    function Log1(): seq<Event>
      requires id in file
    {
      [StoreDone(0, Get(id), 0, now, Seen())]
    }

    function Log2(): seq<Event>
      requires id in file
    {
      Log1() + [StoreDone(2, Consume(id), 1, now, Done)]
    }

    function S0(): State { Initial(file, now) }
    function S1(): State { State(now, file, map[], Some(0), map[0 := 0], {0}, map[0 := Reader(Locked)], {}, []) }
    function S2(): State {
      State(now, file, map[], Some(0), map[0 := 0], {0}, map[0 := Reader(Locked), 1 := Creator(Acquire2)], {}, [])
    }
    function Answered(): State
      requires id in file
    {
      State(now, file, map[], Some(0), map[0 := 0], {0}, map[0 := Reader(Release2(Seen())), 1 := Creator(Acquire2)],
            {}, Log1())
    }
    function S3(): State
      requires id in file
    {
      State(now, file, map[], Some(0), map[], {0}, map[0 := Reader(Release1(Seen())), 1 := Creator(Acquire2)], {},
            Log1())
    }
    /** Thread 1 is inside with only the mutex: the OS lock is free again. */
    function S4(): State
      requires id in file
    {
      State(now, file, map[], None, map[0 := 1], {}, map[0 := Reader(Returned(Seen())), 1 := Creator(Loaded(file))],
            {}, Log1())
    }
    function S5(): State
      requires id in file
    {
      State(now, file, map[], Some(1), map[0 := 1, 1 := 2], {1},
            map[0 := Reader(Returned(Seen())), 1 := Creator(Loaded(file)), 2 := Consumer(Loaded(file))], {}, Log1())
    }
    function Staged(): State
      requires id in file
    {
      State(now, file, map[2 := Synced(ConsumedFile())], Some(1), map[0 := 1, 1 := 2], {1},
            map[0 := Reader(Returned(Seen())), 1 := Creator(Loaded(file)),
                2 := Consumer(TempReady(ConsumedFile(), Done, now))],
            {}, Log1())
    }
    /** The consume has been saved and answered. */
    function S6(): State
      requires id in file
    {
      State(now, ConsumedFile(), map[], Some(1), map[0 := 1, 1 := 2], {1},
            map[0 := Reader(Returned(Seen())), 1 := Creator(Loaded(file)), 2 := Consumer(Release2(Done))], {}, Log2())
    }

    function Restaged(): State
      requires id in file
    {
      State(now, ConsumedFile(), map[1 := Synced(LateFile())], Some(1), map[0 := 1, 1 := 2], {1},
            map[0 := Reader(Returned(Seen())), 1 := Creator(TempReady(LateFile(), Created(Stamped()), now)),
                2 := Consumer(Release2(Done))],
            {}, Log2())
    }

    lemma To1() returns (r: seq<Action>)
      requires Valid()
      ensures Run(c, S0(), r) == Some(S1())
    {
      r := [Invoke(0, 0, Get(id)), Acquire(0), Acquire(0)];
      var a := Next(c, S0(), Invoke(0, 0, Get(id))).value;
      var b := Next(c, a, Acquire(0)).value;
      var d := Next(c, b, Acquire(0)).value;
      assert d.frames == S1().frames && d.mutexes == S1().mutexes && d.flags == S1().flags && d.temps == S1().temps;
      assert d == S1();
      Follow(c, [S0(), a, b, d], r);
    }

    /** The second thread passes the flock on the handle's own bookkeeping. */
    lemma To2() returns (r: seq<Action>)
      requires Valid()
      ensures Run(c, S1(), r) == Some(S2())
    {
      r := [Invoke(1, 0, Create(req)), Acquire(1)];
      var a := Next(c, S1(), Invoke(1, 0, Create(req))).value;
      var b := Next(c, a, Acquire(1)).value;
      assert b.frames == S2().frames && b.mutexes == S2().mutexes && b.flags == S2().flags && b.temps == S2().temps;
      assert b == S2();
      Follow(c, [S1(), a, b], r);
    }

    lemma ToAnswered() returns (r: seq<Action>)
      requires Valid()
      ensures Run(c, S2(), r) == Some(Answered())
    {
      r := [Load(0), Execute(0)];
      var a := Next(c, S2(), Load(0)).value;
      assert a.frames[0] == Reader(Loaded(file));
      var b := Next(c, a, Execute(0)).value;
      assert b.frames == Answered().frames && b.mutexes == Answered().mutexes && b.log == Answered().log;
      Follow(c, [S2(), a, b], r);
    }

    lemma To3() returns (r: seq<Action>)
      requires Valid()
      ensures Run(c, S2(), r) == Some(S3())
    {
      var q := ToAnswered();
      var d := Next(c, Answered(), Release(0)).value;
      assert d.frames == S3().frames && d.mutexes == S3().mutexes && d.flags == S3().flags;
      Follow(c, [Answered(), d], [Release(0)]);
      RunJoin(c, S2(), q, Answered(), [Release(0)], S3());
      r := q + [Release(0)];
    }

    function Entered(): State
      requires id in file
    {
      State(now, file, map[], Some(0), map[0 := 1], {0}, map[0 := Reader(Release1(Seen())), 1 := Creator(Locked)], {},
            Log1())
    }

    function Unlocked(): State
      requires id in file
    {
      State(now, file, map[], None, map[0 := 1], {}, map[0 := Reader(Returned(Seen())), 1 := Creator(Locked)], {},
            Log1())
    }

    lemma StepEnter()
      requires Valid()
      ensures Run(c, S3(), [Acquire(1)]) == Some(Entered())
    {
      var a := AcquireStep(c, S3(), 1).value;
      assert a.frames == Entered().frames && a.mutexes == Entered().mutexes;
      RunOne(c, S3(), Acquire(1), Entered());
    }

    lemma StepUnlock()
      requires Valid()
      ensures Run(c, Entered(), [Release(0)]) == Some(Unlocked())
    {
      var a := ReleaseStep(c, Entered(), 0).value;
      assert a.frames == Unlocked().frames && a.flags == Unlocked().flags;
      RunOne(c, Entered(), Release(0), Unlocked());
    }

    lemma StepRead()
      requires Valid()
      ensures Run(c, Unlocked(), [Load(1)]) == Some(S4())
    {
      var a := LoadStep(Unlocked(), 1, true).value;
      assert a.frames == S4().frames;
      RunOne(c, Unlocked(), Load(1), S4());
    }

    lemma To4() returns (r: seq<Action>)
      requires Valid()
      ensures Run(c, S3(), r) == Some(S4())
    {
      StepEnter();
      StepUnlock();
      RunJoin(c, S3(), [Acquire(1)], Entered(), [Release(0)], Unlocked());
      StepRead();
      RunJoin(c, S3(), [Acquire(1)] + [Release(0)], Unlocked(), [Load(1)], S4());
      r := [Acquire(1)] + [Release(0)] + [Load(1)];
    }

    lemma To5() returns (r: seq<Action>)
      requires Valid()
      ensures Run(c, S4(), r) == Some(S5())
    {
      r := [Invoke(2, 1, Consume(id)), Acquire(2), Acquire(2), Load(2)];
      var a := Next(c, S4(), Invoke(2, 1, Consume(id))).value;
      var b := Next(c, a, Acquire(2)).value;
      var d := Next(c, b, Acquire(2)).value;
      var e := Next(c, d, Load(2)).value;
      assert e.frames == S5().frames && e.mutexes == S5().mutexes && e.flags == S5().flags && e.temps == S5().temps;
      assert e == S5();
      Follow(c, [S4(), a, b, d, e], r);
    }

    lemma ToStaged() returns (r: seq<Action>)
      requires Valid()
      ensures Run(c, S5(), r) == Some(Staged())
    {
      r := [Execute(2), WriteTemp(2)];
      var a := Next(c, S5(), Execute(2)).value;
      assert a.frames[2] == Consumer(Saving(ConsumedFile(), Done, now)) && a.log == Log1();
      var b := Next(c, a, WriteTemp(2)).value;
      assert b.frames == Staged().frames && b.temps == Staged().temps;
      Follow(c, [S5(), a, b], r);
    }

    lemma To6() returns (r: seq<Action>)
      requires Valid()
      ensures Run(c, S5(), r) == Some(S6())
    {
      var q := ToStaged();
      var d := Next(c, Staged(), Rename(2)).value;
      assert d.frames == S6().frames && d.temps == S6().temps && d.log == S6().log;
      Follow(c, [Staged(), d], [Rename(2)]);
      RunJoin(c, S5(), q, Staged(), [Rename(2)], S6());
      r := q + [Rename(2)];
    }

    function Rewriting(): State
      requires id in file
    {
      State(now, ConsumedFile(), map[1 := Partial], Some(1), map[0 := 1, 1 := 2], {1},
            map[0 := Reader(Returned(Seen())), 1 := Creator(Saving(LateFile(), Created(Stamped()), now)),
                2 := Consumer(Release2(Done))],
            {}, Log2())
    }

    lemma StepRewrite()
      requires Valid()
      ensures Run(c, S6(), [Execute(1)]) == Some(Rewriting())
    {
      assert S6().frames[1] == Creator(Loaded(file));
      assert Body(file, Create(req), now, c.ttl(0)) == Save(LateFile(), Created(Stamped()));
      var a := ExecuteStep(c, S6(), 1).value;
      assert a.frames == Rewriting().frames && a.temps == Rewriting().temps;
      RunOne(c, S6(), Execute(1), Rewriting());
    }

    lemma StepRestage()
      requires Valid()
      ensures Run(c, Rewriting(), [WriteTemp(1)]) == Some(Restaged())
    {
      var a := WriteTempStep(Rewriting(), 1).value;
      assert a.frames == Restaged().frames && a.temps == Restaged().temps;
      RunOne(c, Rewriting(), WriteTemp(1), Restaged());
    }

    lemma ToRestaged() returns (r: seq<Action>)
      requires Valid()
      ensures Run(c, S6(), r) == Some(Restaged())
    {
      StepRewrite();
      StepRestage();
      RunJoin(c, S6(), [Execute(1)], Rewriting(), [WriteTemp(1)], Restaged());
      r := [Execute(1)] + [WriteTemp(1)];
    }

    /** Thread 1 saves the copy it read before the consume. */
    lemma To7() returns (r: seq<Action>, s: State)
      requires Valid()
      ensures Run(c, S6(), r) == Some(s)
      ensures s.file == LateFile() && |s.log| == 3 && s.log[1] == Log2()[1]
    {
      var q := ToRestaged();
      s := Next(c, Restaged(), Rename(1)).value;
      Follow(c, [Restaged(), s], [Rename(1)]);
      RunJoin(c, S6(), q, Restaged(), [Rename(1)], s);
      r := q + [Rename(1)];
    }
  }

  /** The run in which a consume is answered with success and then overwritten. */
  ghost predicate Resurrection(c: Config, file: Store, now: int, id: string, actions: seq<Action>) {
    && Run(c, Initial(file, now), actions).Some?
    && var s := Run(c, Initial(file, now), actions).value;
       && (exists i | 0 <= i < |s.log| :: s.log[i].StoreDone? && s.log[i].op == Consume(id) && s.log[i].answer == Done)
       && id in s.file && !s.file[id].consumed
  }

  /** With the flock taken first, every file that holds an unused approval has a run that
      consumes the approval, reports success, and leaves it unused. */
  lemma FlockFirstResurrects(c: Config, file: Store, now: int, id: string, req: Request)
    requires c.order == FlockFirst && id in file && !file[id].consumed
    requires req.id !in file && Precheck(Create(req)).None?
    ensures exists actions :: Resurrection(c, file, now, id, actions)
  {
    var x := Scene(c, file, now, id, req);
    var r1 := x.To1();
    var r2 := x.To2();
    var r3 := x.To3();
    var r4 := x.To4();
    var r5 := x.To5();
    var r6 := x.To6();
    var r7, s := x.To7();
    RunJoin(c, x.S0(), r1, x.S1(), r2, x.S2());
    RunJoin(c, x.S0(), r1 + r2, x.S2(), r3, x.S3());
    RunJoin(c, x.S0(), r1 + r2 + r3, x.S3(), r4, x.S4());
    RunJoin(c, x.S0(), r1 + r2 + r3 + r4, x.S4(), r5, x.S5());
    RunJoin(c, x.S0(), r1 + r2 + r3 + r4 + r5, x.S5(), r6, x.S6());
    RunJoin(c, x.S0(), r1 + r2 + r3 + r4 + r5 + r6, x.S6(), r7, s);
    assert s.log[1].StoreDone? && s.log[1].op == Consume(id) && s.log[1].answer == Done;
    assert Resurrection(c, file, now, id, r1 + r2 + r3 + r4 + r5 + r6 + r7);
  }
}
