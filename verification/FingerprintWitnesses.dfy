/** A run of `auth::Fingerprint` that shows its flag outliving a worker. */
module FingerprintWitnesses {
  import opened Common
  import opened Fingerprint

  predicate Moves(s: State, a: Action, t: State) {
    Enabled(s, a) && Apply(s, a) == t
  }

  lemma {:induction false} Go(s: State, a: Action, t: State)
    requires Reachable(s) && Moves(s, a, t)
    ensures Reachable(t)
  {
    var present, acts :| Exec(Init(present), acts) == Some(s);
    assert (acts + [a])[..|acts|] == acts;
    assert Exec(Init(present), acts + [a]) == Some(t);
  }

  const Absent := Init(false)
  const Call := ClientStep(false)
  const Work := WorkerStep(0, Fine)

  const Raised := Absent.(running := true, client := StartReset)
  const Reported := Raised.(client := StartSpawn, trace := [OnStart])
  const Spawned := Reported.(client := Idle, handle := Some(0), workers := [Worker(AtHead, false)])
  const Missing := Spawned.(workers := [Worker(AtMissing, false)])
  const Broken := Spawned.(workers := [Worker(Ended, true)], trace := [OnStart, OnError(NotFound)])

  lemma MovesToRaised()
    ensures Moves(Absent, CallStart, Absent.(client := StartCheck))
    ensures Moves(Absent.(client := StartCheck), Call, Absent.(client := StartRaise))
    ensures Moves(Absent.(client := StartRaise), Call, Raised)
  {}

  lemma MovesToSpawned()
    ensures Moves(Raised, Call, Raised.(client := StartReport))
    ensures Moves(Raised.(client := StartReport), Call, Reported)
    ensures Moves(Reported, Call, Spawned)
  {}

  lemma MovesToBroken()
    ensures Moves(Spawned, Work, Missing)
    ensures Moves(Missing, Work, Broken)
    ensures Moves(Broken, CallStart, Broken.(client := StartCheck))
    ensures Moves(Broken.(client := StartCheck), Call, Broken)
  {}

  lemma SpawnedReachable()
    ensures Reachable(Spawned)
  {
    assert Exec(Init(false), []) == Some(Absent);
    MovesToRaised();
    Go(Absent, CallStart, Absent.(client := StartCheck));
    Go(Absent.(client := StartCheck), Call, Absent.(client := StartRaise));
    Go(Absent.(client := StartRaise), Call, Raised);
    MovesToSpawned();
    Go(Raised, Call, Raised.(client := StartReport));
    Go(Raised.(client := StartReport), Call, Reported);
    Go(Reported, Call, Spawned);
  }

  /** Without a device the worker breaks off with on_error(NotFound), the flag stays up, and a second
      start comes back at once with no worker running. */
  lemma BrokenWorkerKeepsFlag()
    ensures Reachable(Broken) && Broken.handle.Some? && !LastLive(Broken) && Broken.running
    ensures Reachable(Broken.(client := StartCheck)) && NextClient(Broken.(client := StartCheck), false).Idle?
  {
    SpawnedReachable();
    MovesToBroken();
    Go(Spawned, Work, Missing);
    Go(Missing, Work, Broken);
    Go(Broken, CallStart, Broken.(client := StartCheck));
  }

  // ----- a session that nobody ends -----------------------------------------------------------------

  const Present := Init(true)
  const Ready := Present.(running := true, client := Idle, handle := Some(0), trace := [OnStart])
  const Started := Ready.(restarts := 1, calls := [VerifyStart(true)])
  const Checking := Started.(checking := true, begun := 1)
  const Looped := Checking.(trace := [OnStart, OnLoop])
  const Stopped := Looped.(calls := [VerifyStart(true), VerifyStop])
  const Again := Stopped.(restarts := 2, calls := [VerifyStart(true), VerifyStop, VerifyStart(true)])

  function At(s: State, pc: WorkerPc): State {
    s.(workers := [Worker(pc, false)])
  }

  lemma MovesToReady()
    ensures Moves(Present, CallStart, Present.(client := StartCheck))
    ensures Moves(Present.(client := StartCheck), Call, Present.(client := StartRaise))
    ensures Moves(Present.(client := StartRaise), Call, Present.(running := true, client := StartReset))
    ensures Moves(Present.(running := true, client := StartReset), Call,
                  Present.(running := true, client := StartReport))
  {}

  lemma MovesToScan()
    ensures Moves(Present.(running := true, client := StartReport), Call,
                  Present.(running := true, client := StartSpawn, trace := [OnStart]))
    ensures Moves(Present.(running := true, client := StartSpawn, trace := [OnStart]), Call, At(Ready, AtHead))
    ensures Moves(At(Ready, AtHead), Work, At(Ready, AtStart))
    ensures Moves(At(Ready, AtStart), Work, At(Started, AtOpen))
  {}

  lemma MovesToLoop()
    ensures Moves(At(Started, AtOpen), Work, At(Checking, AtLoop))
    ensures Moves(At(Checking, AtLoop), Work, At(Looped, AtInnerRun))
  {}

  lemma MovesToProcess()
    ensures Moves(At(Looped, AtInnerRun), Work, At(Looped, AtInnerCheck))
    ensures Moves(At(Looped, AtInnerCheck), Work, At(Looped, AtProcess))
  {}

  lemma MovesToStopped()
    ensures Moves(At(Looped, AtProcess), WorkerStep(0, Fail), At(Looped, AtStopCall))
    ensures Moves(At(Looped, AtStopCall), Work, At(Stopped, AtHead))
    ensures Moves(At(Stopped, AtHead), Work, At(Stopped, AtStart))
  {}

  lemma MovesToLapsed()
    ensures Moves(At(Stopped, AtStart), Work, At(Again, AtOpen))
    ensures Moves(At(Again, AtOpen), Work, At(Again, AtLoop).(begun := 2, lapsed := [0]))
  {}

  lemma ProcessReachable()
    ensures Reachable(At(Looped, AtProcess))
  {
    assert Exec(Init(true), []) == Some(Present);
    MovesToReady();
    Go(Present, CallStart, Present.(client := StartCheck));
    Go(Present.(client := StartCheck), Call, Present.(client := StartRaise));
    Go(Present.(client := StartRaise), Call, Present.(running := true, client := StartReset));
    Go(Present.(running := true, client := StartReset), Call, Present.(running := true, client := StartReport));
    MovesToScan();
    Go(Present.(running := true, client := StartReport), Call,
       Present.(running := true, client := StartSpawn, trace := [OnStart]));
    Go(Present.(running := true, client := StartSpawn, trace := [OnStart]), Call, At(Ready, AtHead));
    Go(At(Ready, AtHead), Work, At(Ready, AtStart));
    Go(At(Ready, AtStart), Work, At(Started, AtOpen));
    MovesToLoop();
    MovesToProcess();
    Go(At(Started, AtOpen), Work, At(Checking, AtLoop));
    Go(At(Checking, AtLoop), Work, At(Looped, AtInnerRun));
    Go(At(Looped, AtInnerRun), Work, At(Looped, AtInnerCheck));
    Go(At(Looped, AtInnerCheck), Work, At(Looped, AtProcess));
  }

  /** When message processing fails, the open session is overwritten by the next one and never gets
      its on_end. */
  lemma FailedProcessingLapses()
    ensures exists s :: Reachable(s) && s.begun == 2 && s.lapsed == [0] && s.stops == [] && OnEnd(0) !in s.trace
  {
    ProcessReachable();
    MovesToStopped();
    Go(At(Looped, AtProcess), WorkerStep(0, Fail), At(Looped, AtStopCall));
    Go(At(Looped, AtStopCall), Work, At(Stopped, AtHead));
    Go(At(Stopped, AtHead), Work, At(Stopped, AtStart));
    MovesToLapsed();
    Go(At(Stopped, AtStart), Work, At(Again, AtOpen));
    var s := At(Again, AtLoop).(begun := 2, lapsed := [0]);
    Go(At(Again, AtOpen), Work, s);
    assert s.trace == [OnStart, OnLoop];
  }
}
