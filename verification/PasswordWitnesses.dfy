/** Runs of `auth::Password` that show why the theorems carry the conditions they carry. */
module PasswordWitnesses {
  import opened Common
  import opened Password
  import PI = PasswordInvariants

  predicate Moves(s: State, a: Action, t: State) {
    Enabled(s, a) && Apply(s, a) == t
  }

  lemma {:induction false} Go(s: State, a: Action, t: State)
    requires Reachable(s) && Moves(s, a, t)
    ensures Reachable(t)
  {
    var acts :| Exec(Init, acts) == Some(s);
    assert (acts + [a])[..|acts|] == acts;
    assert Exec(Init, acts + [a]) == Some(t);
  }

  const Work := WorkerStep(0, false)
  const Call := ClientStep(false)

  // ----- verify("a") spawns worker 0, which forks child 1 and waits for it ------------------------

  const Kept0 := History(Kept, true, false, false, false, false, 1, 1)
  const Asking := Init.(client := VerifyCas("a"), log := Init.log.(asked := 1))
  const Joining := Asking.(running := true, client := VerifyJoin("a", Kept), log := Log(1, 1, map[], map[]))
  const Spawned := Joining.(client := Idle, candidate := "a", handle := Some(0), workers := [First(AtBegin, 0)])
  const Forked := Spawned.(workers := [First(AtPublish, 1)], trace := [OnBegin(0)], children := [Child("a", Running)])
  const Waiting := Forked.(workers := [First(AtWait, 1)], pid := 1)

  function First(pc: WorkerPc, child: nat): Worker {
    Worker("a", pc, child, false, Kept0)
  }

  lemma MovesToSpawned()
    ensures Moves(Init, CallVerify("a"), Asking)
    ensures Moves(Asking, Call, Joining)
    ensures Moves(Joining, Call, Joining.(client := VerifyAssign("a", Kept)))
    ensures Moves(Joining.(client := VerifyAssign("a", Kept)), Call,
                  Joining.(client := VerifySpawn("a", Kept), candidate := "a"))
    ensures Moves(Joining.(client := VerifySpawn("a", Kept), candidate := "a"), Call, Spawned)
  {}

  lemma MovesToWaiting()
    ensures Moves(Spawned, Work, Spawned.(workers := [First(AtFork, 0)], trace := [OnBegin(0)]))
    ensures Moves(Spawned.(workers := [First(AtFork, 0)], trace := [OnBegin(0)]), Work, Forked)
    ensures Moves(Forked, Work, Waiting.(workers := [First(AtRecheck, 1)]))
    ensures Moves(Waiting.(workers := [First(AtRecheck, 1)]), Work, Waiting)
  {}

  lemma WaitingReachable()
    ensures Reachable(Waiting)
  {
    assert Exec(Init, []) == Some(Init);
    MovesToSpawned();
    Go(Init, CallVerify("a"), Asking);
    Go(Asking, Call, Joining);
    Go(Joining, Call, Joining.(client := VerifyAssign("a", Kept)));
    Go(Joining.(client := VerifyAssign("a", Kept)), Call,
       Joining.(client := VerifySpawn("a", Kept), candidate := "a"));
    Go(Joining.(client := VerifySpawn("a", Kept), candidate := "a"), Call, Spawned);
    MovesToWaiting();
    Go(Spawned, Work, Spawned.(workers := [First(AtFork, 0)], trace := [OnBegin(0)]));
    Go(Spawned.(workers := [First(AtFork, 0)], trace := [OnBegin(0)]), Work, Forked);
    Go(Forked, Work, Waiting.(workers := [First(AtRecheck, 1)]));
    Go(Waiting.(workers := [First(AtRecheck, 1)]), Work, Waiting);
  }

  // ----- a wait that fails ---------------------------------------------------------------------------

  function Unwaited(pc: WorkerPc): State {
    Waiting.(workers := [Worker("a", pc, 1, true, Kept0)],
             pid := if pc.AtUnpublish? then 1 else 0)
  }

  lemma MovesToUnwaited()
    ensures Moves(Waiting, WorkerStep(0, true), Unwaited(AtUnpublish(true)))
    ensures Moves(Unwaited(AtUnpublish(true)), Work, Unwaited(AtVerdictLoad(true)))
  {}

  lemma MovesToFinish()
    ensures Moves(Unwaited(AtVerdictLoad(true)), Work, Unwaited(AtVerdict(true)))
    ensures Moves(Unwaited(AtVerdict(true)), Work, Unwaited(AtEnd).(trace := [OnBegin(0), OnFinish(0)]))
  {}

  /** If waitpid fails, on_finish is reported although the child has not exited. */
  lemma FailedWaitReportsFinish()
    ensures exists s :: Reachable(s) && OnFinish(0) in s.trace && |s.workers| == 1 && Alive(s, s.workers[0].child)
  {
    WaitingReachable();
    MovesToUnwaited();
    Go(Waiting, WorkerStep(0, true), Unwaited(AtUnpublish(true)));
    Go(Unwaited(AtUnpublish(true)), Work, Unwaited(AtVerdictLoad(true)));
    MovesToFinish();
    Go(Unwaited(AtVerdictLoad(true)), Work, Unwaited(AtVerdict(true)));
    var s := Unwaited(AtEnd).(trace := [OnBegin(0), OnFinish(0)]);
    Go(Unwaited(AtVerdict(true)), Work, s);
    assert Alive(s, s.workers[0].child);
  }

  // ----- a stop kills child 1, and worker 0 runs to the load that decides on on_stop ------------------

  const Raised := Waiting.(running := false, workers := [Second(AtWait)], stops := [StopExchange],
                           log := Log(1, 1, map[0 := 1], map[]))
  const Cancelled := Raised.(pid := 0, stops := [StopDone], children := [Child("a", Killed)], taken := [1],
                             log := Log(1, 1, map[0 := 1], map[1 := ByStop(0)]))
  const Stopped := Cancelled.(workers := [Second(AtStopLoad)], trace := [OnBegin(0), OnEnd(0)])

  const Taken1 := Cancelled.(stops := [StopKill(1)], children := Raised.children)

  function Second(pc: WorkerPc): Worker {
    Worker("a", pc, 1, false, History(Kept, false, false, PI.Reported(pc), false, false, 1, 1))
  }

  lemma MovesToRaised()
    ensures Moves(Waiting, CallStop, Waiting.(stops := [StopCas]))
    ensures Moves(Waiting.(stops := [StopCas]), StopStep(0), Raised)
  {}

  lemma MovesToCancelled()
    ensures Moves(Raised, StopStep(0), Taken1)
    ensures Moves(Taken1, StopStep(0), Cancelled)
  {}

  lemma MovesToUnpublished()
    ensures Moves(Cancelled, Work, Cancelled.(workers := [Second(AtUnpublish(false))]))
  {}

  lemma MovesToVerdictLoad()
    ensures Moves(Cancelled.(workers := [Second(AtUnpublish(false))]), Work,
                  Cancelled.(workers := [Second(AtVerdictLoad(false))]))
  {}

  lemma MovesToStopped()
    ensures Moves(Cancelled.(workers := [Second(AtVerdictLoad(false))]), Work, Cancelled.(workers := [Second(AtEnd)]))
    ensures Moves(Cancelled.(workers := [Second(AtEnd)]), Work, Stopped)
  {}

  lemma StoppedReachable()
    ensures Reachable(Stopped)
  {
    WaitingReachable();
    MovesToRaised();
    MovesToCancelled();
    Go(Waiting, CallStop, Waiting.(stops := [StopCas]));
    Go(Waiting.(stops := [StopCas]), StopStep(0), Raised);
    Go(Raised, StopStep(0), Taken1);
    Go(Taken1, StopStep(0), Cancelled);
    MovesToUnpublished();
    MovesToVerdictLoad();
    MovesToStopped();
    Go(Cancelled, Work, Cancelled.(workers := [Second(AtUnpublish(false))]));
    Go(Cancelled.(workers := [Second(AtUnpublish(false))]), Work,
       Cancelled.(workers := [Second(AtVerdictLoad(false))]));
    Go(Cancelled.(workers := [Second(AtVerdictLoad(false))]), Work, Cancelled.(workers := [Second(AtEnd)]));
    Go(Cancelled.(workers := [Second(AtEnd)]), Work, Stopped);
  }

  // ----- verify("b") overtakes worker 0 there -----------------------------------------------------------

  const AskingB := Stopped.(client := VerifyCas("b"), log := Stopped.log.(asked := 2))

  /** Worker 0 then finds the flag up, ends without a report, and its last store takes the flag
      away from the new verify. */
  function Overtaken(pc: WorkerPc): State {
    AskingB.(running := !pc.Ended?, log := AskingB.log.(verifies := 2), client := VerifyJoin("b", Overtook),
             candidate := if pc.AtRelease? || pc.Ended? then "" else "a",
             workers := [Worker("a", pc, 1, false, History(Kept, true, true, true, true, false, 1, 1))])
  }

  lemma MovesToOvertaken()
    ensures Moves(Stopped, CallVerify("b"), AskingB)
    ensures Moves(AskingB, Call, Overtaken(AtStopLoad))
  {}

  lemma MovesToWipe()
    ensures Moves(Overtaken(AtStopLoad), Work, Overtaken(AtWipe))
  {}

  lemma MovesToOvertakenEnd1()
    ensures Moves(Overtaken(AtWipe), Work, Overtaken(AtRelease))
  {}

  lemma MovesToOvertakenEnd2()
    ensures Moves(Overtaken(AtRelease), Work, Overtaken(Ended))
  {}

  lemma OvertakenReachable()
    ensures Reachable(Overtaken(Ended))
  {
    StoppedReachable();
    MovesToOvertaken();
    Go(Stopped, CallVerify("b"), AskingB);
    Go(AskingB, Call, Overtaken(AtStopLoad));
    MovesToWipe();
    Go(Overtaken(AtStopLoad), Work, Overtaken(AtWipe));
    MovesToOvertakenEnd1();
    MovesToOvertakenEnd2();
    Go(Overtaken(AtWipe), Work, Overtaken(AtRelease));
    Go(Overtaken(AtRelease), Work, Overtaken(Ended));
  }

  /** A worker that a verify overtakes may end with no verdict, no error and no stop. */
  lemma OverlappedWorkerCanBeSilent()
    ensures exists s :: Reachable(s) && |s.workers| == 1 && !Live(s, 0)
                        && !PI.Judged(s, 0) && OnStop(0) !in s.trace
  {
    OvertakenReachable();
    assert !PI.Judged(Overtaken(Ended), 0);
  }

  /** The overtaking verify's own worker, with the flag already down. */
  function Heir(pc: WorkerPc, child: nat, pid: nat, status: ChildStatus): State {
    var s := Overtaken(Ended);
    s.(candidate := "b", client := Idle, handle := Some(1), pid := pid,
       workers := [s.workers[0],
                   Worker("b", pc, child, false, History(Overtook, false, false, false, false, false, 2, 2))],
       trace := if pc.AtBegin? then s.trace else [OnBegin(0), OnEnd(0), OnBegin(1)],
       children := if child == 0 then s.children else [Child("a", Killed), Child("b", status)],
       taken := if child > 0 && pid == 0 && !pc.AtPublish? then [1, 2] else [1],
       log := if child > 0 && pid == 0 && !pc.AtPublish? then s.log.(takers := map[1 := ByStop(0), 2 := ByWorker])
              else s.log)
  }

  const Work1 := WorkerStep(1, false)

  lemma MovesToHeir()
    ensures var s := Overtaken(Ended);
            && Moves(s, Call, s.(handle := None, client := VerifyAssign("b", Overtook)))
            && Moves(s.(handle := None, client := VerifyAssign("b", Overtook)), Call,
                     s.(handle := None, client := VerifySpawn("b", Overtook), candidate := "b"))
            && Moves(s.(handle := None, client := VerifySpawn("b", Overtook), candidate := "b"), Call,
                     Heir(AtBegin, 0, 0, Running))
  {}

  lemma MovesToTaken()
    ensures Moves(Heir(AtBegin, 0, 0, Running), Work1, Heir(AtFork, 0, 0, Running))
    ensures Moves(Heir(AtFork, 0, 0, Running), Work1, Heir(AtPublish, 2, 0, Running))
    ensures Moves(Heir(AtPublish, 2, 0, Running), Work1, Heir(AtRecheck, 2, 2, Running))
  {}

  lemma MovesToSelfKill1()
    ensures Moves(Heir(AtRecheck, 2, 2, Running), Work1, Heir(AtTake, 2, 2, Running))
  {}

  lemma MovesToSelfKill2()
    ensures Moves(Heir(AtTake, 2, 2, Running), Work1, Heir(AtSelfKill(2), 2, 0, Running))
  {}

  lemma MovesToKilled()
    ensures Moves(Heir(AtSelfKill(2), 2, 0, Running), Work1, Heir(AtWait, 2, 0, Killed))
  {}

  /** The verify that overtook it is accepted and no stop is called after it, and yet its worker
      finds the flag down and kills its own child: no verdict on "b" can follow. */
  lemma AcceptedVerifyCanCancelItself()
    ensures exists s :: Reachable(s) && |s.workers| == 2 && s.workers[1].pass == "b"
                        && s.stops == [StopDone] && !s.running
                        && s.children == [Child("a", Killed), Child("b", Killed)]
  {
    OvertakenReachable();
    MovesToHeir();
    var s := Overtaken(Ended);
    Go(s, Call, s.(handle := None, client := VerifyAssign("b", Overtook)));
    Go(s.(handle := None, client := VerifyAssign("b", Overtook)), Call,
       s.(handle := None, client := VerifySpawn("b", Overtook), candidate := "b"));
    Go(s.(handle := None, client := VerifySpawn("b", Overtook), candidate := "b"), Call, Heir(AtBegin, 0, 0, Running));
    MovesToTaken();
    Go(Heir(AtBegin, 0, 0, Running), Work1, Heir(AtFork, 0, 0, Running));
    Go(Heir(AtFork, 0, 0, Running), Work1, Heir(AtPublish, 2, 0, Running));
    Go(Heir(AtPublish, 2, 0, Running), Work1, Heir(AtRecheck, 2, 2, Running));
    MovesToSelfKill1();
    MovesToSelfKill2();
    Go(Heir(AtRecheck, 2, 2, Running), Work1, Heir(AtTake, 2, 2, Running));
    Go(Heir(AtTake, 2, 2, Running), Work1, Heir(AtSelfKill(2), 2, 0, Running));
    MovesToKilled();
    Go(Heir(AtSelfKill(2), 2, 0, Running), Work1, Heir(AtWait, 2, 0, Killed));
    assert Heir(AtWait, 2, 0, Killed).children == [Child("a", Killed), Child("b", Killed)];
  }

  // ----- a stop that is late for its exchange ---------------------------------------------------------

  /** Worker 0 after the stop's CAS but before its exchange; its child has exited by itself. */
  function Late(pc: WorkerPc): State {
    Raised.(children := [Child("a", Exited(false))], pid := if pc.AtWait? || pc.AtUnpublish? then 1 else 0,
            running := false, candidate := if pc.AtRelease? || pc.Ended? then "" else "a",
            trace := if PI.Closed(pc) then [OnBegin(0), OnEnd(0), OnStop(0)]
                     else if pc.AtStopLoad? || pc.AtStop? then [OnBegin(0), OnEnd(0)] else [OnBegin(0)],
            workers := [Worker("a", pc, 1, false, History(Kept, false, false, PI.Reported(pc), false,
                                                          pc.AtStop? || PI.Closed(pc), 1, 1))])
  }

  lemma MovesToLateWait()
    ensures Moves(Raised, ChildExit(1, false), Late(AtWait))
    ensures Moves(Late(AtWait), Work, Late(AtUnpublish(false)))
  {}

  lemma MovesToLateLoad1()
    ensures Moves(Late(AtUnpublish(false)), Work, Late(AtVerdictLoad(false)))
  {}

  lemma MovesToLateLoad2()
    ensures Moves(Late(AtVerdictLoad(false)), Work, Late(AtEnd))
  {}

  lemma MovesToLateStop1()
    ensures Moves(Late(AtEnd), Work, Late(AtStopLoad))
  {}

  lemma MovesToLateStop2()
    ensures Moves(Late(AtStopLoad), Work, Late(AtStop))
  {}

  lemma MovesToLateWipe1()
    ensures Moves(Late(AtStop), Work, Late(AtWipe))
  {}

  lemma MovesToLateWipe2()
    ensures Moves(Late(AtWipe), Work, Late(AtRelease))
  {}

  lemma MovesToLateEnd()
    ensures Moves(Late(AtRelease), Work, Late(Ended))
    ensures Moves(Late(Ended), CallVerify("b"), LateAsking)
  {}

  const LateAsking := Late(Ended).(client := VerifyCas("b"), log := Late(Ended).log.(asked := 2))

  lemma LateReachable()
    ensures Reachable(LateAsking)
  {
    WaitingReachable();
    MovesToRaised();
    Go(Waiting, CallStop, Waiting.(stops := [StopCas]));
    Go(Waiting.(stops := [StopCas]), StopStep(0), Raised);
    MovesToLateWait();
    Go(Raised, ChildExit(1, false), Late(AtWait));
    Go(Late(AtWait), Work, Late(AtUnpublish(false)));
    MovesToLateLoad1();
    MovesToLateLoad2();
    Go(Late(AtUnpublish(false)), Work, Late(AtVerdictLoad(false)));
    Go(Late(AtVerdictLoad(false)), Work, Late(AtEnd));
    MovesToLateStop1();
    MovesToLateStop2();
    Go(Late(AtEnd), Work, Late(AtStopLoad));
    Go(Late(AtStopLoad), Work, Late(AtStop));
    MovesToLateWipe1();
    MovesToLateWipe2();
    Go(Late(AtStop), Work, Late(AtWipe));
    Go(Late(AtWipe), Work, Late(AtRelease));
    MovesToLateEnd();
    Go(Late(AtRelease), Work, Late(Ended));
    Go(Late(Ended), CallVerify("b"), LateAsking);
  }

  /** The next verify, of "b", past its CAS. */
  function LateVerify(c: ClientPc): State {
    LateAsking.(running := true, client := c, handle := if c.VerifyJoin? then Some(0) else None,
                candidate := if c.VerifySpawn? then "b" else "", log := LateAsking.log.(verifies := 2))
  }

  /** Its worker; the stop is still at `stop`. */
  function Victim(pc: WorkerPc, child: nat, pid: nat, stop: StopPc, status: ChildStatus, said: seq<Event>): State {
    var s := LateVerify(VerifySpawn("b", Kept));
    s.(client := Idle, handle := Some(1), pid := pid, stops := [stop], trace := Late(Ended).trace + said,
       workers := [s.workers[0], Worker("b", pc, child, false, History(Kept, true, false, false, false, false, 2, 2))],
       children := if child == 0 then s.children else [Child("a", Exited(false)), Child("b", status)],
       taken := if stop.StopExchange? then [] else [2],
       log := if stop.StopExchange? then s.log else s.log.(takers := map[2 := ByStop(0)]))
  }

  lemma MovesToLateSpawn()
    ensures Moves(LateAsking, Call, LateVerify(VerifyJoin("b", Kept)))
    ensures Moves(LateVerify(VerifyJoin("b", Kept)), Call, LateVerify(VerifyAssign("b", Kept)))
    ensures Moves(LateVerify(VerifyAssign("b", Kept)), Call, LateVerify(VerifySpawn("b", Kept)))
  {}

  lemma MovesToVictim()
    ensures Moves(LateVerify(VerifySpawn("b", Kept)), Call, Victim(AtBegin, 0, 0, StopExchange, Running, []))
    ensures Moves(Victim(AtBegin, 0, 0, StopExchange, Running, []), Work1,
                  Victim(AtFork, 0, 0, StopExchange, Running, [OnBegin(1)]))
  {}

  lemma MovesToVictimFork()
    ensures Moves(Victim(AtFork, 0, 0, StopExchange, Running, [OnBegin(1)]), Work1,
                  Victim(AtPublish, 2, 0, StopExchange, Running, [OnBegin(1)]))
    ensures Moves(Victim(AtPublish, 2, 0, StopExchange, Running, [OnBegin(1)]), Work1,
                  Victim(AtRecheck, 2, 2, StopExchange, Running, [OnBegin(1)]))
  {}

  lemma MovesToVictimWait()
    ensures Moves(Victim(AtRecheck, 2, 2, StopExchange, Running, [OnBegin(1)]), Work1,
                  Victim(AtWait, 2, 2, StopExchange, Running, [OnBegin(1)]))
    ensures Moves(Victim(AtWait, 2, 2, StopExchange, Running, [OnBegin(1)]), StopStep(0),
                  Victim(AtWait, 2, 0, StopKill(2), Running, [OnBegin(1)]))
  {}

  lemma MovesToVictimKilled()
    ensures Moves(Victim(AtWait, 2, 0, StopKill(2), Running, [OnBegin(1)]), StopStep(0),
                  Victim(AtWait, 2, 0, StopDone, Killed, [OnBegin(1)]))
    ensures Moves(Victim(AtWait, 2, 0, StopDone, Killed, [OnBegin(1)]), Work1,
                  Victim(AtUnpublish(false), 2, 0, StopDone, Killed, [OnBegin(1)]))
  {}

  lemma MovesToVictimLoad1()
    ensures Moves(Victim(AtUnpublish(false), 2, 0, StopDone, Killed, [OnBegin(1)]), Work1,
                  Victim(AtVerdictLoad(false), 2, 0, StopDone, Killed, [OnBegin(1)]))
  {}

  lemma MovesToVictimLoad2()
    ensures Moves(Victim(AtVerdictLoad(false), 2, 0, StopDone, Killed, [OnBegin(1)]), Work1,
                  Victim(AtVerdict(false), 2, 0, StopDone, Killed, [OnBegin(1)]))
  {}

  lemma MovesToVictimVerdict()
    ensures Moves(Victim(AtVerdict(false), 2, 0, StopDone, Killed, [OnBegin(1)]), Work1,
                  Victim(AtEnd, 2, 0, StopDone, Killed, [OnBegin(1), OnError(1, AuthFailed)]))
  {}

  lemma VictimReachable()
    ensures Reachable(Victim(AtWait, 2, 2, StopExchange, Running, [OnBegin(1)]))
  {
    LateReachable();
    MovesToLateSpawn();
    Go(LateAsking, Call, LateVerify(VerifyJoin("b", Kept)));
    Go(LateVerify(VerifyJoin("b", Kept)), Call, LateVerify(VerifyAssign("b", Kept)));
    Go(LateVerify(VerifyAssign("b", Kept)), Call, LateVerify(VerifySpawn("b", Kept)));
    MovesToVictim();
    Go(LateVerify(VerifySpawn("b", Kept)), Call, Victim(AtBegin, 0, 0, StopExchange, Running, []));
    Go(Victim(AtBegin, 0, 0, StopExchange, Running, []), Work1,
       Victim(AtFork, 0, 0, StopExchange, Running, [OnBegin(1)]));
    MovesToVictimFork();
    Go(Victim(AtFork, 0, 0, StopExchange, Running, [OnBegin(1)]), Work1,
       Victim(AtPublish, 2, 0, StopExchange, Running, [OnBegin(1)]));
    Go(Victim(AtPublish, 2, 0, StopExchange, Running, [OnBegin(1)]), Work1,
       Victim(AtRecheck, 2, 2, StopExchange, Running, [OnBegin(1)]));
    MovesToVictimWait();
    Go(Victim(AtRecheck, 2, 2, StopExchange, Running, [OnBegin(1)]), Work1,
       Victim(AtWait, 2, 2, StopExchange, Running, [OnBegin(1)]));
  }

  /** A stop that won its CAS against the first verify reaches its exchange only when the second has
      published its child: that password is refused although nothing was stopped since. */
  lemma LateStopRefusesPassword()
    ensures exists s :: Reachable(s) && |s.workers| == 2 && s.workers[1].pass == "b"
                        && s.workers[1].past.held && !s.workers[1].past.overlapped
                        && |s.children| == 2 && s.children[1..] == [Child("b", Killed)]
                        && OnError(1, AuthFailed) in s.trace
  {
    VictimReachable();
    MovesToVictimWait();
    Go(Victim(AtWait, 2, 2, StopExchange, Running, [OnBegin(1)]), StopStep(0),
       Victim(AtWait, 2, 0, StopKill(2), Running, [OnBegin(1)]));
    MovesToVictimKilled();
    Go(Victim(AtWait, 2, 0, StopKill(2), Running, [OnBegin(1)]), StopStep(0),
       Victim(AtWait, 2, 0, StopDone, Killed, [OnBegin(1)]));
    Go(Victim(AtWait, 2, 0, StopDone, Killed, [OnBegin(1)]), Work1,
       Victim(AtUnpublish(false), 2, 0, StopDone, Killed, [OnBegin(1)]));
    MovesToVictimLoad1();
    MovesToVictimLoad2();
    Go(Victim(AtUnpublish(false), 2, 0, StopDone, Killed, [OnBegin(1)]), Work1,
       Victim(AtVerdictLoad(false), 2, 0, StopDone, Killed, [OnBegin(1)]));
    Go(Victim(AtVerdictLoad(false), 2, 0, StopDone, Killed, [OnBegin(1)]), Work1,
       Victim(AtVerdict(false), 2, 0, StopDone, Killed, [OnBegin(1)]));
    MovesToVictimVerdict();
    var s := Victim(AtEnd, 2, 0, StopDone, Killed, [OnBegin(1), OnError(1, AuthFailed)]);
    Go(Victim(AtVerdict(false), 2, 0, StopDone, Killed, [OnBegin(1)]), Work1, s);
    assert s.trace[4] == OnError(1, AuthFailed);
    assert s.children[1..] == [Child("b", Killed)];
  }
}
