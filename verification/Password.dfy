/**
  The lock-free protocol of `auth::Password`.

  Three kinds of thread meet on `is_running_` and `active_pam_pid_`: the client (which calls
  `verify` and finally the destructor), any number of callers of `stop`, and the worker threads
  that `verify` spawns.  A state records one program counter for each of them; an action is one
  atomic access or one callback.  Every worker ever spawned keeps its own record, so that
  "at most one worker is live" is something to prove, not something built in.
 */
module Password {
  import opened Common

  datatype Error = AuthFailed | System

  /** One invocation of a user handler; `k` is the number of the worker it belongs to. */
  datatype Event =
    | OnBegin(k: nat)
    | OnFinish(k: nat)
    | OnError(k: nat, error: Error)
    | OnEnd(k: nat)
    | OnStop(k: nat)
    | OnDelete

  datatype ChildStatus = Running | Exited(ok: bool) | Killed

  /** A forked PAM child: its private copy of the candidate, and how it stands. */
  datatype Child = Child(input: string, status: ChildStatus)

  /** Where a call of `stop` stands; `StopKill` holds the pid it took. */
  datatype StopPc = StopCas | StopExchange | StopKill(victim: nat) | StopDone

  /** History of a verify past its CAS: it still has the flag it raised, or a stop has won its CAS
      since, or it overtook a live worker, whose last store takes the flag away. */
  datatype Claim = Kept | Cancelled | Overtook

  /** Where the client thread stands. */
  datatype ClientPc =
    | Idle
    | VerifyCas(pass: string)
    | VerifyJoin(pass: string, claim: Claim)
    | VerifyAssign(pass: string, claim: Claim)
    | VerifySpawn(pass: string, claim: Claim)
    | VerifyCatch
    | VerifyCatchWipe
    | DestroyStop(call: nat)
    | DestroyJoin
    | DestroyWipe
    | DestroyReport
    | Gone

  /** The atomic points of `run_worker` and `cleanup`, in program order. */
  datatype WorkerPc =
    | AtBegin
    | AtFork
    | AtForkError
    | AtPublish
    | AtRecheck
    | AtTake
    | AtSelfKill(victim: nat)
    | AtWait
    | AtUnpublish(ok: bool)
    | AtVerdictLoad(ok: bool)
    | AtVerdict(ok: bool)
    | AtEnd
    | AtStopLoad
    | AtStop
    | AtWipe
    | AtRelease
    | Ended

  /**
    What has happened to a worker's claim on the flag, told by the verifies and stops that won their
    CAS.  `claim` is that of its verify when it was spawned.  `held`: that claim was kept and no
    stop has won since, or a verify has won and no stop after it.  `overlapped`: a later verify
    has won while this worker was live.  `lost`: not held when it loaded the flag for its
    verdict.  `retaken`: between that load and the load that decides on on_stop a verify has
    won, and no stop after it.  `dropped`: not held at that second load.  `call` is the call of
    verify that spawned it, and `number` how many verifies had won their CAS then.
   */
  datatype History = History(
    claim: Claim, held: bool, overlapped: bool, lost: bool, retaken: bool, dropped: bool, call: nat, number: nat)

  /** A worker thread.  `pass` is the argument of the verify that spawned it, `child` its pid
      (0 before a successful fork), `waitFailed` says that waitpid returned without a status. */
  datatype Worker = Worker(pass: string, pc: WorkerPc, child: nat, waitFailed: bool, past: History)

  /** Who removed a pid from `active_pam_pid_`: the worker itself, or a call of stop. */
  datatype Taker = ByWorker | ByStop(call: nat)

  /** History: calls of verify made, verifies that have won their CAS, for each stop that won its own
      how many verifies had done so before it, and who took which pid. */
  datatype Log = Log(asked: nat, verifies: nat, wonAt: map<nat, nat>, takers: map<nat, Taker>)

  /** `handle` is `worker_thread_`; pid p denotes `children[p - 1]`, so pids are fresh;
      `taken` lists the pids that an exchange has removed from `active_pam_pid_`. */
  datatype State = State(
    running: bool, pid: nat, candidate: string,
    client: ClientPc, handle: Option<nat>, workers: seq<Worker>, stops: seq<StopPc>,
    children: seq<Child>, trace: seq<Event>, taken: seq<nat>, log: Log)

  datatype Action =
    | CallVerify(pass: string)
    | CallDestroy
    | ClientStep(throws: bool)
    | CallStop
    | StopStep(call: nat)
    | WorkerStep(k: nat, fails: bool)
    | ChildExit(p: nat, ok: bool)

  const Init := State(false, 0, "", Idle, None, [], [], [], [], [], Log(0, 0, map[], map[]))

  // ----- children ---------------------------------------------------------------------------

  predicate Alive(s: State, p: nat) {
    1 <= p <= |s.children| && s.children[p - 1].status.Running?
  }

  predicate Succeeded(s: State, p: nat) {
    1 <= p <= |s.children| && s.children[p - 1].status == Exited(true)
  }

  function SetStatus(s: State, p: nat, status: ChildStatus): State
    requires 1 <= p <= |s.children|
  {
    s.(children := s.children[p - 1 := s.children[p - 1].(status := status)])
  }

  /** kill(p, SIGKILL): without effect on pid 0 and on a child that is already dead. */
  function Kill(s: State, p: nat): State {
    if Alive(s, p) then SetStatus(s, p, Killed) else s
  }

  /** active_pam_pid_.exchange(0) */
  function Take(s: State, taker: Taker): State {
    s.(pid := 0, taken := if s.pid > 0 then s.taken + [s.pid] else s.taken,
       log := if s.pid > 0 then s.log.(takers := s.log.takers[s.pid := taker]) else s.log)
  }

  function Emit(s: State, e: Event): State {
    s.(trace := s.trace + [e])
  }

  // ----- workers ----------------------------------------------------------------------------

  predicate Live(s: State, k: nat) {
    k < |s.workers| && !s.workers[k].pc.Ended?
  }

  predicate LastLive(s: State) {
    |s.workers| > 0 && Live(s, |s.workers| - 1)
  }

  predicate WorkerEnabled(s: State, k: nat, fails: bool) {
    && Live(s, k)
    && (s.workers[k].pc.AtWait? && !fails ==> !Alive(s, s.workers[k].child))
  }

  /** The control flow of `run_worker` and `cleanup`.  `fails` is read at two points only: fork()
      fails, or waitpid() returns -1, which leaves `status` at its initial 0. */
  function NextPc(s: State, w: Worker, fails: bool): WorkerPc {
    match w.pc
    case AtBegin => AtFork
    case AtFork => if fails then AtForkError else AtPublish
    case AtForkError => AtEnd
    case AtPublish => AtRecheck
    case AtRecheck => if s.running then AtWait else AtTake
    case AtTake => AtSelfKill(s.pid)
    case AtSelfKill(_) => AtWait
    case AtWait => AtUnpublish(fails || Succeeded(s, w.child))
    case AtUnpublish(ok) => AtVerdictLoad(ok)
    case AtVerdictLoad(ok) => if s.running then AtVerdict(ok) else AtEnd
    case AtVerdict(_) => AtEnd
    case AtEnd => AtStopLoad
    case AtStopLoad => if s.running then AtWipe else AtStop
    case AtStop => AtWipe
    case AtWipe => AtRelease
    case AtRelease => Ended
    case Ended => Ended
  }

  /** The callback made at a point of the worker, if any. */
  function Callback(pc: WorkerPc, k: nat): seq<Event> {
    match pc
    case AtBegin => [OnBegin(k)]
    case AtForkError => [OnError(k, System)]
    case AtVerdict(ok) => [if ok then OnFinish(k) else OnError(k, AuthFailed)]
    case AtEnd => [OnEnd(k)]
    case AtStop => [OnStop(k)]
    case _ => []
  }

  /** What a point of the worker does to the shared fields and to the children. */
  function Effect(s: State, w: Worker, fails: bool): State {
    match w.pc
    case AtFork => if fails then s else s.(children := s.children + [Child(s.candidate, Running)])
    case AtPublish => s.(pid := w.child)
    case AtTake => Take(s, ByWorker)
    case AtSelfKill(victim) => Kill(s, victim)
    case AtUnpublish(_) => s.(pid := 0)
    case AtWipe => s.(candidate := "")
    case AtRelease => s.(running := false)
    case _ => s
  }

  /** One atomic step of worker `k`. */
  function StepWorker(s: State, k: nat, fails: bool): State
    requires WorkerEnabled(s, k, fails)
  {
    var w := s.workers[k];
    var w' := w.(pc := NextPc(s, w, fails),
                 child := if w.pc.AtFork? && !fails then |s.children| + 1 else w.child,
                 waitFailed := if w.pc.AtWait? then fails else w.waitFailed,
                 past := if w.pc.AtVerdictLoad? then w.past.(lost := !w.past.held)
                         else if w.pc.AtStopLoad? then w.past.(dropped := !w.past.held)
                         else w.past);
    Effect(s, w, fails).(workers := s.workers[k := w'], trace := s.trace + Callback(w.pc, k))
  }

  // ----- stop -------------------------------------------------------------------------------

  predicate StopEnabled(s: State, i: nat) {
    i < |s.stops| && !s.stops[i].StopDone?
  }

  function SetStop(s: State, i: nat, pc: StopPc): State
    requires i < |s.stops|
  {
    s.(stops := s.stops[i := pc])
  }

  /** Between the load for the verdict and the load that decides on on_stop. */
  predicate Between(pc: WorkerPc) {
    pc.AtVerdict? || pc.AtEnd? || pc.AtStopLoad?
  }

  function Cancel(claim: Claim): Claim {
    if claim.Kept? then Cancelled else claim
  }

  /** History only: a stop has won its CAS, against the verify in flight and the live worker. */
  function Dirty(s: State): State {
    var s1 :=
      match s.client
      case VerifyJoin(p, c) => s.(client := VerifyJoin(p, Cancel(c)))
      case VerifyAssign(p, c) => s.(client := VerifyAssign(p, Cancel(c)))
      case VerifySpawn(p, c) => s.(client := VerifySpawn(p, Cancel(c)))
      case _ => s;
    if LastLive(s) then
      var k := |s.workers| - 1;
      var w := s.workers[k];
      s1.(workers := s.workers[k := w.(past := w.past.(held := false,
                                                       retaken := w.past.retaken && !Between(w.pc)))])
    else s1
  }

  function StepStop(s: State, i: nat): State
    requires StopEnabled(s, i)
  {
    match s.stops[i]
    case StopCas =>
      if s.running then
        SetStop(Dirty(s), i, StopExchange).(running := false, log := s.log.(wonAt := s.log.wonAt[i := s.log.verifies]))
      else SetStop(s, i, StopDone)
    case StopExchange => Take(SetStop(s, i, StopKill(s.pid)), ByStop(i))
    case StopKill(victim) => Kill(SetStop(s, i, StopDone), victim)
  }

  // ----- verify and the destructor ------------------------------------------------------------

  predicate Joinable(s: State) {
    s.handle.Some? && Live(s, s.handle.value)
  }

  predicate ClientEnabled(s: State) {
    match s.client
    case Idle => false
    case Gone => false
    case VerifyJoin(_, _) => !Joinable(s)
    case DestroyJoin => !Joinable(s)
    case DestroyStop(i) => i < |s.stops| && s.stops[i].StopDone?
    case _ => true
  }

  /** History only: a verify has won its CAS while this worker was live. */
  function Overlap(s: State): State {
    if LastLive(s) then
      var k := |s.workers| - 1;
      var w := s.workers[k];
      s.(workers := s.workers[k := w.(past := w.past.(held := true, overlapped := true,
                                                      retaken := w.past.retaken || Between(w.pc)))])
    else s
  }

  function NewWorker(pass: string, claim: Claim, log: Log): Worker {
    Worker(pass, AtBegin, 0, false,
           History(claim, claim.Kept?, false, false, false, false, log.asked, log.verifies))
  }

  /** One atomic step of `verify` or of the destructor.  `throws` is read where the string
      assignment or the thread constructor may throw. */
  function StepClient(s: State, throws: bool): State
    requires ClientEnabled(s)
  {
    match s.client
    case VerifyCas(pass) =>
      if s.running then s.(client := Idle)
      else
        Overlap(s).(running := true, client := VerifyJoin(pass, if LastLive(s) then Overtook else Kept),
                    log := s.log.(verifies := s.log.verifies + 1))
    case VerifyJoin(pass, claim) => s.(handle := None, client := VerifyAssign(pass, claim))
    case VerifyAssign(pass, claim) =>
      if throws then s.(client := VerifyCatch)
      else s.(candidate := pass, client := VerifySpawn(pass, claim))
    case VerifySpawn(pass, claim) =>
      if throws then s.(client := VerifyCatch)
      else
        s.(workers := s.workers + [NewWorker(pass, claim, s.log)],
           handle := Some(|s.workers|), client := Idle)
    case VerifyCatch => s.(running := false, client := VerifyCatchWipe)
    case VerifyCatchWipe => s.(candidate := "", client := Idle)
    case DestroyStop(_) => s.(client := DestroyJoin)
    case DestroyJoin => s.(handle := None, client := DestroyWipe)
    case DestroyWipe => s.(candidate := "", client := DestroyReport)
    case DestroyReport => Emit(s, OnDelete).(client := Gone)
  }

  // ----- runs ---------------------------------------------------------------------------------

  predicate Enabled(s: State, a: Action) {
    match a
    case CallVerify(_) => s.client.Idle?
    case CallDestroy => s.client.Idle?
    case ClientStep(_) => ClientEnabled(s)
    case CallStop => true
    case StopStep(i) => StopEnabled(s, i)
    case WorkerStep(k, fails) => WorkerEnabled(s, k, fails)
    case ChildExit(p, _) => Alive(s, p)
  }

  function Apply(s: State, a: Action): State
    requires Enabled(s, a)
  {
    match a
    case CallVerify(pass) => s.(client := VerifyCas(pass), log := s.log.(asked := s.log.asked + 1))
    case CallDestroy => s.(client := DestroyStop(|s.stops|), stops := s.stops + [StopCas])
    case ClientStep(throws) => StepClient(s, throws)
    case CallStop => s.(stops := s.stops + [StopCas])
    case StopStep(i) => StepStop(s, i)
    case WorkerStep(k, fails) => StepWorker(s, k, fails)
    case ChildExit(p, ok) => SetStatus(s, p, Exited(ok))
  }

  /** The state after a schedule, or None if some action was not enabled when its turn came. */
  function Exec(s: State, acts: seq<Action>): Option<State> {
    if acts == [] then Some(s)
    else
      var before := Exec(s, acts[..|acts| - 1]);
      var a := acts[|acts| - 1];
      if before.Some? && Enabled(before.value, a) then Some(Apply(before.value, a)) else None
  }

  /** `s` is the state of some interleaving, of any length, from the freshly built object. */
  ghost predicate Reachable(s: State) {
    exists acts :: Exec(Init, acts) == Some(s)
  }
}
