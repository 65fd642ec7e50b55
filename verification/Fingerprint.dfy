/**
  The protocol of `auth::Fingerprint`: a client that starts and destroys, any number of callers of
  `stop`, and worker threads that scan in a loop.  They meet on `is_running_` and
  `check_in_progress_`; the sensor answers through signals delivered inside the worker's own
  message processing.  As in `Password`, an action is one atomic access, device call or callback.
 */
module Fingerprint {
  import opened Common

  datatype Error = NotMatch | NotFound | System

  /** A check session is numbered by the store that opened it. */
  datatype Event =
    | OnStart
    | OnLoop
    | OnFinish
    | OnError(error: Error)
    | OnEnd(session: nat)
    | OnStop
    | OnDelete

  /** Calls on the device object, in order. */
  datatype Call = VerifyStart(ok: bool) | VerifyStop | Release

  /** The text of a VerifyStatus signal. */
  datatype Outcome = Match | NoMatch | OtherResult

  /** What the environment answers to a worker: a method call may fail; message processing may
      fail, find nothing of interest, or deliver a signal. */
  datatype Answer = Fine | Fail | Signal(outcome: Outcome, done: bool)

  datatype StopPc = CasRun | CasCheck | FireEnd(session: nat) | FireStop | StopDone

  datatype ClientPc =
    | Idle
    | StartCheck
    | StartJoin
    | StartRaise
    | StartReset
    | StartReport
    | StartSpawn
    | StartCatch
    | DestroyStop(call: nat)
    | DestroyJoin
    | DestroyRelease
    | DestroyReport
    | Gone

  /** The points of `run_worker`, with `fprint_signal_cb` inlined where it is dispatched. */
  datatype WorkerPc =
    | AtHead
    | AtMissing
    | AtStart
    | AtStartError
    | AtOpen
    | AtLoop
    | AtInnerRun
    | AtInnerCheck
    | AtProcess
    | AtSignal(outcome: Outcome, done: bool)
    | AtSignalCas
    | AtSignalEnd(session: nat)
    | AtStopCall
    | Ended

  /** `broke` records that the worker left its loop by an error break. */
  datatype Worker = Worker(pc: WorkerPc, broke: bool)

  /** More history: the sessions in which a done signal was delivered, the other signals delivered,
      the sessions that a stop has taken, and how often one did. */
  datatype Log = Log(dones: set<nat>, noMatches: nat, others: nat, stopped: set<nat>, stopTakes: nat)

  /** `present`: the bus is connected and a device was found.  History: `begun` sessions opened,
      `ends` the sessions whose on_end has been called, `lapsed` those overwritten or
      reset while open, `stopWon` that a stop has won its CAS since the last start, `restarts`
      the VerifyStart calls made since then, `matches` the verify-match signals delivered. */
  datatype State = State(
    running: bool, checking: bool, present: bool,
    client: ClientPc, handle: Option<nat>, workers: seq<Worker>, stops: seq<StopPc>,
    trace: seq<Event>, calls: seq<Call>,
    begun: nat, ends: seq<nat>, lapsed: seq<nat>, stopWon: bool, restarts: nat, matches: nat, log: Log)

  datatype Action =
    | CallStart
    | CallDestroy
    | ClientStep(throws: bool)
    | CallStop
    | StopStep(call: nat)
    | WorkerStep(k: nat, answer: Answer)

  function Init(present: bool): State {
    State(false, false, present, Idle, None, [], [], [], [], 0, [], [], false, 0, 0, Log({}, 0, 0, {}, 0))
  }

  predicate Live(s: State, k: nat) {
    k < |s.workers| && !s.workers[k].pc.Ended?
  }

  predicate LastLive(s: State) {
    |s.workers| > 0 && Live(s, |s.workers| - 1)
  }

  function Latest(begun: nat): nat {
    if begun == 0 then 0 else begun - 1
  }

  /** The session that is open while `check_in_progress_` holds. */
  function Current(s: State): nat {
    Latest(s.begun)
  }

  /** Lower `check_in_progress_` without calling on_end. */
  function Drop(s: State): State {
    s.(checking := false, lapsed := s.lapsed + if s.checking then [Current(s)] else [])
  }

  // ----- the worker ---------------------------------------------------------------------------

  /** The control flow of `run_worker` and of the signal callback. */
  function NextPc(s: State, pc: WorkerPc, answer: Answer): WorkerPc {
    match pc
    case AtHead => if !s.running then Ended else if s.present then AtStart else AtMissing
    case AtMissing => Ended
    case AtStart => if answer.Fail? then AtStartError else AtOpen
    case AtStartError => Ended
    case AtOpen => AtLoop
    case AtLoop => AtInnerRun
    case AtInnerRun => if s.running then AtInnerCheck else AtStopCall
    case AtInnerCheck => if s.checking then AtProcess else AtStopCall
    case AtProcess =>
      (match answer
       case Fail => AtStopCall
       case Fine => AtInnerRun
       case Signal(outcome, done) => AtSignal(outcome, done))
    case AtSignal(_, done) => if done then AtSignalCas else AtInnerRun
    case AtSignalCas => if s.checking then AtSignalEnd(Current(s)) else AtInnerRun
    case AtSignalEnd(_) => AtInnerRun
    case AtStopCall => AtHead
    case Ended => Ended
  }

  function Callback(pc: WorkerPc): seq<Event> {
    match pc
    case AtMissing => [OnError(NotFound)]
    case AtStartError => [OnError(System)]
    case AtLoop => [OnLoop]
    case AtSignal(Match, _) => [OnFinish]
    case AtSignal(NoMatch, _) => [OnError(NotMatch)]
    case AtSignal(OtherResult, _) => [OnError(System)]
    case AtSignalEnd(n) => [OnEnd(n)]
    case _ => []
  }

  function DeviceCall(pc: WorkerPc, answer: Answer): seq<Call> {
    match pc
    case AtStart => [VerifyStart(!answer.Fail?)]
    case AtStopCall => [VerifyStop]
    case _ => []
  }

  predicate Matches(answer: Answer) {
    answer.Signal? && answer.outcome.Match?
  }

  /** History only: a signal has been delivered. */
  function Delivered(s: State, answer: Answer): Log
    requires answer.Signal?
  {
    s.log.(dones := if answer.done then s.log.dones + {Current(s)} else s.log.dones,
           noMatches := s.log.noMatches + if answer.outcome.NoMatch? then 1 else 0,
           others := s.log.others + if answer.outcome.OtherResult? then 1 else 0)
  }

  function Effect(s: State, pc: WorkerPc): State {
    match pc
    case AtStart => s.(restarts := s.restarts + 1)
    case AtOpen => Drop(s).(checking := true, begun := s.begun + 1)
    case AtSignalCas => s.(checking := false)
    case AtSignalEnd(n) => s.(ends := s.ends + [n])
    case _ => s
  }

  function StepWorker(s: State, k: nat, answer: Answer): State
    requires Live(s, k)
  {
    var pc := s.workers[k].pc;
    var w' := Worker(NextPc(s, pc, answer), pc.AtMissing? || pc.AtStartError?);
    Effect(s, pc).(workers := s.workers[k := w'], trace := s.trace + Callback(pc),
                   calls := s.calls + DeviceCall(pc, answer),
                   matches := s.matches + if pc.AtProcess? && Matches(answer) then 1 else 0,
                   log := if pc.AtProcess? && answer.Signal? then Delivered(s, answer) else s.log)
  }

  // ----- stop -----------------------------------------------------------------------------------

  predicate StopEnabled(s: State, i: nat) {
    i < |s.stops| && !s.stops[i].StopDone?
  }

  function StepStop(s: State, i: nat): State
    requires StopEnabled(s, i)
  {
    match s.stops[i]
    case CasRun =>
      s.(running := false, stops := s.stops[i := CasCheck],
         stopWon := s.stopWon || s.running, restarts := if s.running then 0 else s.restarts)
    case CasCheck =>
      s.(checking := false, stops := s.stops[i := if s.checking then FireEnd(Current(s)) else StopDone],
         log := if s.checking then s.log.(stopped := s.log.stopped + {Current(s)}, stopTakes := s.log.stopTakes + 1)
                else s.log)
    case FireEnd(n) =>
      s.(stops := s.stops[i := FireStop], ends := s.ends + [n], trace := s.trace + [OnEnd(n)])
    case FireStop => s.(stops := s.stops[i := StopDone], trace := s.trace + [OnStop])
  }

  // ----- start and the destructor ------------------------------------------------------------------

  predicate Joinable(s: State) {
    s.handle.Some? && Live(s, s.handle.value)
  }

  predicate ClientEnabled(s: State) {
    match s.client
    case Idle => false
    case Gone => false
    case StartJoin => !Joinable(s)
    case DestroyJoin => !Joinable(s)
    case DestroyStop(i) => i < |s.stops| && s.stops[i].StopDone?
    case _ => true
  }

  function Announce(c: ClientPc): seq<Event> {
    match c
    case StartReport => [OnStart]
    case DestroyReport => [OnDelete]
    case _ => []
  }

  function NextClient(s: State, throws: bool): ClientPc {
    match s.client
    case StartCheck => if s.handle.None? then StartRaise else if s.running then Idle else StartJoin
    case StartJoin => StartRaise
    case StartRaise => StartReset
    case StartReset => StartReport
    case StartReport => StartSpawn
    case StartSpawn => if throws then StartCatch else Idle
    case StartCatch => Idle
    case DestroyStop(_) => DestroyJoin
    case DestroyJoin => DestroyRelease
    case DestroyRelease => DestroyReport
    case DestroyReport => Gone
    case Idle => Idle
    case Gone => Gone
  }

  /** One atomic step of `start` or of the destructor; `throws` is read where the thread
      constructor may throw. */
  function StepClient(s: State, throws: bool): State
    requires ClientEnabled(s)
  {
    var s1 :=
      match s.client
      case StartJoin => s.(handle := None)
      case DestroyJoin => s.(handle := None)
      case StartRaise => s.(running := true, stopWon := false)
      case StartReset => Drop(s)
      case StartSpawn =>
        if throws then s
        else s.(workers := s.workers + [Worker(AtHead, false)], handle := Some(|s.workers|))
      case StartCatch => s.(running := false)
      case DestroyRelease => if s.present then s.(calls := s.calls + [Release]) else s
      case _ => s;
    s1.(client := NextClient(s, throws), trace := s.trace + Announce(s.client))
  }

  // ----- runs ---------------------------------------------------------------------------------------

  predicate Enabled(s: State, a: Action) {
    match a
    case CallStart => s.client.Idle?
    case CallDestroy => s.client.Idle?
    case ClientStep(_) => ClientEnabled(s)
    case CallStop => true
    case StopStep(i) => StopEnabled(s, i)
    case WorkerStep(k, _) => Live(s, k)
  }

  function Apply(s: State, a: Action): State
    requires Enabled(s, a)
  {
    match a
    case CallStart => s.(client := StartCheck)
    case CallDestroy => s.(client := DestroyStop(|s.stops|), stops := s.stops + [CasRun])
    case ClientStep(throws) => StepClient(s, throws)
    case CallStop => s.(stops := s.stops + [CasRun])
    case StopStep(i) => StepStop(s, i)
    case WorkerStep(k, answer) => StepWorker(s, k, answer)
  }

  function Exec(s: State, acts: seq<Action>): Option<State> {
    if acts == [] then Some(s)
    else
      var before := Exec(s, acts[..|acts| - 1]);
      var a := acts[|acts| - 1];
      if before.Some? && Enabled(before.value, a) then Some(Apply(before.value, a)) else None
  }

  ghost predicate Reachable(s: State) {
    exists present, acts :: Exec(Init(present), acts) == Some(s)
  }
}
