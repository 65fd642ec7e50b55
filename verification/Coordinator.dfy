/**
  The example coordinator: both workers, their on_finish handlers racing on `authenticated`, and the
  main thread that finally decides.  A handler runs inside its worker's callback, so that worker
  stands still until the handler returns; everything else interleaves freely.
 */
module Coordinator {
  import opened Common
  import P = Password
  import F = Fingerprint
  import PT = PasswordTheorems
  import FT = FingerprintTheorems

  datatype Side = ByPassword | ByFingerprint

  /** Inside an on_finish handler: the CAS, then stopping the other side, then one's own. */
  datatype HandlerPc =
    | Away
    | AtCas
    | StopOther
    | WaitOther(call: nat)
    | StopSelf
    | WaitSelf(call: nat)

  datatype MainPc =
    | Looping
    | StopFp
    | WaitFp(call: nat)
    | StopPw(fp: nat)
    | WaitPw(fp: nat, call: nat)
    | Deciding(fp: nat, pw: nat)
    | Decided(granted: bool, fp: nat, pw: nat)

  predicate Granted(pc: MainPc) {
    pc.Decided? && pc.granted
  }

  /** A call of stop that an on_finish handler has made: on which side, and which call it is there. */
  datatype StopCall = StopCall(maker: Side, target: Side, call: nat)

  /** History: `tries` CAS attempts by handlers, `wins` the sides whose attempt succeeded, `made` the
      stops that handlers have called. */
  datatype State = State(
    pw: P.State, fp: F.State, authenticated: bool,
    pwHandler: HandlerPc, fpHandler: HandlerPc, main: MainPc, tries: nat, wins: seq<Side>, made: seq<StopCall>)

  datatype Action =
    | PwAct(p: P.Action)
    | FpAct(f: F.Action)
    | PwHandler
    | FpHandler
    | MainStep

  function Init(present: bool): State {
    State(P.Init, F.Init(present), false, Away, Away, Looping, 0, [], [])
  }

  predicate PwFinishes(s: State, a: P.Action) {
    a.WorkerStep? && a.k < |s.pw.workers| && s.pw.workers[a.k].pc == P.AtVerdict(true)
  }

  predicate FpFinishes(s: State, a: F.Action) {
    a.WorkerStep? && a.k < |s.fp.workers|
    && s.fp.workers[a.k].pc.AtSignal? && s.fp.workers[a.k].pc.outcome.Match?
  }

  predicate PwStopped(s: State, i: nat) {
    i < |s.pw.stops| && s.pw.stops[i].StopDone?
  }

  predicate FpStopped(s: State, i: nat) {
    i < |s.fp.stops| && s.fp.stops[i].StopDone?
  }

  predicate Enabled(s: State, a: Action) {
    match a
    case PwAct(p) => P.Enabled(s.pw, p) && (p.WorkerStep? ==> s.pwHandler.Away?)
    case FpAct(f) => F.Enabled(s.fp, f) && (f.WorkerStep? ==> s.fpHandler.Away?)
    case PwHandler =>
      (match s.pwHandler
       case Away => false
       case WaitOther(i) => FpStopped(s, i)
       case WaitSelf(i) => PwStopped(s, i)
       case _ => true)
    case FpHandler =>
      (match s.fpHandler
       case Away => false
       case WaitOther(i) => PwStopped(s, i)
       case WaitSelf(i) => FpStopped(s, i)
       case _ => true)
    case MainStep =>
      (match s.main
       case WaitFp(i) => FpStopped(s, i)
       case WaitPw(_, i) => PwStopped(s, i)
       case Decided(_, _, _) => false
       case _ => true)
  }

  function CallPwStop(s: State): State {
    s.(pw := P.Apply(s.pw, P.CallStop))
  }

  function CallFpStop(s: State): State {
    s.(fp := F.Apply(s.fp, F.CallStop))
  }

  /** authenticated.compare_exchange_strong(false, true) */
  function Cas(s: State, side: Side): State {
    s.(authenticated := true, tries := s.tries + 1,
       wins := if s.authenticated then s.wins else s.wins + [side])
  }

  function StepPwHandler(s: State): State
    requires Enabled(s, PwHandler)
  {
    match s.pwHandler
    case AtCas => Cas(s, ByPassword).(pwHandler := if s.authenticated then Away else StopOther)
    case StopOther =>
      CallFpStop(s).(pwHandler := WaitOther(|s.fp.stops|),
                     made := s.made + [StopCall(ByPassword, ByFingerprint, |s.fp.stops|)])
    case WaitOther(_) => s.(pwHandler := StopSelf)
    case StopSelf =>
      CallPwStop(s).(pwHandler := WaitSelf(|s.pw.stops|),
                     made := s.made + [StopCall(ByPassword, ByPassword, |s.pw.stops|)])
    case WaitSelf(_) => s.(pwHandler := Away)
  }

  function StepFpHandler(s: State): State
    requires Enabled(s, FpHandler)
  {
    match s.fpHandler
    case AtCas => Cas(s, ByFingerprint).(fpHandler := if s.authenticated then Away else StopOther)
    case StopOther =>
      CallPwStop(s).(fpHandler := WaitOther(|s.pw.stops|),
                     made := s.made + [StopCall(ByFingerprint, ByPassword, |s.pw.stops|)])
    case WaitOther(_) => s.(fpHandler := StopSelf)
    case StopSelf =>
      CallFpStop(s).(fpHandler := WaitSelf(|s.fp.stops|),
                     made := s.made + [StopCall(ByFingerprint, ByFingerprint, |s.fp.stops|)])
    case WaitSelf(_) => s.(fpHandler := Away)
  }

  function StepMain(s: State): State
    requires Enabled(s, MainStep)
  {
    match s.main
    case Looping => s.(main := StopFp)
    case StopFp => CallFpStop(s).(main := WaitFp(|s.fp.stops|))
    case WaitFp(i) => s.(main := StopPw(i))
    case StopPw(i) => CallPwStop(s).(main := WaitPw(i, |s.pw.stops|))
    case WaitPw(i, j) => s.(main := Deciding(i, j))
    case Deciding(i, j) => s.(main := Decided(s.authenticated, i, j))
  }

  function Apply(s: State, a: Action): State
    requires Enabled(s, a)
  {
    match a
    case PwAct(p) => s.(pw := P.Apply(s.pw, p), pwHandler := if PwFinishes(s, p) then AtCas else s.pwHandler)
    case FpAct(f) => s.(fp := F.Apply(s.fp, f), fpHandler := if FpFinishes(s, f) then AtCas else s.fpHandler)
    case PwHandler => StepPwHandler(s)
    case FpHandler => StepFpHandler(s)
    case MainStep => StepMain(s)
  }

  function Exec(s: State, acts: seq<Action>): Option<State> {
    if acts == [] then Some(s)
    else
      var before := Exec(s, acts[..|acts| - 1]);
      var a := acts[|acts| - 1];
      if before.Some? && Enabled(before.value, a) then Some(Apply(before.value, a)) else None
  }

  ghost predicate Reachable(s: State) {
    exists present, acts :: Exec(Init(present), acts) == Some(s)
  }

  // ----- each component runs as it does alone --------------------------------------------------------

  lemma {:induction false} PwReach(s: P.State, a: P.Action)
    requires P.Reachable(s) && P.Enabled(s, a)
    ensures P.Reachable(P.Apply(s, a))
  {
    var acts :| P.Exec(P.Init, acts) == Some(s);
    assert (acts + [a])[..|acts|] == acts;
    assert P.Exec(P.Init, acts + [a]) == Some(P.Apply(s, a));
  }

  lemma {:induction false} FpReach(s: F.State, a: F.Action)
    requires F.Reachable(s) && F.Enabled(s, a)
    ensures F.Reachable(F.Apply(s, a))
  {
    var present, acts :| F.Exec(F.Init(present), acts) == Some(s);
    assert (acts + [a])[..|acts|] == acts;
    assert F.Exec(F.Init(present), acts + [a]) == Some(F.Apply(s, a));
  }

  lemma ComponentsStart(present: bool)
    ensures P.Reachable(P.Init) && F.Reachable(F.Init(present))
  {
    assert P.Exec(P.Init, []) == Some(P.Init);
    assert F.Exec(F.Init(present), []) == Some(F.Init(present));
  }

  ghost predicate Components(s: State) {
    P.Reachable(s.pw) && F.Reachable(s.fp)
  }

  lemma ComponentsStep(s: State, a: Action)
    requires Components(s) && Enabled(s, a)
    ensures Components(Apply(s, a))
  {
    PwReach(s.pw, P.CallStop);
    FpReach(s.fp, F.CallStop);
    match a
    case PwAct(p) => PwReach(s.pw, p);
    case FpAct(f) => FpReach(s.fp, f);
    case _ =>
  }

  // ----- one winner, and what it stands on -----------------------------------------------------------------

  ghost predicate PwFinished(s: State) {
    exists k: nat :: P.OnFinish(k) in s.pw.trace
  }

  ghost predicate FpFinished(s: State) {
    F.OnFinish in s.fp.trace
  }

  ghost predicate Race(s: State) {
    && (s.authenticated <==> s.tries > 0)
    && |s.wins| == (if s.authenticated then 1 else 0)
    && (s.pwHandler.AtCas? || ByPassword in s.wins ==> PwFinished(s))
    && (s.fpHandler.AtCas? || ByFingerprint in s.wins ==> FpFinished(s))
    && (Granted(s.main) ==> s.authenticated)
  }

  lemma PwTraceGrows(s: P.State, a: P.Action)
    requires P.Enabled(s, a)
    ensures s.trace <= P.Apply(s, a).trace
  {}

  lemma FpTraceGrows(s: F.State, a: F.Action)
    requires F.Enabled(s, a)
    ensures s.trace <= F.Apply(s, a).trace
  {}

  lemma RacePw(s: State, p: P.Action)
    requires Race(s) && Enabled(s, PwAct(p))
    ensures Race(Apply(s, PwAct(p)))
  {
    var t := Apply(s, PwAct(p));
    PwTraceGrows(s.pw, p);
    if PwFinished(s) {
      var k: nat :| P.OnFinish(k) in s.pw.trace;
      assert P.OnFinish(k) in t.pw.trace;
    }
    if PwFinishes(s, p) { assert P.OnFinish(p.k) in t.pw.trace; }
  }

  lemma RaceFp(s: State, f: F.Action)
    requires Race(s) && Enabled(s, FpAct(f))
    ensures Race(Apply(s, FpAct(f)))
  {
    FpTraceGrows(s.fp, f);
    if FpFinishes(s, f) { assert F.OnFinish in Apply(s, FpAct(f)).fp.trace; }
  }

  lemma RaceStep(s: State, a: Action)
    requires Race(s) && Enabled(s, a)
    ensures Race(Apply(s, a))
    ensures s.authenticated ==> Apply(s, a).authenticated && Apply(s, a).wins == s.wins
  {
    match a
    case PwAct(p) => RacePw(s, p);
    case FpAct(f) => RaceFp(s, f);
    case _ =>
  }

  lemma {:induction false} Run(present: bool, acts: seq<Action>)
    ensures Exec(Init(present), acts).Some? ==>
              var s := Exec(Init(present), acts).value; Components(s) && Race(s)
  {
    ComponentsStart(present);
    if acts != [] && Exec(Init(present), acts).Some? {
      var prefix := acts[..|acts| - 1];
      Run(present, prefix);
      ComponentsStep(Exec(Init(present), prefix).value, acts[|acts| - 1]);
      RaceStep(Exec(Init(present), prefix).value, acts[|acts| - 1]);
    }
  }

  // ----- theorems -----------------------------------------------------------------------------------------------

  /** In every interleaving, as soon as one on_finish handler has tried, exactly one has performed
      the transition of `authenticated`; before that, none has. */
  lemma SingleWinner(s: State)
    requires Reachable(s)
    ensures |s.wins| == (if s.tries > 0 then 1 else 0)
    ensures s.authenticated <==> |s.wins| == 1
  {
    var present, acts :| Exec(Init(present), acts) == Some(s);
    Run(present, acts);
  }

  lemma {:induction false} RaceRun(s: State, acts: seq<Action>)
    requires Race(s) && s.authenticated && Exec(s, acts).Some?
    ensures var t := Exec(s, acts).value; Race(t) && t.authenticated && t.wins == s.wins
  {
    if acts != [] {
      var prefix := acts[..|acts| - 1];
      RaceRun(s, prefix);
      RaceStep(Exec(s, prefix).value, acts[|acts| - 1]);
    }
  }

  /** The transition never reverts, and the winner never changes, along any continuation. */
  lemma {:induction false} NeverReverts(s: State, acts: seq<Action>)
    requires Reachable(s) && s.authenticated && Exec(s, acts).Some?
    ensures var t := Exec(s, acts).value; t.authenticated && t.wins == s.wins
  {
    var present, before :| Exec(Init(present), before) == Some(s);
    Run(present, before);
    RaceRun(s, acts);
  }

  /** The password worker `k` called on_finish, on a PAM child that was given the password of its
      verify and exited 0, or whose wait failed. */
  ghost predicate Vouches(s: P.State, k: nat) {
    && P.OnFinish(k) in s.trace && PT.OwnChild(s, k)
    && (s.workers[k].waitFailed || P.Succeeded(s, s.workers[k].child))
  }

  lemma {:induction false} HeardFinish(t: seq<F.Event>)
    requires F.OnFinish in t
    ensures FT.FinishesIn(t) > 0
  {
    var prefix := t[..|t| - 1];
    if t[|t| - 1] != F.OnFinish {
      assert F.OnFinish in prefix;
      HeardFinish(prefix);
    }
  }

  lemma RaceReachable(s: State)
    requires Reachable(s)
    ensures Race(s) && Components(s)
  {
    var present, acts :| Exec(Init(present), acts) == Some(s);
    Run(present, acts);
  }

  /** Whoever performed the transition stands on its own evidence: the password side on a worker
      that vouches for its child, the fingerprint side on a delivered verify-match signal. */
  lemma WinnerIsJustified(s: State)
    requires Reachable(s)
    ensures ByPassword in s.wins ==> exists k: nat :: Vouches(s.pw, k)
    ensures ByFingerprint in s.wins ==> s.fp.matches > 0
  {
    RaceReachable(s);
    if ByPassword in s.wins {
      var k: nat :| P.OnFinish(k) in s.pw.trace;
      PT.VerdictMatchesInput(s.pw, k);
      assert Vouches(s.pw, k);
    }
    if ByFingerprint in s.wins {
      HeardFinish(s.fp.trace);
      FT.FinishNeedsMatch(s.fp);
    }
  }

  lemma GrantHasWinner(s: State)
    requires Race(s) && Granted(s.main)
    ensures |s.wins| == 1
  {}

  /** Access is granted only with one winner, and on that winner's evidence. */
  lemma {:induction false} GrantIsJustified(s: State)
    requires Reachable(s) && Granted(s.main)
    ensures |s.wins| == 1
    ensures s.wins[0].ByPassword? ==> exists k: nat :: Vouches(s.pw, k)
    ensures s.wins[0].ByFingerprint? ==> s.fp.matches > 0
  {
    RaceReachable(s);
    GrantHasWinner(s);
    assert s.wins[0] in s.wins;
    WinnerIsJustified(s);
  }

  // ----- the decision -------------------------------------------------------------------------------------------

  /** However main comes to its answer, it is access exactly if some handler has performed the
      transition by then, and the answer stays. */
  lemma {:induction false} DecisionIsExact(s: State, a: Action)
    requires Reachable(s) && Enabled(s, a)
    ensures !s.main.Decided? && Apply(s, a).main.Decided? ==> (Granted(Apply(s, a).main) <==> |s.wins| == 1)
    ensures s.main.Decided? ==> Apply(s, a).main == s.main
    ensures s.main.Deciding? && a.MainStep? ==> Apply(s, a).main.Decided?
  {
    RaceReachable(s);
  }
}
