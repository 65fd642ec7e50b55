/** How the coordinator's handlers and its main thread proceed, in every interleaving. */
module CoordinatorRuns {
  import opened Common
  import opened Coordinator
  import P = Password
  import F = Fingerprint
  import FT = FingerprintTheorems
  import W = FingerprintWitnesses

  // ----- what the winner does, and main ---------------------------------------------------------------------------

  predicate Stopped(s: State, c: StopCall) {
    if c.target.ByPassword? then PwStopped(s, c.call) else FpStopped(s, c.call)
  }

  function Other(side: Side): Side {
    if side.ByPassword? then ByFingerprint else ByPassword
  }

  function HandlerOf(s: State, side: Side): HandlerPc {
    if side.ByPassword? then s.pwHandler else s.fpHandler
  }

  predicate Resting(pc: HandlerPc) {
    pc.Away? || pc.AtCas?
  }

  /** How far the winner `w` has come with its two stops. */
  predicate StopsSoFar(s: State, w: Side) {
    match HandlerOf(s, w)
    case StopOther => s.made == []
    case WaitOther(i) => s.made == [StopCall(w, Other(w), i)]
    case StopSelf => |s.made| == 1 && s.made[0].maker == w && s.made[0].target == Other(w) && Stopped(s, s.made[0])
    case WaitSelf(j) =>
      |s.made| == 2 && s.made[0].maker == w && s.made[0].target == Other(w) && Stopped(s, s.made[0])
      && s.made[1] == StopCall(w, w, j)
    case _ => BothStopped(s, w)
  }

  /** The winner has stopped the other side and then its own, and both stops have returned. */
  predicate BothStopped(s: State, w: Side) {
    |s.made| == 2 && s.made[0].maker == w && s.made[0].target == Other(w) && Stopped(s, s.made[0])
    && s.made[1].maker == w && s.made[1].target == w && Stopped(s, s.made[1])
  }

  predicate MainSoFar(s: State) {
    match s.main
    case StopPw(i) => FpStopped(s, i)
    case WaitPw(i, _) => FpStopped(s, i)
    case Deciding(i, j) => FpStopped(s, i) && PwStopped(s, j)
    case Decided(_, i, j) => FpStopped(s, i) && PwStopped(s, j)
    case _ => true
  }

  ghost predicate Orderly(s: State) {
    && |s.wins| <= 1 && (s.wins == [] <==> !s.authenticated)
    && (if s.wins == [] then s.made == [] && Resting(s.pwHandler) && Resting(s.fpHandler)
        else StopsSoFar(s, s.wins[0]) && Resting(HandlerOf(s, Other(s.wins[0]))))
    && MainSoFar(s)
  }

  lemma PwStoppedStays(s: P.State, a: P.Action)
    requires P.Enabled(s, a)
    ensures forall i :: 0 <= i < |s.stops| && s.stops[i].StopDone? ==>
              i < |P.Apply(s, a).stops| && P.Apply(s, a).stops[i].StopDone?
  {}

  lemma FpStoppedStays(s: F.State, a: F.Action)
    requires F.Enabled(s, a)
    ensures forall i :: 0 <= i < |s.stops| && s.stops[i].StopDone? ==>
              i < |F.Apply(s, a).stops| && F.Apply(s, a).stops[i].StopDone?
  {
    if a.StopStep? {
      FpStopKeeps(s, a.call);
    } else {
      assert s.stops <= F.Apply(s, a).stops;
    }
  }

  lemma FpStopKeeps(s: F.State, i: nat)
    requires F.StopEnabled(s, i)
    ensures |F.StepStop(s, i).stops| == |s.stops|
    ensures forall j :: 0 <= j < |s.stops| && j != i ==> F.StepStop(s, i).stops[j] == s.stops[j]
  {}

  /** Nothing a stop has done is undone. */
  ghost predicate StaysStopped(s: State, t: State) {
    && (forall i: nat :: PwStopped(s, i) ==> PwStopped(t, i))
    && (forall i: nat :: FpStopped(s, i) ==> FpStopped(t, i))
  }

  lemma StoppedStays(s: State, a: Action)
    requires Enabled(s, a)
    ensures StaysStopped(s, Apply(s, a))
  {
    match a
    case PwAct(p) => PwStoppedStays(s.pw, p);
    case FpAct(f) => FpStoppedStays(s.fp, f);
    case _ =>
  }

  /** A step of a worker or a client: a handler may at most be entered. */
  lemma OrderlyKept(s: State, t: State)
    requires Orderly(s) && StaysStopped(s, t)
    requires t.wins == s.wins && t.made == s.made && t.authenticated == s.authenticated && t.main == s.main
    requires t.pwHandler == s.pwHandler || (s.pwHandler.Away? && t.pwHandler.AtCas?)
    requires t.fpHandler == s.fpHandler || (s.fpHandler.Away? && t.fpHandler.AtCas?)
    ensures Orderly(t)
  {}

  lemma OrderlyPw(s: State)
    requires Orderly(s) && Enabled(s, PwHandler)
    ensures Orderly(Apply(s, PwHandler))
  {
    StoppedStays(s, PwHandler);
  }

  lemma OrderlyFp(s: State)
    requires Orderly(s) && Enabled(s, FpHandler)
    ensures Orderly(Apply(s, FpHandler))
  {
    StoppedStays(s, FpHandler);
  }

  lemma OrderlyMain(s: State)
    requires Orderly(s) && Enabled(s, MainStep)
    ensures Orderly(Apply(s, MainStep))
  {
    StoppedStays(s, MainStep);
  }

  lemma OrderlyStep(s: State, a: Action)
    requires Orderly(s) && Enabled(s, a)
    ensures Orderly(Apply(s, a))
  {
    match a
    case PwHandler => OrderlyPw(s);
    case FpHandler => OrderlyFp(s);
    case MainStep => OrderlyMain(s);
    case _ =>
      StoppedStays(s, a);
      OrderlyKept(s, Apply(s, a));
  }

  lemma {:induction false} OrderlyRun(present: bool, acts: seq<Action>)
    ensures Exec(Init(present), acts).Some? ==> Orderly(Exec(Init(present), acts).value)
  {
    if acts != [] && Exec(Init(present), acts).Some? {
      var prefix := acts[..|acts| - 1];
      OrderlyRun(present, prefix);
      OrderlyStep(Exec(Init(present), prefix).value, acts[|acts| - 1]);
    }
  }

  lemma {:induction false} OrderlyReachable(s: State)
    requires Reachable(s)
    ensures Orderly(s)
  {
    var present, acts :| Exec(Init(present), acts) == Some(s);
    OrderlyRun(present, acts);
  }

  /** When the winner's handler has returned, it has stopped the other side and then its own, and
      nobody else has stopped anything from a handler. */
  lemma WinnerStopsBoth(s: State)
    requires Reachable(s) && |s.wins| == 1 && HandlerOf(s, s.wins[0]).Away?
    ensures BothStopped(s, s.wins[0])
  {
    OrderlyReachable(s);
  }

  /** Main decides only after its own stops of both sides have returned. */
  lemma MainStopsBoth(s: State)
    requires Reachable(s) && (s.main.Deciding? || s.main.Decided?)
    ensures FpStopped(s, s.main.fp) && PwStopped(s, s.main.pw)
  {
    OrderlyReachable(s);
  }

  // ----- every on_finish tries ------------------------------------------------------------------------------------

  function FinishCount(trace: seq<P.Event>): nat {
    if trace == [] then 0 else FinishCount(trace[..|trace| - 1]) + Bit(trace[|trace| - 1].OnFinish?)
  }

  /** Every on_finish callback has made one attempt at the transition, or is about to. */
  ghost predicate Attempts(s: State) {
    FinishCount(s.pw.trace) + FT.FinishesIn(s.fp.trace)
    == s.tries + Bit(s.pwHandler.AtCas?) + Bit(s.fpHandler.AtCas?)
  }

  lemma {:induction false} FinishCountGrows(trace: seq<P.Event>, c: seq<P.Event>)
    requires |c| <= 1
    ensures FinishCount(trace + c) == FinishCount(trace) + Bit(c != [] && c[0].OnFinish?)
  {
    if c == [] { assert trace + c == trace; } else { assert (trace + c)[..|trace|] == trace; }
  }

  /** The callback a step of the password object makes, if any. */
  function PwSays(s: P.State, a: P.Action): seq<P.Event> {
    match a
    case WorkerStep(k, _) => if k < |s.workers| then P.Callback(s.workers[k].pc, k) else []
    case ClientStep(_) => if s.client.DestroyReport? then [P.OnDelete] else []
    case _ => []
  }

  function FpSays(s: F.State, a: F.Action): seq<F.Event> {
    match a
    case WorkerStep(k, _) => if k < |s.workers| then F.Callback(s.workers[k].pc) else []
    case ClientStep(_) => F.Announce(s.client)
    case StopStep(i) => if i < |s.stops| then FT.Spoken(s.stops[i]) else []
    case _ => []
  }

  lemma PwSaysSo(s: P.State, a: P.Action)
    requires P.Enabled(s, a)
    ensures |PwSays(s, a)| <= 1 && P.Apply(s, a).trace == s.trace + PwSays(s, a)
  {}

  lemma FpSaysSo(s: F.State, a: F.Action)
    requires F.Enabled(s, a)
    ensures |FpSays(s, a)| <= 1 && F.Apply(s, a).trace == s.trace + FpSays(s, a)
  {}

  /** on_finish is said exactly where a handler is entered. */
  lemma PwSaysFinish(s: State, p: P.Action)
    requires P.Enabled(s.pw, p)
    ensures PwSays(s.pw, p) != [] && PwSays(s.pw, p)[0].OnFinish? <==> PwFinishes(s, p)
  {}

  lemma FpSaysFinish(s: State, f: F.Action)
    requires F.Enabled(s.fp, f)
    ensures FpSays(s.fp, f) != [] && FpSays(s.fp, f)[0].OnFinish? <==> FpFinishes(s, f)
  {}

  /** `n` more callbacks on_finish, each with its handler entered. */
  lemma {:induction false} AttemptsBy(s: State, t: State, n: nat)
    requires Attempts(s) && t.tries == s.tries
    requires FinishCount(t.pw.trace) + FT.FinishesIn(t.fp.trace)
             == FinishCount(s.pw.trace) + FT.FinishesIn(s.fp.trace) + n
    requires Bit(t.pwHandler.AtCas?) + Bit(t.fpHandler.AtCas?) == Bit(s.pwHandler.AtCas?) + Bit(s.fpHandler.AtCas?) + n
    ensures Attempts(t)
  {}

  lemma PwEnters(s: State, p: P.Action)
    requires Enabled(s, PwAct(p))
    ensures var t := Apply(s, PwAct(p));
            && t.pw == P.Apply(s.pw, p) && t.fp == s.fp && t.tries == s.tries && t.fpHandler == s.fpHandler
            && Bit(t.pwHandler.AtCas?) == Bit(s.pwHandler.AtCas?) + Bit(PwFinishes(s, p))
  {}

  lemma FpEnters(s: State, f: F.Action)
    requires Enabled(s, FpAct(f))
    ensures var t := Apply(s, FpAct(f));
            && t.fp == F.Apply(s.fp, f) && t.pw == s.pw && t.tries == s.tries && t.pwHandler == s.pwHandler
            && Bit(t.fpHandler.AtCas?) == Bit(s.fpHandler.AtCas?) + Bit(FpFinishes(s, f))
  {}

  lemma {:induction false} AttemptsPw(s: State, p: P.Action)
    requires Attempts(s) && Enabled(s, PwAct(p))
    ensures Attempts(Apply(s, PwAct(p)))
  {
    PwSaysSo(s.pw, p);
    PwSaysFinish(s, p);
    PwEnters(s, p);
    FinishCountGrows(s.pw.trace, PwSays(s.pw, p));
    AttemptsBy(s, Apply(s, PwAct(p)), Bit(PwFinishes(s, p)));
  }

  lemma {:induction false} AttemptsFp(s: State, f: F.Action)
    requires Attempts(s) && Enabled(s, FpAct(f))
    ensures Attempts(Apply(s, FpAct(f)))
  {
    FpSaysSo(s.fp, f);
    FpSaysFinish(s, f);
    FpEnters(s, f);
    FT.TraceGrows(s.fp.trace, FpSays(s.fp, f));
    AttemptsBy(s, Apply(s, FpAct(f)), Bit(FpFinishes(s, f)));
  }

  lemma {:induction false} AttemptsStep(s: State, a: Action)
    requires Attempts(s) && Enabled(s, a)
    ensures Attempts(Apply(s, a))
  {
    match a
    case PwAct(p) => AttemptsPw(s, p);
    case FpAct(f) => AttemptsFp(s, f);
    case _ =>
  }

  lemma {:induction false} AttemptsRun(present: bool, acts: seq<Action>)
    ensures Exec(Init(present), acts).Some? ==> Attempts(Exec(Init(present), acts).value)
  {
    if acts != [] && Exec(Init(present), acts).Some? {
      var prefix := acts[..|acts| - 1];
      AttemptsRun(present, prefix);
      AttemptsStep(Exec(Init(present), prefix).value, acts[|acts| - 1]);
    }
  }

  /** So if any on_finish callback was made whose handler has got past its CAS, there is a winner. */
  lemma {:induction false} EveryFinishTries(s: State)
    requires Reachable(s)
    ensures Attempts(s)
  {
    var present, acts :| Exec(Init(present), acts) == Some(s);
    AttemptsRun(present, acts);
  }

  // ----- a run that ends in access ----------------------------------------------------------------------------------

  predicate Moves(s: State, a: Action, t: State) {
    Enabled(s, a) && Apply(s, a) == t
  }

  lemma {:induction false} Go(s: State, a: Action, t: State)
    requires Reachable(s) && Moves(s, a, t)
    ensures Reachable(t)
  {
    var present, acts :| Exec(Init(present), acts) == Some(s);
    assert (acts + [a])[..|acts|] == acts;
    assert Exec(Init(present), acts + [a]) == Some(t);
  }

  /** The fingerprint object moves while no handler runs and none is entered. */
  lemma {:induction false} GoFp(s: State, a: F.Action, fp: F.State)
    requires Reachable(s) && s.fpHandler.Away? && W.Moves(s.fp, a, fp) && !FpFinishes(s, a)
    ensures Reachable(s.(fp := fp))
  {
    Go(s, FpAct(a), s.(fp := fp));
  }

  function With(fp: F.State): State {
    Init(true).(fp := fp)
  }

  lemma {:induction false} ScanningReachable()
    ensures Reachable(With(W.At(W.Started, F.AtOpen)))
  {
    assert Exec(Init(true), []) == Some(With(W.Present));
    W.MovesToReady();
    GoFp(With(W.Present), F.CallStart, W.Present.(client := F.StartCheck));
    GoFp(With(W.Present.(client := F.StartCheck)), W.Call, W.Present.(client := F.StartRaise));
    GoFp(With(W.Present.(client := F.StartRaise)), W.Call, W.Present.(running := true, client := F.StartReset));
    GoFp(With(W.Present.(running := true, client := F.StartReset)), W.Call,
         W.Present.(running := true, client := F.StartReport));
    W.MovesToScan();
    GoFp(With(W.Present.(running := true, client := F.StartReport)), W.Call,
         W.Present.(running := true, client := F.StartSpawn, trace := [F.OnStart]));
    GoFp(With(W.Present.(running := true, client := F.StartSpawn, trace := [F.OnStart])), W.Call,
         W.At(W.Ready, F.AtHead));
    GoFp(With(W.At(W.Ready, F.AtHead)), W.Work, W.At(W.Ready, F.AtStart));
    GoFp(With(W.At(W.Ready, F.AtStart)), W.Work, W.At(W.Started, F.AtOpen));
  }

  lemma {:induction false} ListeningReachable()
    ensures Reachable(With(W.At(W.Looped, F.AtProcess)))
  {
    ScanningReachable();
    W.MovesToLoop();
    GoFp(With(W.At(W.Started, F.AtOpen)), W.Work, W.At(W.Checking, F.AtLoop));
    GoFp(With(W.At(W.Checking, F.AtLoop)), W.Work, W.At(W.Looped, F.AtInnerRun));
    W.MovesToProcess();
    GoFp(With(W.At(W.Looped, F.AtInnerRun)), W.Work, W.At(W.Looped, F.AtInnerCheck));
    GoFp(With(W.At(W.Looped, F.AtInnerCheck)), W.Work, W.At(W.Looped, F.AtProcess));
  }

  const Matching := W.At(W.Looped, F.AtSignal(F.Match, false)).(matches := 1)
  const Matched := W.At(W.Looped, F.AtInnerRun).(matches := 1, trace := [F.OnStart, F.OnLoop, F.OnFinish])

  lemma MovesToMatched()
    ensures W.Moves(W.At(W.Looped, F.AtProcess), F.WorkerStep(0, F.Signal(F.Match, false)), Matching)
    ensures W.Moves(Matching, W.Work, Matched)
  {}

  /** The handler has won; main is at `pc`, with the stops of both sides as given. */
  function Won(pc: MainPc, fpStop: seq<F.StopPc>, pwStop: seq<P.StopPc>): State {
    With(Matched).(authenticated := true, fpHandler := StopOther, tries := 1, wins := [ByFingerprint], main := pc,
                   fp := Matched.(running := fpStop == [] || fpStop[0].CasRun?, stops := fpStop,
                                  stopWon := fpStop != [] && !fpStop[0].CasRun?,
                                  restarts := if fpStop == [] || fpStop[0].CasRun? then 1 else 0,
                                  checking := fpStop == [] || fpStop[0].CasRun? || fpStop[0].CasCheck?,
                                  log := if fpStop == [] || fpStop[0].CasRun? || fpStop[0].CasCheck? then Matched.log
                                         else Matched.log.(stopped := {0}, stopTakes := 1),
                                  ends := if fpStop == [F.FireStop] || fpStop == [F.StopDone] then [0] else [],
                                  trace := if fpStop == [F.FireStop] then Matched.trace + [F.OnEnd(0)]
                                           else if fpStop == [F.StopDone] then Matched.trace + [F.OnEnd(0), F.OnStop]
                                           else Matched.trace),
                   pw := P.Init.(stops := pwStop))
  }

  lemma MovesToWon()
    ensures Moves(With(Matching), FpAct(W.Work), With(Matched).(fpHandler := AtCas))
    ensures Moves(With(Matched).(fpHandler := AtCas), FpHandler, Won(Looping, [], []))
    ensures Moves(Won(Looping, [], []), MainStep, Won(StopFp, [], []))
  {}

  lemma MovesToFpStop()
    ensures Moves(Won(StopFp, [], []), MainStep, Won(WaitFp(0), [F.CasRun], []))
    ensures Moves(Won(WaitFp(0), [F.CasRun], []), FpAct(F.StopStep(0)), Won(WaitFp(0), [F.CasCheck], []))
  {}

  lemma MovesToFpTaken()
    ensures Moves(Won(WaitFp(0), [F.CasCheck], []), FpAct(F.StopStep(0)), Won(WaitFp(0), [F.FireEnd(0)], []))
  {}

  lemma MovesToFpEnded()
    ensures Moves(Won(WaitFp(0), [F.FireEnd(0)], []), FpAct(F.StopStep(0)), Won(WaitFp(0), [F.FireStop], []))
  {}

  lemma MovesToFpStopped()
    ensures Moves(Won(WaitFp(0), [F.FireStop], []), FpAct(F.StopStep(0)), Won(WaitFp(0), [F.StopDone], []))
  {}

  lemma MovesToPwStop()
    ensures Moves(Won(WaitFp(0), [F.StopDone], []), MainStep, Won(StopPw(0), [F.StopDone], []))
    ensures Moves(Won(StopPw(0), [F.StopDone], []), MainStep, Won(WaitPw(0, 0), [F.StopDone], [P.StopCas]))
  {}

  lemma MovesToDeciding()
    ensures Moves(Won(WaitPw(0, 0), [F.StopDone], [P.StopCas]), PwAct(P.StopStep(0)),
                  Won(WaitPw(0, 0), [F.StopDone], [P.StopDone]))
    ensures Moves(Won(WaitPw(0, 0), [F.StopDone], [P.StopDone]), MainStep,
                  Won(Deciding(0, 0), [F.StopDone], [P.StopDone]))
  {}

  lemma MovesToDecided()
    ensures Moves(Won(Deciding(0, 0), [F.StopDone], [P.StopDone]), MainStep,
                  Won(Decided(true, 0, 0), [F.StopDone], [P.StopDone]))
  {}

  lemma {:induction false} WonReachable()
    ensures Reachable(Won(WaitFp(0), [F.CasCheck], []))
  {
    ListeningReachable();
    MovesToMatched();
    GoFp(With(W.At(W.Looped, F.AtProcess)), F.WorkerStep(0, F.Signal(F.Match, false)), Matching);
    MovesToWon();
    Go(With(Matching), FpAct(W.Work), With(Matched).(fpHandler := AtCas));
    Go(With(Matched).(fpHandler := AtCas), FpHandler, Won(Looping, [], []));
    Go(Won(Looping, [], []), MainStep, Won(StopFp, [], []));
    MovesToFpStop();
    Go(Won(StopFp, [], []), MainStep, Won(WaitFp(0), [F.CasRun], []));
    Go(Won(WaitFp(0), [F.CasRun], []), FpAct(F.StopStep(0)), Won(WaitFp(0), [F.CasCheck], []));
  }

  lemma {:induction false} FpStoppedReachable()
    ensures Reachable(Won(WaitFp(0), [F.StopDone], []))
  {
    WonReachable();
    MovesToFpTaken();
    Go(Won(WaitFp(0), [F.CasCheck], []), FpAct(F.StopStep(0)), Won(WaitFp(0), [F.FireEnd(0)], []));
    MovesToFpEnded();
    Go(Won(WaitFp(0), [F.FireEnd(0)], []), FpAct(F.StopStep(0)), Won(WaitFp(0), [F.FireStop], []));
    MovesToFpStopped();
    Go(Won(WaitFp(0), [F.FireStop], []), FpAct(F.StopStep(0)), Won(WaitFp(0), [F.StopDone], []));
  }

  lemma {:induction false} DecidingReachable()
    ensures Reachable(Won(Deciding(0, 0), [F.StopDone], [P.StopDone]))
  {
    FpStoppedReachable();
    MovesToPwStop();
    Go(Won(WaitFp(0), [F.StopDone], []), MainStep, Won(StopPw(0), [F.StopDone], []));
    Go(Won(StopPw(0), [F.StopDone], []), MainStep, Won(WaitPw(0, 0), [F.StopDone], [P.StopCas]));
    MovesToDeciding();
    Go(Won(WaitPw(0, 0), [F.StopDone], [P.StopCas]), PwAct(P.StopStep(0)),
       Won(WaitPw(0, 0), [F.StopDone], [P.StopDone]));
    Go(Won(WaitPw(0, 0), [F.StopDone], [P.StopDone]), MainStep, Won(Deciding(0, 0), [F.StopDone], [P.StopDone]));
  }

  /** A verify-match signal, and access is granted. */
  lemma {:induction false} MatchIsGranted()
    ensures exists s :: Reachable(s) && Granted(s.main)
  {
    DecidingReachable();
    MovesToDecided();
    Go(Won(Deciding(0, 0), [F.StopDone], [P.StopDone]), MainStep, Won(Decided(true, 0, 0), [F.StopDone], [P.StopDone]));
    assert Granted(Won(Decided(true, 0, 0), [F.StopDone], [P.StopDone]).main);
  }
}
