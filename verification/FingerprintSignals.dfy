/** What a signal of the sensor, a stop and a start of `auth::Fingerprint` bring about. */
module FingerprintSignals {
  import opened Common
  import opened Fingerprint
  import opened FingerprintTheorems

  // ----- a done signal ends its session -----------------------------------------------------------

  function LastPc(s: State): WorkerPc {
    if s.workers == [] then Ended else s.workers[|s.workers| - 1].pc
  }

  /** The worker is in the loop of a check session. */
  predicate InSession(pc: WorkerPc) {
    Scans(pc) && !pc.AtOpen?
  }

  /** A done signal is being worked on. */
  predicate Settling(pc: WorkerPc) {
    (pc.AtSignal? && pc.done) || pc.AtSignalCas?
  }

  ghost predicate Unlapsed(s: State) {
    InSession(LastPc(s)) ==> s.begun > 0 && Current(s) !in s.lapsed
  }

  /** The current session of a worker has not lapsed; a session with a done signal has been taken,
      unless that signal is still being worked on. */
  ghost predicate DoneSettles(s: State) {
    && Unlapsed(s)
    && (forall n :: n in s.log.dones ==>
          n < s.begun
          && (Taken(BooksOf(s), n) || (Settling(LastPc(s)) && n == Current(s) && s.checking)))
  }

  /** What an entry in the books leaves taken. */
  lemma TakenStays(b: Books, e: Entry, n: nat)
    requires CanPost(b, e) && Taken(b, n)
    ensures Taken(Post(b, e), n)
  {
    if FireEnd(n) in b.stops && (e.SetStop? || e.StopTake? || e.StopFire?) {
      var j :| 0 <= j < |b.stops| && b.stops[j] == FireEnd(n);
      assert j != e.i ==> Post(b, e).stops[j] == FireEnd(n);
    }
  }

  lemma AllTakenStay(s: State, a: Action)
    requires Control(s) && Sessions(s) && Enabled(s, a)
    ensures forall n: nat :: Taken(BooksOf(s), n) ==> Taken(BooksOf(Apply(s, a)), n)
  {
    PostsStep(s, a);
    forall n: nat | Taken(BooksOf(s), n)
      ensures Taken(BooksOf(Apply(s, a)), n)
    {
      TakenStays(BooksOf(s), EntryOf(s, a), n);
    }
  }

  lemma UnlapsedWorker(s: State, k: nat, answer: Answer)
    requires Control(s) && Partitioned(BooksOf(s)) && Unlapsed(s) && Live(s, k)
    ensures Unlapsed(StepWorker(s, k, answer))
  {
    ControlWorker(s, k, answer);
  }

  /** A done signal finds its session taken or open. */
  lemma CurrentIsTakenOrOpen(s: State)
    requires Partitioned(BooksOf(s)) && Unlapsed(s) && InSession(LastPc(s))
    ensures s.begun > 0 && (Taken(BooksOf(s), Current(s)) || s.checking)
  {
    assert Taken(BooksOf(s), Current(s)) || IsOpen(BooksOf(s), Current(s)) || Current(s) in s.lapsed;
  }

  /** What one step of the worker does to the sessions with a done signal. */
  ghost predicate WorkerSettles(s: State, t: State, pc: WorkerPc) {
    && t.begun >= s.begun
    && (forall n :: n in t.log.dones ==> n in s.log.dones || (pc.AtProcess? && n == Current(s)))
    && (Settling(pc) ==>
          && t.begun == s.begun
          && ((t.checking && Settling(LastPc(t))) || !s.checking || LastPc(t) == AtSignalEnd(Current(s))))
    && (pc.AtProcess? && t.log.dones != s.log.dones ==>
          t.begun == s.begun && Settling(LastPc(t)) && t.checking == s.checking)
  }

  lemma WorkerSettlesSo(s: State, k: nat, answer: Answer)
    requires Control(s) && Live(s, k)
    ensures WorkerSettles(s, StepWorker(s, k, answer), s.workers[k].pc)
  {
    ControlWorker(s, k, answer);
  }

  lemma DoneWorker(s: State, k: nat, answer: Answer)
    requires Control(s) && Sessions(s) && DoneSettles(s) && Live(s, k)
    ensures DoneSettles(StepWorker(s, k, answer))
  {
    ControlWorker(s, k, answer);
    UnlapsedWorker(s, k, answer);
    AllTakenStay(s, WorkerStep(k, answer));
    WorkerSettlesSo(s, k, answer);
    if s.workers[k].pc.AtProcess? { CurrentIsTakenOrOpen(s); }
    DoneSettled(s, StepWorker(s, k, answer), s.workers[k].pc);
  }

  lemma DoneSettled(s: State, t: State, pc: WorkerPc)
    requires DoneSettles(s) && Unlapsed(t) && LastPc(s) == pc && WorkerSettles(s, t, pc)
    requires forall n: nat :: Taken(BooksOf(s), n) ==> Taken(BooksOf(t), n)
    requires pc.AtProcess? ==> s.begun > 0 && (Taken(BooksOf(s), Current(s)) || s.checking)
    ensures DoneSettles(t)
  {}

  /** Nothing was delivered, and the check flag went down only by taking the session. */
  lemma DoneKept(s: State, t: State)
    requires DoneSettles(s) && LastPc(t) == LastPc(s) && t.begun == s.begun && t.lapsed == s.lapsed
    requires t.log.dones == s.log.dones && (s.checking && !t.checking ==> Taken(BooksOf(t), Current(s)))
    requires forall n: nat :: Taken(BooksOf(s), n) ==> Taken(BooksOf(t), n)
    ensures DoneSettles(t)
  {}

  lemma DoneStop(s: State, i: nat)
    requires Control(s) && Sessions(s) && DoneSettles(s) && StopEnabled(s, i)
    ensures DoneSettles(StepStop(s, i))
  {
    AllTakenStay(s, StopStep(i));
    StopLeavesDones(s, i);
    var t := StepStop(s, i);
    if s.stops[i].CasCheck? && s.checking { assert t.stops[i] == FireEnd(Current(s)); }
    DoneKept(s, t);
  }

  /** Outside a session, nothing is being worked on. */
  lemma DoneAtRest(s: State, t: State)
    requires DoneSettles(s) && !InSession(LastPc(s)) && !InSession(LastPc(t))
    requires t.begun == s.begun && t.log.dones == s.log.dones
    requires forall n: nat :: Taken(BooksOf(s), n) ==> Taken(BooksOf(t), n)
    ensures DoneSettles(t)
  {}

  lemma DoneClient(s: State, throws: bool)
    requires Control(s) && Sessions(s) && DoneSettles(s) && ClientEnabled(s)
    ensures DoneSettles(StepClient(s, throws))
  {
    AllTakenStay(s, ClientStep(throws));
    ClientMoves(s, throws);
    DoneMove(s, StepClient(s, throws));
  }

  lemma DoneMove(s: State, t: State)
    requires Control(s) && DoneSettles(s) && ClientMove(s, t)
    requires forall n: nat :: Taken(BooksOf(s), n) ==> Taken(BooksOf(t), n)
    ensures DoneSettles(t)
  {
    if PastJoin(s.client) {
      assert |s.workers| > 0 ==> !Live(s, |s.workers| - 1);
      DoneAtRest(s, t);
    } else {
      DoneKept(s, t);
    }
  }

  lemma DoneStep(s: State, a: Action)
    requires Control(s) && Sessions(s) && DoneSettles(s) && Enabled(s, a)
    ensures DoneSettles(Apply(s, a))
  {
    match a
    case WorkerStep(k, answer) => DoneWorker(s, k, answer);
    case StopStep(i) => DoneStop(s, i);
    case ClientStep(throws) => DoneClient(s, throws);
    case _ =>
      AllTakenStay(s, a);
      SilentStep(s, a);
  }

  lemma {:induction false} DoneRun(present: bool, acts: seq<Action>)
    ensures Exec(Init(present), acts).Some? ==> DoneSettles(Exec(Init(present), acts).value)
  {
    if acts != [] && Exec(Init(present), acts).Some? {
      var prefix := acts[..|acts| - 1];
      DoneRun(present, prefix);
      InvRun(Init(present), prefix);
      DoneStep(Exec(Init(present), prefix).value, acts[|acts| - 1]);
    }
  }

  /** A done signal ends its session: unless it is still being worked on, the check flag is down and
      the session's on_end has been called, or is owed by the thread whose CAS took it. */
  lemma {:induction false} DoneEndsSession(s: State, n: nat)
    requires Reachable(s) && n in s.log.dones && !Settling(LastPc(s))
    ensures n in EndsIn(s.trace) || FireEnd(n) in s.stops || LastPc(s) == AtSignalEnd(n)
    ensures n == Current(s) ==> !s.checking
  {
    DoneReachable(s);
    InvReachable(s);
    DoneIsTaken(s, n);
  }

  lemma {:induction false} DoneReachable(s: State)
    requires Reachable(s)
    ensures DoneSettles(s)
  {
    var present, acts :| Exec(Init(present), acts) == Some(s);
    DoneRun(present, acts);
  }

  lemma {:induction false} DoneIsTaken(s: State, n: nat)
    requires DoneSettles(s) && Unique(BooksOf(s)) && s.ends == EndsIn(s.trace)
    requires n in s.log.dones && !Settling(LastPc(s))
    ensures n in EndsIn(s.trace) || FireEnd(n) in s.stops || LastPc(s) == AtSignalEnd(n)
    ensures n == Current(s) ==> !s.checking
  {
    assert Taken(BooksOf(s), n);
  }

  // ----- only a done signal or a stop ends a session --------------------------------------------------

  /** Every session taken has had a done signal or was taken by a stop, and the worker takes none
      without a done signal. */
  ghost predicate TakenFor(s: State) {
    && (forall n: nat :: Taken(BooksOf(s), n) ==> n in s.log.dones || n in s.log.stopped)
    && AtDone(s)
  }

  /** What an entry in the books newly takes. */
  lemma NewlyTaken(b: Books, e: Entry, n: nat)
    requires CanPost(b, e) && Taken(Post(b, e), n)
    ensures Taken(b, n) || (n == Latest(b.begun) && (e.WorkerTake? || e.StopTake?))
  {
    if e.StopFire? { assert b.stops[e.i] in b.stops; }
  }

  predicate AtDone(s: State) {
    Settling(LastPc(s)) ==> Current(s) in s.log.dones
  }

  /** A step that makes entry `e`, and takes a session only for a reason. */
  lemma TakenForBy(s: State, t: State, e: Entry)
    requires TakenFor(s) && CanPost(BooksOf(s), e) && BooksOf(t) == Post(BooksOf(s), e) && AtDone(t)
    requires s.log.dones <= t.log.dones && s.log.stopped <= t.log.stopped
    requires e.WorkerTake? ==> Current(s) in t.log.dones
    requires e.StopTake? ==> Current(s) in t.log.stopped
    ensures TakenFor(t)
  {
    forall n: nat | Taken(BooksOf(t), n)
      ensures n in t.log.dones || n in t.log.stopped
    {
      NewlyTaken(BooksOf(s), e, n);
    }
  }

  lemma AtDoneWorker(s: State, k: nat, answer: Answer)
    requires Control(s) && AtDone(s) && Live(s, k)
    ensures AtDone(StepWorker(s, k, answer)) && s.log.dones <= StepWorker(s, k, answer).log.dones
    ensures StepWorker(s, k, answer).log.stopped == s.log.stopped
    ensures k == |s.workers| - 1
  {
    ControlWorker(s, k, answer);
  }

  lemma TakenForWorker(s: State, k: nat, answer: Answer)
    requires Control(s) && Sessions(s) && TakenFor(s) && Live(s, k)
    ensures TakenFor(StepWorker(s, k, answer))
  {
    AtDoneWorker(s, k, answer);
    PostsStep(s, WorkerStep(k, answer));
    TakenForBy(s, StepWorker(s, k, answer), EntryOf(s, WorkerStep(k, answer)));
  }

  lemma StopLeavesDones(s: State, i: nat)
    requires StopEnabled(s, i)
    ensures var t := StepStop(s, i);
            && LastPc(t) == LastPc(s) && t.begun == s.begun && t.log.dones == s.log.dones && t.lapsed == s.lapsed
            && t.log.stopped == s.log.stopped + (if s.stops[i].CasCheck? && s.checking then {Current(s)} else {})
            && (t.checking <==> s.checking && !s.stops[i].CasCheck?)
  {}

  lemma TakenForStop(s: State, i: nat)
    requires Control(s) && Sessions(s) && TakenFor(s) && StopEnabled(s, i)
    ensures TakenFor(StepStop(s, i))
  {
    StopLeavesDones(s, i);
    PostsStep(s, StopStep(i));
    TakenForBy(s, StepStop(s, i), EntryOf(s, StopStep(i)));
  }

  lemma TakenForClient(s: State, throws: bool)
    requires Control(s) && Sessions(s) && TakenFor(s) && ClientEnabled(s)
    ensures TakenFor(StepClient(s, throws))
  {
    PostsStep(s, ClientStep(throws));
    ClientMoves(s, throws);
    if PastJoin(s.client) && |s.workers| > 0 { assert !Live(s, |s.workers| - 1); }
    TakenForBy(s, StepClient(s, throws), EntryOf(s, ClientStep(throws)));
  }

  lemma TakenForCalls(s: State, a: Action)
    requires Control(s) && Sessions(s) && TakenFor(s) && Enabled(s, a)
    requires a.CallStart? || a.CallStop? || a.CallDestroy?
    ensures TakenFor(Apply(s, a))
  {
    PostsStep(s, a);
    SilentStep(s, a);
    TakenForBy(s, Apply(s, a), EntryOf(s, a));
  }

  lemma {:induction false} TakenForRun(present: bool, acts: seq<Action>)
    ensures Exec(Init(present), acts).Some? ==> TakenFor(Exec(Init(present), acts).value)
  {
    if acts != [] && Exec(Init(present), acts).Some? {
      var prefix, a := acts[..|acts| - 1], acts[|acts| - 1];
      var s := Exec(Init(present), prefix).value;
      TakenForRun(present, prefix);
      InvRun(Init(present), prefix);
      match a
      case WorkerStep(k, answer) => TakenForWorker(s, k, answer);
      case StopStep(i) => TakenForStop(s, i);
      case ClientStep(throws) => TakenForClient(s, throws);
      case _ => TakenForCalls(s, a);
    }
  }

  /** on_end is called only for a session that had a done signal or that a stop took. */
  lemma {:induction false} EndNeedsDoneOrStop(s: State, n: nat)
    requires Reachable(s) && n in EndsIn(s.trace)
    ensures n in s.log.dones || n in s.log.stopped
  {
    var present, acts :| Exec(Init(present), acts) == Some(s);
    TakenForRun(present, acts);
    InvReachable(s);
    assert Taken(BooksOf(s), n);
  }

  // ----- every signal, session and stop has its callback ----------------------------------------------

  /** How often a callback was made. */
  function Count(trace: seq<Event>, e: Event): nat {
    if trace == [] then 0 else Count(trace[..|trace| - 1], e) + Bit(trace[|trace| - 1] == e)
  }

  lemma {:induction false} CountGrows(trace: seq<Event>, c: seq<Event>, e: Event)
    requires |c| <= 1
    ensures Count(trace + c, e) == Count(trace, e) + Bit(c == [e])
  {
    if c == [] { assert trace + c == trace; } else { assert (trace + c)[..|trace|] == trace; }
  }

  function FailedStarts(calls: seq<Call>): nat {
    if calls == [] then 0 else FailedStarts(calls[..|calls| - 1]) + Bit(calls[|calls| - 1] == VerifyStart(false))
  }

  lemma {:induction false} FailedStartsGrow(calls: seq<Call>, c: seq<Call>)
    requires |c| <= 1
    ensures FailedStarts(calls + c) == FailedStarts(calls) + Bit(c == [VerifyStart(false)])
  {
    if c == [] { assert calls + c == calls; } else { assert (calls + c)[..|calls|] == calls; }
  }

  /** Stops that have taken a session and have still to call on_stop. */
  function StopsOwed(stops: seq<StopPc>): nat {
    if stops == [] then 0 else StopsOwed(stops[..|stops| - 1]) + Bit(OwesStop(stops[|stops| - 1]))
  }

  predicate OwesStop(pc: StopPc) {
    pc.FireEnd? || pc.FireStop?
  }

  lemma {:induction false} StopsOwedSnoc(xs: seq<StopPc>, x: StopPc)
    ensures StopsOwed(xs + [x]) == StopsOwed(xs) + Bit(OwesStop(x))
  {
    assert (xs + [x])[..|xs|] == xs;
  }

  lemma {:induction false} StopsOwedUpdate(xs: seq<StopPc>, i: nat, x: StopPc)
    requires i < |xs|
    ensures StopsOwed(xs[i := x]) + Bit(OwesStop(xs[i])) == StopsOwed(xs) + Bit(OwesStop(x))
  {
    var n := |xs| - 1;
    if i == n {
      assert xs[i := x][..n] == xs[..n];
    } else {
      StopsOwedUpdate(xs[..n], i, x);
      assert xs[i := x][..n] == xs[..n][i := x];
    }
  }

  /** The callback the worker is about to make, if any. */
  function Due(s: State): seq<Event> {
    Callback(LastPc(s))
  }

  /** A no-match signal has on_error(NotMatch), any other signal and any failed VerifyStart
      on_error(System), a session on_loop, and a session taken by a stop on_stop. */
  ghost predicate Told(s: State) {
    && s.log.noMatches == Count(s.trace, OnError(NotMatch)) + Bit(Due(s) == [OnError(NotMatch)])
    && s.log.others + FailedStarts(s.calls) == Count(s.trace, OnError(System)) + Bit(Due(s) == [OnError(System)])
    && s.begun == Count(s.trace, OnLoop) + Bit(Due(s) == [OnLoop])
    && s.log.stopTakes == Count(s.trace, OnStop) + StopsOwed(s.stops)
  }

  /** One step that makes the callback `c` and the device call `d`, or none. */
  ghost predicate Tells(s: State, t: State, c: seq<Event>, d: seq<Call>) {
    && |c| <= 1 && |d| <= 1 && t.trace == s.trace + c && t.calls == s.calls + d
    && TellsNoMatch(s, t, c) && TellsOther(s, t, c, d) && TellsLoop(s, t, c)
    && t.log.stopTakes + StopsOwed(s.stops) == s.log.stopTakes + StopsOwed(t.stops) + Bit(c == [OnStop])
  }

  predicate TellsNoMatch(s: State, t: State, c: seq<Event>) {
    t.log.noMatches + Bit(Due(s) == [OnError(NotMatch)])
    == s.log.noMatches + Bit(c == [OnError(NotMatch)]) + Bit(Due(t) == [OnError(NotMatch)])
  }

  predicate TellsOther(s: State, t: State, c: seq<Event>, d: seq<Call>) {
    t.log.others + Bit(d == [VerifyStart(false)]) + Bit(Due(s) == [OnError(System)])
    == s.log.others + Bit(c == [OnError(System)]) + Bit(Due(t) == [OnError(System)])
  }

  predicate TellsLoop(s: State, t: State, c: seq<Event>) {
    t.begun + Bit(Due(s) == [OnLoop]) == s.begun + Bit(c == [OnLoop]) + Bit(Due(t) == [OnLoop])
  }

  lemma {:induction false} ToldBy(s: State, t: State, c: seq<Event>, d: seq<Call>)
    requires Told(s) && Tells(s, t, c, d)
    ensures Told(t)
  {
    CountGrows(s.trace, c, OnError(NotMatch));
    CountGrows(s.trace, c, OnError(System));
    CountGrows(s.trace, c, OnLoop);
    CountGrows(s.trace, c, OnStop);
    FailedStartsGrow(s.calls, d);
  }

  lemma WorkerTellsNoMatch(s: State, k: nat, answer: Answer)
    requires Live(s, k) && k == |s.workers| - 1
    ensures TellsNoMatch(s, StepWorker(s, k, answer), Callback(s.workers[k].pc))
  {}

  lemma WorkerTellsOther(s: State, k: nat, answer: Answer)
    requires Live(s, k) && k == |s.workers| - 1
    ensures var pc := s.workers[k].pc;
            TellsOther(s, StepWorker(s, k, answer), Callback(pc), DeviceCall(pc, answer))
  {}

  lemma WorkerTellsLoop(s: State, k: nat, answer: Answer)
    requires Live(s, k) && k == |s.workers| - 1
    ensures TellsLoop(s, StepWorker(s, k, answer), Callback(s.workers[k].pc))
  {}

  lemma {:induction false} TellsWorker(s: State, k: nat, answer: Answer)
    requires Control(s) && Live(s, k)
    ensures var pc := s.workers[k].pc;
            Tells(s, StepWorker(s, k, answer), Callback(pc), DeviceCall(pc, answer))
  {
    ControlWorker(s, k, answer);
    WorkerTellsNoMatch(s, k, answer);
    WorkerTellsOther(s, k, answer);
    WorkerTellsLoop(s, k, answer);
    WorkerSaysLittle(s, k, answer);
  }

  lemma WorkerSaysLittle(s: State, k: nat, answer: Answer)
    requires Live(s, k)
    ensures var pc, t := s.workers[k].pc, StepWorker(s, k, answer);
            && |Callback(pc)| <= 1 && |DeviceCall(pc, answer)| <= 1 && Callback(pc) != [OnStop]
            && t.stops == s.stops && t.log.stopTakes == s.log.stopTakes
            && t.trace == s.trace + Callback(pc) && t.calls == s.calls + DeviceCall(pc, answer)
  {}

  lemma StopSaysLittle(s: State, i: nat)
    requires StopEnabled(s, i)
    ensures var t := StepStop(s, i);
            && LastPc(t) == LastPc(s) && t.begun == s.begun && t.calls == s.calls
            && t.trace == s.trace + Spoken(s.stops[i]) && |t.stops| == |s.stops| && t.stops == s.stops[i := t.stops[i]]
            && t.log.noMatches == s.log.noMatches && t.log.others == s.log.others
            && t.log.stopTakes + Bit(OwesStop(s.stops[i]))
               == s.log.stopTakes + Bit(OwesStop(t.stops[i])) + Bit(s.stops[i].FireStop?)
  {}

  lemma {:induction false} TellsStop(s: State, i: nat)
    requires StopEnabled(s, i)
    ensures Tells(s, StepStop(s, i), Spoken(s.stops[i]), [])
  {
    StopSaysLittle(s, i);
    StopsOwedUpdate(s.stops, i, StepStop(s, i).stops[i]);
  }

  lemma {:induction false} TellsClient(s: State, t: State)
    requires Control(s) && ClientMove(s, t)
    ensures Tells(s, t, Announce(s.client), if s.client.DestroyRelease? && s.present then [Release] else [])
  {
    if PastJoin(s.client) && |s.workers| > 0 { assert !Live(s, |s.workers| - 1); }
  }

  lemma {:induction false} ToldSame(s: State, t: State)
    requires Told(s) && t.workers == s.workers && t.trace == s.trace && t.calls == s.calls && t.log == s.log
    requires t.begun == s.begun && (t.stops == s.stops || t.stops == s.stops + [CasRun])
    ensures Told(t)
  {
    StopsOwedSnoc(s.stops, CasRun);
  }

  lemma {:induction false} ToldClient(s: State, throws: bool)
    requires Control(s) && Told(s) && ClientEnabled(s)
    ensures Told(StepClient(s, throws))
  {
    var t := StepClient(s, throws);
    ClientMoves(s, throws);
    TellsClient(s, t);
    ToldBy(s, t, Announce(s.client), if s.client.DestroyRelease? && s.present then [Release] else []);
  }

  lemma {:induction false} ToldWorker(s: State, k: nat, answer: Answer)
    requires Control(s) && Told(s) && Live(s, k)
    ensures Told(StepWorker(s, k, answer))
  {
    TellsWorker(s, k, answer);
    ToldBy(s, StepWorker(s, k, answer), Callback(s.workers[k].pc), DeviceCall(s.workers[k].pc, answer));
  }

  lemma {:induction false} ToldStop(s: State, i: nat)
    requires Told(s) && StopEnabled(s, i)
    ensures Told(StepStop(s, i))
  {
    TellsStop(s, i);
    ToldBy(s, StepStop(s, i), Spoken(s.stops[i]), []);
  }

  lemma {:induction false} ToldStep(s: State, a: Action)
    requires Control(s) && Told(s) && Enabled(s, a)
    ensures Told(Apply(s, a))
  {
    match a
    case WorkerStep(k, answer) => ToldWorker(s, k, answer);
    case StopStep(i) => ToldStop(s, i);
    case ClientStep(throws) => ToldClient(s, throws);
    case _ => ToldSame(s, Apply(s, a));
  }

  lemma {:induction false} ToldRun(present: bool, acts: seq<Action>)
    ensures Exec(Init(present), acts).Some? ==> Told(Exec(Init(present), acts).value)
  {
    if acts != [] && Exec(Init(present), acts).Some? {
      var prefix := acts[..|acts| - 1];
      ToldRun(present, prefix);
      InvRun(Init(present), prefix);
      ToldStep(Exec(Init(present), prefix).value, acts[|acts| - 1]);
    }
  }

  /** Every happening has its callback, exactly once and but for one about to be made. */
  lemma {:induction false} EverythingIsTold(s: State)
    requires Reachable(s)
    ensures Told(s)
  {
    var present, acts :| Exec(Init(present), acts) == Some(s);
    ToldRun(present, acts);
  }

  // ----- what the worker does while nobody interferes ------------------------------------------------

  /** The worker alone, `n` steps, every call answered well and no signal delivered. */
  function Solo(s: State, k: nat, n: nat): State
    decreases n
  {
    if n == 0 || !Live(s, k) then s else Solo(StepWorker(s, k, Fine), k, n - 1)
  }

  /** While the flag is up and its session is open, the worker keeps processing messages. */
  lemma OpenSessionListens(s: State, k: nat)
    requires Live(s, k) && s.workers[k].pc.AtInnerRun? && s.running && s.checking
    ensures var t := Solo(s, k, 2);
            && t == s.(workers := s.workers[k := Worker(AtProcess, false)])
            && Live(Solo(t, k, 1), k) && Solo(t, k, 1).workers[k].pc.AtInnerRun?
  {
    var s1 := StepWorker(s, k, Fine);
    var s2 := StepWorker(s1, k, Fine);
    assert Solo(s, k, 2) == Solo(s1, k, 1) == Solo(s2, k, 0) == s2;
    assert s.trace + [] == s.trace && s.calls + [] == s.calls;
  }

  /** Once its session is over and the flag is still up, it stops the device and starts it anew. */
  lemma EndedSessionRescans(s: State, k: nat)
    requires Live(s, k) && s.workers[k].pc.AtInnerRun? && s.running && !s.checking && s.present
    ensures var t := Solo(s, k, 5);
            && t.calls == s.calls + [VerifyStop, VerifyStart(true)] && t.trace == s.trace
            && Live(t, k) && t.workers[k].pc.AtOpen?
  {
    var s1 := StepWorker(s, k, Fine);
    var s2 := StepWorker(s1, k, Fine);
    var s3 := StepWorker(s2, k, Fine);
    var s4 := StepWorker(s3, k, Fine);
    var s5 := StepWorker(s4, k, Fine);
    assert Solo(s, k, 5) == Solo(s1, k, 4) == Solo(s2, k, 3) == Solo(s3, k, 2) == Solo(s4, k, 1) == Solo(s5, k, 0);
  }

  // ----- start ---------------------------------------------------------------------------------------

  /** A start is refused exactly if a worker has not been joined and the flag is up. */
  lemma StartIsRefusedIff(s: State, throws: bool)
    requires Reachable(s) && s.client.StartCheck?
    ensures var t := StepClient(s, throws);
            && (t.client.Idle? <==> s.handle.Some? && s.running)
            && t == s.(client := t.client)
  {
    assert s.trace + [] == s.trace;
  }

  /** One that is not refused raises the flag, lowers the check flag, announces itself and spawns a
      worker, if nobody interferes and no exception comes. */
  lemma StartSpawns(s: State)
    requires s.client.StartRaise?
    ensures var t := StepClient(StepClient(StepClient(StepClient(s, false), false), false), false);
            && t.running && !t.checking && t.trace == s.trace + [OnStart] && t.client.Idle?
            && t.workers == s.workers + [Worker(AtHead, false)] && t.handle == Some(|s.workers|)
  {
    var s1 := StepClient(s, false);
    var s2 := StepClient(s1, false);
    var s3 := StepClient(s2, false);
    assert s3.client.StartSpawn? && s3.trace == s.trace + [OnStart];
  }

  // ----- stop ------------------------------------------------------------------------------------------

  /** A stop lowers both flags, and if a session was open it calls on_end and then on_stop. */
  lemma StopAloneEnds(s: State, i: nat)
    requires StopEnabled(s, i) && s.stops[i].CasRun?
    ensures var t := StepStop(StepStop(s, i), i);
            && !t.running && !t.checking && t.trace == s.trace
            && (if s.checking then t.stops == s.stops[i := FireEnd(Current(s))] else t.stops == s.stops[i := StopDone])
  {
    var s1 := StepStop(s, i);
    assert s1.stops == s.stops[i := CasCheck];
  }

  lemma StopAloneTells(s: State, i: nat)
    requires StopEnabled(s, i) && s.stops[i].FireEnd?
    ensures var t := StepStop(StepStop(s, i), i);
            t.trace == s.trace + [OnEnd(s.stops[i].session), OnStop] && t.stops == s.stops[i := StopDone]
  {
    var s1 := StepStop(s, i);
    assert s1.stops == s.stops[i := FireStop];
  }

  function StopCalls(acts: seq<Action>): nat {
    if acts == [] then 0
    else StopCalls(acts[..|acts| - 1]) + Bit(acts[|acts| - 1].CallStop? || acts[|acts| - 1].CallDestroy?)
  }

  lemma StopsGrow(s: State, a: Action)
    requires Enabled(s, a)
    ensures |Apply(s, a).stops| == |s.stops| + Bit(a.CallStop? || a.CallDestroy?)
    ensures a.CallStop? || a.CallDestroy? ==> Apply(s, a).stops[|s.stops|].CasRun?
  {
    match a
    case StopStep(i) => StopSaysLittle(s, i);
    case ClientStep(throws) => ClientKeepsBooks(s, throws);
    case _ =>
  }

  /** Every call of stop, the destructor's included, is carried out. */
  lemma {:induction false} StopsAreThoseCalled(present: bool, acts: seq<Action>)
    requires Exec(Init(present), acts).Some?
    ensures |Exec(Init(present), acts).value.stops| == StopCalls(acts)
  {
    if acts != [] {
      var prefix := acts[..|acts| - 1];
      StopsAreThoseCalled(present, prefix);
      StopsGrow(Exec(Init(present), prefix).value, acts[|acts| - 1]);
    }
  }

  /** When processing messages fails, the worker gives the session up and stops the device. */
  lemma FailedProcessingGivesUp(s: State, k: nat)
    requires Live(s, k) && s.workers[k].pc.AtProcess?
    ensures var t := Solo(StepWorker(s, k, Fail), k, 1);
            t.calls == s.calls + [VerifyStop] && t.checking == s.checking && t.trace == s.trace
  {
    var s1 := StepWorker(s, k, Fail);
    assert Solo(s1, k, 1) == Solo(StepWorker(s1, k, Fine), k, 0);
  }

  // ----- the device, the flag and the end of the object ----------------------------------------------------

  function BrokeCount(workers: seq<Worker>): nat {
    if workers == [] then 0 else BrokeCount(workers[..|workers| - 1]) + Bit(workers[|workers| - 1].broke)
  }

  predicate Starting(c: ClientPc) {
    c.StartReset? || c.StartReport? || c.StartSpawn? || c.StartCatch?
  }

  /** Without a device nothing is asked of it, and every worker that broke off has said so. */
  ghost predicate Missed(s: State) {
    if s.present then Count(s.trace, OnError(NotFound)) == 0 && !LastPc(s).AtMissing?
    else s.calls == [] && Count(s.trace, OnError(NotFound)) == BrokeCount(s.workers) && Absent(LastPc(s))
  }

  /** on_delete comes with the end. */
  ghost predicate Deleted(s: State) {
    Count(s.trace, OnDelete) == Bit(s.client.Gone?)
  }

  /** The flag is up only with a worker to join or a start under way. */
  predicate FlagIsOwned(s: State) {
    (s.running ==> s.handle.Some? || Starting(s.client)) && (s.client.StartJoin? ==> !s.running)
  }

  ghost predicate Housekept(s: State) {
    Missed(s) && Deleted(s) && FlagIsOwned(s)
  }

  /** The points a worker without a device can be at, other than a release by the destructor. */
  predicate Absent(pc: WorkerPc) {
    pc.AtHead? || pc.AtMissing? || pc.Ended?
  }

  lemma {:induction false} BrokeCountLast(workers: seq<Worker>, w: Worker)
    requires workers != []
    ensures BrokeCount(workers[|workers| - 1 := w]) + Bit(workers[|workers| - 1].broke)
            == BrokeCount(workers) + Bit(w.broke)
  {
    assert workers[|workers| - 1 := w][..|workers| - 1] == workers[..|workers| - 1];
  }

  lemma {:induction false} BrokeCountSnoc(workers: seq<Worker>, w: Worker)
    ensures BrokeCount(workers + [w]) == BrokeCount(workers) + Bit(w.broke)
  {
    assert (workers + [w])[..|workers|] == workers;
  }

  lemma {:induction false} DeletedBy(s: State, t: State, c: seq<Event>)
    requires Deleted(s) && |c| <= 1 && t.trace == s.trace + c
    requires Bit(t.client.Gone?) == Bit(s.client.Gone?) + Bit(c == [OnDelete])
    ensures Deleted(t)
  {
    CountGrows(s.trace, c, OnDelete);
  }

  lemma {:induction false} MissedBy(s: State, t: State, c: seq<Event>)
    requires Missed(s) && |c| <= 1 && t.trace == s.trace + c && t.present == s.present
    requires s.present ==> c != [OnError(NotFound)] && !LastPc(t).AtMissing?
    requires !s.present ==> t.calls == s.calls && Absent(LastPc(t))
    requires !s.present ==> BrokeCount(t.workers) == BrokeCount(s.workers) + Bit(c == [OnError(NotFound)])
    ensures Missed(t)
  {
    CountGrows(s.trace, c, OnError(NotFound));
  }

  lemma {:induction false} HousekeptWorker(s: State, k: nat, answer: Answer)
    requires Control(s) && Flag(s) && Housekept(s) && Live(s, k)
    ensures Housekept(StepWorker(s, k, answer))
  {
    ControlWorker(s, k, answer);
    var t := StepWorker(s, k, answer);
    BrokeCountLast(s.workers, t.workers[k]);
    WorkerKeepsHouse(s, k, answer);
    DeletedBy(s, t, Callback(s.workers[k].pc));
    MissedBy(s, t, Callback(s.workers[k].pc));
  }

  lemma WorkerKeepsHouse(s: State, k: nat, answer: Answer)
    requires Live(s, k) && k == |s.workers| - 1
    requires if s.present then !s.workers[k].pc.AtMissing? else Absent(s.workers[k].pc)
    ensures var pc, t := s.workers[k].pc, StepWorker(s, k, answer);
            && t.running == s.running && t.handle == s.handle && t.client == s.client && t.present == s.present
            && t.trace == s.trace + Callback(pc) && |Callback(pc)| <= 1 && Callback(pc) != [OnDelete]
            && t.workers == s.workers[k := t.workers[k]]
            && (if s.present then !LastPc(t).AtMissing? && Callback(pc) != [OnError(NotFound)]
                else Absent(LastPc(t)) && t.calls == s.calls
                     && (t.workers[k].broke <==> Callback(pc) == [OnError(NotFound)]))
  {
    assert s.calls + [] == s.calls;
  }

  lemma ClientKeepsHouse(s: State, throws: bool)
    requires ClientEnabled(s) && Control(s) && FlagIsOwned(s)
    ensures FlagIsOwned(StepClient(s, throws))
  {}

  lemma {:induction false} ClientLeavesDevice(s: State, t: State)
    requires ClientCalls(s, t) && !s.client.Gone?
    ensures |Announce(s.client)| <= 1 && Announce(s.client) != [OnError(NotFound)]
    ensures LastPc(t) == LastPc(s) || LastPc(t).AtHead?
    ensures BrokeCount(t.workers) == BrokeCount(s.workers) && (!s.present ==> t.calls == s.calls)
    ensures Bit(t.client.Gone?) == Bit(s.client.Gone?) + Bit(Announce(s.client) == [OnDelete])
  {
    BrokeCountSnoc(s.workers, Worker(AtHead, false));
  }

  lemma {:induction false} HousekeptClient(s: State, throws: bool)
    requires Control(s) && Housekept(s) && ClientEnabled(s)
    ensures Housekept(StepClient(s, throws))
  {
    var t := StepClient(s, throws);
    ClientKeepsHouse(s, throws);
    ClientMakesCalls(s, throws);
    ClientLeavesDevice(s, t);
    DeletedBy(s, t, Announce(s.client));
    MissedBy(s, t, Announce(s.client));
  }

  lemma {:induction false} HousekeptStop(s: State, i: nat)
    requires Housekept(s) && StopEnabled(s, i)
    ensures Housekept(StepStop(s, i))
  {
    StopSaysLittle(s, i);
    StopKeepsHouse(s, i);
    DeletedBy(s, StepStop(s, i), Spoken(s.stops[i]));
    MissedBy(s, StepStop(s, i), Spoken(s.stops[i]));
  }

  lemma StopKeepsHouse(s: State, i: nat)
    requires StopEnabled(s, i)
    ensures var t := StepStop(s, i);
            && t.workers == s.workers && t.present == s.present && t.handle == s.handle && t.client == s.client
            && (t.running ==> s.running)
  {}

  lemma {:induction false} HousekeptStep(s: State, a: Action)
    requires Control(s) && Flag(s) && Housekept(s) && Enabled(s, a)
    ensures Housekept(Apply(s, a))
  {
    match a
    case WorkerStep(k, answer) => HousekeptWorker(s, k, answer);
    case ClientStep(throws) => HousekeptClient(s, throws);
    case StopStep(i) => HousekeptStop(s, i);
    case _ =>
  }

  lemma {:induction false} HousekeptRun(present: bool, acts: seq<Action>)
    ensures Exec(Init(present), acts).Some? ==> Housekept(Exec(Init(present), acts).value)
  {
    if acts != [] && Exec(Init(present), acts).Some? {
      var prefix := acts[..|acts| - 1];
      HousekeptRun(present, prefix);
      InvRun(Init(present), prefix);
      HousekeptStep(Exec(Init(present), prefix).value, acts[|acts| - 1]);
    }
  }

  lemma {:induction false} HouseIsKept(s: State)
    requires Reachable(s)
    ensures Housekept(s)
  {
    var present, acts :| Exec(Init(present), acts) == Some(s);
    HousekeptRun(present, acts);
  }
}
