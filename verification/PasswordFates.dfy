/** Who may kill a child of `auth::Password`, and which passwords its workers get. */
module PasswordFates {
  import opened Common
  import opened Password
  import opened PasswordInvariants

  /** The worker's verify found no live worker, and neither a stop nor a verify has won its CAS since. */
  predicate Clean(w: Worker) {
    w.past.held && !w.past.overlapped
  }

  // ----- the invariant ----------------------------------------------------------------------------

  /** Later workers have later children. */
  ghost predicate Ascending(s: State) {
    forall j, k :: 0 <= j < k < |s.workers| && s.workers[k].child > 0 ==>
      s.workers[j].child < s.workers[k].child
  }

  /** Stop `i` took pid `p`, and is about to kill it or has done so. */
  predicate TookIt(s: State, p: nat, i: nat) {
    i < |s.stops| && i in s.log.wonAt
    && (s.stops[i] == StopKill(p) || (s.stops[i].StopDone? && !Alive(s, p)))
  }

  predicate KilledAt(s: State, p: nat) {
    1 <= p <= |s.children| && s.children[p - 1].status.Killed?
  }

  ghost predicate Takers(s: State) {
    && (forall p :: p in s.log.takers <==> p in s.taken)
    && (forall p :: p in s.log.takers && s.log.takers[p].ByStop? ==> TookIt(s, p, s.log.takers[p].call))
    && (forall p :: KilledAt(s, p) ==> p in s.taken)
  }

  /** A stop past its CAS has won it, after no more verifies than there were. */
  ghost predicate Won(s: State) {
    && (forall i :: 0 <= i < |s.stops| && (s.stops[i].StopExchange? || s.stops[i].StopKill?) ==> i in s.log.wonAt)
    && (forall i :: i in s.log.wonAt ==>
          i < |s.stops| && !s.stops[i].StopCas? && s.log.wonAt[i] <= s.log.verifies)
  }

  /** Every stop that has won its CAS did so before the last verify that has. */
  ghost predicate Unstopped(log: Log) {
    forall i :: i in log.wonAt ==> log.wonAt[i] < log.verifies
  }

  predicate Pending(c: ClientPc) {
    c.VerifyJoin? || c.VerifyAssign? || c.VerifySpawn?
  }

  ghost predicate Untouched(s: State) {
    && (LastLive(s) && Clean(s.workers[|s.workers| - 1]) ==>
          var w := s.workers[|s.workers| - 1];
          w.past.number == s.log.verifies && Unstopped(s.log) && !w.pc.AtTake? && !w.pc.AtSelfKill?)
    && (Pending(s.client) && s.client.claim.Kept? ==> Unstopped(s.log))
  }

  /** The child of a clean worker is taken by no one but a stop that won before its verify. */
  ghost predicate Fate(s: State, k: nat)
    requires k < |s.workers|
  {
    var w := s.workers[k];
    Clean(w) && w.child in s.log.takers ==>
      && s.log.takers[w.child].ByStop? && s.log.takers[w.child].call in s.log.wonAt
      && s.log.wonAt[s.log.takers[w.child].call] < w.past.number
  }

  ghost predicate Fates(s: State) {
    && Ascending(s) && Takers(s) && Won(s) && Untouched(s)
    && forall k :: 0 <= k < |s.workers| ==> Fate(s, k)
  }

  // ----- children and numbers -----------------------------------------------------------------------

  lemma AscendingQuiet(s: State, t: State)
    requires Ascending(s) && Quiet(s, t)
    ensures Ascending(t)
  {
    assert forall j :: 0 <= j < |s.workers| ==> t.workers[j].child == s.workers[j].child;
  }

  lemma AscendingWorker(s: State, k: nat, fails: bool)
    requires Control(s) && Pids(s) && Ascending(s) && WorkerEnabled(s, k, fails)
    ensures Ascending(StepWorker(s, k, fails))
  {
    ControlWorker(s, k, fails);
    var t := StepWorker(s, k, fails);
    forall j | 0 <= j < k
      ensures t.workers[k].child > 0 ==> t.workers[j].child < t.workers[k].child
    {
      assert ChildOf(s, j) && t.workers[j] == s.workers[j];
      assert s.workers[k].child > 0 ==> s.workers[j].child < s.workers[k].child;
    }
    assert forall j :: 0 <= j < k ==> t.workers[j].child == s.workers[j].child;
  }

  lemma AscendingStep(s: State, a: Action)
    requires Control(s) && Pids(s) && Ascending(s) && Enabled(s, a)
    ensures Ascending(Apply(s, a))
  {
    if a.WorkerStep? {
      AscendingWorker(s, a.k, a.fails);
    } else {
      QuietStep(s, a);
      AscendingQuiet(s, Apply(s, a));
    }
  }

  // ----- steps of a stop -----------------------------------------------------------------------------

  lemma TakersCas(s: State, i: nat)
    requires Takers(s) && StopEnabled(s, i) && s.stops[i].StopCas?
    ensures Takers(StepStop(s, i))
  {
    var t := StepStop(s, i);
    assert t.log.takers == s.log.takers && t.taken == s.taken && t.children == s.children;
  }

  lemma TakersExchange(s: State, i: nat)
    requires Pids(s) && Takers(s) && Won(s) && StopEnabled(s, i) && s.stops[i].StopExchange?
    ensures Takers(StepStop(s, i))
  {
    var t := StepStop(s, i);
    assert t.children == s.children && t.stops == s.stops[i := StopKill(s.pid)];
  }

  lemma TakersKill(s: State, i: nat)
    requires Hands(s) && Takers(s) && StopEnabled(s, i) && s.stops[i].StopKill?
    ensures Takers(StepStop(s, i))
  {
    var t := StepStop(s, i);
    assert forall p :: Alive(t, p) ==> Alive(s, p);
    assert t.log == s.log && t.taken == s.taken && t.stops == s.stops[i := StopDone];
  }

  lemma TakersStop(s: State, i: nat)
    requires Pids(s) && Hands(s) && Takers(s) && Won(s) && StopEnabled(s, i)
    ensures Takers(StepStop(s, i))
  {
    match s.stops[i]
    case StopCas => TakersCas(s, i);
    case StopExchange => TakersExchange(s, i);
    case StopKill(_) => TakersKill(s, i);
  }

  lemma WonStop(s: State, i: nat)
    requires Won(s) && StopEnabled(s, i)
    ensures Won(StepStop(s, i))
  {}

  lemma UntouchedStop(s: State, i: nat)
    requires Untouched(s) && StopEnabled(s, i)
    ensures Untouched(StepStop(s, i))
  {}

  /** Nothing that the fate of worker `j` depends on has changed. */
  lemma FateKept(s: State, t: State, j: nat)
    requires j < |s.workers| && j < |t.workers| && Fate(s, j)
    requires t.workers[j].child == s.workers[j].child && t.workers[j].past.number == s.workers[j].past.number
    requires Clean(t.workers[j]) ==> Clean(s.workers[j])
    requires t.workers[j].child in t.log.takers ==> t.workers[j].child in s.log.takers
    requires forall p :: p in s.log.takers ==> p in t.log.takers && t.log.takers[p] == s.log.takers[p]
    requires forall i :: i in s.log.wonAt ==> i in t.log.wonAt && t.log.wonAt[i] == s.log.wonAt[i]
    ensures Fate(t, j)
  {}

  /** What a step of a stop leaves of a worker and of the log. */
  lemma StopLeavesFates(s: State, i: nat, j: nat)
    requires StopEnabled(s, i) && j < |s.workers| && (s.stops[i].StopCas? ==> i !in s.log.wonAt)
    requires s.pid > 0 ==> s.pid !in s.log.takers
    ensures var t := StepStop(s, i);
            && j < |t.workers| && t.workers[j].child == s.workers[j].child
            && t.workers[j].past.number == s.workers[j].past.number
            && (Clean(t.workers[j]) ==> Clean(s.workers[j]))
            && (forall p :: p in s.log.takers ==> p in t.log.takers && t.log.takers[p] == s.log.takers[p])
            && (forall p :: p in t.log.takers ==> p in s.log.takers || (s.stops[i].StopExchange? && p == s.pid > 0))
            && (forall n :: n in s.log.wonAt ==> n in t.log.wonAt && t.log.wonAt[n] == s.log.wonAt[n])
  {}

  /** The pid taken is that of the last worker, whose verify is the last that has won. */
  lemma FateExchange(s: State, i: nat)
    requires Won(s) && Untouched(s) && LastLive(s) && StopEnabled(s, i) && s.stops[i].StopExchange?
    requires s.pid == s.workers[|s.workers| - 1].child > 0
    ensures |StepStop(s, i).workers| == |s.workers| && Fate(StepStop(s, i), |s.workers| - 1)
  {
    assert i in s.log.wonAt;
    assert StepStop(s, i).log.takers[s.pid] == ByStop(i);
  }

  lemma FateStop(s: State, i: nat, j: nat)
    requires Pids(s) && Fates(s) && StopEnabled(s, i) && j < |s.workers| && Fate(s, j)
    ensures j < |StepStop(s, i).workers| && Fate(StepStop(s, i), j)
  {
    StopLeavesFates(s, i, j);
    if s.stops[i].StopExchange? && s.workers[j].child == s.pid > 0 {
      assert j < |s.workers| - 1 ==> s.workers[j].child < s.workers[|s.workers| - 1].child;
      FateExchange(s, i);
    } else {
      FateKept(s, StepStop(s, i), j);
    }
  }

  // ----- steps of a worker -----------------------------------------------------------------------------

  /** Nobody was taken, and no taken child came to life. */
  lemma TakersSame(s: State, t: State)
    requires Takers(s) && t.log.takers == s.log.takers && t.log.wonAt == s.log.wonAt
    requires t.taken == s.taken && s.stops <= t.stops
    requires forall p :: p in s.taken && Alive(t, p) ==> Alive(s, p)
    requires forall p :: KilledAt(t, p) ==> p in s.taken || KilledAt(s, p)
    ensures Takers(t)
  {
    assert forall i :: 0 <= i < |s.stops| ==> t.stops[i] == s.stops[i];
  }

  lemma TakersTake(s: State, k: nat)
    requires Control(s) && Pids(s) && Takers(s) && WorkerEnabled(s, k, false) && s.workers[k].pc.AtTake?
    ensures Takers(StepWorker(s, k, false))
  {
    var t := StepWorker(s, k, false);
    assert t.children == s.children && t.stops == s.stops;
  }

  /** Any other point of the worker takes nothing, and kills only what is in its hands. */
  lemma WorkerTakesNothing(s: State, k: nat, fails: bool)
    requires WorkerEnabled(s, k, fails) && !s.workers[k].pc.AtTake?
    ensures var pc, t := s.workers[k].pc, StepWorker(s, k, fails);
            && t.log == s.log && t.taken == s.taken && t.stops == s.stops
            && (forall p: nat :: Alive(t, p) ==> Alive(s, p) || p > |s.children|)
            && (forall p: nat :: KilledAt(t, p) ==> KilledAt(s, p) || (pc.AtSelfKill? && p == pc.victim))
  {}

  lemma TakersWorker(s: State, k: nat, fails: bool)
    requires Control(s) && Pids(s) && Hands(s) && Takers(s) && WorkerEnabled(s, k, fails)
    ensures Takers(StepWorker(s, k, fails))
  {
    ControlWorker(s, k, fails);
    if s.workers[k].pc.AtTake? {
      TakersTake(s, k);
      assert StepWorker(s, k, fails) == StepWorker(s, k, false);
    } else {
      WorkerTakesNothing(s, k, fails);
      TakersSame(s, StepWorker(s, k, fails));
    }
  }

  lemma UntouchedWorker(s: State, k: nat, fails: bool)
    requires Control(s) && Claims(s) && Untouched(s) && WorkerEnabled(s, k, fails)
    ensures Untouched(StepWorker(s, k, fails))
  {
    ControlWorker(s, k, fails);
  }

  lemma FateWorker(s: State, k: nat, fails: bool, j: nat)
    requires Control(s) && Pids(s) && Fates(s) && WorkerEnabled(s, k, fails) && j < |s.workers| && Fate(s, j)
    ensures Fate(StepWorker(s, k, fails), j)
  {
    ControlWorker(s, k, fails);
    var t := StepWorker(s, k, fails);
    if j != k {
      assert s.workers[k].child > 0 ==> s.workers[j].child < s.workers[k].child;
      FateKept(s, t, j);
    } else if !s.workers[k].pc.AtFork? && !s.workers[k].pc.AtTake? {
      FateKept(s, t, j);
    }
  }

  // ----- steps of the client -----------------------------------------------------------------------------

  lemma UntouchedClient(s: State, throws: bool)
    requires Control(s) && Won(s) && Untouched(s) && ClientEnabled(s)
    ensures Untouched(StepClient(s, throws))
  {
    if PastJoin(s.client) { assert !LastLive(s); }
  }

  lemma FateClient(s: State, throws: bool, j: nat)
    requires Fates(s) && ClientEnabled(s) && j < |StepClient(s, throws).workers|
    requires Pids(s)
    ensures Fate(StepClient(s, throws), j)
  {
    var t := StepClient(s, throws);
    if j < |s.workers| {
      assert Fate(s, j);
      FateKept(s, t, j);
    }
  }

  lemma WonStep(s: State, a: Action)
    requires Won(s) && Enabled(s, a)
    ensures Won(Apply(s, a))
  {
    if a.StopStep? { WonStop(s, a.call); } else { WonSame(s, Apply(s, a)); }
  }

  lemma WonSame(s: State, t: State)
    requires Won(s) && t.log.wonAt == s.log.wonAt && t.log.verifies >= s.log.verifies && s.stops <= t.stops
    requires forall i :: |s.stops| <= i < |t.stops| ==> t.stops[i].StopCas?
    ensures Won(t)
  {
    assert forall i :: 0 <= i < |s.stops| ==> t.stops[i] == s.stops[i];
  }

  lemma TakersStep(s: State, a: Action)
    requires Control(s) && Pids(s) && Hands(s) && Won(s) && Takers(s) && Enabled(s, a)
    ensures Takers(Apply(s, a))
  {
    match a
    case StopStep(i) => TakersStop(s, i);
    case WorkerStep(k, fails) => TakersWorker(s, k, fails);
    case _ => TakersCalls(s, a);
  }

  lemma CallsTakeNothing(s: State, a: Action)
    requires Enabled(s, a) && !a.StopStep? && !a.WorkerStep?
    ensures var t := Apply(s, a);
            && t.log.takers == s.log.takers && t.log.wonAt == s.log.wonAt && t.taken == s.taken
            && s.stops <= t.stops && |t.children| == |s.children|
            && (forall p :: Alive(t, p) ==> Alive(s, p))
            && (forall p :: KilledAt(t, p) ==> KilledAt(s, p))
  {}

  lemma TakersCalls(s: State, a: Action)
    requires Takers(s) && Enabled(s, a) && !a.StopStep? && !a.WorkerStep?
    ensures Takers(Apply(s, a))
  {
    CallsTakeNothing(s, a);
    TakersSame(s, Apply(s, a));
  }

  lemma UntouchedStep(s: State, a: Action)
    requires Control(s) && Claims(s) && Won(s) && Untouched(s) && Enabled(s, a)
    ensures Untouched(Apply(s, a))
  {
    match a
    case StopStep(i) => UntouchedStop(s, i);
    case WorkerStep(k, fails) => UntouchedWorker(s, k, fails);
    case ClientStep(throws) => UntouchedClient(s, throws);
    case _ =>
  }

  lemma FateStep(s: State, a: Action, j: nat)
    requires Inv(s) && Fates(s) && Enabled(s, a) && j < |Apply(s, a).workers|
    ensures Fate(Apply(s, a), j)
  {
    match a
    case StopStep(i) =>
      QuietStop(s, i);
      StopKeepsPcs(s, i);
      assert Fate(s, j);
      FateStop(s, i, j);
    case WorkerStep(k, fails) =>
      assert Fate(s, j);
      FateWorker(s, k, fails, j);
    case ClientStep(throws) => FateClient(s, throws, j);
    case _ =>
      assert Fate(s, j);
      FateKept(s, Apply(s, a), j);
  }

  lemma FatesStep(s: State, a: Action)
    requires Inv(s) && Fates(s) && Enabled(s, a)
    ensures Fates(Apply(s, a))
  {
    AscendingStep(s, a);
    WonStep(s, a);
    TakersStep(s, a);
    UntouchedStep(s, a);
    forall j | 0 <= j < |Apply(s, a).workers|
      ensures Fate(Apply(s, a), j)
    {
      FateStep(s, a, j);
    }
  }

  lemma {:induction false} FatesRun(acts: seq<Action>)
    ensures Exec(Init, acts).Some? ==> Fates(Exec(Init, acts).value)
  {
    if acts != [] && Exec(Init, acts).Some? {
      var prefix := acts[..|acts| - 1];
      FatesRun(prefix);
      InvRun(Init, prefix);
      FatesStep(Exec(Init, prefix).value, acts[|acts| - 1]);
    }
  }

  lemma {:induction false} FatesReachable(s: State)
    requires Reachable(s)
    ensures Fates(s)
  {
    var acts :| Exec(Init, acts) == Some(s);
    FatesRun(acts);
  }

  // ----- theorems -----------------------------------------------------------------------------------------

  /** A stop that had won its CAS before this worker's verify won its own made its exchange only after
      the worker had published its child. */
  ghost predicate TakenLate(s: State, k: nat)
    requires k < |s.workers|
  {
    var w := s.workers[k];
    exists i: nat :: w.child in s.taken && w.child in s.log.takers && s.log.takers[w.child] == ByStop(i)
                     && i in s.log.wonAt && s.log.wonAt[i] < w.past.number
  }

  /** A worker that still holds the flag, and was never overtaken, leaves its child alone, and so does
      everybody but a late stop. */
  lemma {:induction false} CleanChildIsSpared(s: State, k: nat)
    requires Reachable(s) && k < |s.workers| && Clean(s.workers[k]) && 1 <= s.workers[k].child <= |s.children|
    ensures s.workers[k].child in s.taken ==> TakenLate(s, k)
    ensures s.children[s.workers[k].child - 1].status.Killed? ==> TakenLate(s, k)
  {
    FatesReachable(s);
    FateIsLate(s, k);
  }

  lemma FateIsLate(s: State, k: nat)
    requires Fates(s) && k < |s.workers| && Clean(s.workers[k]) && 1 <= s.workers[k].child <= |s.children|
    ensures s.workers[k].child in s.taken ==> TakenLate(s, k)
    ensures s.children[s.workers[k].child - 1].status.Killed? ==> s.workers[k].child in s.taken
  {
    var w := s.workers[k];
    assert Fate(s, k);
    assert KilledAt(s, w.child) ==> w.child in s.taken;
    if w.child in s.taken {
      var i := s.log.takers[w.child].call;
      assert s.log.takers[w.child] == ByStop(i);
    }
  }

  /** Once such a worker has ended, and its wait did not fail, its child is dead and the verdict is
      what the child exited with by itself, unless a late stop took and killed it first: then,
      and only then, a password that was never stopped is refused without having been judged. */
  lemma CleanVerdictIsTheChilds(s: State, k: nat)
    requires Reachable(s) && k < |s.workers| && !Live(s, k) && Clean(s.workers[k])
    requires s.workers[k].child > 0 && !s.workers[k].waitFailed
    ensures 1 <= s.workers[k].child <= |s.children|
    ensures var status := s.children[s.workers[k].child - 1].status;
            && (status.Exited? || status.Killed?)
            && (status.Killed? <==> TakenLate(s, k) && !status.Exited?)
            && (OnFinish(k) in s.trace <==> status == Exited(true))
            && (OnError(k, AuthFailed) in s.trace <==> status == Exited(false) || status.Killed?)
  {
    InvReachable(s);
    assert Report(s, k) && Coherent(s.workers[k]) && Verdict(s, k) && ChildOf(s, k);
    CleanVerdict(s, k);
    CleanChildIsSpared(s, k);
  }

  lemma CleanVerdict(s: State, k: nat)
    requires k < |s.workers| && s.workers[k].pc.Ended? && Clean(s.workers[k])
    requires s.workers[k].child > 0 && !s.workers[k].waitFailed
    requires Report(s, k) && Coherent(s.workers[k]) && Verdict(s, k) && ChildOf(s, k)
    ensures var status := s.children[s.workers[k].child - 1].status;
            && !status.Running?
            && (OnFinish(k) in s.trace <==> status == Exited(true))
            && (OnError(k, AuthFailed) in s.trace <==> status == Exited(false) || status.Killed?)
  {}

  // ----- calls of verify ------------------------------------------------------------------------------------

  /** The arguments of the calls of verify in a schedule. */
  function Asked(acts: seq<Action>): seq<string> {
    if acts == [] then []
    else
      var a := acts[|acts| - 1];
      Asked(acts[..|acts| - 1]) + if a.CallVerify? then [a.pass] else []
  }

  predicate Verifying(c: ClientPc) {
    c.VerifyCas? || Pending(c)
  }

  /** The verify in flight has the last argument, and each worker that of its own call, in order. */
  ghost predicate Posed(s: State, asked: seq<string>) {
    && s.log.asked == |asked|
    && (Verifying(s.client) ==> asked != [] && s.client.pass == asked[|asked| - 1])
    && (forall k :: 0 <= k < |s.workers| ==>
          1 <= s.workers[k].past.call <= |asked| && s.workers[k].pass == asked[s.workers[k].past.call - 1])
    && (forall j, k :: 0 <= j < k < |s.workers| ==> s.workers[j].past.call < s.workers[k].past.call)
    && (forall k :: 0 <= k < |s.workers| && Verifying(s.client) ==> s.workers[k].past.call < |asked|)
  }

  lemma PosedSame(s: State, t: State, asked: seq<string>)
    requires Posed(s, asked) && t.log.asked == s.log.asked && |t.workers| == |s.workers|
    requires forall k :: 0 <= k < |s.workers| ==>
               t.workers[k].pass == s.workers[k].pass && t.workers[k].past.call == s.workers[k].past.call
    requires Verifying(t.client) ==> Verifying(s.client) && t.client.pass == s.client.pass
    ensures Posed(t, asked)
  {}

  lemma PosedSpawn(s: State, asked: seq<string>)
    requires Posed(s, asked) && s.client.VerifySpawn?
    ensures Posed(StepClient(s, false), asked)
  {
    var t := StepClient(s, false);
    assert t.workers[..|s.workers|] == s.workers;
  }

  lemma PosedClient(s: State, throws: bool, asked: seq<string>)
    requires Posed(s, asked) && ClientEnabled(s)
    ensures Posed(StepClient(s, throws), asked)
  {
    if s.client.VerifySpawn? && !throws { PosedSpawn(s, asked); } else { PosedSame(s, StepClient(s, throws), asked); }
  }

  lemma PosedStop(s: State, i: nat, asked: seq<string>)
    requires Posed(s, asked) && StopEnabled(s, i)
    ensures Posed(StepStop(s, i), asked)
  {
    PosedSame(s, StepStop(s, i), asked);
  }

  lemma PosedCalls(s: State, a: Action, asked: seq<string>)
    requires Posed(s, asked) && Enabled(s, a) && (a.CallStop? || a.CallDestroy? || a.ChildExit?)
    ensures Posed(Apply(s, a), asked)
  {
    PosedSame(s, Apply(s, a), asked);
  }

  lemma PosedStep(s: State, a: Action, asked: seq<string>)
    requires Posed(s, asked) && Enabled(s, a)
    ensures Posed(Apply(s, a), asked + if a.CallVerify? then [a.pass] else [])
  {
    assert asked + [] == asked;
    match a
    case CallVerify(_) =>
    case ClientStep(throws) => PosedClient(s, throws, asked);
    case StopStep(i) => PosedStop(s, i, asked);
    case WorkerStep(_, _) => PosedSame(s, Apply(s, a), asked);
    case _ => PosedCalls(s, a, asked);
  }

  lemma {:induction false} PosedRun(acts: seq<Action>)
    ensures Exec(Init, acts).Some? ==> Posed(Exec(Init, acts).value, Asked(acts))
  {
    if acts != [] && Exec(Init, acts).Some? {
      PosedRun(acts[..|acts| - 1]);
      PosedStep(Exec(Init, acts[..|acts| - 1]).value, acts[|acts| - 1], Asked(acts[..|acts| - 1]));
    }
  }

  /** Each worker has the password of one call of verify in the schedule, later workers of later calls. */
  lemma PasswordsAreThoseAsked(s: State, acts: seq<Action>) returns (calls: seq<nat>)
    requires Exec(Init, acts) == Some(s)
    ensures |calls| == |s.workers|
    ensures forall k :: 0 <= k < |calls| ==> calls[k] < |Asked(acts)| && s.workers[k].pass == Asked(acts)[calls[k]]
    ensures forall j, k :: 0 <= j < k < |calls| ==> calls[j] < calls[k]
  {
    PosedRun(acts);
    calls := seq(|s.workers|, k requires 0 <= k < |s.workers| => Before(s.workers[k].past.call));
  }

  function Before(n: nat): nat {
    if n == 0 then 0 else n - 1
  }

  /** A verify is accepted exactly if the flag is down at its CAS; a refused one leaves no trace, and
      one that is accepted and meets no exception gets a worker with its own password. */
  lemma AcceptedIffDown(s: State, throws: bool)
    requires Reachable(s) && s.client.VerifyCas?
    ensures var t := StepClient(s, throws);
            if s.running then t == s.(client := Idle)
            else t.running && t.client.VerifyJoin? && t.client.pass == s.client.pass
  {}

  lemma SpawnedWithItsPassword(s: State)
    requires Reachable(s) && s.client.VerifySpawn?
    ensures var t := StepClient(s, false);
            && t.workers[..|s.workers|] == s.workers && |t.workers| == |s.workers| + 1 && LastLive(t)
            && t.workers[|s.workers|].pass == s.client.pass == t.candidate && t.client.Idle?
  {
    InvReachable(s);
    assert Candidate(s);
  }

  /** From its join on, an accepted verify that meets no exception stores its password and spawns. */
  lemma AcceptedSpawns(s: State)
    requires s.client.VerifyJoin? && !Joinable(s)
    ensures var t := StepClient(StepClient(StepClient(s, false), false), false);
            && t.client.Idle? && t.candidate == s.client.pass && t.handle == Some(|s.workers|)
            && t.workers == s.workers + [NewWorker(s.client.pass, s.client.claim, s.log)] && t.running == s.running
  {
    var s1 := StepClient(s, false);
    assert s1.client.VerifyAssign?;
    var s2 := StepClient(s1, false);
    assert s2.client.VerifySpawn?;
  }

  // ----- calls of stop ----------------------------------------------------------------------------------------

  /** A stop that finds the flag up lowers it, takes the published pid and kills that child. */
  lemma StopAloneCancels(s: State, i: nat)
    requires StopEnabled(s, i) && s.stops[i].StopCas? && s.running
    ensures var t := StepStop(StepStop(StepStop(s, i), i), i);
            !t.running && t.pid == 0 && t.stops == s.stops[i := StopDone] && !Alive(t, s.pid) && t.trace == s.trace
  {
    var s1 := StepStop(s, i);
    assert s1.pid == s.pid && s1.stops == s.stops[i := StopExchange];
    var s2 := StepStop(s1, i);
    assert s2.stops == s.stops[i := StopKill(s.pid)] && s2.children == s.children;
  }

  function StopCalls(acts: seq<Action>): nat {
    if acts == [] then 0
    else StopCalls(acts[..|acts| - 1]) + Bit(acts[|acts| - 1].CallStop? || acts[|acts| - 1].CallDestroy?)
  }

  /** Every call of stop, the destructor's included, is carried out. */
  lemma {:induction false} StopsAreThoseCalled(acts: seq<Action>)
    requires Exec(Init, acts).Some?
    ensures |Exec(Init, acts).value.stops| == StopCalls(acts)
  {
    if acts != [] {
      var prefix := acts[..|acts| - 1];
      StopsAreThoseCalled(prefix);
      StopsGrow(Exec(Init, prefix).value, acts[|acts| - 1]);
    }
  }

  lemma StopsGrow(s: State, a: Action)
    requires Enabled(s, a)
    ensures |Apply(s, a).stops| == |s.stops| + Bit(a.CallStop? || a.CallDestroy?)
    ensures a.CallStop? || a.CallDestroy? ==> Apply(s, a).stops[|s.stops|].StopCas?
  {}
}
