/** Inductive invariants of the `auth::Password` protocol, one family at a time. */
module PasswordInvariants {
  import opened Common
  import opened Password

  // ----- control: who runs when ---------------------------------------------------------------

  predicate PastCas(c: ClientPc) {
    c.VerifyJoin? || c.VerifyAssign? || c.VerifySpawn? || c.VerifyCatch?
  }

  predicate PastJoin(c: ClientPc) {
    || c.VerifyAssign? || c.VerifySpawn? || c.VerifyCatch? || c.VerifyCatchWipe?
    || c.DestroyWipe? || c.DestroyReport? || c.Gone?
  }

  predicate TearingDown(c: ClientPc) {
    c.DestroyJoin? || c.DestroyWipe? || c.DestroyReport? || c.Gone?
  }

  /** Every worker but the one behind the thread handle has ended. */
  ghost predicate Serial(s: State) {
    && (s.handle.Some? ==> s.handle.value == |s.workers| - 1)
    && (forall k :: 0 <= k < |s.workers| && s.handle != Some(k) ==> !Live(s, k))
  }

  ghost predicate Control(s: State) {
    && Serial(s)
    && (PastJoin(s.client) ==> s.handle.None?)
    && (s.running ==> PastCas(s.client) || LastLive(s))
    && (s.client.DestroyStop? ==>
          s.client.call < |s.stops| && (s.stops[s.client.call].StopCas? || !s.running))
    && (TearingDown(s.client) ==> !s.running)
  }

  lemma ControlClient(s: State, throws: bool)
    requires Control(s) && ClientEnabled(s)
    ensures Control(StepClient(s, throws))
  {
    var t := StepClient(s, throws);
    forall k | 0 <= k < |t.workers| && t.handle != Some(k)
      ensures !Live(t, k)
    {
      assert k < |s.workers| ==> Live(t, k) == Live(s, k);
    }
  }

  lemma ControlStop(s: State, i: nat)
    requires Control(s) && StopEnabled(s, i)
    ensures Control(StepStop(s, i))
  {
    var t := StepStop(s, i);
    assert forall k :: Live(t, k) == Live(s, k);
    assert LastLive(t) == LastLive(s);
  }

  lemma ControlWorker(s: State, k: nat, fails: bool)
    requires Control(s) && WorkerEnabled(s, k, fails)
    ensures Control(StepWorker(s, k, fails))
    ensures k == |s.workers| - 1 && s.handle == Some(k)
  {
    var t := StepWorker(s, k, fails);
    assert forall j :: j != k ==> Live(t, j) == Live(s, j);
  }

  lemma ControlStep(s: State, a: Action)
    requires Control(s) && Enabled(s, a)
    ensures Control(Apply(s, a))
  {
    match a
    case ClientStep(throws) => ControlClient(s, throws);
    case StopStep(i) => ControlStop(s, i);
    case WorkerStep(k, fails) => ControlWorker(s, k, fails);
    case _ => assert forall k :: Live(Apply(s, a), k) == Live(s, k);
  }

  // ----- what a step leaves alone ---------------------------------------------------------------

  /** Children are only added, their input never changes and death is final. */
  ghost predicate Grow(s: State, t: State) {
    && |s.children| <= |t.children|
    && (forall i :: 0 <= i < |s.children| ==>
          && t.children[i].input == s.children[i].input
          && (!s.children[i].status.Running? ==> t.children[i] == s.children[i]))
  }

  /** Only worker `k` moved, and only its own callbacks were added. */
  ghost predicate Others(s: State, t: State, k: nat) {
    && Grow(s, t)
    && |t.workers| == |s.workers|
    && (forall j :: 0 <= j < |s.workers| && j != k ==> t.workers[j] == s.workers[j] && !Live(s, j))
    && s.trace <= t.trace
    && (forall e :: e in t.trace && e !in s.trace ==> !e.OnDelete? && e.k == k)
    && (forall p :: p in t.taken && p !in s.taken ==> p == s.pid > 0)
  }

  lemma OthersWorker(s: State, k: nat, fails: bool)
    requires Control(s) && WorkerEnabled(s, k, fails)
    ensures Others(s, StepWorker(s, k, fails), k)
  {
    ControlWorker(s, k, fails);
  }

  /** Nothing that concerns the workers' reports moved. */
  ghost predicate Quiet(s: State, t: State) {
    && Grow(s, t)
    && |t.workers| >= |s.workers|
    && (forall j :: 0 <= j < |s.workers| ==>
          t.workers[j].(past := s.workers[j].past) == s.workers[j])
    && (forall j :: |s.workers| <= j < |t.workers| ==>
          t.workers[j].pc.AtBegin? && t.workers[j].child == 0 && !t.workers[j].waitFailed)
    && s.trace <= t.trace
    && (forall e :: e in t.trace && e !in s.trace ==> e.OnDelete?)
    && (forall p :: p in t.taken && p !in s.taken ==> p == s.pid > 0)
  }

  lemma QuietClient(s: State, throws: bool)
    requires ClientEnabled(s)
    ensures Quiet(s, StepClient(s, throws))
  {}

  lemma QuietStop(s: State, i: nat)
    requires StopEnabled(s, i)
    ensures Quiet(s, StepStop(s, i))
  {}

  lemma QuietStep(s: State, a: Action)
    requires Enabled(s, a) && !a.WorkerStep?
    ensures Quiet(s, Apply(s, a))
  {
    match a
    case ClientStep(throws) => QuietClient(s, throws);
    case StopStep(i) => QuietStop(s, i);
    case _ =>
  }

  // ----- the published pid and the pids taken -------------------------------------------------

  predicate Published(pc: WorkerPc) {
    pc.AtRecheck? || pc.AtTake? || pc.AtWait? || pc.AtUnpublish?
  }

  predicate Forked(pc: WorkerPc) {
    pc.AtPublish? || Published(pc) || pc.AtSelfKill? || pc.AtVerdictLoad? || pc.AtVerdict?
  }

  predicate Unforked(pc: WorkerPc) {
    pc.AtBegin? || pc.AtFork? || pc.AtForkError?
  }

  ghost predicate ChildOf(s: State, k: nat)
    requires k < |s.workers|
  {
    var w := s.workers[k];
    && (Unforked(w.pc) ==> w.child == 0)
    && (Forked(w.pc) ==> w.child > 0)
    && w.child <= |s.children|
    && (w.pc.AtPublish? ==> w.child !in s.taken)
  }

  ghost predicate Pids(s: State) {
    && (forall k :: 0 <= k < |s.workers| ==> ChildOf(s, k))
    && (s.pid > 0 ==>
          LastLive(s) && var w := s.workers[|s.workers| - 1]; Published(w.pc) && w.child == s.pid)
    && Distinct(s.taken)
    && (forall p :: p in s.taken ==> 0 < p <= |s.children|)
    && s.pid !in s.taken
  }

  lemma ChildOfOthers(s: State, t: State, k: nat)
    requires Pids(s) && Others(s, t, k)
    ensures forall j :: 0 <= j < |t.workers| && j != k ==> ChildOf(t, j)
  {
    forall j | 0 <= j < |t.workers| && j != k
      ensures ChildOf(t, j)
    {
      assert ChildOf(s, j);
    }
  }

  lemma PidsWorker(s: State, k: nat, fails: bool)
    requires Control(s) && Pids(s) && WorkerEnabled(s, k, fails)
    ensures Pids(StepWorker(s, k, fails))
  {
    ControlWorker(s, k, fails);
    var t := StepWorker(s, k, fails);
    assert ChildOf(s, k);
    OthersWorker(s, k, fails);
    ChildOfOthers(s, t, k);
    assert ChildOf(t, k);
  }

  lemma ChildOfQuiet(s: State, t: State)
    requires Control(s) && Pids(s) && Quiet(s, t)
    ensures forall j :: 0 <= j < |t.workers| ==> ChildOf(t, j)
  {
    forall j | 0 <= j < |t.workers|
      ensures ChildOf(t, j)
    {
      if j < |s.workers| {
        assert ChildOf(s, j);
        if s.workers[j].pc.AtPublish? {
          assert Live(s, j);
          assert s.pid == 0;
        }
      }
    }
  }

  lemma PidsStop(s: State, i: nat)
    requires Control(s) && Pids(s) && StopEnabled(s, i)
    ensures Pids(StepStop(s, i))
  {
    if s.pid > 0 { assert ChildOf(s, |s.workers| - 1); }
    QuietStop(s, i);
    ChildOfQuiet(s, StepStop(s, i));
  }

  lemma PidsStep(s: State, a: Action)
    requires Control(s) && Pids(s) && Enabled(s, a)
    ensures Pids(Apply(s, a))
  {
    match a
    case StopStep(i) => PidsStop(s, i);
    case WorkerStep(k, fails) => PidsWorker(s, k, fails);
    case _ =>
      QuietStep(s, a);
      ChildOfQuiet(s, Apply(s, a));
  }

  // ----- no cancel is lost --------------------------------------------------------------------

  /** A live child of a worker past its publication is still published, or its pid is in the
      hands of someone who is about to kill it. */
  ghost predicate Accounted(s: State) {
    LastLive(s) ==>
      var w := s.workers[|s.workers| - 1];
      (w.pc.AtRecheck? || w.pc.AtTake? || w.pc.AtSelfKill? || w.pc.AtWait?) && Alive(s, w.child) ==>
        s.pid == w.child || w.pc == AtSelfKill(w.child) || StopKill(w.child) in s.stops
  }

  /** A waiting worker with a published child has either not been cancelled, or is covered by a
      stop that has still to reach its exchange. */
  ghost predicate NoCancelLost(s: State) {
    LastLive(s) ==>
      var w := s.workers[|s.workers| - 1];
      w.pc.AtWait? && s.pid == w.child ==> s.running || StopExchange in s.stops
  }

  ghost predicate Cancels(s: State) {
    Accounted(s) && NoCancelLost(s)
  }

  lemma StillIn(xs: seq<StopPc>, i: nat, x: StopPc)
    requires i < |xs|
    ensures forall y :: y in xs && y != xs[i] ==> y in xs[i := x]
    ensures x in xs[i := x]
  {
    forall y | y in xs && y != xs[i]
      ensures y in xs[i := x]
    {
      var j :| 0 <= j < |xs| && xs[j] == y;
      assert xs[i := x][j] == y;
    }
    assert xs[i := x][i] == x;
  }

  lemma CancelsStop(s: State, i: nat)
    requires Control(s) && Pids(s) && Cancels(s) && StopEnabled(s, i)
    ensures Cancels(StepStop(s, i))
  {
    if LastLive(s) { assert ChildOf(s, |s.workers| - 1); }
    var t := StepStop(s, i);
    StillIn(s.stops, i, t.stops[i]);
  }

  lemma CancelsWorker(s: State, k: nat, fails: bool)
    requires Control(s) && Pids(s) && Cancels(s) && WorkerEnabled(s, k, fails)
    ensures Cancels(StepWorker(s, k, fails))
  {
    ControlWorker(s, k, fails);
    assert ChildOf(s, k);
  }

  lemma CancelsClient(s: State, throws: bool)
    requires Control(s) && Cancels(s) && ClientEnabled(s)
    ensures Cancels(StepClient(s, throws))
  {
    if PastJoin(s.client) { assert !LastLive(s); }
  }

  /** More stops, and no child come back to life. */
  lemma CancelsSame(s: State, t: State)
    requires Cancels(s) && t.workers == s.workers && t.running == s.running && t.pid == s.pid
    requires s.stops <= t.stops && forall p :: Alive(t, p) ==> Alive(s, p)
    ensures Cancels(t)
  {}

  lemma CancelsStep(s: State, a: Action)
    requires Control(s) && Pids(s) && Cancels(s) && Enabled(s, a)
    ensures Cancels(Apply(s, a))
  {
    match a
    case StopStep(i) => CancelsStop(s, i);
    case WorkerStep(k, fails) => CancelsWorker(s, k, fails);
    case ClientStep(throws) => CancelsClient(s, throws);
    case _ => CancelsSame(s, Apply(s, a));
  }

  // ----- who is about to kill which child -------------------------------------------------------

  /** A pid in the hands of a stop was taken, no other stop holds it, and the worker does not
      hold it either. */
  ghost predicate Hands(s: State) {
    && (forall i :: 0 <= i < |s.stops| && s.stops[i].StopKill? && s.stops[i].victim > 0 ==>
          s.stops[i].victim in s.taken)
    && (forall i, j :: 0 <= i < j < |s.stops| && s.stops[i].StopKill? && s.stops[i].victim > 0 ==>
          s.stops[i] != s.stops[j])
    && (LastLive(s) ==> SelfHand(s, s.workers[|s.workers| - 1].pc))
  }

  ghost predicate SelfHand(s: State, pc: WorkerPc) {
    pc.AtSelfKill? && pc.victim > 0 ==> pc.victim in s.taken && StopKill(pc.victim) !in s.stops
  }

  /** Same workers, as far as their program counters go. */
  ghost predicate SamePcs(s: State, t: State) {
    |t.workers| == |s.workers|
    && forall j :: 0 <= j < |s.workers| ==> t.workers[j].pc == s.workers[j].pc
  }

  lemma StopKeepsPcs(s: State, i: nat)
    requires StopEnabled(s, i)
    ensures var t := StepStop(s, i);
            && SamePcs(s, t) && |t.stops| == |s.stops| && t.stops == s.stops[i := t.stops[i]]
            && (if s.stops[i].StopExchange? then t.stops[i] == StopKill(s.pid) && t.taken == Take(s, ByStop(i)).taken
                else !t.stops[i].StopKill? && t.taken == s.taken)
  {}

  /** An exchange puts into the hands of stop `i` a pid that was in nobody's. */
  lemma HandsTaken(s: State, t: State, i: nat)
    requires Pids(s) && Hands(s) && i < |s.stops| && SamePcs(s, t)
    requires t.stops == s.stops[i := StopKill(s.pid)] && t.taken == Take(s, ByStop(i)).taken
    ensures Hands(t)
  {}

  lemma HandsKept(s: State, t: State, i: nat, pc: StopPc)
    requires Hands(s) && i < |s.stops| && SamePcs(s, t)
    requires t.stops == s.stops[i := pc] && !pc.StopKill? && t.taken == s.taken
    ensures Hands(t)
  {}

  lemma HandsStop(s: State, i: nat)
    requires Pids(s) && Hands(s) && StopEnabled(s, i)
    ensures Hands(StepStop(s, i))
  {
    var t := StepStop(s, i);
    StopKeepsPcs(s, i);
    if s.stops[i].StopExchange? { HandsTaken(s, t, i); } else { HandsKept(s, t, i, t.stops[i]); }
  }

  lemma HandsWorker(s: State, k: nat, fails: bool)
    requires Control(s) && Pids(s) && Hands(s) && WorkerEnabled(s, k, fails)
    ensures Hands(StepWorker(s, k, fails))
  {
    ControlWorker(s, k, fails);
  }

  lemma HandsClient(s: State, throws: bool)
    requires Hands(s) && ClientEnabled(s)
    ensures Hands(StepClient(s, throws))
  {
    var t := StepClient(s, throws);
    assert t.stops == s.stops && t.taken == s.taken;
    assert LastLive(t) && |t.workers| == |s.workers| ==>
        t.workers[|t.workers| - 1].pc == s.workers[|s.workers| - 1].pc;
  }

  lemma HandsStep(s: State, a: Action)
    requires Control(s) && Pids(s) && Hands(s) && Enabled(s, a)
    ensures Hands(Apply(s, a))
  {
    match a
    case StopStep(i) => HandsStop(s, i);
    case WorkerStep(k, fails) => HandsWorker(s, k, fails);
    case ClientStep(throws) => HandsClient(s, throws);
    case _ =>
  }

  // ----- who owns the candidate, and what each child was given ---------------------------------

  predicate Holding(pc: WorkerPc) {
    !pc.AtRelease? && !pc.Ended?
  }

  ghost predicate Given(s: State, k: nat)
    requires k < |s.workers|
  {
    var w := s.workers[k];
    1 <= w.child <= |s.children| ==> s.children[w.child - 1].input == w.pass
  }

  ghost predicate Candidate(s: State) {
    && (s.client.VerifySpawn? ==> s.candidate == s.client.pass)
    && (forall k :: 0 <= k < |s.workers| && Holding(s.workers[k].pc) ==> s.candidate == s.workers[k].pass)
    && (s.candidate != "" ==>
          || s.client.VerifySpawn? || s.client.VerifyCatch? || s.client.VerifyCatchWipe?
          || (LastLive(s) && Holding(s.workers[|s.workers| - 1].pc)))
    && (forall k :: 0 <= k < |s.workers| ==> Given(s, k))
  }

  lemma GivenOthers(s: State, t: State, k: nat)
    requires Pids(s) && Candidate(s) && Others(s, t, k)
    ensures forall j :: 0 <= j < |t.workers| && j != k ==> Given(t, j) && !Holding(t.workers[j].pc)
  {
    forall j | 0 <= j < |t.workers| && j != k
      ensures Given(t, j)
    {
      assert Given(s, j) && ChildOf(s, j);
    }
  }

  lemma CandidateWorker(s: State, k: nat, fails: bool)
    requires Control(s) && Pids(s) && Candidate(s) && WorkerEnabled(s, k, fails)
    ensures Candidate(StepWorker(s, k, fails))
  {
    ControlWorker(s, k, fails);
    var t := StepWorker(s, k, fails);
    OthersWorker(s, k, fails);
    GivenOthers(s, t, k);
    assert Given(s, k) && ChildOf(s, k);
    assert Given(t, k);
  }

  lemma GivenQuiet(s: State, t: State)
    requires Pids(s) && Candidate(s) && Quiet(s, t)
    ensures forall j :: 0 <= j < |t.workers| ==> Given(t, j)
  {
    forall j | 0 <= j < |t.workers|
      ensures Given(t, j)
    {
      if j < |s.workers| { assert Given(s, j) && ChildOf(s, j); }
    }
  }

  lemma CandidateStop(s: State, i: nat)
    requires Control(s) && Pids(s) && Candidate(s) && StopEnabled(s, i)
    ensures Candidate(StepStop(s, i))
  {
    QuietStop(s, i);
    GivenQuiet(s, StepStop(s, i));
  }

  lemma CandidateClient(s: State, throws: bool)
    requires Control(s) && Pids(s) && Candidate(s) && ClientEnabled(s)
    ensures Candidate(StepClient(s, throws))
  {
    var t := StepClient(s, throws);
    QuietClient(s, throws);
    GivenQuiet(s, t);
    forall j | 0 <= j < |s.workers| && Holding(t.workers[j].pc)
      ensures t.candidate == t.workers[j].pass
    {
      assert Live(s, j);
    }
  }

  lemma CandidateStep(s: State, a: Action)
    requires Control(s) && Pids(s) && Candidate(s) && Enabled(s, a)
    ensures Candidate(Apply(s, a))
  {
    match a
    case StopStep(i) => CandidateStop(s, i);
    case WorkerStep(k, fails) => CandidateWorker(s, k, fails);
    case ClientStep(throws) => CandidateClient(s, throws);
    case _ =>
      QuietStep(s, a);
      GivenQuiet(s, Apply(s, a));
  }

  // ----- verdicts -------------------------------------------------------------------------------

  /** What the status of worker `w` says: its child exited 0, or waitpid failed and the status
      kept its initial 0. */
  predicate Positive(s: State, w: Worker) {
    w.child > 0 && (w.waitFailed || Succeeded(s, w.child))
  }

  /** The child died in any other way. */
  predicate Negative(s: State, w: Worker) {
    1 <= w.child <= |s.children| && !w.waitFailed && !Alive(s, w.child) && !Succeeded(s, w.child)
  }

  ghost predicate Verdict(s: State, k: nat)
    requires k < |s.workers|
  {
    var w := s.workers[k];
    && (w.pc.AtUnpublish? || w.pc.AtVerdictLoad? || w.pc.AtVerdict? ==>
          if w.pc.ok then Positive(s, w) else Negative(s, w))
    && (OnFinish(k) in s.trace ==> Positive(s, w) && !Unforked(w.pc) && w.pc != AtWait)
    && (OnError(k, AuthFailed) in s.trace ==> Negative(s, w) && !Unforked(w.pc) && w.pc != AtWait)
  }

  /** Before the verdict nothing has been reported. */
  ghost predicate Verdicts(s: State) {
    && (forall k :: 0 <= k < |s.workers| ==> Verdict(s, k))
    && (forall e :: e in s.trace && !e.OnDelete? ==> e.k < |s.workers|)
    && (forall k :: 0 <= k < |s.workers| && Early(s.workers[k].pc) ==>
          OnFinish(k) !in s.trace && OnError(k, AuthFailed) !in s.trace)
  }

  /** Not yet past the verdict. */
  predicate Early(pc: WorkerPc) {
    Unforked(pc) || Forked(pc)
  }

  lemma VerdictsOthers(s: State, t: State, k: nat)
    requires Verdicts(s) && Others(s, t, k) && k < |s.workers|
    ensures forall j :: 0 <= j < |t.workers| && j != k ==> Verdict(t, j)
    ensures forall j :: 0 <= j < |t.workers| && j != k && Early(t.workers[j].pc) ==>
                    OnFinish(j) !in t.trace && OnError(j, AuthFailed) !in t.trace
    ensures forall e :: e in t.trace && !e.OnDelete? ==> e.k < |t.workers|
  {
    forall j | 0 <= j < |t.workers| && j != k
      ensures Verdict(t, j)
    {
      assert Verdict(s, j);
    }
  }

  lemma VerdictWorker(s: State, k: nat, fails: bool)
    requires WorkerEnabled(s, k, fails) && Verdict(s, k) && ChildOf(s, k)
    requires Early(s.workers[k].pc) ==> OnFinish(k) !in s.trace && OnError(k, AuthFailed) !in s.trace
    ensures Verdict(StepWorker(s, k, fails), k)
  {}

  lemma VerdictsWorker(s: State, k: nat, fails: bool)
    requires Control(s) && Pids(s) && Verdicts(s) && WorkerEnabled(s, k, fails)
    ensures Verdicts(StepWorker(s, k, fails))
  {
    OthersWorker(s, k, fails);
    VerdictsOthers(s, StepWorker(s, k, fails), k);
    assert Verdict(s, k) && ChildOf(s, k);
    VerdictWorker(s, k, fails);
  }

  lemma VerdictsQuiet(s: State, t: State)
    requires Verdicts(s) && Quiet(s, t)
    ensures Verdicts(t)
  {
    forall j | 0 <= j < |t.workers|
      ensures Verdict(t, j)
    {
      if j < |s.workers| { assert Verdict(s, j); }
    }
  }

  lemma VerdictsStep(s: State, a: Action)
    requires Control(s) && Pids(s) && Verdicts(s) && Enabled(s, a)
    ensures Verdicts(Apply(s, a))
  {
    match a
    case WorkerStep(k, fails) => VerdictsWorker(s, k, fails);
    case _ =>
      QuietStep(s, a);
      VerdictsQuiet(s, Apply(s, a));
  }

  // ----- every verification is accounted for -----------------------------------------------------

  /** Worker `k` has said whether the password is right. */
  ghost predicate Decided(s: State, k: nat) {
    OnFinish(k) in s.trace || OnError(k, AuthFailed) in s.trace
  }

  ghost predicate Judged(s: State, k: nat) {
    Decided(s, k) || OnError(k, System) in s.trace
  }

  /** The verdict, if any, has been reported. */
  predicate Reported(pc: WorkerPc) {
    pc.AtEnd? || pc.AtStopLoad? || pc.AtStop? || Closed(pc)
  }

  predicate Closed(pc: WorkerPc) {
    pc.AtWipe? || pc.AtRelease? || pc.Ended?
  }

  /** The worker forked a child and had lost the flag when it came to its verdict. */
  predicate Unheard(w: Worker) {
    w.child > 0 && w.past.lost
  }

  /** What a worker has reported, exactly. */
  ghost predicate Report(s: State, k: nat)
    requires k < |s.workers|
  {
    var w := s.workers[k];
    && (if Reported(w.pc) then
          && (OnError(k, System) in s.trace <==> w.child == 0)
          && (Decided(s, k) <==> w.child > 0 && !w.past.lost)
        else !Judged(s, k))
    && (if Closed(w.pc) then OnStop(k) in s.trace <==> w.past.dropped else OnStop(k) !in s.trace)
  }

  /** How the parts of a worker's history hang together. */
  ghost predicate Coherent(w: Worker) {
    && (w.pc.AtStop? ==> w.past.dropped)
    && (Unheard(w) && (w.pc.AtStop? || Closed(w.pc)) ==> (w.past.dropped <==> !w.past.retaken))
    && (Unheard(w) && (w.pc.AtEnd? || w.pc.AtStopLoad?) ==> (w.past.held <==> w.past.retaken))
    && (w.past.dropped ==> !w.past.held || w.past.overlapped)
    && (w.past.retaken ==> w.past.overlapped)
    && (w.past.held && !w.past.overlapped ==> w.past.claim.Kept? && !w.past.lost)
    && (Early(w.pc) ==> !w.past.lost)
    && (w.past.retaken ==> !Early(w.pc) || w.pc.AtVerdict?)
    && (w.pc.AtVerdict? && !w.past.overlapped ==> w.past.claim.Kept?)
    && (Reported(w.pc) && w.past.claim.Overtook? && !w.past.overlapped && w.child > 0 ==> w.past.lost)
  }

  /** The flag is up exactly as the history says: for the live worker, or else for the verify. */
  ghost predicate Claims(s: State) {
    && (LastLive(s) ==> (s.running <==> s.workers[|s.workers| - 1].past.held))
    && (s.client.VerifyAssign? || s.client.VerifySpawn? ==> (s.running <==> s.client.claim.Kept?))
    && (s.client.VerifyJoin? ==>
          if LastLive(s) then s.client.claim.Overtook? && s.workers[|s.workers| - 1].past.overlapped
          else s.running <==> s.client.claim.Kept?)
  }

  ghost predicate Reports(s: State) {
    && Claims(s)
    && (forall k :: 0 <= k < |s.workers| ==> Report(s, k) && Coherent(s.workers[k]))
  }

  lemma ReportsOthers(s: State, t: State, k: nat)
    requires Reports(s) && Others(s, t, k)
    ensures forall j :: 0 <= j < |t.workers| && j != k ==> Report(t, j) && Coherent(t.workers[j])
  {
    forall j | 0 <= j < |t.workers| && j != k
      ensures Report(t, j)
    {
      assert Report(s, j);
    }
  }

  lemma CoherentWorker(s: State, k: nat, fails: bool)
    requires WorkerEnabled(s, k, fails) && Coherent(s.workers[k]) && ChildOf(s, k)
    requires s.running <==> s.workers[k].past.held
    ensures Coherent(StepWorker(s, k, fails).workers[k])
  {}

  lemma ReportWorker(s: State, k: nat, fails: bool)
    requires WorkerEnabled(s, k, fails) && Report(s, k) && Coherent(s.workers[k]) && ChildOf(s, k)
    requires s.running <==> s.workers[k].past.held
    ensures Report(StepWorker(s, k, fails), k)
  {}

  lemma ReportsWorker(s: State, k: nat, fails: bool)
    requires Control(s) && Pids(s) && Reports(s) && WorkerEnabled(s, k, fails)
    ensures Reports(StepWorker(s, k, fails))
  {
    ControlWorker(s, k, fails);
    OthersWorker(s, k, fails);
    ReportsOthers(s, StepWorker(s, k, fails), k);
    assert Report(s, k) && ChildOf(s, k);
    ReportWorker(s, k, fails);
    CoherentWorker(s, k, fails);
  }

  lemma ClaimsClient(s: State, throws: bool)
    requires Control(s) && Claims(s) && ClientEnabled(s)
    ensures Claims(StepClient(s, throws))
  {
    if PastJoin(s.client) { assert !LastLive(s); }
  }

  /** Nothing was said by or about worker `j`. */
  lemma ReportKept(s: State, t: State, j: nat)
    requires j < |s.workers| && j < |t.workers| && Report(s, j)
    requires t.workers[j].pc == s.workers[j].pc && t.workers[j].child == s.workers[j].child
    requires t.workers[j].past.lost == s.workers[j].past.lost && t.workers[j].past.dropped == s.workers[j].past.dropped
    requires forall e: Event :: !e.OnDelete? ==> (e in t.trace <==> e in s.trace)
    ensures Report(t, j)
  {}

  lemma CoherentClient(s: State, throws: bool, j: nat)
    requires ClientEnabled(s) && j < |s.workers| && Coherent(s.workers[j])
    ensures j < |StepClient(s, throws).workers| && Coherent(StepClient(s, throws).workers[j])
  {}

  lemma ReportClient(s: State, throws: bool, j: nat)
    requires Verdicts(s) && Reports(s) && ClientEnabled(s)
    requires j < |StepClient(s, throws).workers|
    ensures var t := StepClient(s, throws); Report(t, j) && Coherent(t.workers[j])
  {
    if j < |s.workers| {
      assert Report(s, j) && Coherent(s.workers[j]);
      CoherentClient(s, throws, j);
      ReportKept(s, StepClient(s, throws), j);
    }
  }

  lemma ReportsClient(s: State, throws: bool)
    requires Control(s) && Verdicts(s) && Reports(s) && ClientEnabled(s)
    ensures Reports(StepClient(s, throws))
  {
    var t := StepClient(s, throws);
    ClaimsClient(s, throws);
    forall j | 0 <= j < |t.workers|
      ensures Report(t, j) && Coherent(t.workers[j])
    {
      ReportClient(s, throws, j);
    }
  }

  lemma ClaimsStop(s: State, i: nat)
    requires Claims(s) && StopEnabled(s, i)
    ensures Claims(StepStop(s, i))
  {}

  lemma CoherentStop(s: State, i: nat, j: nat)
    requires StopEnabled(s, i) && j < |s.workers| && Coherent(s.workers[j])
    ensures var t := StepStop(s, i);
            j < |t.workers| && Coherent(t.workers[j])
  {}

  lemma StopLeavesReports(s: State, i: nat, j: nat)
    requires StopEnabled(s, i) && j < |s.workers|
    ensures var t := StepStop(s, i);
            && j < |t.workers| && t.trace == s.trace
            && t.workers[j].pc == s.workers[j].pc && t.workers[j].child == s.workers[j].child
            && t.workers[j].past.lost == s.workers[j].past.lost
            && t.workers[j].past.dropped == s.workers[j].past.dropped
  {}

  lemma ReportStop(s: State, i: nat, j: nat)
    requires StopEnabled(s, i) && j < |s.workers| && Report(s, j) && Coherent(s.workers[j])
    ensures var t := StepStop(s, i); j < |t.workers| && Report(t, j) && Coherent(t.workers[j])
  {
    CoherentStop(s, i, j);
    StopLeavesReports(s, i, j);
    ReportKept(s, StepStop(s, i), j);
  }

  lemma ReportsStop(s: State, i: nat)
    requires Control(s) && Reports(s) && StopEnabled(s, i)
    ensures Reports(StepStop(s, i))
  {
    var t := StepStop(s, i);
    ClaimsStop(s, i);
    forall j | 0 <= j < |t.workers|
      ensures Report(t, j) && Coherent(t.workers[j])
    {
      assert Report(s, j);
      ReportStop(s, i, j);
    }
  }

  /** Calls and children touch neither the workers nor what they report. */
  lemma ReportsSame(s: State, t: State)
    requires Reports(s) && t.workers == s.workers && t.trace == s.trace && t.running == s.running
    requires t.client == s.client || t.client.VerifyCas? || t.client.DestroyStop?
    ensures Reports(t)
  {
    forall j | 0 <= j < |t.workers|
      ensures Report(t, j)
    {
      assert Report(s, j);
    }
  }

  lemma ReportsStep(s: State, a: Action)
    requires Control(s) && Pids(s) && Verdicts(s) && Reports(s) && Enabled(s, a)
    ensures Reports(Apply(s, a))
  {
    match a
    case WorkerStep(k, fails) => ReportsWorker(s, k, fails);
    case ClientStep(throws) => ReportsClient(s, throws);
    case StopStep(i) => ReportsStop(s, i);
    case _ => ReportsSame(s, Apply(s, a));
  }

  // ----- the invariant -----------------------------------------------------------------------------

  ghost predicate Inv(s: State) {
    Control(s) && Pids(s) && Cancels(s) && Hands(s) && Candidate(s) && Verdicts(s) && Reports(s)
  }

  lemma InvStep(s: State, a: Action)
    requires Inv(s) && Enabled(s, a)
    ensures Inv(Apply(s, a))
  {
    ControlStep(s, a);
    PidsStep(s, a);
    CancelsStep(s, a);
    HandsStep(s, a);
    CandidateStep(s, a);
    VerdictsStep(s, a);
    ReportsStep(s, a);
  }

  lemma {:induction false} InvRun(s: State, acts: seq<Action>)
    requires Inv(s)
    ensures Exec(s, acts).Some? ==> Inv(Exec(s, acts).value)
  {
    if acts != [] && Exec(s, acts).Some? {
      var prefix := acts[..|acts| - 1];
      InvRun(s, prefix);
      InvStep(Exec(s, prefix).value, acts[|acts| - 1]);
    }
  }

  lemma InvReachable(s: State)
    requires Reachable(s)
    ensures Inv(s)
  {
    var acts :| Exec(Init, acts) == Some(s);
    InvRun(Init, acts);
  }
}
