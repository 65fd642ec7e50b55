/** What holds of `auth::Password` in every interleaving, and which stronger claims fail. */
module PasswordTheorems {
  import opened Common
  import opened Password
  import opened PasswordInvariants

  // ----- workers are serial and the running flag is never stuck -----------------------------------

  /** At most one worker thread is live, in any state of any interleaving; and `is_running_` is
      true only while a verify is past its CAS or a worker is live. */
  lemma WorkersAreSerial(s: State, j: nat, k: nat)
    requires Reachable(s) && Live(s, j) && Live(s, k)
    ensures j == k == |s.workers| - 1
  {
    InvReachable(s);
  }

  lemma FlagIsNeverStuck(s: State)
    requires Reachable(s) && s.running
    ensures PastCas(s.client) || LastLive(s)
  {
    InvReachable(s);
  }

  // ----- cancellation -------------------------------------------------------------------------------

  /** No cancel is lost.  If the pid of a waiting worker's child is still published, the flag is up
      or some stop is between its CAS and its exchange; and while that child lives its pid is
      still published, or some stop holds it and is about to kill it. */
  lemma CancelIsNeverLost(s: State, k: nat)
    requires Reachable(s) && Live(s, k) && s.workers[k].pc.AtWait?
    ensures s.pid == s.workers[k].child ==> s.running || StopExchange in s.stops
    ensures Alive(s, s.workers[k].child) ==>
              s.pid == s.workers[k].child || StopKill(s.workers[k].child) in s.stops
  {
    InvReachable(s);
    WorkersAreSerial(s, k, k);
    WaitIsCovered(s);
  }

  lemma WaitIsCovered(s: State)
    requires Cancels(s) && LastLive(s)
    ensures var w := s.workers[|s.workers| - 1];
            w.pc.AtWait? ==>
              && (s.pid == w.child ==> s.running || StopExchange in s.stops)
              && (Alive(s, w.child) ==> s.pid == w.child || StopKill(w.child) in s.stops)
  {}

  /** Each forked child is taken for killing at most once, whoever takes it: no pid is taken twice,
      a pid about to be killed was taken, and it is in the hands of one stop, or of the worker,
      but never of two. */
  lemma TakenAtMostOnce(s: State)
    requires Reachable(s)
    ensures Distinct(s.taken) && s.pid !in s.taken
    ensures forall p :: p in s.taken ==> 1 <= p <= |s.children|
    ensures forall p: nat :: p > 0 && StopKill(p) in s.stops ==> p in s.taken
    ensures forall i, j :: 0 <= i < j < |s.stops| && s.stops[i].StopKill? && s.stops[i].victim > 0 ==>
              s.stops[i] != s.stops[j]
    ensures LastLive(s) ==> SelfHand(s, s.workers[|s.workers| - 1].pc)
  {
    InvReachable(s);
  }

  // ----- verdicts and the candidate -----------------------------------------------------------------

  /** The child worker `k` forked, which was given exactly the password of the verify that
      spawned `k`. */
  ghost predicate OwnChild(s: State, k: nat) {
    && k < |s.workers|
    && 1 <= s.workers[k].child <= |s.children|
    && s.children[s.workers[k].child - 1].input == s.workers[k].pass
  }

  /** A verdict speaks of the worker's own child and its own password, and exactly: it is on_finish
      if the child exited 0 or waitpid, whose result is not checked, failed, and
      on_error(AuthFailed) if the child was waited for and died in another way. */
  lemma VerdictMatchesInput(s: State, k: nat)
    requires Reachable(s) && Decided(s, k)
    ensures OwnChild(s, k)
    ensures var w := s.workers[k];
            && (OnFinish(k) in s.trace <==> w.waitFailed || Succeeded(s, w.child))
            && (OnError(k, AuthFailed) in s.trace
                <==> !w.waitFailed && !Alive(s, w.child) && !Succeeded(s, w.child))
  {
    InvReachable(s);
    VerdictOfInv(s, k);
  }

  lemma VerdictOfInv(s: State, k: nat)
    requires Pids(s) && Candidate(s) && Verdicts(s)
    requires OnFinish(k) in s.trace || OnError(k, AuthFailed) in s.trace
    ensures OwnChild(s, k)
    ensures OnFinish(k) in s.trace ==> Positive(s, s.workers[k])
    ensures OnError(k, AuthFailed) in s.trace ==> Negative(s, s.workers[k])
  {
    assert k < |s.workers|;
    assert Verdict(s, k) && ChildOf(s, k) && Given(s, k);
  }

  /** A non-empty candidate is owned by exactly one party: the verify call that stored it, or
      the one live worker, for which it is the password it was spawned with. */
  lemma CandidateHasOneOwner(s: State)
    requires Reachable(s) && s.candidate != ""
    ensures (s.client.VerifySpawn? || s.client.VerifyCatch? || s.client.VerifyCatchWipe?) != LastLive(s)
    ensures LastLive(s) ==> s.candidate == s.workers[|s.workers| - 1].pass
    ensures s.client.VerifySpawn? ==> s.candidate == s.client.pass
  {
    InvReachable(s);
  }

  // ----- every verification is accounted for -----------------------------------------------------------

  /** When an ended worker has said whether the password is right: exactly if its fork succeeded and
      it still held the flag when it loaded it for its verdict.  Otherwise a failed fork was
      reported as such, and nothing else counts as a verdict. */
  lemma VerdictIff(s: State, k: nat)
    requires Reachable(s) && k < |s.workers| && !Live(s, k)
    ensures Decided(s, k) <==> s.workers[k].child > 0 && !s.workers[k].past.lost
    ensures OnError(k, System) in s.trace <==> s.workers[k].child == 0
  {
    InvReachable(s);
    assert Report(s, k);
  }

  /** A verify that overtook a live worker, and was not itself overtaken, never gets a verdict: its
      worker reports the failed fork or the stop that nobody asked of it. */
  lemma OvertakingGetsNoVerdict(s: State, k: nat)
    requires Reachable(s) && k < |s.workers| && !Live(s, k)
    requires s.workers[k].past.claim.Overtook? && !s.workers[k].past.overlapped
    ensures !Decided(s, k)
    ensures OnError(k, System) in s.trace || OnStop(k) in s.trace
  {
    InvReachable(s);
    assert Report(s, k) && Coherent(s.workers[k]);
  }

  /** When an ended worker has reported nothing at all: exactly if it forked its child, had lost the
      flag when it came to its verdict, and a verify won its CAS between that load and the load
      that decides on on_stop, with no stop winning after it. */
  lemma SilentIff(s: State, k: nat)
    requires Reachable(s) && k < |s.workers| && !Live(s, k)
    ensures !Judged(s, k) && OnStop(k) !in s.trace
            <==> s.workers[k].child > 0 && s.workers[k].past.lost && s.workers[k].past.retaken
  {
    InvReachable(s);
    assert Report(s, k);
  }

  /** An ended worker has called on_stop exactly if it did not hold the flag at the load before it,
      whatever it had reported by then. */
  lemma StopReportIff(s: State, k: nat)
    requires Reachable(s) && k < |s.workers| && !Live(s, k)
    ensures OnStop(k) in s.trace <==> s.workers[k].past.dropped
  {
    InvReachable(s);
    assert Report(s, k);
  }

  /** In particular a worker during whose life no verify won its CAS has reported a verdict, an
      error or a stop. */
  lemma EveryWorkerReports(s: State, k: nat)
    requires Reachable(s) && k < |s.workers| && !Live(s, k) && !s.workers[k].past.overlapped
    ensures Judged(s, k) || OnStop(k) in s.trace
  {
    InvReachable(s);
    assert Report(s, k) && Coherent(s.workers[k]);
  }

  /** And a verify that wins its CAS while no worker is live, and whose worker is never stopped nor
      overtaken, reaches a verdict unless its fork fails, and is not reported as stopped. */
  lemma CleanVerifyGetsVerdict(s: State, k: nat)
    requires Reachable(s) && k < |s.workers| && !Live(s, k)
    requires s.workers[k].past.held && !s.workers[k].past.overlapped
    ensures s.workers[k].past.claim.Kept?
    ensures Decided(s, k) <==> s.workers[k].child > 0
    ensures OnStop(k) !in s.trace
  {
    InvReachable(s);
    assert Report(s, k) && Coherent(s.workers[k]);
  }

  /** The flag is up exactly as the history of the live worker says, in every state: that history
      is made of the CASes won by verifies and stops alone. */
  lemma FlagFollowsHistory(s: State)
    requires Reachable(s) && LastLive(s)
    ensures s.running <==> s.workers[|s.workers| - 1].past.held
  {
    InvReachable(s);
  }

  // ----- teardown ------------------------------------------------------------------------------------------

  /** Steps a worker has left at most. */
  function Rank(pc: WorkerPc): nat {
    match pc
    case AtBegin => 15 case AtFork => 14 case AtPublish => 13 case AtRecheck => 12
    case AtTake => 11 case AtSelfKill(_) => 10 case AtWait => 9 case AtUnpublish(_) => 8
    case AtVerdictLoad(_) => 7 case AtVerdict(_) => 6 case AtForkError => 6 case AtEnd => 5
    case AtStopLoad => 4 case AtStop => 3 case AtWipe => 2 case AtRelease => 1 case Ended => 0
  }

  /** Steps of a stop that has won its CAS. */
  function StopRank(pc: StopPc): nat {
    match pc
    case StopExchange => 2
    case StopKill(_) => 1
    case _ => 0
  }

  function SumRanks(stops: seq<StopPc>): nat {
    if stops == [] then 0 else SumRanks(stops[..|stops| - 1]) + StopRank(stops[|stops| - 1])
  }

  function Measure(s: State): nat {
    (if |s.workers| == 0 then 0 else Rank(s.workers[|s.workers| - 1].pc)) + SumRanks(s.stops)
  }

  /** A worker step, or a step of a stop that has won its CAS. */
  predicate Productive(s: State, a: Action) {
    || a.WorkerStep?
    || (a.StopStep? && a.call < |s.stops| && StopRank(s.stops[a.call]) > 0)
  }

  /** An action that needs neither the child's cooperation nor a failing system call. */
  predicate Unaided(a: Action) {
    !a.ChildExit? && (a.WorkerStep? ==> !a.fails) && (a.ClientStep? ==> !a.throws)
  }

  lemma {:induction false} SumSnoc(xs: seq<StopPc>, x: StopPc)
    ensures SumRanks(xs + [x]) == SumRanks(xs) + StopRank(x)
  {
    assert (xs + [x])[..|xs|] == xs;
  }

  lemma {:induction false} SumUpdate(xs: seq<StopPc>, i: nat, x: StopPc)
    requires i < |xs|
    ensures SumRanks(xs[i := x]) + StopRank(xs[i]) == SumRanks(xs) + StopRank(x)
  {
    var n := |xs| - 1;
    if i == n {
      assert xs[i := x][..n] == xs[..n];
    } else {
      SumUpdate(xs[..n], i, x);
      assert xs[i := x][..n] == xs[..n][i := x];
    }
  }

  lemma RankDrops(s: State, w: Worker, fails: bool)
    requires !w.pc.Ended?
    ensures Rank(NextPc(s, w, fails)) < Rank(w.pc)
  {}

  lemma TeardownStop(s: State, i: nat)
    requires TearingDown(s.client) && !s.running && StopEnabled(s, i)
    ensures var t := StepStop(s, i);
            t.client == s.client && !t.running
            && Measure(t) == Measure(s) - (if StopRank(s.stops[i]) > 0 then 1 else 0)
  {
    var t := StepStop(s, i);
    SumUpdate(s.stops, i, t.stops[i]);
  }

  lemma TeardownWorker(s: State, k: nat, fails: bool)
    requires Control(s) && TearingDown(s.client) && WorkerEnabled(s, k, fails)
    ensures var t := StepWorker(s, k, fails);
            t.client == s.client && !t.running && Measure(t) < Measure(s)
  {
    ControlWorker(s, k, fails);
    RankDrops(s, s.workers[k], fails);
  }

  lemma TeardownClient(s: State, throws: bool)
    requires TearingDown(s.client) && !s.running && ClientEnabled(s)
    ensures var t := StepClient(s, throws);
            TearingDown(t.client) && !t.running && t.workers == s.workers && t.stops == s.stops
  {}

  /** Once the destructor's stop has returned, `is_running_` stays false; no action raises the
      measure, and every productive action lowers it. */
  lemma TeardownStep(s: State, a: Action)
    requires Inv(s) && TearingDown(s.client) && Enabled(s, a)
    ensures var t := Apply(s, a);
            TearingDown(t.client) && !t.running
            && Measure(t) <= Measure(s) - (if Productive(s, a) then 1 else 0)
  {
    match a
    case WorkerStep(k, fails) => TeardownWorker(s, k, fails);
    case StopStep(i) => TeardownStop(s, i);
    case CallStop => SumSnoc(s.stops, StopCas);
    case ClientStep(throws) => TeardownClient(s, throws);
    case _ =>
  }

  /** Productive actions in a schedule. */
  function CountProductive(s: State, acts: seq<Action>): nat {
    if acts == [] then 0
    else
      var prefix := acts[..|acts| - 1];
      var before := Exec(s, prefix);
      CountProductive(s, prefix)
      + (if before.Some? && Productive(before.value, acts[|acts| - 1]) then 1 else 0)
  }

  /** Every schedule from a teardown state makes at most `Measure` productive actions, whatever
      else happens in between, and the flag is down throughout. */
  lemma {:induction false} TeardownIsBounded(s: State, acts: seq<Action>)
    requires Inv(s) && TearingDown(s.client) && Exec(s, acts).Some?
    ensures var t := Exec(s, acts).value;
            Inv(t) && TearingDown(t.client) && !t.running
            && Measure(t) + CountProductive(s, acts) <= Measure(s)
  {
    if acts != [] {
      var prefix := acts[..|acts| - 1];
      TeardownIsBounded(s, prefix);
      InvStep(Exec(s, prefix).value, acts[|acts| - 1]);
      TeardownStep(Exec(s, prefix).value, acts[|acts| - 1]);
    }
  }

  /** The join never blocks for good: while the worker is live, some productive action that needs
      no help from the child is enabled, even if that child never exits by itself. */
  lemma TeardownProgress(s: State) returns (a: Action)
    requires Inv(s) && TearingDown(s.client) && LastLive(s)
    ensures Enabled(s, a) && Productive(s, a) && Unaided(a)
  {
    var k := |s.workers| - 1;
    var w := s.workers[k];
    a := WorkerStep(k, false);
    if w.pc.AtWait? && Alive(s, w.child) {
      var pending := if s.pid == w.child then StopExchange else StopKill(w.child);
      var i :| 0 <= i < |s.stops| && s.stops[i] == pending;
      a := StopStep(i);
    }
  }

  lemma {:induction false} ExecCons(s: State, a: Action, acts: seq<Action>)
    requires Enabled(s, a)
    ensures Exec(s, [a] + acts) == Exec(Apply(s, a), acts)
  {
    if acts == [] {
      assert ([a] + acts)[..0] == [];
    } else {
      var prefix := acts[..|acts| - 1];
      assert ([a] + acts)[..|acts|] == [a] + prefix;
      ExecCons(s, a, prefix);
    }
  }

  function ClientRank(c: ClientPc): nat {
    match c case DestroyJoin => 3 case DestroyWipe => 2 case DestroyReport => 1 case _ => 0
  }

  /** From every teardown state the destructor can finish, without the child's cooperation. */
  lemma {:induction false} TeardownCompletes(s: State) returns (acts: seq<Action>)
    requires Inv(s) && TearingDown(s.client)
    ensures forall a :: a in acts ==> Unaided(a)
    ensures Exec(s, acts).Some? && Exec(s, acts).value.client.Gone?
    decreases Measure(s) + ClientRank(s.client)
  {
    if s.client.Gone? {
      acts := [];
    } else {
      var a := ClientStep(false);
      if LastLive(s) { a := TeardownProgress(s); }
      InvStep(s, a);
      TeardownStep(s, a);
      var rest := TeardownCompletes(Apply(s, a));
      ExecCons(s, a, rest);
      acts := [a] + rest;
    }
  }

  /** Teardown terminates, in every interleaving: from any reachable state in which the destructor's
      stop has returned, `is_running_` stays false along every schedule, no schedule makes more
      than `Measure` productive actions, and as long as the worker is live one of them is enabled
      that needs nothing from the child. */
  lemma TeardownTerminates(s: State, acts: seq<Action>) returns (next: Action)
    requires Reachable(s) && TearingDown(s.client) && Exec(s, acts).Some?
    ensures var t := Exec(s, acts).value;
            && !t.running
            && CountProductive(s, acts) <= Measure(s)
            && (LastLive(t) ==> Enabled(t, next) && Productive(t, next) && Unaided(next))
            && (!LastLive(t) && t.client.DestroyJoin? ==> Enabled(t, ClientStep(false)))
  {
    InvReachable(s);
    TeardownIsBounded(s, acts);
    var t := Exec(s, acts).value;
    next := CallStop;
    if LastLive(t) { next := TeardownProgress(t); }
  }
}
