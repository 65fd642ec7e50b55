/** What holds of `auth::Fingerprint` in every interleaving. */
module FingerprintTheorems {
  import opened Common
  import opened Fingerprint

  // ----- control ------------------------------------------------------------------------------------

  predicate PastJoin(c: ClientPc) {
    || c.StartRaise? || c.StartReset? || c.StartReport? || c.StartSpawn? || c.StartCatch?
    || c.DestroyRelease? || c.DestroyReport? || c.Gone?
  }

  predicate TearingDown(c: ClientPc) {
    c.DestroyJoin? || c.DestroyRelease? || c.DestroyReport? || c.Gone?
  }

  ghost predicate Control(s: State) {
    && (s.handle.Some? ==> s.handle.value == |s.workers| - 1)
    && (forall k :: 0 <= k < |s.workers| && s.handle != Some(k) ==> !Live(s, k))
    && (PastJoin(s.client) ==> s.handle.None?)
    && (s.client.DestroyStop? ==>
          s.client.call < |s.stops| && (s.stops[s.client.call].CasRun? || !s.running))
    && (TearingDown(s.client) ==> !s.running)
  }

  lemma ControlWorker(s: State, k: nat, answer: Answer)
    requires Control(s) && Live(s, k)
    ensures Control(StepWorker(s, k, answer))
    ensures k == |s.workers| - 1 && s.handle == Some(k)
  {
    assert forall j :: j != k ==> Live(StepWorker(s, k, answer), j) == Live(s, j);
  }

  lemma ControlClient(s: State, throws: bool)
    requires Control(s) && ClientEnabled(s)
    ensures Control(StepClient(s, throws))
  {
    var t := StepClient(s, throws);
    ClientMoves(s, throws);
    assert forall j :: 0 <= j < |s.workers| ==> Live(t, j) == Live(s, j);
  }

  lemma ControlStop(s: State, i: nat)
    requires Control(s) && StopEnabled(s, i)
    ensures Control(StepStop(s, i))
  {
    assert forall j :: Live(StepStop(s, i), j) == Live(s, j);
  }

  lemma ControlStep(s: State, a: Action)
    requires Control(s) && Enabled(s, a)
    ensures Control(Apply(s, a))
  {
    match a
    case WorkerStep(k, answer) => ControlWorker(s, k, answer);
    case ClientStep(throws) => ControlClient(s, throws);
    case StopStep(i) => ControlStop(s, i);
    case _ => assert forall j :: Live(Apply(s, a), j) == Live(s, j);
  }

  /** What a step of `start` or of the destructor can do to the workers and the device ... */
  ghost predicate ClientCalls(s: State, t: State) {
    && t.workers == (if s.client.StartSpawn? && t.client.Idle? then s.workers + [Worker(AtHead, false)]
                     else s.workers)
    && t.calls == (if s.client.DestroyRelease? && s.present then s.calls + [Release] else s.calls)
    && (t.client.DestroyReport? <==> s.client.DestroyRelease?)
    && (t.client.Gone? <==> s.client.DestroyReport?)
    && t.present == s.present && t.matches == s.matches && t.log == s.log && t.trace == s.trace + Announce(s.client)
  }

  /** ... and to the session accounts. */
  ghost predicate ClientBooks(s: State, t: State) {
    && t.stops == s.stops && t.ends == s.ends && t.begun == s.begun && t.restarts == s.restarts
    && t.checking == (s.checking && !s.client.StartReset?)
    && t.lapsed == s.lapsed + (if s.checking && s.client.StartReset? then [Current(s)] else [])
    && (t.stopWon ==> s.stopWon)
  }

  lemma ClientMakesCalls(s: State, throws: bool)
    requires ClientEnabled(s)
    ensures ClientCalls(s, StepClient(s, throws))
  {}

  lemma ClientKeepsBooks(s: State, throws: bool)
    requires ClientEnabled(s)
    ensures ClientBooks(s, StepClient(s, throws))
  {}

  ghost predicate ClientMove(s: State, t: State) {
    ClientCalls(s, t) && ClientBooks(s, t)
  }

  lemma ClientMoves(s: State, throws: bool)
    requires ClientEnabled(s)
    ensures ClientMove(s, StepClient(s, throws))
  {
    ClientMakesCalls(s, throws);
    ClientKeepsBooks(s, throws);
  }

  // ----- the running flag and the worker that breaks off -----------------------------------------------

  ghost predicate Flag(s: State) {
    && (s.stopWon ==> !s.running)
    && (s.handle.Some? ==> s.running != s.stopWon)
    && (s.client.StartReset? || s.client.StartReport? || s.client.StartSpawn? ==> s.running != s.stopWon)
    && (s.handle.Some? && |s.workers| > 0 && s.workers[|s.workers| - 1] == Worker(Ended, false) ==> s.stopWon)
    && (LastLive(s) ==> !s.workers[|s.workers| - 1].broke)
  }

  lemma FlagWorker(s: State, k: nat, answer: Answer)
    requires Control(s) && Flag(s) && Live(s, k)
    ensures Flag(StepWorker(s, k, answer))
  {
    ControlWorker(s, k, answer);
  }

  lemma FlagClient(s: State, throws: bool)
    requires Control(s) && Flag(s) && ClientEnabled(s)
    ensures Flag(StepClient(s, throws))
  {}

  lemma FlagStep(s: State, a: Action)
    requires Control(s) && Flag(s) && Enabled(s, a)
    ensures Flag(Apply(s, a))
  {
    match a
    case WorkerStep(k, answer) => FlagWorker(s, k, answer);
    case ClientStep(throws) => FlagClient(s, throws);
    case _ =>
  }

  // ----- sessions ------------------------------------------------------------------------------------------

  /** The session accounts: what was begun, ended and lost, whether one is open, and which thread
      holds the right to end which session. */
  datatype Books = Books(begun: nat, ends: seq<nat>, lapsed: seq<nat>, checking: bool,
                         stops: seq<StopPc>, held: Option<nat>)

  datatype Entry =
    | Nothing
    | Open
    | Reset
    | WorkerTake
    | WorkerFire
    | NewStop
    | SetStop(i: nat, pc: StopPc)
    | StopTake(i: nat)
    | StopFire(i: nat)

  function BooksOf(s: State): Books {
    Books(s.begun, s.ends, s.lapsed, s.checking, s.stops,
          if |s.workers| > 0 && s.workers[|s.workers| - 1].pc.AtSignalEnd?
          then Some(s.workers[|s.workers| - 1].pc.session) else None)
  }

  predicate CanPost(b: Books, e: Entry) {
    match e
    case WorkerTake => b.checking && b.begun > 0 && b.held.None?
    case WorkerFire => b.held.Some?
    case SetStop(i, pc) => i < |b.stops| && !b.stops[i].FireEnd? && !pc.FireEnd?
    case StopTake(i) => i < |b.stops| && !b.stops[i].FireEnd? && b.checking && b.begun > 0
    case StopFire(i) => i < |b.stops| && b.stops[i].FireEnd?
    case _ => true
  }

  /** The session cut off when the check flag is overwritten. */
  function Cut(b: Books): seq<nat> {
    if b.checking then [Latest(b.begun)] else []
  }

  function Post(b: Books, e: Entry): Books
    requires CanPost(b, e)
  {
    match e
    case Nothing => b
    case Open => b.(begun := b.begun + 1, checking := true, lapsed := b.lapsed + Cut(b))
    case Reset => b.(checking := false, lapsed := b.lapsed + Cut(b))
    case WorkerTake => b.(checking := false, held := Some(b.begun - 1))
    case WorkerFire => b.(held := None, ends := b.ends + [b.held.value])
    case NewStop => b.(stops := b.stops + [CasRun])
    case SetStop(i, pc) => b.(stops := b.stops[i := pc])
    case StopTake(i) => b.(checking := false, stops := b.stops[i := FireEnd(b.begun - 1)])
    case StopFire(i) => b.(stops := b.stops[i := FireStop], ends := b.ends + [b.stops[i].session])
  }

  /** The entry an action makes in the books. */
  function EntryOf(s: State, a: Action): Entry
    requires Enabled(s, a)
  {
    match a
    case WorkerStep(k, _) =>
      (match s.workers[k].pc
       case AtOpen => Open
       case AtSignalCas => if s.checking then WorkerTake else Nothing
       case AtSignalEnd(_) => WorkerFire
       case _ => Nothing)
    case StopStep(i) =>
      (match s.stops[i]
       case CasRun => SetStop(i, CasCheck)
       case CasCheck => if s.checking then StopTake(i) else SetStop(i, StopDone)
       case FireEnd(_) => StopFire(i)
       case FireStop => SetStop(i, StopDone))
    case ClientStep(_) => if s.client.StartReset? then Reset else Nothing
    case CallStop => NewStop
    case CallDestroy => NewStop
    case CallStart => Nothing
  }

  lemma PostsWorker(s: State, k: nat, answer: Answer)
    requires Control(s) && (s.checking ==> s.begun > 0) && Live(s, k)
    ensures var e := EntryOf(s, WorkerStep(k, answer));
            CanPost(BooksOf(s), e) && BooksOf(StepWorker(s, k, answer)) == Post(BooksOf(s), e)
  {
    ControlWorker(s, k, answer);
  }

  lemma PostsStop(s: State, i: nat)
    requires (s.checking ==> s.begun > 0) && StopEnabled(s, i)
    ensures var e := EntryOf(s, StopStep(i));
            CanPost(BooksOf(s), e) && BooksOf(StepStop(s, i)) == Post(BooksOf(s), e)
  {}

  lemma PostsClient(s: State, t: State)
    requires Control(s) && ClientMove(s, t)
    ensures BooksOf(t) == Post(BooksOf(s), if s.client.StartReset? then Reset else Nothing)
  {
    if PastJoin(s.client) && |s.workers| > 0 { assert !Live(s, |s.workers| - 1); }
  }

  lemma PostsStep(s: State, a: Action)
    requires Control(s) && (s.checking ==> s.begun > 0) && Enabled(s, a)
    ensures CanPost(BooksOf(s), EntryOf(s, a))
    ensures BooksOf(Apply(s, a)) == Post(BooksOf(s), EntryOf(s, a))
  {
    match a
    case WorkerStep(k, answer) => PostsWorker(s, k, answer);
    case StopStep(i) => PostsStop(s, i);
    case ClientStep(throws) =>
      ClientMoves(s, throws);
      PostsClient(s, StepClient(s, throws));
    case _ =>
  }

  /** Stops that have ended a session and have still to call on_end. */
  function Owed(stops: seq<StopPc>): nat {
    if stops == [] then 0
    else Owed(stops[..|stops| - 1]) + if stops[|stops| - 1].FireEnd? then 1 else 0
  }

  lemma {:induction false} OwedSnoc(xs: seq<StopPc>, x: StopPc)
    ensures Owed(xs + [x]) == Owed(xs) + if x.FireEnd? then 1 else 0
  {
    assert (xs + [x])[..|xs|] == xs;
  }

  lemma {:induction false} OwedUpdate(xs: seq<StopPc>, i: nat, x: StopPc)
    requires i < |xs|
    ensures Owed(xs[i := x]) + (if xs[i].FireEnd? then 1 else 0) == Owed(xs) + if x.FireEnd? then 1 else 0
  {
    var n := |xs| - 1;
    if i == n {
      assert xs[i := x][..n] == xs[..n];
    } else {
      OwedUpdate(xs[..n], i, x);
      assert xs[i := x][..n] == xs[..n][i := x];
    }
  }

  /** Sessions begun = on_end called + on_end owed by a thread past its CAS + sessions overwritten
      or reset while open + one if a session is open. */
  ghost predicate Balanced(b: Books) {
    b.begun == |b.ends| + Owed(b.stops) + (if b.held.Some? then 1 else 0)
               + |b.lapsed| + (if b.checking then 1 else 0)
  }

  lemma PostBalances(b: Books, e: Entry)
    requires Balanced(b) && CanPost(b, e)
    ensures Balanced(Post(b, e))
  {
    match e
    case NewStop => OwedSnoc(b.stops, CasRun);
    case SetStop(i, pc) => OwedUpdate(b.stops, i, pc);
    case StopTake(i) => OwedUpdate(b.stops, i, FireEnd(b.begun - 1));
    case StopFire(i) => OwedUpdate(b.stops, i, FireStop);
    case _ =>
  }

  /** A session is held by one thread only, is not ended while held, and is neither while open. */
  ghost predicate Unique(b: Books) {
    && Distinct(b.ends)
    && (forall n :: n in b.ends ==> n < b.begun && b.held != Some(n) && FireEnd(n) !in b.stops)
    && (b.held.Some? ==> b.held.value < b.begun && FireEnd(b.held.value) !in b.stops)
    && (forall i :: 0 <= i < |b.stops| && b.stops[i].FireEnd? ==> b.stops[i].session < b.begun)
    && (forall i, j :: 0 <= i < j < |b.stops| && b.stops[i].FireEnd? ==> b.stops[i] != b.stops[j])
    && (b.checking ==>
          var n := b.begun - 1;
          n >= 0 && n !in b.ends && b.held != Some(n) && FireEnd(n) !in b.stops)
  }

  lemma StopFireStaysUnique(b: Books, i: nat)
    requires Unique(b) && CanPost(b, StopFire(i))
    ensures Unique(Post(b, StopFire(i)))
  {
    var b' := Post(b, StopFire(i));
    var n := b.stops[i].session;
    assert FireEnd(n) in b.stops;
    assert FireEnd(n) !in b'.stops;
  }

  lemma StopTakeStaysUnique(b: Books, i: nat)
    requires Unique(b) && CanPost(b, StopTake(i))
    ensures Unique(Post(b, StopTake(i)))
  {}

  lemma SetStopStaysUnique(b: Books, i: nat, pc: StopPc)
    requires Unique(b) && CanPost(b, SetStop(i, pc))
    ensures Unique(Post(b, SetStop(i, pc)))
  {}

  lemma PostStaysUnique(b: Books, e: Entry)
    requires Unique(b) && CanPost(b, e)
    ensures Unique(Post(b, e))
  {
    match e
    case StopFire(i) => StopFireStaysUnique(b, i);
    case StopTake(i) => StopTakeStaysUnique(b, i);
    case SetStop(i, pc) => SetStopStaysUnique(b, i, pc);
    case _ =>
  }

  /** A stop or a signal has won its CAS on session `n`: its on_end has been called or is owed. */
  ghost predicate Taken(b: Books, n: nat) {
    n in b.ends || b.held == Some(n) || FireEnd(n) in b.stops
  }

  predicate IsOpen(b: Books, n: nat) {
    b.checking && n == Latest(b.begun)
  }

  /** Every session begun is exactly one of taken, open and lapsed. */
  ghost predicate Partitioned(b: Books) {
    && (b.checking ==> b.begun > 0)
    && Distinct(b.lapsed)
    && (forall n :: n in b.lapsed ==> n < b.begun && !Taken(b, n) && !IsOpen(b, n))
    && (forall n: nat :: n < b.begun ==> Taken(b, n) || IsOpen(b, n) || n in b.lapsed)
  }

  lemma StopEntryPartitions(b: Books, e: Entry)
    requires Unique(b) && Partitioned(b) && CanPost(b, e) && (e.SetStop? || e.StopTake? || e.StopFire?)
    ensures Partitioned(Post(b, e))
  {
    var b' := Post(b, e);
    forall n: nat | n < b.begun
      ensures Taken(b', n) <==> Taken(b, n) || (e.StopTake? && n == b.begun - 1)
    {
      forall pc: StopPc | pc in b.stops && pc != b.stops[e.i]
        ensures pc in b'.stops
      {
        var j :| 0 <= j < |b.stops| && b.stops[j] == pc;
        assert b'.stops[j] == pc;
      }
      assert b'.stops[e.i] in b'.stops;
    }
  }

  lemma WorkerTakePartitions(b: Books)
    requires Unique(b) && Partitioned(b) && CanPost(b, WorkerTake)
    ensures Partitioned(Post(b, WorkerTake))
  {
    var b' := Post(b, WorkerTake);
    forall n: nat | n < b.begun
      ensures Taken(b', n) || IsOpen(b', n) || n in b'.lapsed
    {
      assert Taken(b, n) || IsOpen(b, n) || n in b.lapsed;
    }
    forall n | n in b'.lapsed
      ensures !Taken(b', n)
    {
      assert !Taken(b, n) && !IsOpen(b, n);
    }
  }

  lemma WorkerFirePartitions(b: Books)
    requires Unique(b) && Partitioned(b) && CanPost(b, WorkerFire)
    ensures Partitioned(Post(b, WorkerFire))
  {
    var b' := Post(b, WorkerFire);
    forall n: nat
      ensures Taken(b', n) <==> Taken(b, n)
    {
      assert n in b'.ends <==> n in b.ends || n == b.held.value;
    }
  }

  lemma FlagEntryPartitions(b: Books, e: Entry)
    requires Unique(b) && Partitioned(b) && CanPost(b, e) && (e.Open? || e.Reset?)
    ensures Partitioned(Post(b, e))
  {
    var b' := Post(b, e);
    assert forall n: nat :: Taken(b', n) <==> Taken(b, n);
    if b.checking { assert IsOpen(b, Latest(b.begun)) && Latest(b.begun) !in b.lapsed; }
    forall n: nat | n < b'.begun
      ensures Taken(b', n) || IsOpen(b', n) || n in b'.lapsed
    {
      if n < b.begun { assert Taken(b, n) || IsOpen(b, n) || n in b.lapsed; }
    }
    forall n | n in b'.lapsed
      ensures n < b'.begun && !Taken(b', n) && !IsOpen(b', n)
    {
      if n !in b.lapsed { assert b.checking && n == b.begun - 1; }
    }
  }

  lemma NewStopPartitions(b: Books)
    requires Unique(b) && Partitioned(b)
    ensures Partitioned(Post(b, NewStop))
  {
    assert forall n: nat :: Taken(Post(b, NewStop), n) <==> Taken(b, n);
  }

  lemma PostStaysPartitioned(b: Books, e: Entry)
    requires Unique(b) && Partitioned(b) && CanPost(b, e)
    ensures Partitioned(Post(b, e))
  {
    if e.SetStop? || e.StopTake? || e.StopFire? {
      StopEntryPartitions(b, e);
    } else if e.WorkerTake? {
      WorkerTakePartitions(b);
    } else if e.WorkerFire? {
      WorkerFirePartitions(b);
    } else if e.Open? || e.Reset? {
      FlagEntryPartitions(b, e);
    } else if e.NewStop? {
      NewStopPartitions(b);
    }
  }

  ghost predicate Sessions(s: State) {
    Balanced(BooksOf(s)) && Unique(BooksOf(s)) && Partitioned(BooksOf(s))
  }

  lemma SessionsStep(s: State, a: Action)
    requires Control(s) && Sessions(s) && Enabled(s, a)
    ensures Sessions(Apply(s, a))
  {
    PostsStep(s, a);
    PostBalances(BooksOf(s), EntryOf(s, a));
    PostStaysUnique(BooksOf(s), EntryOf(s, a));
    PostStaysPartitioned(BooksOf(s), EntryOf(s, a));
  }

  // ----- device calls -----------------------------------------------------------------------------------------

  datatype Device = Ready | Scanning | Released | Misused

  function Use(d: Device, c: Call): Device {
    match (d, c)
    case (Ready, VerifyStart(ok)) => if ok then Scanning else Ready
    case (Scanning, VerifyStop) => Ready
    case (Ready, Release) => Released
    case _ => Misused
  }

  /** The device's view of the calls made so far: a successful VerifyStart must be followed by one
      VerifyStop before the next VerifyStart or Release, and Release is last. */
  function Uses(calls: seq<Call>): Device {
    if calls == [] then Ready else Use(Uses(calls[..|calls| - 1]), calls[|calls| - 1])
  }

  lemma {:induction false} UsesSnoc(calls: seq<Call>, c: Call)
    ensures Uses(calls + [c]) == Use(Uses(calls), c)
  {
    assert (calls + [c])[..|calls|] == calls;
  }

  predicate Scans(pc: WorkerPc) {
    || pc.AtOpen? || pc.AtLoop? || pc.AtInnerRun? || pc.AtInnerCheck? || pc.AtProcess?
    || pc.AtSignal? || pc.AtSignalCas? || pc.AtSignalEnd? || pc.AtStopCall?
  }

  function Expected(pc: WorkerPc): Device {
    if Scans(pc) then Scanning else Ready
  }

  ghost predicate DeviceView(s: State) {
    var n := |s.workers|;
    if (s.client.DestroyReport? || s.client.Gone?) && s.present then Uses(s.calls) == Released
    else Uses(s.calls) == if n > 0 then Expected(s.workers[n - 1].pc) else Ready
  }

  lemma ExpectedStep(s: State, pc: WorkerPc, answer: Answer)
    requires !pc.Ended?
    ensures var c, next := DeviceCall(pc, answer), Expected(NextPc(s, pc, answer));
            |c| <= 1 && next == if c == [] then Expected(pc) else Use(Expected(pc), c[0])
  {}

  /** Each point of the worker leaves the device as the next point expects it. */
  lemma {:induction false} WorkerUses(s: State, pc: WorkerPc, answer: Answer, calls: seq<Call>)
    requires !pc.Ended? && Uses(calls) == Expected(pc)
    ensures Uses(calls + DeviceCall(pc, answer)) == Expected(NextPc(s, pc, answer))
  {
    var c := DeviceCall(pc, answer);
    ExpectedStep(s, pc, answer);
    if c == [] {
      assert calls + c == calls;
    } else {
      UsesSnoc(calls, c[0]);
      assert c == [c[0]];
    }
  }

  lemma DeviceWorker(s: State, k: nat, answer: Answer)
    requires Control(s) && DeviceView(s) && Live(s, k)
    ensures DeviceView(StepWorker(s, k, answer))
  {
    ControlWorker(s, k, answer);
    WorkerUses(s, s.workers[k].pc, answer, s.calls);
  }

  lemma {:induction false} DeviceClient(s: State, t: State)
    requires Control(s) && DeviceView(s) && !s.client.Gone? && ClientMove(s, t)
    ensures DeviceView(t)
  {
    if PastJoin(s.client) && |s.workers| > 0 { assert !Live(s, |s.workers| - 1); }
    UsesSnoc(s.calls, Release);
  }

  /** Calls and stops do not reach the device. */
  lemma SilentStep(s: State, a: Action)
    requires Enabled(s, a) && !a.WorkerStep? && !a.ClientStep?
    ensures var t := Apply(s, a);
            && t.workers == s.workers && t.calls == s.calls && t.present == s.present
            && (t.client == s.client || (s.client.Idle? && (t.client.StartCheck? || t.client.DestroyStop?)))
  {}

  lemma DeviceStep(s: State, a: Action)
    requires Control(s) && DeviceView(s) && Enabled(s, a)
    ensures DeviceView(Apply(s, a))
  {
    match a
    case WorkerStep(k, answer) => DeviceWorker(s, k, answer);
    case ClientStep(throws) =>
      ClientMoves(s, throws);
      DeviceClient(s, StepClient(s, throws));
    case _ => SilentStep(s, a);
  }

  /** After a stop has won its CAS, at most the worker already past its loop test still calls
      VerifyStart, once. */
  ghost predicate Restarts(s: State) {
    s.stopWon ==>
      && s.restarts <= 1
      && (s.restarts == 1 && LastLive(s) ==> !s.workers[|s.workers| - 1].pc.AtStart?)
  }

  lemma RestartsClient(s: State, t: State)
    requires Restarts(s) && ClientMove(s, t)
    ensures Restarts(t)
  {
    if t.workers != s.workers { assert t.workers[|t.workers| - 1] == Worker(AtHead, false); }
  }

  lemma RestartsWorker(s: State, k: nat, answer: Answer)
    requires Control(s) && Flag(s) && Restarts(s) && Live(s, k)
    ensures Restarts(StepWorker(s, k, answer))
  {
    ControlWorker(s, k, answer);
  }

  lemma RestartsStop(s: State, i: nat)
    requires Restarts(s) && StopEnabled(s, i)
    ensures Restarts(StepStop(s, i))
  {}

  lemma RestartsStep(s: State, a: Action)
    requires Control(s) && Flag(s) && Restarts(s) && Enabled(s, a)
    ensures Restarts(Apply(s, a))
  {
    match a
    case WorkerStep(k, answer) => RestartsWorker(s, k, answer);
    case StopStep(i) => RestartsStop(s, i);
    case ClientStep(throws) =>
      ClientMoves(s, throws);
      RestartsClient(s, StepClient(s, throws));
    case _ =>
  }

  // ----- callbacks ----------------------------------------------------------------------------------------------

  /** The sessions named by the on_end callbacks of a trace, in order. */
  function EndsIn(trace: seq<Event>): seq<nat> {
    if trace == [] then []
    else
      var e := trace[|trace| - 1];
      EndsIn(trace[..|trace| - 1]) + if e.OnEnd? then [e.session] else []
  }

  function FinishesIn(trace: seq<Event>): nat {
    if trace == [] then 0
    else FinishesIn(trace[..|trace| - 1]) + if trace[|trace| - 1].OnFinish? then 1 else 0
  }

  /** One callback, or none, at the end of a trace. */
  lemma {:induction false} TraceGrows(t: seq<Event>, c: seq<Event>)
    requires |c| <= 1
    ensures EndsIn(t + c) == EndsIn(t) + if c != [] && c[0].OnEnd? then [c[0].session] else []
    ensures FinishesIn(t + c) == FinishesIn(t) + if c != [] && c[0].OnFinish? then 1 else 0
  {
    if c == [] { assert t + c == t; } else { assert (t + c)[..|t|] == t; }
  }

  predicate MatchPending(s: State) {
    |s.workers| > 0 && s.workers[|s.workers| - 1].pc.AtSignal? && s.workers[|s.workers| - 1].pc.outcome.Match?
  }

  /** `ends` is exactly what the on_end callbacks said, and every on_finish answers one delivered
      verify-match signal. */
  ghost predicate Heard(s: State) {
    && s.ends == EndsIn(s.trace)
    && s.matches == FinishesIn(s.trace) + if MatchPending(s) then 1 else 0
  }

  /** A step that makes the callback `c`, or none, and keeps the counts in line with it. */
  ghost predicate Hears(s: State, t: State, c: seq<Event>) {
    && |c| <= 1
    && t.trace == s.trace + c
    && t.ends == (if c != [] && c[0].OnEnd? then s.ends + [c[0].session] else s.ends)
    && t.matches + (if MatchPending(s) then 1 else 0)
       == s.matches + (if MatchPending(t) then 1 else 0) + (if c != [] && c[0].OnFinish? then 1 else 0)
  }

  lemma {:induction false} HeardBy(s: State, t: State, c: seq<Event>)
    requires Heard(s) && Hears(s, t, c)
    ensures Heard(t)
  {
    TraceGrows(s.trace, c);
  }

  lemma HearsWorker(s: State, k: nat, answer: Answer)
    requires Control(s) && Live(s, k)
    ensures Hears(s, StepWorker(s, k, answer), Callback(s.workers[k].pc))
  {
    ControlWorker(s, k, answer);
  }

  lemma HearsClient(s: State, t: State)
    requires Control(s) && ClientMove(s, t)
    ensures Hears(s, t, Announce(s.client))
  {
    if PastJoin(s.client) && |s.workers| > 0 { assert !Live(s, |s.workers| - 1); }
  }

  function Spoken(pc: StopPc): seq<Event> {
    match pc
    case FireEnd(n) => [OnEnd(n)]
    case FireStop => [OnStop]
    case _ => []
  }

  lemma HearsStop(s: State, i: nat)
    requires StopEnabled(s, i)
    ensures Hears(s, StepStop(s, i), Spoken(s.stops[i]))
  {}

  lemma HeardStep(s: State, a: Action)
    requires Control(s) && Heard(s) && Enabled(s, a)
    ensures Heard(Apply(s, a))
  {
    match a
    case WorkerStep(k, answer) =>
      HearsWorker(s, k, answer);
      HeardBy(s, StepWorker(s, k, answer), Callback(s.workers[k].pc));
    case ClientStep(throws) =>
      ClientMoves(s, throws);
      HearsClient(s, StepClient(s, throws));
      HeardBy(s, StepClient(s, throws), Announce(s.client));
    case StopStep(i) =>
      HearsStop(s, i);
      HeardBy(s, StepStop(s, i), Spoken(s.stops[i]));
    case _ =>
  }

  // ----- all runs -----------------------------------------------------------------------------------------------

  ghost predicate Inv(s: State) {
    Control(s) && Flag(s) && Sessions(s) && DeviceView(s) && Restarts(s) && Heard(s)
  }

  lemma InvStep(s: State, a: Action)
    requires Inv(s) && Enabled(s, a)
    ensures Inv(Apply(s, a))
  {
    ControlStep(s, a);
    FlagStep(s, a);
    SessionsStep(s, a);
    DeviceStep(s, a);
    RestartsStep(s, a);
    HeardStep(s, a);
  }

  lemma {:induction false} InvRun(s: State, acts: seq<Action>)
    requires Inv(s)
    ensures Exec(s, acts).Some? ==> Inv(Exec(s, acts).value)
  {
    if acts != [] && Exec(s, acts).Some? {
      var prefix := acts[..|acts| - 1];
      InvRun(s, prefix);
      InvStep(Exec(s, prefix).value, acts[|acts| - 1]);
    }
  }

  lemma InvReachable(s: State)
    requires Reachable(s)
    ensures Inv(s)
  {
    var present, acts :| Exec(Init(present), acts) == Some(s);
    InvRun(Init(present), acts);
  }

  // ----- theorems -----------------------------------------------------------------------------------------------

  lemma WorkersAreSerial(s: State, j: nat, k: nat)
    requires Reachable(s) && Live(s, j) && Live(s, k)
    ensures j == k
  {
    InvReachable(s);
  }

  /** Check sessions are conserved over all races of sensor completion and stop: those begun are
      the on_end callbacks made, those owed by a thread past its CAS, those overwritten or reset
      while open, and the one that is open; and no session is ended twice. */
  lemma SessionsAreConserved(s: State)
    requires Reachable(s)
    ensures s.begun == |EndsIn(s.trace)| + Owed(s.stops) + (if BooksOf(s).held.Some? then 1 else 0)
                       + |s.lapsed| + (if s.checking then 1 else 0)
    ensures Distinct(EndsIn(s.trace))
    ensures forall n :: n in EndsIn(s.trace) ==> n < s.begun && FireEnd(n) !in s.stops
    ensures s.checking ==> s.begun > 0 && s.begun - 1 !in EndsIn(s.trace)
  {
    InvReachable(s);
  }

  /** What becomes of each session: exactly one of ended (with its own on_end), owed its on_end by a
      thread whose CAS took it, open, and lapsed.  So a session lapses exactly if neither a stop
      nor a signal has won its CAS on it by the time the flag is overwritten or reset. */
  lemma {:induction false} SessionsArePartitioned(s: State, n: nat)
    requires Reachable(s) && n < s.begun
    ensures var owed := FireEnd(n) in s.stops || BooksOf(s).held == Some(n);
            var open := s.checking && n == Current(s);
            && (n in s.lapsed <==> !open && !owed && n !in EndsIn(s.trace))
            && !(open && owed) && !(open && n in EndsIn(s.trace)) && !(owed && n in EndsIn(s.trace))
  {
    InvReachable(s);
    PartOf(BooksOf(s), n);
  }

  lemma PartOf(b: Books, n: nat)
    requires Unique(b) && Partitioned(b) && n < b.begun
    ensures n in b.lapsed <==> !IsOpen(b, n) && !Taken(b, n)
    ensures !(IsOpen(b, n) && Taken(b, n))
    ensures n in b.ends ==> b.held != Some(n) && FireEnd(n) !in b.stops
  {}

  /** Every on_finish answers one delivered verify-match signal, and every such signal has had its
      on_finish but for one about to be made. */
  lemma FinishNeedsMatch(s: State)
    requires Reachable(s)
    ensures s.matches == FinishesIn(s.trace) + if MatchPending(s) then 1 else 0
  {
    InvReachable(s);
  }

  /** Device calls stay well formed across restarts: every successful VerifyStart is followed by
      one VerifyStop before the next VerifyStart or Release, and after Release nothing follows;
      Release happens only when no worker is live. */
  lemma DeviceIsNeverMisused(s: State)
    requires Reachable(s)
    ensures Uses(s.calls) != Misused
    ensures Uses(s.calls) == Released ==> !LastLive(s)
  {
    InvReachable(s);
    if LastLive(s) { assert Live(s, |s.workers| - 1); }
  }

  /** After a stop wins its CAS, at most one further VerifyStart occurs until the next start. */
  lemma OneRestartAfterStop(s: State)
    requires Reachable(s) && s.stopWon
    ensures !s.running && s.restarts <= 1
  {
    InvReachable(s);
  }

  /** The flag outlives an unjoined worker exactly when that worker broke off on an error and no
      stop has won since; the next start is then refused. */
  lemma FlagOutlivesWorkerIff(s: State)
    requires Reachable(s) && s.handle.Some? && !LastLive(s)
    ensures |s.workers| > 0
    ensures s.running <==> s.workers[|s.workers| - 1].broke && !s.stopWon
    ensures s.client.StartCheck? ==> (NextClient(s, false).Idle? <==> s.running)
  {
    InvReachable(s);
    FlagOfInv(s);
  }

  lemma FlagOfInv(s: State)
    requires Control(s) && Flag(s) && s.handle.Some? && !LastLive(s)
    ensures |s.workers| > 0
    ensures s.running <==> s.workers[|s.workers| - 1].broke && !s.stopWon
  {}

  // ----- teardown ---------------------------------------------------------------------------------------------------

  /** Steps left to a worker whose flag is down. */
  function Rank(pc: WorkerPc): nat {
    match pc
    case AtStart => 12 case AtOpen => 11 case AtLoop => 10 case AtInnerCheck => 9
    case AtProcess => 8 case AtSignal(_, _) => 7 case AtSignalCas => 6 case AtSignalEnd(_) => 5
    case AtInnerRun => 4 case AtStopCall => 3 case AtHead => 2 case AtMissing => 1
    case AtStartError => 1 case Ended => 0
  }

  function LastRank(s: State): nat {
    if |s.workers| == 0 then 0 else Rank(s.workers[|s.workers| - 1].pc)
  }

  lemma RankDrops(s: State, pc: WorkerPc, answer: Answer)
    requires !s.running && !pc.Ended?
    ensures Rank(NextPc(s, pc, answer)) < Rank(pc)
  {}

  function WorkerSteps(acts: seq<Action>): nat {
    if acts == [] then 0 else WorkerSteps(acts[..|acts| - 1]) + if acts[|acts| - 1].WorkerStep? then 1 else 0
  }

  lemma TeardownWorker(s: State, k: nat, answer: Answer)
    requires Control(s) && TearingDown(s.client) && Live(s, k)
    ensures var t := StepWorker(s, k, answer);
            t.client == s.client && !t.running && LastRank(t) < LastRank(s)
  {
    ControlWorker(s, k, answer);
    RankDrops(s, s.workers[k].pc, answer);
  }

  lemma TeardownClient(s: State, throws: bool)
    requires Control(s) && TearingDown(s.client) && ClientEnabled(s)
    ensures var t := StepClient(s, throws);
            TearingDown(t.client) && !t.running && LastRank(t) == LastRank(s)
  {
    ClientMakesCalls(s, throws);
  }

  lemma TeardownStop(s: State, i: nat)
    requires TearingDown(s.client) && !s.running && StopEnabled(s, i)
    ensures var t := StepStop(s, i);
            t.client == s.client && !t.running && t.workers == s.workers
  {}

  lemma TeardownStep(s: State, a: Action)
    requires Inv(s) && TearingDown(s.client) && Enabled(s, a)
    ensures var t := Apply(s, a);
            TearingDown(t.client) && !t.running
            && LastRank(t) <= LastRank(s) - (if a.WorkerStep? then 1 else 0)
  {
    match a
    case WorkerStep(k, answer) => TeardownWorker(s, k, answer);
    case ClientStep(throws) => TeardownClient(s, throws);
    case StopStep(i) => TeardownStop(s, i);
    case _ =>
  }

  /** Once the destructor's stop has returned the flag stays down, and the worker, whose every step
      is enabled, ends within twelve of its own steps whatever the others and the sensor do. */
  lemma {:induction false} TeardownIsBounded(s: State, acts: seq<Action>)
    requires Inv(s) && TearingDown(s.client) && Exec(s, acts).Some?
    ensures var t := Exec(s, acts).value;
            Inv(t) && TearingDown(t.client) && !t.running
            && LastRank(t) + WorkerSteps(acts) <= LastRank(s) <= 12
  {
    if acts != [] {
      var prefix := acts[..|acts| - 1];
      TeardownIsBounded(s, prefix);
      InvStep(Exec(s, prefix).value, acts[|acts| - 1]);
      TeardownStep(Exec(s, prefix).value, acts[|acts| - 1]);
    }
  }

  lemma {:induction false} ExecCons(s: State, a: Action, acts: seq<Action>)
    requires Enabled(s, a)
    ensures Exec(s, [a] + acts) == Exec(Apply(s, a), acts)
  {
    if acts == [] {
      assert ([a] + acts)[..0] == [];
    } else {
      var prefix := acts[..|acts| - 1];
      assert ([a] + acts)[..|acts|] == [a] + prefix;
      ExecCons(s, a, prefix);
    }
  }

  function ClientRank(c: ClientPc): nat {
    match c case DestroyJoin => 3 case DestroyRelease => 2 case DestroyReport => 1 case _ => 0
  }

  /** The next action of the teardown: the worker's, while it lives, and then the destructor's. */
  function TeardownAction(s: State): Action {
    if LastLive(s) then WorkerStep(|s.workers| - 1, Fine) else ClientStep(false)
  }

  lemma TeardownProgress(s: State)
    requires Inv(s) && TearingDown(s.client) && !s.client.Gone?
    ensures Enabled(s, TeardownAction(s))
    ensures var t := Apply(s, TeardownAction(s));
            LastRank(t) + ClientRank(t.client) < LastRank(s) + ClientRank(s.client)
  {
    if LastLive(s) { TeardownWorker(s, |s.workers| - 1, Fine); } else { TeardownClient(s, false); }
  }

  /** From every teardown state the destructor can run to its end, whatever the sensor does. */
  lemma {:induction false} TeardownCompletes(s: State) returns (acts: seq<Action>)
    requires Inv(s) && TearingDown(s.client)
    ensures Exec(s, acts).Some? && Exec(s, acts).value.client.Gone?
    decreases LastRank(s) + ClientRank(s.client)
  {
    if s.client.Gone? {
      acts := [];
    } else {
      var a := TeardownAction(s);
      TeardownProgress(s);
      InvStep(s, a);
      TeardownStep(s, a);
      var rest := TeardownCompletes(Apply(s, a));
      ExecCons(s, a, rest);
      acts := [a] + rest;
    }
  }

  /** Teardown terminates, in every interleaving: once the destructor's stop has returned the flag
      stays down, the worker makes at most twelve more steps, a live worker always has its next
      step enabled and after it the destructor, which can so reach its end. */
  lemma TeardownTerminates(s: State, acts: seq<Action>) returns (rest: seq<Action>)
    requires Reachable(s) && TearingDown(s.client) && Exec(s, acts).Some?
    ensures var t := Exec(s, acts).value;
            && !t.running && WorkerSteps(acts) <= 12
            && (t.client.Gone? || Enabled(t, TeardownAction(t)))
            && Exec(t, rest).Some? && Exec(t, rest).value.client.Gone?
  {
    InvReachable(s);
    TeardownIsBounded(s, acts);
    var t := Exec(s, acts).value;
    if !t.client.Gone? { TeardownProgress(t); }
    rest := TeardownCompletes(t);
  }
}
